/** Planning of one GET request (src/pyhems/get_batch_policy.py): the device-specific
    constraints and the greedy choice of the first batch. */
module GetBatchPolicy {
  import opened Basics

  /** Constraints on the EPCs of one GET request. */
  datatype Policy = Policy(incompatiblePairs: seq<set<Epc>>, maxBatchSize: Option<pos>)

  const PANASONIC: int := 0x00000B
  const KOIZUMI: int := 0x0000E8

  function PolicyFor(manufacturer: Option<int>, classCode: int): Option<Policy> {
    match manufacturer
    case None => None
    case Some(code) =>
      if code == PANASONIC && classCode == 0x0287 then Some(Policy([{0xB3, 0xB7}], None))
      else if code == KOIZUMI && classCode == 0x0290 then Some(Policy([], Some(14)))
      else if code == KOIZUMI && classCode == 0x02A3 then Some(Policy([], Some(9)))
      else None
  }

  predicate HasPolicyForClass(classCode: int) {
    classCode == 0x0287 || classCode == 0x0290 || classCode == 0x02A3
  }

  /** The pair forbids `epc` beside what the batch already holds. */
  predicate Clashes(pair: set<Epc>, batch: seq<Epc>, epc: Epc) {
    epc in pair && exists other :: other in batch && other in pair && other != epc
  }

  predicate CanAddToBatch(batch: seq<Epc>, epc: Epc, policy: Option<Policy>) {
    policy.None? ||
    forall i :: 0 <= i < |policy.value.incompatiblePairs| ==>
      !Clashes(policy.value.incompatiblePairs[i], batch, epc)
  }

  function Capacity(observed: Option<pos>, policy: Option<Policy>): Option<pos> {
    if policy.None? || policy.value.maxBatchSize.None? then observed
    else if observed.None? then policy.value.maxBatchSize
    else Some(Min(observed.value, policy.value.maxBatchSize.value))
  }

  predicate Full(batch: seq<Epc>, capacity: Option<pos>) {
    capacity.Some? && |batch| >= capacity.value
  }

  /** There is room for the EPC and it does not clash. */
  predicate Accepts(batch: seq<Epc>, epc: Epc, capacity: Option<pos>, policy: Option<Policy>) {
    !Full(batch, capacity) && CanAddToBatch(batch, epc, policy)
  }

  /** The batch and the remainder after every EPC of `epcs` has been placed, left to right. */
  function Split(epcs: seq<Epc>, capacity: Option<pos>, policy: Option<Policy>): (seq<Epc>, seq<Epc>) {
    if epcs == [] then ([], [])
    else
      var last := |epcs| - 1;
      var p := Split(epcs[..last], capacity, policy);
      if Accepts(p.0, epcs[last], capacity, policy)
      then (p.0 + [epcs[last]], p.1)
      else (p.0, p.1 + [epcs[last]])
  }

  function FirstBatch(epcs: seq<Epc>, manufacturer: Option<int>, classCode: int, observed: Option<pos>)
    : (seq<Epc>, seq<Epc>)
  {
    var policy := PolicyFor(manufacturer, classCode);
    Split(epcs, Capacity(observed, policy), policy)
  }

  datatype PlanError = NonPositiveCapacity

  method TakeFirstBatch(epcs: seq<Epc>, manufacturer: Option<int>, classCode: int, observed: Option<int>)
    returns (r: Result<(seq<Epc>, seq<Epc>), PlanError>)
    ensures r.Err? <==> observed.Some? && observed.value < 1
    ensures r.Ok? ==>
      r.value == FirstBatch(epcs, manufacturer, classCode,
                            if observed.None? then None else Some(observed.value))
  {
    if observed.Some? && observed.value < 1 {
      return Err(NonPositiveCapacity);
    }
    var policy := PolicyFor(manufacturer, classCode);
    var capacity: Option<pos> := if observed.None? then None else Some(observed.value);
    if policy.Some? && policy.value.maxBatchSize.Some? {
      capacity := if capacity.None? then policy.value.maxBatchSize
                  else Some(Min(capacity.value, policy.value.maxBatchSize.value));
    }
    var batch: seq<Epc>, remaining: seq<Epc> := [], [];
    for i := 0 to |epcs|
      invariant (batch, remaining) == Split(epcs[..i], capacity, policy)
    {
      assert epcs[..i + 1][..i] == epcs[..i];
      if Full(batch, capacity) || !CanAddToBatch(batch, epcs[i], policy) {
        remaining := remaining + [epcs[i]];
      } else {
        batch := batch + [epcs[i]];
      }
    }
    assert epcs[..|epcs|] == epcs;
    return Ok((batch, remaining));
  }

  // ---- What the plan means ----

  /** The elements of `s` whose mark equals `want`, in order. */
  function Pick<T>(s: seq<T>, marks: seq<bool>, want: bool): seq<T>
    requires |marks| == |s|
  {
    if s == [] then []
    else
      var last := |s| - 1;
      Pick(s[..last], marks[..last], want) + (if marks[last] == want then [s[last]] else [])
  }

  /** `marks` takes an EPC exactly when what was taken before it leaves room and does not clash. */
  ghost predicate Greedy(epcs: seq<Epc>, marks: seq<bool>, capacity: Option<pos>, policy: Option<Policy>) {
    && |marks| == |epcs|
    && forall i :: 0 <= i < |epcs| ==>
         var earlier := Pick(epcs[..i], marks[..i], true);
         marks[i] <==> Accepts(earlier, epcs[i], capacity, policy)
  }

  /** The plan is the greedy one: batch and remainder are the two order-preserving halves of a
      marking that takes every EPC it can. */
  lemma {:induction false} SplitIsGreedy(epcs: seq<Epc>, capacity: Option<pos>, policy: Option<Policy>)
    returns (marks: seq<bool>)
    ensures Greedy(epcs, marks, capacity, policy)
    ensures Split(epcs, capacity, policy) == (Pick(epcs, marks, true), Pick(epcs, marks, false))
  {
    if epcs == [] {
      marks := [];
    } else {
      var last := |epcs| - 1;
      var before := SplitIsGreedy(epcs[..last], capacity, policy);
      var taken := Pick(epcs[..last], before, true);
      marks := before + [Accepts(taken, epcs[last], capacity, policy)];
      assert marks[..last] == before;
      GreedyExtends(epcs, before, marks, capacity, policy);
      var p := Split(epcs[..last], capacity, policy);
      assert p.0 == taken;
      assert Pick(epcs, marks, true) == Split(epcs, capacity, policy).0;
      assert Pick(epcs, marks, false) == Split(epcs, capacity, policy).1;
    }
  }

  lemma GreedyExtends(epcs: seq<Epc>, before: seq<bool>, marks: seq<bool>, capacity: Option<pos>, policy: Option<Policy>)
    requires epcs != [] && |marks| == |epcs| && before == marks[..|epcs| - 1]
    requires Greedy(epcs[..|epcs| - 1], before, capacity, policy)
    requires var taken := Pick(epcs[..|epcs| - 1], before, true);
      marks[|epcs| - 1] <==> Accepts(taken, epcs[|epcs| - 1], capacity, policy)
    ensures Greedy(epcs, marks, capacity, policy)
  {
    var last := |epcs| - 1;
    forall i | 0 <= i < |epcs|
      ensures marks[i] <==> Accepts(Pick(epcs[..i], marks[..i], true), epcs[i], capacity, policy)
    {
      if i < last {
        assert epcs[..last][..i] == epcs[..i] && before[..i] == marks[..i];
        assert epcs[..last][i] == epcs[i] && before[i] == marks[i];
      }
    }
  }

  /** Only one marking is greedy, so the previous lemma determines the plan. */
  lemma {:induction false} GreedyIsUnique(epcs: seq<Epc>, a: seq<bool>, b: seq<bool>, capacity: Option<pos>,
                                          policy: Option<Policy>)
    requires Greedy(epcs, a, capacity, policy) && Greedy(epcs, b, capacity, policy)
    ensures a == b
  {
    if epcs != [] {
      var last := |epcs| - 1;
      GreedyPrefix(epcs, a, capacity, policy);
      GreedyPrefix(epcs, b, capacity, policy);
      GreedyIsUnique(epcs[..last], a[..last], b[..last], capacity, policy);
      assert a[last] == b[last];
      assert a == a[..last] + [a[last]] && b == b[..last] + [b[last]];
    }
  }

  lemma GreedyPrefix(epcs: seq<Epc>, marks: seq<bool>, capacity: Option<pos>, policy: Option<Policy>)
    requires epcs != [] && Greedy(epcs, marks, capacity, policy)
    ensures Greedy(epcs[..|epcs| - 1], marks[..|epcs| - 1], capacity, policy)
  {
    var last := |epcs| - 1;
    forall i | 0 <= i < last ensures
      var earlier := Pick(epcs[..last][..i], marks[..last][..i], true);
      marks[i] <==> Accepts(earlier, epcs[i], capacity, policy)
    {
      assert epcs[..last][..i] == epcs[..i] && marks[..last][..i] == marks[..i];
    }
  }

  /** No two different EPCs of the batch belong to one incompatible pair. */
  ghost predicate ConflictFree(batch: seq<Epc>, policy: Option<Policy>) {
    policy.Some? ==>
      forall k, i, j :: 0 <= k < |policy.value.incompatiblePairs| && 0 <= i < |batch| && 0 <= j < |batch|
        && batch[i] in policy.value.incompatiblePairs[k] && batch[j] in policy.value.incompatiblePairs[k]
        ==> batch[i] == batch[j]
  }

  /** A plan loses and invents nothing. */
  lemma {:induction false} SplitPartitions(epcs: seq<Epc>, capacity: Option<pos>, policy: Option<Policy>)
    ensures var p := Split(epcs, capacity, policy);
      multiset(p.0) + multiset(p.1) == multiset(epcs) && |p.0| + |p.1| == |epcs|
  {
    if epcs != [] {
      var last := |epcs| - 1;
      SplitPartitions(epcs[..last], capacity, policy);
      var p, e := Split(epcs[..last], capacity, policy), epcs[last];
      assert epcs == epcs[..last] + [e];
      if Accepts(p.0, e, capacity, policy) {
        assert multiset(p.0 + [e]) == multiset(p.0) + multiset{e};
      } else {
        assert multiset(p.1 + [e]) == multiset(p.1) + multiset{e};
      }
    }
  }

  /** A plan for a non-empty request makes progress. */
  lemma {:induction false} SplitTakesOne(epcs: seq<Epc>, capacity: Option<pos>, policy: Option<Policy>)
    requires epcs != []
    ensures Split(epcs, capacity, policy).0 != []
  {
    var last := |epcs| - 1;
    if last > 0 {
      SplitTakesOne(epcs[..last], capacity, policy);
    } else {
      assert Accepts([], epcs[0], capacity, policy);
    }
  }

  lemma {:induction false} SplitMembers(epcs: seq<Epc>, capacity: Option<pos>, policy: Option<Policy>, e: Epc)
    ensures var p := Split(epcs, capacity, policy); e in epcs <==> e in p.0 || e in p.1
  {
    SplitPartitions(epcs, capacity, policy);
    var p := Split(epcs, capacity, policy);
    assert e in epcs <==> e in multiset(epcs);
    assert e in p.0 <==> e in multiset(p.0);
    assert e in p.1 <==> e in multiset(p.1);
  }

  /** Distinct EPCs stay distinct, and none is in both halves. */
  lemma {:induction false} SplitKeepsDistinct(epcs: seq<Epc>, capacity: Option<pos>, policy: Option<Policy>)
    requires NoDup(epcs)
    ensures var p := Split(epcs, capacity, policy); NoDup(p.0 + p.1)
  {
    if epcs != [] {
      var last := |epcs| - 1;
      SplitKeepsDistinct(epcs[..last], capacity, policy);
      var p, q := Split(epcs[..last], capacity, policy), Split(epcs, capacity, policy);
      var e := epcs[last];
      SplitMembers(epcs[..last], capacity, policy, e);
      assert e !in p.0 + p.1;
      NoDupInsert(p.0, p.1, e);
      assert q == (p.0 + [e], p.1) || q == (p.0, p.1 + [e]);
    }
  }

  lemma NoDupInsert(a: seq<Epc>, b: seq<Epc>, e: Epc)
    requires NoDup(a + b) && e !in a + b
    ensures NoDup((a + [e]) + b) && NoDup(a + (b + [e]))
  {
    var c := (a + [e]) + b;
    forall i, j | 0 <= i < j < |c| ensures c[i] != c[j] {
      var i' := if i <= |a| then i else i - 1;
      var j' := if j <= |a| then j else j - 1;
      assert i < |a| ==> (a + b)[i] == c[i];
      assert i > |a| ==> (a + b)[i - 1] == c[i];
      assert j < |a| ==> (a + b)[j] == c[j];
      assert j > |a| ==> (a + b)[j - 1] == c[j];
    }
    assert a + (b + [e]) == (a + b) + [e];
  }

  /** A batch respects the limit, the policy's cap and the incompatible pairs. */
  lemma {:induction false} SplitIsLegal(epcs: seq<Epc>, capacity: Option<pos>, policy: Option<Policy>)
    ensures var batch := Split(epcs, capacity, policy).0;
      && (capacity.Some? ==> |batch| <= capacity.value)
      && ConflictFree(batch, policy)
  {
    if epcs != [] {
      var last := |epcs| - 1;
      SplitIsLegal(epcs[..last], capacity, policy);
    }
  }

  /** Greedily maximal: an EPC is left over only when the batch is full or the EPC clashes with it. */
  lemma {:induction false} SplitIsMaximal(epcs: seq<Epc>, capacity: Option<pos>, policy: Option<Policy>, e: Epc)
    requires e in Split(epcs, capacity, policy).1
    ensures var batch := Split(epcs, capacity, policy).0;
      Full(batch, capacity) || !CanAddToBatch(batch, e, policy)
  {
    var last := |epcs| - 1;
    var before, after := Split(epcs[..last], capacity, policy), Split(epcs, capacity, policy);
    assert after == (before.0 + [epcs[last]], before.1) || after == (before.0, before.1 + [epcs[last]]);
    if e in before.1 {
      SplitIsMaximal(epcs[..last], capacity, policy, e);
      if !Full(before.0, capacity) {
        ClashStays(before.0, after.0, e, policy);
      }
    }
  }

  lemma ClashStays(small: seq<Epc>, large: seq<Epc>, e: Epc, policy: Option<Policy>)
    requires !CanAddToBatch(small, e, policy)
    requires forall x :: x in small ==> x in large
    ensures !CanAddToBatch(large, e, policy)
  {
    var i :| 0 <= i < |policy.value.incompatiblePairs| && Clashes(policy.value.incompatiblePairs[i], small, e);
    assert Clashes(policy.value.incompatiblePairs[i], large, e);
  }

  /** Without a policy the batch is the longest prefix that fits. */
  lemma {:induction false} SplitWithoutPolicy(epcs: seq<Epc>, capacity: Option<pos>)
    ensures var k := if capacity.None? then |epcs| else Min(capacity.value, |epcs|);
      Split(epcs, capacity, None) == (epcs[..k], epcs[k..])
  {
    if epcs != [] {
      var last := |epcs| - 1;
      SplitWithoutPolicy(epcs[..last], capacity);
      var k := if capacity.None? then |epcs| else Min(capacity.value, |epcs|);
      if k <= last {
        assert epcs[..last][..k] == epcs[..k];
        assert epcs[..last][k..] + [epcs[last]] == epcs[k..];
      } else {
        assert epcs[..last][..last] + [epcs[last]] == epcs[..k];
        assert epcs[..last][last..] == epcs[k..];
      }
    }
  }
}
