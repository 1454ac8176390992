/** What holds of every run of the batching loop, whatever the device does and whatever other calls
    store in the shared capability record meanwhile. */
module GetBatchTheorems {
  import opened Basics
  import opened GetBatchPolicy
  import opened GetBatches

  // ---- Facts about one planned batch and one reply ----

  ghost predicate Planned(s: State, batch: seq<Epc>, rest: seq<Epc>) {
    && batch != []
    && |batch| + |rest| == |s.queue|
    && (s.limit.Some? ==> |batch| <= s.limit.value)
    && (s.probeSize.Some? ==> |batch| <= s.probeSize.value)
    && NoDup(batch + rest)
    && forall e :: e in s.queue <==> e in batch + rest
  }

  lemma NoDupParts(a: seq<Epc>, b: seq<Epc>)
    requires NoDup(a + b)
    ensures NoDup(a) && NoDup(b) && (forall e :: e in a ==> e !in b)
  {
    forall i, j | 0 <= i < j < |a| ensures a[i] != a[j] { assert (a + b)[i] == a[i] && (a + b)[j] == a[j]; }
    forall i, j | 0 <= i < j < |b| ensures b[i] != b[j] {
      assert (a + b)[|a| + i] == b[i] && (a + b)[|a| + j] == b[j];
    }
    forall i, j | 0 <= i < |a| && 0 <= j < |b| ensures a[i] != b[j] {
      assert (a + b)[i] == a[i] && (a + b)[|a| + j] == b[j];
    }
  }

  lemma NoDupJoin(a: seq<Epc>, b: seq<Epc>)
    requires NoDup(a) && NoDup(b) && forall e :: e in a ==> e !in b
    ensures NoDup(a + b)
  {
    var c := a + b;
    forall i, j | 0 <= i < j < |c| ensures c[i] != c[j] {
      if i < |a| <= j {
        assert c[i] in a && c[j] in b;
      }
    }
  }

  /** What "the first property listed" means. */
  lemma {:induction false} MatchedIsFirstListed(properties: seq<Property>, batch: seq<Epc>, e: Epc)
    ensures e in Matched(properties, batch) <==> e in batch && exists i :: 0 <= i < |properties| && properties[i].epc == e
    ensures e in Matched(properties, batch) ==>
      exists i :: 0 <= i < |properties| && properties[i].epc == e && Matched(properties, batch)[e] == properties[i]
        && forall j :: 0 <= j < i ==> properties[j].epc != e
  {
    if properties != [] {
      var last := |properties| - 1;
      MatchedIsFirstListed(properties[..last], batch, e);
      assert forall i :: 0 <= i < last ==> properties[..last][i] == properties[i];
      if e in Matched(properties[..last], batch) {
        var i :| 0 <= i < last && properties[..last][i].epc == e
              && Matched(properties[..last], batch)[e] == properties[..last][i]
              && forall j :: 0 <= j < i ==> properties[..last][j].epc != e;
        assert properties[i].epc == e && forall j :: 0 <= j < i ==> properties[j].epc != e;
      } else if e in Matched(properties, batch) {
        assert properties[last].epc == e;
        assert forall j :: 0 <= j < last ==> properties[j].epc != e;
      }
    }
  }

  lemma AnswerCount(reply: Reply, batch: seq<Epc>)
    requires NoDup(batch)
    ensures |Answer(reply, batch)| <= |batch|
    ensures |Answer(reply, batch)| == |batch| <==> forall e :: e in batch ==> e in Answer(reply, batch)
  {
    CardinalityOfDistinct(batch);
    var keys := Answer(reply, batch).Keys;
    SubsetCount(keys, ToSet(batch));
    assert keys == ToSet(batch) <==> forall e :: e in batch ==> e in keys;
  }

  lemma {:induction false} OmittedKeepsDistinct(batch: seq<Epc>, matched: map<Epc, Property>)
    requires NoDup(batch)
    ensures NoDup(Omitted(batch, matched))
  {
    if batch != [] {
      var last := |batch| - 1;
      OmittedKeepsDistinct(batch[..last], matched);
      assert batch[last] !in batch[..last];
    }
  }

  // ---- Request bound ----

  /** ceil(log2 n): how often n can be halved, rounding up, before it reaches 1. */
  function CeilLog2(n: nat): nat {
    if n <= 1 then 0 else 1 + CeilLog2((n + 1) / 2)
  }

  function Pow2(k: nat): pos {
    if k == 0 then 1 else 2 * Pow2(k - 1)
  }

  lemma {:induction false} CeilLog2IsLeast(n: pos)
    ensures n <= Pow2(CeilLog2(n)) < 2 * n
  {
    if n > 1 {
      CeilLog2IsLeast((n + 1) / 2);
      EvenBetween(n, Pow2(CeilLog2((n + 1) / 2)));
    }
  }

  lemma EvenBetween(n: pos, p: pos)
    requires n > 1 && (n + 1) / 2 <= p < 2 * ((n + 1) / 2)
    requires p == 1 || p % 2 == 0
    ensures n <= 2 * p < 2 * n
  {
  }

  lemma {:induction false} CeilLog2Monotone(a: nat, b: nat)
    requires a <= b
    ensures CeilLog2(a) <= CeilLog2(b)
  {
    if a > 1 {
      CeilLog2Monotone((a + 1) / 2, (b + 1) / 2);
    }
  }

  function Halvings(log: seq<Exchange>): nat {
    if log == [] then 0
    else Halvings(log[..|log| - 1]) + (if log[|log| - 1].effect.Halved? then 1 else 0)
  }

  /** No batch is ever larger than this; halving a batch halves it, and nothing makes it grow. */
  function Potential(s: State): nat {
    var q := |s.queue|;
    var l := if s.limit.Some? then Min(q, s.limit.value) else q;
    if s.probeSize.Some? then Min(l, s.probeSize.value) else l
  }

  ghost predicate WithinBound(s: State, n: nat) {
    && Halvings(s.log) + CeilLog2(Potential(s)) <= CeilLog2(n)
    && |s.log| - Halvings(s.log) + |s.queue| <= n
  }

  lemma AdvanceKeepsDistinct(s: State, batch: seq<Epc>, rest: seq<Epc>, reply: Reply, probe: bool)
    requires Planned(s, batch, rest) && NoDup(s.queue)
    ensures NoDup(Advance(s, batch, rest, reply, probe).queue)
  {
    NoDupParts(batch, rest);
    OmittedKeepsDistinct(batch, Answer(reply, batch));
    NoDupJoin(Omitted(batch, Answer(reply, batch)), rest);
  }

  lemma HalvingPotential(s: State, batch: seq<Epc>, rest: seq<Epc>, reply: Reply, probe: bool)
    requires Planned(s, batch, rest) && EffectOf(batch, s.limit, reply, probe).Halved?
    ensures var t := Advance(s, batch, rest, reply, probe);
      probe && 1 < |batch| <= Potential(s) && Potential(t) <= (|batch| + 1) / 2 && |t.queue| == |s.queue|
  {
  }

  lemma PartialPotential(s: State, batch: seq<Epc>, rest: seq<Epc>, reply: Reply, probe: bool)
    requires Planned(s, batch, rest) && EffectOf(batch, s.limit, reply, probe).Partial?
    ensures var t := Advance(s, batch, rest, reply, probe);
      Potential(t) <= Potential(s) && |t.queue| < |s.queue|
  {
    var matched := Answer(reply, batch);
    assert matched.Keys != {};
    var e :| e in matched;
    OmittedIsShorter(batch, matched);
  }

  lemma CompletePotential(s: State, batch: seq<Epc>, rest: seq<Epc>, reply: Reply, probe: bool)
    requires Planned(s, batch, rest) && EffectOf(batch, s.limit, reply, probe).Complete?
    ensures var t := Advance(s, batch, rest, reply, probe);
      Potential(t) <= Potential(s) && |t.queue| < |s.queue|
  {
  }

  lemma AdvancePotential(s: State, batch: seq<Epc>, rest: seq<Epc>, reply: Reply, probe: bool)
    requires Planned(s, batch, rest)
    ensures var t := Advance(s, batch, rest, reply, probe);
      && (LastEffect(t).Aborting? ==> t.queue == s.queue)
      && (LastEffect(t).Halved? ==>
            probe && 1 < Potential(s) && Potential(t) <= (Potential(s) + 1) / 2 && |t.queue| == |s.queue|)
      && (LastEffect(t).Partial? || LastEffect(t).Complete? ==> Potential(t) <= Potential(s) && |t.queue| < |s.queue|)
  {
    match EffectOf(batch, s.limit, reply, probe)
    case Halved => HalvingPotential(s, batch, rest, reply, probe);
    case Partial => PartialPotential(s, batch, rest, reply, probe);
    case Complete => CompletePotential(s, batch, rest, reply, probe);
    case Aborting(_) =>
  }

  lemma AdvanceWithinBound(s: State, batch: seq<Epc>, rest: seq<Epc>, reply: Reply, probe: bool, n: nat)
    requires Planned(s, batch, rest) && WithinBound(s, n)
    ensures var t := Advance(s, batch, rest, reply, probe);
      && Halvings(t.log) == Halvings(s.log) + (if LastEffect(t).Halved? then 1 else 0)
      && (LastEffect(t).Aborting? ==> |t.log| == |s.log| + 1)
      && (!LastEffect(t).Aborting? ==> WithinBound(t, n))
  {
    var t := Advance(s, batch, rest, reply, probe);
    assert t.log[..|t.log| - 1] == s.log;
    AdvancePotential(s, batch, rest, reply, probe);
    if LastEffect(t).Halved? {
      CeilLog2Monotone(Potential(t), (Potential(s) + 1) / 2);
    } else if !LastEffect(t).Aborting? {
      CeilLog2Monotone(Potential(t), Potential(s));
    }
  }

  lemma PlanIsPlanned(s: State, classCode: int)
    requires s.queue != [] && NoDup(s.queue)
    ensures Planned(s, Plan(s, classCode).0, Plan(s, classCode).1)
  {
    PlanFits(s, classCode);
  }

  lemma {:induction false} ExecWithinBound(s: State, device: Device, probe: bool, classCode: int, n: nat)
    requires NoDup(s.queue) && WithinBound(s, n)
    ensures var log := Exec(s, device, probe, classCode).1.log;
      Halvings(log) <= CeilLog2(n) && |log| <= Halvings(log) + n && (!probe ==> Halvings(log) == Halvings(s.log))
    decreases |s.queue|, Probing(s)
  {
    if s.queue != [] {
      var batch, rest := Plan(s, classCode).0, Plan(s, classCode).1;
      var reply := device(|s.log|, batch);
      var t := Step(s, reply, probe, classCode);
      PlanIsPlanned(s, classCode);
      AdvanceKeepsDistinct(s, batch, rest, reply, probe);
      AdvanceWithinBound(s, batch, rest, reply, probe, n);
      AdvancePotential(s, batch, rest, reply, probe);
      StepProgresses(s, reply, probe, classCode);
      if !LastEffect(t).Aborting? {
        ExecWithinBound(t, device, probe, classCode, n);
      }
    }
  }

  /** Request bound: reading N distinct EPCs halves the probe at most ceil(log2 N) times and makes
      at most ceil(log2 N) + N requests; without probing it never halves and makes at most N. */
  lemma RequestBound(epcs: seq<Epc>, received: map<Epc, Property>, limit: Option<pos>, manufacturer: Option<int>,
                     device: Device, probe: bool, classCode: int)
    ensures
      var n := |Dedupe(epcs)|;
      var log := Exec(Start(epcs, received, limit, manufacturer), device, probe, classCode).1.log;
      && Halvings(log) <= (if probe then CeilLog2(n) else 0)
      && |log| <= (if probe then CeilLog2(n) + n else n)
  {
    var s := Start(epcs, received, limit, manufacturer);
    CeilLog2Monotone(Potential(s), |Dedupe(epcs)|);
    ExecWithinBound(s, device, probe, classCode, |Dedupe(epcs)|);
  }

  // ---- Conservation and provenance ----

  /** The exchange takes the EPC off the queue: a usable reply listed it. */
  ghost predicate Retires(x: Exchange, e: Epc) {
    (x.effect.Partial? || x.effect.Complete?) && e in Answer(x.reply, x.batch)
  }

  ghost predicate RetiredAt(log: seq<Exchange>, k: nat, e: Epc) {
    k < |log| && Retires(log[k], e)
  }

  ghost predicate Retired(log: seq<Exchange>, e: Epc) {
    exists k :: RetiredAt(log, k, e)
  }

  function Entry(m: map<Epc, Property>, e: Epc): Option<Property> {
    if e in m then Some(m[e]) else None
  }

  /** The value the exchange at `k` brought for `e`, when it brought one. */
  ghost predicate Brought(log: seq<Exchange>, k: nat, e: Epc, received: map<Epc, Property>, known: map<Epc, Property>)
    requires RetiredAt(log, k, e)
  {
    var p := Answer(log[k].reply, log[k].batch)[e];
    Entry(received, e) == if p.edt != [] then Some(p) else Entry(known, e)
  }

  /** Where `e` stands: a wanted EPC is either still queued or was retired by exactly one exchange,
      and its entry in `received` comes from that exchange and from nowhere else. */
  ghost predicate Accounted(s: State, known: map<Epc, Property>, e: Epc, wanted: bool) {
    && (e in s.queue <==> wanted && !Retired(s.log, e))
    && (Retired(s.log, e) ==> wanted)
    && (forall j, k :: RetiredAt(s.log, j, e) && RetiredAt(s.log, k, e) ==> j == k)
    && (forall k :: RetiredAt(s.log, k, e) ==> Brought(s.log, k, e, s.received, known))
    && (!Retired(s.log, e) ==> Entry(s.received, e) == Entry(known, e))
  }

  lemma QueueMembership(s: State, batch: seq<Epc>, rest: seq<Epc>, reply: Reply, probe: bool, e: Epc)
    requires Planned(s, batch, rest)
    ensures var effect := EffectOf(batch, s.limit, reply, probe);
      var retires := (effect.Partial? || effect.Complete?) && e in Answer(reply, batch);
      && (e in Advance(s, batch, rest, reply, probe).queue <==> e in s.queue && !retires)
      && (retires ==> e in s.queue)
  {
    assert e in s.queue <==> e in batch || e in rest by { assert e in s.queue <==> e in batch + rest; }
    var queue := Advance(s, batch, rest, reply, probe).queue;
    match EffectOf(batch, s.limit, reply, probe)
    case Aborting(_) =>
    case Halved =>
      assert queue == batch + rest;
    case Partial =>
      NoDupParts(batch, rest);
      assert queue == Omitted(batch, Answer(reply, batch)) + rest;
    case Complete =>
      NoDupParts(batch, rest);
      AnswerCount(reply, batch);
      assert queue == rest;
  }

  lemma AdvanceMembership(s: State, batch: seq<Epc>, rest: seq<Epc>, reply: Reply, probe: bool, e: Epc)
    requires Planned(s, batch, rest)
    ensures var t := Advance(s, batch, rest, reply, probe); var x := t.log[|t.log| - 1];
      && t.log == s.log + [x] && x.batch == batch && x.reply == reply
      && (e in t.queue <==> e in s.queue && !Retires(x, e))
      && (Retires(x, e) ==> e in s.queue)
      && Entry(t.received, e) ==
           (if Retires(x, e) && Answer(reply, batch)[e].edt != [] then Some(Answer(reply, batch)[e])
            else Entry(s.received, e))
  {
    QueueMembership(s, batch, rest, reply, probe, e);
  }

  lemma AdvanceAccounts(s: State, batch: seq<Epc>, rest: seq<Epc>, reply: Reply, probe: bool,
                        known: map<Epc, Property>, e: Epc, wanted: bool)
    requires Planned(s, batch, rest) && Accounted(s, known, e, wanted)
    ensures Accounted(Advance(s, batch, rest, reply, probe), known, e, wanted)
  {
    var t := Advance(s, batch, rest, reply, probe);
    AdvanceMembership(s, batch, rest, reply, probe, e);
    assert forall k: nat :: k < |s.log| ==> t.log[k] == s.log[k];
    assert forall k: nat :: k < |s.log| ==> (RetiredAt(t.log, k, e) <==> RetiredAt(s.log, k, e));
    assert RetiredAt(t.log, |s.log|, e) <==> Retires(t.log[|s.log|], e);
    assert Retired(t.log, e) <==> Retired(s.log, e) || Retires(t.log[|s.log|], e) by {
      if Retired(s.log, e) {
        var k :| RetiredAt(s.log, k, e);
        assert RetiredAt(t.log, k, e);
      }
    }
  }

  lemma {:induction false} ExecAccounts(s: State, device: Device, probe: bool, classCode: int,
                                        known: map<Epc, Property>, e: Epc, wanted: bool)
    requires NoDup(s.queue) && Accounted(s, known, e, wanted)
    ensures var run := Exec(s, device, probe, classCode);
      Accounted(run.1, known, e, wanted) && (run.0.Finished? ==> run.1.queue == [])
    decreases |s.queue|, Probing(s)
  {
    if s.queue != [] {
      var batch, rest := Plan(s, classCode).0, Plan(s, classCode).1;
      var reply := device(|s.log|, batch);
      var t := Step(s, reply, probe, classCode);
      PlanIsPlanned(s, classCode);
      AdvanceKeepsDistinct(s, batch, rest, reply, probe);
      AdvanceAccounts(s, batch, rest, reply, probe, known, e, wanted);
      StepProgresses(s, reply, probe, classCode);
      if !LastEffect(t).Aborting? {
        ExecAccounts(t, device, probe, classCode, known, e, wanted);
      }
    }
  }

  /** Conservation: however the run ends, every requested EPC is still queued or was retired by
      exactly one reply, never both, and nothing else was touched; a finished run has answered
      them all. */
  lemma Conservation(epcs: seq<Epc>, known: map<Epc, Property>, limit: Option<pos>, manufacturer: Option<int>,
                     device: Device, probe: bool, classCode: int, e: Epc)
    ensures
      var run := Exec(Start(epcs, known, limit, manufacturer), device, probe, classCode);
      && Accounted(run.1, known, e, e in epcs)
      && (run.0.Finished? ==> run.1.queue == [] && (e in epcs <==> Retired(run.1.log, e)))
  {
    var s := Start(epcs, known, limit, manufacturer);
    ExecAccounts(s, device, probe, classCode, known, e, e in epcs);
  }

  // ---- Legality of every request, and the stored limit ----

  /** The request was allowed by the limit and the policy in force when it was planned. */
  ghost predicate Legal(x: Exchange, classCode: int, wanted: seq<Epc>) {
    var policy := PolicyFor(x.manufacturer, classCode);
    && x.batch != [] && NoDup(x.batch)
    && (forall e :: e in x.batch ==> e in wanted)
    && (x.limit.Some? ==> |x.batch| <= x.limit.value)
    && (x.probeSize.Some? ==> |x.batch| <= x.probeSize.value)
    && (policy.Some? && policy.value.maxBatchSize.Some? ==> |x.batch| <= policy.value.maxBatchSize.value)
    && ConflictFree(x.batch, policy)
  }

  /** `b` is no looser than `a`. */
  ghost predicate NoLooser(a: Option<pos>, b: Option<pos>) {
    a.Some? ==> b.Some? && b.value <= a.value
  }

  /** Some reply of this run, or another call, vouches for the value. */
  ghost predicate Witnessed(v: nat, log: seq<Exchange>) {
    exists k :: 0 <= k < |log| &&
      (log[k].reply.otherLimit == Some(v) ||
       ((log[k].effect.Partial? || log[k].effect.Complete?) && |Answer(log[k].reply, log[k].batch)| == v))
  }

  /** The limit that other calls alone would have left. */
  function OthersLimit(limit: Option<pos>, log: seq<Exchange>): Option<pos> {
    if log == [] then limit else Lowered(OthersLimit(limit, log[..|log| - 1]), log[|log| - 1].reply)
  }

  ghost predicate Disciplined(s: State, probe: bool, classCode: int, wanted: seq<Epc>, limit: Option<pos>) {
    && (forall e :: e in s.queue ==> e in wanted)
    && (forall k :: 0 <= k < |s.log| ==> Legal(s.log[k], classCode, wanted) && NoLooser(s.log[k].limit, s.limit))
    && (forall j, k :: 0 <= j < k < |s.log| ==> NoLooser(s.log[j].limit, s.log[k].limit))
    && NoLooser(OthersLimit(limit, s.log), s.limit)
    && (s.limit == limit || (s.limit.Some? && Witnessed(s.limit.value, s.log)))
    && (!probe ==> s.probeSize.None?)
    && (!probe ==> s.limit == OthersLimit(limit, s.log))
    && LimitTrail(s.log, probe, limit)
  }

  /** The limit each request was planned from is the initial one or had been witnessed by then; without
      probing it is what other calls had left. */
  ghost predicate LimitTrail(log: seq<Exchange>, probe: bool, limit: Option<pos>) {
    forall k :: 0 <= k < |log| ==> PlannedFrom(log[k], log[..k], probe, limit)
  }

  ghost predicate PlannedFrom(x: Exchange, earlier: seq<Exchange>, probe: bool, limit: Option<pos>) {
    && (x.limit == limit || (x.limit.Some? && Witnessed(x.limit.value, earlier)))
    && (!probe ==> x.limit == OthersLimit(limit, earlier) && x.probeSize.None?)
  }

  lemma LimitTrailSnoc(log: seq<Exchange>, x: Exchange, probe: bool, limit: Option<pos>)
    requires LimitTrail(log, probe, limit) && PlannedFrom(x, log, probe, limit)
    ensures LimitTrail(log + [x], probe, limit)
  {
    var more := log + [x];
    forall k | 0 <= k < |more| ensures PlannedFrom(more[k], more[..k], probe, limit) {
      if k < |log| {
        assert more[..k] == log[..k];
      } else {
        assert more[..k] == log;
      }
    }
  }

  lemma AdvanceLimit(s: State, batch: seq<Epc>, rest: seq<Epc>, reply: Reply, probe: bool)
    requires Planned(s, batch, rest)
    ensures var t := Advance(s, batch, rest, reply, probe);
      && NoLooser(s.limit, t.limit) && NoLooser(Lowered(s.limit, reply), t.limit)
      && (!probe ==> t.limit == Lowered(s.limit, reply) && (s.probeSize.None? ==> t.probeSize.None?))
  {
  }

  lemma AdvanceLimitSource(s: State, batch: seq<Epc>, rest: seq<Epc>, reply: Reply, probe: bool)
    requires Planned(s, batch, rest)
    ensures var t := Advance(s, batch, rest, reply, probe);
      LimitHasSource(s.limit, t.limit, t.log[|t.log| - 1])
  {
    var t := Advance(s, batch, rest, reply, probe);
    match EffectOf(batch, s.limit, reply, probe)
    case Aborting(_) =>
    case Halved =>
    case Partial =>
      assert t.limit == Lowered(s.limit, reply) || t.limit == Some(|Answer(reply, batch)|);
    case Complete =>
      NoDupParts(batch, rest);
      AnswerCount(reply, batch);
      assert t.limit == Lowered(s.limit, reply) || t.limit == Some(|Answer(reply, batch)|);
  }

  /** A new limit is what another call stored, or the number of EPCs the reply answered. */
  predicate LimitHasSource(before: Option<pos>, after: Option<pos>, x: Exchange) {
    || after == before
    || (after.Some? && x.reply.otherLimit == Some(after.value))
    || ((x.effect.Partial? || x.effect.Complete?) && after == Some(|Answer(x.reply, x.batch)|))
  }

  lemma LoweredIsMonotone(a: Option<pos>, b: Option<pos>, reply: Reply)
    requires NoLooser(a, b)
    ensures NoLooser(Lowered(a, reply), Lowered(b, reply))
  {
  }

  lemma WitnessStays(v: nat, log: seq<Exchange>, x: Exchange)
    requires Witnessed(v, log)
    ensures Witnessed(v, log + [x])
  {
    var k :| 0 <= k < |log| &&
      (log[k].reply.otherLimit == Some(v) ||
       ((log[k].effect.Partial? || log[k].effect.Complete?) && |Answer(log[k].reply, log[k].batch)| == v));
    assert (log + [x])[k] == log[k];
  }

  /** A request planned from `s` is legal, whatever comes of it. */
  lemma PlanIsLegal(s: State, reply: Reply, effect: Effect, classCode: int, wanted: seq<Epc>)
    requires s.queue != [] && NoDup(s.queue) && forall e :: e in s.queue ==> e in wanted
    ensures Legal(Exchange(Plan(s, classCode).0, s.limit, s.probeSize, s.manufacturer, reply, effect), classCode, wanted)
  {
    PlanFits(s, classCode);
    var p := Plan(s, classCode);
    NoDupParts(p.0, p.1);
    assert forall e :: e in p.0 ==> e in p.0 + p.1;
  }

  lemma AdvanceLogs(s: State, batch: seq<Epc>, rest: seq<Epc>, reply: Reply, probe: bool)
    requires batch != []
    ensures Advance(s, batch, rest, reply, probe).log ==
      s.log + [Exchange(batch, s.limit, s.probeSize, s.manufacturer, reply, EffectOf(batch, s.limit, reply, probe))]
  {
  }

  lemma AdvanceLegal(s: State, batch: seq<Epc>, rest: seq<Epc>, reply: Reply, probe: bool, classCode: int,
                     wanted: seq<Epc>)
    requires s.queue != [] && NoDup(s.queue) && (batch, rest) == Plan(s, classCode)
    requires Planned(s, batch, rest) && forall e :: e in s.queue ==> e in wanted
    ensures var t := Advance(s, batch, rest, reply, probe);
      && t.log == s.log + [t.log[|s.log|]]
      && Legal(t.log[|s.log|], classCode, wanted)
      && t.log[|s.log|].limit == s.limit && t.log[|s.log|].reply == reply && t.log[|s.log|].batch == batch
      && t.log[|s.log|].probeSize == s.probeSize
  {
    AdvanceLogs(s, batch, rest, reply, probe);
    PlanIsLegal(s, reply, EffectOf(batch, s.limit, reply, probe), classCode, wanted);
  }

  lemma AdvanceDisciplined(s: State, batch: seq<Epc>, rest: seq<Epc>, reply: Reply, probe: bool, classCode: int,
                           wanted: seq<Epc>, limit: Option<pos>)
    requires Planned(s, batch, rest) && (batch, rest) == Plan(s, classCode)
    requires s.queue != [] && NoDup(s.queue) && Disciplined(s, probe, classCode, wanted, limit)
    ensures Disciplined(Advance(s, batch, rest, reply, probe), probe, classCode, wanted, limit)
  {
    var t := Advance(s, batch, rest, reply, probe);
    AdvanceLegal(s, batch, rest, reply, probe, classCode, wanted);
    AdvanceLimit(s, batch, rest, reply, probe);
    AdvanceLimitSource(s, batch, rest, reply, probe);
    forall e | e in t.queue ensures e in wanted {
      QueueMembership(s, batch, rest, reply, probe, e);
    }
    LogDisciplined(s, t, reply, probe, classCode, wanted, limit);
  }

  lemma LogDisciplined(s: State, t: State, reply: Reply, probe: bool, classCode: int, wanted: seq<Epc>,
                       limit: Option<pos>)
    requires Disciplined(s, probe, classCode, wanted, limit)
    requires |t.log| == |s.log| + 1 && t.log == s.log + [t.log[|s.log|]]
    requires var x := t.log[|s.log|];
      && Legal(x, classCode, wanted) && x.limit == s.limit && x.probeSize == s.probeSize && x.reply == reply
      && NoLooser(s.limit, t.limit) && NoLooser(Lowered(s.limit, reply), t.limit)
      && LimitHasSource(s.limit, t.limit, x)
      && (!probe ==> t.limit == Lowered(s.limit, reply) && (s.probeSize.None? ==> t.probeSize.None?))
    requires forall e :: e in t.queue ==> e in wanted
    ensures Disciplined(t, probe, classCode, wanted, limit)
  {
    var x := t.log[|s.log|];
    assert t.log[..|t.log| - 1] == s.log;
    LimitTrailSnoc(s.log, x, probe, limit);
    LoweredIsMonotone(OthersLimit(limit, s.log), s.limit, reply);
    if t.limit != limit {
      if t.limit == s.limit {
        WitnessStays(s.limit.value, s.log, x);
      } else {
        assert t.log[|s.log|] == x;
        assert Witnessed(t.limit.value, t.log);
      }
    }
  }

  lemma {:induction false} ExecDisciplined(s: State, device: Device, probe: bool, classCode: int, wanted: seq<Epc>,
                                           limit: Option<pos>)
    requires NoDup(s.queue) && Disciplined(s, probe, classCode, wanted, limit)
    ensures Disciplined(Exec(s, device, probe, classCode).1, probe, classCode, wanted, limit)
    decreases |s.queue|, Probing(s)
  {
    if s.queue != [] {
      var batch, rest := Plan(s, classCode).0, Plan(s, classCode).1;
      var reply := device(|s.log|, batch);
      var t := Step(s, reply, probe, classCode);
      PlanIsPlanned(s, classCode);
      AdvanceKeepsDistinct(s, batch, rest, reply, probe);
      AdvanceDisciplined(s, batch, rest, reply, probe, classCode, wanted, limit);
      StepProgresses(s, reply, probe, classCode);
      if !LastEffect(t).Aborting? {
        ExecDisciplined(t, device, probe, classCode, wanted, limit);
      }
    }
  }

  /** Every request of every run is legal; the limit read never grows along the run; each limit a
      request was planned from, and the limit left, is the initial one or has been vouched for by a reply
      that listed exactly that many requested EPCs (or by another call); without probing this call
      stores nothing. */
  lemma LimitDiscipline(epcs: seq<Epc>, known: map<Epc, Property>, limit: Option<pos>, manufacturer: Option<int>,
                        device: Device, probe: bool, classCode: int)
    ensures Disciplined(Exec(Start(epcs, known, limit, manufacturer), device, probe, classCode).1,
                        probe, classCode, epcs, limit)
  {
    ExecDisciplined(Start(epcs, known, limit, manufacturer), device, probe, classCode, epcs, limit);
  }
}
