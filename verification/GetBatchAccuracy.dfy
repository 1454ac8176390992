/** How well setup learns the concurrent-response limit of a device that really has one: exact limit
    and exact number of requests, for every number of EPCs. No policy applies and no other call
    interferes. */
module GetBatchAccuracy {
  import opened Basics
  import opened GetBatchPolicy
  import opened GetBatches
  import opened GetBatchTheorems

  ghost predicate Quiet(reply: Reply) {
    reply.otherLimit.None? && reply.otherManufacturer.None?
  }

  /** Every EPC of the batch comes back with a value. */
  ghost predicate AnswersAll(reply: Reply, batch: seq<Epc>) {
    reply.outcome.Answered? && forall e :: e in batch ==> e in Answer(reply, batch) && Answer(reply, batch)[e].edt != []
  }

  /** Over the limit: no answer, nothing that was asked for, or every EPC blank (PDC = 0). */
  ghost predicate IgnoresOrBlanks(reply: Reply, batch: seq<Epc>) {
    || reply.outcome.Silent?
    || (reply.outcome.Answered? && Answer(reply, batch) == map[])
    || (reply.outcome.Answered? && forall e :: e in batch ==> e in Answer(reply, batch) && Answer(reply, batch)[e].edt == [])
  }

  /** Over the limit: only the first `limit` EPCs come back. */
  ghost predicate Truncates(reply: Reply, batch: seq<Epc>, limit: pos)
    requires |batch| > limit
  {
    && reply.outcome.Answered?
    && (forall i :: 0 <= i < limit ==> batch[i] in Answer(reply, batch) && Answer(reply, batch)[batch[i]].edt != [])
    && (forall i :: limit <= i < |batch| ==> batch[i] !in Answer(reply, batch))
  }

  ghost predicate AnswersUpTo(device: Device, limit: pos) {
    forall k: nat, batch: seq<Epc> :: NoDup(batch) ==>
      Quiet(device(k, batch)) && (1 <= |batch| <= limit ==> AnswersAll(device(k, batch), batch))
  }

  ghost predicate RefusesOver(device: Device, limit: pos) {
    forall k: nat, batch: seq<Epc> :: NoDup(batch) && |batch| > limit ==> IgnoresOrBlanks(device(k, batch), batch)
  }

  ghost predicate TruncatesOver(device: Device, limit: pos) {
    forall k: nat, batch: seq<Epc> :: NoDup(batch) && |batch| > limit ==> Truncates(device(k, batch), batch, limit)
  }

  /** The size at which halving n, rounding up, first reaches the limit, and the number of halvings. */
  function Learned(n: pos, limit: pos): pos {
    if n <= limit then n else Learned((n + 1) / 2, limit)
  }

  function HalvingsTo(n: pos, limit: pos): nat {
    if n <= limit then 0 else 1 + HalvingsTo((n + 1) / 2, limit)
  }

  lemma {:induction false} LearnedIsWithinFactorTwo(n: pos, limit: pos)
    ensures Learned(n, limit) <= limit
    ensures n > limit ==> limit < 2 * Learned(n, limit)
  {
    if n > limit {
      LearnedIsWithinFactorTwo((n + 1) / 2, limit);
    }
  }

  lemma {:induction false} LearnedForOne(n: pos)
    ensures Learned(n, 1) == 1 && HalvingsTo(n, 1) == CeilLog2(n)
  {
    if n > 1 {
      LearnedForOne((n + 1) / 2);
    }
  }

  // ---- Runs ----

  ghost predicate HasValue(received: map<Epc, Property>, e: Epc) {
    e in received && received[e].edt != []
  }

  lemma PlanWithoutPolicy(s: State, classCode: int)
    requires PolicyFor(s.manufacturer, classCode).None?
    ensures var size := Size(s.limit, s.probeSize);
      var k := if size.None? then |s.queue| else Min(size.value, |s.queue|);
      Plan(s, classCode) == (s.queue[..k], s.queue[k..])
  {
    SplitWithoutPolicy(s.queue, Size(s.limit, s.probeSize));
  }

  lemma PrefixIsPlanned(s: State, k: nat)
    requires NoDup(s.queue) && 1 <= k <= |s.queue|
    requires s.limit.Some? ==> k <= s.limit.value
    requires s.probeSize.Some? ==> k <= s.probeSize.value
    ensures Planned(s, s.queue[..k], s.queue[k..]) && NoDup(s.queue[..k]) && NoDup(s.queue[k..])
  {
    assert s.queue[..k] + s.queue[k..] == s.queue;
    NoDupParts(s.queue[..k], s.queue[k..]);
  }

  /** A batch within the limit is read completely. */
  lemma AnsweredBatch(s: State, batch: seq<Epc>, rest: seq<Epc>, reply: Reply)
    requires Planned(s, batch, rest) && NoDup(batch) && Quiet(reply) && AnswersAll(reply, batch)
    ensures var t := Advance(s, batch, rest, reply, true);
      var learns := s.probeSize.Some? || (s.limit.None? && |batch| > 1);
      && t.log == s.log + [t.log[|s.log|]] && LastEffect(t).Complete?
      && t.queue == rest && t.manufacturer == s.manufacturer
      && t.limit == (if learns then FixLimit(s.limit, |batch|) else s.limit)
      && t.probeSize == (if learns then None else s.probeSize)
      && (forall e :: e in batch ==> HasValue(t.received, e))
      && (forall e :: HasValue(s.received, e) ==> HasValue(t.received, e))
  {
    AnswerCount(reply, batch);
    assert batch[0] in batch;
    assert !AllEmpty(Answer(reply, batch));
  }

  /** A batch that is refused is halved. */
  lemma RefusedBatch(s: State, batch: seq<Epc>, rest: seq<Epc>, reply: Reply, k: nat) returns (t: State)
    requires Planned(s, batch, rest) && NoDup(batch) && |batch| == k > 1 && s.limit.None? && s.queue == batch + rest
    requires Quiet(reply) && IgnoresOrBlanks(reply, batch)
    ensures t == Advance(s, batch, rest, reply, true) && LastEffect(t).Halved?
    ensures t == s.(probeSize := Some((k + 1) / 2), log := t.log)
    ensures |t.log| == |s.log| + 1 && Halvings(t.log) == Halvings(s.log) + 1
  {
    AnswerCount(reply, batch);
    t := Advance(s, batch, rest, reply, true);
    assert EffectOf(batch, s.limit, reply, true).Halved?;
    HalvingsSnoc(s.log, t.log[|s.log|]);
  }

  lemma HalvingsSnoc(log: seq<Exchange>, x: Exchange)
    ensures Halvings(log + [x]) == Halvings(log) + (if x.effect.Halved? then 1 else 0)
  {
    assert (log + [x])[..|log|] == log;
  }

  lemma ExecUnfolds(s: State, device: Device, classCode: int)
    requires s.queue != []
    ensures var t := Step(s, device(|s.log|, Plan(s, classCode).0), true, classCode);
      !LastEffect(t).Aborting? ==> Exec(s, device, true, classCode) == Exec(t, device, true, classCode)
  {
  }

  /** One iteration whose batch, the first k EPCs, is within the device's limit. */
  lemma AnsweredStep(s: State, device: Device, classCode: int, limit: pos, k: nat) returns (t: State)
    requires NoDup(s.queue) && PolicyFor(s.manufacturer, classCode).None? && AnswersUpTo(device, limit)
    requires 1 <= k <= |s.queue| && k <= limit
    requires Size(s.limit, s.probeSize).Some? ==> k == Min(Size(s.limit, s.probeSize).value, |s.queue|)
    requires Size(s.limit, s.probeSize).None? ==> k == |s.queue|
    ensures Exec(s, device, true, classCode) == Exec(t, device, true, classCode)
    ensures t.queue == s.queue[k..] && NoDup(t.queue) && t.manufacturer == s.manufacturer
    ensures |t.log| == |s.log| + 1 && Halvings(t.log) == Halvings(s.log)
    ensures var learns := s.probeSize.Some? || (s.limit.None? && k > 1);
      && t.limit == (if learns then FixLimit(s.limit, k) else s.limit)
      && t.probeSize == (if learns then None else s.probeSize)
    ensures forall e :: e in s.queue ==> e in t.queue || HasValue(t.received, e)
    ensures forall e :: HasValue(s.received, e) ==> HasValue(t.received, e)
  {
    PlanWithoutPolicy(s, classCode);
    PrefixIsPlanned(s, k);
    var batch, rest := s.queue[..k], s.queue[k..];
    assert s.queue == batch + rest;
    assert Plan(s, classCode) == (batch, rest);
    var reply := device(|s.log|, batch);
    ExecUnfolds(s, device, classCode);
    AnsweredBatch(s, batch, rest, reply);
    t := Advance(s, batch, rest, reply, true);
    HalvingsSnoc(s.log, t.log[|s.log|]);
  }

  /** One iteration whose batch, the first k EPCs, is over the limit of a device that refuses. */
  lemma RefusedStep(s: State, device: Device, classCode: int, limit: pos, k: nat) returns (t: State)
    requires NoDup(s.queue) && PolicyFor(s.manufacturer, classCode).None?
    requires AnswersUpTo(device, limit) && RefusesOver(device, limit)
    requires limit < k <= |s.queue| && s.limit.None?
    requires if s.probeSize.Some? then k == s.probeSize.value else k == |s.queue|
    ensures Exec(s, device, true, classCode) == Exec(t, device, true, classCode)
    ensures t == s.(probeSize := Some((k + 1) / 2), log := t.log)
    ensures |t.log| == |s.log| + 1 && Halvings(t.log) == Halvings(s.log) + 1
  {
    PlanWithoutPolicy(s, classCode);
    PrefixIsPlanned(s, k);
    var batch, rest := s.queue[..k], s.queue[k..];
    assert s.queue == batch + rest;
    assert Plan(s, classCode) == (batch, rest);
    var reply := device(|s.log|, batch);
    ExecUnfolds(s, device, classCode);
    t := RefusedBatch(s, batch, rest, reply, k);
  }

  /** The run from `s` ends with everything read and `learned` stored, after that many halvings and one
      request per chunk of the learned size. */
  ghost predicate ReadsAll(s: State, run: (Verdict, State), learned: pos, halvings: nat) {
    && run.0.Finished? && run.1.limit == Some(learned)
    && |run.1.log| == |s.log| + halvings + CeilDiv(|s.queue|, learned)
    && Halvings(run.1.log) == Halvings(s.log) + halvings
    && forall e :: e in s.queue || HasValue(s.received, e) ==> HasValue(run.1.received, e)
  }

  /** Once a limit the device can serve is stored, the rest is read in chunks of that size. */
  lemma {:induction false} ReadWithLimit(s: State, device: Device, classCode: int, limit: pos)
    requires NoDup(s.queue) && PolicyFor(s.manufacturer, classCode).None?
    requires AnswersUpTo(device, limit)
    requires s.probeSize.None? && s.limit.Some? && s.limit.value <= limit
    ensures ReadsAll(s, Exec(s, device, true, classCode), s.limit.value, 0)
    decreases |s.queue|
  {
    if s.queue != [] {
      var t := ChunkStep(s, device, classCode, limit, s.limit.value);
      ReadWithLimit(t, device, classCode, limit);
      ChunkRead(s, t, Exec(t, device, true, classCode), s.limit.value);
    }
  }

  lemma ChunkRead(s: State, t: State, run: (Verdict, State), c: pos)
    requires ReadsAll(t, run, c, 0)
    requires |t.log| == |s.log| + 1 && Halvings(t.log) == Halvings(s.log)
    requires CeilDiv(|s.queue|, c) == 1 + CeilDiv(|t.queue|, c)
    requires forall e :: e in s.queue || HasValue(s.received, e) ==> e in t.queue || HasValue(t.received, e)
    ensures ReadsAll(s, run, c, 0)
  {
  }

  lemma ChunkStep(s: State, device: Device, classCode: int, limit: pos, c: pos) returns (t: State)
    requires NoDup(s.queue) && PolicyFor(s.manufacturer, classCode).None? && s.queue != []
    requires AnswersUpTo(device, limit)
    requires s.probeSize.None? && s.limit == Some(c) && c <= limit
    ensures Exec(s, device, true, classCode) == Exec(t, device, true, classCode)
    ensures NoDup(t.queue) && t.manufacturer == s.manufacturer && t.probeSize.None? && t.limit == s.limit
    ensures |t.queue| < |s.queue| && CeilDiv(|s.queue|, c) == 1 + CeilDiv(|t.queue|, c)
    ensures |t.log| == |s.log| + 1 && Halvings(t.log) == Halvings(s.log)
    ensures forall e :: e in s.queue || HasValue(s.received, e) ==> e in t.queue || HasValue(t.received, e)
  {
    var k := Min(c, |s.queue|);
    t := AnsweredStep(s, device, classCode, limit, k);
    assert |t.queue| == |s.queue| - k;
  }

  /** While nothing is known, every refusal halves the size tried; the first size served is kept. */
  lemma {:induction false} ProbeAndRead(s: State, device: Device, classCode: int, limit: pos, size: pos)
    requires NoDup(s.queue) && PolicyFor(s.manufacturer, classCode).None?
    requires AnswersUpTo(device, limit) && RefusesOver(device, limit)
    requires s.limit.None? && size <= |s.queue|
    requires if s.probeSize.None? then size == |s.queue| && size > limit else size == s.probeSize.value
    ensures ReadsAll(s, Exec(s, device, true, classCode), Learned(size, limit), HalvingsTo(size, limit))
    decreases size
  {
    if size > limit {
      var t := RefusedStep(s, device, classCode, limit, size);
      ProbeAndRead(t, device, classCode, limit, (size + 1) / 2);
      HalvedOnce(s, t, Exec(t, device, true, classCode), limit, size);
    } else {
      SizeServed(s, device, classCode, limit, size);
    }
  }

  lemma HalvedOnce(s: State, t: State, run: (Verdict, State), limit: pos, size: pos)
    requires size > limit && t.queue == s.queue && t.received == s.received
    requires |t.log| == |s.log| + 1 && Halvings(t.log) == Halvings(s.log) + 1
    requires ReadsAll(t, run, Learned((size + 1) / 2, limit), HalvingsTo((size + 1) / 2, limit))
    ensures ReadsAll(s, run, Learned(size, limit), HalvingsTo(size, limit))
  {
  }

  lemma SizeServed(s: State, device: Device, classCode: int, limit: pos, size: pos)
    requires NoDup(s.queue) && PolicyFor(s.manufacturer, classCode).None? && AnswersUpTo(device, limit)
    requires s.limit.None? && s.probeSize == Some(size) && size <= |s.queue| && size <= limit
    ensures ReadsAll(s, Exec(s, device, true, classCode), size, 0)
  {
    var t := AnsweredStep(s, device, classCode, limit, size);
    ReadWithLimit(t, device, classCode, limit);
    ServedOnce(s, t, Exec(t, device, true, classCode), size);
  }

  lemma ServedOnce(s: State, t: State, run: (Verdict, State), size: pos)
    requires size <= |s.queue| && t.queue == s.queue[size..] && ReadsAll(t, run, size, 0)
    requires |t.log| == |s.log| + 1 && Halvings(t.log) == Halvings(s.log)
    requires forall e :: e in s.queue || HasValue(s.received, e) ==> e in t.queue || HasValue(t.received, e)
    ensures ReadsAll(s, run, size, 0)
  {
    assert |t.queue| == |s.queue| - size;
    ChunkRead(s, t, run, size);
  }

  /** A device that ignores or blanks every request over `limit`: setup over N > limit EPCs reads
      them all, and the limit it stores is within a factor of two of the true one. */
  lemma LearnsThreshold(epcs: seq<Epc>, known: map<Epc, Property>, manufacturer: Option<int>, device: Device,
                        classCode: int, limit: pos)
    requires PolicyFor(manufacturer, classCode).None?
    requires AnswersUpTo(device, limit) && RefusesOver(device, limit)
    requires |Dedupe(epcs)| > limit
    ensures
      var n := |Dedupe(epcs)|;
      var run := Exec(Start(epcs, known, None, manufacturer), device, true, classCode);
      && run.0.Finished?
      && (forall e :: e in epcs ==> HasValue(run.1.received, e))
      && run.1.limit.Some? && run.1.limit.value <= limit < 2 * run.1.limit.value
      && run.1.limit.value == Learned(n, limit)
      && |run.1.log| == HalvingsTo(n, limit) + CeilDiv(n, run.1.limit.value)
  {
    var n := |Dedupe(epcs)|;
    ProbeAndRead(Start(epcs, known, None, manufacturer), device, classCode, limit, n);
    LearnedIsWithinFactorTwo(n, limit);
  }

  /** Setup over at most `limit` EPCs takes one request; it says something about the limit only when
      it asked for two EPCs or more. */
  lemma ReadsAtOnce(epcs: seq<Epc>, known: map<Epc, Property>, manufacturer: Option<int>, device: Device,
                    classCode: int, limit: pos)
    requires PolicyFor(manufacturer, classCode).None?
    requires AnswersUpTo(device, limit)
    requires 1 <= |Dedupe(epcs)| <= limit
    ensures
      var n := |Dedupe(epcs)|;
      var run := Exec(Start(epcs, known, None, manufacturer), device, true, classCode);
      && run.0.Finished? && |run.1.log| == 1
      && (forall e :: e in epcs ==> HasValue(run.1.received, e))
      && run.1.limit == (if n > 1 then Some(n) else None)
  {
    var s := Start(epcs, known, None, manufacturer);
    var t := AnsweredStep(s, device, classCode, limit, |s.queue|);
    assert t.queue == [] && Exec(t, device, true, classCode) == (Finished, t);
  }

  // ---- Truncating devices ----

  lemma {:induction false} OmittedSuffix(batch: seq<Epc>, matched: map<Epc, Property>, k: nat)
    requires k <= |batch|
    requires forall i :: 0 <= i < |batch| ==> (batch[i] in matched <==> i < k)
    ensures Omitted(batch, matched) == batch[k..]
  {
    if batch != [] {
      var last := |batch| - 1;
      OmittedSuffix(batch[..last], matched, Min(k, last));
      if k <= last {
        DropSnoc(batch, k);
      }
    }
  }

  lemma PrefixCount(batch: seq<Epc>, matched: map<Epc, Property>, k: nat)
    requires NoDup(batch) && k <= |batch| && forall e :: e in matched ==> e in batch
    requires forall i :: 0 <= i < |batch| ==> (batch[i] in matched <==> i < k)
    ensures |matched| == k
  {
    CardinalityOfDistinct(batch[..k]);
    forall e ensures e in matched.Keys <==> e in ToSet(batch[..k]) {
      if e in matched {
        var i :| 0 <= i < |batch| && batch[i] == e;
        assert batch[..k][i] == e;
      }
    }
    assert matched.Keys == ToSet(batch[..k]);
  }

  lemma PartialAdvance(s: State, batch: seq<Epc>, rest: seq<Epc>, reply: Reply)
    requires Quiet(reply) && s.limit.None?
    requires reply.outcome.Answered? && 0 < |Answer(reply, batch)| < |batch|
    ensures var t := Advance(s, batch, rest, reply, true);
      && t.log == s.log + [t.log[|s.log|]] && LastEffect(t).Partial?
      && t.queue == Omitted(batch, Answer(reply, batch)) + rest && t.manufacturer == s.manufacturer
      && t.limit == Some(|Answer(reply, batch)|) && t.probeSize == None
  {
  }

  lemma TruncatedBatch(s: State, batch: seq<Epc>, rest: seq<Epc>, reply: Reply, limit: pos)
    requires Planned(s, batch, rest) && NoDup(batch) && |batch| > limit && s.limit.None?
    requires Quiet(reply) && Truncates(reply, batch, limit)
    ensures var t := Advance(s, batch, rest, reply, true);
      && t.log == s.log + [t.log[|s.log|]] && LastEffect(t).Partial?
      && t.queue == batch[limit..] + rest && t.manufacturer == s.manufacturer
      && t.limit == Some(limit) && t.probeSize == None
  {
    OmittedSuffix(batch, Answer(reply, batch), limit);
    PrefixCount(batch, Answer(reply, batch), limit);
    PartialAdvance(s, batch, rest, reply);
  }

  lemma TruncatedValues(s: State, batch: seq<Epc>, rest: seq<Epc>, reply: Reply, limit: pos)
    requires Planned(s, batch, rest) && NoDup(batch) && |batch| > limit && s.limit.None?
    requires Quiet(reply) && Truncates(reply, batch, limit)
    ensures forall e :: e in batch ==> e in batch[limit..] || HasValue(Advance(s, batch, rest, reply, true).received, e)
  {
    TruncatedBatch(s, batch, rest, reply, limit);
    forall e | e in batch
      ensures e in batch[limit..] || HasValue(Advance(s, batch, rest, reply, true).received, e)
    {
      AdvanceMembership(s, batch, rest, reply, true, e);
      var i :| 0 <= i < |batch| && batch[i] == e;
      assert i >= limit ==> batch[limit..][i - limit] == e;
    }
  }

  /** The first iteration of setup against a device that truncates. */
  lemma TruncatedStep(s: State, device: Device, classCode: int, limit: pos) returns (t: State)
    requires NoDup(s.queue) && PolicyFor(s.manufacturer, classCode).None?
    requires AnswersUpTo(device, limit) && TruncatesOver(device, limit)
    requires limit < |s.queue| && s.limit.None? && s.probeSize.None?
    ensures Exec(s, device, true, classCode) == Exec(t, device, true, classCode)
    ensures t.queue == s.queue[limit..] && NoDup(t.queue) && t.manufacturer == s.manufacturer
    ensures |t.log| == |s.log| + 1 && t.limit == Some(limit) && t.probeSize == None
    ensures forall e :: e in s.queue ==> e in t.queue || HasValue(t.received, e)
  {
    var n := |s.queue|;
    PlanWithoutPolicy(s, classCode);
    PrefixIsPlanned(s, n);
    assert s.queue[..n] == s.queue && s.queue[n..] == [];
    assert Plan(s, classCode) == (s.queue, []);
    var reply := device(|s.log|, s.queue);
    ExecUnfolds(s, device, classCode);
    PrefixIsPlanned(s, limit);
    TruncatedBatch(s, s.queue, [], reply, limit);
    TruncatedValues(s, s.queue, [], reply, limit);
    t := Advance(s, s.queue, [], reply, true);
  }

  /** A device that returns only the first `limit` EPCs of an over-large request: setup over
      N > limit EPCs stores exactly its limit and makes exactly ceil(N / limit) requests. */
  lemma LearnsTruncation(epcs: seq<Epc>, known: map<Epc, Property>, manufacturer: Option<int>, device: Device,
                         classCode: int, limit: pos)
    requires PolicyFor(manufacturer, classCode).None?
    requires AnswersUpTo(device, limit) && TruncatesOver(device, limit)
    requires |Dedupe(epcs)| > limit
    ensures
      var n := |Dedupe(epcs)|;
      var run := Exec(Start(epcs, known, None, manufacturer), device, true, classCode);
      && run.0.Finished?
      && (forall e :: e in epcs ==> HasValue(run.1.received, e))
      && run.1.limit == Some(limit)
      && |run.1.log| == CeilDiv(n, limit)
  {
    var s := Start(epcs, known, None, manufacturer);
    var t := TruncatedStep(s, device, classCode, limit);
    ReadWithLimit(t, device, classCode, limit);
    assert CeilDiv(|s.queue|, limit) == 1 + CeilDiv(|t.queue|, limit);
  }

  // ---- The request bound is attained ----

  function ValuesFor(batch: seq<Epc>): (r: seq<Property>)
    ensures |r| == |batch|
    ensures forall i :: 0 <= i < |batch| ==> r[i] == Property(batch[i], [0])
  {
    seq(|batch|, i requires 0 <= i < |batch| => Property(batch[i], [0]))
  }

  /** Answers single-EPC requests only. */
  function OneAtATime(): Device {
    (k: nat, batch: seq<Epc>) =>
      Reply(if |batch| <= 1 then Answered(ValuesFor(batch)) else Silent, None, None)
  }

  /** The bound of RequestBound is exact: a device that answers one EPC at a time makes setup halve
      ceil(log2 N) times and send ceil(log2 N) + N requests (32 for 27 EPCs). */
  lemma BoundIsAttained(epcs: seq<Epc>, known: map<Epc, Property>, manufacturer: Option<int>, classCode: int)
    requires PolicyFor(manufacturer, classCode).None?
    requires |Dedupe(epcs)| > 1
    ensures
      var n := |Dedupe(epcs)|;
      var run := Exec(Start(epcs, known, None, manufacturer), OneAtATime(), true, classCode);
      && run.0.Finished? && run.1.limit == Some(1)
      && |run.1.log| == CeilLog2(n) + n
      && (n == 27 ==> |run.1.log| == 32)
  {
    var n := |Dedupe(epcs)|;
    var device := OneAtATime();
    forall k: nat, batch: seq<Epc> | NoDup(batch) && |batch| == 1 ensures AnswersAll(device(k, batch), batch) {
      var p := Property(batch[0], [0]);
      assert ValuesFor(batch) == [p];
      MatchedIsFirstListed([p], batch, batch[0]);
      assert [p][0].epc == batch[0];
    }
    LearnsThreshold(epcs, known, manufacturer, device, classCode, 1);
    LearnedForOne(n);
    OneEachRound(n);
    assert CeilLog2(27) == 5;
  }

  lemma {:induction false} OneEachRound(n: nat)
    ensures CeilDiv(n, 1) == n
  {
    if n > 1 {
      OneEachRound(n - 1);
    }
  }
}
