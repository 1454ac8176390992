/** One poll cycle (src/pyhems/poller.py, `_run_cycle`): the requested EPCs are cut into requests
    until all were requested or one request is not answered. */
module PollCycle {
  import opened Basics
  import opened GetBatchPolicy
  import opened Poller

  /** What the manager knows of the device when a chunk is planned. */
  datatype Known = Known(manufacturer: Option<int>, classCode: int, capacity: Option<pos>)

  /** Everything outside the cycle: what is known before the k-th request (nothing once the device is
      gone), and the latency of the answer to it, if one comes. */
  datatype World = World(known: nat -> Option<Known>, answer: (nat, seq<Epc>) -> Option<real>)

  datatype End = AllRequested | DeviceGone | NoAnswer

  /** The state of a cycle: chunks sent, latencies of their answers, EPCs still to be requested,
      availability recorded after each chunk. */
  datatype Progress = Progress(schedule: Schedule, remaining: seq<Epc>, chunks: seq<seq<Epc>>, latencies: seq<real>,
                               available: Option<bool>)

  function Plan(known: Known, remaining: seq<Epc>): (seq<Epc>, seq<Epc>) {
    FirstBatch(remaining, known.manufacturer, known.classCode, known.capacity)
  }

  /** How the cycle continues from `p`. */
  function Finish(p: Progress, w: World): (Progress, End)
    decreases |p.remaining|
  {
    var known := w.known(|p.chunks|);
    if p.remaining == [] then (p, AllRequested)
    else if known.None? then (p, DeviceGone)
    else
      var plan := Plan(known.value, p.remaining);
      var answer := w.answer(|p.chunks|, plan.0);
      if answer.None? then (Unanswered(p, plan), NoAnswer)
      else
        PlanShrinks(known.value, p.remaining);
        Finish(Answered(p, plan, answer.value), w)
  }

  function Unanswered(p: Progress, plan: (seq<Epc>, seq<Epc>)): Progress {
    p.(schedule := p.schedule.(failures := p.schedule.failures + 1),
       chunks := p.chunks + [plan.0], remaining := plan.1, available := Some(false))
  }

  function Answered(p: Progress, plan: (seq<Epc>, seq<Epc>), latency: real): Progress {
    Progress(p.schedule.(latency := Some(Smoothed(p.schedule.latency, latency)), failures := 0),
             plan.1, p.chunks + [plan.0], p.latencies + [latency], Some(true))
  }

  function Begin(s: Schedule, epcs: seq<Epc>): Progress {
    Progress(s, epcs, [], [], None)
  }

  lemma PlanShrinks(known: Known, remaining: seq<Epc>)
    requires remaining != []
    ensures Plan(known, remaining).0 != []
    ensures |Plan(known, remaining).0| + |Plan(known, remaining).1| == |remaining|
  {
    var policy := PolicyFor(known.manufacturer, known.classCode);
    SplitTakesOne(remaining, Capacity(known.capacity, policy), policy);
    SplitPartitions(remaining, Capacity(known.capacity, policy), policy);
  }

  method RunCycle(state: DeviceScheduleState, epcs: seq<Epc>, w: World)
    returns (end: End, chunks: seq<seq<Epc>>, available: Option<bool>)
    modifies state
    ensures var r := Finish(Begin(old(state.Model()), epcs), w);
      && end == r.1 && chunks == r.0.chunks && available == r.0.available
      && state.Model() == r.0.schedule
  {
    var remaining := epcs;
    chunks, available := [], None;
    ghost var start := Begin(state.Model(), epcs);
    ghost var latencies: seq<real> := [];
    while remaining != []
      invariant Finish(Progress(state.Model(), remaining, chunks, latencies, available), w) == Finish(start, w)
      decreases |remaining|
    {
      var known := w.known(|chunks|);
      if known.None? {
        return DeviceGone, chunks, available;
      }
      PlanShrinks(known.value, remaining);
      var capacity: Option<int> := if known.value.capacity.None? then None else Some(known.value.capacity.value);
      var plan := TakeFirstBatch(remaining, known.value.manufacturer, known.value.classCode, capacity);
      var answer := w.answer(|chunks|, plan.value.0);
      chunks, remaining := chunks + [plan.value.0], plan.value.1;
      if answer.None? {
        state.consecutiveFailures := state.consecutiveFailures + 1;
        return NoAnswer, chunks, Some(false);
      }
      state.UpdateLatency(answer.value);
      state.consecutiveFailures := 0;
      available, latencies := Some(true), latencies + [answer.value];
    }
    end := AllRequested;
  }

  // ---- What a cycle requests ----

  function Joined(chunks: seq<seq<Epc>>): seq<Epc> {
    if chunks == [] then [] else Joined(chunks[..|chunks| - 1]) + chunks[|chunks| - 1]
  }

  lemma JoinedSnoc(chunks: seq<seq<Epc>>, chunk: seq<Epc>)
    ensures Joined(chunks + [chunk]) == Joined(chunks) + chunk
  {
    assert (chunks + [chunk])[..|chunks|] == chunks;
  }

  /** The chunk fits the capacity and policy in force when it was sent. */
  ghost predicate Legal(chunk: seq<Epc>, known: Option<Known>) {
    known.Some? && chunk != [] &&
    var policy := PolicyFor(known.value.manufacturer, known.value.classCode);
    var capacity := Capacity(known.value.capacity, policy);
    ConflictFree(chunk, policy) && (capacity.Some? ==> |chunk| <= capacity.value)
  }

  ghost predicate AllLegal(chunks: seq<seq<Epc>>, w: World) {
    forall i: nat :: i < |chunks| ==> Legal(chunks[i], w.known(i))
  }

  /** Each latency is that of the answer to its chunk; at most the last chunk has none. */
  ghost predicate AnswersMatch(p: Progress, w: World) {
    && |p.latencies| <= |p.chunks|
    && forall i: nat :: i < |p.latencies| ==> w.answer(i, p.chunks[i]) == Some(p.latencies[i])
  }

  lemma PlanKeeps(p: Progress, w: World, plan: (seq<Epc>, seq<Epc>))
    requires p.remaining != [] && w.known(|p.chunks|).Some? && plan == Plan(w.known(|p.chunks|).value, p.remaining)
    requires AllLegal(p.chunks, w)
    ensures AllLegal(p.chunks + [plan.0], w)
    ensures multiset(Joined(p.chunks + [plan.0])) + multiset(plan.1) == multiset(Joined(p.chunks)) + multiset(p.remaining)
  {
    var known := w.known(|p.chunks|).value;
    PlanIsLegal(known, p.remaining);
    JoinedSnoc(p.chunks, plan.0);
  }

  lemma PlanIsLegal(known: Known, remaining: seq<Epc>)
    requires remaining != []
    ensures Legal(Plan(known, remaining).0, Some(known))
    ensures multiset(Plan(known, remaining).0) + multiset(Plan(known, remaining).1) == multiset(remaining)
  {
    var policy := PolicyFor(known.manufacturer, known.classCode);
    SplitIsLegal(remaining, Capacity(known.capacity, policy), policy);
    SplitPartitions(remaining, Capacity(known.capacity, policy), policy);
    PlanShrinks(known, remaining);
  }

  lemma {:induction false} FinishKeeps(p: Progress, w: World, epcs: seq<Epc>)
    requires AllLegal(p.chunks, w) && AnswersMatch(p, w) && |p.latencies| == |p.chunks|
    requires multiset(Joined(p.chunks)) + multiset(p.remaining) == multiset(epcs)
    ensures var r := Finish(p, w);
      && AllLegal(r.0.chunks, w) && AnswersMatch(r.0, w)
      && multiset(Joined(r.0.chunks)) + multiset(r.0.remaining) == multiset(epcs)
      && (r.1 == AllRequested ==> r.0.remaining == [])
      && |r.0.chunks| == |r.0.latencies| + (if r.1 == NoAnswer then 1 else 0)
    decreases |p.remaining|
  {
    var known := w.known(|p.chunks|);
    if p.remaining != [] && known.Some? {
      var plan := Plan(known.value, p.remaining);
      PlanKeeps(p, w, plan);
      var answer := w.answer(|p.chunks|, plan.0);
      if answer.Some? {
        PlanShrinks(known.value, p.remaining);
        var next := Answered(p, plan, answer.value);
        assert AnswersMatch(next, w);
        FinishKeeps(next, w, epcs);
      }
    }
  }

  /** Conservation: the chunks sent and what was not requested make up the EPCs of the cycle, so a
      cycle that was answered throughout requests every EPC exactly once; every chunk is legal when
      it is sent, and only the last can be unanswered. */
  lemma ChunksPartition(s: Schedule, epcs: seq<Epc>, w: World)
    ensures var r := Finish(Begin(s, epcs), w);
      && AllLegal(r.0.chunks, w) && AnswersMatch(r.0, w)
      && multiset(Joined(r.0.chunks)) + multiset(r.0.remaining) == multiset(epcs)
      && (r.1 == AllRequested ==> multiset(Joined(r.0.chunks)) == multiset(epcs))
      && |r.0.chunks| == |r.0.latencies| + (if r.1 == NoAnswer then 1 else 0)
  {
    FinishKeeps(Begin(s, epcs), w, epcs);
  }

  lemma {:induction false} FinishEnds(p: Progress, w: World)
    ensures var r := Finish(p, w); var n := |r.0.chunks|;
      && n >= |p.chunks| && r.0.chunks[..|p.chunks|] == p.chunks
      && (r.1 == AllRequested <==> r.0.remaining == [] && (n == |p.chunks| || w.answer(n - 1, r.0.chunks[n - 1]).Some?))
      && (r.1 == DeviceGone ==> r.0.remaining != [] && w.known(n).None?)
      && (r.1 == NoAnswer ==> n > |p.chunks| && w.answer(n - 1, r.0.chunks[n - 1]).None?)
    decreases |p.remaining|
  {
    var known := w.known(|p.chunks|);
    if p.remaining != [] && known.Some? {
      var plan := Plan(known.value, p.remaining);
      var answer := w.answer(|p.chunks|, plan.0);
      if answer.Some? {
        PlanShrinks(known.value, p.remaining);
        var next := Answered(p, plan, answer.value);
        FinishEnds(next, w);
        var chunks := Finish(next, w).0.chunks;
        assert chunks[..|p.chunks| + 1][|p.chunks|] == plan.0;
        assert chunks[..|p.chunks|] == chunks[..|p.chunks| + 1][..|p.chunks|];
      }
    }
  }

  /** A cycle goes on as long as the device is known and answers: it ends when everything was requested, when the
      device is gone before the next request, or with a request that was not answered. */
  lemma CycleEndsOnlyFor(s: Schedule, epcs: seq<Epc>, w: World)
    ensures var r := Finish(Begin(s, epcs), w); var n := |r.0.chunks|;
      && (r.1 == AllRequested <==> r.0.remaining == [] && (n == 0 || w.answer(n - 1, r.0.chunks[n - 1]).Some?))
      && (r.1 == DeviceGone ==> r.0.remaining != [] && w.known(n).None?)
      && (r.1 == NoAnswer ==> n > 0 && w.answer(n - 1, r.0.chunks[n - 1]).None?)
  {
    FinishEnds(Begin(s, epcs), w);
  }

  // ---- What a cycle records ----

  /** `p` is the schedule `s` after the answers so far. */
  ghost predicate Recorded(s: Schedule, p: Progress) {
    && p.schedule == s.(latency := p.schedule.latency, failures := p.schedule.failures)
    && p.schedule.latency == SmoothedAll(s.latency, p.latencies)
    && p.schedule.failures == (if p.latencies == [] then s.failures else 0)
    && p.available == (if p.latencies == [] then None else Some(true))
  }

  lemma {:induction false} FinishRecords(s: Schedule, p: Progress, w: World)
    requires Recorded(s, p)
    ensures var r := Finish(p, w);
      if r.1 == NoAnswer then
        && r.0.available == Some(false) && r.0.schedule.latency == SmoothedAll(s.latency, r.0.latencies)
        && r.0.schedule.failures == (if r.0.latencies == [] then s.failures else 0) + 1
      else Recorded(s, r.0)
    decreases |p.remaining|
  {
    var known := w.known(|p.chunks|);
    if p.remaining != [] && known.Some? {
      var plan := Plan(known.value, p.remaining);
      var answer := w.answer(|p.chunks|, plan.0);
      if answer.Some? {
        PlanShrinks(known.value, p.remaining);
        assert (p.latencies + [answer.value])[..|p.latencies|] == p.latencies;
        FinishRecords(s, Answered(p, plan, answer.value), w);
      }
    }
  }

  /** A cycle folds its latencies into the estimate in the order of the answers. The failure count is
      left alone by a cycle that sent nothing, cleared by the first answer, and raised by one by
      the unanswered chunk that ends a cycle. */
  lemma CycleRecords(s: Schedule, epcs: seq<Epc>, w: World)
    ensures var r := Finish(Begin(s, epcs), w);
      && r.0.schedule.latency == SmoothedAll(s.latency, r.0.latencies)
      && r.0.schedule.failures ==
           (if r.0.latencies == [] then s.failures else 0) + (if r.1 == NoAnswer then 1 else 0)
      && r.0.available ==
           (if r.1 == NoAnswer then Some(false) else if r.0.latencies == [] then None else Some(true))
  {
    FinishRecords(s, Begin(s, epcs), w);
  }

  // ---- How many requests a cycle needs ----

  /** The device stays known with one capacity and policy, and answers everything. */
  ghost predicate Steady(w: World, known: Known) {
    (forall k :: w.known(k) == Some(known)) && (forall k, chunk :: w.answer(k, chunk).Some?)
  }

  /** Requests of at most the capacity that `n` EPCs need. */
  function Needed(n: nat, capacity: Option<pos>): nat {
    if capacity.Some? then CeilDiv(n, capacity.value) else if n == 0 then 0 else 1
  }

  ghost predicate NoPairs(policy: Option<Policy>) {
    policy.Some? ==> policy.value.incompatiblePairs == []
  }

  ghost predicate OnePair(policy: Option<Policy>, a: Epc, b: Epc) {
    policy.Some? && policy.value.incompatiblePairs == [{a, b}]
  }

  lemma EveryPolicyHasAtMostOnePair(manufacturer: Option<int>, classCode: int)
    ensures NoPairs(PolicyFor(manufacturer, classCode)) || OnePair(PolicyFor(manufacturer, classCode), 0xB3, 0xB7)
  {
  }

  /** With one incompatible pair, a batch that is not full leaves at most one EPC behind. */
  lemma PairLeavesOne(epcs: seq<Epc>, capacity: Option<pos>, policy: Option<Policy>, a: Epc, b: Epc)
    requires NoDup(epcs) && OnePair(policy, a, b)
    requires !Full(Split(epcs, capacity, policy).0, capacity)
    ensures |Split(epcs, capacity, policy).1| <= 1
  {
    var p := Split(epcs, capacity, policy);
    if |p.1| > 1 {
      var x, y := p.1[0], p.1[1];
      SplitKeepsDistinct(epcs, capacity, policy);
      var all := p.0 + p.1;
      assert all[|p.0|] == x && all[|p.0| + 1] == y;
      assert forall i :: 0 <= i < |p.0| ==> all[i] == p.0[i];
      assert x != y && y !in p.0 && x !in p.0;
      SplitIsMaximal(epcs, capacity, policy, x);
      SplitIsMaximal(epcs, capacity, policy, y);
    }
  }

  lemma NoPairsLeavesNone(epcs: seq<Epc>, capacity: Option<pos>, policy: Option<Policy>)
    requires NoPairs(policy) && !Full(Split(epcs, capacity, policy).0, capacity)
    ensures Split(epcs, capacity, policy).1 == []
  {
    var p := Split(epcs, capacity, policy);
    if p.1 != [] {
      SplitIsMaximal(epcs, capacity, policy, p.1[0]);
    }
  }

  lemma RestIsDistinct(epcs: seq<Epc>, capacity: Option<pos>, policy: Option<Policy>)
    requires NoDup(epcs)
    ensures NoDup(Split(epcs, capacity, policy).1)
  {
    var p := Split(epcs, capacity, policy);
    SplitKeepsDistinct(epcs, capacity, policy);
    forall i, j | 0 <= i < j < |p.1| ensures p.1[i] != p.1[j] {
      assert (p.0 + p.1)[|p.0| + i] == p.1[i] && (p.0 + p.1)[|p.0| + j] == p.1[j];
    }
  }

  /** One request brings the need down by one, or leaves a single EPC for one more request. */
  lemma PlanLength(known: Known, remaining: seq<Epc>)
    requires NoDup(remaining) && remaining != []
    ensures NoDup(Plan(known, remaining).1) && |Plan(known, remaining).1| < |remaining|
    ensures var policy := PolicyFor(known.manufacturer, known.classCode);
      var capacity := Capacity(known.capacity, policy);
      var m := |Plan(known, remaining).1|;
      var needed := Needed(|remaining|, capacity);
      || needed == 1 + Needed(m, capacity)
      || (needed == 1 && m == 1 && |remaining| > 1 && !NoPairs(policy))
  {
    var policy := PolicyFor(known.manufacturer, known.classCode);
    var capacity := Capacity(known.capacity, policy);
    PlanShrinks(known, remaining);
    SplitIsLegal(remaining, capacity, policy);
    RestIsDistinct(remaining, capacity, policy);
    if !Full(Plan(known, remaining).0, capacity) {
      if NoPairs(policy) {
        NoPairsLeavesNone(remaining, capacity, policy);
      } else {
        EveryPolicyHasAtMostOnePair(known.manufacturer, known.classCode);
        PairLeavesOne(remaining, capacity, policy, 0xB3, 0xB7);
      }
    }
  }

  lemma {:induction false} LengthFrom(p: Progress, w: World, known: Known)
    requires NoDup(p.remaining) && Steady(w, known)
    ensures var policy := PolicyFor(known.manufacturer, known.classCode);
      var needed := Needed(|p.remaining|, Capacity(known.capacity, policy));
      var sent := |Finish(p, w).0.chunks| - |p.chunks|;
      && Finish(p, w).1 == AllRequested
      && needed <= sent <= needed + 1
      && (NoPairs(policy) || |p.remaining| == 1 ==> sent == needed)
    decreases |p.remaining|
  {
    if p.remaining != [] {
      PlanLength(known, p.remaining);
      var plan := Plan(known, p.remaining);
      var next := Answered(p, plan, w.answer(|p.chunks|, plan.0).value);
      LengthFrom(next, w, known);
      assert Finish(p, w) == Finish(next, w);
    }
  }

  /** A steady device that answers is polled in exactly the requests its capacity asks for when its
      policy has no incompatible pair, and in at most one more when it has one. */
  lemma CycleLength(s: Schedule, epcs: seq<Epc>, w: World, known: Known)
    requires NoDup(epcs) && Steady(w, known)
    ensures var policy := PolicyFor(known.manufacturer, known.classCode);
      var needed := Needed(|epcs|, Capacity(known.capacity, policy));
      var r := Finish(Begin(s, epcs), w);
      && r.1 == AllRequested
      && needed <= |r.0.chunks| <= needed + 1
      && (NoPairs(policy) ==> |r.0.chunks| == needed)
  {
    LengthFrom(Begin(s, epcs), w, known);
  }

  lemma PairIsNeverLegal(chunk: seq<Epc>, known: Known)
    requires multiset(chunk) == multiset([0xB3, 0xB7]) && known == Known(Some(PANASONIC), 0x0287, Some(2))
    ensures !Legal(chunk, Some(known))
  {
    assert 0xB3 in multiset(chunk) && 0xB7 in multiset(chunk);
    var i :| 0 <= i < |chunk| && chunk[i] == 0xB3;
    var j :| 0 <= j < |chunk| && chunk[j] == 0xB7;
    var policy := PolicyFor(known.manufacturer, known.classCode);
    assert chunk[i] in policy.value.incompatiblePairs[0] && chunk[j] in policy.value.incompatiblePairs[0];
  }

  /** The extra request is needed: the incompatible pair alone takes two requests. */
  lemma ExtraRequestIsNeeded(s: Schedule, w: World, known: Known)
    requires Steady(w, known) && known == Known(Some(PANASONIC), 0x0287, Some(2))
    ensures |Finish(Begin(s, [0xB3, 0xB7]), w).0.chunks| == 2 && Needed(2, Some(2)) == 1
  {
    var epcs := [0xB3, 0xB7];
    var r := Finish(Begin(s, epcs), w);
    CycleLength(s, epcs, w, known);
    ChunksPartition(s, epcs, w);
    OneChunkIsAll(r.0.chunks, epcs, w, known);
  }

  lemma OneChunkIsAll(chunks: seq<seq<Epc>>, epcs: seq<Epc>, w: World, known: Known)
    requires epcs == [0xB3, 0xB7] && known == Known(Some(PANASONIC), 0x0287, Some(2))
    requires Steady(w, known) && AllLegal(chunks, w) && multiset(Joined(chunks)) == multiset(epcs)
    ensures |chunks| != 1
  {
    if |chunks| == 1 {
      assert chunks == [] + [chunks[0]];
      JoinedSnoc([], chunks[0]);
      PairIsNeverLegal(chunks[0], known);
    }
  }
}
