/** The adaptive poller (src/pyhems/poller.py) for one device: its intervals and when cycles start.
    Times are reals. */
module Poller {
  import opened Basics

  // ---- Intervals ----

  function MaxR(a: real, b: real): real { if a < b then b else a }
  function MinR(a: real, b: real): real { if a < b then a else b }

  const MAX_BACKOFF_EXPONENT: nat := 10

  datatype Config = Config(pollInterval: real, safetyFactor: real, maxInterval: real, fastPollInterval: real)

  /** The clamping done by the constructor. */
  function MakeConfig(poll: real, safety: real, max: real, fast: real): (c: Config)
    ensures ConfigOk(c)
  {
    Config(MaxR(1.0, poll), MaxR(1.0, safety), MaxR(MaxR(1.0, poll), max), MaxR(1.0, fast))
  }

  predicate ConfigOk(c: Config) {
    1.0 <= c.pollInterval <= c.maxInterval && 1.0 <= c.safetyFactor && 1.0 <= c.fastPollInterval
  }

  /** The adaptive state of a device; a device without state behaves as if freshly created. */
  datatype Schedule = Schedule(lastNormal: Option<real>, lastFast: Option<real>, latency: Option<real>, failures: nat,
                               polling: bool)

  const NEW_SCHEDULE := Schedule(None, None, None, 0, false)

  function Pow2(n: nat): (r: real)
    ensures r >= 1.0
  {
    if n == 0 then 1.0 else 2.0 * Pow2(n - 1)
  }

  /** The base, stretched by the smoothed latency. */
  function Stretched(c: Config, base: real, latency: Option<real>): real {
    if latency.Some? then MaxR(base, latency.value * c.safetyFactor) else base
  }

  function BackedOff(interval: real, base: real, failures: nat): real {
    if failures > 0 then MaxR(interval, base * Pow2(Min(failures, MAX_BACKOFF_EXPONENT))) else interval
  }

  /** A tier's interval: its base, stretched by latency and by failures, capped. */
  function Interval(c: Config, base: real, s: Schedule): real {
    MinR(BackedOff(Stretched(c, base, s.latency), base, s.failures), c.maxInterval)
  }

  function EffectiveInterval(c: Config, s: Schedule): real {
    Interval(c, c.pollInterval, s)
  }

  function EffectiveFastInterval(c: Config, s: Schedule): real {
    MinR(Interval(c, c.fastPollInterval, s), EffectiveInterval(c, s))
  }

  lemma {:induction false} Pow2Monotone(a: nat, b: nat)
    requires a <= b
    ensures Pow2(a) <= Pow2(b)
  {
    if a < b {
      Pow2Monotone(a, b - 1);
    }
  }

  lemma Scale(base: real, a: real, b: real)
    requires base >= 0.0 && a <= b
    ensures base * a <= base * b && a * base <= b * base
  {
    assert base * (b - a) >= 0.0;
  }

  /** The wait is between the tier's base and the ceiling, the fast tier is never slower than the
      normal one, and neither ever drops below the smaller of the two bases. */
  lemma IntervalBounds(c: Config, s: Schedule)
    requires ConfigOk(c)
    ensures c.pollInterval <= EffectiveInterval(c, s) <= c.maxInterval
    ensures MinR(c.fastPollInterval, c.pollInterval) <= EffectiveFastInterval(c, s) <= EffectiveInterval(c, s)
  {
  }

  /** More failures or a higher latency never shorten the wait of either tier. */
  lemma IntervalMonotone(c: Config, s: Schedule, t: Schedule)
    requires ConfigOk(c) && s.failures <= t.failures
    requires s.latency.Some? ==> t.latency.Some? && s.latency.value <= t.latency.value
    ensures EffectiveInterval(c, s) <= EffectiveInterval(c, t)
    ensures EffectiveFastInterval(c, s) <= EffectiveFastInterval(c, t)
  {
    OneIntervalMonotone(c, c.pollInterval, s, t);
    OneIntervalMonotone(c, c.fastPollInterval, s, t);
  }

  lemma BackedOffMonotone(x: real, y: real, base: real, m: nat, n: nat)
    requires x <= y && base >= 1.0 && m <= n
    ensures BackedOff(x, base, m) <= BackedOff(y, base, n)
  {
    var a, b := Min(m, MAX_BACKOFF_EXPONENT), Min(n, MAX_BACKOFF_EXPONENT);
    Pow2Monotone(a, b);
    Scale(base, Pow2(a), Pow2(b));
    MaxMonotone(x, y, base * Pow2(a), base * Pow2(b));
  }

  lemma MaxMonotone(x: real, y: real, p: real, q: real)
    requires x <= y && p <= q
    ensures MaxR(x, p) <= MaxR(y, q) && x <= MaxR(y, q)
  {
  }

  lemma OneIntervalMonotone(c: Config, base: real, s: Schedule, t: Schedule)
    requires ConfigOk(c) && base >= 1.0 && s.failures <= t.failures
    requires s.latency.Some? ==> t.latency.Some? && s.latency.value <= t.latency.value
    ensures Interval(c, base, s) <= Interval(c, base, t)
  {
    if s.latency.Some? {
      Scale(c.safetyFactor, s.latency.value, t.latency.value);
      MaxMonotone(base, base, s.latency.value * c.safetyFactor, t.latency.value * c.safetyFactor);
    }
    assert Stretched(c, base, s.latency) <= Stretched(c, base, t.latency);
    BackedOffMonotone(Stretched(c, base, s.latency), Stretched(c, base, t.latency), base, s.failures, t.failures);
  }

  // ---- Smoothed latency ----

  function Smoothed(previous: Option<real>, latency: real): real {
    if previous.None? then latency else 0.3 * latency + 0.7 * previous.value
  }

  function SmoothedAll(previous: Option<real>, latencies: seq<real>): Option<real> {
    if latencies == [] then previous
    else Some(Smoothed(SmoothedAll(previous, latencies[..|latencies| - 1]), latencies[|latencies| - 1]))
  }

  /** The estimate stays within the range of the latencies observed. */
  lemma {:induction false} LatencyStaysInRange(latencies: seq<real>, low: real, high: real)
    requires forall x :: x in latencies ==> low <= x <= high
    ensures SmoothedAll(None, latencies).Some? ==> low <= SmoothedAll(None, latencies).value <= high
    ensures SmoothedAll(None, latencies).None? <==> latencies == []
  {
    if latencies != [] {
      var n := |latencies| - 1;
      assert forall x :: x in latencies[..n] ==> x in latencies;
      LatencyStaysInRange(latencies[..n], low, high);
      assert latencies[n] in latencies;
    }
  }

  // ---- When cycles start ----

  /** What a tick sees of the device: its candidate EPCs and those in effect, per tier. */
  datatype Node = Node(normal: set<Epc>, fast: set<Epc>, effectiveNormal: set<Epc>, effectiveFast: set<Epc>)

  predicate Due(candidates: set<Epc>, last: Option<real>, now: real, interval: real) {
    candidates != {} && (last.None? || now - last.value >= interval)
  }

  predicate NormalDue(c: Config, s: Schedule, node: Node, now: real) {
    Due(node.normal, s.lastNormal, now, EffectiveInterval(c, s))
  }

  predicate FastDue(c: Config, s: Schedule, node: Node, now: real) {
    Due(node.fast, s.lastFast, now, EffectiveFastInterval(c, s))
  }

  function Wanted(c: Config, s: Schedule, node: Node, now: real): set<Epc> {
    (if NormalDue(c, s, node, now) then node.effectiveNormal else {})
    + (if FastDue(c, s, node, now) then node.effectiveFast else {})
  }

  predicate Starts(c: Config, s: Schedule, node: Node, now: real) {
    !s.polling && Wanted(c, s, node, now) != {}
  }

  /** One tick for the device: `now` is read before deciding, `stamp` when the cycle is started. */
  function TickStep(c: Config, s: Schedule, node: Node, now: real, stamp: real): Schedule {
    if Starts(c, s, node, now) then
      s.(lastNormal := if NormalDue(c, s, node, now) then Some(stamp) else s.lastNormal,
         lastFast := if FastDue(c, s, node, now) then Some(stamp) else s.lastFast,
         polling := true)
    else s
  }

  class DeviceScheduleState {
    var lastPolledAt: Option<real>
    var lastFastPolledAt: Option<real>
    var latencyEwma: Option<real>
    var consecutiveFailures: nat
    var polling: bool

    function Model(): Schedule
      reads this
    {
      Schedule(lastPolledAt, lastFastPolledAt, latencyEwma, consecutiveFailures, polling)
    }

    constructor ()
      ensures Model() == NEW_SCHEDULE
    {
      lastPolledAt, lastFastPolledAt, latencyEwma, consecutiveFailures, polling := None, None, None, 0, false;
    }

    method UpdateLatency(latency: real)
      modifies `latencyEwma
      ensures latencyEwma == Some(Smoothed(old(latencyEwma), latency))
    {
      if latencyEwma.None? {
        latencyEwma := Some(latency);
      } else {
        latencyEwma := Some(0.3 * latency + (1.0 - 0.3) * latencyEwma.value);
      }
    }

    /** The device's part of `_schedule_polls`; returns the EPCs of the cycle started, if one is. */
    method SchedulePoll(c: Config, node: Node, now: real, stamp: real) returns (epcs: set<Epc>)
      modifies this
      ensures Model() == TickStep(c, old(Model()), node, now, stamp)
      ensures epcs == if old(polling) then {} else Wanted(c, old(Model()), node, now)
    {
      epcs := {};
      if polling || (node.normal == {} && node.fast == {}) {
        return;
      }
      var normalDue := node.normal != {}
        && (lastPolledAt.None? || now - lastPolledAt.value >= EffectiveInterval(c, Model()));
      var fastDue := node.fast != {}
        && (lastFastPolledAt.None? || now - lastFastPolledAt.value >= EffectiveFastInterval(c, Model()));
      if !normalDue && !fastDue {
        return;
      }
      epcs := FirePoll(node, fastDue, normalDue, stamp);
    }

    method FirePoll(node: Node, fast: bool, normal: bool, stamp: real) returns (epcs: set<Epc>)
      modifies this
      ensures epcs == (if normal then node.effectiveNormal else {}) + (if fast then node.effectiveFast else {})
      ensures Model() ==
        if epcs == {} then old(Model())
        else old(Model()).(lastNormal := if normal then Some(stamp) else old(lastPolledAt),
                           lastFast := if fast then Some(stamp) else old(lastFastPolledAt), polling := true)
    {
      epcs := (if normal then node.effectiveNormal else {}) + (if fast then node.effectiveFast else {});
      if epcs == {} {
        return;
      }
      if normal {
        lastPolledAt := Some(stamp);
      }
      if fast {
        lastFastPolledAt := Some(stamp);
      }
      polling := true;
    }
  }

  // ---- Every run of one device ----

  /** A cycle that was started, for which tiers, and when it ended. */
  datatype Cycle = Cycle(at: real, normal: bool, fast: bool, ended: Option<real>)

  datatype Event =
    | Tick(node: Node, now: real, stamp: real)
    | Answered(at: real, latency: real)
    | Unanswered(at: real)
    | CycleEnds(at: real)

  /** The schedule, the time of the last event, and the cycles since the device's state was created. */
  datatype Run = Run(schedule: Schedule, clock: real, cycles: seq<Cycle>)

  predicate InTime(r: Run, e: Event) {
    match e
    case Tick(_, now, stamp) => r.clock <= now <= stamp
    case Answered(at, _) => r.clock <= at && r.schedule.polling
    case Unanswered(at) => r.clock <= at && r.schedule.polling
    case CycleEnds(at) => r.clock <= at && r.schedule.polling
  }

  function EndLast(cycles: seq<Cycle>, at: real): seq<Cycle> {
    if cycles == [] then [] else cycles[|cycles| - 1 := cycles[|cycles| - 1].(ended := Some(at))]
  }

  function Happens(c: Config, r: Run, e: Event): Run {
    var s := r.schedule;
    match e
    case Tick(node, now, stamp) =>
      Run(TickStep(c, s, node, now, stamp), stamp,
          if Starts(c, s, node, now) then r.cycles + [Cycle(stamp, NormalDue(c, s, node, now), FastDue(c, s, node, now), None)]
          else r.cycles)
    case Answered(at, latency) =>
      Run(s.(latency := Some(Smoothed(s.latency, latency)), failures := 0), at, r.cycles)
    case Unanswered(at) => Run(s.(failures := s.failures + 1, polling := false), at, EndLast(r.cycles, at))
    case CycleEnds(at) => Run(s.(polling := false), at, EndLast(r.cycles, at))
  }

  ghost predicate IsPollRun(c: Config, runs: seq<Run>, events: seq<Event>) {
    && ConfigOk(c)
    && |runs| == |events| + 1
    && runs[0].schedule == NEW_SCHEDULE && runs[0].cycles == []
    && (forall i :: 0 <= i < |events| ==> InTime(runs[i], events[i]) && runs[i + 1] == Happens(c, runs[i], events[i]))
  }

  /** `last` is when the latest cycle of the tier started, and it is not in the future. */
  ghost predicate LastStart(r: Run, tier: Cycle -> bool, last: Option<real>) {
    forall i :: 0 <= i < |r.cycles| && tier(r.cycles[i]) ==> last.Some? && r.cycles[i].at <= last.value <= r.clock
  }

  ghost predicate Spaced(cycles: seq<Cycle>, tier: Cycle -> bool, gap: real) {
    forall i, j :: 0 <= i < j < |cycles| && tier(cycles[i]) && tier(cycles[j]) ==> cycles[j].at - cycles[i].at >= gap
  }

  /** Cycles follow one another: each but the last has ended before the next starts. */
  ghost predicate NoOverlap(cycles: seq<Cycle>) {
    forall i, j :: 0 <= i < j < |cycles| ==> cycles[i].ended.Some? && cycles[i].ended.value <= cycles[j].at
  }

  ghost predicate EndedInPast(r: Run) {
    forall i :: 0 <= i < |r.cycles| && r.cycles[i].ended.Some? ==> r.cycles[i].ended.value <= r.clock
  }

  ghost predicate LastEnded(r: Run) {
    r.cycles != [] && !r.schedule.polling ==> r.cycles[|r.cycles| - 1].ended.Some?
  }

  const IS_NORMAL: Cycle -> bool := (x: Cycle) => x.normal
  const IS_FAST: Cycle -> bool := (x: Cycle) => x.fast

  ghost predicate RunOk(c: Config, r: Run) {
    && LastStart(r, IS_NORMAL, r.schedule.lastNormal)
    && LastStart(r, IS_FAST, r.schedule.lastFast)
    && Spaced(r.cycles, IS_NORMAL, c.pollInterval)
    && Spaced(r.cycles, IS_FAST, MinR(c.fastPollInterval, c.pollInterval))
    && NoOverlap(r.cycles)
    && EndedInPast(r)
    && LastEnded(r)
  }

  /** A cycle started at `stamp` keeps one tier's clauses, whether or not it includes the tier. */
  lemma StartKeepsTier(r: Run, tier: Cycle -> bool, last: Option<real>, gap: real, x: Cycle, t: Run)
    requires LastStart(r, tier, last) && Spaced(r.cycles, tier, gap)
    requires t.cycles == r.cycles + [x] && r.clock <= x.at == t.clock
    requires tier(x) && last.Some? ==> x.at - last.value >= gap
    ensures LastStart(t, tier, if tier(x) then Some(x.at) else last)
    ensures Spaced(t.cycles, tier, gap)
  {
    var n := |r.cycles|;
    assert forall i :: 0 <= i < n ==> t.cycles[i] == r.cycles[i];
    assert t.cycles[n] == x;
  }

  lemma StartKeepsOrder(r: Run, x: Cycle, t: Run)
    requires !r.schedule.polling && NoOverlap(r.cycles) && EndedInPast(r) && LastEnded(r)
    requires t.cycles == r.cycles + [x] && r.clock <= x.at == t.clock && x.ended.None? && t.schedule.polling
    ensures NoOverlap(t.cycles) && EndedInPast(t) && LastEnded(t)
  {
    var n := |r.cycles|;
    assert forall i :: 0 <= i < n ==> t.cycles[i] == r.cycles[i];
    assert t.cycles[n] == x;
    forall i | 0 <= i < n ensures r.cycles[i].ended.Some? && r.cycles[i].ended.value <= x.at {
      if i < n - 1 {
        assert r.cycles[n - 1].at == r.cycles[n - 1].at && r.cycles[i].ended.Some?;
      }
    }
  }

  lemma TickKeeps(c: Config, r: Run, node: Node, now: real, stamp: real)
    requires ConfigOk(c) && RunOk(c, r) && InTime(r, Tick(node, now, stamp))
    ensures RunOk(c, Happens(c, r, Tick(node, now, stamp)))
  {
    var s, t := r.schedule, Happens(c, r, Tick(node, now, stamp));
    if Starts(c, s, node, now) {
      IntervalBounds(c, s);
      var x := Cycle(stamp, NormalDue(c, s, node, now), FastDue(c, s, node, now), None);
      assert t.cycles == r.cycles + [x];
      StartKeepsTier(r, IS_NORMAL, s.lastNormal, c.pollInterval, x, t);
      StartKeepsTier(r, IS_FAST, s.lastFast, MinR(c.fastPollInterval, c.pollInterval), x, t);
      StartKeepsOrder(r, x, t);
    }
  }

  lemma EndKeeps(c: Config, r: Run, at: real, s: Schedule)
    requires RunOk(c, r) && r.clock <= at
    requires s.lastNormal == r.schedule.lastNormal && s.lastFast == r.schedule.lastFast
    ensures RunOk(c, Run(s.(polling := false), at, EndLast(r.cycles, at)))
  {
    var t := Run(s.(polling := false), at, EndLast(r.cycles, at));
    assert forall i :: 0 <= i < |r.cycles| ==>
      t.cycles[i] == if i == |r.cycles| - 1 then r.cycles[i].(ended := Some(at)) else r.cycles[i];
  }

  lemma HappensKeeps(c: Config, r: Run, e: Event)
    requires ConfigOk(c) && RunOk(c, r) && InTime(r, e)
    ensures RunOk(c, Happens(c, r, e))
  {
    match e
    case Tick(node, now, stamp) => TickKeeps(c, r, node, now, stamp);
    case Answered(_, _) =>
    case Unanswered(at) => EndKeeps(c, r, at, r.schedule.(failures := r.schedule.failures + 1));
    case CycleEnds(at) => EndKeeps(c, r, at, r.schedule);
  }

  lemma {:induction false} RunKeeps(c: Config, runs: seq<Run>, events: seq<Event>, i: nat)
    requires IsPollRun(c, runs, events) && i < |runs|
    ensures RunOk(c, runs[i])
  {
    if i > 0 {
      RunKeeps(c, runs, events, i - 1);
      HappensKeeps(c, runs[i - 1], events[i - 1]);
    }
  }

  /** Spacing: in every run with a clock that does not go back, cycles of a device never overlap,
      cycles that include the normal tier start at least the poll interval apart, and cycles that
      include the fast tier at least the smaller base interval apart. */
  lemma CyclesAreSpaced(c: Config, runs: seq<Run>, events: seq<Event>, i: nat)
    requires IsPollRun(c, runs, events) && i < |runs|
    ensures NoOverlap(runs[i].cycles)
    ensures Spaced(runs[i].cycles, IS_NORMAL, c.pollInterval)
    ensures Spaced(runs[i].cycles, IS_FAST, MinR(c.fastPollInterval, c.pollInterval))
  {
    RunKeeps(c, runs, events, i);
  }

  /** Backing off never starves a device: a tick at least the maximum interval after a tier's last
      cycle starts a cycle for it, unless one is running or nothing is subscribed. */
  lemma DueAfterMaxInterval(c: Config, s: Schedule, node: Node, now: real, stamp: real)
    requires ConfigOk(c) && !s.polling
    ensures node.normal != {} && node.effectiveNormal != {} && (s.lastNormal.Some? ==> now - s.lastNormal.value >= c.maxInterval)
      ==> TickStep(c, s, node, now, stamp).polling && TickStep(c, s, node, now, stamp).lastNormal == Some(stamp)
    ensures node.fast != {} && node.effectiveFast != {} && (s.lastFast.Some? ==> now - s.lastFast.value >= c.maxInterval)
      ==> TickStep(c, s, node, now, stamp).polling && TickStep(c, s, node, now, stamp).lastFast == Some(stamp)
  {
    IntervalBounds(c, s);
    if NormalDue(c, s, node, now) && node.effectiveNormal != {} {
      assert node.effectiveNormal <= Wanted(c, s, node, now);
    }
    if FastDue(c, s, node, now) && node.effectiveFast != {} {
      assert node.effectiveFast <= Wanted(c, s, node, now);
    }
  }
}
