/** When the poller polls, in terms of elapsed time, latency and unanswered polls, and how far its cycles are apart
    while a device does not answer. */
module PollRules {
  import opened Basics
  import opened Poller

  lemma DoublingRule(n: nat)
    ensures Pow2(0) == 1.0 && Pow2(n + 1) == 2.0 * Pow2(n)
  {
  }

  /** The time elapsed is enough for a tier of that base: the ceiling; or its base, the latency stretched by the safety
      factor, and, after unanswered polls, the base doubled for each of them, ten times at most. */
  predicate Enough(c: Config, base: real, latency: Option<real>, failures: nat, elapsed: real) {
    || elapsed >= c.maxInterval
    || (elapsed >= base
        && (latency.Some? ==> elapsed >= latency.value * c.safetyFactor)
        && (failures > 0 ==> elapsed >= base * Pow2(if failures < 10 then failures else 10)))
  }

  lemma IntervalRule(c: Config, base: real, s: Schedule, elapsed: real)
    ensures elapsed >= Interval(c, base, s) <==> Enough(c, base, s.latency, s.failures, elapsed)
  {
    var stretched := Stretched(c, base, s.latency);
    StretchedRule(c, base, s.latency, elapsed);
    BackedOffRule(stretched, base, s.failures, elapsed);
    MinRule(BackedOff(stretched, base, s.failures), c.maxInterval, elapsed);
  }

  lemma StretchedRule(c: Config, base: real, latency: Option<real>, x: real)
    ensures x >= Stretched(c, base, latency) <==> x >= base && (latency.Some? ==> x >= latency.value * c.safetyFactor)
  {
    if latency.Some? {
      MaxRule(base, latency.value * c.safetyFactor, x);
    }
  }

  lemma BackedOffRule(interval: real, base: real, failures: nat, x: real)
    ensures x >= BackedOff(interval, base, failures) <==>
      x >= interval && (failures > 0 ==> x >= base * Pow2(if failures < 10 then failures else 10))
  {
    var exponent: nat := if failures < 10 then failures else 10;
    assert Min(failures, MAX_BACKOFF_EXPONENT) == exponent;
    MaxRule(interval, base * Pow2(exponent), x);
  }

  lemma MinRule(a: real, b: real, x: real)
    ensures x >= MinR(a, b) <==> x >= a || x >= b
  {
  }

  lemma MaxRule(a: real, b: real, x: real)
    ensures x >= MaxR(a, b) <==> x >= a && x >= b
  {
  }

  /** The tier has something to poll, and has not been polled yet or long enough ago. */
  predicate NormalTurn(c: Config, s: Schedule, node: Node, now: real) {
    node.normal != {}
    && (s.lastNormal.None? || Enough(c, c.pollInterval, s.latency, s.failures, now - s.lastNormal.value))
  }

  /** The fast tier never waits longer than the normal one would. */
  predicate FastTurn(c: Config, s: Schedule, node: Node, now: real) {
    node.fast != {}
    && (s.lastFast.None?
        || Enough(c, c.fastPollInterval, s.latency, s.failures, now - s.lastFast.value)
        || Enough(c, c.pollInterval, s.latency, s.failures, now - s.lastFast.value))
  }

  function DueEpcs(c: Config, s: Schedule, node: Node, now: real): set<Epc> {
    (if NormalTurn(c, s, node, now) then node.effectiveNormal else {})
    + (if FastTurn(c, s, node, now) then node.effectiveFast else {})
  }

  /** A tick starts a cycle, of the tiers whose turn it is, exactly if none is running and those tiers have something
      subscribed; it requests just that, and restarts the wait of just those tiers. */
  lemma TickRule(c: Config, s: Schedule, node: Node, now: real, stamp: real)
    ensures Wanted(c, s, node, now) == DueEpcs(c, s, node, now)
    ensures TickStep(c, s, node, now, stamp) ==
      if s.polling || DueEpcs(c, s, node, now) == {} then s
      else s.(lastNormal := if NormalTurn(c, s, node, now) then Some(stamp) else s.lastNormal,
              lastFast := if FastTurn(c, s, node, now) then Some(stamp) else s.lastFast, polling := true)
  {
    if s.lastNormal.Some? {
      IntervalRule(c, c.pollInterval, s, now - s.lastNormal.value);
    }
    if s.lastFast.Some? {
      IntervalRule(c, c.fastPollInterval, s, now - s.lastFast.value);
      IntervalRule(c, c.pollInterval, s, now - s.lastFast.value);
    }
    assert NormalDue(c, s, node, now) <==> NormalTurn(c, s, node, now);
    assert FastDue(c, s, node, now) <==> FastTurn(c, s, node, now);
  }

  /** The constructor raises what is too small and keeps everything else. */
  lemma ConfigRule(poll: real, safety: real, max: real, fast: real)
    ensures var c := MakeConfig(poll, safety, max, fast);
      && c.pollInterval == (if poll >= 1.0 then poll else 1.0)
      && c.safetyFactor == (if safety >= 1.0 then safety else 1.0)
      && c.fastPollInterval == (if fast >= 1.0 then fast else 1.0)
      && c.maxInterval == (if max >= c.pollInterval then max else c.pollInterval)
  {
  }

  /** Each answer moves the estimate three tenths of the way to its latency. */
  lemma SmoothingRule(previous: real, latency: real)
    ensures Smoothed(None, latency) == latency
    ensures Smoothed(Some(previous), latency) - previous == 0.3 * (latency - previous)
  {
  }

  // ---- Every run ----

  /** The polls unanswered since the last answer. */
  function UnansweredPolls(events: seq<Event>): nat {
    if events == [] then 0
    else
      var before := UnansweredPolls(events[..|events| - 1]);
      match events[|events| - 1]
      case Unanswered(_) => before + 1
      case Answered(_, _) => 0
      case _ => before
  }

  /** The latencies of the answers. */
  function Latencies(events: seq<Event>): seq<real> {
    if events == [] then []
    else
      Latencies(events[..|events| - 1])
      + (if events[|events| - 1].Answered? then [events[|events| - 1].latency] else [])
  }

  lemma {:induction false} ScheduleRemembers(c: Config, runs: seq<Run>, events: seq<Event>, i: nat)
    requires IsPollRun(c, runs, events) && i < |runs|
    ensures runs[i].schedule.failures == UnansweredPolls(events[..i])
    ensures runs[i].schedule.latency == SmoothedAll(None, Latencies(events[..i]))
  {
    if i > 0 {
      ScheduleRemembers(c, runs, events, i - 1);
      assert events[..i][..i - 1] == events[..i - 1];
      assert runs[i] == Happens(c, runs[i - 1], events[i - 1]);
      StepRemembers(c, runs[i - 1], events[i - 1], Latencies(events[..i - 1]));
    }
  }

  lemma StepRemembers(c: Config, r: Run, e: Event, latencies: seq<real>)
    requires r.schedule.latency == SmoothedAll(None, latencies)
    ensures var s := Happens(c, r, e).schedule;
      && s.failures == (match e case Unanswered(_) => r.schedule.failures + 1 case Answered(_, _) => 0 case _ => r.schedule.failures)
      && s.latency == SmoothedAll(None, latencies + if e.Answered? then [e.latency] else [])
  {
    if e.Answered? {
      assert (latencies + [e.latency])[..|latencies|] == latencies;
    } else {
      assert latencies + [] == latencies;
    }
  }

  lemma EnoughGrows(c: Config, base: real, latency: Option<real>, failures: nat, a: real, b: real)
    requires a <= b && Enough(c, base, latency, failures, a)
    ensures Enough(c, base, latency, failures, b)
  {
  }

  /** In every run: a cycle that includes the normal tier starts only when enough time has passed since every earlier
      one, given the latencies of the answers and the polls unanswered by then; likewise the fast tier. */
  lemma CyclesBackOff(c: Config, runs: seq<Run>, events: seq<Event>, i: nat, j: nat)
    requires IsPollRun(c, runs, events) && i < |events| && events[i].Tick?
    requires |runs[i + 1].cycles| > |runs[i].cycles| && j < |runs[i].cycles|
    ensures var x, y := runs[i + 1].cycles[|runs[i].cycles|], runs[i].cycles[j];
      var latency, failures := SmoothedAll(None, Latencies(events[..i])), UnansweredPolls(events[..i]);
      && (x.normal && y.normal ==> Enough(c, c.pollInterval, latency, failures, x.at - y.at))
      && (x.fast && y.fast ==>
            Enough(c, c.fastPollInterval, latency, failures, x.at - y.at) || Enough(c, c.pollInterval, latency, failures, x.at - y.at))
  {
    RunKeeps(c, runs, events, i);
    ScheduleRemembers(c, runs, events, i);
    assert runs[i + 1] == Happens(c, runs[i], events[i]);
    assert InTime(runs[i], events[i]);
    StartBacksOff(c, runs[i], events[i].node, events[i].now, events[i].stamp, j);
  }

  lemma StartBacksOff(c: Config, r: Run, node: Node, now: real, stamp: real, j: nat)
    requires RunOk(c, r) && Starts(c, r.schedule, node, now) && now <= stamp && j < |r.cycles|
    ensures var y := r.cycles[j]; var s := r.schedule;
      && (NormalDue(c, s, node, now) && y.normal ==> Enough(c, c.pollInterval, s.latency, s.failures, stamp - y.at))
      && (FastDue(c, s, node, now) && y.fast ==>
            Enough(c, c.fastPollInterval, s.latency, s.failures, stamp - y.at)
            || Enough(c, c.pollInterval, s.latency, s.failures, stamp - y.at))
  {
    var y, s := r.cycles[j], r.schedule;
    if NormalDue(c, s, node, now) && y.normal {
      assert IS_NORMAL(y);
      var elapsed := now - s.lastNormal.value;
      IntervalRule(c, c.pollInterval, s, elapsed);
      EnoughGrows(c, c.pollInterval, s.latency, s.failures, elapsed, stamp - y.at);
    }
    if FastDue(c, s, node, now) && y.fast {
      assert IS_FAST(y);
      var elapsed := now - s.lastFast.value;
      IntervalRule(c, c.pollInterval, s, elapsed);
      IntervalRule(c, c.fastPollInterval, s, elapsed);
      if Enough(c, c.pollInterval, s.latency, s.failures, elapsed) {
        EnoughGrows(c, c.pollInterval, s.latency, s.failures, elapsed, stamp - y.at);
      } else {
        EnoughGrows(c, c.fastPollInterval, s.latency, s.failures, elapsed, stamp - y.at);
      }
    }
  }

  /** While a device does not answer, normal-tier cycles start at least the poll interval, doubled for each of
      its last unanswered polls, apart, up to the ceiling. */
  lemma SilenceDoublesTheWait(c: Config, runs: seq<Run>, events: seq<Event>, i: nat, j: nat, f: nat)
    requires IsPollRun(c, runs, events) && i < |events| && events[i].Tick?
    requires |runs[i + 1].cycles| > |runs[i].cycles| && j < |runs[i].cycles|
    requires runs[i + 1].cycles[|runs[i].cycles|].normal && runs[i].cycles[j].normal
    requires f == UnansweredPolls(events[..i]) > 0
    ensures var gap := runs[i + 1].cycles[|runs[i].cycles|].at - runs[i].cycles[j].at;
      gap >= c.maxInterval || gap >= c.pollInterval * Pow2(if f < 10 then f else 10)
  {
    CyclesBackOff(c, runs, events, i, j);
    var gap := runs[i + 1].cycles[|runs[i].cycles|].at - runs[i].cycles[j].at;
    EnoughDoubles(c, SmoothedAll(None, Latencies(events[..i])), f, gap);
  }

  lemma EnoughDoubles(c: Config, latency: Option<real>, f: nat, gap: real)
    requires f > 0 && Enough(c, c.pollInterval, latency, f, gap)
    ensures gap >= c.maxInterval || gap >= c.pollInterval * Pow2(if f < 10 then f else 10)
  {
  }

  /** Three unanswered polls: with the default base of a minute the next cycle waits eight minutes. */
  lemma ThreeUnanswered(now: real, stamp: real, node: Node)
    requires node.normal != {} && node.effectiveNormal != {} && node.fast == {}
    ensures var c := Config(60.0, 20.0, 3600.0, 60.0);
      var s := Schedule(Some(0.0), None, None, 3, false);
      TickStep(c, s, node, now, stamp).polling <==> now >= 480.0
  {
    var c := Config(60.0, 20.0, 3600.0, 60.0);
    var s := Schedule(Some(0.0), None, None, 3, false);
    TickRule(c, s, node, now, stamp);
    DoublingRule(0);
    DoublingRule(1);
    DoublingRule(2);
  }
}
