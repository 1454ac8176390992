/** What each request of a run comes to, in terms of what the reply lists: whether the run goes on, what is
    asked for again, and what is learned. */
module ExchangeRules {
  import opened Basics
  import opened GetBatchPolicy
  import opened GetBatches
  import opened GetBatchTheorems
  import opened GetBatchAccuracy

  predicate Listed(reply: Reply, e: Epc) {
    reply.outcome.Answered?
    && exists i :: 0 <= i < |reply.outcome.properties| && reply.outcome.properties[i].epc == e
  }

  /** The first value listed for the EPC is empty. */
  predicate ListedEmpty(reply: Reply, e: Epc) {
    reply.outcome.Answered?
    && exists i :: 0 <= i < |reply.outcome.properties| && reply.outcome.properties[i] == Property(e, [])
         && forall j :: 0 <= j < i ==> reply.outcome.properties[j].epc != e
  }

  /** The EPCs of the batch that the reply lists. */
  ghost function ListedOf(reply: Reply, batch: seq<Epc>): set<Epc> {
    set e | e in batch && Listed(reply, e)
  }

  lemma AnswerIsListed(reply: Reply, batch: seq<Epc>)
    ensures Answer(reply, batch).Keys == ListedOf(reply, batch)
    ensures |Answer(reply, batch)| == |ListedOf(reply, batch)|
    ensures forall e :: e in Answer(reply, batch) ==> (Answer(reply, batch)[e].edt == [] <==> ListedEmpty(reply, e))
  {
    forall e ensures e in Answer(reply, batch).Keys <==> e in ListedOf(reply, batch) {
      if reply.outcome.Answered? {
        MatchedIsFirstListed(reply.outcome.properties, batch, e);
      }
    }
    forall e | e in Answer(reply, batch)
      ensures Answer(reply, batch)[e].edt == [] <==> ListedEmpty(reply, e)
    {
      FirstListingDecides(reply, batch, e);
    }
    assert |Answer(reply, batch).Keys| == |Answer(reply, batch)|;
  }

  lemma FirstListingDecides(reply: Reply, batch: seq<Epc>, e: Epc)
    requires e in Answer(reply, batch)
    ensures Answer(reply, batch)[e].edt == [] <==> ListedEmpty(reply, e)
  {
    var ps := reply.outcome.properties;
    MatchedIsFirstListed(ps, batch, e);
    var i :| 0 <= i < |ps| && ps[i].epc == e && Answer(reply, batch)[e] == ps[i] && forall j :: 0 <= j < i ==> ps[j].epc != e;
    if ListedEmpty(reply, e) {
      var k :| 0 <= k < |ps| && ps[k] == Property(e, []) && forall j :: 0 <= j < k ==> ps[j].epc != e;
      assert k == i;
    }
    if ps[i].edt == [] {
      assert ps[i] == Property(e, []);
    }
  }

  // ---- What a request comes to ----

  /** With n EPCs asked for and m of them listed: the read is given up if the request was not sent, the
      client stopped, or nothing was listed and there is nothing to halve; the batch is halved if
      setup got nothing out of two EPCs or more, or, as long as no limit is known, nothing but empty
      values; otherwise the EPCs listed are done with. */
  ghost predicate Outcomes(x: Exchange, probe: bool) {
    var n, m := |x.batch|, |ListedOf(x.reply, x.batch)|;
    var gone := x.reply.outcome.NotSent? || x.reply.outcome.Stopped?;
    var blank := m == n && x.limit.None? && forall e :: e in x.batch ==> ListedEmpty(x.reply, e);
    && (x.effect.Aborting? <==> gone || (m == 0 && (!probe || n == 1)))
    && (x.effect.Aborting? ==>
          x.effect.reason == if x.reply.outcome.Stopped? then ClientStopped
                             else if x.reply.outcome.NotSent? then CouldNotSend else NotAnswered)
    && (x.effect.Halved? <==> !gone && probe && n > 1 && (m == 0 || blank))
    && (x.effect.Partial? <==> 0 < m < n)
    && (x.effect.Complete? <==> m == n && !(probe && n > 1 && blank))
  }

  /** What setup learns from the request: a partial answer shows the limit; a complete one is taken for it
      while halving, or when no limit was known and more than one EPC was asked for. */
  ghost function Lesson(x: Exchange, probe: bool): Option<int> {
    if !probe then None
    else if x.effect.Partial? then Some(|ListedOf(x.reply, x.batch)|)
    else if x.effect.Complete? && (x.probeSize.Some? || (x.limit.None? && |x.batch| > 1)) then Some(|x.batch|)
    else None
  }

  ghost predicate AtMost(limit: Option<int>, v: int) {
    limit.Some? && limit.value <= v
  }

  /** The limit afterwards is the least of the one before, what other calls stored, and the lesson; halving sets
      the size to try to half the batch, rounded up, and a lesson ends the probing. */
  ghost predicate LeadsTo(x: Exchange, limit: Option<pos>, probeSize: Option<pos>, manufacturer: Option<int>, probe: bool) {
    && (forall v :: AtMost(limit, v) <==> AtMost(x.limit, v) || AtMost(x.reply.otherLimit, v) || AtMost(Lesson(x, probe), v))
    && (x.effect.Halved? ==> probeSize.Some? && |x.batch| <= 2 * probeSize.value <= |x.batch| + 1)
    && (!x.effect.Halved? ==> probeSize == if Lesson(x, probe).Some? then None else x.probeSize)
    && manufacturer == if x.reply.otherManufacturer.Some? then x.reply.otherManufacturer else x.manufacturer
  }

  /** The queue afterwards: the EPCs of the batch that are not done with, in order, then the rest. */
  ghost predicate Requeues(x: Exchange, rest: seq<Epc>, queue: seq<Epc>) {
    exists again: seq<bool> ::
      && |again| == |x.batch|
      && (forall i :: 0 <= i < |again| ==> (again[i] <==> x.effect.Halved? || !Listed(x.reply, x.batch[i])))
      && queue == Pick(x.batch, again, true) + rest
  }

  lemma EffectFollowsListing(s: State, batch: seq<Epc>, reply: Reply, probe: bool)
    requires batch != [] && NoDup(batch)
    ensures Outcomes(Exchange(batch, s.limit, s.probeSize, s.manufacturer, reply, EffectOf(batch, s.limit, reply, probe)), probe)
  {
    AnswerIsListed(reply, batch);
    AnswerCount(reply, batch);
    var matched := Answer(reply, batch);
    if |matched| == |batch| {
      assert AllEmpty(matched) <==> forall e :: e in batch ==> ListedEmpty(reply, e);
    }
  }

  lemma HalvedAdvance(s: State, batch: seq<Epc>, rest: seq<Epc>, reply: Reply, probe: bool)
    requires batch != [] && EffectOf(batch, s.limit, reply, probe).Halved?
    ensures var t := Advance(s, batch, rest, reply, probe);
      && t.limit == Lowered(s.limit, reply) && t.manufacturer == Identified(s.manufacturer, reply)
      && t.probeSize == Some((|batch| + 1) / 2) && t.queue == batch + rest
  {
  }

  lemma PartialAdvanced(s: State, batch: seq<Epc>, rest: seq<Epc>, reply: Reply, probe: bool)
    requires batch != [] && EffectOf(batch, s.limit, reply, probe).Partial?
    ensures var t := Advance(s, batch, rest, reply, probe); var m := |Answer(reply, batch)|;
      && m > 0
      && t.limit == (if probe then FixLimit(Lowered(s.limit, reply), m) else Lowered(s.limit, reply))
      && t.probeSize == (if probe then None else s.probeSize)
      && t.manufacturer == Identified(s.manufacturer, reply)
      && t.queue == Omitted(batch, Answer(reply, batch)) + rest
  {
  }

  lemma CompleteAdvanced(s: State, batch: seq<Epc>, rest: seq<Epc>, reply: Reply, probe: bool)
    requires batch != [] && EffectOf(batch, s.limit, reply, probe).Complete?
    ensures var t := Advance(s, batch, rest, reply, probe);
      var learns := probe && (s.probeSize.Some? || (s.limit.None? && |batch| > 1));
      && t.limit == (if learns then FixLimit(Lowered(s.limit, reply), |batch|) else Lowered(s.limit, reply))
      && t.probeSize == (if learns then None else s.probeSize)
      && t.manufacturer == Identified(s.manufacturer, reply) && t.queue == rest
  {
  }

  lemma AdvanceLeads(s: State, batch: seq<Epc>, rest: seq<Epc>, reply: Reply, probe: bool)
    requires batch != [] && NoDup(batch)
    ensures var t := Advance(s, batch, rest, reply, probe); var effect := EffectOf(batch, s.limit, reply, probe);
      !effect.Aborting? ==>
        LeadsTo(Exchange(batch, s.limit, s.probeSize, s.manufacturer, reply, effect),
                t.limit, t.probeSize, t.manufacturer, probe)
  {
    AnswerIsListed(reply, batch);
    LoweredIsLeast(s.limit, reply);
    match EffectOf(batch, s.limit, reply, probe)
    case Aborting(_) =>
    case Halved => HalvedAdvance(s, batch, rest, reply, probe);
    case Partial =>
      PartialAdvanced(s, batch, rest, reply, probe);
      FixedIsLeast(Lowered(s.limit, reply), |Answer(reply, batch)|);
    case Complete =>
      CompleteAdvanced(s, batch, rest, reply, probe);
      FixedIsLeast(Lowered(s.limit, reply), |batch|);
  }

  lemma FixedIsLeast(limit: Option<pos>, capacity: pos)
    ensures forall v :: AtMost(FixLimit(limit, capacity), v) <==> AtMost(limit, v) || capacity <= v
  {
  }

  lemma LoweredIsLeast(limit: Option<pos>, reply: Reply)
    ensures forall v :: AtMost(Lowered(limit, reply), v) <==> AtMost(limit, v) || AtMost(reply.otherLimit, v)
  {
  }

  lemma {:induction false} OmittedIsPicked(batch: seq<Epc>, matched: map<Epc, Property>, again: seq<bool>)
    requires |again| == |batch| && forall i :: 0 <= i < |batch| ==> (again[i] <==> batch[i] !in matched)
    ensures Omitted(batch, matched) == Pick(batch, again, true)
  {
    if batch != [] {
      OmittedIsPicked(batch[..|batch| - 1], matched, again[..|batch| - 1]);
    }
  }

  lemma {:induction false} PickAll(batch: seq<Epc>, again: seq<bool>, all: bool)
    requires |again| == |batch| && forall i :: 0 <= i < |batch| ==> again[i] == all
    ensures Pick(batch, again, true) == if all then batch else []
  {
    if batch != [] {
      var last := |batch| - 1;
      PickAll(batch[..last], again[..last], all);
      assert batch == batch[..last] + [batch[last]];
    }
  }

  lemma AdvanceRequeues(s: State, batch: seq<Epc>, rest: seq<Epc>, reply: Reply, probe: bool)
    requires batch != [] && NoDup(batch)
    ensures var t := Advance(s, batch, rest, reply, probe); var effect := EffectOf(batch, s.limit, reply, probe);
      !effect.Aborting? ==>
        Requeues(Exchange(batch, s.limit, s.probeSize, s.manufacturer, reply, effect), rest, t.queue)
  {
    var matched, effect := Answer(reply, batch), EffectOf(batch, s.limit, reply, probe);
    var x := Exchange(batch, s.limit, s.probeSize, s.manufacturer, reply, effect);
    var again := seq(|batch|, i requires 0 <= i < |batch| => effect.Halved? || batch[i] !in matched);
    MatchedAreListed(reply, batch);
    RequeuesBy(x, rest, Pick(batch, again, true) + rest, again);
    PicksWhatIsLeft(batch, reply, effect, again);
    match effect
    case Aborting(_) =>
    case Halved => HalvedAdvance(s, batch, rest, reply, probe);
    case Partial => PartialAdvanced(s, batch, rest, reply, probe);
    case Complete =>
      AnswerCount(reply, batch);
      CompleteAdvanced(s, batch, rest, reply, probe);
  }

  lemma MatchedAreListed(reply: Reply, batch: seq<Epc>)
    ensures forall i :: 0 <= i < |batch| ==> (batch[i] in Answer(reply, batch) <==> Listed(reply, batch[i]))
  {
    AnswerIsListed(reply, batch);
    forall i | 0 <= i < |batch| ensures batch[i] in Answer(reply, batch) <==> Listed(reply, batch[i]) {
      assert batch[i] in Answer(reply, batch).Keys <==> batch[i] in ListedOf(reply, batch);
    }
  }

  lemma PicksWhatIsLeft(batch: seq<Epc>, reply: Reply, effect: Effect, again: seq<bool>)
    requires |again| == |batch|
    requires forall i :: 0 <= i < |batch| ==> (again[i] <==> effect.Halved? || batch[i] !in Answer(reply, batch))
    ensures effect.Halved? ==> Pick(batch, again, true) == batch
    ensures effect.Partial? ==> Pick(batch, again, true) == Omitted(batch, Answer(reply, batch))
    ensures effect.Complete? && (forall e :: e in batch ==> e in Answer(reply, batch)) ==> Pick(batch, again, true) == []
  {
    if effect.Halved? {
      PickAll(batch, again, true);
    } else if effect.Partial? {
      OmittedIsPicked(batch, Answer(reply, batch), again);
    } else if effect.Complete? && forall e :: e in batch ==> e in Answer(reply, batch) {
      PickAll(batch, again, false);
    }
  }

  lemma RequeuesBy(x: Exchange, rest: seq<Epc>, queue: seq<Epc>, again: seq<bool>)
    requires |again| == |x.batch| && queue == Pick(x.batch, again, true) + rest
    requires forall i :: 0 <= i < |again| ==> (again[i] <==> x.effect.Halved? || !Listed(x.reply, x.batch[i]))
    ensures Requeues(x, rest, queue)
  {
  }

  /** One iteration of any read. */
  lemma IterationFollowsRules(s: State, reply: Reply, probe: bool, classCode: int)
    requires s.queue != [] && NoDup(s.queue)
    ensures var t := Step(s, reply, probe, classCode); var rest := Plan(s, classCode).1;
      && t.log == s.log + [t.log[|s.log|]]
      && var x := t.log[|s.log|];
      && x.batch == Plan(s, classCode).0 && x.limit == s.limit && x.probeSize == s.probeSize
      && x.manufacturer == s.manufacturer && x.reply == reply
      && Outcomes(x, probe)
      && (!x.effect.Aborting? ==>
            LeadsTo(x, t.limit, t.probeSize, t.manufacturer, probe) && Requeues(x, rest, t.queue))
  {
    var p := Plan(s, classCode);
    PlanIsPlanned(s, classCode);
    NoDupParts(p.0, p.1);
    AdvanceLogs(s, p.0, p.1, reply, probe);
    EffectFollowsListing(s, p.0, reply, probe);
    AdvanceLeads(s, p.0, p.1, reply, probe);
    AdvanceRequeues(s, p.0, p.1, reply, probe);
  }

  // ---- Whole runs ----

  /** Every exchange so far came to what it should, leads to the next, and the last one to `s`. */
  ghost predicate LogFollowsRules(log: seq<Exchange>, s: State, probe: bool) {
    && (forall k :: 0 <= k < |log| ==> Outcomes(log[k], probe))
    && (forall k :: 0 <= k < |log| - 1 ==>
          !log[k].effect.Aborting?
          && LeadsTo(log[k], log[k + 1].limit, log[k + 1].probeSize, log[k + 1].manufacturer, probe))
    && (log != [] && !log[|log| - 1].effect.Aborting? ==>
          LeadsTo(log[|log| - 1], s.limit, s.probeSize, s.manufacturer, probe))
  }

  lemma LogGrows(log: seq<Exchange>, s: State, x: Exchange, t: State, probe: bool)
    requires LogFollowsRules(log, s, probe) && (log != [] ==> !log[|log| - 1].effect.Aborting?)
    requires x.limit == s.limit && x.probeSize == s.probeSize && x.manufacturer == s.manufacturer && Outcomes(x, probe)
    requires !x.effect.Aborting? ==> LeadsTo(x, t.limit, t.probeSize, t.manufacturer, probe)
    ensures LogFollowsRules(log + [x], t, probe)
  {
    var more := log + [x];
    assert forall k :: 0 <= k < |log| ==> more[k] == log[k];
  }

  lemma {:induction false} ExecFollowsRules(s: State, device: Device, probe: bool, classCode: int)
    requires NoDup(s.queue) && LogFollowsRules(s.log, s, probe)
    requires s.log != [] ==> !s.log[|s.log| - 1].effect.Aborting?
    ensures var run := Exec(s, device, probe, classCode);
      && LogFollowsRules(run.1.log, run.1, probe)
      && |run.1.log| >= |s.log|
      && (run.0.Finished? <==> run.1.log == [] || !LastEffect(run.1).Aborting?)
      && (run.0.Finished? ==> run.1.queue == [])
      && (run.0.Aborted? ==> run.0.reason == LastEffect(run.1).reason)
    decreases |s.queue|, Probing(s)
  {
    if s.queue != [] {
      var p := Plan(s, classCode);
      var reply := device(|s.log|, p.0);
      var t := Step(s, reply, probe, classCode);
      PlanIsPlanned(s, classCode);
      AdvanceKeepsDistinct(s, p.0, p.1, reply, probe);
      IterationFollowsRules(s, reply, probe, classCode);
      LogGrows(s.log, s, t.log[|s.log|], t, probe);
      StepProgresses(s, reply, probe, classCode);
      if !LastEffect(t).Aborting? {
        ExecFollowsRules(t, device, probe, classCode);
      }
    }
  }

  /** In every run each request comes to what its reply lists, and leads to the next. The run goes on until
      every EPC is done with, and is given up exactly when a request calls for that, for its reason. */
  lemma RunFollowsRules(epcs: seq<Epc>, known: map<Epc, Property>, limit: Option<pos>, manufacturer: Option<int>,
                        device: Device, probe: bool, classCode: int)
    ensures var run := Exec(Start(epcs, known, limit, manufacturer), device, probe, classCode);
      && LogFollowsRules(run.1.log, run.1, probe)
      && (run.0.Finished? <==> run.1.log == [] || !LastEffect(run.1).Aborting?)
      && (run.0.Finished? ==> run.1.queue == [])
      && (run.0.Aborted? ==> run.0.reason == LastEffect(run.1).reason)
  {
    ExecFollowsRules(Start(epcs, known, limit, manufacturer), device, probe, classCode);
  }

  lemma PrefixOfPrefix<T>(s: seq<T>, n: nat, i: nat)
    requires i < n <= |s|
    ensures s[..n][..i] == s[..i] && s[..n][i] == s[i]
  {
  }

  /** The first request asks for the EPCs in the order of their first occurrence. */
  lemma {:induction false} DedupeKeepsFirst(epcs: seq<Epc>, marks: seq<bool>)
    requires |marks| == |epcs| && forall i :: 0 <= i < |epcs| ==> (marks[i] <==> epcs[i] !in epcs[..i])
    ensures Dedupe(epcs) == Pick(epcs, marks, true)
  {
    if epcs != [] {
      var last := |epcs| - 1;
      forall i | 0 <= i < last ensures marks[..last][i] <==> epcs[..last][i] !in epcs[..last][..i] {
        PrefixOfPrefix(epcs, last, i);
      }
      DedupeKeepsFirst(epcs[..last], marks[..last]);
    }
  }

  // ---- Reading with a limit that is known, or without probing ----

  /** Every EPC asked for is listed, with a value or without, and nothing interferes. */
  ghost predicate ListsAll(reply: Reply, batch: seq<Epc>) {
    Quiet(reply) && forall e :: e in batch ==> Listed(reply, e)
  }

  ghost predicate ListsUpTo(device: Device, size: nat) {
    forall k: nat, batch: seq<Epc> :: NoDup(batch) && 1 <= |batch| <= size ==> ListsAll(device(k, batch), batch)
  }

  lemma ListedChunk(s: State, device: Device, probe: bool, classCode: int, c: pos) returns (t: State)
    requires s.queue != [] && NoDup(s.queue) && PolicyFor(s.manufacturer, classCode).None?
    requires s.probeSize.None? && s.limit == Some(c) && ListsUpTo(device, c)
    ensures Exec(s, device, probe, classCode) == Exec(t, device, probe, classCode)
    ensures t.queue == s.queue[Min(c, |s.queue|)..] && NoDup(t.queue) && t.manufacturer == s.manufacturer
    ensures t.probeSize.None? && t.limit == Some(c)
    ensures |t.log| == |s.log| + 1 && Halvings(t.log) == Halvings(s.log)
  {
    var k := Min(c, |s.queue|);
    PlanWithoutPolicy(s, classCode);
    PrefixIsPlanned(s, k);
    var batch, rest := s.queue[..k], s.queue[k..];
    assert Plan(s, classCode) == (batch, rest);
    var reply := device(|s.log|, batch);
    assert ListsAll(reply, batch);
    t := Step(s, reply, probe, classCode);
    ListedIsComplete(s, batch, rest, reply, probe, c);
    HalvingsSnoc(s.log, t.log[|s.log|]);
  }

  lemma ListedIsComplete(s: State, batch: seq<Epc>, rest: seq<Epc>, reply: Reply, probe: bool, c: pos)
    requires batch != [] && NoDup(batch) && ListsAll(reply, batch) && s.limit == Some(c) && s.probeSize.None?
    ensures var t := Advance(s, batch, rest, reply, probe);
      && t.log == s.log + [t.log[|s.log|]] && LastEffect(t).Complete?
      && t.queue == rest && t.limit == Some(c) && t.probeSize.None? && t.manufacturer == s.manufacturer
  {
    AnswerIsListed(reply, batch);
    AnswerCount(reply, batch);
    forall e | e in batch ensures e in Answer(reply, batch) {
      assert e in ListedOf(reply, batch);
    }
    assert reply.outcome.Answered? by {
      assert batch[0] in batch && Listed(reply, batch[0]);
    }
  }

  lemma {:induction false} ListedRead(s: State, device: Device, probe: bool, classCode: int, c: pos)
    requires NoDup(s.queue) && PolicyFor(s.manufacturer, classCode).None?
    requires s.probeSize.None? && s.limit == Some(c) && ListsUpTo(device, c)
    ensures var run := Exec(s, device, probe, classCode);
      && run.0.Finished? && run.1.limit == Some(c)
      && |run.1.log| == |s.log| + CeilDiv(|s.queue|, c) && Halvings(run.1.log) == Halvings(s.log)
    decreases |s.queue|
  {
    if s.queue != [] {
      var t := ListedChunk(s, device, probe, classCode, c);
      assert |t.queue| == |s.queue| - Min(c, |s.queue|);
      ListedRead(t, device, probe, classCode, c);
      OneChunkLess(|s.queue|, c, |t.queue|);
    }
  }

  lemma OneChunkLess(n: pos, c: pos, rest: nat)
    requires rest == n - Min(c, n)
    ensures CeilDiv(n, c) == 1 + CeilDiv(rest, c)
  {
  }

  /** Once a limit c is known, blank values prove nothing: from any device that lists what it is asked for, empty
      or not, N EPCs are read in exactly ceil(N / c) requests, nothing is halved, and the limit stays. The
      same holds of a plain read. */
  lemma KnownLimitIsKept(epcs: seq<Epc>, known: map<Epc, Property>, c: pos, manufacturer: Option<int>,
                         device: Device, probe: bool, classCode: int)
    requires PolicyFor(manufacturer, classCode).None? && ListsUpTo(device, c)
    ensures
      var run := Exec(Start(epcs, known, Some(c), manufacturer), device, probe, classCode);
      && run.0.Finished? && run.1.limit == Some(c)
      && |run.1.log| == CeilDiv(|Dedupe(epcs)|, c) && Halvings(run.1.log) == 0
  {
    ListedRead(Start(epcs, known, Some(c), manufacturer), device, probe, classCode, c);
  }
}
