/** The stored limit outlives the call that learned it, also one that was aborted. Over any sequence of
    reads of a device with a real limit, with losses and interference, the stored limit stays true, and every
    setup that finishes has read everything. */
module RepeatedReads {
  import opened Basics
  import opened GetBatchPolicy
  import opened GetBatches
  import opened GetBatchTheorems
  import opened GetBatchAccuracy

  ghost predicate Within(limit: Option<pos>, bound: pos) {
    limit.Some? ==> limit.value <= bound
  }

  /** The request failed: it was not sent, was lost, or the client was stopped. */
  predicate Fails(reply: Reply) {
    !reply.outcome.Answered?
  }

  /** A device that answers up to `bound` EPCs, and ignores, blanks or truncates larger requests. Any
      request may fail, and other calls may store any limit within the bound meanwhile. */
  ghost predicate Honest(device: Device, bound: pos) {
    forall k: nat, batch: seq<Epc> :: NoDup(batch) && batch != [] ==> HonestReply(device(k, batch), batch, bound)
  }

  ghost predicate HonestReply(reply: Reply, batch: seq<Epc>, bound: pos) {
    && Within(reply.otherLimit, bound)
    && (Fails(reply)
        || (if |batch| <= bound then AnswersAll(reply, batch)
            else IgnoresOrBlanks(reply, batch) || Truncates(reply, batch, bound)))
  }

  /** Every EPC is still queued or has been read, and the limit is true. */
  ghost predicate OnTrack(s: State, wanted: seq<Epc>, bound: pos) {
    Within(s.limit, bound) && forall e :: e in wanted ==> e in s.queue || HasValue(s.received, e)
  }

  /** A reply that lists every EPC of a batch over the bound, all empty, or none of them, is not taken for
      an answer while nothing is known. */
  lemma LargeBatchEffect(s: State, batch: seq<Epc>, reply: Reply, bound: pos)
    requires NoDup(batch) && |batch| > bound && s.limit.None? && HonestReply(reply, batch, bound)
    ensures var effect := EffectOf(batch, s.limit, reply, true);
      || effect.Aborting? || effect.Halved?
      || (effect.Partial? && |Answer(reply, batch)| == bound
          && forall e :: e in Answer(reply, batch) ==> Answer(reply, batch)[e].edt != [])
  {
    AnswerCount(reply, batch);
    if reply.outcome.Answered? {
      if IgnoresOrBlanks(reply, batch) {
        if Answer(reply, batch) != map[] {
          assert AllEmpty(Answer(reply, batch));
        }
      } else {
        TruncatedIsPrefix(reply, batch, bound);
      }
    }
  }

  lemma TruncatedIsPrefix(reply: Reply, batch: seq<Epc>, bound: pos)
    requires NoDup(batch) && |batch| > bound && Truncates(reply, batch, bound)
    ensures |Answer(reply, batch)| == bound
    ensures forall e :: e in Answer(reply, batch) ==> Answer(reply, batch)[e].edt != []
  {
    PrefixCount(batch, Answer(reply, batch), bound);
    forall e | e in Answer(reply, batch) ensures Answer(reply, batch)[e].edt != [] {
      var i :| 0 <= i < |batch| && batch[i] == e;
      assert i < bound;
    }
  }

  /** An answer to a batch within the bound is complete, and every value in it is there. */
  lemma SmallBatchEffect(s: State, batch: seq<Epc>, reply: Reply, bound: pos)
    requires NoDup(batch) && 1 <= |batch| <= bound && HonestReply(reply, batch, bound)
    ensures var effect := EffectOf(batch, s.limit, reply, true);
      || effect.Aborting? || effect.Halved?
      || (effect.Complete? && |Answer(reply, batch)| == |batch|
          && forall e :: e in Answer(reply, batch) ==> Answer(reply, batch)[e].edt != [])
  {
    AnswerCount(reply, batch);
    if reply.outcome.Answered? {
      assert batch[0] in batch;
      assert !AllEmpty(Answer(reply, batch));
    }
  }

  /** Whatever a setup makes of a reply: what it takes off the queue has a value, and a limit it
      stores is within the bound. */
  lemma HonestEffect(s: State, batch: seq<Epc>, rest: seq<Epc>, reply: Reply, bound: pos)
    requires Planned(s, batch, rest) && Within(s.limit, bound) && HonestReply(reply, batch, bound)
    ensures var effect := EffectOf(batch, s.limit, reply, true);
      effect.Partial? || effect.Complete? ==>
        && |Answer(reply, batch)| <= bound
        && (effect.Complete? ==> |batch| <= bound)
        && forall e :: e in Answer(reply, batch) ==> Answer(reply, batch)[e].edt != []
  {
    NoDupParts(batch, rest);
    if |batch| <= bound {
      SmallBatchEffect(s, batch, reply, bound);
    } else {
      LargeBatchEffect(s, batch, reply, bound);
    }
  }

  lemma AdvanceOnTrack(s: State, batch: seq<Epc>, rest: seq<Epc>, reply: Reply, wanted: seq<Epc>, bound: pos)
    requires Planned(s, batch, rest) && OnTrack(s, wanted, bound) && HonestReply(reply, batch, bound)
    ensures OnTrack(Advance(s, batch, rest, reply, true), wanted, bound)
  {
    var t := Advance(s, batch, rest, reply, true);
    HonestEffect(s, batch, rest, reply, bound);
    AdvanceWithin(s, batch, rest, reply, true, bound);
    forall e | e in wanted ensures e in t.queue || HasValue(t.received, e) {
      AdvanceMembership(s, batch, rest, reply, true, e);
    }
  }

  lemma AdvanceWithin(s: State, batch: seq<Epc>, rest: seq<Epc>, reply: Reply, probe: bool, bound: pos)
    requires Planned(s, batch, rest) && Within(s.limit, bound) && HonestReply(reply, batch, bound)
    ensures var t := Advance(s, batch, rest, reply, probe); Within(t.limit, bound) && NoLooser(s.limit, t.limit)
  {
    AdvanceLimit(s, batch, rest, reply, probe);
    assert Within(Lowered(s.limit, reply), bound);
    if probe {
      HonestEffect(s, batch, rest, reply, bound);
      ProbedLimit(s, batch, rest, reply);
    }
  }

  /** A setup leaves the limit that others left, or stores how many EPCs it has just been answered. */
  lemma ProbedLimit(s: State, batch: seq<Epc>, rest: seq<Epc>, reply: Reply)
    requires batch != []
    ensures var t := Advance(s, batch, rest, reply, true);
      || t.limit == Lowered(s.limit, reply)
      || (LastEffect(t).Partial? && t.limit == Some(|Answer(reply, batch)|))
      || (LastEffect(t).Complete? && t.limit == Some(|batch|))
    ensures LastEffect(Advance(s, batch, rest, reply, true)) == EffectOf(batch, s.limit, reply, true)
  {
  }

  lemma {:induction false} ExecOnTrack(s: State, device: Device, classCode: int, wanted: seq<Epc>, bound: pos)
    requires NoDup(s.queue) && OnTrack(s, wanted, bound) && Honest(device, bound)
    ensures var run := Exec(s, device, true, classCode);
      OnTrack(run.1, wanted, bound) && (run.0.Finished? ==> run.1.queue == [])
    decreases |s.queue|, Probing(s)
  {
    if s.queue != [] {
      var batch, rest := Plan(s, classCode).0, Plan(s, classCode).1;
      var reply := device(|s.log|, batch);
      var t := Step(s, reply, true, classCode);
      PlanIsPlanned(s, classCode);
      NoDupParts(batch, rest);
      AdvanceKeepsDistinct(s, batch, rest, reply, true);
      assert HonestReply(reply, batch, bound);
      AdvanceOnTrack(s, batch, rest, reply, wanted, bound);
      StepProgresses(s, reply, true, classCode);
      if !LastEffect(t).Aborting? {
        ExecOnTrack(t, device, classCode, wanted, bound);
      }
    }
  }

  lemma {:induction false} ExecWithin(s: State, device: Device, probe: bool, classCode: int, bound: pos)
    requires NoDup(s.queue) && Within(s.limit, bound) && Honest(device, bound)
    ensures var run := Exec(s, device, probe, classCode);
      Within(run.1.limit, bound) && NoLooser(s.limit, run.1.limit)
    decreases |s.queue|, Probing(s)
  {
    if s.queue != [] {
      var batch, rest := Plan(s, classCode).0, Plan(s, classCode).1;
      var reply := device(|s.log|, batch);
      var t := Step(s, reply, probe, classCode);
      PlanIsPlanned(s, classCode);
      NoDupParts(batch, rest);
      AdvanceKeepsDistinct(s, batch, rest, reply, probe);
      assert HonestReply(reply, batch, bound);
      AdvanceWithin(s, batch, rest, reply, probe, bound);
      StepProgresses(s, reply, probe, classCode);
      if !LastEffect(t).Aborting? {
        ExecWithin(t, device, probe, classCode, bound);
      }
    }
  }

  // ---- Any sequence of reads of one device object ----

  /** One setup (`probe`) or plain read; `device` is how the device and everything else behave during it. */
  datatype Visit = Visit(epcs: seq<Epc>, known: map<Epc, Property>, manufacturer: Option<int>, classCode: int,
                         probe: bool, device: Device)

  function RunOf(v: Visit, limit: Option<pos>): (Verdict, State) {
    Exec(Start(v.epcs, v.known, limit, v.manufacturer), v.device, v.probe, v.classCode)
  }

  /** The limit stored after the visits. */
  function StoredAfter(visits: seq<Visit>): Option<pos> {
    if visits == [] then None
    else RunOf(visits[|visits| - 1], StoredAfter(visits[..|visits| - 1])).1.limit
  }

  lemma OneVisit(v: Visit, limit: Option<pos>, bound: pos)
    requires Within(limit, bound) && Honest(v.device, bound)
    ensures Within(RunOf(v, limit).1.limit, bound) && NoLooser(limit, RunOf(v, limit).1.limit)
    ensures v.probe && RunOf(v, limit).0.Finished? ==> forall e :: e in v.epcs ==> HasValue(RunOf(v, limit).1.received, e)
  {
    var s := Start(v.epcs, v.known, limit, v.manufacturer);
    ExecWithin(s, v.device, v.probe, v.classCode, bound);
    if v.probe {
      ExecOnTrack(s, v.device, v.classCode, v.epcs, bound);
    }
  }

  lemma {:induction false} StoredWithin(visits: seq<Visit>, bound: pos)
    requires forall i :: 0 <= i < |visits| ==> Honest(visits[i].device, bound)
    ensures Within(StoredAfter(visits), bound)
  {
    if visits != [] {
      var last := |visits| - 1;
      StoredWithin(visits[..last], bound);
      OneVisit(visits[last], StoredAfter(visits[..last]), bound);
    }
  }

  /** Over any sequence of setups and plain reads of a device with the limit `bound`, whatever requests
      are lost, whichever calls are aborted, and under any policy: the stored limit is always at
      most the real one and never grows, and every setup that finishes has read all its EPCs. */
  lemma EverySetupReadsAll(visits: seq<Visit>, bound: pos, i: nat)
    requires i < |visits| && forall j :: 0 <= j < |visits| ==> Honest(visits[j].device, bound)
    ensures var before, after := StoredAfter(visits[..i]), StoredAfter(visits[..i + 1]);
      Within(before, bound) && Within(after, bound) && NoLooser(before, after)
    ensures var run := RunOf(visits[i], StoredAfter(visits[..i]));
      visits[i].probe && run.0.Finished? ==> forall e :: e in visits[i].epcs ==> HasValue(run.1.received, e)
  {
    StoredWithin(visits[..i], bound);
    OneVisit(visits[i], StoredAfter(visits[..i]), bound);
    assert visits[..i + 1][..i] == visits[..i];
  }

  /** The devices of the accuracy theorems are among these. */
  lemma AccurateIsHonest(device: Device, bound: pos)
    requires AnswersUpTo(device, bound) && (RefusesOver(device, bound) || TruncatesOver(device, bound))
    ensures Honest(device, bound)
  {
  }

  /** From a stored limit c that is true, a device that answers is read in exactly ceil(N / c) requests,
      without probing again, and the limit stays. */
  lemma ReadsFromStoredLimit(epcs: seq<Epc>, known: map<Epc, Property>, c: pos, manufacturer: Option<int>,
                             device: Device, classCode: int, bound: pos)
    requires PolicyFor(manufacturer, classCode).None? && AnswersUpTo(device, bound) && c <= bound
    ensures
      var n := |Dedupe(epcs)|;
      var run := Exec(Start(epcs, known, Some(c), manufacturer), device, true, classCode);
      && run.0.Finished? && run.1.limit == Some(c)
      && |run.1.log| == CeilDiv(n, c) && Halvings(run.1.log) == 0
      && forall e :: e in epcs ==> HasValue(run.1.received, e)
  {
    ReadWithLimit(Start(epcs, known, Some(c), manufacturer), device, classCode, bound);
  }
}
