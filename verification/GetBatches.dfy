/** Adaptive GET batching (HemsClient._run_get_batches, src/pyhems/runtime.py): reading a set of
    EPCs from a device whose concurrent-response limit is unknown.

    The loop is specified by `Exec`, a run of the step function `Step` against an arbitrary device;
    the theorems about such runs are in GetBatchTheorems. */
module GetBatches {
  import opened Basics
  import opened GetBatchPolicy

  // ---- The device and everything else that may happen while a request is outstanding ----

  /** What came of one request: it could not be sent, the client was stopped, nothing arrived in
      time, or a response listing some properties. */
  datatype Outcome = NotSent | Stopped | Silent | Answered(properties: seq<Property>)

  /** The outcome, together with what another call on the same device object stored meanwhile. */
  datatype Reply = Reply(outcome: Outcome, otherLimit: Option<pos>, otherManufacturer: Option<int>)

  /** Any behaviour at all: the reply to the k-th request, which asked for the given EPCs. */
  type Device = (nat, seq<Epc>) -> Reply

  datatype Reason = CouldNotSend | NotAnswered | ClientStopped

  /** What the loop made of one request. */
  datatype Effect = Halved | Partial | Complete | Aborting(reason: Reason)

  /** One request as the loop saw it: the batch, the limit, probe size and manufacturer it was planned
      from, the reply and its effect. */
  datatype Exchange = Exchange(batch: seq<Epc>, limit: Option<pos>, probeSize: Option<pos>,
                               manufacturer: Option<int>, reply: Reply, effect: Effect)

  datatype Verdict = Finished | Aborted(reason: Reason)

  /** The variables of the loop, the shared capability record, and the log of requests made. */
  datatype State = State(queue: seq<Epc>, probeSize: Option<pos>, received: map<Epc, Property>,
                         limit: Option<pos>, manufacturer: Option<int>, log: seq<Exchange>)

  // ---- One iteration ----

  /** First occurrences, in order. */
  function Dedupe(epcs: seq<Epc>): (r: seq<Epc>)
    ensures NoDup(r)
    ensures forall e :: e in r <==> e in epcs
  {
    if epcs == [] then []
    else
      var last := |epcs| - 1;
      var r := Dedupe(epcs[..last]);
      assert epcs == epcs[..last] + [epcs[last]];
      if epcs[last] in r then r else r + [epcs[last]]
  }

  /** For each requested EPC that the response lists, the first property listed for it. */
  function Matched(properties: seq<Property>, batch: seq<Epc>): (m: map<Epc, Property>)
    ensures forall e :: e in m ==> e in batch && m[e].epc == e
  {
    if properties == [] then map[]
    else
      var last := |properties| - 1;
      var m := Matched(properties[..last], batch);
      var p := properties[last];
      if p.epc in batch && p.epc !in m then m[p.epc := p] else m
  }

  function Answer(reply: Reply, batch: seq<Epc>): (m: map<Epc, Property>)
    ensures forall e :: e in m ==> e in batch && m[e].epc == e
  {
    if reply.outcome.Answered? then Matched(reply.outcome.properties, batch) else map[]
  }

  function WithValues(matched: map<Epc, Property>): map<Epc, Property> {
    map e | e in matched && matched[e].edt != [] :: matched[e]
  }

  predicate AllEmpty(matched: map<Epc, Property>) {
    forall e :: e in matched ==> matched[e].edt == []
  }

  function Omitted(batch: seq<Epc>, matched: map<Epc, Property>): (r: seq<Epc>)
    ensures forall e :: e in r <==> e in batch && e !in matched
    ensures |r| <= |batch|
  {
    if batch == [] then []
    else
      var last := |batch| - 1;
      assert batch == batch[..last] + [batch[last]];
      Omitted(batch[..last], matched) + (if batch[last] in matched then [] else [batch[last]])
  }

  function Size(limit: Option<pos>, probeSize: Option<pos>): Option<pos> {
    if probeSize.None? then limit
    else if limit.None? then probeSize
    else Some(Min(limit.value, probeSize.value))
  }

  /** Storing a limit keeps the smallest value. */
  function FixLimit(limit: Option<pos>, capacity: pos): Option<pos> {
    if limit.Some? && limit.value <= capacity then limit else Some(capacity)
  }

  function Lowered(limit: Option<pos>, reply: Reply): Option<pos> {
    if reply.otherLimit.Some? then FixLimit(limit, reply.otherLimit.value) else limit
  }

  function Identified(manufacturer: Option<int>, reply: Reply): Option<int> {
    if reply.otherManufacturer.Some? then reply.otherManufacturer else manufacturer
  }

  function Plan(s: State, classCode: int): (seq<Epc>, seq<Epc>) {
    FirstBatch(s.queue, s.manufacturer, classCode, Size(s.limit, s.probeSize))
  }

  function EffectOf(batch: seq<Epc>, limit: Option<pos>, reply: Reply, probe: bool): Effect {
    var matched := Answer(reply, batch);
    if reply.outcome.Stopped? then Aborting(ClientStopped)
    else if reply.outcome.NotSent? then Aborting(CouldNotSend)
    else if |matched| == 0 then (if !probe || |batch| == 1 then Aborting(NotAnswered) else Halved)
    else if |matched| < |batch| then Partial
    else if probe && AllEmpty(matched) && limit.None? && |batch| > 1 then Halved
    else Complete
  }

  /** The effect of a reply to the request for `batch`, `rest` being the EPCs left for later. */
  function Advance(s: State, batch: seq<Epc>, rest: seq<Epc>, reply: Reply, probe: bool): State
    requires batch != []
  {
    var matched := Answer(reply, batch);
    var effect := EffectOf(batch, s.limit, reply, probe);
    var limit := Lowered(s.limit, reply);
    var t := s.(limit := limit,
                manufacturer := Identified(s.manufacturer, reply),
                log := s.log + [Exchange(batch, s.limit, s.probeSize, s.manufacturer, reply, effect)]);
    match effect
    case Aborting(_) => t
    case Halved =>
      t.(queue := batch + rest, probeSize := Some((|batch| + 1) / 2))
    case Partial =>
      t.(queue := Omitted(batch, matched) + rest,
         received := s.received + WithValues(matched),
         limit := if probe then FixLimit(limit, |matched|) else limit,
         probeSize := if probe then None else s.probeSize)
    case Complete =>
      var learns := probe && (s.probeSize.Some? || (s.limit.None? && |batch| > 1));
      t.(queue := rest,
         received := s.received + WithValues(matched),
         limit := if learns then FixLimit(limit, |batch|) else limit,
         probeSize := if learns then None else s.probeSize)
  }

  function Step(s: State, reply: Reply, probe: bool, classCode: int): State
    requires s.queue != []
  {
    SplitTakesOneOf(s, classCode);
    Advance(s, Plan(s, classCode).0, Plan(s, classCode).1, reply, probe)
  }

  function LastEffect(s: State): Effect
    requires s.log != []
  {
    s.log[|s.log| - 1].effect
  }

  lemma SplitTakesOneOf(s: State, classCode: int)
    requires s.queue != []
    ensures Plan(s, classCode).0 != []
    ensures |Plan(s, classCode).0| + |Plan(s, classCode).1| == |s.queue|
  {
    var policy := PolicyFor(s.manufacturer, classCode);
    var capacity := Capacity(Size(s.limit, s.probeSize), policy);
    SplitTakesOne(s.queue, capacity, policy);
    SplitPartitions(s.queue, capacity, policy);
  }

  /** What a batch may hold, and that it keeps distinct EPCs distinct. */
  lemma PlanFits(s: State, classCode: int)
    requires s.queue != [] && NoDup(s.queue)
    ensures var p := Plan(s, classCode); var policy := PolicyFor(s.manufacturer, classCode);
      && 1 <= |p.0|
      && |p.0| + |p.1| == |s.queue|
      && (s.limit.Some? ==> |p.0| <= s.limit.value)
      && (s.probeSize.Some? ==> |p.0| <= s.probeSize.value)
      && (policy.Some? && policy.value.maxBatchSize.Some? ==> |p.0| <= policy.value.maxBatchSize.value)
      && ConflictFree(p.0, policy)
      && NoDup(p.0 + p.1)
      && (forall e :: e in s.queue <==> e in p.0 + p.1)
  {
    var policy := PolicyFor(s.manufacturer, classCode);
    var capacity := Capacity(Size(s.limit, s.probeSize), policy);
    SplitTakesOne(s.queue, capacity, policy);
    SplitPartitions(s.queue, capacity, policy);
    SplitIsLegal(s.queue, capacity, policy);
    SplitKeepsDistinct(s.queue, capacity, policy);
    forall e ensures e in s.queue <==> e in Plan(s, classCode).0 + Plan(s, classCode).1 {
      SplitMembers(s.queue, capacity, policy, e);
    }
  }

  // ---- The whole loop ----

  /** The loop's termination measure: the queue never grows, and while it stays the same the probe
      size falls. */
  function Probing(s: State): nat {
    if s.probeSize.None? then |s.queue| + 1 else s.probeSize.value
  }

  lemma AdvanceProgresses(s: State, batch: seq<Epc>, rest: seq<Epc>, reply: Reply, probe: bool)
    requires batch != [] && |batch| + |rest| == |s.queue|
    requires s.probeSize.Some? ==> |batch| <= s.probeSize.value
    ensures var t := Advance(s, batch, rest, reply, probe);
      LastEffect(t).Aborting? || |t.queue| < |s.queue| || (|t.queue| == |s.queue| && Probing(t) < Probing(s))
  {
    var matched := Answer(reply, batch);
    if EffectOf(batch, s.limit, reply, probe).Partial? {
      assert matched.Keys != {};
      var e :| e in matched;
      OmittedIsShorter(batch, matched);
    }
  }

  lemma StepProgresses(s: State, reply: Reply, probe: bool, classCode: int)
    requires s.queue != []
    ensures var t := Step(s, reply, probe, classCode);
      LastEffect(t).Aborting? || |t.queue| < |s.queue| || (|t.queue| == |s.queue| && Probing(t) < Probing(s))
  {
    SplitTakesOneOf(s, classCode);
    var policy := PolicyFor(s.manufacturer, classCode);
    SplitIsLegal(s.queue, Capacity(Size(s.limit, s.probeSize), policy), policy);
    AdvanceProgresses(s, Plan(s, classCode).0, Plan(s, classCode).1, reply, probe);
  }

  lemma {:induction false} OmittedIsShorter(batch: seq<Epc>, matched: map<Epc, Property>)
    requires exists e :: e in batch && e in matched
    ensures |Omitted(batch, matched)| < |batch|
  {
    var last := |batch| - 1;
    assert batch == batch[..last] + [batch[last]];
    if batch[last] !in matched {
      OmittedIsShorter(batch[..last], matched);
    }
  }

  function Exec(s: State, device: Device, probe: bool, classCode: int): (Verdict, State)
    decreases |s.queue|, Probing(s)
  {
    if s.queue == [] then (Finished, s)
    else
      var reply := device(|s.log|, Plan(s, classCode).0);
      var t := Step(s, reply, probe, classCode);
      StepProgresses(s, reply, probe, classCode);
      if LastEffect(t).Aborting? then (Aborted(LastEffect(t).reason), t) else Exec(t, device, probe, classCode)
  }

  function Start(epcs: seq<Epc>, received: map<Epc, Property>, limit: Option<pos>, manufacturer: Option<int>): State {
    State(Dedupe(epcs), None, received, limit, manufacturer, [])
  }

  /** Observed GET response behaviour of one device object, shared by all calls reading it. */
  class GetCapability {
    var observedBatchCapacity: Option<pos>
    var manufacturerCode: Option<int>

    constructor ()
      ensures observedBatchCapacity == None && manufacturerCode == None
    {
      observedBatchCapacity, manufacturerCode := None, None;
    }

    /** Lower the stored limit to `capacity`; a stored limit is never raised. */
    method FixBatchCapacity(capacity: pos)
      modifies `observedBatchCapacity
      ensures observedBatchCapacity == FixLimit(old(observedBatchCapacity), capacity)
    {
      if observedBatchCapacity.Some? && observedBatchCapacity.value <= capacity {
        return;
      }
      observedBatchCapacity := Some(capacity);
    }

    /** Other calls run while a request is outstanding. */
    method Await(reply: Reply)
      modifies this
      ensures observedBatchCapacity == Lowered(old(observedBatchCapacity), reply)
      ensures manufacturerCode == Identified(old(manufacturerCode), reply)
    {
      if reply.otherLimit.Some? {
        FixBatchCapacity(reply.otherLimit.value);
      }
      if reply.otherManufacturer.Some? {
        manufacturerCode := reply.otherManufacturer;
      }
    }
  }

  method MatchProperties(reply: Reply, batch: seq<Epc>) returns (matched: map<Epc, Property>)
    ensures matched == Answer(reply, batch)
  {
    matched := map[];
    if reply.outcome.Answered? {
      var properties := reply.outcome.properties;
      for i := 0 to |properties|
        invariant matched == Matched(properties[..i], batch)
      {
        assert properties[..i + 1][..i] == properties[..i];
        var p := properties[i];
        if p.epc in batch && p.epc !in matched {
          matched := matched[p.epc := p];
        }
      }
      assert properties[..|properties|] == properties;
    }
  }

  /** The second half of an iteration: what the loop does once the request has ended. `limit` is
      the value read before the request; the capability may have changed since. */
  method HandleReply(capability: GetCapability, batch: seq<Epc>, rest: seq<Epc>, limit: Option<pos>, reply: Reply,
                     probe: bool, probeSize: Option<pos>, received: map<Epc, Property>, ghost s: State)
    returns (failure: Option<Reason>, queue': seq<Epc>, probeSize': Option<pos>, received': map<Epc, Property>)
    requires batch != []
    requires s.queue != [] && s.probeSize == probeSize && s.received == received && s.limit == limit
    requires s.limit == capability.observedBatchCapacity && s.manufacturer == capability.manufacturerCode
    modifies capability
    ensures var t := Advance(s, batch, rest, reply, probe);
      && capability.observedBatchCapacity == t.limit
      && capability.manufacturerCode == t.manufacturer
      && received' == t.received
      && failure == (if LastEffect(t).Aborting? then Some(LastEffect(t).reason) else None)
      && (failure.None? ==> queue' == t.queue && probeSize' == t.probeSize)
  {
    failure, queue', probeSize', received' := None, rest, probeSize, received;
    capability.Await(reply);
    if reply.outcome.Stopped? {
      failure := Some(ClientStopped);
      return;
    }
    if reply.outcome.NotSent? {
      failure := Some(CouldNotSend);
      return;
    }
    var n := |batch|;
    var matched := MatchProperties(reply, batch);
    var m := |matched|;
    if m == 0 {
      if !probe || n == 1 {
        failure := Some(NotAnswered);
        return;
      }
      probeSize' := Some((n + 1) / 2);
      queue' := batch + rest;
    } else if m < n {
      if probe {
        capability.FixBatchCapacity(m);
        probeSize' := None;
      }
      received' := received + WithValues(matched);
      queue' := Omitted(batch, matched) + rest;
    } else if probe && AllEmpty(matched) && limit.None? && n > 1 {
      probeSize' := Some((n + 1) / 2);
      queue' := batch + rest;
    } else {
      if probe && (probeSize.Some? || (limit.None? && n > 1)) {
        capability.FixBatchCapacity(n);
        probeSize' := None;
      }
      received' := received + WithValues(matched);
    }
  }

  /** Request `epcs` in batches, adding the values read to `known`. */
  method RunGetBatches(capability: GetCapability, classCode: int, epcs: seq<Epc>, known: map<Epc, Property>,
                       probe: bool, device: Device)
    returns (verdict: Verdict, received: map<Epc, Property>, ghost log: seq<Exchange>)
    modifies capability
    ensures
      var run := Exec(Start(epcs, known, old(capability.observedBatchCapacity), old(capability.manufacturerCode)),
                      device, probe, classCode);
      && verdict == run.0
      && received == run.1.received
      && capability.observedBatchCapacity == run.1.limit
      && capability.manufacturerCode == run.1.manufacturer
      && log == run.1.log
  {
    var queue := Dedupe(epcs);
    var probeSize: Option<pos> := None;
    var requests: nat := 0;
    received, log := known, [];
    ghost var s := Start(epcs, known, capability.observedBatchCapacity, capability.manufacturerCode);
    ghost var start := s;
    while queue != []
      invariant requests == |log|
      invariant s == State(queue, probeSize, received, capability.observedBatchCapacity,
                           capability.manufacturerCode, log)
      invariant Exec(s, device, probe, classCode) == Exec(start, device, probe, classCode)
      decreases |queue|, Probing(s)
    {
      var limit := capability.observedBatchCapacity;
      var size := if probeSize.None? then limit
                  else if limit.None? then probeSize
                  else Some(Min(limit.value, probeSize.value));
      var plan := TakeFirstBatch(queue, capability.manufacturerCode, classCode,
                                 if size.None? then None else Some(size.value));
      var batch, rest := plan.value.0, plan.value.1;
      assert (batch, rest) == Plan(s, classCode);
      SplitTakesOneOf(s, classCode);
      var reply := device(requests, batch);
      ghost var t := Step(s, reply, probe, classCode);
      StepProgresses(s, reply, probe, classCode);
      log := t.log;
      requests := requests + 1;
      var failure, queue', probeSize', received' :=
        HandleReply(capability, batch, rest, limit, reply, probe, probeSize, received, s);
      received := received';
      if failure.Some? {
        return Aborted(failure.value), received, log;
      }
      queue, probeSize, s := queue', probeSize', t;
    }
    verdict := Finished;
  }
}
