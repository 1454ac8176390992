/** The two public ways to read a device object (HemsClient.setup_get and HemsClient.get): the
    stand-alone read of the manufacturer code, the batching loop, and the assembly of the result. */
module DeviceReads {
  import opened Basics
  import opened GetBatchPolicy
  import opened GetBatches
  import opened GetBatchTheorems

  const MANUFACTURER_CODE: Epc := 0x8A

  datatype Failure = Unreachable | NoManufacturer | Failed(reason: Reason)

  /** The first listed manufacturer property that is long enough to hold the code. */
  function ManufacturerIn(properties: seq<Property>): (r: Option<Property>)
    ensures r.Some? ==> r.value in properties && r.value.epc == MANUFACTURER_CODE && |r.value.edt| >= 3
    ensures r.None? ==> forall p :: p in properties ==> p.epc != MANUFACTURER_CODE || |p.edt| < 3
  {
    if properties == [] then None
    else if properties[0].epc == MANUFACTURER_CODE && |properties[0].edt| >= 3 then Some(properties[0])
    else ManufacturerIn(properties[1..])
  }

  /** What the read of the manufacturer code makes of its reply; a stop of the client ends it. */
  function ManufacturerOf(reply: Reply): Result<Property, Failure> {
    match reply.outcome
    case Stopped => Err(Failed(ClientStopped))
    case Answered(properties) =>
      var found := ManufacturerIn(properties);
      if found.Some? then Ok(found.value) else Err(NoManufacturer)
    case _ => Err(NoManufacturer)
  }

  function CodeOf(p: Property): int
    requires |p.edt| >= 3
  {
    p.edt[0] as int * 0x10000 + p.edt[1] as int * 0x100 + p.edt[2] as int
  }

  /** The device as the batching loop meets it, one request having gone before. */
  function AfterOne(device: Device): Device {
    (k: nat, batch: seq<Epc>) => device(k + 1, batch)
  }

  function Assemble(epcs: seq<Epc>, received: map<Epc, Property>): (r: seq<Property>)
    ensures |r| == |epcs|
  {
    seq(|epcs|, i requires 0 <= i < |epcs| => if epcs[i] in received then received[epcs[i]] else Property(epcs[i], []))
  }

  function Unknown(epcs: seq<Epc>, received: map<Epc, Property>): (r: seq<Epc>)
    ensures forall e :: e in r <==> e in epcs && e !in received
  {
    Omitted(epcs, received)
  }

  /** What a read goes through before the batching loop: whether the manufacturer code had to be
      read, and what is known afterwards. */
  datatype Prelude = Prelude(failure: Option<Failure>, known: map<Epc, Property>, limit: Option<pos>, manufacturer: Option<int>,
                             device: Device, requests: nat)

  function Identify(needed: bool, keep: bool, limit: Option<pos>, manufacturer: Option<int>, device: Device): Prelude {
    if !needed then Prelude(None, map[], limit, manufacturer, device, 0)
    else
      var reply := device(0, [MANUFACTURER_CODE]);
      var found := ManufacturerOf(reply);
      Prelude(if found.Err? then Some(found.error) else None,
              if found.Ok? && keep then map[MANUFACTURER_CODE := found.value] else map[],
              Lowered(limit, reply),
              if found.Ok? then Some(CodeOf(found.value)) else Identified(manufacturer, reply),
              AfterOne(device), 1)
  }

  function Batches(p: Prelude, classCode: int, epcs: seq<Epc>, probe: bool): (Verdict, State) {
    Exec(Start(Unknown(epcs, p.known), p.known, p.limit, p.manufacturer), p.device, probe, classCode)
  }

  method ReadManufacturerCode(capability: GetCapability, device: Device) returns (found: Result<Property, Failure>)
    modifies capability
    ensures var reply := device(0, [MANUFACTURER_CODE]);
      && found == ManufacturerOf(reply)
      && capability.observedBatchCapacity == Lowered(old(capability.observedBatchCapacity), reply)
      && capability.manufacturerCode ==
           if found.Ok? then Some(CodeOf(found.value)) else Identified(old(capability.manufacturerCode), reply)
  {
    var reply := device(0, [MANUFACTURER_CODE]);
    capability.Await(reply);
    found := ManufacturerOf(reply);
    if found.Ok? {
      capability.manufacturerCode := Some(CodeOf(found.value));
    }
  }

  /** Setup reads the manufacturer code first if it is not known. */
  function SetupPrelude(reachable: bool, limit: Option<pos>, manufacturer: Option<int>, device: Device): Prelude {
    Identify(reachable && manufacturer.None?, true, limit, manufacturer, device)
  }

  function SetupResult(reachable: bool, p: Prelude, epcs: seq<Epc>, run: (Verdict, State)): Result<seq<Property>, Failure> {
    if !reachable then Err(Unreachable)
    else if p.failure.Some? then Err(p.failure.value)
    else if run.0.Aborted? then Err(Failed(run.0.reason))
    else Ok(Assemble(epcs, run.1.received))
  }

  /** A plain read needs the code only for a class with policies. */
  function GetPrelude(asks: bool, classCode: int, epcs: seq<Epc>, limit: Option<pos>, manufacturer: Option<int>,
                      device: Device): Prelude {
    Identify(asks && manufacturer.None? && HasPolicyForClass(classCode), MANUFACTURER_CODE in epcs, limit, manufacturer, device)
  }

  function GetResult(asks: bool, p: Prelude, epcs: seq<Epc>, run: (Verdict, State)): seq<Property> {
    if !asks || p.failure.Some? then Assemble(epcs, map[]) else Assemble(epcs, run.1.received)
  }

  /** Initial read of a device object, probing its response limit. */
  method SetupGet(capability: GetCapability, reachable: bool, classCode: int, epcs: seq<Epc>, device: Device)
    returns (r: Result<seq<Property>, Failure>)
    modifies capability
    ensures
      var p := SetupPrelude(reachable, old(capability.observedBatchCapacity), old(capability.manufacturerCode), device);
      var run := Batches(p, classCode, epcs, true);
      && r == SetupResult(reachable, p, epcs, run)
      && capability.observedBatchCapacity == (if reachable && p.failure.None? then run.1.limit else p.limit)
      && capability.manufacturerCode == (if reachable && p.failure.None? then run.1.manufacturer else p.manufacturer)
  {
    if !reachable {
      return Err(Unreachable);
    }
    var received: map<Epc, Property>, rest := map[], device;
    if capability.manufacturerCode.None? {
      var found := ReadManufacturerCode(capability, device);
      if found.Err? {
        return Err(found.error);
      }
      received, rest := map[MANUFACTURER_CODE := found.value], AfterOne(device);
    }
    var verdict, values, _ :=
      RunGetBatches(capability, classCode, Unknown(epcs, received), received, true, rest);
    if verdict.Aborted? {
      return Err(Failed(verdict.reason));
    }
    return Ok(Assemble(epcs, values));
  }

  /** Read without probing; whatever could not be read is returned empty. */
  method Get(capability: GetCapability, reachable: bool, classCode: int, epcs: seq<Epc>, device: Device)
    returns (r: seq<Property>)
    modifies capability
    ensures
      var asks := reachable && epcs != [];
      var p := GetPrelude(asks, classCode, epcs, old(capability.observedBatchCapacity), old(capability.manufacturerCode),
                          device);
      var run := Batches(p, classCode, epcs, false);
      && r == GetResult(asks, p, epcs, run)
      && capability.observedBatchCapacity == (if asks && p.failure.None? then run.1.limit else p.limit)
      && capability.manufacturerCode == (if asks && p.failure.None? then run.1.manufacturer else p.manufacturer)
  {
    if !reachable || epcs == [] {
      return Assemble(epcs, map[]);
    }
    var received: map<Epc, Property>, rest := map[], device;
    if capability.manufacturerCode.None? && HasPolicyForClass(classCode) {
      var found := ReadManufacturerCode(capability, device);
      if found.Err? {
        return Assemble(epcs, map[]);
      }
      rest := AfterOne(device);
      if MANUFACTURER_CODE in epcs {
        received := map[MANUFACTURER_CODE := found.value];
      }
    }
    var _, values, _ := RunGetBatches(capability, classCode, Unknown(epcs, received), received, false, rest);
    return Assemble(epcs, values);
  }

  // ---- What the caller gets ----

  /** The entry returned for `e` is what the one reply that retired `e` listed first for it; an EPC
      that was never retired, or was known beforehand, is returned as known (or empty). */
  ghost predicate Sourced(p: Property, e: Epc, known: map<Epc, Property>, log: seq<Exchange>) {
    && p.epc == e
    && (forall k: nat :: RetiredAt(log, k, e) ==> p.edt == Answer(log[k].reply, log[k].batch)[e].edt)
    && (!Retired(log, e) ==> p == if e in known then known[e] else Property(e, []))
  }

  /** The same for probing and plain reads, and however the loop ended: one entry per requested EPC
      in the requested order, each with the right source; on a finished run each has been answered;
      the whole read took at most 1 + ceil(log2 N) + N requests (1 + N without probing). */
  lemma ReadIsFaithful(p: Prelude, classCode: int, epcs: seq<Epc>, probe: bool)
    requires forall e :: e in p.known ==> p.known[e].epc == e
    requires p.requests <= 1
    ensures
      var run := Batches(p, classCode, epcs, probe);
      var result := Assemble(epcs, run.1.received);
      var n := |Dedupe(Unknown(epcs, p.known))|;
      && |result| == |epcs|
      && (forall i :: 0 <= i < |epcs| ==> Sourced(result[i], epcs[i], p.known, run.1.log))
      && (run.0.Finished? ==>
            forall i :: 0 <= i < |epcs| ==> epcs[i] in p.known || Retired(run.1.log, epcs[i]))
      && p.requests + |run.1.log| <= 1 + n + (if probe then CeilLog2(n) else 0)
  {
    var asked := Unknown(epcs, p.known);
    var run := Batches(p, classCode, epcs, probe);
    var result := Assemble(epcs, run.1.received);
    forall i | 0 <= i < |epcs|
      ensures Sourced(result[i], epcs[i], p.known, run.1.log)
      ensures run.0.Finished? ==> epcs[i] in p.known || Retired(run.1.log, epcs[i])
    {
      EntryIsSourced(p, classCode, epcs, probe, epcs[i]);
    }
    RequestBound(asked, p.known, p.limit, p.manufacturer, p.device, probe, classCode);
  }

  lemma EntryIsSourced(p: Prelude, classCode: int, epcs: seq<Epc>, probe: bool, e: Epc)
    requires forall e :: e in p.known ==> p.known[e].epc == e
    requires e in epcs
    ensures
      var run := Batches(p, classCode, epcs, probe);
      var entry := if e in run.1.received then run.1.received[e] else Property(e, []);
      && Sourced(entry, e, p.known, run.1.log)
      && (run.0.Finished? ==> e in p.known || Retired(run.1.log, e))
  {
    var asked := Unknown(epcs, p.known);
    Conservation(asked, p.known, p.limit, p.manufacturer, p.device, probe, classCode, e);
    AccountedIsSourced(Batches(p, classCode, epcs, probe).1, p.known, e, e in asked);
  }

  lemma AccountedIsSourced(s: State, known: map<Epc, Property>, e: Epc, wanted: bool)
    requires Accounted(s, known, e, wanted)
    requires e in known ==> known[e].epc == e && !wanted
    ensures Sourced(if e in s.received then s.received[e] else Property(e, []), e, known, s.log)
  {
    if k: nat :| RetiredAt(s.log, k, e) {
      assert Retired(s.log, e);
      assert Brought(s.log, k, e, s.received, known);
      assert Entry(known, e) == None;
    } else {
      assert Entry(s.received, e) == Entry(known, e);
    }
  }
}
