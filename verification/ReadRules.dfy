/** What a setup or a plain read does before the batching loop, and what it returns for each EPC. */
module ReadRules {
  import opened Basics
  import opened FrameLayout
  import opened GetBatchPolicy
  import opened PolicyRules
  import opened GetBatches
  import opened GetBatchTheorems
  import opened ExchangeRules
  import opened DeviceReads

  /** A manufacturer code property that is long enough to hold the code. */
  predicate IsCode(p: Property) {
    p.epc == 0x8A && |p.edt| >= 3
  }

  /** The first such property listed. */
  ghost predicate FirstCode(properties: seq<Property>, p: Property) {
    exists i :: 0 <= i < |properties| && properties[i] == p && IsCode(p) && forall j :: 0 <= j < i ==> !IsCode(properties[j])
  }

  predicate NoCode(properties: seq<Property>) {
    forall i :: 0 <= i < |properties| ==> !IsCode(properties[i])
  }

  lemma {:induction false} ManufacturerIsFirst(properties: seq<Property>)
    ensures match ManufacturerIn(properties)
      case Some(p) => FirstCode(properties, p)
      case None => NoCode(properties)
  {
    if properties != [] && !IsCode(properties[0]) {
      var rest := properties[1..];
      ManufacturerIsFirst(rest);
      assert forall j :: 0 < j < |properties| ==> properties[j] == rest[j - 1];
      if ManufacturerIn(rest).Some? {
        var p := ManufacturerIn(rest).value;
        var i :| 0 <= i < |rest| && rest[i] == p && IsCode(p) && forall j :: 0 <= j < i ==> !IsCode(rest[j]);
        assert properties[i + 1] == p;
      }
    }
  }

  /** The code is the number that its first three bytes spell. */
  lemma CodeIsBigEndian(p: Property)
    requires |p.edt| >= 3
    ensures CodeOf(p) == BigEndian(p.edt[..3])
  {
    BigEndianOfThree(p.edt[..3]);
  }

  /** Reading the manufacturer code takes one request for 0x8A alone. A stop of the client ends the read with that
      error; otherwise the first property listed that can hold a code gives it, and without one the read fails. The
      rest of the device's behaviour follows. */
  lemma IdentificationRule(keep: bool, limit: Option<pos>, manufacturer: Option<int>, device: Device)
    ensures var p := Identify(true, keep, limit, manufacturer, device); var reply := device(0, [0x8A]);
      && p.requests == 1 && (forall k: nat, batch: seq<Epc> :: p.device(k, batch) == device(k + 1, batch))
      && (forall v :: AtMost(p.limit, v) <==> AtMost(limit, v) || AtMost(reply.otherLimit, v))
      && (reply.outcome.Stopped? ==> p.failure == Some(Failed(ClientStopped)))
      && (reply.outcome.NotSent? || reply.outcome.Silent? ==> p.failure == Some(NoManufacturer))
      && (reply.outcome.Answered? && NoCode(reply.outcome.properties) ==> p.failure == Some(NoManufacturer))
      && (p.failure.Some? ==> p.known == map[])
      && (p.failure.Some? ==>
            p.manufacturer == if reply.otherManufacturer.Some? then reply.otherManufacturer else manufacturer)
    ensures var reply := device(0, [0x8A]);
      forall q :: reply.outcome.Answered? && FirstCode(reply.outcome.properties, q) ==>
        var p := Identify(true, keep, limit, manufacturer, device);
        && p.failure.None? && p.manufacturer == Some(BigEndian(q.edt[..3]))
        && p.known == if keep then map[0x8A := q] else map[]
  {
    var reply := device(0, [0x8A]);
    LoweredIsLeast(limit, reply);
    if reply.outcome.Answered? {
      var properties := reply.outcome.properties;
      ManufacturerIsFirst(properties);
      forall q | FirstCode(properties, q) ensures ManufacturerIn(properties) == Some(q) && CodeOf(q) == BigEndian(q.edt[..3]) {
        OneFirstCode(properties, q);
        CodeIsBigEndian(q);
      }
    }
  }

  lemma OneFirstCode(properties: seq<Property>, q: Property)
    requires FirstCode(properties, q)
    ensures ManufacturerIn(properties) == Some(q)
  {
    ManufacturerIsFirst(properties);
    var i :| 0 <= i < |properties| && properties[i] == q && IsCode(q) && forall j :: 0 <= j < i ==> !IsCode(properties[j]);
    assert ManufacturerIn(properties).Some?;
    var p := ManufacturerIn(properties).value;
    var k :| 0 <= k < |properties| && properties[k] == p && IsCode(p) && forall j :: 0 <= j < k ==> !IsCode(properties[j]);
    assert i == k;
  }

  /** Setup reads the code exactly if the node is reachable and its code not known, and keeps the property. */
  lemma SetupIdentifies(reachable: bool, limit: Option<pos>, manufacturer: Option<int>, device: Device)
    ensures SetupPrelude(reachable, limit, manufacturer, device) ==
      if reachable && manufacturer.None? then Identify(true, true, limit, manufacturer, device)
      else Prelude(None, map[], limit, manufacturer, device, 0)
  {
  }

  /** A plain read does so only if, besides, some manufacturer has a policy for the class; it keeps the property exactly
      if 0x8A is asked for. */
  lemma GetIdentifies(asks: bool, classCode: int, epcs: seq<Epc>, limit: Option<pos>, manufacturer: Option<int>, device: Device)
    ensures GetPrelude(asks, classCode, epcs, limit, manufacturer, device) ==
      if asks && manufacturer.None? && exists m: int :: PolicyFor(Some(m), classCode).Some?
      then Identify(true, 0x8A in epcs, limit, manufacturer, device)
      else Prelude(None, map[], limit, manufacturer, device, 0)
  {
    ClassHasPolicy(classCode);
  }

  /** The loop is given the EPCs not yet known, in their order. */
  lemma UnknownKeepsOrder(epcs: seq<Epc>, known: map<Epc, Property>, marks: seq<bool>)
    requires |marks| == |epcs| && forall i :: 0 <= i < |epcs| ==> (marks[i] <==> epcs[i] !in known)
    ensures Unknown(epcs, known) == Pick(epcs, marks, true)
  {
    OmittedIsPicked(epcs, known, marks);
  }

  /** An EPC known beforehand is not asked for, and is returned as known. */
  lemma KnownIsReturned(p: Prelude, classCode: int, epcs: seq<Epc>, probe: bool, i: nat)
    requires i < |epcs| && epcs[i] in p.known && forall e :: e in p.known ==> p.known[e].epc == e
    ensures var run := Batches(p, classCode, epcs, probe);
      && (forall k :: 0 <= k < |run.1.log| ==> epcs[i] !in run.1.log[k].batch)
      && Assemble(epcs, run.1.received)[i] == p.known[epcs[i]]
  {
    var asked := Unknown(epcs, p.known);
    var run := Batches(p, classCode, epcs, probe);
    LimitDiscipline(asked, p.known, p.limit, p.manufacturer, p.device, probe, classCode);
    Conservation(asked, p.known, p.limit, p.manufacturer, p.device, probe, classCode, epcs[i]);
    KnownStays(run.1, p.known, epcs[i]);
    forall k | 0 <= k < |run.1.log| ensures epcs[i] !in run.1.log[k].batch {
      assert GetBatchTheorems.Legal(run.1.log[k], classCode, asked);
    }
  }

  lemma KnownStays(s: State, known: map<Epc, Property>, e: Epc)
    requires Accounted(s, known, e, false) && e in known
    ensures e in s.received && s.received[e] == known[e]
  {
    assert Entry(s.received, e) == Entry(known, e);
  }

  /** What the caller of setup gets: one of four errors, each for its own reason, or the values read. */
  lemma SetupResultRule(reachable: bool, limit: Option<pos>, manufacturer: Option<int>, device: Device, classCode: int,
                        epcs: seq<Epc>)
    ensures var p := SetupPrelude(reachable, limit, manufacturer, device);
      var run := Batches(p, classCode, epcs, true); var r := SetupResult(reachable, p, epcs, run);
      && (r == Err(Unreachable) <==> !reachable)
      && (r == Err(NoManufacturer) <==> reachable && p.failure == Some(NoManufacturer))
      && (reachable && p.failure.None? && run.0.Finished? ==>
            r.Ok? && |r.value| == |epcs| && forall i :: 0 <= i < |epcs| ==> IsEntry(r.value[i], epcs[i], run.1.received))
      && (forall reason :: r == Err(Failed(reason)) <==>
            reachable && (p.failure == Some(Failed(reason)) || (p.failure.None? && run.0 == Aborted(reason))))
  {
  }

  /** A plain read never fails: what has not been read is empty. */
  lemma GetResultRule(asks: bool, classCode: int, epcs: seq<Epc>, limit: Option<pos>, manufacturer: Option<int>, device: Device)
    ensures var p := GetPrelude(asks, classCode, epcs, limit, manufacturer, device);
      var run := Batches(p, classCode, epcs, false); var r := GetResult(asks, p, epcs, run);
      |r| == |epcs| && forall i :: 0 <= i < |epcs| ==>
        IsEntry(r[i], epcs[i], if asks && p.failure.None? then run.1.received else map[])
  {
  }

  predicate IsEntry(p: Property, e: Epc, received: map<Epc, Property>) {
    if e in received then p == received[e] else p.epc == e && p.edt == []
  }
}
