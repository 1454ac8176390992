/** Which of the values a device returned for an EPC is kept. One would expect the first non-empty one
    it returned in a reply to a request for the EPC; a reply that lists the EPC twice, empty first, breaks
    this, and nothing else does. */
module FirstValues {
  import opened Basics
  import opened GetBatchPolicy
  import opened GetBatches
  import opened GetBatchTheorems

  /** The first non-empty value listed for the EPC. */
  function FirstNonEmpty(properties: seq<Property>, e: Epc): Option<Property> {
    if properties == [] then None
    else if properties[0].epc == e && properties[0].edt != [] then Some(properties[0])
    else FirstNonEmpty(properties[1..], e)
  }

  /** The exchange asked for the EPC and its reply lists a value for it. */
  function Offered(x: Exchange, e: Epc): Option<Property> {
    if e in x.batch && x.reply.outcome.Answered? then FirstNonEmpty(x.reply.outcome.properties, e) else None
  }

  /** The k-th exchange is the first that offers a value for the EPC. */
  ghost predicate FirstOffer(log: seq<Exchange>, k: nat, e: Epc) {
    k < |log| && Offered(log[k], e).Some? && forall j :: 0 <= j < k ==> Offered(log[j], e).None?
  }

  /** The value kept for the EPC is the one the k-th exchange offered. */
  ghost predicate KeptFrom(s: State, k: nat, e: Epc) {
    RetiredAt(s.log, k, e) && e in s.received && Some(s.received[e]) == Offered(s.log[k], e)
  }

  lemma {:induction false} FirstNonEmptySpec(properties: seq<Property>, e: Epc)
    ensures match FirstNonEmpty(properties, e)
      case Some(p) =>
        (exists i :: 0 <= i < |properties| && properties[i] == p && p.epc == e && p.edt != []
          && forall j :: 0 <= j < i ==> properties[j].epc != e || properties[j].edt == [])
      case None => forall i :: 0 <= i < |properties| ==> properties[i].epc != e || properties[i].edt == []
  {
    if properties != [] && !(properties[0].epc == e && properties[0].edt != []) {
      var rest := properties[1..];
      FirstNonEmptySpec(rest, e);
      assert forall j :: 0 < j < |properties| ==> properties[j] == rest[j - 1];
      if FirstNonEmpty(rest, e).Some? {
        var p := FirstNonEmpty(rest, e).value;
        var i :| 0 <= i < |rest| && rest[i] == p && p.epc == e && p.edt != []
              && forall j :: 0 <= j < i ==> rest[j].epc != e || rest[j].edt == [];
        assert properties[i + 1] == p;
        forall j | 0 <= j < i + 1 ensures properties[j].epc != e || properties[j].edt == [] {
          if j > 0 {
            assert properties[j] == rest[j - 1];
          }
        }
      }
    }
  }

  /** An offer is matched, and if what is listed first is not empty, it is the offer. */
  lemma OfferIsMatched(x: Exchange, e: Epc)
    requires Offered(x, e).Some?
    ensures e in Answer(x.reply, x.batch)
    ensures Answer(x.reply, x.batch)[e].edt != [] <==> Offered(x, e) == Some(Answer(x.reply, x.batch)[e])
  {
    var properties := x.reply.outcome.properties;
    FirstNonEmptySpec(properties, e);
    MatchedIsFirstListed(properties, x.batch, e);
    var p := Offered(x, e).value;
    var i :| 0 <= i < |properties| && properties[i] == p && p.epc == e && p.edt != []
          && forall j :: 0 <= j < i ==> properties[j].epc != e || properties[j].edt == [];
    var k :| 0 <= k < |properties| && properties[k].epc == e && Answer(x.reply, x.batch)[e] == properties[k]
          && forall j :: 0 <= j < k ==> properties[j].epc != e;
    assert k <= i;
    if properties[k].edt != [] {
      assert k == i;
    }
  }

  /** What a reply without an offer lists for the EPC is empty. */
  lemma NoOfferIsEmpty(x: Exchange, e: Epc)
    requires Offered(x, e).None? && e in Answer(x.reply, x.batch)
    ensures Answer(x.reply, x.batch)[e].edt == []
  {
    FirstNonEmptySpec(x.reply.outcome.properties, e);
    MatchedIsFirstListed(x.reply.outcome.properties, x.batch, e);
  }

  /** The log records the effects that the replies had. */
  ghost predicate EffectsRecorded(log: seq<Exchange>, probe: bool) {
    forall k :: 0 <= k < |log| ==> log[k].effect == EffectOf(log[k].batch, log[k].limit, log[k].reply, probe)
  }

  lemma {:induction false} ExecRecords(s: State, device: Device, probe: bool, classCode: int)
    requires EffectsRecorded(s.log, probe)
    ensures EffectsRecorded(Exec(s, device, probe, classCode).1.log, probe)
    decreases |s.queue|, Probing(s)
  {
    if s.queue != [] {
      var reply := device(|s.log|, Plan(s, classCode).0);
      var t := Step(s, reply, probe, classCode);
      SplitTakesOneOf(s, classCode);
      AdvanceRecords(s, Plan(s, classCode).0, Plan(s, classCode).1, reply, probe);
      StepProgresses(s, reply, probe, classCode);
      if !LastEffect(t).Aborting? {
        ExecRecords(t, device, probe, classCode);
      }
    }
  }

  lemma AdvanceRecords(s: State, batch: seq<Epc>, rest: seq<Epc>, reply: Reply, probe: bool)
    requires batch != [] && EffectsRecorded(s.log, probe)
    ensures EffectsRecorded(Advance(s, batch, rest, reply, probe).log, probe)
  {
    var t := Advance(s, batch, rest, reply, probe);
    assert t.log == s.log + [Exchange(batch, s.limit, s.probeSize, s.manufacturer, reply,
                                      EffectOf(batch, s.limit, reply, probe))];
  }

  /** An exchange whose first listing of the EPC is not empty takes it off the queue. */
  lemma NonEmptyRetires(x: Exchange, e: Epc, probe: bool)
    requires x.effect == EffectOf(x.batch, x.limit, x.reply, probe)
    requires x.reply.outcome.Answered? && e in Answer(x.reply, x.batch) && Answer(x.reply, x.batch)[e].edt != []
    ensures Retires(x, e)
  {
    assert !AllEmpty(Answer(x.reply, x.batch));
    assert Answer(x.reply, x.batch).Keys != {};
  }

  /** For every device and every run, and for an EPC that was not known beforehand: if the k-th exchange
      is the first that offers a value for it, that value is the one kept exactly when the reply lists no
      empty value for the EPC before it. If no exchange offers a value, none is kept. */
  lemma FirstOfferIsKept(epcs: seq<Epc>, known: map<Epc, Property>, limit: Option<pos>, manufacturer: Option<int>,
                         device: Device, probe: bool, classCode: int, e: Epc)
    requires e !in known
    ensures var s := Exec(Start(epcs, known, limit, manufacturer), device, probe, classCode).1;
      && (forall k: nat :: FirstOffer(s.log, k, e) ==>
            e in Answer(s.log[k].reply, s.log[k].batch)
            && (KeptFrom(s, k, e) <==> Answer(s.log[k].reply, s.log[k].batch)[e].edt != []))
      && ((forall k :: 0 <= k < |s.log| ==> Offered(s.log[k], e).None?) ==> e !in s.received)
  {
    var s := Exec(Start(epcs, known, limit, manufacturer), device, probe, classCode).1;
    Conservation(epcs, known, limit, manufacturer, device, probe, classCode, e);
    ExecRecords(Start(epcs, known, limit, manufacturer), device, probe, classCode);
    forall k: nat | FirstOffer(s.log, k, e)
      ensures e in Answer(s.log[k].reply, s.log[k].batch)
      ensures KeptFrom(s, k, e) <==> Answer(s.log[k].reply, s.log[k].batch)[e].edt != []
    {
      OfferIsKept(s, known, e, e in epcs, probe, k);
    }
    if forall k :: 0 <= k < |s.log| ==> Offered(s.log[k], e).None? {
      NothingIsKept(s, known, e, e in epcs);
    }
  }

  lemma OfferIsKept(s: State, known: map<Epc, Property>, e: Epc, wanted: bool, probe: bool, k: nat)
    requires Accounted(s, known, e, wanted) && EffectsRecorded(s.log, probe) && e !in known
    requires k < |s.log| && Offered(s.log[k], e).Some?
    ensures e in Answer(s.log[k].reply, s.log[k].batch)
    ensures KeptFrom(s, k, e) <==> Answer(s.log[k].reply, s.log[k].batch)[e].edt != []
  {
    var x := s.log[k];
    OfferIsMatched(x, e);
    if Answer(x.reply, x.batch)[e].edt != [] {
      NonEmptyRetires(x, e, probe);
    }
    if RetiredAt(s.log, k, e) {
      assert Brought(s.log, k, e, s.received, known);
    }
  }

  lemma NothingIsKept(s: State, known: map<Epc, Property>, e: Epc, wanted: bool)
    requires Accounted(s, known, e, wanted) && e !in known
    requires forall k :: 0 <= k < |s.log| ==> Offered(s.log[k], e).None?
    ensures e !in s.received
  {
    if Retired(s.log, e) {
      var k: nat :| RetiredAt(s.log, k, e);
      assert Brought(s.log, k, e, s.received, known);
      NoOfferIsEmpty(s.log[k], e);
    } else {
      assert Entry(s.received, e) == Entry(known, e);
    }
  }

  // ---- The two ways in which an offer is not kept ----

  const EMPTY_FIRST: seq<Property> := [Property(0x80, []), Property(0x80, [1])]

  function RepliesEmptyFirst(): Device {
    (k: nat, batch: seq<Epc>) => Reply(Answered(EMPTY_FIRST), None, None)
  }

  lemma EmptyFirstIsComplete(x: Exchange)
    requires x.batch == [0x80] && x.reply == Reply(Answered(EMPTY_FIRST), None, None)
    ensures var matched := Answer(x.reply, x.batch); |matched| == 1 && WithValues(matched) == map[]
    ensures Offered(x, 0x80) == Some(Property(0x80, [1]))
  {
    var listed := EMPTY_FIRST;
    assert listed[..1] == [listed[0]] && listed[..1][..0] == [];
    assert Matched(listed[..1], x.batch) == map[0x80 := Property(0x80, [])];
    assert Answer(x.reply, x.batch) == map[0x80 := Property(0x80, [])];
    assert Answer(x.reply, x.batch).Keys == {0x80};
    assert listed[1..][0] == listed[1];
  }

  lemma OnePlanned(classCode: int)
    ensures var s := Start([0x80], map[], None, None); s.queue == [0x80] && Plan(s, classCode) == (s.queue, [])
  {
    assert [0x80][..0] == [];
    SplitWithoutPolicy([0x80], None);
  }

  lemma ExecEnds(s: State, device: Device, probe: bool, classCode: int)
    requires s.queue != []
    requires var t := Step(s, device(|s.log|, Plan(s, classCode).0), probe, classCode);
      t.queue == [] && !LastEffect(t).Aborting?
    ensures Exec(s, device, probe, classCode)
      == (Finished, Step(s, device(|s.log|, Plan(s, classCode).0), probe, classCode))
  {
  }

  /** The value is lost: a reply lists 0x80 empty and then with a value; the EPC counts as answered. */
  lemma OfferIsLost(probe: bool, classCode: int)
    ensures var run := Exec(Start([0x80], map[], None, None), RepliesEmptyFirst(), probe, classCode);
      run.0.Finished? && FirstOffer(run.1.log, 0, 0x80) && run.1.received == map[]
  {
    var s := Start([0x80], map[], None, None);
    OnePlanned(classCode);
    var t := Step(s, RepliesEmptyFirst()(0, [0x80]), probe, classCode);
    EmptyFirstIsComplete(t.log[0]);
    ExecEnds(s, RepliesEmptyFirst(), probe, classCode);
  }

  const LISTED_TWICE: seq<Property> := [Property(0x80, []), Property(0x80, [1]), Property(0x81, [])]

  lemma ListedTwiceIsEmpty(x: Exchange)
    requires x.batch == [0x80, 0x81] && x.reply == Reply(Answered(LISTED_TWICE), None, None)
    ensures var matched := Answer(x.reply, x.batch); |matched| == 2 && AllEmpty(matched)
    ensures Offered(x, 0x80) == Some(Property(0x80, [1]))
  {
    var listed := LISTED_TWICE;
    assert listed[..2][..1] == [listed[0]] && listed[..1][..0] == [] && listed[..1] == [listed[0]];
    assert Matched(listed[..1], x.batch) == map[0x80 := Property(0x80, [])];
    assert Matched(listed[..2], x.batch) == map[0x80 := Property(0x80, [])];
    assert Answer(x.reply, x.batch) == map[0x80 := Property(0x80, []), 0x81 := Property(0x81, [])];
    assert Answer(x.reply, x.batch).Keys == {0x80, 0x81};
    assert |{0x80, 0x81}| == 2;
    assert listed[1..][0] == listed[1];
  }

  lemma BothPlanned(classCode: int)
    ensures var s := Start([0x80, 0x81], map[], None, None); s.queue == [0x80, 0x81] && Plan(s, classCode) == (s.queue, [])
  {
    var batch := [0x80, 0x81];
    assert batch[..1] == [0x80] && batch[..1][..0] == [];
    assert Dedupe(batch[..1]) == [0x80];
    SplitWithoutPolicy(batch, None);
  }

  /** The value is set aside: with the limit unknown and every first listing empty, the batch is halved
      and asked for again although the reply holds a value. */
  lemma OfferIsSetAside(classCode: int)
    ensures var t := Step(Start([0x80, 0x81], map[], None, None), Reply(Answered(LISTED_TWICE), None, None), true, classCode);
      && LastEffect(t).Halved? && FirstOffer(t.log, 0, 0x80)
      && t.queue == [0x80, 0x81] && t.probeSize == Some(1) && t.received == map[]
  {
    BothPlanned(classCode);
    var t := Step(Start([0x80, 0x81], map[], None, None), Reply(Answered(LISTED_TWICE), None, None), true, classCode);
    ListedTwiceIsEmpty(t.log[0]);
  }
}
