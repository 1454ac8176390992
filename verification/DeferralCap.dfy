/** What the cap on deferred frames costs: for each EPC, exactly when dropping the frames past the first 64
    leaves another value than applying all of them would. */
module DeferralCap {
  import opened Basics
  import opened FrameCodec
  import opened DeviceManager
  import opened DeviceRuns

  /** The last value that a list of properties holds for an EPC. */
  function LastIn(props: seq<Property>, e: Epc): Option<seq<byte>> {
    if props == [] then None
    else if props[|props| - 1].epc == e then Some(props[|props| - 1].edt)
    else LastIn(props[..|props| - 1], e)
  }

  /** The last value that the value frames among these list for an EPC. */
  function LastListed(frames: seq<Arrival>, e: Epc): Option<seq<byte>> {
    if frames == [] then None
    else
      var last := frames[|frames| - 1];
      var listed := if CarriesValues(last.esv) then LastIn(last.props, e) else None;
      if listed.Some? then listed else LastListed(frames[..|frames| - 1], e)
  }

  function ValueAt(cache: Cache, e: Epc): Option<seq<byte>> {
    if e in cache then Some(cache[e]) else None
  }

  function Or(a: Option<seq<byte>>, b: Option<seq<byte>>): Option<seq<byte>> {
    if a.Some? then a else b
  }

  lemma {:induction false} PutListsLast(cache: Cache, props: seq<Property>, e: Epc)
    ensures ValueAt(Put(cache, props), e) == Or(LastIn(props, e), ValueAt(cache, e))
  {
    if props != [] {
      PutListsLast(cache, props[..|props| - 1], e);
    }
  }

  /** Applying frames leaves the last value listed, or what was there. */
  lemma {:induction false} ApplyListsLast(cache: Cache, frames: seq<Arrival>, e: Epc)
    ensures ValueAt(ApplyAll(cache, frames), e) == Or(LastListed(frames, e), ValueAt(cache, e))
  {
    if frames != [] {
      var last := |frames| - 1;
      ApplyListsLast(cache, frames[..last], e);
      if CarriesValues(frames[last].esv) {
        PutListsLast(ApplyAll(cache, frames[..last]), frames[last].props, e);
      }
    }
  }

  lemma {:induction false} LastListedJoins(a: seq<Arrival>, b: seq<Arrival>, e: Epc)
    ensures LastListed(a + b, e) == Or(LastListed(b, e), LastListed(a, e))
  {
    if b == [] {
      assert a + b == a;
    } else {
      var last := |b| - 1;
      LastListedJoins(a, b[..last], e);
      assert (a + b)[..|a + b| - 1] == a + b[..last];
    }
  }

  /** The frames for which there was no room. */
  function Dropped(frames: seq<Arrival>): seq<Arrival> {
    frames[Min(|frames|, MAX_DEFERRED_FRAMES)..]
  }

  /** For an EPC the frames kept give the value that all frames would give exactly when no dropped value
      frame lists it, or the last value dropped is what the frames kept, or else the snapshot, hold. */
  lemma CapKeepsValue(snapshot: Cache, frames: seq<Arrival>, e: Epc)
    ensures (ValueAt(ApplyAll(snapshot, FirstFrames(frames)), e) == ValueAt(ApplyAll(snapshot, frames), e))
      <==> (LastListed(Dropped(frames), e).None?
            || LastListed(Dropped(frames), e) == Or(LastListed(FirstFrames(frames), e), ValueAt(snapshot, e)))
  {
    assert frames == FirstFrames(frames) + Dropped(frames);
    LastListedJoins(FirstFrames(frames), Dropped(frames), e);
    ApplyListsLast(snapshot, frames, e);
    ApplyListsLast(snapshot, FirstFrames(frames), e);
  }

  /** In every run: right after an object is registered, its value for an EPC is that of the snapshot with
      every frame of the setup applied exactly under that condition. */
  lemma RegisteredAsIfUncapped(states: seq<Manager>, actions: seq<Action>, registry: Registry, i: nat, j: nat,
                               w: WorkerId, key: DeviceKey, snapshot: Cache, e: Epc)
    requires IsRun(states, actions, registry) && i < j < |actions|
    requires key.node !in states[i].registered && key !in states[i].data
    requires forall x :: i < x <= j ==> key.node in states[x].registered
    requires actions[j] == ReadDone(w, key, snapshot)
    ensures key in states[j + 1].data
    ensures var frames := FramesFor(key, actions[i + 1..j]);
      (ValueAt(states[j + 1].data[key].cache, e) == ValueAt(ApplyAll(snapshot, frames), e))
        <==> (LastListed(Dropped(frames), e).None?
              || LastListed(Dropped(frames), e) == Or(LastListed(FirstFrames(frames), e), ValueAt(snapshot, e)))
  {
    DeferralIsInvisible(states, actions, registry, i, j, j + 1, w, key, snapshot);
    var frames := FramesFor(key, actions[i + 1..j]);
    EffectsNone(ApplyAll(snapshot, FirstFrames(frames)), key, actions, j + 1);
    CapKeepsValue(snapshot, frames, e);
  }

  // ---- An input on which an older value replaces the one that setup read ----

  const EMPTIED: Arrival := Arrival(0x52, [Property(0x80, [])])
  const RESTORED: Arrival := Arrival(0x72, [Property(0x80, [1])])

  const BLANK: Arrival := Arrival(0x72, [])

  function Blanks(n: nat): (r: seq<Arrival>)
    ensures |r| == n
  {
    if n == 0 then [] else Blanks(n - 1) + [BLANK]
  }

  /** A frame that empties 0x80, 63 frames without properties, and a frame that restores it. */
  function SixtyFive(): (r: seq<Arrival>)
    ensures |r| == 65
  {
    [EMPTIED] + Blanks(63) + [RESTORED]
  }

  lemma {:induction false} BlanksListNothing(n: nat, e: Epc)
    ensures LastListed(Blanks(n), e) == None
  {
    if n > 0 {
      BlanksListNothing(n - 1, e);
      assert Blanks(n)[..n - 1] == Blanks(n - 1) && Blanks(n)[n - 1] == BLANK;
    }
  }

  /** Setup read [1], the last frame reports [1], and yet the object starts out with an empty value. */
  lemma StaleValueReplacesRead(snapshot: Cache)
    requires ValueAt(snapshot, 0x80) == Some([1])
    ensures ValueAt(ApplyAll(snapshot, FirstFrames(SixtyFive())), 0x80) == Some([])
    ensures ValueAt(ApplyAll(snapshot, SixtyFive()), 0x80) == Some([1])
  {
    var frames, blanks := SixtyFive(), Blanks(63);
    assert FirstFrames(frames) == [EMPTIED] + blanks;
    OneFrame(EMPTIED, []);
    OneFrame(RESTORED, [1]);
    BlanksListNothing(63, 0x80);
    LastListedJoins([EMPTIED], blanks, 0x80);
    LastListedJoins([EMPTIED] + blanks, [RESTORED], 0x80);
    ApplyListsLast(snapshot, FirstFrames(frames), 0x80);
    ApplyListsLast(snapshot, frames, 0x80);
  }

  lemma OneFrame(frame: Arrival, edt: seq<byte>)
    requires CarriesValues(frame.esv) && frame.props == [Property(0x80, edt)]
    ensures LastListed([frame], 0x80) == Some(edt)
  {
    assert [frame][..0] == [] && frame.props[..0] == [];
  }
}
