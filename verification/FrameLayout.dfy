/** The bytes of a frame, position by position, and which datagrams are refused and why (section 3.2 of the ECHONET
    Lite Specification, Part II). */
module FrameLayout {
  import opened Basics
  import opened FrameCodec

  /** The number that the bytes spell, the most significant first. */
  function BigEndian(bytes: Bytes): nat {
    if bytes == [] then 0 else 256 * BigEndian(bytes[..|bytes| - 1]) + bytes[|bytes| - 1]
  }

  lemma BigEndianOfTwo(bytes: Bytes)
    requires |bytes| == 2
    ensures BigEndian(bytes) == bytes[0] as int * 256 + bytes[1] as int
  {
    assert bytes[..1][..0] == [];
    assert bytes[..1][0] == bytes[0];
    assert BigEndian(bytes[..1]) == bytes[0];
  }

  lemma BigEndianOfThree(bytes: Bytes)
    requires |bytes| == 3
    ensures BigEndian(bytes) == bytes[0] as int * 0x10000 + bytes[1] as int * 256 + bytes[2] as int
  {
    BigEndianOfTwo(bytes[..2]);
  }

  lemma NumbersAreBigEndian(tid: nat, eoj: Eoj)
    requires tid < 0x10000
    ensures BigEndian(TwoBytes(tid)) == tid && BigEndian(ThreeBytes(eoj)) == eoj
  {
    BigEndianOfTwo(TwoBytes(tid));
    BigEndianOfThree(ThreeBytes(eoj));
    Recombined(eoj);
  }

  // ---- Encoding ----

  /** The position of the k-th property, the header being 12 bytes. */
  function PropertyAt(ps: seq<Property>, k: nat): nat
    requires k <= |ps|
  {
    if k == 0 then 12 else PropertyAt(ps, k - 1) + 2 + |ps[k - 1].edt|
  }

  /** The datagram of a frame: EHD1, EHD2, TID, SEOJ, DEOJ, ESV, OPC, then EPC, PDC and EDT of each property. */
  ghost predicate LaidOut(d: Bytes, f: Frame) {
    && |d| == PropertyAt(f.properties, |f.properties|) && |d| >= 12
    && d[0] == 0x10 && d[1] == 0x81
    && BigEndian(d[2..4]) == f.tid
    && BigEndian(d[4..7]) == f.seoj
    && BigEndian(d[7..10]) == f.deoj
    && d[10] == f.esv
    && d[11] as int == |f.properties|
    && forall k: nat :: k < |f.properties| ==> PropertyLaidOut(d, f.properties, k)
  }

  ghost predicate PropertyLaidOut(d: Bytes, ps: seq<Property>, k: nat)
    requires k < |ps|
  {
    var at := PropertyAt(ps, k);
    && at + 2 + |ps[k].edt| <= |d|
    && d[at] as int == ps[k].epc && d[at + 1] as int == |ps[k].edt| && d[at + 2..at + 2 + |ps[k].edt|] == ps[k].edt
  }

  lemma {:induction false} PropertiesLaidOut(head: Bytes, ps: seq<Property>)
    requires |head| == 12 && forall i :: 0 <= i < |ps| ==> FitsProperty(ps[i])
    ensures var d := head + EncodeProperties(ps);
      |d| == PropertyAt(ps, |ps|) && forall k: nat :: k < |ps| ==> PropertyLaidOut(d, ps, k)
  {
    if ps != [] {
      var last := |ps| - 1;
      var front, p := ps[..last], ps[last];
      PropertiesLaidOut(head, front);
      EncodeAppend(front, p);
      assert ps == front + [p];
      var d, before := head + EncodeProperties(ps), head + EncodeProperties(front);
      assert d == before + EncodeProperty(p);
      PropertyAtOfFront(ps, last);
      forall k: nat | k < |ps| ensures PropertyLaidOut(d, ps, k) {
        if k < last {
          PropertyStays(before, EncodeProperty(p), ps, k);
        } else {
          OneLaidOut(before, p);
        }
      }
    }
  }

  lemma {:induction false} PropertyAtOfFront(ps: seq<Property>, last: nat)
    requires last < |ps|
    ensures forall k: nat :: k <= last ==> PropertyAt(ps[..last], k) == PropertyAt(ps, k)
  {
    forall k: nat | k <= last ensures PropertyAt(ps[..last], k) == PropertyAt(ps, k) {
      SamePosition(ps, last, k);
    }
  }

  lemma {:induction false} SamePosition(ps: seq<Property>, last: nat, k: nat)
    requires k <= last < |ps|
    ensures PropertyAt(ps[..last], k) == PropertyAt(ps, k)
  {
    if k > 0 {
      SamePosition(ps, last, k - 1);
    }
  }

  lemma PropertyStays(before: Bytes, more: Bytes, ps: seq<Property>, k: nat)
    requires k < |ps| - 1 && PropertyLaidOut(before, ps[..|ps| - 1], k)
    ensures PropertyLaidOut(before + more, ps, k)
  {
    SamePosition(ps, |ps| - 1, k);
    var at, size := PropertyAt(ps, k), |ps[k].edt|;
    assert (before + more)[at + 2..at + 2 + size] == before[at + 2..at + 2 + size];
  }

  lemma OneLaidOut(before: Bytes, p: Property)
    requires FitsProperty(p)
    ensures var d := before + EncodeProperty(p); var at := |before|;
      && |d| == at + 2 + |p.edt|
      && d[at] as int == p.epc && d[at + 1] as int == |p.edt| && d[at + 2..at + 2 + |p.edt|] == p.edt
  {
  }

  /** A frame can be written exactly if the TID takes 16 bits, it has at most 255 properties, and each has an 8-bit
      EPC and at most 255 bytes; it is written as the format lays it out. */
  lemma EncodingRule(f: Frame)
    ensures EncodeFrame(f).Ok? <==>
      0 <= f.tid <= 65535 && |f.properties| <= 255
      && forall i :: 0 <= i < |f.properties| ==> 0 <= f.properties[i].epc <= 255 && |f.properties[i].edt| <= 255
    ensures EncodeFrame(f).Ok? ==> LaidOut(EncodeFrame(f).value, f)
  {
    if Encodable(f) {
      var h := Header(f);
      PropertiesLaidOut(h, f.properties);
      var d := h + EncodeProperties(f.properties);
      assert d[2..4] == TwoBytes(f.tid) && d[4..7] == ThreeBytes(f.seoj) && d[7..10] == ThreeBytes(f.deoj);
      NumbersAreBigEndian(f.tid, f.seoj);
      NumbersAreBigEndian(f.tid, f.deoj);
    }
  }

  // ---- Decoding ----

  /** Complete properties, one after another from position 12; `at` are the positions where they start and the last
      one ends. */
  ghost predicate Chain(d: Bytes, at: seq<nat>) {
    && at != [] && at[0] == 12
    && forall i :: 0 <= i < |at| - 1 ==> at[i] + 2 <= |d| && at[i + 1] == at[i] + 2 + d[at[i] + 1] as int <= |d|
  }

  /** What reading `count` properties comes to, after those of the chain. */
  ghost predicate ComesTo(r: Result<seq<Property>, DecodeError>, d: Bytes, end: nat, read: nat, count: nat) {
    && read <= count
    && (r.Ok? <==> read == count)
    && (r == Err(IncompletePropertyHeader) <==> read < count && end + 2 > |d|)
    && (r == Err(IncompletePropertyData) <==> read < count && end + 2 <= |d| && |d| < end + 2 + d[end + 1] as int)
    && (r.Err? ==> r.error == IncompletePropertyHeader || r.error == IncompletePropertyData)
  }

  lemma ChainGrows(d: Bytes, at: seq<nat>)
    requires Chain(d, at) && at[|at| - 1] + 2 <= |d|
    requires at[|at| - 1] + 2 + d[at[|at| - 1] + 1] as int <= |d|
    ensures Chain(d, at + [at[|at| - 1] + 2 + d[at[|at| - 1] + 1] as int])
  {
  }

  lemma {:induction false} ReadingFollowsChain(d: Bytes, at: seq<nat>, count: nat) returns (all: seq<nat>)
    requires |d| >= 12 && Chain(d, at)
    ensures Chain(d, all) && |all| >= |at|
    ensures ComesTo(DecodeProperties(d, at[|at| - 1], count), d, all[|all| - 1], |all| - |at|, count)
    decreases count
  {
    var offset := at[|at| - 1];
    all := at;
    if count > 0 && offset + 2 <= |d| && offset + 2 + d[offset + 1] as int <= |d| {
      ChainGrows(d, at);
      all := ReadingFollowsChain(d, at + [offset + 2 + d[offset + 1] as int], count - 1);
    }
  }

  lemma {:induction false} ReadAlongChain(d: Bytes, at: seq<nat>, start: nat, count: nat)
    requires |d| >= 12 && Chain(d, at) && start + count < |at|
    ensures var r := DecodeProperties(d, at[start], count);
      r.Ok? && |r.value| == count && forall i :: 0 <= i < count ==> IsProperty(r.value[i], d, at[start + i], at[start + i + 1])
    decreases count
  {
    if count > 0 {
      ReadAlongChain(d, at, start + 1, count - 1);
      var rest := DecodeProperties(d, at[start + 1], count - 1).value;
      var p := Property(d[at[start]], d[at[start] + 2..at[start + 1]]);
      assert DecodeProperties(d, at[start], count).value == [p] + rest;
      forall i | 0 <= i < count ensures IsProperty(([p] + rest)[i], d, at[start + i], at[start + i + 1]) {
        if i > 0 {
          assert IsProperty(rest[i - 1], d, at[start + 1 + (i - 1)], at[start + 1 + (i - 1) + 1]);
        }
      }
    }
  }

  ghost predicate IsProperty(p: Property, d: Bytes, start: nat, end: nat) {
    start + 2 <= end <= |d| && p == Property(d[start], d[start + 2..end])
  }

  /** The properties end, or break off, after so many complete ones. */
  ghost predicate BreaksOff(d: Bytes, at: seq<nat>, inHeader: bool)
    requires |d| >= 12
  {
    && Chain(d, at) && |at| - 1 < d[11] as int
    && var end := at[|at| - 1];
    if inHeader then end + 2 > |d| else end + 2 <= |d| < end + 2 + d[end + 1] as int
  }

  /** Why a datagram is refused, in the order of the checks, and what an accepted one says. */
  lemma DecodingRule(d: Bytes) returns (at: seq<nat>)
    ensures DecodeFrame(d) == Err(TooShort) <==> |d| < 12
    ensures DecodeFrame(d) == Err(InvalidHeader) <==> |d| >= 12 && (d[0] != 0x10 || d[1] != 0x81)
    ensures DecodeFrame(d) == Err(UnknownEsv) <==>
      |d| >= 12 && d[0] == 0x10 && d[1] == 0x81
      && d[10] as int !in {0x50, 0x51, 0x52, 0x53, 0x5E, 0x60, 0x61, 0x62, 0x63, 0x6E, 0x71, 0x72, 0x73, 0x74, 0x7A, 0x7E}
    ensures DecodeFrame(d).Err? && DecodeFrame(d).error.IncompletePropertyHeader? ==> |d| >= 12 && BreaksOff(d, at, true)
    ensures DecodeFrame(d).Err? && DecodeFrame(d).error.IncompletePropertyData? ==> |d| >= 12 && BreaksOff(d, at, false)
    ensures DecodeFrame(d).Ok? ==> |d| >= 12 && Chain(d, at) && |at| - 1 == d[11] as int && Says(DecodeFrame(d).value, d, at)
  {
    at := [12];
    if |d| >= 12 {
      assert Chain(d, at);
      at := ReadingFollowsChain(d, at, d[11]);
      if |at| - 1 == d[11] as int {
        ReadAlongChain(d, at, 0, d[11]);
      }
      BigEndianOfTwo(d[2..4]);
      BigEndianOfThree(d[4..7]);
      BigEndianOfThree(d[7..10]);
    }
  }

  /** The frame is what the datagram says, its properties lying between the positions. */
  ghost predicate Says(f: Frame, d: Bytes, at: seq<nat>)
    requires |d| >= 12
  {
    && f.tid == BigEndian(d[2..4]) && f.seoj == BigEndian(d[4..7]) && f.deoj == BigEndian(d[7..10])
    && f.esv as int == d[10] as int && |f.properties| + 1 == |at|
    && forall i :: 0 <= i < |f.properties| ==> IsProperty(f.properties[i], d, at[i], at[i + 1])
  }
}
