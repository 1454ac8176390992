/** The frame format of section 3.2 of the ECHONET Lite Specification, Part II, as read and written by
    src/pyhems/frame.py: Frame.decode and Frame.encode. */
module FrameCodec {
  import opened Basics

  /** A 3-byte object identifier. */
  type Eoj = e: int | 0 <= e < 0x1000000

  predicate IsEsv(b: int) {
    b in {0x50, 0x51, 0x52, 0x53, 0x5E, 0x60, 0x61, 0x62, 0x63, 0x6E, 0x71, 0x72, 0x73, 0x74, 0x7A, 0x7E}
  }

  /** A service value. */
  type Esv = b: int | IsEsv(b) witness 0x62

  datatype Frame = Frame(tid: int, seoj: Eoj, deoj: Eoj, esv: Esv, properties: seq<Property>)

  datatype DecodeError = TooShort | InvalidHeader | UnknownEsv | IncompletePropertyHeader | IncompletePropertyData

  datatype EncodeError = OutOfRange

  const EHD1: byte := 0x10
  const EHD2: byte := 0x81

  type Bytes = seq<byte>

  // ---- Encoding ----

  predicate FitsProperty(p: Property) {
    0 <= p.epc < 256 && |p.edt| < 256
  }

  /** Every number fits the field it is written to. */
  predicate Encodable(f: Frame) {
    && 0 <= f.tid < 0x10000
    && |f.properties| < 256
    && forall i :: 0 <= i < |f.properties| ==> FitsProperty(f.properties[i])
  }

  function TwoBytes(n: int): (r: Bytes)
    requires 0 <= n < 0x10000
    ensures |r| == 2
  {
    [n / 256, n % 256]
  }

  function ThreeBytes(n: Eoj): (r: Bytes)
    ensures |r| == 3
  {
    [n / 0x10000, n / 256 % 256, n % 256]
  }

  function EncodeProperty(p: Property): Bytes
    requires FitsProperty(p)
  {
    [p.epc, |p.edt|] + p.edt
  }

  function EncodeProperties(ps: seq<Property>): Bytes
    requires forall i :: 0 <= i < |ps| ==> FitsProperty(ps[i])
  {
    if ps == [] then [] else EncodeProperty(ps[0]) + EncodeProperties(ps[1..])
  }

  function Header(f: Frame): (r: Bytes)
    requires Encodable(f)
    ensures |r| == 12
  {
    [EHD1, EHD2] + TwoBytes(f.tid) + ThreeBytes(f.seoj) + ThreeBytes(f.deoj) + [f.esv, |f.properties|]
  }

  function EncodeFrame(f: Frame): Result<Bytes, EncodeError> {
    if Encodable(f) then Ok(Header(f) + EncodeProperties(f.properties)) else Err(OutOfRange)
  }

  method Encode(f: Frame) returns (r: Result<Bytes, EncodeError>)
    ensures r == EncodeFrame(f)
  {
    var result: Bytes := [EHD1, EHD2];
    if !(0 <= f.tid < 0x10000) {
      return Err(OutOfRange);
    }
    result := result + TwoBytes(f.tid);
    result := result + ThreeBytes(f.seoj);
    result := result + ThreeBytes(f.deoj);
    result := result + [f.esv];
    if |f.properties| >= 256 {
      return Err(OutOfRange);
    }
    result := result + [|f.properties|];
    ghost var head := result;
    assert Encodable(f) ==> head == Header(f);
    for i := 0 to |f.properties|
      invariant forall j :: 0 <= j < i ==> FitsProperty(f.properties[j])
      invariant result == head + EncodeProperties(f.properties[..i])
    {
      var p := f.properties[i];
      if !FitsProperty(p) {
        return Err(OutOfRange);
      }
      result := result + [p.epc, |p.edt|] + p.edt;
      EncodeAppend(f.properties[..i], p);
      assert f.properties[..i + 1] == f.properties[..i] + [p];
    }
    assert f.properties[..|f.properties|] == f.properties;
    return Ok(result);
  }

  lemma {:induction false} EncodeAppend(ps: seq<Property>, p: Property)
    requires FitsProperty(p) && forall i :: 0 <= i < |ps| ==> FitsProperty(ps[i])
    ensures EncodeProperties(ps + [p]) == EncodeProperties(ps) + EncodeProperty(p)
  {
    if ps == [] {
      assert ps + [p] == [p] && [p][1..] == [];
    } else {
      EncodeAppend(ps[1..], p);
      assert (ps + [p])[1..] == ps[1..] + [p];
    }
  }

  // ---- Decoding ----

  /** The big-endian numbers at a position. */
  function TwoAt(data: Bytes, at: nat): (n: nat)
    requires at + 2 <= |data|
    ensures n < 0x10000 && TwoBytes(n) == data[at..at + 2]
  {
    data[at] as int * 256 + data[at + 1] as int
  }

  function ThreeAt(data: Bytes, at: nat): (n: Eoj)
    requires at + 3 <= |data|
    ensures ThreeBytes(n) == data[at..at + 3]
  {
    data[at] as int * 0x10000 + data[at + 1] as int * 256 + data[at + 2] as int
  }

  /** `count` properties starting at `offset`. */
  function DecodeProperties(data: Bytes, offset: nat, count: nat): Result<seq<Property>, DecodeError>
    decreases count
  {
    if count == 0 then Ok([])
    else if offset + 2 > |data| then Err(IncompletePropertyHeader)
    else
      var end := offset + 2 + data[offset + 1];
      if end > |data| then Err(IncompletePropertyData)
      else
        match DecodeProperties(data, end, count - 1)
        case Err(e) => Err(e)
        case Ok(rest) => Ok([Property(data[offset], data[offset + 2..end])] + rest)
  }

  function DecodeFrame(data: Bytes): Result<Frame, DecodeError> {
    if |data| < 12 then Err(TooShort)
    else if data[0] != EHD1 || data[1] != EHD2 then Err(InvalidHeader)
    else if !IsEsv(data[10]) then Err(UnknownEsv)
    else
      match DecodeProperties(data, 12, data[11])
      case Err(e) => Err(e)
      case Ok(ps) =>
        Ok(Frame(TwoAt(data, 2), ThreeAt(data, 4), ThreeAt(data, 7), data[10], ps))
  }

  method Decode(data: Bytes) returns (r: Result<Frame, DecodeError>)
    ensures r == DecodeFrame(data)
  {
    if |data| < 12 {
      return Err(TooShort);
    }
    if data[0] != EHD1 || data[1] != EHD2 {
      return Err(InvalidHeader);
    }
    var tid := TwoAt(data, 2);
    var seoj, deoj := ThreeAt(data, 4), ThreeAt(data, 7);
    if !IsEsv(data[10]) {
      return Err(UnknownEsv);
    }
    var opc := data[11];
    var properties: seq<Property> := [];
    var offset := 12;
    PrependNone(DecodeProperties(data, 12, opc));
    for i := 0 to opc
      invariant 12 <= offset
      invariant DecodeProperties(data, 12, opc) == Prepend(properties, DecodeProperties(data, offset, opc - i))
    {
      if offset + 2 > |data| {
        return Err(IncompletePropertyHeader);
      }
      var epc := data[offset];
      var pdc := data[offset + 1];
      var end := offset + 2 + pdc;
      if end > |data| {
        return Err(IncompletePropertyData);
      }
      var p := Property(epc, data[offset + 2..end]);
      PrependOne(properties, p, DecodeProperties(data, end, opc - i - 1));
      properties := properties + [p];
      offset := end;
    }
    assert properties + [] == properties;
    return Ok(Frame(tid, seoj, deoj, data[10], properties));
  }

  ghost function Prepend(front: seq<Property>, r: Result<seq<Property>, DecodeError>): Result<seq<Property>, DecodeError> {
    match r case Err(e) => Err(e) case Ok(rest) => Ok(front + rest)
  }

  lemma PrependNone(r: Result<seq<Property>, DecodeError>)
    ensures Prepend([], r) == r
  {
    if r.Ok? {
      assert [] + r.value == r.value;
    }
  }

  lemma PrependOne(front: seq<Property>, p: Property, r: Result<seq<Property>, DecodeError>)
    ensures Prepend(front, Prepend([p], r)) == Prepend(front + [p], r)
  {
    if r.Ok? {
      assert front + ([p] + r.value) == front + [p] + r.value;
    }
  }

  // ---- Round trips ----

  lemma {:induction false} PropertiesRoundTrip(data: Bytes, offset: nat, ps: seq<Property>)
    requires forall i :: 0 <= i < |ps| ==> FitsProperty(ps[i])
    requires offset <= |data| && EncodeProperties(ps) <= data[offset..]
    ensures DecodeProperties(data, offset, |ps|) == Ok(ps)
    decreases |ps|
  {
    if ps != [] {
      var one, rest := EncodeProperty(ps[0]), EncodeProperties(ps[1..]);
      SplitPrefix(data, offset, one, rest);
      PropertiesRoundTrip(data, offset + |one|, ps[1..]);
      OnePropertyReadsBack(data, offset, ps[0]);
      assert ps == [ps[0]] + ps[1..];
    }
  }

  lemma SplitPrefix(data: Bytes, offset: nat, one: Bytes, rest: Bytes)
    requires offset <= |data| && one + rest <= data[offset..]
    ensures offset + |one| <= |data| && data[offset..offset + |one|] == one && rest <= data[offset + |one|..]
  {
    var from := data[offset..];
    assert forall i :: 0 <= i < |one| + |rest| ==> (one + rest)[i] == from[i];
    assert forall i :: 0 <= i < |rest| ==> rest[i] == (one + rest)[|one| + i];
  }

  lemma OnePropertyReadsBack(data: Bytes, offset: nat, p: Property)
    requires FitsProperty(p)
    requires offset + |EncodeProperty(p)| <= |data| && data[offset..offset + |EncodeProperty(p)|] == EncodeProperty(p)
    ensures data[offset] == p.epc && data[offset + 1] == |p.edt|
    ensures data[offset + 2..offset + 2 + |p.edt|] == p.edt
  {
    var one := data[offset..offset + |EncodeProperty(p)|];
    assert data[offset] == one[0] && data[offset + 1] == one[1];
    assert data[offset + 2..offset + 2 + |p.edt|] == one[2..];
  }

  lemma HeaderReadsBack(f: Frame, tail: Bytes)
    requires Encodable(f)
    ensures var d := Header(f) + tail;
      && d[0] == EHD1 && d[1] == EHD2 && d[10] == f.esv && d[11] == |f.properties|
      && TwoAt(d, 2) == f.tid && ThreeAt(d, 4) == f.seoj && ThreeAt(d, 7) == f.deoj
  {
    var d := Header(f) + tail;
    assert d[2..4] == TwoBytes(f.tid);
    assert d[4..7] == ThreeBytes(f.seoj);
    assert d[7..10] == ThreeBytes(f.deoj);
    ThreeBytesAreInjective(ThreeAt(d, 4), f.seoj);
    ThreeBytesAreInjective(ThreeAt(d, 7), f.deoj);
  }

  lemma ThreeBytesAreInjective(a: Eoj, b: Eoj)
    requires ThreeBytes(a) == ThreeBytes(b)
    ensures a == b
  {
    Recombined(a);
    Recombined(b);
  }

  lemma Recombined(n: Eoj)
    ensures n == ThreeBytes(n)[0] as int * 0x10000 + ThreeBytes(n)[1] as int * 256 + ThreeBytes(n)[2] as int
  {
    assert n / 256 == n / 0x10000 * 256 + n / 256 % 256;
  }

  /** Whatever follows an encoded frame in the datagram, decoding gives the frame back. */
  lemma DecodeAfterEncode(f: Frame, tail: Bytes)
    requires Encodable(f)
    ensures DecodeFrame(EncodeFrame(f).value + tail) == Ok(f)
  {
    var d := EncodeFrame(f).value + tail;
    assert d == Header(f) + (EncodeProperties(f.properties) + tail);
    HeaderReadsBack(f, EncodeProperties(f.properties) + tail);
    assert d[12..] == EncodeProperties(f.properties) + tail;
    PropertiesRoundTrip(d, 12, f.properties);
  }

  lemma {:induction false} PropertiesReadBack(data: Bytes, offset: nat, count: nat)
    requires offset <= |data| && DecodeProperties(data, offset, count).Ok?
    ensures var ps := DecodeProperties(data, offset, count).value;
      && |ps| == count
      && (forall i :: 0 <= i < |ps| ==> FitsProperty(ps[i]))
      && EncodeProperties(ps) <= data[offset..]
    decreases count
  {
    if count > 0 {
      var end := offset + 2 + data[offset + 1];
      PropertiesReadBack(data, end, count - 1);
      var ps := DecodeProperties(data, offset, count).value;
      var rest := DecodeProperties(data, end, count - 1).value;
      var p := Property(data[offset], data[offset + 2..end]);
      assert ps == [p] + rest && ps[1..] == rest;
      PropertyReadsBack(data, offset, end);
      assert EncodeProperties(ps) == EncodeProperty(p) + EncodeProperties(rest);
    }
  }

  lemma PropertyReadsBack(data: Bytes, offset: nat, end: nat)
    requires offset + 2 <= end <= |data| && data[offset + 1] == end - offset - 2
    ensures EncodeProperty(Property(data[offset], data[offset + 2..end])) == data[offset..end]
    ensures data[offset..] == data[offset..end] + data[end..]
  {
  }

  /** The bytes of an accepted datagram are the encoding of the frame it decodes to, followed by
      whatever was ignored. */
  lemma EncodeAfterDecode(data: Bytes)
    requires DecodeFrame(data).Ok?
    ensures var f := DecodeFrame(data).value; Encodable(f) && EncodeFrame(f).value <= data
  {
    var f := DecodeFrame(data).value;
    PropertiesReadBack(data, 12, data[11]);
    HeaderIsPrefix(data);
    assert data == data[..12] + data[12..];
  }

  lemma HeaderIsPrefix(data: Bytes)
    requires DecodeFrame(data).Ok? && Encodable(DecodeFrame(data).value)
    requires |DecodeFrame(data).value.properties| == data[11]
    ensures Header(DecodeFrame(data).value) == data[..12]
  {
    var f := DecodeFrame(data).value;
    assert data[..12] == data[0..2] + data[2..4] + data[4..7] + data[7..10] + data[10..12];
    assert data[0..2] == [EHD1, EHD2];
    assert data[10..12] == [f.esv, |f.properties|];
  }

  /** The decoder accepts exactly the datagrams that start with an encoded frame, and which frame that
      is does not depend on the rest. */
  lemma AcceptsExactlyEncodings(data: Bytes, f: Frame)
    ensures DecodeFrame(data) == Ok(f) <==> Encodable(f) && EncodeFrame(f).value <= data
  {
    if DecodeFrame(data) == Ok(f) {
      EncodeAfterDecode(data);
    }
    if Encodable(f) && EncodeFrame(f).value <= data {
      var e := EncodeFrame(f).value;
      assert data == e + data[|e|..];
      DecodeAfterEncode(f, data[|e|..]);
    }
  }
}
