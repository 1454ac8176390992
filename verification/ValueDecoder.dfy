/** Decoding of structured property values (decode_property_value and its helpers in
    src/pyhems/codecs.py): a backtracking parser over scalars, objects, arrays and oneOfs. */
module ValueDecoder {
  import opened Basics

  type Bytes = seq<byte>

  datatype ValueDef =
    | Scalar(size: nat, leaf: nat)
    | OneOf(options: seq<ValueDef>)
    | Object(fields: seq<Field>)
    | Array(item: ValueDef, itemSize: int, minItems: Option<int>, maxItems: Option<int>)

  datatype Field = Field(key: string, value: ValueDef)

  /** A decoded value. Fields and items that could not be decoded are kept as None. */
  datatype Value =
    | Leaf(content: int)
    | Dict(entries: map<string, Option<Value>>)
    | Tuple(items: seq<Option<Value>>)

  /** How a scalar leaf of the right length is interpreted (numeric, enum, raw, with or without
      coefficients): any function of its bytes, possibly None. */
  type Leaves = (nat, Bytes) -> Option<int>

  // ---- Fixed widths ----

  /** The byte width of a definition, when every value of it has the same width. */
  function FixedSize(d: ValueDef): Option<nat>
    decreases d, 1
  {
    match d
    case Scalar(size, _) => Some(size)
    case OneOf(options) => CommonSize(options)
    case Object(fields) => TotalSize(fields)
    case Array(_, _, _, _) => None
  }

  function CommonSize(options: seq<ValueDef>): Option<nat>
    decreases options, 0
  {
    if options == [] then None
    else
      var first := FixedSize(options[0]);
      if |options| == 1 then first
      else
        var rest := CommonSize(options[1..]);
        if first.Some? && first == rest then first else None
  }

  function TotalSize(fields: seq<Field>): Option<nat>
    decreases fields, 0
  {
    if fields == [] then Some(0)
    else
      var first, rest := FixedSize(fields[0].value), TotalSize(fields[1..]);
      if first.Some? && rest.Some? then Some(first.value + rest.value) else None
  }

  /** The widths of the alternatives, in order; None if one of them has no fixed width. */
  function Sizes(options: seq<ValueDef>): Option<seq<nat>> {
    if options == [] then Some([])
    else
      var first, rest := FixedSize(options[0]), Sizes(options[1..]);
      if first.Some? && rest.Some? then Some([first.value] + rest.value) else None
  }

  /** The widths a field may take inside an object. */
  function SizeOptions(d: ValueDef): Option<seq<nat>> {
    if d.OneOf? then Sizes(d.options)
    else if FixedSize(d).Some? then Some([FixedSize(d).value])
    else None
  }

  // ---- Decoding ----

  predicate LegalLength(d: ValueDef, length: nat)
    requires d.Array?
  {
    && d.itemSize > 0
    && length % d.itemSize == 0
    && (d.maxItems.Some? ==> length / d.itemSize <= d.maxItems.value)
    && (d.minItems.Some? ==> length / d.itemSize >= d.minItems.value)
  }

  function Decode(d: ValueDef, chunk: Bytes, leaves: Leaves): Option<Value>
    decreases d, 2, 0
  {
    match d
    case Scalar(size, leaf) =>
      if |chunk| != size || leaves(leaf, chunk).None? then None else Some(Leaf(leaves(leaf, chunk).value))
    case OneOf(options) => FirstDecoded(options, chunk, leaves)
    case Object(fields) =>
      var r := DecodeFields(fields, chunk, leaves);
      if r.None? then None else Some(Dict(r.value))
    case Array(item, itemSize, _, _) =>
      if !LegalLength(d, |chunk|) then None else Some(Tuple(DecodeItems(item, itemSize, chunk, leaves)))
  }

  function FirstDecoded(options: seq<ValueDef>, chunk: Bytes, leaves: Leaves): Option<Value>
    decreases options, 0, 0
  {
    if options == [] then None
    else
      var r := Decode(options[0], chunk, leaves);
      if r.Some? then r else FirstDecoded(options[1..], chunk, leaves)
  }

  function DecodeItems(item: ValueDef, itemSize: pos, chunk: Bytes, leaves: Leaves): seq<Option<Value>>
    decreases item, 3, |chunk|
  {
    if |chunk| < itemSize then []
    else [Decode(item, chunk[..itemSize], leaves)] + DecodeItems(item, itemSize, chunk[itemSize..], leaves)
  }

  /** The remaining fields of an object against the remaining bytes; later fields win on equal keys. */
  function DecodeFields(fields: seq<Field>, chunk: Bytes, leaves: Leaves): Option<map<string, Option<Value>>>
    decreases fields, 1, 0
  {
    if fields == [] then (if chunk == [] then Some(map[]) else None)
    else if fields[0].value.Array? then
      if |fields| != 1 then None
      else
        var items := Decode(fields[0].value, chunk, leaves);
        if items.None? then None else Some(map[fields[0].key := items])
    else
      var sizes := SizeOptions(fields[0].value);
      if sizes.None? then None else TrySizes(sizes.value, fields, chunk, leaves)
  }

  /** The first width that lets the rest of the object decode. */
  function TrySizes(sizes: seq<nat>, fields: seq<Field>, chunk: Bytes, leaves: Leaves)
    : Option<map<string, Option<Value>>>
    requires fields != []
    decreases fields, 0, |sizes|
  {
    if sizes == [] then None
    else
      var remaining := if sizes[0] <= |chunk| then DecodeFields(fields[1..], chunk[sizes[0]..], leaves) else None;
      if remaining.None? then TrySizes(sizes[1..], fields, chunk, leaves)
      else Some(map[fields[0].key := Decode(fields[0].value, chunk[..sizes[0]], leaves)] + remaining.value)
  }

  // ---- The grammar of lengths ----

  /** A choice for an object: for each field the index of the width taken (0 for a trailing array). */
  type Choice = seq<nat>

  ghost predicate ChoiceFits(fields: seq<Field>, choice: Choice, length: nat)
    decreases |fields|
  {
    && |choice| == |fields|
    && (fields == [] ==> length == 0)
    && (fields != [] ==>
          var d := fields[0].value;
          if d.Array? then |fields| == 1 && choice[0] == 0 && LegalLength(d, length)
          else
            && SizeOptions(d).Some? && choice[0] < |SizeOptions(d).value|
            && SizeOptions(d).value[choice[0]] <= length
            && ChoiceFits(fields[1..], choice[1..], length - SizeOptions(d).value[choice[0]]))
  }

  /** Lexicographic order: earlier fields, and earlier options of a field, come first. */
  predicate LexLeq(a: Choice, b: Choice)
    requires |a| == |b|
    decreases |a|
  {
    a == [] || a[0] < b[0] || (a[0] == b[0] && LexLeq(a[1..], b[1..]))
  }

  /** The widths a fitting choice gives to the fields. */
  ghost function Widths(fields: seq<Field>, choice: Choice, length: nat): (w: seq<nat>)
    requires ChoiceFits(fields, choice, length)
    ensures |w| == |fields|
    decreases |fields|
  {
    if fields == [] then []
    else if fields[0].value.Array? then [length]
    else
      var k := SizeOptions(fields[0].value).value[choice[0]];
      [k] + Widths(fields[1..], choice[1..], length - k)
  }

  function Sum(w: seq<nat>): nat {
    if w == [] then 0 else w[0] + Sum(w[1..])
  }

  /** Each field decoded from its own slice, the slices lying end to end. */
  ghost function Assemble(fields: seq<Field>, widths: seq<nat>, chunk: Bytes, leaves: Leaves)
    : map<string, Option<Value>>
    requires |widths| == |fields| && Sum(widths) == |chunk|
    decreases |fields|
  {
    if fields == [] then map[]
    else
      map[fields[0].key := Decode(fields[0].value, chunk[..widths[0]], leaves)]
      + Assemble(fields[1..], widths[1..], chunk[widths[0]..], leaves)
  }

  lemma {:induction false} WidthsTile(fields: seq<Field>, choice: Choice, length: nat)
    requires ChoiceFits(fields, choice, length)
    ensures Sum(Widths(fields, choice, length)) == length
    decreases |fields|
  {
    if fields != [] && !fields[0].value.Array? {
      var k := SizeOptions(fields[0].value).value[choice[0]];
      WidthsTile(fields[1..], choice[1..], length - k);
      assert Widths(fields, choice, length)[1..] == Widths(fields[1..], choice[1..], length - k);
    }
  }

  /** A choice starting with index i, followed by `rest`. */
  lemma {:induction false} ChoiceCons(fields: seq<Field>, i: nat, rest: Choice, length: nat)
    requires fields != [] && !fields[0].value.Array?
    requires SizeOptions(fields[0].value).Some? && i < |SizeOptions(fields[0].value).value|
    requires var k := SizeOptions(fields[0].value).value[i]; k <= length && ChoiceFits(fields[1..], rest, length - k)
    ensures ChoiceFits(fields, [i] + rest, length)
    ensures var k := SizeOptions(fields[0].value).value[i];
      Widths(fields, [i] + rest, length) == [k] + Widths(fields[1..], rest, length - k)
  {
    assert ([i] + rest)[1..] == rest;
  }

  /** `choice` is the first of the fitting choices. */
  ghost predicate IsFirst(fields: seq<Field>, choice: Choice, length: nat) {
    && ChoiceFits(fields, choice, length)
    && forall other :: ChoiceFits(fields, other, length) ==> LexLeq(choice, other)
  }

  /** Some choice of widths fills a chunk of this length. */
  ghost predicate SomeFits(fields: seq<Field>, length: nat) {
    exists c :: ChoiceFits(fields, c, length)
  }

  ghost predicate NoneFits(fields: seq<Field>, length: nat) {
    forall c :: !ChoiceFits(fields, c, length)
  }

  /** What the decoder of an object does, in terms of the grammar. */
  ghost predicate FollowsGrammar(fields: seq<Field>, chunk: Bytes, leaves: Leaves) {
    var r := DecodeFields(fields, chunk, leaves);
    && (r.None? ==> NoneFits(fields, |chunk|))
    && (r.Some? ==> exists c :: DecodesBy(fields, c, chunk, leaves))
  }

  ghost predicate DecodesBy(fields: seq<Field>, choice: Choice, chunk: Bytes, leaves: Leaves) {
    && IsFirst(fields, choice, |chunk|)
    && Sum(Widths(fields, choice, |chunk|)) == |chunk|
    && DecodeFields(fields, chunk, leaves) == Some(Assemble(fields, Widths(fields, choice, |chunk|), chunk, leaves))
  }

  /** The loop over the widths of one field, from the i-th on: every fitting choice through an earlier
      width has been excluded. */
  lemma {:induction false} TryFollows(i: nat, fields: seq<Field>, chunk: Bytes, leaves: Leaves)
    requires fields != [] && !fields[0].value.Array? && SizeOptions(fields[0].value).Some?
    requires i <= |SizeOptions(fields[0].value).value|
    requires forall c :: ChoiceFits(fields, c, |chunk|) ==> c[0] >= i
    requires DecodeFields(fields, chunk, leaves) == TrySizes(SizeOptions(fields[0].value).value[i..], fields, chunk, leaves)
    ensures FollowsGrammar(fields, chunk, leaves)
    decreases fields, 0, |SizeOptions(fields[0].value).value| - i
  {
    var sizes := SizeOptions(fields[0].value).value;
    if i < |sizes| {
      var k := sizes[i];
      assert sizes[i..][0] == k && sizes[i..][1..] == sizes[i + 1..];
      if k <= |chunk| {
        FieldsFollowGrammar(fields[1..], chunk[k..], leaves);
      }
      if k <= |chunk| && DecodeFields(fields[1..], chunk[k..], leaves).Some? {
        TakeWidth(i, k, fields, chunk, leaves);
      } else {
        assert k > |chunk| || |chunk[k..]| == |chunk| - k;
        SkipWidth(i, fields, |chunk|);
        TryFollows(i + 1, fields, chunk, leaves);
      }
    }
  }

  lemma TakeWidth(i: nat, k: nat, fields: seq<Field>, chunk: Bytes, leaves: Leaves)
    requires fields != [] && !fields[0].value.Array? && SizeOptions(fields[0].value).Some?
    requires i < |SizeOptions(fields[0].value).value| && SizeOptions(fields[0].value).value[i] == k <= |chunk|
    requires forall c :: ChoiceFits(fields, c, |chunk|) ==> c[0] >= i
    requires FollowsGrammar(fields[1..], chunk[k..], leaves) && DecodeFields(fields[1..], chunk[k..], leaves).Some?
    requires DecodeFields(fields, chunk, leaves)
      == Some(map[fields[0].key := Decode(fields[0].value, chunk[..k], leaves)]
              + DecodeFields(fields[1..], chunk[k..], leaves).value)
    ensures FollowsGrammar(fields, chunk, leaves)
  {
    var rest :| DecodesBy(fields[1..], rest, chunk[k..], leaves);
    assert |chunk[k..]| == |chunk| - k;
    WidthsCons(i, k, rest, fields, |chunk|);
    var widths := Widths(fields[1..], rest, |chunk| - k);
    AssembleCons(fields, k, widths, chunk, leaves);
    assert DecodesBy(fields, [i] + rest, chunk, leaves);
  }

  lemma SkipWidth(i: nat, fields: seq<Field>, length: nat)
    requires fields != [] && !fields[0].value.Array? && SizeOptions(fields[0].value).Some?
    requires i < |SizeOptions(fields[0].value).value|
    requires forall c :: ChoiceFits(fields, c, length) ==> c[0] >= i
    requires var k := SizeOptions(fields[0].value).value[i]; k > length || NoneFits(fields[1..], length - k)
    ensures forall c :: ChoiceFits(fields, c, length) ==> c[0] >= i + 1
  {
  }

  lemma WidthsCons(i: nat, k: nat, rest: Choice, fields: seq<Field>, length: nat)
    requires fields != [] && !fields[0].value.Array? && SizeOptions(fields[0].value).Some?
    requires i < |SizeOptions(fields[0].value).value| && SizeOptions(fields[0].value).value[i] == k <= length
    requires IsFirst(fields[1..], rest, length - k)
    requires forall c :: ChoiceFits(fields, c, length) ==> c[0] >= i
    ensures IsFirst(fields, [i] + rest, length)
    ensures Widths(fields, [i] + rest, length) == [k] + Widths(fields[1..], rest, length - k)
    ensures Sum(Widths(fields, [i] + rest, length)) == length && Sum(Widths(fields[1..], rest, length - k)) == length - k
  {
    FirstCons(i, k, rest, fields, length);
    ChoiceCons(fields, i, rest, length);
    WidthsTile(fields[1..], rest, length - k);
    WidthsTile(fields, [i] + rest, length);
  }

  lemma AssembleCons(fields: seq<Field>, k: nat, widths: seq<nat>, chunk: Bytes, leaves: Leaves)
    requires fields != [] && k <= |chunk| && |widths| == |fields| - 1 && Sum(widths) == |chunk| - k
    ensures Sum([k] + widths) == |chunk|
    ensures Assemble(fields, [k] + widths, chunk, leaves)
      == map[fields[0].key := Decode(fields[0].value, chunk[..k], leaves)] + Assemble(fields[1..], widths, chunk[k..], leaves)
  {
    assert ([k] + widths)[1..] == widths;
  }

  lemma FirstCons(i: nat, k: nat, rest: Choice, fields: seq<Field>, length: nat)
    requires fields != [] && !fields[0].value.Array? && SizeOptions(fields[0].value).Some?
    requires i < |SizeOptions(fields[0].value).value| && SizeOptions(fields[0].value).value[i] == k <= length
    requires forall c :: ChoiceFits(fields, c, length) ==> c[0] >= i
    requires IsFirst(fields[1..], rest, length - k)
    ensures IsFirst(fields, [i] + rest, length)
  {
    ChoiceCons(fields, i, rest, length);
    assert ([i] + rest)[1..] == rest;
    forall other | ChoiceFits(fields, other, length) ensures LexLeq([i] + rest, other) {
      if other[0] == i {
        assert ChoiceFits(fields[1..], other[1..], length - k);
      }
    }
  }

  lemma ArrayDecodes(d: ValueDef, chunk: Bytes, leaves: Leaves)
    requires d.Array?
    ensures Decode(d, chunk, leaves).Some? <==> LegalLength(d, |chunk|)
  {
  }

  lemma {:induction false} FieldsFollowGrammar(fields: seq<Field>, chunk: Bytes, leaves: Leaves)
    ensures FollowsGrammar(fields, chunk, leaves)
    decreases fields, 1, 0
  {
    if fields == [] {
      if chunk == [] {
        assert DecodesBy(fields, [], chunk, leaves);
      }
    } else if fields[0].value.Array? {
      ArrayFollows(fields, chunk, leaves);
    } else if SizeOptions(fields[0].value).Some? {
      var sizes := SizeOptions(fields[0].value).value;
      assert sizes[0..] == sizes;
      TryFollows(0, fields, chunk, leaves);
    }
  }

  lemma ArrayFollows(fields: seq<Field>, chunk: Bytes, leaves: Leaves)
    requires fields != [] && fields[0].value.Array?
    ensures FollowsGrammar(fields, chunk, leaves)
  {
    ArrayDecodes(fields[0].value, chunk, leaves);
    if DecodeFields(fields, chunk, leaves).Some? {
      assert fields[1..] == [];
      assert ChoiceFits(fields, [0], |chunk|);
      forall other | ChoiceFits(fields, other, |chunk|) ensures LexLeq([0], other) {
        assert other == [0];
      }
      var w := Widths(fields, [0], |chunk|);
      assert w == [|chunk|] && w[1..] == [] && Sum(w) == |chunk|;
      assert chunk[..|chunk|] == chunk && chunk[|chunk|..] == [];
      var items := Decode(fields[0].value, chunk, leaves);
      assert Assemble(fields, w, chunk, leaves) == map[fields[0].key := items] + Assemble([], [], [], leaves);
      assert map[fields[0].key := items] + map[] == map[fields[0].key := items];
      assert DecodesBy(fields, [0], chunk, leaves);
    }
  }

  // ---- What decoding an object, a oneOf or an array means ----

  /** An object decodes exactly when some choice of widths fills the chunk (leaving a trailing array a
      legal remainder); it then uses the lexicographically first such choice, and decodes each field
      from its own slice, the slices tiling the chunk. */
  lemma ObjectFollowsGrammar(fields: seq<Field>, chunk: Bytes, leaves: Leaves)
    ensures Decode(Object(fields), chunk, leaves).Some? <==> SomeFits(fields, |chunk|)
    ensures Decode(Object(fields), chunk, leaves).Some? ==>
      exists c :: IsFirst(fields, c, |chunk|)
        && Sum(Widths(fields, c, |chunk|)) == |chunk|
        && Decode(Object(fields), chunk, leaves)
             == Some(Dict(Assemble(fields, Widths(fields, c, |chunk|), chunk, leaves)))
  {
    FieldsFollowGrammar(fields, chunk, leaves);
    var r := DecodeFields(fields, chunk, leaves);
    assert Decode(Object(fields), chunk, leaves) == if r.None? then None else Some(Dict(r.value));
    if r.Some? {
      var c :| DecodesBy(fields, c, chunk, leaves);
      assert IsFirst(fields, c, |chunk|) && ChoiceFits(fields, c, |chunk|);
    } else {
      assert NoneFits(fields, |chunk|);
    }
  }

  /** Whether an object decodes depends on nothing but the number of bytes. */
  lemma ObjectSuccessByLength(fields: seq<Field>, a: Bytes, la: Leaves, b: Bytes, lb: Leaves)
    requires |a| == |b|
    ensures Decode(Object(fields), a, la).Some? <==> Decode(Object(fields), b, lb).Some?
  {
    ObjectFollowsGrammar(fields, a, la);
    ObjectFollowsGrammar(fields, b, lb);
  }

  /** A oneOf is its first option that decodes. */
  lemma {:induction false} OneOfIsFirstDecodable(options: seq<ValueDef>, chunk: Bytes, leaves: Leaves)
    ensures var r := Decode(OneOf(options), chunk, leaves);
      if r.None? then forall i :: 0 <= i < |options| ==> Decode(options[i], chunk, leaves).None?
      else exists i :: 0 <= i < |options| && r == Decode(options[i], chunk, leaves)
             && forall j :: 0 <= j < i ==> Decode(options[j], chunk, leaves).None?
  {
    if options != [] && Decode(options[0], chunk, leaves).None? {
      var rest := options[1..];
      OneOfIsFirstDecodable(rest, chunk, leaves);
      assert Decode(OneOf(rest), chunk, leaves) == FirstDecoded(rest, chunk, leaves);
      assert forall i :: 0 < i < |options| ==> options[i] == rest[i - 1];
      if Decode(OneOf(rest), chunk, leaves).Some? {
        var i :| 0 <= i < |rest| && Decode(OneOf(rest), chunk, leaves) == Decode(rest[i], chunk, leaves)
              && forall j :: 0 <= j < i ==> Decode(rest[j], chunk, leaves).None?;
        assert options[i + 1] == rest[i];
      }
    }
  }

  /** The items of an array are decoded from consecutive slices of the item size. */
  lemma {:induction false} ItemsTile(item: ValueDef, itemSize: pos, count: nat, chunk: Bytes, leaves: Leaves, i: nat)
    requires |chunk| == count * itemSize && i < count
    ensures |DecodeItems(item, itemSize, chunk, leaves)| == count
    ensures 0 <= i * itemSize <= (i + 1) * itemSize <= |chunk|
    ensures DecodeItems(item, itemSize, chunk, leaves)[i]
      == Decode(item, chunk[i * itemSize..(i + 1) * itemSize], leaves)
    decreases count
  {
    assert |chunk| == itemSize + (count - 1) * itemSize;
    var rest := chunk[itemSize..];
    Scaled(i, count, itemSize);
    if i > 0 {
      ItemsTile(item, itemSize, count - 1, rest, leaves, i - 1);
      assert rest[(i - 1) * itemSize..i * itemSize] == chunk[i * itemSize..(i + 1) * itemSize];
    } else if count > 1 {
      ItemsTile(item, itemSize, count - 1, rest, leaves, 0);
    } else {
      assert rest == [];
    }
  }

  lemma Scaled(i: nat, count: nat, size: pos)
    requires i < count
    ensures 0 <= i * size && (i + 1) * size == i * size + size && (i + 1) * size <= count * size
    ensures (i - 1) * size + size == i * size
  {
    Grows(i + 1, count, size);
    Grows(0, i, size);
  }

  lemma {:induction false} Grows(a: nat, b: nat, size: pos)
    requires a <= b
    ensures a * size <= b * size
  {
    if a < b {
      Grows(a, b - 1, size);
      assert b * size == (b - 1) * size + size;
    }
  }

  // ---- Fixed widths ----

  lemma {:induction false} CommonSizeIsShared(options: seq<ValueDef>)
    requires CommonSize(options).Some?
    ensures options != [] && Sizes(options).Some? && |Sizes(options).value| == |options|
    ensures forall i :: 0 <= i < |options| ==>
      Sizes(options).value[i] == CommonSize(options).value && FixedSize(options[i]) == CommonSize(options)
  {
    if |options| > 1 {
      CommonSizeIsShared(options[1..]);
    }
  }

  /** A field of fixed width has that width as its only option. */
  lemma FixedField(d: ValueDef)
    requires FixedSize(d).Some?
    ensures SizeOptions(d).Some? && SizeOptions(d).value != []
    ensures forall i :: 0 <= i < |SizeOptions(d).value| ==> SizeOptions(d).value[i] == FixedSize(d).value
  {
    if d.OneOf? {
      CommonSizeIsShared(d.options);
    }
  }

  lemma {:induction false} FixedFieldsFit(fields: seq<Field>, choice: Choice, length: nat)
    requires TotalSize(fields).Some?
    ensures ChoiceFits(fields, choice, length) ==> length == TotalSize(fields).value
    ensures ChoiceFits(fields, seq(|fields|, _ => 0), TotalSize(fields).value)
    decreases |fields|
  {
    if fields != [] {
      FixedField(fields[0].value);
      var k := FixedSize(fields[0].value).value;
      FixedFieldsFit(fields[1..], if choice == [] then [] else choice[1..], if length >= k then length - k else 0);
      assert seq(|fields|, _ => 0)[1..] == seq(|fields| - 1, _ => 0);
    }
  }

  /** An object of fixed width decodes exactly from chunks of that width. */
  lemma FixedObjectIsExact(fields: seq<Field>, chunk: Bytes, leaves: Leaves)
    requires FixedSize(Object(fields)).Some?
    ensures Decode(Object(fields), chunk, leaves).Some? <==> |chunk| == FixedSize(Object(fields)).value
  {
    ObjectFollowsGrammar(fields, chunk, leaves);
    FixedFieldsFit(fields, [], 0);
    if Decode(Object(fields), chunk, leaves).Some? {
      var c :| ChoiceFits(fields, c, |chunk|);
      FixedFieldsFit(fields, c, |chunk|);
    }
    if |chunk| == TotalSize(fields).value {
      assert ChoiceFits(fields, seq(|fields|, _ => 0), |chunk|);
    }
  }

  /** Fixed widths are sound for every definition, however oneOfs and objects are nested: whatever
      decodes has that width. */
  lemma {:induction false} FixedSizeIsSound(d: ValueDef, chunk: Bytes, leaves: Leaves)
    requires FixedSize(d).Some? && Decode(d, chunk, leaves).Some?
    ensures |chunk| == FixedSize(d).value
    decreases d
  {
    match d
    case Scalar(_, _) =>
    case OneOf(options) =>
      OneOfIsFirstDecodable(options, chunk, leaves);
      CommonSizeIsShared(options);
      var i :| 0 <= i < |options| && Decode(d, chunk, leaves) == Decode(options[i], chunk, leaves);
      FixedSizeIsSound(options[i], chunk, leaves);
    case Object(fields) => FixedObjectIsExact(fields, chunk, leaves);
    case Array(_, _, _, _) =>
  }
}
