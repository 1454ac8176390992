/** What the value decoder accepts, said without its own predicates: widths, arrays, and objects with or
    without a trailing array. */
module DecoderRules {
  import opened Basics
  import opened ValueDecoder

  // ---- Widths ----

  /** `widths` are the fixed widths of the definitions. */
  ghost predicate WidthsAre(definitions: seq<ValueDef>, widths: seq<nat>) {
    |widths| == |definitions| && forall i :: 0 <= i < |widths| ==> FixedSize(definitions[i]) == Some(widths[i])
  }

  function ValuesOf(fields: seq<Field>): (r: seq<ValueDef>)
    ensures |r| == |fields| && forall i :: 0 <= i < |fields| ==> r[i] == fields[i].value
  {
    seq(|fields|, i requires 0 <= i < |fields| => fields[i].value)
  }

  lemma {:induction false} CommonSizeRule(options: seq<ValueDef>, k: nat)
    ensures CommonSize(options) == Some(k) <==>
      options != [] && forall i :: 0 <= i < |options| ==> FixedSize(options[i]) == Some(k)
  {
    if |options| > 1 {
      CommonSizeRule(options[1..], k);
      assert forall i :: 0 < i < |options| ==> options[1..][i - 1] == options[i];
    }
  }

  lemma {:induction false} TotalSizeRule(fields: seq<Field>, widths: seq<nat>)
    requires WidthsAre(ValuesOf(fields), widths)
    ensures TotalSize(fields) == Some(Sum(widths))
  {
    if fields != [] {
      assert FixedSize(fields[0].value) == Some(widths[0]);
      assert WidthsAre(ValuesOf(fields[1..]), widths[1..]) by {
        forall i | 0 <= i < |fields| - 1 ensures FixedSize(fields[1..][i].value) == Some(widths[1..][i]) {
          assert FixedSize(ValuesOf(fields)[i + 1]) == Some(widths[i + 1]);
        }
      }
      TotalSizeRule(fields[1..], widths[1..]);
    }
  }

  lemma {:induction false} TotalSizeIsSum(fields: seq<Field>) returns (widths: seq<nat>)
    requires TotalSize(fields).Some?
    ensures WidthsAre(ValuesOf(fields), widths) && Sum(widths) == TotalSize(fields).value
  {
    if fields == [] {
      widths := [];
    } else {
      var rest := TotalSizeIsSum(fields[1..]);
      widths := [FixedSize(fields[0].value).value] + rest;
      forall i | 0 <= i < |widths| ensures FixedSize(fields[i].value) == Some(widths[i]) {
        if i > 0 {
          assert FixedSize(ValuesOf(fields[1..])[i - 1]) == Some(rest[i - 1]);
        }
      }
      assert widths[1..] == rest;
    }
  }

  lemma {:induction false} SizesRule(options: seq<ValueDef>, widths: seq<nat>)
    ensures Sizes(options) == Some(widths) <==> WidthsAre(options, widths)
  {
    if options != [] {
      if widths != [] {
        SizesRule(options[1..], widths[1..]);
        assert forall i :: 0 < i < |options| ==> options[1..][i - 1] == options[i];
        assert forall i :: 0 < i < |widths| ==> widths[1..][i - 1] == widths[i];
        if WidthsAre(options, widths) {
          assert FixedSize(options[0]) == Some(widths[0]);
          assert widths == [widths[0]] + widths[1..];
        }
      }
    }
  }

  /** Which definitions have a fixed width: scalars; oneOfs whose options all have one and the same; objects
      whose fields all have one, the width being the sum; never arrays. */
  lemma FixedSizeRule(d: ValueDef, k: nat)
    ensures FixedSize(d) == Some(k) <==>
      match d
      case Scalar(size, _) => k == size
      case OneOf(options) => options != [] && forall i :: 0 <= i < |options| ==> FixedSize(options[i]) == Some(k)
      case Object(fields) => exists widths :: WidthsAre(ValuesOf(fields), widths) && Sum(widths) == k
      case Array(_, _, _, _) => false
  {
    match d
    case OneOf(options) => CommonSizeRule(options, k);
    case Object(fields) =>
      if widths :| WidthsAre(ValuesOf(fields), widths) && Sum(widths) == k {
        TotalSizeRule(fields, widths);
      } else if TotalSize(fields) == Some(k) {
        var widths := TotalSizeIsSum(fields);
      }
    case _ =>
  }

  /** The widths tried for a field: those of the options of a oneOf, in order, or the one width of anything else;
      none if one of them is not fixed. */
  lemma SizeOptionsRule(d: ValueDef, widths: seq<nat>)
    ensures SizeOptions(d) == Some(widths) <==> WidthsAre(if d.OneOf? then d.options else [d], widths)
  {
    if d.OneOf? {
      SizesRule(d.options, widths);
    } else if WidthsAre([d], widths) {
      assert widths == [widths[0]];
    }
  }

  // ---- Scalars and arrays ----

  /** A scalar is decoded from exactly its size in bytes, if they mean anything. */
  lemma ScalarRule(size: nat, leaf: nat, chunk: Bytes, leaves: Leaves)
    ensures Decode(Scalar(size, leaf), chunk, leaves) ==
      if |chunk| == size && leaves(leaf, chunk).Some? then Some(Leaf(leaves(leaf, chunk).value)) else None
  {
  }

  /** So many items of that size, within the bounds. */
  predicate Holding(n: nat, size: int, low: Option<int>, high: Option<int>, length: int) {
    && size > 0 && length == n * size
    && (low.Some? ==> n >= low.value)
    && (high.Some? ==> n <= high.value)
  }

  ghost predicate CanHold(size: int, low: Option<int>, high: Option<int>, length: int) {
    exists n: nat :: Holding(n, size, low, high, length)
  }

  lemma LegalIsHolding(item: ValueDef, size: int, low: Option<int>, high: Option<int>, length: nat)
    ensures LegalLength(Array(item, size, low, high), length) <==> CanHold(size, low, high, length)
  {
    if LegalLength(Array(item, size, low, high), length) {
      var q := length / size;
      assert length == q * size;
      assert Holding(q, size, low, high, length);
    }
    if CanHold(size, low, high, length) {
      var n: nat :| Holding(n, size, low, high, length);
      MultipleDivides(n, size);
    }
  }

  lemma MultipleDivides(n: nat, size: pos)
    ensures (n * size) % size == 0 && n * size / size == n
  {
    var q, r := n * size / size, n * size % size;
    assert n * size == q * size + r;
    assert (n - q) * size == r;
    SmallMultipleIsZero(n - q, size, r);
  }

  lemma SmallMultipleIsZero(a: int, size: pos, r: nat)
    requires a * size == r < size
    ensures a == 0 && r == 0
  {
    Grows(1, if a > 0 then a else 1, size);
    Grows(1, if a < 0 then -a else 1, size);
    assert (-a) * size == -r;
  }

  /** An array is decoded exactly from a whole number of items within its bounds, the bounds included, to that
      many items, each from its own slice. */
  lemma ArrayRule(item: ValueDef, size: int, low: Option<int>, high: Option<int>, chunk: Bytes, leaves: Leaves)
    ensures var v := Decode(Array(item, size, low, high), chunk, leaves);
      && (v.Some? <==> CanHold(size, low, high, |chunk|))
      && (v.Some? ==> v.value.Tuple?)
      && (v.Some? ==> forall n: nat :: Holding(n, size, low, high, |chunk|) ==>
            (|v.value.items| == n && forall i: nat :: i < n ==> IsItem(v.value.items[i], item, size, i, chunk, leaves)))
  {
    LegalIsHolding(item, size, low, high, |chunk|);
    forall n: nat | Holding(n, size, low, high, |chunk|)
      ensures var items := DecodeItems(item, size, chunk, leaves);
        |items| == n && forall i: nat :: i < n ==> IsItem(items[i], item, size, i, chunk, leaves)
    {
      ItemsAre(item, size, n, chunk, leaves);
    }
  }

  predicate IsItem(v: Option<Value>, item: ValueDef, size: pos, i: nat, chunk: Bytes, leaves: Leaves) {
    0 <= i * size <= (i + 1) * size <= |chunk| && v == Decode(item, chunk[i * size..(i + 1) * size], leaves)
  }

  lemma ItemsAre(item: ValueDef, size: pos, n: nat, chunk: Bytes, leaves: Leaves)
    requires |chunk| == n * size
    ensures var items := DecodeItems(item, size, chunk, leaves);
      |items| == n && forall i: nat :: i < n ==> IsItem(items[i], item, size, i, chunk, leaves)
  {
    if n == 0 {
      assert |chunk| < size;
    } else {
      ItemsTile(item, size, n, chunk, leaves, 0);
    }
    forall i: nat | i < n ensures IsItem(DecodeItems(item, size, chunk, leaves)[i], item, size, i, chunk, leaves) {
      ItemsTile(item, size, n, chunk, leaves, i);
    }
  }

  // ---- Objects ----

  ghost predicate NoArrays(fields: seq<Field>) {
    forall i :: 0 <= i < |fields| ==> !fields[i].value.Array?
  }

  /** `widths` takes for each field the option that `choice` names. */
  ghost predicate Picks(fields: seq<Field>, choice: Choice, widths: seq<nat>) {
    && |choice| == |fields| == |widths|
    && forall i :: 0 <= i < |fields| ==>
         && SizeOptions(fields[i].value).Some?
         && choice[i] < |SizeOptions(fields[i].value).value|
         && widths[i] == SizeOptions(fields[i].value).value[choice[i]]
  }

  /** The fixed part of an object, whatever follows it. */
  lemma {:induction false} PicksFit(fields: seq<Field>, tail: seq<Field>, choice: Choice, widths: seq<nat>, rest: Choice,
                                    left: nat)
    requires NoArrays(fields) && Picks(fields, choice, widths) && ChoiceFits(tail, rest, left)
    ensures ChoiceFits(fields + tail, choice + rest, Sum(widths) + left)
    decreases |fields|
  {
    if fields == [] {
      assert fields + tail == tail && choice + rest == rest;
    } else {
      var k, more := widths[0], widths[1..];
      assert Picks(fields[1..], choice[1..], more);
      PicksFit(fields[1..], tail, choice[1..], more, rest, left);
      var all, chosen := fields + tail, choice + rest;
      ConcatTail(fields, tail);
      ConcatTail(choice, rest);
      FitsCons(all, chosen, k, Sum(more) + left);
    }
  }

  lemma FitsCons(fields: seq<Field>, choice: Choice, k: nat, length: nat)
    requires fields != [] && choice != [] && !fields[0].value.Array? && SizeOptions(fields[0].value).Some?
    requires choice[0] < |SizeOptions(fields[0].value).value| && k == SizeOptions(fields[0].value).value[choice[0]]
    requires ChoiceFits(fields[1..], choice[1..], length)
    ensures ChoiceFits(fields, choice, k + length)
  {
  }

  /** `choice` picks `widths` for the fields and leaves the rest to the tail. */
  ghost predicate Divides(fields: seq<Field>, tail: seq<Field>, choice: Choice, length: nat, widths: seq<nat>) {
    && |choice| >= |fields| && Picks(fields, choice[..|fields|], widths) && Sum(widths) <= length
    && ChoiceFits(tail, choice[|fields|..], length - Sum(widths))
  }

  lemma {:induction false} FitPicks(fields: seq<Field>, tail: seq<Field>, choice: Choice, length: nat)
    returns (widths: seq<nat>)
    requires NoArrays(fields) && ChoiceFits(fields + tail, choice, length)
    ensures Divides(fields, tail, choice, length, widths)
    decreases |fields|
  {
    if fields == [] {
      widths := [];
      DividesNone(fields, tail, choice, length);
    } else {
      var k := FitsStep(fields, tail, choice, length);
      var more := FitPicks(fields[1..], tail, choice[1..], length - k);
      widths := [k] + more;
      DividesCons(fields, tail, choice, length, k, more);
    }
  }

  lemma DividesNone(fields: seq<Field>, tail: seq<Field>, choice: Choice, length: nat)
    requires fields == [] && ChoiceFits(fields + tail, choice, length)
    ensures Divides(fields, tail, choice, length, [])
  {
    assert fields + tail == tail && choice[0..] == choice;
  }

  lemma FitsStep(fields: seq<Field>, tail: seq<Field>, choice: Choice, length: nat) returns (k: nat)
    requires fields != [] && NoArrays(fields) && ChoiceFits(fields + tail, choice, length)
    ensures choice != [] && SizeOptions(fields[0].value).Some? && choice[0] < |SizeOptions(fields[0].value).value|
    ensures k == SizeOptions(fields[0].value).value[choice[0]] <= length
    ensures NoArrays(fields[1..]) && ChoiceFits(fields[1..] + tail, choice[1..], length - k)
  {
    ConcatTail(fields, tail);
    k := FitsUncons(fields + tail, choice, length);
  }

  lemma DividesCons(fields: seq<Field>, tail: seq<Field>, choice: Choice, length: nat, k: nat, more: seq<nat>)
    requires fields != [] && choice != [] && k <= length && Divides(fields[1..], tail, choice[1..], length - k, more)
    requires SizeOptions(fields[0].value).Some? && choice[0] < |SizeOptions(fields[0].value).value|
    requires k == SizeOptions(fields[0].value).value[choice[0]]
    ensures Divides(fields, tail, choice, length, [k] + more)
  {
    SliceShift(choice, |fields|);
    PicksCons(fields, choice[..|fields|], k, more);
    assert ([k] + more)[1..] == more;
  }

  lemma FitsUncons(fields: seq<Field>, choice: Choice, length: nat) returns (k: nat)
    requires fields != [] && !fields[0].value.Array? && ChoiceFits(fields, choice, length)
    ensures choice != [] && SizeOptions(fields[0].value).Some? && choice[0] < |SizeOptions(fields[0].value).value|
    ensures k == SizeOptions(fields[0].value).value[choice[0]] <= length
    ensures ChoiceFits(fields[1..], choice[1..], length - k)
  {
    k := SizeOptions(fields[0].value).value[choice[0]];
  }

  lemma PicksCons(fields: seq<Field>, choice: Choice, k: nat, more: seq<nat>)
    requires fields != [] && |choice| == |fields| && Picks(fields[1..], choice[1..], more)
    requires SizeOptions(fields[0].value).Some? && choice[0] < |SizeOptions(fields[0].value).value|
    requires k == SizeOptions(fields[0].value).value[choice[0]]
    ensures Picks(fields, choice, [k] + more)
  {
    var widths := [k] + more;
    forall i | 0 <= i < |fields|
      ensures SizeOptions(fields[i].value).Some? && choice[i] < |SizeOptions(fields[i].value).value|
      ensures widths[i] == SizeOptions(fields[i].value).value[choice[i]]
    {
      if i > 0 {
        assert fields[1..][i - 1] == fields[i] && choice[1..][i - 1] == choice[i] && widths[i] == more[i - 1];
      }
    }
  }

  lemma ObjectFits(fields: seq<Field>, chunk: Bytes, leaves: Leaves)
    ensures Decode(Object(fields), chunk, leaves).Some? <==> SomeFits(fields, |chunk|)
  {
    ObjectFollowsGrammar(fields, chunk, leaves);
  }

  /** Some choice of a width for each field adds up to the length. */
  ghost predicate AddsUp(fields: seq<Field>, length: nat) {
    exists choice, widths :: Picks(fields, choice, widths) && Sum(widths) == length
  }

  lemma AddsUpFits(fields: seq<Field>, length: nat)
    requires NoArrays(fields)
    ensures SomeFits(fields, length) <==> AddsUp(fields, length)
  {
    if SomeFits(fields, length) {
      var c :| ChoiceFits(fields, c, length);
      FitAddsUp(fields, c, length);
    }
    if AddsUp(fields, length) {
      var choice, widths :| Picks(fields, choice, widths) && Sum(widths) == length;
      PicksFitAlone(fields, choice, widths);
    }
  }

  lemma FitAddsUp(fields: seq<Field>, c: Choice, length: nat)
    requires NoArrays(fields) && ChoiceFits(fields, c, length)
    ensures AddsUp(fields, length)
  {
    assert fields + [] == fields;
    var widths := FitPicks(fields, [], c, length);
  }

  lemma PicksFitAlone(fields: seq<Field>, choice: Choice, widths: seq<nat>)
    requires NoArrays(fields) && Picks(fields, choice, widths)
    ensures ChoiceFits(fields, choice, Sum(widths))
  {
    PicksFit(fields, [], choice, widths, [], 0);
    assert fields + [] == fields && choice + [] == choice;
  }

  /** An object without arrays is decoded exactly if some choice of a width for each field adds up to the
      chunk. */
  lemma PlainObjectRule(fields: seq<Field>, chunk: Bytes, leaves: Leaves)
    requires NoArrays(fields)
    ensures Decode(Object(fields), chunk, leaves).Some? <==> AddsUp(fields, |chunk|)
  {
    ObjectFits(fields, chunk, leaves);
    AddsUpFits(fields, |chunk|);
  }

  /** Some choice of a width for each field leaves a whole number of items. */
  ghost predicate LeavesArray(fields: seq<Field>, size: int, low: Option<int>, high: Option<int>, length: nat) {
    exists choice, widths :: Picks(fields, choice, widths) && CanHold(size, low, high, length - Sum(widths))
  }

  lemma LeavesArrayFits(fields: seq<Field>, last: Field, length: nat)
    requires NoArrays(fields) && last.value.Array?
    ensures SomeFits(fields + [last], length) <==>
      LeavesArray(fields, last.value.itemSize, last.value.minItems, last.value.maxItems, length)
  {
    var d := last.value;
    if SomeFits(fields + [last], length) {
      var c :| ChoiceFits(fields + [last], c, length);
      var widths := FitPicks(fields, [last], c, length);
      LegalIsHolding(d.item, d.itemSize, d.minItems, d.maxItems, length - Sum(widths));
    }
    if LeavesArray(fields, d.itemSize, d.minItems, d.maxItems, length) {
      var choice, widths :| Picks(fields, choice, widths) && CanHold(d.itemSize, d.minItems, d.maxItems, length - Sum(widths));
      var n: nat :| Holding(n, d.itemSize, d.minItems, d.maxItems, length - Sum(widths));
      var left: nat := n * d.itemSize;
      LegalIsHolding(d.item, d.itemSize, d.minItems, d.maxItems, left);
      assert ChoiceFits([last], [0], left);
      PicksFit(fields, [last], choice, widths, [0], left);
    }
  }

  /** An object that ends in an array is decoded exactly if some choice of a width for each other field leaves
      a whole number of items within the array's bounds, the bounds included. */
  lemma TrailingArrayRule(fields: seq<Field>, key: string, item: ValueDef, size: int, low: Option<int>, high: Option<int>,
                          chunk: Bytes, leaves: Leaves)
    requires NoArrays(fields)
    ensures Decode(Object(fields + [Field(key, Array(item, size, low, high))]), chunk, leaves).Some? <==>
      LeavesArray(fields, size, low, high, |chunk|)
  {
    var last := Field(key, Array(item, size, low, high));
    ObjectFits(fields + [last], chunk, leaves);
    LeavesArrayFits(fields, last, |chunk|);
  }

  /** An array that is not the last field makes the object undecodable. */
  lemma {:induction false} InnerArrayRule(fields: seq<Field>, i: nat, chunk: Bytes, leaves: Leaves)
    requires i + 1 < |fields| && fields[i].value.Array?
    ensures Decode(Object(fields), chunk, leaves).None?
  {
    ObjectFollowsGrammar(fields, chunk, leaves);
    forall c ensures !ChoiceFits(fields, c, |chunk|) {
      InnerArrayNeverFits(fields, i, c, |chunk|);
    }
  }

  lemma {:induction false} InnerArrayNeverFits(fields: seq<Field>, i: nat, c: Choice, length: nat)
    requires i + 1 < |fields| && fields[i].value.Array?
    ensures !ChoiceFits(fields, c, length)
    decreases i
  {
    if i > 0 && ChoiceFits(fields, c, length) && !fields[0].value.Array? {
      InnerArrayNeverFits(fields[1..], i - 1, c[1..], length - SizeOptions(fields[0].value).value[c[0]]);
    }
  }
}
