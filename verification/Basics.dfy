/** Vocabulary shared by the modules of the model: optional values, results, bytes,
    property codes and properties. */
module Basics {

  datatype Option<+T> = None | Some(value: T)

  datatype Result<+T, +E> = Ok(value: T) | Err(error: E)

  type byte = b: int | 0 <= b < 256

  type pos = n: int | 0 < n witness 1

  /** An ECHONET Lite property code. */
  type Epc = int

  /** A property of a frame: its code and its data (EDT); an empty EDT means PDC = 0. */
  datatype Property = Property(epc: Epc, edt: seq<byte>)

  ghost predicate NoDup<T>(s: seq<T>) {
    forall i, j :: 0 <= i < j < |s| ==> s[i] != s[j]
  }

  function ToSet<T(==, !new)>(s: seq<T>): (r: set<T>)
    ensures forall x :: x in r <==> x in s
  {
    set x | x in s
  }

  function Min(a: int, b: int): int {
    if a < b then a else b
  }

  /** The number of chunks of at most `c` that `n` items need: n / c rounded up. */
  function CeilDiv(n: nat, c: pos): nat {
    if n == 0 then 0 else if n <= c then 1 else 1 + CeilDiv(n - c, c)
  }

  lemma {:induction false} CeilDivIsRoundedUp(n: nat, c: pos)
    ensures n <= CeilDiv(n, c) * c < n + c
  {
    if n > c {
      CeilDivIsRoundedUp(n - c, c);
    }
  }

  lemma SliceSnoc<T>(s: seq<T>, j: nat, k: nat)
    requires j < k <= |s|
    ensures s[j..k] == s[j..k - 1] + [s[k - 1]]
    ensures s[j..k][..k - 1 - j] == s[j..k - 1]
  {
  }

  lemma ConcatTail<T>(a: seq<T>, b: seq<T>)
    requires a != []
    ensures (a + b)[0] == a[0] && (a + b)[1..] == a[1..] + b
  {
  }

  lemma SliceShift<T>(s: seq<T>, n: nat)
    requires 1 <= n <= |s|
    ensures s[1..][..n - 1] == s[..n][1..] && s[1..][n - 1..] == s[n..]
  {
  }

  lemma DropSnoc<T>(s: seq<T>, k: nat)
    requires k < |s|
    ensures s[..|s| - 1][k..] + [s[|s| - 1]] == s[k..]
  {
  }

  lemma Overwritten<K, V>(m: map<K, V>, k: K, a: V, b: V)
    ensures m[k := a][k := b] == m[k := b]
    ensures m[k := a][k := b][k] == b
  {
  }

  lemma SubsetCount<T>(a: set<T>, b: set<T>)
    requires a <= b
    ensures |a| <= |b| && (|a| == |b| <==> a == b)
  {
    assert b == a + (b - a);
    if |a| == |b| {
      assert b - a == {};
    }
  }

  lemma CardinalityOfDistinct<T(!new)>(s: seq<T>)
    requires NoDup(s)
    ensures |ToSet(s)| == |s|
  {
    if s == [] {
      assert ToSet(s) == {};
    } else {
      var n := |s| - 1;
      CardinalityOfDistinct(s[..n]);
      assert s == s[..n] + [s[n]];
      assert ToSet(s) == ToSet(s[..n]) + {s[n]};
    }
  }
}
