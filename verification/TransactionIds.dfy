/** Allocation of transaction IDs (HemsClient._next_transaction_id, src/pyhems/runtime.py). */
module TransactionIds {
  import opened Basics

  const MAX_TID: nat := 0xFFFF

  function Following(counter: nat): (n: nat)
    ensures 1 <= n <= MAX_TID
  {
    counter % MAX_TID + 1
  }

  /** The k-th value the counter takes from here on. */
  function Nth(counter: nat, k: pos): nat {
    (counter + k - 1) % MAX_TID + 1
  }

  datatype Search = Found(tid: nat, steps: pos) | Exhausted(counter: nat)

  function FindFree(counter: nat, used: set<nat>, tries: nat): Search
    decreases tries
  {
    if tries == 0 then Exhausted(counter)
    else
      var c := Following(counter);
      if c !in used then Found(c, 1)
      else
        match FindFree(c, used, tries - 1)
        case Found(t, n) => Found(t, n + 1)
        case Exhausted(d) => Exhausted(d)
  }

  class Allocator {
    var counter: nat

    constructor ()
      ensures counter == 0
    {
      counter := 0;
    }

    method NextTransactionId(used: set<nat>) returns (tid: Option<nat>)
      modifies this
      ensures match FindFree(old(counter), used, MAX_TID)
        case Found(t, _) => tid == Some(t) && counter == t
        case Exhausted(c) => tid == None && counter == c
    {
      for i := 0 to MAX_TID
        invariant match FindFree(old(counter), used, MAX_TID)
          case Found(t, n) => n > i && FindFree(counter, used, MAX_TID - i) == Found(t, n - i)
          case Exhausted(c) => FindFree(counter, used, MAX_TID - i) == Exhausted(c)
      {
        counter := counter % MAX_TID + 1;
        if counter !in used {
          return Some(counter);
        }
      }
      return None;
    }
  }

  /** A found ID is the first one, in the order of the counter, that is not in use. */
  lemma {:induction false} FoundIsFirstFree(counter: nat, used: set<nat>, tries: nat)
    ensures match FindFree(counter, used, tries)
      case Found(t, n) =>
        n <= tries && t == Nth(counter, n) && t !in used && forall k: pos :: k < n ==> Nth(counter, k) in used
      case Exhausted(_) => forall k: pos :: k <= tries ==> Nth(counter, k) in used
    decreases tries
  {
    if tries > 0 {
      var c := Following(counter);
      FoundIsFirstFree(c, used, tries - 1);
      forall k: pos | k > 1 ensures Nth(counter, k) == Nth(c, k - 1) {
        LaterIsNext(counter, k);
      }
      forall k: pos ensures Nth(counter, k + 1) == Nth(c, k) {
        LaterIsNext(counter, k + 1);
      }
      assert Nth(counter, 1) == c;
    }
  }

  lemma LaterIsNext(counter: nat, k: pos)
    requires k > 1
    ensures Nth(counter, k) == Nth(Following(counter), k - 1)
  {
    var q, r := counter / MAX_TID, counter % MAX_TID;
    assert counter == q * MAX_TID + r;
    assert counter + k - 1 == q * MAX_TID + (r + k - 1);
    SameRemainder(r + k - 1, q);
  }

  lemma {:induction false} SameRemainder(a: nat, q: nat)
    ensures (q * MAX_TID + a) % MAX_TID == a % MAX_TID
  {
    if q > 0 {
      SameRemainder(a, q - 1);
    }
  }

  /** Within one lap the counter visits every ID exactly once, from any starting value. */
  lemma LapVisitsEachOnce(counter: nat, tid: nat)
    requires 1 <= tid <= MAX_TID
    ensures exists k: pos :: k <= MAX_TID && Nth(counter, k) == tid
    ensures forall j: pos, k: pos :: j < k <= MAX_TID ==> Nth(counter, j) != Nth(counter, k)
  {
    var r := counter % MAX_TID;
    var k: pos := if tid > r then tid - r else tid + MAX_TID - r;
    var q := counter / MAX_TID;
    assert counter + k - 1 == q * MAX_TID + (r + k - 1);
    SameRemainder(r + k - 1, q);
    assert (r + k - 1) % MAX_TID == tid - 1;
    assert Nth(counter, k) == tid;
    forall i: pos, j: pos | i < j <= MAX_TID ensures Nth(counter, i) != Nth(counter, j) {
      assert (counter + j - 1) - (counter + i - 1) == j - i < MAX_TID;
    }
  }

  /** Allocation succeeds with an ID in 1..65535 that no pending request uses, and fails exactly when
      all 65535 are in use. */
  lemma AllocationIsSound(counter: nat, used: set<nat>)
    ensures match FindFree(counter, used, MAX_TID)
      case Found(t, _) => 1 <= t <= 65535 && t !in used
      case Exhausted(_) => forall t :: 1 <= t <= 65535 ==> t in used
    ensures FindFree(counter, used, MAX_TID).Exhausted? <==> forall t :: 1 <= t <= 65535 ==> t in used
  {
    FoundIsFirstFree(counter, used, MAX_TID);
    match FindFree(counter, used, MAX_TID)
    case Found(t, n) =>
    case Exhausted(_) =>
      forall t | 1 <= t <= MAX_TID ensures t in used {
        LapVisitsEachOnce(counter, t);
        var k: pos :| k <= MAX_TID && Nth(counter, k) == t;
      }
  }
}
