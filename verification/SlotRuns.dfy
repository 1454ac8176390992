/** Every run of one node's request slot: mutual exclusion, no lost slot, grant order, and what is
    left of this once the queue has been failed by `stop`. */
module SlotRuns {
  import opened Basics
  import opened NodeRequestQueue

  datatype Action =
    | StartAcquire(request: RequestId, priority: int)
    | Cancel(request: RequestId)
    | Wake(request: RequestId)
    | Finish(request: RequestId)
    | Stop

  /** `stopped`: the queue has been failed and is no longer registered, so nothing acquires it any
      more. `stray`: a failed waiter was cancelled before it resumed, and so released a slot that it
      had never been given. */
  datatype Slot = Slot(queue: Queue, stopped: bool, stray: bool)

  predicate IsOwner(p: Phase) {
    p.Granted? || p.GrantedCancelled? || p.Holding?
  }

  function Owners(q: Queue): set<RequestId> {
    set r | r in q.phases && IsOwner(q.phases[r])
  }

  predicate Enabled(s: Slot, a: Action) {
    match a
    case StartAcquire(r, _) => !s.stopped && r !in s.queue.phases
    case Cancel(r) =>
      r in s.queue.phases && (s.queue.phases[r].Waiting? || s.queue.phases[r].Granted? || s.queue.phases[r].Failed?)
    case Wake(r) =>
      r in s.queue.phases && !s.queue.phases[r].Waiting? && !s.queue.phases[r].Holding? && !s.queue.phases[r].Gone?
    case Finish(r) => r in s.queue.phases && s.queue.phases[r].Holding?
    case Stop => !s.stopped
  }

  function Next(s: Slot, a: Action): Slot
    requires Enabled(s, a)
  {
    match a
    case StartAcquire(r, p) => s.(queue := Acquire(s.queue, r, p))
    case Cancel(r) => s.(queue := CancelAcquire(s.queue, r))
    case Wake(r) => s.(queue := Resume(s.queue, r), stray := s.stray || s.queue.phases[r].FailedCancelled?)
    case Finish(r) => s.(queue := Release(s.queue, r))
    case Stop => s.(queue := FailWaiters(s.queue), stopped := true)
  }

  ghost predicate IsRun(states: seq<Slot>, actions: seq<Action>) {
    && |states| == |actions| + 1
    && states[0] == Slot(NEW_QUEUE, false, false)
    && forall i :: 0 <= i < |actions| ==> Enabled(states[i], actions[i]) && states[i + 1] == Next(states[i], actions[i])
  }

  // ---- Invariant ----

  ghost predicate InOrder(w: seq<Entry>) {
    && (forall i, j :: 0 <= i < j < |w| ==> Before(w[i], w[j]))
    && (forall i, j :: 0 <= i < j < |w| ==> w[i].request != w[j].request)
  }

  /** The heap: in popping order, one entry per request, every waiting request has one. */
  ghost predicate HeapOk(q: Queue) {
    && InOrder(q.waiters)
    && (forall x :: x in q.waiters ==> x.sequence < q.nextSequence && x.request in q.phases)
    && (forall x :: x in q.waiters ==> !IsOwner(q.phases[x.request]))
    && (forall r :: r in q.phases && q.phases[r].Waiting? ==> HasEntry(q.waiters, r))
  }

  ghost predicate HasEntry(waiters: seq<Entry>, r: RequestId) {
    exists i :: 0 <= i < |waiters| && waiters[i].request == r
  }

  ghost predicate Token(q: Queue) {
    && (q.busy ==> exists r :: Owners(q) == {r})
    && (!q.busy ==> Owners(q) == {} && q.waiters == [])
  }

  ghost predicate Inv(s: Slot) {
    && HeapOk(s.queue)
    && (!s.stopped ==>
          && Token(s.queue) && !s.stray
          && forall r :: r in s.queue.phases ==> !s.queue.phases[r].Failed? && !s.queue.phases[r].FailedCancelled?)
    && (s.stopped ==>
          && s.queue.waiters == []
          && (Owners(s.queue) == {} || exists r :: Owners(s.queue) == {r})
          && (s.queue.busy <==> Owners(s.queue) != {} && !s.stray))
  }

  /** What a hand-over does: it skips the dead entries in front and grants the first live one. */
  lemma {:induction false} HandOverSpec(q: Queue) returns (i: nat)
    ensures i <= |q.waiters|
    ensures forall j :: 0 <= j < i ==> !Pending(q.phases, q.waiters[j].request)
    ensures i == |q.waiters| ==> HandOver(q) == q.(busy := false, waiters := [])
    ensures i < |q.waiters| ==>
      && Pending(q.phases, q.waiters[i].request)
      && HandOver(q) == q.(waiters := q.waiters[i + 1..], phases := q.phases[q.waiters[i].request := Granted])
    decreases |q.waiters|
  {
    if q.waiters == [] || Pending(q.phases, q.waiters[0].request) {
      i := 0;
    } else {
      var k := HandOverSpec(q.(waiters := q.waiters[1..]));
      i := k + 1;
    }
  }

  lemma HandOverKeepsHeap(q: Queue)
    requires HeapOk(q)
    ensures HeapOk(HandOver(q))
  {
    var i := HandOverSpec(q);
    if i < |q.waiters| {
      var t := HandOver(q);
      var g := q.waiters[i].request;
      forall r | r in t.phases && t.phases[r].Waiting? ensures HasEntry(t.waiters, r) {
        assert Pending(q.phases, r);
        var j :| 0 <= j < |q.waiters| && q.waiters[j].request == r;
        assert j > i;
        assert t.waiters[j - i - 1] == q.waiters[j];
      }
      forall x | x in t.waiters
        ensures x.sequence < t.nextSequence && x.request in t.phases && !IsOwner(t.phases[x.request])
      {
        var j :| 0 <= j < |t.waiters| && t.waiters[j] == x;
        assert q.waiters[i + 1 + j] == x;
      }
    } else {
      forall j | 0 <= j < |q.waiters| ensures !q.phases[q.waiters[j].request].Waiting? {
        assert !Pending(q.phases, q.waiters[j].request) && q.waiters[j] in q.waiters;
      }
    }
  }

  /** With no owner left, a hand-over makes exactly one, or none if nobody waits. */
  lemma HandOverRestoresToken(q: Queue)
    requires HeapOk(q) && q.busy && Owners(q) == {}
    ensures Token(HandOver(q))
  {
    var i := HandOverSpec(q);
    var t := HandOver(q);
    if i < |q.waiters| {
      var g := q.waiters[i].request;
      forall r ensures r in Owners(t) <==> r == g {
        if r != g && r in t.phases {
          assert r !in Owners(q);
        }
      }
      assert Owners(t) == {g};
    } else {
      assert Owners(t) == Owners(q);
    }
  }

  lemma GoneKeepsHeap(q: Queue, r: RequestId)
    requires HeapOk(q) && r in q.phases && !q.phases[r].Waiting?
    ensures HeapOk(q.(phases := q.phases[r := Gone]))
  {
    var t := q.(phases := q.phases[r := Gone]);
    forall w | w in t.phases && t.phases[w].Waiting? ensures HasEntry(t.waiters, w) {
      assert w in q.phases && q.phases[w].Waiting?;
    }
  }

  lemma InOrderCons(x: Entry, rest: seq<Entry>)
    requires InOrder(rest) && forall y :: y in rest ==> Before(x, y) && x.request != y.request
    ensures InOrder([x] + rest)
  {
    var all := [x] + rest;
    forall j | 0 < j < |all| ensures Before(x, all[j]) && x.request != all[j].request {
      assert all[j] == rest[j - 1] && rest[j - 1] in rest;
    }
  }

  lemma {:induction false} InsertKeepsOrder(waiters: seq<Entry>, x: Entry)
    requires InOrder(waiters)
    requires forall y :: y in waiters ==> y.sequence < x.sequence && y.request != x.request
    ensures InOrder(Insert(waiters, x))
    ensures forall y :: y in Insert(waiters, x) <==> y in waiters || y == x
  {
    if waiters != [] {
      var first, rest := waiters[0], waiters[1..];
      assert waiters == [first] + rest;
      forall y | y in rest ensures Before(first, y) && first.request != y.request {
        var k :| 0 <= k < |rest| && rest[k] == y;
        assert waiters[k + 1] == y;
      }
      if Before(x, first) {
        InOrderCons(x, waiters);
      } else {
        InsertKeepsOrder(rest, x);
        InOrderCons(first, Insert(rest, x));
      }
    }
  }

  lemma AcquireKeepsInv(s: Slot, r: RequestId, priority: int)
    requires Inv(s) && Enabled(s, StartAcquire(r, priority))
    ensures Inv(Next(s, StartAcquire(r, priority)))
  {
    var q := s.queue;
    var t := Acquire(q, r, priority);
    if Idle(q) {
      forall o ensures o in Owners(t) <==> o == r { assert o in Owners(q) ==> false; }
      assert Owners(t) == {r};
    } else {
      var x := Entry(priority, q.nextSequence, r);
      InsertKeepsOrder(q.waiters, x);
      assert x in t.waiters;
      assert Owners(t) == Owners(q);
      forall w | w in t.phases && t.phases[w].Waiting? ensures HasEntry(t.waiters, w) {
        if w != r {
          var j :| 0 <= j < |q.waiters| && q.waiters[j].request == w;
          assert q.waiters[j] in t.waiters;
        }
      }
    }
  }

  lemma CancelKeepsInv(s: Slot, r: RequestId)
    requires Inv(s) && Enabled(s, Cancel(r))
    ensures Inv(Next(s, Cancel(r)))
  {
    var q, t := s.queue, CancelAcquire(s.queue, r);
    assert Owners(t) == Owners(q);
    forall w | w in t.phases && t.phases[w].Waiting? ensures HasEntry(t.waiters, w) {
      assert w in q.phases && q.phases[w].Waiting?;
    }
    if q.phases[r].Granted? {
      assert r in Owners(q);
    }
  }

  /** The owner leaves: whoever is next becomes the only owner. */
  lemma OwnerLeaves(s: Slot, r: RequestId)
    requires Inv(s) && r in s.queue.phases && IsOwner(s.queue.phases[r])
    ensures Inv(s.(queue := Release(s.queue, r)))
  {
    var q := s.queue;
    var q' := q.(phases := q.phases[r := Gone]);
    assert r in Owners(q);
    assert Owners(q) == {r};
    forall o ensures o !in Owners(q') { assert o in Owners(q') ==> o in Owners(q); }
    assert Owners(q') == {};
    GoneKeepsHeap(q, r);
    HandOverKeepsHeap(q');
    var i := HandOverSpec(q');
    if !s.stopped {
      HandOverRestoresToken(q');
    } else {
      assert HandOver(q') == q'.(busy := false, waiters := []);
      assert Owners(HandOver(q')) == {};
    }
  }

  lemma WakeKeepsInv(s: Slot, r: RequestId)
    requires Inv(s) && Enabled(s, Wake(r))
    ensures Inv(Next(s, Wake(r)))
  {
    var q := s.queue;
    var t := Resume(q, r);
    match q.phases[r]
    case GrantedCancelled => OwnerLeaves(s, r);
    case FailedCancelled =>
      var q' := q.(phases := q.phases[r := Gone]);
      assert Owners(q') == Owners(q);
      GoneKeepsHeap(q, r);
      assert t == q'.(busy := false);
      assert Owners(t) == Owners(q);
    case Granted =>
      assert r in Owners(q);
      assert Owners(t) == Owners(q);
      forall w | w in t.phases && t.phases[w].Waiting? ensures HasEntry(t.waiters, w) {
        assert w in q.phases && q.phases[w].Waiting?;
      }
      assert forall x :: x in q.waiters ==> x.request != r;
    case Withdrawn =>
      GoneKeepsHeap(q, r);
      assert Owners(t) == Owners(q);
    case Failed =>
      GoneKeepsHeap(q, r);
      assert Owners(t) == Owners(q);
    case _ =>
  }

  lemma {:induction false} FailAllSpec(phases: map<RequestId, Phase>, waiters: seq<Entry>)
    ensures var f := FailAll(phases, waiters);
      && f.Keys == phases.Keys
      && forall r :: r in phases ==>
           f[r] == if phases[r].Waiting? && HasEntry(waiters, r) then Failed else phases[r]
  {
    if waiters != [] {
      var last := |waiters| - 1;
      FailAllSpec(phases, waiters[..last]);
      forall r ensures HasEntry(waiters, r) <==> HasEntry(waiters[..last], r) || waiters[last].request == r {
        if HasEntry(waiters[..last], r) {
          var i :| 0 <= i < last && waiters[..last][i].request == r;
          assert waiters[i].request == r;
        }
        if HasEntry(waiters, r) && waiters[last].request != r {
          var i :| 0 <= i < |waiters| && waiters[i].request == r;
          assert waiters[..last][i].request == r;
        }
      }
    }
  }

  lemma StopKeepsInv(s: Slot)
    requires Inv(s) && Enabled(s, Stop)
    ensures Inv(Next(s, Stop))
  {
    var q, t := s.queue, FailWaiters(s.queue);
    FailAllSpec(q.phases, q.waiters);
    assert Owners(t) == Owners(q);
    assert forall r :: r in t.phases ==> !t.phases[r].Waiting?;
  }

  lemma NextKeepsInv(s: Slot, a: Action)
    requires Inv(s) && Enabled(s, a)
    ensures Inv(Next(s, a))
  {
    match a
    case StartAcquire(r, p) => AcquireKeepsInv(s, r, p);
    case Cancel(r) => CancelKeepsInv(s, r);
    case Wake(r) => WakeKeepsInv(s, r);
    case Finish(r) => OwnerLeaves(s, r);
    case Stop => StopKeepsInv(s);
  }

  lemma {:induction false} RunKeepsInv(states: seq<Slot>, actions: seq<Action>, i: nat)
    requires IsRun(states, actions) && i < |states|
    ensures Inv(states[i])
  {
    if i > 0 {
      RunKeepsInv(states, actions, i - 1);
      NextKeepsInv(states[i - 1], actions[i - 1]);
    } else {
      assert Owners(NEW_QUEUE) == {};
    }
  }

  // ---- Mutual exclusion and no lost slot ----

  /** One token. While the queue is registered, it is busy exactly when one request, and only one,
      holds the slot or has been granted it; nobody waits for a free slot. Once the queue has been
      failed there is still at most one owner and nobody is left waiting; `busy` then tells the truth
      exactly unless a stray release has happened while an owner remained. */
  lemma SlotIsOneToken(states: seq<Slot>, actions: seq<Action>, i: nat)
    requires IsRun(states, actions) && i < |states|
    ensures var s := states[i]; var q := s.queue;
      && |Owners(q)| <= 1
      && (!s.stopped ==> |Owners(q)| == if q.busy then 1 else 0)
      && (forall r :: Pending(q.phases, r) ==> !s.stopped && q.busy)
      && (s.stopped ==> ((q.busy <==> |Owners(q)| == 1) <==> !(s.stray && |Owners(q)| == 1)))
  {
    RunKeepsInv(states, actions, i);
    var q := states[i].queue;
    if Owners(q) != {} {
      var r :| Owners(q) == {r};
      assert |Owners(q)| == 1;
    }
  }

  /** The exception is real: a run in which a request still holds the slot of a failed queue that
      says it is free. */
  lemma StrayReleaseHappens() returns (states: seq<Slot>, actions: seq<Action>)
    ensures IsRun(states, actions)
    ensures var s := states[|states| - 1]; s.stopped && !s.queue.busy && Owners(s.queue) == {0}
  {
    actions := [StartAcquire(0, 1), StartAcquire(1, 1), Stop, Cancel(1), Wake(1)];
    var s0 := Slot(NEW_QUEUE, false, false);
    var s1 := Next(s0, actions[0]);
    var s2 := Next(s1, actions[1]);
    assert s2.queue.waiters == [Entry(1, 0, 1)];
    FailAllSpec(s2.queue.phases, s2.queue.waiters);
    assert s2.queue.waiters[0].request == 1;
    assert HasEntry(s2.queue.waiters, 1);
    var s3 := Next(s2, actions[2]);
    var s4 := Next(s3, actions[3]);
    var s5 := Next(s4, actions[4]);
    states := [s0, s1, s2, s3, s4, s5];
    assert Owners(s5.queue) == {0};
  }

  // ---- Grant order ----

  /** The step grants the slot to a waiting request. */
  ghost predicate Grants(s: Slot, t: Slot, g: RequestId) {
    Pending(s.queue.phases, g) && g in t.queue.phases && t.queue.phases[g].Granted?
  }

  lemma HandOverGrantsLeast(q: Queue, g: RequestId, x: Entry, y: Entry)
    requires HeapOk(q) && Pending(q.phases, g) && g in HandOver(q).phases && HandOver(q).phases[g].Granted?
    requires x in q.waiters && x.request == g
    requires y in q.waiters && y != x && Pending(q.phases, y.request)
    ensures Before(x, y)
  {
    var i := HandOverSpec(q);
    var j :| 0 <= j < |q.waiters| && q.waiters[j] == x;
    var k :| 0 <= k < |q.waiters| && q.waiters[k] == y;
    assert i < |q.waiters| && j == i;
    assert k > i;
  }

  /** Each release grants the live waiter with the least (priority, sequence), whatever dead entries
      cancellation has left in the heap. */
  lemma GrantsLeastWaiter(s: Slot, a: Action, g: RequestId, x: Entry, y: Entry)
    requires Inv(s) && Enabled(s, a) && Grants(s, Next(s, a), g)
    requires x in s.queue.waiters && x.request == g
    requires y in s.queue.waiters && y != x && Pending(s.queue.phases, y.request)
    ensures Before(x, y)
  {
    var q := s.queue;
    match a
    case Finish(r) =>
      GoneKeepsHeap(q, r);
      HandOverGrantsLeast(q.(phases := q.phases[r := Gone]), g, x, y);
    case Wake(r) =>
      GoneKeepsHeap(q, r);
      if q.phases[r].GrantedCancelled? {
        HandOverGrantsLeast(q.(phases := q.phases[r := Gone]), g, x, y);
      }
    case Stop => FailAllSpec(q.phases, q.waiters);
    case _ =>
  }

  /** A request that still waits after a step waited before it, with the same entry, unless the step
      is its own arrival. */
  lemma WaiterKeepsEntry(s: Slot, a: Action, x: Entry)
    requires Inv(s) && Enabled(s, a) && x in s.queue.waiters
    requires Pending(Next(s, a).queue.phases, x.request)
    ensures Pending(s.queue.phases, x.request) && x in Next(s, a).queue.waiters
  {
    var q := s.queue;
    match a
    case StartAcquire(r, p) =>
      assert x in multiset(Insert(q.waiters, Entry(p, q.nextSequence, r)));
    case Cancel(r) =>
    case Stop => FailAllSpec(q.phases, q.waiters);
    case Finish(r) => HandOverKeepsEntry(q, r, x);
    case Wake(r) =>
      if q.phases[r].GrantedCancelled? || q.phases[r].FailedCancelled? {
        HandOverKeepsEntry(q, r, x);
      }
  }

  lemma HandOverKeepsEntry(q: Queue, r: RequestId, x: Entry)
    requires HeapOk(q) && r in q.phases && !q.phases[r].Waiting? && x in q.waiters
    requires Pending(Release(q, r).phases, x.request)
    ensures Pending(q.phases, x.request) && x in Release(q, r).waiters
  {
    var q' := q.(phases := q.phases[r := Gone]);
    var i := HandOverSpec(q');
    var j :| 0 <= j < |q.waiters| && q.waiters[j] == x;
    assert i < |q.waiters| && j > i;
    assert Release(q, r).waiters[j - i - 1] == x;
  }

  /** Requests are never forgotten, sequence numbers never go back, and nothing but its own arrival
      makes a request wait. */
  lemma NextGrows(s: Slot, a: Action)
    requires Inv(s) && Enabled(s, a)
    ensures var t := Next(s, a);
      && s.queue.phases.Keys <= t.queue.phases.Keys
      && s.queue.nextSequence <= t.queue.nextSequence
      && (forall r :: r in s.queue.phases && Pending(t.queue.phases, r) ==> Pending(s.queue.phases, r))
  {
    var q := s.queue;
    match a
    case Finish(r) => var _ := HandOverSpec(q.(phases := q.phases[r := Gone]));
    case Wake(r) => var _ := HandOverSpec(q.(phases := q.phases[r := Gone]));
    case Stop => FailAllSpec(q.phases, q.waiters);
    case _ =>
  }

  lemma {:induction false} StaysKnown(states: seq<Slot>, actions: seq<Action>, n: nat, m: nat)
    requires IsRun(states, actions) && n <= m < |states|
    ensures states[n].queue.phases.Keys <= states[m].queue.phases.Keys
    ensures states[n].queue.nextSequence <= states[m].queue.nextSequence
  {
    if n < m {
      StaysKnown(states, actions, n, m - 1);
      RunKeepsInv(states, actions, m - 1);
      NextGrows(states[m - 1], actions[m - 1]);
    }
  }

  lemma {:induction false} WaitedSince(states: seq<Slot>, actions: seq<Action>, n: nat, m: nat, r: RequestId)
    requires IsRun(states, actions) && n <= m < |states|
    requires r in states[n].queue.phases && Pending(states[m].queue.phases, r)
    ensures Pending(states[n].queue.phases, r)
  {
    if n < m {
      StaysKnown(states, actions, n, m - 1);
      RunKeepsInv(states, actions, m - 1);
      NextGrows(states[m - 1], actions[m - 1]);
      WaitedSince(states, actions, n, m - 1, r);
    }
  }

  /** The entry of a request that arrived at step i and still waits at step m. */
  lemma {:induction false} EntryPersists(states: seq<Slot>, actions: seq<Action>, i: nat, m: nat, r: RequestId,
                                         priority: int)
    requires IsRun(states, actions) && i < m < |states|
    requires actions[i] == StartAcquire(r, priority) && Pending(states[m].queue.phases, r)
    ensures Entry(priority, states[i].queue.nextSequence, r) in states[m].queue.waiters
    ensures states[m].queue.nextSequence > states[i].queue.nextSequence
    decreases m
  {
    var x := Entry(priority, states[i].queue.nextSequence, r);
    assert states[i + 1] == Next(states[i], actions[i]);
    if m == i + 1 {
      assert x in multiset(Insert(states[i].queue.waiters, x));
    } else {
      StaysKnown(states, actions, i + 1, m - 1);
      WaitedSince(states, actions, m - 1, m, r);
      EntryPersists(states, actions, i, m - 1, r, priority);
      RunKeepsInv(states, actions, m - 1);
      NextGrows(states[m - 1], actions[m - 1]);
      WaiterKeepsEntry(states[m - 1], actions[m - 1], x);
    }
  }

  /** Overtaking: if `r` asks for the slot at step i, `g` asks later, and `g` is granted while `r`
      still waits, then `g` has strictly higher priority. In particular requests of one priority are
      served in the order of their arrival. */
  lemma OvertakenOnlyByPriority(states: seq<Slot>, actions: seq<Action>, i: nat, j: nat, k: nat, r: RequestId,
                                pr: int, g: RequestId, pg: int)
    requires IsRun(states, actions) && i < j < k < |actions|
    requires actions[i] == StartAcquire(r, pr) && actions[j] == StartAcquire(g, pg)
    requires Grants(states[k], states[k + 1], g) && Pending(states[k + 1].queue.phases, r)
    ensures pg < pr
  {
    assert states[i + 1] == Next(states[i], actions[i]);
    StaysKnown(states, actions, i + 1, k);
    StaysKnown(states, actions, i + 1, j);
    WaitedSince(states, actions, k, k + 1, r);
    WaitedSince(states, actions, j, k, r);
    EntryPersists(states, actions, i, j, r, pr);
    EntryPersists(states, actions, i, k, r, pr);
    EntryPersists(states, actions, j, k, g, pg);
    RunKeepsInv(states, actions, k);
    GrantsLeastWaiter(states[k], actions[k], g, Entry(pg, states[j].queue.nextSequence, g),
                      Entry(pr, states[i].queue.nextSequence, r));
  }

  // ---- How long a request waits ----

  /** The live waiters that come before an entry. */
  ghost function Ahead(q: Queue, x: Entry): set<Entry> {
    set y | y in q.waiters && Before(y, x) && Pending(q.phases, y.request)
  }

  ghost predicate HandsOver(s: Slot, t: Slot) {
    exists g :: Grants(s, t, g)
  }

  /** The step lets in a request of higher priority than `priority`. */
  predicate Overtakes(a: Action, priority: int) {
    a.StartAcquire? && a.priority < priority
  }

  lemma HandOverShortens(q: Queue, x: Entry)
    requires HeapOk(q) && x in q.waiters && Pending(HandOver(q).phases, x.request)
    ensures |Ahead(HandOver(q), x)| < |Ahead(q, x)|
    ensures x in HandOver(q).waiters
  {
    var t := HandOver(q);
    var i := HandOverSpec(q);
    var k :| 0 <= k < |q.waiters| && q.waiters[k] == x;
    var y := q.waiters[i];
    assert i < k && Before(y, x);
    assert t.waiters[k - i - 1] == x;
    forall z | z in Ahead(t, x) ensures z in Ahead(q, x) && z != y {
      var j :| 0 <= j < |t.waiters| && t.waiters[j] == z;
      assert q.waiters[i + 1 + j] == z;
    }
    assert y in Ahead(q, x);
    assert Ahead(t, x) <= Ahead(q, x) - {y};
    SubsetCount(Ahead(t, x), Ahead(q, x) - {y});
  }

  /** While a request waits on, each hand-over takes one live waiter from those before it, and only an
      arrival of higher priority adds one. */
  lemma WaitStep(s: Slot, a: Action, x: Entry)
    requires Inv(s) && Enabled(s, a) && x in s.queue.waiters
    requires Pending(s.queue.phases, x.request) && Pending(Next(s, a).queue.phases, x.request)
    ensures x in Next(s, a).queue.waiters
    ensures |Ahead(Next(s, a).queue, x)| + (if HandsOver(s, Next(s, a)) then 1 else 0)
      <= |Ahead(s.queue, x)| + (if Overtakes(a, x.priority) then 1 else 0)
  {
    var q, t := s.queue, Next(s, a).queue;
    match a
    case StartAcquire(r, p) => ArrivalLengthens(s, r, p, x);
    case Cancel(r) =>
      SubsetCount(Ahead(t, x), Ahead(q, x));
    case Finish(r) => ReleaseShortens(s, r, x);
    case Wake(r) =>
      if q.phases[r].GrantedCancelled? || q.phases[r].FailedCancelled? {
        ReleaseShortens(s, r, x);
      } else {
        SubsetCount(Ahead(t, x), Ahead(q, x));
      }
    case Stop => FailAllSpec(q.phases, q.waiters);
  }

  lemma ArrivalLengthens(s: Slot, r: RequestId, p: int, x: Entry)
    requires Inv(s) && Enabled(s, StartAcquire(r, p)) && x in s.queue.waiters
    ensures var t := Acquire(s.queue, r, p);
      && x in t.waiters && !HandsOver(s, Next(s, StartAcquire(r, p)))
      && |Ahead(t, x)| <= |Ahead(s.queue, x)| + (if p < x.priority then 1 else 0)
  {
    var q, t := s.queue, Acquire(s.queue, r, p);
    var y := Entry(p, q.nextSequence, r);
    InsertKeepsOrder(q.waiters, y);
    if p < x.priority {
      SubsetCount(Ahead(t, x), Ahead(q, x) + {y});
    } else {
      SubsetCount(Ahead(t, x), Ahead(q, x));
    }
  }

  lemma ReleaseShortens(s: Slot, r: RequestId, x: Entry)
    requires HeapOk(s.queue) && x in s.queue.waiters && r in s.queue.phases && !s.queue.phases[r].Waiting?
    requires Pending(Release(s.queue, r).phases, x.request)
    ensures x in Release(s.queue, r).waiters && |Ahead(Release(s.queue, r), x)| < |Ahead(s.queue, x)|
  {
    var q := s.queue.(phases := s.queue.phases[r := Gone]);
    GoneKeepsHeap(s.queue, r);
    HandOverShortens(q, x);
    SubsetCount(Ahead(q, x), Ahead(s.queue, x));
  }

  /** The hand-overs, and the arrivals of higher priority, among the steps from i to m. */
  ghost function HandOvers(states: seq<Slot>, i: nat, m: nat): nat
    requires m < |states|
    decreases m
  {
    if m <= i then 0 else HandOvers(states, i, m - 1) + (if HandsOver(states[m - 1], states[m]) then 1 else 0)
  }

  function Overtakers(actions: seq<Action>, i: nat, m: nat, priority: int): nat
    requires m <= |actions|
    decreases m
  {
    if m <= i then 0
    else Overtakers(actions, i, m - 1, priority) + (if Overtakes(actions[m - 1], priority) then 1 else 0)
  }

  /** A wait is bounded in hand-overs: a request that still waits at step m has seen no more of them since
      it asked than there were live waiters before it, plus later arrivals of higher priority. So after that
      many hand-overs the next one is its own, unless it has withdrawn. */
  lemma {:induction false} WaitIsBounded(states: seq<Slot>, actions: seq<Action>, i: nat, m: nat, r: RequestId,
                                         priority: int)
    requires IsRun(states, actions) && i < m < |states|
    requires actions[i] == StartAcquire(r, priority) && Pending(states[m].queue.phases, r)
    ensures var x := Entry(priority, states[i].queue.nextSequence, r);
      && x in states[m].queue.waiters
      && |Ahead(states[m].queue, x)| + HandOvers(states, i + 1, m)
           <= |Ahead(states[i + 1].queue, x)| + Overtakers(actions, i + 1, m, priority)
    decreases m
  {
    var x := Entry(priority, states[i].queue.nextSequence, r);
    EntryPersists(states, actions, i, m, r, priority);
    if m > i + 1 {
      assert states[i + 1] == Next(states[i], actions[i]);
      StaysKnown(states, actions, i + 1, m - 1);
      WaitedSince(states, actions, m - 1, m, r);
      WaitIsBounded(states, actions, i, m - 1, r, priority);
      RunKeepsInv(states, actions, m - 1);
      WaitStep(states[m - 1], actions[m - 1], x);
    }
  }

  /** With no live waiter before it, a waiting request is the one that the next hand-over grants. */
  lemma NextInLineIsGranted(s: Slot, a: Action, x: Entry)
    requires Inv(s) && Enabled(s, a) && x in s.queue.waiters && Pending(s.queue.phases, x.request)
    requires Ahead(s.queue, x) == {} && HandsOver(s, Next(s, a))
    ensures Grants(s, Next(s, a), x.request)
  {
    var g :| Grants(s, Next(s, a), g);
    var j :| 0 <= j < |s.queue.waiters| && s.queue.waiters[j].request == g;
    var y := s.queue.waiters[j];
    assert Before(y, x) ==> y in Ahead(s.queue, x);
    if y != x {
      GrantsLeastWaiter(s, a, g, y, x);
    }
  }
}
