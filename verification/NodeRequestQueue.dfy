/** The per-node request slot (_NodeRequestQueue, src/pyhems/runtime.py): a mutex granted by
    priority, with direct hand-over and cancellation.

    The class follows the source. The functions on `Queue` say what each atomic step (the code
    between two awaits) does; the theorems are about every run of those steps. */
module NodeRequestQueue {
  /** One call of `acquire`; identifiers are never reused. */
  type RequestId = nat

  /** A queued waiter, ordered by (priority, sequence). */
  datatype Entry = Entry(priority: int, sequence: nat, request: RequestId)

  /** Where a request stands. The future it waits on is pending exactly while it is Waiting. */
  datatype Phase =
    | Waiting            // in `acquire`, its future pending
    | Withdrawn          // cancelled while waiting: future cancelled, coroutine not yet resumed
    | Granted            // future resolved by `release`, coroutine not yet resumed
    | GrantedCancelled   // the same, and cancelled before resuming
    | Holding            // past `acquire`, has not called `release` yet
    | Failed             // failed by `fail_waiters`, not yet resumed
    | FailedCancelled    // the same, and cancelled before resuming
    | Gone               // left: released, raised or failed

  datatype Queue = Queue(busy: bool, waiters: seq<Entry>, nextSequence: nat, phases: map<RequestId, Phase>)

  predicate Before(a: Entry, b: Entry) {
    a.priority < b.priority || (a.priority == b.priority && a.sequence < b.sequence)
  }

  predicate Pending(phases: map<RequestId, Phase>, r: RequestId) {
    r in phases && phases[r].Waiting?
  }

  // ---- Atomic steps ----

  const NEW_QUEUE := Queue(false, [], 0, map[])

  /** Pushing onto the heap, kept here in the order in which entries will be popped. */
  function Insert(waiters: seq<Entry>, x: Entry): (r: seq<Entry>)
    ensures multiset(r) == multiset(waiters) + multiset{x}
  {
    if waiters == [] || Before(x, waiters[0]) then [x] + waiters
    else
      assert waiters == [waiters[0]] + waiters[1..];
      [waiters[0]] + Insert(waiters[1..], x)
  }

  lemma InsertLater(waiters: seq<Entry>, x: Entry, i: nat)
    requires i < |waiters| && !Before(x, waiters[i])
    ensures waiters[..i] + Insert(waiters[i..], x) == waiters[..i + 1] + Insert(waiters[i + 1..], x)
  {
    var rest := Insert(waiters[i + 1..], x);
    assert waiters[i..][1..] == waiters[i + 1..];
    assert Insert(waiters[i..], x) == [waiters[i]] + rest;
    assert waiters[..i + 1] == waiters[..i] + [waiters[i]];
    assert waiters[..i] + ([waiters[i]] + rest) == (waiters[..i] + [waiters[i]]) + rest;
  }

  predicate Idle(q: Queue) {
    !q.busy && q.waiters == []
  }

  function Acquire(q: Queue, r: RequestId, priority: int): Queue {
    if Idle(q) then q.(busy := true, phases := q.phases[r := Holding])
    else q.(waiters := Insert(q.waiters, Entry(priority, q.nextSequence, r)),
            nextSequence := q.nextSequence + 1,
            phases := q.phases[r := Waiting])
  }

  /** Pop entries until one is still waiting, and grant it. */
  function HandOver(q: Queue): Queue
    decreases |q.waiters|
  {
    if q.waiters == [] then q.(busy := false)
    else
      var r := q.waiters[0].request;
      if Pending(q.phases, r) then q.(waiters := q.waiters[1..], phases := q.phases[r := Granted])
      else HandOver(q.(waiters := q.waiters[1..]))
  }

  /** The holder leaves. */
  function Release(q: Queue, r: RequestId): Queue {
    HandOver(q.(phases := q.phases[r := Gone]))
  }

  /** Cancelling the task that awaits in `acquire`: a pending future is cancelled with it. */
  function CancelAcquire(q: Queue, r: RequestId): Queue
    requires r in q.phases
  {
    match q.phases[r]
    case Waiting => q.(phases := q.phases[r := Withdrawn])
    case Granted => q.(phases := q.phases[r := GrantedCancelled])
    case Failed => q.(phases := q.phases[r := FailedCancelled])
    case _ => q
  }

  /** The task resumes inside `acquire`. */
  function Resume(q: Queue, r: RequestId): Queue
    requires r in q.phases
  {
    match q.phases[r]
    case Granted => q.(phases := q.phases[r := Holding])
    case Withdrawn => q.(phases := q.phases[r := Gone])
    case Failed => q.(phases := q.phases[r := Gone])
    case GrantedCancelled => Release(q, r)  // the slot had been handed over: pass it on
    case FailedCancelled => Release(q, r)   // a future that is done and not cancelled looks the same
    case _ => q
  }

  function FailAll(phases: map<RequestId, Phase>, waiters: seq<Entry>): map<RequestId, Phase> {
    if waiters == [] then phases
    else
      var last := |waiters| - 1;
      var failed := FailAll(phases, waiters[..last]);
      if Pending(failed, waiters[last].request) then failed[waiters[last].request := Failed] else failed
  }

  function FailWaiters(q: Queue): Queue {
    q.(waiters := [], phases := FailAll(q.phases, q.waiters))
  }

  /** The queue object. `phases` stands for the futures and the tasks awaiting them. */
  class RequestQueue {
    var busy: bool
    var waiters: seq<Entry>
    var nextSequence: nat
    var phases: map<RequestId, Phase>

    function Model(): Queue
      reads this
    {
      Queue(busy, waiters, nextSequence, phases)
    }

    constructor ()
      ensures Model() == NEW_QUEUE
    {
      busy, waiters, nextSequence, phases := false, [], 0, map[];
    }

    method Push(x: Entry)
      modifies `waiters
      ensures waiters == Insert(old(waiters), x)
    {
      var i := 0;
      while i < |waiters| && !Before(x, waiters[i])
        invariant i <= |waiters| && waiters == old(waiters)
        invariant Insert(waiters, x) == waiters[..i] + Insert(waiters[i..], x)
      {
        InsertLater(waiters, x, i);
        i := i + 1;
      }
      assert Insert(waiters[i..], x) == [x] + waiters[i..];
      waiters := waiters[..i] + ([x] + waiters[i..]);
    }

    /** The part of `acquire` before its await; the request holds the slot or waits. */
    method BeginAcquire(r: RequestId, priority: int)
      modifies this
      ensures Model() == Acquire(old(Model()), r, priority)
    {
      if !busy && waiters == [] {
        busy := true;
        phases := phases[r := Holding];
        return;
      }
      Push(Entry(priority, nextSequence, r));
      nextSequence := nextSequence + 1;
      phases := phases[r := Waiting];
    }

    /** `release`: the first waiter whose future is still pending gets the slot; without one it is free. */
    method ReleaseSlot()
      modifies this
      ensures Model() == HandOver(old(Model()))
    {
      ghost var q := Model();
      while waiters != []
        invariant HandOver(Model()) == HandOver(q)
        decreases |waiters|
      {
        var r := waiters[0].request;
        waiters := waiters[1..];
        if Pending(phases, r) {
          phases := phases[r := Granted];
          return;
        }
      }
      busy := false;
    }

    /** The part of `acquire` after its await. */
    method EndAcquire(r: RequestId)
      requires r in phases
      modifies this
      ensures Model() == Resume(old(Model()), r)
    {
      match phases[r] {
        case Granted =>
          phases := phases[r := Holding];
        case Withdrawn =>
          phases := phases[r := Gone];
        case Failed =>
          phases := phases[r := Gone];
        case GrantedCancelled =>
          phases := phases[r := Gone];
          ReleaseSlot();
        case FailedCancelled =>
          phases := phases[r := Gone];
          ReleaseSlot();
        case _ =>
      }
    }

    method FailWaitingRequests()
      modifies this
      ensures Model() == FailWaiters(old(Model()))
    {
      ghost var before := phases;
      for i := 0 to |waiters|
        invariant waiters == old(waiters) && busy == old(busy) && nextSequence == old(nextSequence)
        invariant phases == FailAll(before, waiters[..i])
      {
        assert waiters[..i + 1][..i] == waiters[..i];
        if Pending(phases, waiters[i].request) {
          phases := phases[waiters[i].request := Failed];
        }
      }
      assert waiters[..|waiters|] == waiters;
      waiters := [];
    }
  }
}
