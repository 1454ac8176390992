/** Requests in flight (HemsClient._send_request, the matching part of _process_frame and
    _matches_request, src/pyhems/runtime.py), over one session between start and stop.

    Each action below is the code one coroutine runs between two awaits, so every interleaving of
    the client's requests is a sequence of actions. */
module RequestTable {
  import opened Basics
  import opened FrameCodec
  import opened NodeRequestQueue
  import opened SlotRuns
  import opened TransactionIds

  type Address = nat

  /** The arguments of one call of `_send_request`. */
  datatype Params = Params(address: Address, deoj: Eoj, seoj: Eoj, responseEsvs: set<Esv>)

  /** An entry of `_pending`, keyed by its TID. */
  datatype PendingRequest = PendingRequest(params: Params, request: RequestId)

  /** A received frame, numbered in the order of arrival. */
  datatype Delivery = Delivery(frame: Frame, source: Address, arrival: nat)

  /** A request between its registration in `_pending` and the end of its `finally` block: its TID, the
      number of steps the TID counter had made by then, and the response once delivered. */
  datatype Sent = Sent(tid: nat, stamp: nat, response: Option<Delivery>)

  datatype Client = Client(
    nodeQueues: map<Address, Queue>,
    pending: map<nat, PendingRequest>,
    counter: nat,
    // bookkeeping of the model: coroutine locals, frame numbers, and what requests returned
    params: map<RequestId, Params>,
    sent: map<RequestId, Sent>,
    returned: map<RequestId, Sent>,
    stamp: nat,
    arrivals: nat)

  const NEW_CLIENT := Client(map[], map[], 0, map[], map[], map[], 0, 0)

  datatype Action =
    | Begin(request: RequestId, params: Params, priority: int, sendOk: bool)
    | Resumed(request: RequestId, sendOk: bool)
    | Cancelled(request: RequestId)
    | Received(frame: Frame, source: Address)
    | Drawn  // a TID is taken without an entry: discovery probes, and frames passed to `send`
    | Ended(request: RequestId)  // response, timeout or cancellation: the `finally` block runs

  function QueueAt(c: Client, a: Address): Queue {
    if a in c.nodeQueues then c.nodeQueues[a] else NEW_QUEUE
  }

  predicate MatchesRequest(f: Frame, source: Address, p: Params) {
    source == p.address && f.seoj == p.deoj && f.deoj == p.seoj
  }

  /** The `finally` block: drop the table entry, release the slot (leaving `q`), and forget the queue
      if it is idle. */
  function LeaveWith(c: Client, r: RequestId, q: Queue): Client
    requires r in c.params
  {
    var a := c.params[r].address;
    c.(pending := if r in c.sent then c.pending - {c.sent[r].tid} else c.pending,
       sent := c.sent - {r},
       returned := if r in c.sent then c.returned[r := c.sent[r]] else c.returned,
       nodeQueues := if Idle(q) then c.nodeQueues - {a} else c.nodeQueues[a := q])
  }

  function Leave(c: Client, r: RequestId): Client
    requires r in c.params && c.params[r].address in c.nodeQueues
  {
    LeaveWith(c, r, Release(c.nodeQueues[c.params[r].address], r))
  }

  /** Registration of a request that has been allowed to send. */
  function Register(c: Client, r: RequestId, tid: nat, steps: nat): Client
    requires r in c.params
  {
    c.(pending := c.pending[tid := PendingRequest(c.params[r], r)],
       sent := c.sent[r := Sent(tid, c.stamp + steps, None)],
       counter := tid, stamp := c.stamp + steps)
  }

  /** From the end of `acquire` to the next await. */
  function Transmit(c: Client, r: RequestId, sendOk: bool): Client
    requires r in c.params && c.params[r].address in c.nodeQueues
  {
    match FindFree(c.counter, c.pending.Keys, MAX_TID)
    case Exhausted(n) => Leave(c.(counter := n, stamp := c.stamp + MAX_TID), r)
    case Found(tid, steps) =>
      var d := Register(c, r, tid, steps);
      if sendOk then d else Leave(d, r)
  }

  /** A TID is drawn, and nothing is registered for it. */
  function Draw(c: Client): Client {
    match FindFree(c.counter, c.pending.Keys, MAX_TID)
    case Exhausted(n) => c.(counter := n, stamp := c.stamp + MAX_TID)
    case Found(tid, steps) => c.(counter := tid, stamp := c.stamp + steps)
  }

  predicate IsPending(c: Client, f: Frame, source: Address) {
    f.tid in c.pending
    && f.esv in c.pending[f.tid].params.responseEsvs
    && MatchesRequest(f, source, c.pending[f.tid].params)
  }

  predicate IsEnabled(c: Client, a: Action) {
    match a
    case Begin(r, _, _, _) => r !in c.params
    case Resumed(r, _) => r in c.params && c.params[r].address in c.nodeQueues
      && Enabled(Slot(c.nodeQueues[c.params[r].address], false, false), Wake(r))
    case Cancelled(r) => r in c.params && c.params[r].address in c.nodeQueues
      && Enabled(Slot(c.nodeQueues[c.params[r].address], false, false), Cancel(r))
    case Received(f, _) => f.tid >= 0
    case Drawn => true
    case Ended(r) => r in c.sent && r in c.params && c.params[r].address in c.nodeQueues
  }

  function Step(c: Client, a: Action): Client
    requires IsEnabled(c, a)
  {
    match a
    case Begin(r, p, priority, sendOk) =>
      var q := Acquire(QueueAt(c, p.address), r, priority);
      var d := c.(nodeQueues := c.nodeQueues[p.address := q], params := c.params[r := p]);
      if q.phases[r].Holding? then Transmit(d, r, sendOk) else d
    case Resumed(r, sendOk) =>
      var a := c.params[r].address;
      var q := Resume(c.nodeQueues[a], r);
      var d := c.(nodeQueues := c.nodeQueues[a := q]);
      if r in q.phases && q.phases[r].Holding? then Transmit(d, r, sendOk) else d
    case Cancelled(r) =>
      var a := c.params[r].address;
      c.(nodeQueues := c.nodeQueues[a := CancelAcquire(c.nodeQueues[a], r)])
    case Received(f, source) =>
      var d := c.(arrivals := c.arrivals + 1);
      if IsPending(c, f, source) then
        var r := c.pending[f.tid].request;
        d.(pending := c.pending - {f.tid},
           sent := if r in c.sent then c.sent[r := c.sent[r].(response := Some(Delivery(f, source, c.arrivals)))]
                   else c.sent)
      else d
    case Drawn => Draw(c)
    case Ended(r) => Leave(c, r)
  }

  // ---- Invariant ----

  ghost predicate QueueOk(q: Queue) {
    Inv(Slot(q, false, false))
  }

  predicate Holds(c: Client, a: Address, r: RequestId) {
    a in c.nodeQueues && r in c.nodeQueues[a].phases && c.nodeQueues[a].phases[r].Holding?
  }

  ghost predicate AllQueuesOk(queues: map<Address, Queue>, params: map<RequestId, Params>) {
    && (forall a :: a in queues ==> QueueOk(queues[a]))
    && (forall a, r :: a in queues && r in queues[a].phases ==> r in params && params[r].address == a)
  }

  ghost predicate QueuesOk(c: Client) {
    AllQueuesOk(c.nodeQueues, c.params)
  }

  /** Holding a node's slot and being in flight are the same, but for exempt requests. */
  ghost predicate InFlightOk(c: Client, exempt: set<RequestId>) {
    && (forall r :: r in c.sent ==> r in c.params && Holds(c, c.params[r].address, r))
    && (forall a, r :: Holds(c, a, r) && r !in exempt ==> r in c.sent)
  }

  /** Every table entry belongs to a request that is in flight, unanswered, and has that TID. */
  ghost predicate TableOk(c: Client) {
    forall t :: t in c.pending ==>
      var r := c.pending[t].request;
      && r in c.sent && r in c.params && c.sent[r].tid == t && c.sent[r].response.None?
      && c.pending[t].params == c.params[r]
  }

  ghost predicate Answers(p: Params, s: Sent, arrivals: nat) {
    s.response.Some? ==>
      var d := s.response.value;
      && d.frame.tid == s.tid && d.frame.esv in p.responseEsvs && MatchesRequest(d.frame, d.source, p)
      && d.arrival < arrivals
  }

  predicate Apart(a: Sent, b: Sent) {
    a.response.Some? && b.response.Some? ==> a.response.value.arrival != b.response.value.arrival
  }

  /** The frames that requests have been given, in flight or returned. */
  ghost predicate ResponsesOk(c: Client) {
    && (forall r :: r in c.sent ==> r in c.params && Answers(c.params[r], c.sent[r], c.arrivals))
    && (forall r :: r in c.returned ==> r in c.params && Answers(c.params[r], c.returned[r], c.arrivals))
    && (forall r, s :: r in c.sent && s in c.sent && r != s ==> Apart(c.sent[r], c.sent[s]))
    && (forall r, s :: r in c.returned && s in c.returned && r != s ==> Apart(c.returned[r], c.returned[s]))
    && (forall r, s :: r in c.sent && s in c.returned ==> Apart(c.sent[r], c.returned[s]))
  }

  /** Between actions nothing is exempt; while a coroutine runs, it may hold the slot without being in
      flight. */
  ghost predicate ClientOkBut(c: Client, exempt: set<RequestId>) {
    QueuesOk(c) && InFlightOk(c, exempt) && TableOk(c) && ResponsesOk(c)
  }

  ghost predicate ClientOk(c: Client) {
    ClientOkBut(c, {})
  }

  // ---- Each step keeps it ----

  /** A hand-over changes who holds the slot for nobody; it only grants. */
  lemma ReleaseHolders(q: Queue, r: RequestId, s: RequestId)
    requires QueueOk(q) && r in q.phases && q.phases[r].Holding?
    ensures var t := Release(q, r);
      && QueueOk(t) && t.phases.Keys == q.phases.Keys
      && (t.phases[r].Holding? ==> false)
      && (s in q.phases && s != r ==> (t.phases[s].Holding? <==> q.phases[s].Holding?))
  {
    NextKeepsInv(Slot(q, false, false), Finish(r));
    var _ := HandOverSpec(q.(phases := q.phases[r := Gone]));
  }

  /** An idle queue has no owner, so dropping it loses nobody. */
  lemma IdleHasNoHolder(q: Queue, s: RequestId)
    requires QueueOk(q) && Idle(q)
    ensures s in q.phases ==> !q.phases[s].Holding?
  {
    assert s in Owners(q) <==> s in q.phases && IsOwner(q.phases[s]);
  }

  lemma OneHolder(q: Queue, r: RequestId, s: RequestId)
    requires QueueOk(q) && r in q.phases && q.phases[r].Holding? && s in q.phases && q.phases[s].Holding?
    ensures r == s
  {
    assert r in Owners(q) && s in Owners(q);
  }

  /** `t` is `q` with nobody's holding changed but r's, which has ended. */
  ghost predicate HolderLeft(q: Queue, t: Queue, r: RequestId) {
    && QueueOk(q) && QueueOk(t) && t.phases.Keys == q.phases.Keys
    && r in q.phases && q.phases[r].Holding?
    && (forall s :: s in q.phases ==> (t.phases[s].Holding? <==> q.phases[s].Holding? && s != r))
  }

  lemma LeaveQueues(c: Client, r: RequestId, q: Queue)
    requires QueuesOk(c) && r in c.params && c.params[r].address in c.nodeQueues
    requires HolderLeft(c.nodeQueues[c.params[r].address], q, r)
    ensures QueuesOk(LeaveWith(c, r, q))
  {
    PutQueue(c.nodeQueues, c.params, c.params[r].address, q);
    DropQueue(c.nodeQueues, c.params, c.params[r].address);
  }

  lemma PutQueue(queues: map<Address, Queue>, params: map<RequestId, Params>, a: Address, q: Queue)
    requires AllQueuesOk(queues, params)
    requires QueueOk(q) && forall r :: r in q.phases ==> r in params && params[r].address == a
    ensures AllQueuesOk(queues[a := q], params)
  {
  }

  lemma DropQueue(queues: map<Address, Queue>, params: map<RequestId, Params>, a: Address)
    requires AllQueuesOk(queues, params)
    ensures AllQueuesOk(queues - {a}, params)
  {
  }

  lemma LeaveInFlight(c: Client, r: RequestId, q: Queue)
    requires QueuesOk(c) && InFlightOk(c, {r}) && r in c.params && c.params[r].address in c.nodeQueues
    requires HolderLeft(c.nodeQueues[c.params[r].address], q, r)
    ensures InFlightOk(LeaveWith(c, r, q), {})
  {
    var d := LeaveWith(c, r, q);
    forall b, s ensures Holds(d, b, s) <==> Holds(c, b, s) && s != r {
      LeaveHoldsElsewhere(c, r, q, b, s);
    }
  }

  lemma LeaveHoldsElsewhere(c: Client, r: RequestId, q: Queue, b: Address, s: RequestId)
    requires QueuesOk(c) && r in c.params && c.params[r].address in c.nodeQueues
    requires HolderLeft(c.nodeQueues[c.params[r].address], q, r)
    ensures Holds(LeaveWith(c, r, q), b, s) <==> Holds(c, b, s) && s != r
  {
    if b == c.params[r].address {
      LeaveHolds(c, r, q, s);
    } else {
      assert Holds(c, b, s) ==> c.params[s].address == b;
    }
  }

  lemma LeaveHolds(c: Client, r: RequestId, q: Queue, s: RequestId)
    requires r in c.params && c.params[r].address in c.nodeQueues
    requires HolderLeft(c.nodeQueues[c.params[r].address], q, r)
    ensures var a := c.params[r].address; Holds(LeaveWith(c, r, q), a, s) <==> Holds(c, a, s) && s != r
  {
    var a := c.params[r].address;
    if s in q.phases && c.nodeQueues[a].phases[s].Holding? {
      OneHolder(c.nodeQueues[a], r, s);
    }
    if Idle(q) {
      IdleHasNoHolder(q, s);
    }
  }

  lemma LeaveTable(c: Client, r: RequestId, q: Queue)
    requires TableOk(c) && r in c.params
    ensures TableOk(LeaveWith(c, r, q))
  {
    var d := LeaveWith(c, r, q);
    forall t | t in d.pending ensures d.pending[t].request in d.sent {
      assert t in c.pending && c.sent[c.pending[t].request].tid == t;
    }
  }

  lemma LeaveResponses(c: Client, r: RequestId, q: Queue)
    requires ResponsesOk(c) && r in c.params
    ensures ResponsesOk(LeaveWith(c, r, q))
  {
    var d := LeaveWith(c, r, q);
    forall s | s in d.returned ensures s in d.params && Answers(d.params[s], d.returned[s], d.arrivals) {}
    forall s, u | s in d.returned && u in d.returned && s != u ensures Apart(d.returned[s], d.returned[u]) {}
    forall s, u | s in d.sent && u in d.returned ensures Apart(d.sent[s], d.returned[u]) {}
  }

  lemma LeaveKeeps(c: Client, r: RequestId)
    requires ClientOkBut(c, {r}) && r in c.params && Holds(c, c.params[r].address, r)
    ensures ClientOk(Leave(c, r))
  {
    var before := c.nodeQueues[c.params[r].address];
    var q := Release(before, r);
    ReleaseHolders(before, r, r);
    forall s | s in before.phases ensures q.phases[s].Holding? <==> before.phases[s].Holding? && s != r {
      ReleaseHolders(before, r, s);
    }
    LeaveQueues(c, r, q);
    LeaveInFlight(c, r, q);
    LeaveTable(c, r, q);
    LeaveResponses(c, r, q);
  }

  lemma RegisterKeeps(c: Client, r: RequestId, tid: nat, steps: pos)
    requires ClientOkBut(c, {r}) && r in c.params && Holds(c, c.params[r].address, r) && r !in c.sent
    requires tid !in c.pending
    ensures ClientOk(Register(c, r, tid, steps))
  {
    RegisterInFlight(c, r, tid, steps);
    RegisterTable(c, r, tid, steps);
    RegisterResponses(c, r, tid, steps);
  }

  lemma RegisterInFlight(c: Client, r: RequestId, tid: nat, steps: pos)
    requires QueuesOk(c) && InFlightOk(c, {r}) && r in c.params && Holds(c, c.params[r].address, r)
    ensures QueuesOk(Register(c, r, tid, steps)) && InFlightOk(Register(c, r, tid, steps), {})
  {
    forall a, s ensures Holds(Register(c, r, tid, steps), a, s) <==> Holds(c, a, s) {}
  }

  lemma RegisterTable(c: Client, r: RequestId, tid: nat, steps: pos)
    requires TableOk(c) && r in c.params && r !in c.sent && tid !in c.pending
    ensures TableOk(Register(c, r, tid, steps))
  {
  }

  lemma RegisterResponses(c: Client, r: RequestId, tid: nat, steps: pos)
    requires ResponsesOk(c) && r in c.params && r !in c.sent
    ensures ResponsesOk(Register(c, r, tid, steps))
  {
  }

  /** `t` is `q` after a step of request r: nobody else's holding has changed. */
  ghost predicate OthersHoldAsBefore(q: Queue, t: Queue, r: RequestId) {
    && QueueOk(t)
    && (forall s :: s in t.phases && s != r ==> s in q.phases)
    && (forall s :: s in q.phases && s != r ==> s in t.phases && (t.phases[s].Holding? <==> q.phases[s].Holding?))
  }

  lemma NewQueueOk()
    ensures QueueOk(NEW_QUEUE)
  {
    assert Owners(NEW_QUEUE) == {};
  }

  lemma AcquireHolders(q: Queue, r: RequestId, priority: int)
    requires QueueOk(q) && r !in q.phases
    ensures OthersHoldAsBefore(q, Acquire(q, r, priority), r) && r in Acquire(q, r, priority).phases
  {
    NextKeepsInv(Slot(q, false, false), StartAcquire(r, priority));
  }

  lemma ResumeHolders(q: Queue, r: RequestId)
    requires QueueOk(q) && Enabled(Slot(q, false, false), Wake(r))
    ensures OthersHoldAsBefore(q, Resume(q, r), r) && r in Resume(q, r).phases
  {
    NextKeepsInv(Slot(q, false, false), Wake(r));
    var _ := HandOverSpec(q.(phases := q.phases[r := Gone]));
  }

  lemma CancelHolders(q: Queue, r: RequestId)
    requires QueueOk(q) && Enabled(Slot(q, false, false), Cancel(r))
    ensures OthersHoldAsBefore(q, CancelAcquire(q, r), r) && !CancelAcquire(q, r).phases[r].Holding?
  {
    NextKeepsInv(Slot(q, false, false), Cancel(r));
  }

  function WithQueue(c: Client, a: Address, t: Queue, params: map<RequestId, Params>): Client {
    c.(nodeQueues := c.nodeQueues[a := t], params := params)
  }

  lemma ChangeQueue(c: Client, a: Address, t: Queue, r: RequestId, params: map<RequestId, Params>)
    requires ClientOk(c) && r !in c.sent && OthersHoldAsBefore(QueueAt(c, a), t, r)
    requires r in params && params[r].address == a
    requires params == c.params || (r !in c.params && params == c.params[r := params[r]])
    ensures ClientOkBut(WithQueue(c, a, t, params), {r})
  {
    var d := WithQueue(c, a, t, params);
    PutQueueFor(c, a, t, r, params);
    ChangeInFlight(c, a, t, r, params);
    assert forall s :: s in c.params ==> s in params && params[s] == c.params[s];
    ParamsGrow(c, d);
    TableParamsGrow(c, d);
  }

  lemma ChangeInFlight(c: Client, a: Address, t: Queue, r: RequestId, params: map<RequestId, Params>)
    requires InFlightOk(c, {}) && r !in c.sent && OthersHoldAsBefore(QueueAt(c, a), t, r)
    requires forall s :: s in c.params && s != r ==> s in params && params[s] == c.params[s]
    ensures InFlightOk(WithQueue(c, a, t, params), {r})
  {
    var d := WithQueue(c, a, t, params);
    forall b, s | s != r ensures Holds(d, b, s) <==> Holds(c, b, s) {}
  }

  lemma TableParamsGrow(c: Client, d: Client)
    requires TableOk(c) && d == c.(nodeQueues := d.nodeQueues, params := d.params)
    requires forall s :: s in c.params ==> s in d.params && d.params[s] == c.params[s]
    ensures TableOk(d)
  {
  }

  lemma PutQueueFor(c: Client, a: Address, t: Queue, r: RequestId, params: map<RequestId, Params>)
    requires QueuesOk(c) && OthersHoldAsBefore(QueueAt(c, a), t, r)
    requires r in params && params[r].address == a
    requires params == c.params || (r !in c.params && params == c.params[r := params[r]])
    ensures QueuesOk(WithQueue(c, a, t, params))
  {
    assert AllQueuesOk(c.nodeQueues, params);
    PutQueue(c.nodeQueues, params, a, t);
  }

  lemma ParamsGrow(c: Client, d: Client)
    requires ResponsesOk(c) && d == c.(nodeQueues := d.nodeQueues, params := d.params)
    requires forall s :: s in c.params ==> s in d.params && d.params[s] == c.params[s]
    ensures ResponsesOk(d)
  {
  }

  lemma FoundIsFree(counter: nat, used: set<nat>)
    ensures var search := FindFree(counter, used, MAX_TID); search.Found? ==> search.tid !in used
  {
    FoundIsFirstFree(counter, used, MAX_TID);
  }

  lemma TransmitKeeps(c: Client, r: RequestId, sendOk: bool)
    requires ClientOkBut(c, {r}) && r in c.params && Holds(c, c.params[r].address, r) && r !in c.sent
    ensures ClientOk(Transmit(c, r, sendOk))
  {
    TransmitUnfolds(c, r, sendOk);
    var search := FindFree(c.counter, c.pending.Keys, MAX_TID);
    if search.Exhausted? {
      var d := c.(counter := search.counter, stamp := c.stamp + MAX_TID);
      OnlyCounter(c, d, {r});
      LeaveKeeps(d, r);
    } else {
      FoundIsFree(c.counter, c.pending.Keys);
      SentKeeps(c, r, search.tid, search.steps, sendOk);
    }
  }

  lemma SentKeeps(c: Client, r: RequestId, tid: nat, steps: pos, sendOk: bool)
    requires ClientOkBut(c, {r}) && r in c.params && Holds(c, c.params[r].address, r) && r !in c.sent
    requires tid !in c.pending
    ensures ClientOk(if sendOk then Register(c, r, tid, steps) else Leave(Register(c, r, tid, steps), r))
  {
    var d := Register(c, r, tid, steps);
    RegisterKeeps(c, r, tid, steps);
    if !sendOk {
      assert ClientOkBut(d, {r});
      LeaveKeeps(d, r);
    }
  }

  lemma BeginUnfolds(c: Client, r: RequestId, p: Params, priority: int, sendOk: bool)
    requires r !in c.params
    ensures var q := Acquire(QueueAt(c, p.address), r, priority);
      var d := c.(nodeQueues := c.nodeQueues[p.address := q], params := c.params[r := p]);
      Step(c, Begin(r, p, priority, sendOk)) == if q.phases[r].Holding? then Transmit(d, r, sendOk) else d
  {
  }

  lemma TransmitUnfolds(c: Client, r: RequestId, sendOk: bool)
    requires r in c.params && c.params[r].address in c.nodeQueues
    ensures var search := FindFree(c.counter, c.pending.Keys, MAX_TID);
      Transmit(c, r, sendOk) ==
        if search.Exhausted? then Leave(c.(counter := search.counter, stamp := c.stamp + MAX_TID), r)
        else if sendOk then Register(c, r, search.tid, search.steps)
        else Leave(Register(c, r, search.tid, search.steps), r)
  {
  }

  lemma OnlyCounter(c: Client, d: Client, exempt: set<RequestId>)
    requires ClientOkBut(c, exempt) && d == c.(counter := d.counter, stamp := d.stamp)
    ensures ClientOkBut(d, exempt)
    ensures forall a, s :: Holds(d, a, s) <==> Holds(c, a, s)
  {
    forall a, s ensures Holds(d, a, s) <==> Holds(c, a, s) {}
  }

  lemma ReceivedKeeps(c: Client, f: Frame, source: Address)
    requires ClientOk(c) && f.tid >= 0
    ensures ClientOk(Step(c, Received(f, source)))
  {
    ReceivedInFlight(c, f, source);
    ReceivedTable(c, f, source);
    ReceivedResponses(c, f, source);
  }

  lemma ReceivedInFlight(c: Client, f: Frame, source: Address)
    requires InFlightOk(c, {}) && f.tid >= 0
    ensures InFlightOk(Step(c, Received(f, source)), {})
  {
    var d := Step(c, Received(f, source));
    forall a, s ensures Holds(d, a, s) <==> Holds(c, a, s) {}
    assert d.sent.Keys == c.sent.Keys;
  }

  lemma ReceivedTable(c: Client, f: Frame, source: Address)
    requires TableOk(c) && f.tid >= 0
    ensures TableOk(Step(c, Received(f, source)))
  {
    var d := Step(c, Received(f, source));
    if IsPending(c, f, source) {
      var r := c.pending[f.tid].request;
      forall t | t in d.pending ensures d.pending[t].request in d.sent && d.pending[t].request != r {
        assert t in c.pending;
      }
    }
  }

  lemma ReceivedResponses(c: Client, f: Frame, source: Address)
    requires TableOk(c) && ResponsesOk(c) && f.tid >= 0
    ensures ResponsesOk(Step(c, Received(f, source)))
  {
    var d := Step(c, Received(f, source));
    if IsPending(c, f, source) {
      DeliveredResponses(c, c.pending[f.tid].request, Delivery(f, source, c.arrivals), d);
    }
  }

  lemma DeliveredResponses(c: Client, r: RequestId, x: Delivery, d: Client)
    requires ResponsesOk(c) && r in c.sent && r in c.params && x.arrival == c.arrivals
    requires x.frame.tid == c.sent[r].tid && x.frame.esv in c.params[r].responseEsvs
    requires MatchesRequest(x.frame, x.source, c.params[r])
    requires d.sent == c.sent[r := c.sent[r].(response := Some(x))]
    requires d.params == c.params && d.returned == c.returned && d.arrivals == c.arrivals + 1
    ensures ResponsesOk(d)
  {
    forall s, u | s in d.sent && u in d.sent && s != u ensures Apart(d.sent[s], d.sent[u]) {
      assert Answers(c.params[s], c.sent[s], c.arrivals) && Answers(c.params[u], c.sent[u], c.arrivals);
      assert Apart(c.sent[s], c.sent[u]);
    }
    forall s, u | s in d.sent && u in d.returned ensures Apart(d.sent[s], d.returned[u]) {
      assert Answers(c.params[u], c.returned[u], c.arrivals);
      assert Apart(c.sent[s], c.returned[u]);
    }
  }

  lemma StepKeeps(c: Client, a: Action)
    requires ClientOk(c) && IsEnabled(c, a)
    ensures ClientOk(Step(c, a))
  {
    match a
    case Begin(r, p, priority, sendOk) => BeginKeeps(c, r, p, priority, sendOk);
    case Resumed(r, sendOk) => ResumedKeeps(c, r, sendOk);
    case Cancelled(r) =>
      var b := c.params[r].address;
      CancelHolders(c.nodeQueues[b], r);
      assert !Holds(c, b, r);
      var q := CancelAcquire(c.nodeQueues[b], r);
      ChangeQueue(c, b, q, r, c.params);
      NotHolding(WithQueue(c, b, q, c.params), r);
    case Received(f, source) => ReceivedKeeps(c, f, source);
    case Drawn => OnlyCounter(c, Draw(c), {});
    case Ended(r) => LeaveKeeps(c, r);
  }

  /** A request that does not hold its node's slot needs no exemption. */
  lemma NotHolding(c: Client, r: RequestId)
    requires ClientOkBut(c, {r}) && r in c.params && !Holds(c, c.params[r].address, r)
    ensures ClientOk(c)
  {
    forall a, s | Holds(c, a, s) ensures s in c.sent {
      assert c.params[s].address == a;
    }
  }

  lemma BeginKeeps(c: Client, r: RequestId, p: Params, priority: int, sendOk: bool)
    requires ClientOk(c) && IsEnabled(c, Begin(r, p, priority, sendOk))
    ensures ClientOk(Step(c, Begin(r, p, priority, sendOk)))
  {
    EnterKeeps(c, r, p, priority);
    var q := Acquire(QueueAt(c, p.address), r, priority);
    var d := WithQueue(c, p.address, q, c.params[r := p]);
    if q.phases[r].Holding? {
      TransmitKeeps(d, r, sendOk);
    } else {
      NotHolding(d, r);
    }
  }

  lemma EnterKeeps(c: Client, r: RequestId, p: Params, priority: int)
    requires ClientOk(c) && r !in c.params
    ensures var q := Acquire(QueueAt(c, p.address), r, priority);
      ClientOkBut(WithQueue(c, p.address, q, c.params[r := p]), {r})
  {
    NewQueueOk();
    var before := QueueAt(c, p.address);
    AcquireHolders(before, r, priority);
    ChangeQueue(c, p.address, Acquire(before, r, priority), r, c.params[r := p]);
  }

  lemma ResumedKeeps(c: Client, r: RequestId, sendOk: bool)
    requires ClientOk(c) && IsEnabled(c, Resumed(r, sendOk))
    ensures ClientOk(Step(c, Resumed(r, sendOk)))
  {
    var a := c.params[r].address;
    ResumeHolders(c.nodeQueues[a], r);
    assert !Holds(c, a, r);
    var q := Resume(c.nodeQueues[a], r);
    ChangeQueue(c, a, q, r, c.params);
    var d := WithQueue(c, a, q, c.params);
    if q.phases[r].Holding? {
      TransmitKeeps(d, r, sendOk);
    } else {
      NotHolding(d, r);
    }
  }

  // ---- Every run of a session ----

  ghost predicate IsSession(states: seq<Client>, actions: seq<Action>) {
    && |states| == |actions| + 1
    && states[0] == NEW_CLIENT
    && (forall i :: 0 <= i < |actions| ==> IsEnabled(states[i], actions[i]) && states[i + 1] == Step(states[i], actions[i]))
  }

  lemma {:induction false} SessionKeeps(states: seq<Client>, actions: seq<Action>, i: nat)
    requires IsSession(states, actions) && i < |states|
    ensures ClientOk(states[i])
  {
    if i > 0 {
      SessionKeeps(states, actions, i - 1);
      StepKeeps(states[i - 1], actions[i - 1]);
    }
  }

  /** One outstanding request per node: over any interleaving of a session, `_pending` never holds two
      entries for one address, and no more than one request per address is in flight. */
  lemma OneRequestPerNode(states: seq<Client>, actions: seq<Action>, i: nat)
    requires IsSession(states, actions) && i < |states|
    ensures var c := states[i];
      && c.sent.Keys <= c.params.Keys
      && (forall r, s :: r in c.sent && s in c.sent && c.params[r].address == c.params[s].address ==> r == s)
      && (forall t, u ::
            (t in c.pending && u in c.pending && c.pending[t].params.address == c.pending[u].params.address) ==> t == u)
  {
    SessionKeeps(states, actions, i);
    var c := states[i];
    forall r, s | r in c.sent && s in c.sent && c.params[r].address == c.params[s].address ensures r == s {
      var a := c.params[r].address;
      assert Holds(c, a, r) && Holds(c, a, s);
      OneHolder(c.nodeQueues[a], r, s);
    }
  }

  /** Matching: a frame that a request returns carries its TID, comes from the address it was sent to,
      has the request's EOJs swapped and one of the expected ESVs; and no frame is returned by two
      requests. */
  lemma ResponsesBelong(states: seq<Client>, actions: seq<Action>, i: nat)
    requires IsSession(states, actions) && i < |states|
    ensures var c := states[i];
      && c.returned.Keys <= c.params.Keys
      && (forall r :: r in c.returned && c.returned[r].response.Some? ==>
            var d := c.returned[r].response.value; var p := c.params[r];
            && d.frame.tid == c.returned[r].tid && d.source == p.address
            && d.frame.seoj == p.deoj && d.frame.deoj == p.seoj && d.frame.esv in p.responseEsvs)
      && (forall r, s ::
            (r in c.returned && s in c.returned && r != s
             && c.returned[r].response.Some? && c.returned[s].response.Some?) ==>
            c.returned[r].response.value.arrival != c.returned[s].response.value.arrival)
  {
    SessionKeeps(states, actions, i);
    var c := states[i];
    forall r | r in c.returned && c.returned[r].response.Some?
      ensures Answers(c.params[r], c.returned[r], c.arrivals) {}
    forall r, s | r in c.returned && s in c.returned && r != s ensures Apart(c.returned[r], c.returned[s]) {}
  }

  // ---- No waiting request is stranded ----

  /** The request waits at its node's queue, which is registered, or has been granted the slot. */
  ghost predicate Queued(c: Client, r: RequestId) {
    && r in c.params && c.params[r].address in c.nodeQueues
    && InLine(c.nodeQueues[c.params[r].address], r)
  }

  predicate InLine(q: Queue, r: RequestId) {
    r in q.phases && (q.phases[r].Waiting? || q.phases[r].Granted?)
  }

  lemma InLineNotIdle(q: Queue, r: RequestId)
    requires QueueOk(q) && InLine(q, r)
    ensures !Idle(q)
  {
    if q.phases[r].Granted? {
      assert r in Owners(q);
    }
  }

  lemma ReleaseKeepsLine(q: Queue, s: RequestId, r: RequestId)
    requires QueueOk(q) && InLine(q, r) && s != r && s in q.phases && !q.phases[s].Waiting?
    ensures InLine(Release(q, s), r)
  {
    var _ := HandOverSpec(q.(phases := q.phases[s := Gone]));
  }

  lemma LeaveQueued(c: Client, s: RequestId, r: RequestId)
    requires QueuesOk(c) && Queued(c, r) && s != r && s in c.params && Holds(c, c.params[s].address, s)
    ensures Queued(Leave(c, s), r)
  {
    var a := c.params[s].address;
    if a == c.params[r].address {
      var q := Release(c.nodeQueues[a], s);
      ReleaseHolders(c.nodeQueues[a], s, s);
      ReleaseKeepsLine(c.nodeQueues[a], s, r);
      InLineNotIdle(q, r);
    }
  }

  lemma TransmitQueued(c: Client, s: RequestId, sendOk: bool, r: RequestId)
    requires QueuesOk(c) && Queued(c, r) && s != r && s in c.params && Holds(c, c.params[s].address, s)
    ensures Queued(Transmit(c, s, sendOk), r)
  {
    TransmitUnfolds(c, s, sendOk);
    var search := FindFree(c.counter, c.pending.Keys, MAX_TID);
    if search.Found? {
      LeaveQueued(Register(c, s, search.tid, search.steps), s, r);
    } else {
      LeaveQueued(c.(counter := search.counter, stamp := c.stamp + MAX_TID), s, r);
    }
  }

  lemma BeginQueued(c: Client, s: RequestId, p: Params, priority: int, sendOk: bool, r: RequestId)
    requires ClientOk(c) && s !in c.params && Queued(c, r)
    ensures Queued(Step(c, Begin(s, p, priority, sendOk)), r)
  {
    BeginUnfolds(c, s, p, priority, sendOk);
    EnterKeeps(c, s, p, priority);
    var q := Acquire(QueueAt(c, p.address), s, priority);
    var d := WithQueue(c, p.address, q, c.params[s := p]);
    assert Queued(d, r);
    if q.phases[s].Holding? {
      TransmitQueued(d, s, sendOk, r);
    }
  }

  lemma ResumeKeepsLine(q: Queue, s: RequestId, r: RequestId)
    requires QueueOk(q) && Enabled(Slot(q, false, false), Wake(s)) && InLine(q, r) && s != r
    ensures InLine(Resume(q, s), r)
  {
    if q.phases[s].GrantedCancelled? || q.phases[s].FailedCancelled? {
      ReleaseKeepsLine(q, s, r);
    }
  }

  lemma ResumedQueued(c: Client, s: RequestId, sendOk: bool, r: RequestId)
    requires ClientOk(c) && IsEnabled(c, Resumed(s, sendOk)) && s != r && Queued(c, r)
    ensures Queued(Step(c, Resumed(s, sendOk)), r)
  {
    var a := c.params[s].address;
    var q := Resume(c.nodeQueues[a], s);
    var d := WithQueue(c, a, q, c.params);
    ResumeHolders(c.nodeQueues[a], s);
    assert !Holds(c, a, s);
    ChangeQueue(c, a, q, s, c.params);
    assert Queued(d, r) by {
      if a == c.params[r].address {
        ResumeKeepsLine(c.nodeQueues[a], s, r);
      }
    }
    if q.phases[s].Holding? {
      TransmitQueued(d, s, sendOk, r);
    }
  }

  /** The request's own task resumes or is cancelled. */
  predicate Interrupts(a: Action, r: RequestId) {
    (a.Cancelled? || a.Resumed?) && a.request == r
  }

  lemma StepQueued(c: Client, a: Action, r: RequestId)
    requires ClientOk(c) && IsEnabled(c, a) && Queued(c, r)
    requires !Interrupts(a, r)
    ensures Queued(Step(c, a), r)
  {
    match a
    case Begin(s, p, priority, sendOk) => BeginQueued(c, s, p, priority, sendOk, r);
    case Resumed(s, sendOk) => ResumedQueued(c, s, sendOk, r);
    case Cancelled(s) => CancelledQueued(c, s, r);
    case Received(f, source) => ReceivedQueued(c, f, source, r);
    case Drawn => DrawnQueued(c, r);
    case Ended(s) => EndedQueued(c, s, r);
  }

  lemma ReceivedQueued(c: Client, f: Frame, source: Address, r: RequestId)
    requires Queued(c, r) && f.tid >= 0
    ensures Queued(Step(c, Received(f, source)), r)
  {
  }

  lemma DrawnQueued(c: Client, r: RequestId)
    requires Queued(c, r)
    ensures Queued(Draw(c), r)
  {
  }

  lemma CancelledQueued(c: Client, s: RequestId, r: RequestId)
    requires Queued(c, r) && IsEnabled(c, Cancelled(s)) && s != r
    ensures Queued(Step(c, Cancelled(s)), r)
  {
  }

  lemma EndedQueued(c: Client, s: RequestId, r: RequestId)
    requires ClientOk(c) && Queued(c, r) && IsEnabled(c, Ended(s))
    ensures Queued(Leave(c, s), r)
  {
    assert Holds(c, c.params[s].address, s) && s != r;
    LeaveQueued(c, s, r);
  }

  /** Someone at the address can take a step that hands the slot on or leads to one: a request in flight can
      end, or a request granted the slot can resume. */
  ghost predicate Moves(c: Client, a: Address) {
    exists o :: o in c.params && c.params[o].address == a
      && ((o in c.sent && IsEnabled(c, Ended(o))) || IsEnabled(c, Resumed(o, true)))
  }

  lemma QueuedMoves(c: Client, r: RequestId)
    requires ClientOk(c) && Queued(c, r)
    ensures Moves(c, c.params[r].address)
  {
    var a := c.params[r].address;
    var q := c.nodeQueues[a];
    InLineNotIdle(q, r);
    assert Owners(q) != {} by {
      if q.phases[r].Granted? {
        assert r in Owners(q);
      }
    }
    var o :| o in Owners(q);
    assert o in q.phases && IsOwner(q.phases[o]);
    if q.phases[o].Holding? {
      assert Holds(c, a, o);
      assert IsEnabled(c, Ended(o));
    } else {
      assert IsEnabled(c, Resumed(o, true));
    }
  }

  /** In every session: a request that has started to wait stays in line at its node's registered queue until
      its own task resumes or is cancelled, whatever other requests do; and all that time some request
      of the node is in flight and can end, or has been granted the slot and can resume. */
  lemma {:induction false} NobodyIsStranded(states: seq<Client>, actions: seq<Action>, i: nat, m: nat, r: RequestId)
    requires IsSession(states, actions) && i <= m < |states| && Queued(states[i], r)
    requires forall x :: i <= x < m ==> !Interrupts(actions[x], r)
    ensures Queued(states[m], r) && Moves(states[m], states[m].params[r].address)
    decreases m
  {
    if i < m {
      NobodyIsStranded(states, actions, i, m - 1, r);
      StaysQueued(states, actions, m - 1, r);
    }
    SessionKeeps(states, actions, m);
    QueuedMoves(states[m], r);
  }

  lemma StaysQueued(states: seq<Client>, actions: seq<Action>, n: nat, r: RequestId)
    requires IsSession(states, actions) && n < |actions| && Queued(states[n], r) && !Interrupts(actions[n], r)
    ensures Queued(states[n + 1], r)
  {
    SessionKeeps(states, actions, n);
    StepQueued(states[n], actions[n], r);
  }

  /** A request that asks for the slot is in line afterwards, or has been let through at once. */
  lemma BeginWaitsOrSends(c: Client, r: RequestId, p: Params, priority: int, sendOk: bool)
    requires ClientOk(c) && r !in c.params
    ensures Queued(Step(c, Begin(r, p, priority, sendOk)), r) <==> !Idle(QueueAt(c, p.address))
  {
    BeginUnfolds(c, r, p, priority, sendOk);
    EnterKeeps(c, r, p, priority);
    var q := Acquire(QueueAt(c, p.address), r, priority);
    var d := WithQueue(c, p.address, q, c.params[r := p]);
    if Idle(QueueAt(c, p.address)) {
      TransmitTakes(d, r, sendOk);
    }
  }

  lemma TransmitTakes(c: Client, r: RequestId, sendOk: bool)
    requires QueuesOk(c) && r in c.params && Holds(c, c.params[r].address, r)
    ensures !Queued(Transmit(c, r, sendOk), r)
  {
    TransmitUnfolds(c, r, sendOk);
    ReleaseHolders(c.nodeQueues[c.params[r].address], r, r);
    var _ := HandOverSpec(c.nodeQueues[c.params[r].address].(phases := c.nodeQueues[c.params[r].address].phases[r := Gone]));
  }

  // ---- Whose table entry a request removes when it ends ----

  /** Ending the request removes the table entry of another one. */
  ghost predicate DropsAnother(c: Client, r: RequestId)
    requires r in c.params && c.params[r].address in c.nodeQueues
  {
    exists t :: t in c.pending && c.pending[t].request != r && t !in Leave(c, r).pending
  }

  /** In every session, whatever the order of events: the end of a request removes the entry of another
      exactly when the request's TID is pending for another. */
  lemma EndDropsAnother(states: seq<Client>, actions: seq<Action>, i: nat, r: RequestId)
    requires IsSession(states, actions) && i < |states| && IsEnabled(states[i], Ended(r))
    ensures var c := states[i];
      DropsAnother(c, r) <==> c.sent[r].tid in c.pending && c.pending[c.sent[r].tid].request != r
    ensures var c := states[i];
      DropsAnother(c, r) ==> Orphan(Leave(c, r), c.pending[c.sent[r].tid].request)
  {
    var c := states[i];
    SessionKeeps(states, actions, i);
    var tid := c.sent[r].tid;
    if tid in c.pending && c.pending[tid].request != r {
      assert tid !in Leave(c, r).pending;
    }
  }

  /** The counter after a number of steps from its initial value. */
  function CounterAfter(steps: nat): nat {
    if steps == 0 then 0 else Nth(0, steps)
  }

  ghost predicate StampsOk(c: Client) {
    && c.counter == CounterAfter(c.stamp)
    && (forall r :: r in c.sent ==> 1 <= c.sent[r].stamp <= c.stamp && c.sent[r].tid == CounterAfter(c.sent[r].stamp))
  }

  /** No two requests in flight share a TID. */
  ghost predicate TidsDiffer(c: Client) {
    forall r, s :: r in c.sent && s in c.sent && r != s ==> c.sent[r].tid != c.sent[s].tid
  }

  /** The counter has not gone once round since a request got its TID, for requests that have been
      answered but whose coroutine has not resumed yet. */
  ghost predicate NoLap(c: Client) {
    forall r :: r in c.sent && c.sent[r].response.Some? ==> c.stamp - c.sent[r].stamp < MAX_TID
  }

  /** A request in flight without a response has its own entry. */
  ghost predicate OwnEntries(c: Client) {
    forall r :: r in c.sent && c.sent[r].response.None? ==>
      c.sent[r].tid in c.pending && c.pending[c.sent[r].tid].request == r
  }

  ghost predicate LapOk(c: Client) {
    StampsOk(c) && TidsDiffer(c) && OwnEntries(c)
  }

  lemma TidsApart(a: nat, b: nat)
    requires 1 <= a < b && b - a < MAX_TID
    ensures CounterAfter(a) != CounterAfter(b)
  {
  }

  lemma CounterStep(stamp: nat, n: pos)
    ensures Nth(CounterAfter(stamp), n) == CounterAfter(stamp + n)
  {
    if stamp > 0 {
      var q, r := (stamp - 1) / MAX_TID, (stamp - 1) % MAX_TID;
      assert stamp + n - 1 == q * MAX_TID + (r + n);
      SameRemainder(r + n, q);
      assert CounterAfter(stamp) == r + 1;
    }
  }

  ghost predicate NoLapBut(c: Client, r: RequestId) {
    forall s :: s in c.sent && s != r && c.sent[s].response.Some? ==> c.stamp - c.sent[s].stamp < MAX_TID
  }

  lemma LeaveLap(c: Client, r: RequestId, q: Queue)
    requires LapOk(c) && r in c.params
    ensures LapOk(LeaveWith(c, r, q))
  {
    var d := LeaveWith(c, r, q);
    forall s | s in d.sent && d.sent[s].response.None?
      ensures d.sent[s].tid in d.pending && d.pending[d.sent[s].tid].request == s
    {
      assert s in c.sent && c.sent[s].tid in c.pending;
    }
  }

  lemma RegisterLap(c: Client, r: RequestId, tid: nat, steps: pos)
    requires LapOk(c) && r in c.params && r !in c.sent
    requires tid == CounterAfter(c.stamp + steps) && tid !in c.pending
    requires NoLapBut(Register(c, r, tid, steps), r)
    ensures LapOk(Register(c, r, tid, steps))
  {
    var d := Register(c, r, tid, steps);
    forall s | s in c.sent ensures c.sent[s].tid != tid {
      if c.sent[s].response.Some? {
        assert s in d.sent && d.sent[s] == c.sent[s];
        TidsApart(c.sent[s].stamp, d.stamp);
      }
    }
  }

  lemma {:induction false} ExhaustedAfterLap(counter: nat, used: set<nat>, tries: nat)
    requires tries > 0 && FindFree(counter, used, tries).Exhausted?
    ensures FindFree(counter, used, tries).counter == Nth(counter, tries)
    decreases tries
  {
    if tries > 1 {
      ExhaustedAfterLap(Following(counter), used, tries - 1);
      LaterIsNext(counter, tries);
    }
  }

  /** However the search ends, the counter is where the steps made so far take it. */
  lemma DrawnStamps(c: Client)
    requires StampsOk(c)
    ensures StampsOk(Draw(c)) && Draw(c).counter == CounterAfter(Draw(c).stamp)
  {
    match FindFree(c.counter, c.pending.Keys, MAX_TID)
    case Exhausted(n) =>
      ExhaustedAfterLap(c.counter, c.pending.Keys, MAX_TID);
      CounterStep(c.stamp, MAX_TID);
    case Found(tid, steps) =>
      FoundIsFirstFree(c.counter, c.pending.Keys, MAX_TID);
      CounterStep(c.stamp, steps);
  }

  lemma TransmitLap(c: Client, r: RequestId, sendOk: bool)
    requires LapOk(c) && r in c.params && c.params[r].address in c.nodeQueues && r !in c.sent
    requires NoLap(Transmit(c, r, sendOk))
    ensures LapOk(Transmit(c, r, sendOk))
  {
    DrawnStamps(c);
    FoundIsFree(c.counter, c.pending.Keys);
    var a := c.params[r].address;
    match FindFree(c.counter, c.pending.Keys, MAX_TID)
    case Exhausted(n) =>
      LeaveLap(Draw(c), r, Release(c.nodeQueues[a], r));
    case Found(tid, steps) =>
      var d := Register(c, r, tid, steps);
      LeaveKeepsStamps(d, r, sendOk);
      RegisterLap(c, r, tid, steps);
      LeaveLap(d, r, Release(c.nodeQueues[a], r));
  }

  lemma LeaveKeepsStamps(d: Client, r: RequestId, sendOk: bool)
    requires r in d.params && d.params[r].address in d.nodeQueues
    requires NoLap(if sendOk then d else Leave(d, r))
    ensures NoLapBut(d, r)
  {
    if !sendOk {
      var e := Leave(d, r);
      assert forall s :: s in d.sent && s != r ==> s in e.sent && e.sent[s] == d.sent[s];
    }
  }

  lemma ReceivedLap(c: Client, f: Frame, source: Address)
    requires TableOk(c) && LapOk(c) && f.tid >= 0
    ensures LapOk(Step(c, Received(f, source)))
  {
    var d := Step(c, Received(f, source));
    assert d.sent.Keys == c.sent.Keys;
    assert forall s :: s in c.sent ==> d.sent[s].tid == c.sent[s].tid && d.sent[s].stamp == c.sent[s].stamp;
    forall s | s in d.sent && d.sent[s].response.None?
      ensures d.sent[s].tid in d.pending && d.pending[d.sent[s].tid].request == s
    {
      assert c.sent[s].tid in c.pending;
    }
  }

  lemma BeginLap(c: Client, r: RequestId, p: Params, priority: int, sendOk: bool)
    requires ClientOk(c) && LapOk(c) && r !in c.params
    requires NoLap(Step(c, Begin(r, p, priority, sendOk)))
    ensures LapOk(Step(c, Begin(r, p, priority, sendOk)))
  {
    var q := Acquire(QueueAt(c, p.address), r, priority);
    var d := WithQueue(c, p.address, q, c.params[r := p]);
    assert LapOk(d);
    if q.phases[r].Holding? {
      TransmitLap(d, r, sendOk);
    }
  }

  lemma ResumedLap(c: Client, r: RequestId, sendOk: bool)
    requires ClientOk(c) && LapOk(c) && IsEnabled(c, Resumed(r, sendOk)) && NoLap(Step(c, Resumed(r, sendOk)))
    ensures LapOk(Step(c, Resumed(r, sendOk)))
  {
    var a := c.params[r].address;
    var q := Resume(c.nodeQueues[a], r);
    var d := WithQueue(c, a, q, c.params);
    assert !Holds(c, a, r);
    assert LapOk(d);
    if r in q.phases && q.phases[r].Holding? {
      TransmitLap(d, r, sendOk);
    }
  }

  lemma StepLap(c: Client, a: Action)
    requires ClientOk(c) && LapOk(c) && IsEnabled(c, a) && NoLap(Step(c, a))
    ensures LapOk(Step(c, a))
  {
    match a
    case Begin(r, p, priority, sendOk) => BeginLap(c, r, p, priority, sendOk);
    case Resumed(r, sendOk) => ResumedLap(c, r, sendOk);
    case Cancelled(r) => SameLap(c, Step(c, a));
    case Received(f, source) => ReceivedLap(c, f, source);
    case Drawn => DrawnLap(c);
    case Ended(r) => EndedLap(c, r);
  }

  lemma SameLap(c: Client, d: Client)
    requires LapOk(c) && d.sent == c.sent && d.pending == c.pending && d.counter == c.counter && d.stamp == c.stamp
    ensures LapOk(d)
  {
  }

  lemma DrawnLap(c: Client)
    requires LapOk(c)
    ensures LapOk(Draw(c))
  {
    DrawnStamps(c);
    assert Draw(c).sent == c.sent && Draw(c).pending == c.pending;
  }

  lemma EndedLap(c: Client, r: RequestId)
    requires LapOk(c) && r in c.params && c.params[r].address in c.nodeQueues
    ensures LapOk(Leave(c, r))
  {
    LeaveLap(c, r, Release(c.nodeQueues[c.params[r].address], r));
  }

  lemma {:induction false} SessionLap(states: seq<Client>, actions: seq<Action>, i: nat)
    requires IsSession(states, actions) && i < |states|
    requires forall j :: 0 <= j <= i ==> NoLap(states[j])
    ensures LapOk(states[i])
  {
    if i > 0 {
      SessionLap(states, actions, i - 1);
      SessionKeeps(states, actions, i - 1);
      assert NoLap(states[i]);
      StepLap(states[i - 1], actions[i - 1]);
    }
  }

  /** As long as the counter has not lapped an answered request that has yet to resume, every unanswered
      request in flight has its own entry, no two requests in flight share a TID, and no request's
      end removes the entry of another. */
  lemma EntriesAreOwn(states: seq<Client>, actions: seq<Action>, i: nat)
    requires IsSession(states, actions) && i < |states|
    requires forall j :: 0 <= j <= i ==> NoLap(states[j])
    ensures OwnEntries(states[i]) && TidsDiffer(states[i])
    ensures forall r :: IsEnabled(states[i], Ended(r)) ==> !DropsAnother(states[i], r)
  {
    SessionLap(states, actions, i);
    forall r | IsEnabled(states[i], Ended(r)) ensures !DropsAnother(states[i], r) {
      EndDropsAnother(states, actions, i, r);
      SessionKeeps(states, actions, i);
    }
  }

  // ---- What becomes of a request that has lost its entry ----

  ghost predicate Orphan(c: Client, r: RequestId) {
    r in c.sent && c.sent[r].response.None? && forall t :: t in c.pending ==> c.pending[t].request != r
  }

  lemma TransmitOrphans(c: Client, s: RequestId, sendOk: bool, r: RequestId)
    requires Orphan(c, r) && s != r && s in c.params && c.params[s].address in c.nodeQueues
    ensures Orphan(Transmit(c, s, sendOk), r)
  {
    TransmitUnfolds(c, s, sendOk);
    var search := FindFree(c.counter, c.pending.Keys, MAX_TID);
    if search.Found? {
      var d := Register(c, s, search.tid, search.steps);
      assert Orphan(d, r);
      LeaveOrphans(d, s, r);
    } else {
      LeaveOrphans(c.(counter := search.counter, stamp := c.stamp + MAX_TID), s, r);
    }
  }

  lemma LeaveOrphans(c: Client, s: RequestId, r: RequestId)
    requires Orphan(c, r) && s != r && s in c.params && c.params[s].address in c.nodeQueues
    ensures Orphan(Leave(c, s), r)
  {
  }

  lemma StepOrphans(c: Client, a: Action, r: RequestId)
    requires ClientOk(c) && IsEnabled(c, a) && Orphan(c, r) && a != Ended(r)
    ensures Orphan(Step(c, a), r)
  {
    match a
    case Begin(s, p, priority, sendOk) => BeginOrphans(c, s, p, priority, sendOk, r);
    case Resumed(s, sendOk) => ResumedOrphans(c, s, sendOk, r);
    case Cancelled(s) =>
    case Received(f, source) => ReceivedOrphans(c, f, source, r);
    case Drawn =>
    case Ended(s) => LeaveOrphans(c, s, r);
  }

  lemma BeginOrphans(c: Client, s: RequestId, p: Params, priority: int, sendOk: bool, r: RequestId)
    requires ClientOk(c) && s !in c.params && Orphan(c, r)
    ensures Orphan(Step(c, Begin(s, p, priority, sendOk)), r)
  {
    BeginUnfolds(c, s, p, priority, sendOk);
    var q := Acquire(QueueAt(c, p.address), s, priority);
    var d := WithQueue(c, p.address, q, c.params[s := p]);
    if q.phases[s].Holding? {
      TransmitOrphans(d, s, sendOk, r);
    }
  }

  lemma ReceivedOrphans(c: Client, f: Frame, source: Address, r: RequestId)
    requires Orphan(c, r) && f.tid >= 0
    ensures Orphan(Step(c, Received(f, source)), r)
  {
  }

  lemma ResumedOrphans(c: Client, s: RequestId, sendOk: bool, r: RequestId)
    requires ClientOk(c) && IsEnabled(c, Resumed(s, sendOk)) && Orphan(c, r)
    ensures Orphan(Step(c, Resumed(s, sendOk)), r)
  {
    var a := c.params[s].address;
    assert Holds(c, c.params[r].address, r) && !Holds(c, a, s);
    var q := Resume(c.nodeQueues[a], s);
    if s in q.phases && q.phases[s].Holding? {
      TransmitOrphans(WithQueue(c, a, q, c.params), s, sendOk, r);
    }
  }

  /** A request that has lost its entry is never answered: whatever arrives before it ends, it times out. */
  lemma {:induction false} OrphanStays(states: seq<Client>, actions: seq<Action>, i: nat, m: nat, r: RequestId)
    requires IsSession(states, actions) && i <= m < |states| && Orphan(states[i], r)
    requires forall x :: i <= x < m ==> actions[x] != Ended(r)
    ensures Orphan(states[m], r)
    decreases m
  {
    if i < m {
      OrphanStays(states, actions, i, m - 1, r);
      SessionKeeps(states, actions, m - 1);
      StepOrphans(states[m - 1], actions[m - 1], r);
    }
  }

  // ---- A session in which it happens ----

  const SOME_PARAMS: Params := Params(0, 0x028701, 0x05FF01, {0x72})
  const OTHER_PARAMS: Params := Params(1, 0x028701, 0x05FF01, {0x72})

  /** The first request has been sent with TID 1 and answered; its task has not resumed yet. */
  function Answered(draws: nat): Client {
    var q := NEW_QUEUE.(busy := true, phases := map[0 := Holding]);
    var frame := Frame(1, 0x028701, 0x05FF01, 0x72, []);
    Client(map[0 := q], map[], 1 + draws, map[0 := SOME_PARAMS],
           map[0 := Sent(1, 1, Some(Delivery(frame, 0, 0)))], map[], 1 + draws, 1)
  }

  lemma NextIsFree(counter: nat, used: set<nat>, tries: pos)
    requires Following(counter) !in used
    ensures FindFree(counter, used, tries) == Found(Following(counter), 1)
  {
  }

  lemma SessionSnoc(states: seq<Client>, actions: seq<Action>, a: Action)
    requires IsSession(states, actions) && IsEnabled(states[|actions|], a)
    ensures IsSession(states + [Step(states[|actions|], a)], actions + [a])
  {
    var more, done := states + [Step(states[|actions|], a)], actions + [a];
    forall i | 0 <= i < |done| ensures IsEnabled(more[i], done[i]) && more[i + 1] == Step(more[i], done[i]) {
      if i < |actions| {
        assert more[i] == states[i] && more[i + 1] == states[i + 1] && done[i] == actions[i];
      }
    }
  }

  lemma FirstAnswered() returns (states: seq<Client>, actions: seq<Action>)
    ensures IsSession(states, actions) && states[|actions|] == Answered(0)
  {
    var frame := Frame(1, 0x028701, 0x05FF01, 0x72, []);
    NextIsFree(0, {}, MAX_TID);
    var begin := Begin(0, SOME_PARAMS, 0, true);
    var c := Step(NEW_CLIENT, begin);
    assert c.pending == map[1 := PendingRequest(SOME_PARAMS, 0)];
    SessionSnoc([NEW_CLIENT], [], begin);
    assert [NEW_CLIENT] + [c] == [NEW_CLIENT, c];
    SessionSnoc([NEW_CLIENT, c], [begin], Received(frame, 0));
    var d := Step(c, Received(frame, 0));
    assert d.pending == map[];
    assert d == Answered(0);
    states, actions := [NEW_CLIENT, c] + [d], [begin] + [Received(frame, 0)];
  }

  lemma {:induction false} DrawnOut(draws: nat) returns (states: seq<Client>, actions: seq<Action>)
    requires draws < MAX_TID
    ensures IsSession(states, actions) && states[|actions|] == Answered(draws)
  {
    if draws == 0 {
      states, actions := FirstAnswered();
    } else {
      states, actions := DrawnOut(draws - 1);
      var c := states[|actions|];
      NextIsFree(c.counter, c.pending.Keys, MAX_TID);
      assert Draw(c) == Answered(draws);
      SessionSnoc(states, actions, Drawn);
      states, actions := states + [Step(c, Drawn)], actions + [Drawn];
    }
  }

  /** 65534 TIDs are drawn while the first request, answered, has yet to resume. The next request is
      given its TID; then the first one ends, and leaves the second an orphan. */
  lemma DropHappens() returns (states: seq<Client>, actions: seq<Action>)
    ensures IsSession(states, actions) && |actions| > 0 && actions[|actions| - 1] == Ended(0)
    ensures DropsAnother(states[|actions| - 1], 0)
    ensures Orphan(states[|actions|], 1)
  {
    states, actions := DrawnOut(MAX_TID - 1);
    var c := states[|actions|];
    NextIsFree(c.counter, c.pending.Keys, MAX_TID);
    var begin := Begin(1, OTHER_PARAMS, 0, true);
    SessionSnoc(states, actions, begin);
    var d := Step(c, begin);
    states, actions := states + [d], actions + [begin];
    assert d.pending == map[1 := PendingRequest(OTHER_PARAMS, 1)];
    assert d.sent[0].tid == 1 && 1 !in Leave(d, 0).pending;
    SessionSnoc(states, actions, Ended(0));
    states, actions := states + [Step(d, Ended(0))], actions + [Ended(0)];
  }
}
