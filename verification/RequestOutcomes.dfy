/** What becomes of requests in a session: what sending registers, which frames are delivered to whom, and what
    ending returns. */
module RequestOutcomes {
  import opened Basics
  import opened FrameCodec
  import opened NodeRequestQueue
  import opened SlotRuns
  import opened SlotOutcomes
  import opened TransactionIds
  import opened RequestTable

  // ---- Receiving ----

  /** Delivery: in every session, when a frame arrives with the TID of an unanswered request that has its entry,
      from its address, with the EOJs swapped and a service it expects, the request's response is exactly
      that frame, and the entry is gone. A frame that has the TID but fails one of the other conditions
      changes nothing but the count of arrivals. */
  lemma MatchingResponseIsDelivered(states: seq<Client>, actions: seq<RequestTable.Action>, i: nat, r: RequestId, f: Frame,
                                    source: Address)
    requires IsSession(states, actions) && i < |states| && f.tid >= 0
    requires r in states[i].sent && states[i].sent[r].tid == f.tid
    requires f.tid in states[i].pending && states[i].pending[f.tid].request == r
    ensures var c := states[i]; var d := Step(c, Received(f, source));
      r in c.params && c.sent[r].response.None? &&
      var p := c.params[r];
      if source == p.address && f.seoj == p.deoj && f.deoj == p.seoj && f.esv in p.responseEsvs
      then d.pending == c.pending - {f.tid}
           && d.sent == c.sent[r := Sent(f.tid, c.sent[r].stamp, Some(Delivery(f, source, c.arrivals)))]
           && d.arrivals == c.arrivals + 1
      else d == c.(arrivals := c.arrivals + 1)
  {
    SessionKeeps(states, actions, i);
    EntryDecides(states[i], r, f, source);
  }

  lemma EntryDecides(c: Client, r: RequestId, f: Frame, source: Address)
    requires f.tid >= 0 && f.tid in c.pending && c.pending[f.tid].request == r
    requires r in c.sent && r in c.params && c.pending[f.tid].params == c.params[r]
    ensures var d := Step(c, Received(f, source)); var p := c.params[r];
      if source == p.address && f.seoj == p.deoj && f.deoj == p.seoj && f.esv in p.responseEsvs
      then d.pending == c.pending - {f.tid}
           && d.sent == c.sent[r := c.sent[r].(response := Some(Delivery(f, source, c.arrivals)))]
           && d.arrivals == c.arrivals + 1
      else d == c.(arrivals := c.arrivals + 1)
  {
  }

  /** A frame whose TID has no entry changes nothing. */
  lemma UnknownTidIsIgnored(c: Client, f: Frame, source: Address)
    requires f.tid >= 0 && f.tid !in c.pending
    ensures Step(c, Received(f, source)) == c.(arrivals := c.arrivals + 1)
  {
  }

  // ---- Sending ----

  /** The request has been sent under a TID that was free, and waits for its response. */
  ghost predicate IsSent(c: Client, d: Client, r: RequestId, p: Params) {
    && r in d.sent && d.sent[r].response.None?
    && 1 <= d.sent[r].tid <= 65535 && d.sent[r].tid !in c.pending
    && d.pending == c.pending[d.sent[r].tid := PendingRequest(p, r)]
    && d.sent == c.sent[r := d.sent[r]] && d.returned == c.returned
    && Holds(d, p.address, r)
  }

  /** The request has left without having been sent, unanswered. */
  ghost predicate IsUnsent(c: Client, d: Client, r: RequestId, p: Params) {
    && d.pending == c.pending && d.sent == c.sent && !Holds(d, p.address, r)
    && d.returned.Keys <= c.returned.Keys + {r}
    && (r in d.returned && r !in c.returned ==> d.returned[r].response.None?)
    && forall s :: s in c.returned && s != r ==> s in d.returned && d.returned[s] == c.returned[s]
  }

  predicate AllTaken(c: Client) {
    forall t :: 1 <= t <= 65535 ==> t in c.pending
  }

  lemma TransmitOutcome(c: Client, r: RequestId, sendOk: bool)
    requires QueuesOk(c) && r in c.params && Holds(c, c.params[r].address, r) && r !in c.sent
    ensures var d := Transmit(c, r, sendOk);
      if sendOk && !AllTaken(c) then IsSent(c, d, r, c.params[r]) else IsUnsent(c, d, r, c.params[r])
  {
    var p := c.params[r];
    AllocationIsSound(c.counter, c.pending.Keys);
    TransmitUnfolds(c, r, sendOk);
    var search := FindFree(c.counter, c.pending.Keys, MAX_TID);
    assert search.Exhausted? <==> AllTaken(c);
    if search.Exhausted? {
      LeftUnsent(c, c.(counter := search.counter, stamp := c.stamp + MAX_TID), r);
    } else {
      var d := Register(c, r, search.tid, search.steps);
      if !sendOk {
        RegisteredUnsent(c, r, search.tid, search.steps);
      } else {
        assert Holds(d, p.address, r);
      }
    }
  }

  lemma LeftUnsent(c: Client, d: Client, r: RequestId)
    requires QueuesOk(c) && r in c.params && Holds(c, c.params[r].address, r) && r !in c.sent
    requires d == c.(counter := d.counter, stamp := d.stamp)
    ensures IsUnsent(c, Leave(d, r), r, c.params[r])
  {
    ReleaseHolders(d.nodeQueues[c.params[r].address], r, r);
  }

  lemma RegisteredUnsent(c: Client, r: RequestId, tid: nat, steps: nat)
    requires QueuesOk(c) && r in c.params && Holds(c, c.params[r].address, r) && r !in c.sent && tid !in c.pending
    ensures IsUnsent(c, Leave(Register(c, r, tid, steps), r), r, c.params[r])
  {
    ReleaseHolders(c.nodeQueues[c.params[r].address], r, r);
    var d := Register(c, r, tid, steps);
    assert d.pending - {tid} == c.pending;
    assert d.sent - {r} == c.sent;
  }

  /** The request joins the waiters with its priority and the next sequence number. */
  ghost predicate Joins(q: Queue, t: Queue, r: RequestId, priority: int) {
    multiset(t.waiters) == multiset(q.waiters) + multiset{Entry(priority, q.nextSequence, r)}
  }

  ghost predicate Waits(c: Client, d: Client, r: RequestId, a: Address, priority: int) {
    && d.pending == c.pending && d.sent == c.sent && d.returned == c.returned && Queued(d, r)
    && a in c.nodeQueues && a in d.nodeQueues && Joins(c.nodeQueues[a], d.nodeQueues[a], r, priority)
  }

  /** A request that finds nobody using its node's slot is sent at once, if it can be and a TID is free;
      one that finds somebody waits and changes nothing for others. */
  lemma BeginOutcome(states: seq<Client>, actions: seq<RequestTable.Action>, i: nat, r: RequestId, p: Params, priority: int,
                     sendOk: bool)
    requires IsSession(states, actions) && i < |states| && r !in states[i].params
    ensures var c := states[i]; var d := Step(c, Begin(r, p, priority, sendOk));
      && r in d.params && d.params[r] == p
      && (Owners(QueueAt(c, p.address)) != {} ==> Waits(c, d, r, p.address, priority))
      && (Owners(QueueAt(c, p.address)) == {} ==>
            if sendOk && !AllTaken(c) then IsSent(c, d, r, p) else IsUnsent(c, d, r, p))
  {
    var c := states[i];
    SessionKeeps(states, actions, i);
    EnterOutcome(c, r, p, priority);
    BeginUnfolds(c, r, p, priority, sendOk);
    var q := Acquire(QueueAt(c, p.address), r, priority);
    var d := WithQueue(c, p.address, q, c.params[r := p]);
    if q.phases[r].Holding? {
      TransmitOutcome(d, r, sendOk);
    }
  }

  lemma EnterOutcome(c: Client, r: RequestId, p: Params, priority: int)
    requires ClientOk(c) && r !in c.params
    ensures Owners(QueueAt(c, p.address)) != {} ==> p.address in c.nodeQueues
    ensures var q := Acquire(QueueAt(c, p.address), r, priority);
      && (Owners(QueueAt(c, p.address)) != {} ==> Joins(c.nodeQueues[p.address], q, r, priority))
      && QueuesOk(WithQueue(c, p.address, q, c.params[r := p])) && r !in c.sent
      && r in q.phases && q.phases[r] == if Owners(QueueAt(c, p.address)) == {} then Holding else Waiting
  {
    EnterKeeps(c, r, p, priority);
    NewQueueOk();
    AcquireOutcome(Slot(QueueAt(c, p.address), false, false), r, priority);
  }

  /** A request that resumes is sent exactly if it had been granted the slot; otherwise it sends nothing. */
  lemma ResumeOutcome(states: seq<Client>, actions: seq<RequestTable.Action>, i: nat, r: RequestId, sendOk: bool)
    requires IsSession(states, actions) && i < |states| && IsEnabled(states[i], Resumed(r, sendOk))
    ensures var c := states[i]; var d := Step(c, Resumed(r, sendOk)); var p := c.params[r];
      && (c.nodeQueues[p.address].phases[r] == Granted ==>
            if sendOk && !AllTaken(c) then IsSent(c, d, r, p) else IsUnsent(c, d, r, p))
      && (c.nodeQueues[p.address].phases[r] != Granted ==>
            d.pending == c.pending && d.sent == c.sent && d.returned == c.returned && !Holds(d, p.address, r))
  {
    var c := states[i];
    SessionKeeps(states, actions, i);
    var a := c.params[r].address;
    var before := c.nodeQueues[a];
    var s := Slot(before, false, false);
    WakeOutcome(s, r);
    ResumeHolders(before, r);
    assert !Holds(c, a, r);
    var q := Resume(before, r);
    ChangeQueue(c, a, q, r, c.params);
    if q.phases[r].Holding? {
      TransmitOutcome(WithQueue(c, a, q, c.params), r, sendOk);
    }
  }

  // ---- Ending ----

  /** Ending returns the response delivered, or that there was none, takes the TID and the request out, and
      passes the node's slot on: the queue stays registered exactly if somebody waits. */
  lemma EndOutcome(states: seq<Client>, actions: seq<RequestTable.Action>, i: nat, r: RequestId)
    requires IsSession(states, actions) && i < |states| && IsEnabled(states[i], Ended(r))
    ensures var c := states[i]; var d := Step(c, Ended(r)); var a := c.params[r].address;
      && d.returned == c.returned[r := c.sent[r]] && d.sent == c.sent - {r} && d.pending == c.pending - {c.sent[r].tid}
      && (a in d.nodeQueues <==> SomeoneWaits(c.nodeQueues[a]))
      && (a in d.nodeQueues ==> PassedOn(c.nodeQueues[a], d.nodeQueues[a], r))
      && (forall b :: b != a ==> (b in d.nodeQueues <==> b in c.nodeQueues))
      && (forall b :: b != a && b in c.nodeQueues ==> d.nodeQueues[b] == c.nodeQueues[b])
  {
    var c := states[i];
    SessionKeeps(states, actions, i);
    var a := c.params[r].address;
    assert Holds(c, a, r);
    var s := Slot(c.nodeQueues[a], false, false);
    FinishOutcome(s, r);
    assert Next(s, Finish(r)).queue == Release(c.nodeQueues[a], r);
  }
}
