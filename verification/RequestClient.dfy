/** The client object behind RequestTable: its queues, its pending table and its TID counter, updated in
    place. Each method is what one coroutine runs between two awaits, and is shown to do exactly that
    step of RequestTable. */
module RequestClient {
  import opened Basics
  import opened FrameCodec
  import opened NodeRequestQueue
  import opened TransactionIds
  import opened RequestTable

  class HemsClient {
    const allocator: Allocator
    var nodeQueues: map<Address, RequestQueue>
    var pending: map<nat, PendingRequest>
    // coroutine locals and futures of the requests, and history
    ghost var futures: map<RequestId, Sent>
    ghost var params: map<RequestId, Params>
    ghost var returned: map<RequestId, Sent>
    ghost var stamp: nat
    ghost var arrivals: nat

    /** No two nodes share a queue object. */
    ghost predicate Valid()
      reads this
    {
      forall a, b :: a in nodeQueues && b in nodeQueues && a != b ==> nodeQueues[a] != nodeQueues[b]
    }

    ghost function Queues(): map<Address, Queue>
      reads this, nodeQueues.Values
    {
      map a | a in nodeQueues :: nodeQueues[a].Model()
    }

    ghost function Model(): Client
      reads this, allocator, nodeQueues.Values
    {
      Client(Queues(), pending, allocator.counter, params, futures, returned, stamp, arrivals)
    }

    constructor ()
      ensures Valid() && Model() == NEW_CLIENT
    {
      allocator := new Allocator();
      nodeQueues, pending, futures, params, returned, stamp, arrivals := map[], map[], map[], map[], map[], 0, 0;
    }

    /** The matching part of `_process_frame`. */
    method ProcessResponse(f: Frame, source: Address)
      requires f.tid >= 0
      modifies this
      ensures Model() == Step(old(Model()), Received(f, source))
    {
      ghost var before := Queues();
      if f.tid in pending && f.esv in pending[f.tid].params.responseEsvs
         && MatchesRequest(f, source, pending[f.tid].params)
      {
        var r := pending[f.tid].request;
        pending := pending - {f.tid};
        if r in futures {
          futures := futures[r := futures[r].(response := Some(Delivery(f, source, arrivals)))];
        }
      }
      arrivals := arrivals + 1;
      assert Queues() == before;
    }

    /** The `finally` block of `_send_request`. */
    method Finish(r: RequestId, queue: RequestQueue, address: Address, tid: Option<nat>)
      requires Valid() && r in params && params[r].address == address
      requires address in nodeQueues && nodeQueues[address] == queue
      requires tid == if r in futures then Some(futures[r].tid) else None
      modifies this, queue
      ensures Valid() && Model() == Leave(old(Model()), r)
      ensures nodeQueues.Values <= old(nodeQueues.Values)
    {
      ghost var before := Model();
      if tid.Some? {
        pending := pending - {tid.value};
        returned := returned[r := futures[r]];
      }
      futures := futures - {r};
      assert Queues() == before.nodeQueues;
      LeaveQueue(r, queue, address);
      assert Queues() == Leave(before, r).nodeQueues;
    }

    /** Release the slot, and forget the node's queue once nobody holds it or waits for it. */
    method LeaveQueue(r: RequestId, queue: RequestQueue, address: Address)
      requires Valid() && address in nodeQueues && nodeQueues[address] == queue
      modifies `nodeQueues, queue
      ensures Valid() && nodeQueues.Values <= old(nodeQueues.Values)
      ensures var q := Release(old(Queues())[address], r);
        Queues() == if Idle(q) then old(Queues()) - {address} else old(Queues())[address := q]
    {
      ghost var before := Queues();
      queue.phases := queue.phases[r := Gone];
      queue.ReleaseSlot();
      assert queue.Model() == Release(before[address], r);
      assert Queues() == before[address := queue.Model()];
      if !queue.busy && queue.waiters == [] && address in nodeQueues && nodeQueues[address] == queue {
        nodeQueues := nodeQueues - {address};
        assert Queues() == before - {address};
      }
    }

    /** `_send_request` from the end of `acquire` to its next await. */
    method TransmitRequest(r: RequestId, queue: RequestQueue, p: Params, sendOk: bool)
      requires Valid() && r in params && params[r] == p && r !in futures
      requires p.address in nodeQueues && nodeQueues[p.address] == queue
      modifies this, queue, allocator
      ensures Valid() && Model() == Transmit(old(Model()), r, sendOk)
      ensures nodeQueues.Values <= old(nodeQueues.Values)
    {
      ghost var before := Model();
      var tid, search := NextId();
      if tid.None? {
        stamp := stamp + MAX_TID;
        assert Queues() == before.nodeQueues;
        assert Model() == before.(counter := search.counter, stamp := before.stamp + MAX_TID);
        Finish(r, queue, p.address, None);
        TransmitUnfolds(before, r, sendOk);
      } else {
        assert Register(before, r, tid.value, search.steps) == Register(Model(), r, tid.value, search.steps);
        SendRegistered(r, queue, p, tid.value, search.steps, sendOk);
        TransmitUnfolds(before, r, sendOk);
      }
    }

    method NextId() returns (tid: Option<nat>, ghost search: Search)
      modifies allocator
      ensures search == FindFree(old(allocator.counter), pending.Keys, MAX_TID)
      ensures tid == if search.Found? then Some(search.tid) else None
      ensures Model() == old(Model()).(counter := if search.Found? then search.tid else search.counter)
    {
      ghost var before := Queues();
      search := FindFree(allocator.counter, pending.Keys, MAX_TID);
      tid := allocator.NextTransactionId(pending.Keys);
      assert Queues() == before;
    }

    /** The TID of a discovery probe, or of a frame passed to `send` without one. */
    method DrawTransactionId() returns (tid: Option<nat>)
      modifies allocator, `stamp
      ensures Model() == Step(old(Model()), Drawn)
      ensures tid.Some? ==> tid.value !in pending
    {
      ghost var before := Model();
      ghost var search;
      tid, search := NextId();
      stamp := stamp + (if search.Found? then search.steps else MAX_TID);
      FoundIsFree(before.counter, before.pending.Keys);
      assert Queues() == before.nodeQueues;
    }

    method SendRegistered(r: RequestId, queue: RequestQueue, p: Params, tid: nat, ghost steps: nat, sendOk: bool)
      requires Valid() && r in params && params[r] == p && r !in futures && allocator.counter == tid
      requires p.address in nodeQueues && nodeQueues[p.address] == queue
      modifies this, queue
      ensures Valid() && nodeQueues.Values <= old(nodeQueues.Values)
      ensures var d := Register(old(Model()), r, tid, steps); Model() == if sendOk then d else Leave(d, r)
    {
      ghost var before := Queues();
      pending := pending[tid := PendingRequest(p, r)];
      stamp := stamp + steps;
      futures := futures[r := Sent(tid, stamp, None)];
      assert Queues() == before;
      if !sendOk {
        Finish(r, queue, p.address, Some(tid));
      }
    }

    /** `_send_request` up to its first await. */
    method SendRequest(r: RequestId, p: Params, priority: int, sendOk: bool)
      requires Valid() && r !in params && r !in futures
      modifies this, allocator, nodeQueues.Values
      ensures Valid() && Model() == Step(old(Model()), Begin(r, p, priority, sendOk))
      ensures forall q :: q in nodeQueues.Values ==> q in old(nodeQueues.Values) || fresh(q)
    {
      ghost var before := Model();
      var queue := EnterQueue(r, p, priority);
      if queue.phases[r].Holding? {
        TransmitRequest(r, queue, p, sendOk);
      }
      BeginUnfolds(before, r, p, priority, sendOk);
    }

    /** Look up the node's queue, or create it, and enter `acquire`. */
    method EnterQueue(r: RequestId, p: Params, priority: int) returns (queue: RequestQueue)
      requires Valid() && r !in params
      modifies this, nodeQueues.Values
      ensures Valid() && p.address in nodeQueues && nodeQueues[p.address] == queue
      ensures queue in old(nodeQueues.Values) || fresh(queue)
      ensures nodeQueues == old(nodeQueues)[p.address := queue] && futures == old(futures)
      ensures var q := Acquire(QueueAt(old(Model()), p.address), r, priority);
        && queue.Model() == q
        && Model() == old(Model()).(nodeQueues := old(Queues())[p.address := q], params := old(params)[r := p])
    {
      ghost var before := Model();
      if p.address !in nodeQueues {
        var empty := new RequestQueue();
        nodeQueues := nodeQueues[p.address := empty];
      }
      queue := nodeQueues[p.address];
      assert queue.Model() == QueueAt(before, p.address);
      assert Queues() == before.nodeQueues[p.address := QueueAt(before, p.address)];
      Enter(r, p, priority, queue);
      Overwritten(before.nodeQueues, p.address, QueueAt(before, p.address), queue.Model());
    }

    method Enter(r: RequestId, p: Params, priority: int, queue: RequestQueue)
      requires Valid() && r !in params && p.address in nodeQueues && nodeQueues[p.address] == queue
      modifies `params, queue
      ensures var q := Acquire(old(queue.Model()), r, priority);
        && queue.Model() == q
        && Model() == old(Model()).(nodeQueues := old(Queues())[p.address := q], params := old(params)[r := p])
    {
      ghost var before := Model();
      params := params[r := p];
      queue.BeginAcquire(r, priority);
      assert Queues() == before.nodeQueues[p.address := queue.Model()];
    }

    /** `_send_request` when its task resumes inside `acquire`. */
    method ResumeRequest(r: RequestId, queue: RequestQueue, p: Params, sendOk: bool)
      requires Valid() && IsEnabled(Model(), Resumed(r, sendOk)) && params[r] == p && nodeQueues[p.address] == queue
      requires r !in futures
      modifies this, allocator, nodeQueues.Values
      ensures Valid() && Model() == Step(old(Model()), Resumed(r, sendOk))
      ensures nodeQueues.Values <= old(nodeQueues.Values)
    {
      ghost var before := Model();
      queue.EndAcquire(r);
      assert Queues() == before.nodeQueues[p.address := Resume(before.nodeQueues[p.address], r)];
      if r in queue.phases && queue.phases[r].Holding? {
        TransmitRequest(r, queue, p, sendOk);
      }
    }
  }
}
