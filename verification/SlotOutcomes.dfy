/** What each step of a node's request slot does to the requests concerned, in terms of who waits and who
    owns the slot, and what a cancelled request can still become. */
module SlotOutcomes {
  import opened NodeRequestQueue
  import opened SlotRuns

  /** Nobody's phase differs but those of the exempt. */
  ghost predicate OthersStay(q: Queue, t: Queue, exempt: set<RequestId>) {
    && q.phases.Keys <= t.phases.Keys
    && forall s :: s in q.phases && s !in exempt ==> t.phases[s] == q.phases[s]
  }

  ghost predicate SomeoneWaits(q: Queue) {
    exists g :: Pending(q.phases, g)
  }

  /** The slot is passed on: the first of those who wait owns it, or nobody does when nobody waits. */
  ghost predicate PassedOn(q: Queue, t: Queue, r: RequestId) {
    && r in t.phases && t.phases[r] == Gone
    && (SomeoneWaits(q) ==>
          exists g :: Pending(q.phases, g) && t.phases.Keys == q.phases.Keys
            && t.phases[g] == Granted && t.busy && OthersStay(q, t, {r, g}))
    && (!SomeoneWaits(q) ==> !t.busy && t.waiters == [] && OthersStay(q, t, {r}))
  }

  lemma ReleasePassesOn(q: Queue, r: RequestId)
    requires HeapOk(q) && q.busy && r in q.phases && !q.phases[r].Waiting?
    ensures PassedOn(q, Release(q, r), r)
  {
    var q' := q.(phases := q.phases[r := Gone]);
    var i := HandOverSpec(q');
    if i < |q.waiters| {
      var g := q.waiters[i].request;
      assert Pending(q.phases, g);
    } else {
      forall g ensures !Pending(q.phases, g) {
        assert Pending(q.phases, g) ==> HasEntry(q.waiters, g);
      }
    }
  }

  /** Asking for the slot: it is given at once exactly when nobody owns it. */
  lemma AcquireOutcome(s: Slot, r: RequestId, priority: int)
    requires Inv(s) && Enabled(s, StartAcquire(r, priority))
    ensures var t := Next(s, StartAcquire(r, priority)).queue;
      && OthersStay(s.queue, t, {})
      && r in t.phases && t.phases[r] == if Owners(s.queue) == {} then Holding else Waiting
  {
  }

  /** Cancelling: a waiting request will not be granted the slot; one that was granted it passes it on. */
  lemma CancelOutcome(s: Slot, r: RequestId)
    requires Enabled(s, Cancel(r))
    ensures var q, t := s.queue, Next(s, Cancel(r)).queue;
      && OthersStay(q, t, {r}) && t.waiters == q.waiters && t.busy == q.busy
      && (q.phases[r] == Waiting ==> t.phases[r] == Withdrawn)
      && (q.phases[r] == Granted ==> t.phases[r] == GrantedCancelled)
      && (q.phases[r] == Failed ==> t.phases[r] == FailedCancelled)
  {
  }

  /** Resuming: only a granted request goes on to hold the slot; a cancelled one passes on what it was granted. */
  lemma WakeOutcome(s: Slot, r: RequestId)
    requires Inv(s) && Enabled(s, Wake(r))
    ensures var q, t := s.queue, Next(s, Wake(r)).queue;
      && (q.phases[r] == Granted ==> t.phases[r] == Holding && OthersStay(q, t, {r}) && t.busy == q.busy)
      && (q.phases[r] == Withdrawn || q.phases[r] == Failed ==>
            t.phases[r] == Gone && OthersStay(q, t, {r}) && t.busy == q.busy)
      && (!s.stopped && q.phases[r] == GrantedCancelled ==> PassedOn(q, t, r))
  {
    var q := s.queue;
    if !s.stopped && q.phases[r] == GrantedCancelled {
      assert r in Owners(q);
      ReleasePassesOn(q, r);
    }
  }

  /** The holder leaves. */
  lemma FinishOutcome(s: Slot, r: RequestId)
    requires Inv(s) && Enabled(s, Finish(r)) && !s.stopped
    ensures PassedOn(s.queue, Next(s, Finish(r)).queue, r)
  {
    assert r in Owners(s.queue);
    ReleasePassesOn(s.queue, r);
  }

  /** Stopping fails exactly those who wait. */
  lemma StopOutcome(s: Slot)
    requires Inv(s) && Enabled(s, Stop)
    ensures var q, t := s.queue, Next(s, Stop).queue;
      && t.waiters == [] && t.busy == q.busy && t.phases.Keys == q.phases.Keys
      && forall r :: r in q.phases ==> t.phases[r] == if q.phases[r] == Waiting then Failed else q.phases[r]
  {
    FailAllSpec(s.queue.phases, s.queue.waiters);
  }

  // ---- What a cancelled request can become ----

  predicate Leaving(q: Queue, r: RequestId) {
    r in q.phases && q.phases[r] in {Withdrawn, GrantedCancelled, FailedCancelled, Gone}
  }

  lemma NextKeepsLeaving(s: Slot, a: Action, r: RequestId)
    requires Inv(s) && Enabled(s, a) && Leaving(s.queue, r)
    ensures Leaving(Next(s, a).queue, r)
  {
    var q := s.queue;
    match a
    case StartAcquire(o, p) =>
    case Cancel(o) =>
    case Finish(o) => var _ := HandOverSpec(q.(phases := q.phases[o := Gone]));
    case Wake(o) => var _ := HandOverSpec(q.(phases := q.phases[o := Gone]));
    case Stop => FailAllSpec(q.phases, q.waiters);
  }

  /** In every run: a request cancelled before it holds the slot never holds it, nor waits again. */
  lemma {:induction false} CancelledNeverHolds(states: seq<Slot>, actions: seq<Action>, i: nat, m: nat, r: RequestId)
    requires IsRun(states, actions) && i < m < |states| && actions[i] == Cancel(r)
    ensures Leaving(states[m].queue, r)
    decreases m
  {
    RunKeepsInv(states, actions, m - 1);
    if m == i + 1 {
      assert states[i + 1] == Next(states[i], actions[i]);
      CancelOutcome(states[i], r);
    } else {
      CancelledNeverHolds(states, actions, i, m - 1, r);
      assert states[m - 1 + 1] == Next(states[m - 1], actions[m - 1]);
      NextKeepsLeaving(states[m - 1], actions[m - 1], r);
    }
  }
}
