/** Reference-counted interest in EPCs (DeviceManager.subscribe_epcs and _effective_epcs,
    src/pyhems/device_manager.py). */
module Subscriptions {
  import opened Basics

  type Key = nat
  type Counter = map<Epc, int>

  datatype Counts = Counts(counters: map<Key, Counter>, confirmed: set<Key>)

  function At(c: Counter, e: Epc): int {
    if e in c then c[e] else 0
  }

  function Increased(c: Counter, epcs: set<Epc>): Counter {
    map e | e in c.Keys + epcs :: At(c, e) + (if e in epcs then 1 else 0)
  }

  /** Subtract one for each EPC, then drop those that are not positive. */
  function Decreased(c: Counter, epcs: set<Epc>): Counter {
    map e | e in c.Keys && (e in epcs ==> c[e] > 1) :: if e in epcs then c[e] - 1 else c[e]
  }

  function Subscribe(s: Counts, key: Key, epcs: set<Epc>): Counts {
    Counts(s.counters[key := Increased(if key in s.counters then s.counters[key] else map[], epcs)],
           s.confirmed + {key})
  }

  function Unsubscribe(s: Counts, key: Key, epcs: set<Epc>): Counts {
    if key !in s.counters then s else s.(counters := s.counters[key := Decreased(s.counters[key], epcs)])
  }

  function EffectiveEpcs(s: Counts, key: Key, candidates: set<Epc>): set<Epc> {
    if key !in s.confirmed then candidates
    else candidates * (if key in s.counters then s.counters[key].Keys else {})
  }

  /** The unsubscribe function that `subscribe_epcs` returns, with the variables it closes over. */
  class Subscription {
    const key: Key
    const epcs: set<Epc>
    var unsubscribed: bool

    constructor (key: Key, epcs: set<Epc>)
      ensures this.key == key && this.epcs == epcs && !unsubscribed
    {
      this.key, this.epcs, unsubscribed := key, epcs, false;
    }
  }

  class SubscriptionRegistry {
    var subscribedEpcs: map<Key, Counter>
    var confirmed: set<Key>

    function Model(): Counts
      reads this
    {
      Counts(subscribedEpcs, confirmed)
    }

    constructor ()
      ensures Model() == Counts(map[], {})
    {
      subscribedEpcs, confirmed := map[], {};
    }

    method SubscribeEpcs(key: Key, epcs: set<Epc>) returns (handle: Subscription)
      modifies this
      ensures Model() == Subscribe(old(Model()), key, epcs)
      ensures fresh(handle) && handle.key == key && handle.epcs == epcs && !handle.unsubscribed
    {
      var counts := if key in subscribedEpcs then subscribedEpcs[key] else map[];
      subscribedEpcs := subscribedEpcs[key := Increased(counts, epcs)];
      confirmed := confirmed + {key};
      handle := new Subscription(key, epcs);
    }

    /** Calling the unsubscribe function. */
    method Call(handle: Subscription)
      modifies this, handle`unsubscribed
      ensures handle.unsubscribed
      ensures Model() ==
        if old(handle.unsubscribed) then old(Model()) else Unsubscribe(old(Model()), handle.key, handle.epcs)
    {
      if handle.unsubscribed {
        return;
      }
      handle.unsubscribed := true;
      if handle.key !in subscribedEpcs {
        return;
      }
      subscribedEpcs := subscribedEpcs[handle.key := Decreased(subscribedEpcs[handle.key], handle.epcs)];
    }
  }

  // ---- Every sequence of calls ----

  datatype Handle = Handle(key: Key, epcs: set<Epc>, active: bool)

  /** Subscribing, or calling the unsubscribe function of the n-th subscription (any number of times). */
  datatype Call = Subscribing(key: Key, epcs: set<Epc>) | Unsubscribing(n: nat)

  datatype World = World(counts: Counts, handles: seq<Handle>)

  function Step(w: World, c: Call): World {
    match c
    case Subscribing(key, epcs) =>
      World(Subscribe(w.counts, key, epcs), w.handles + [Handle(key, epcs, true)])
    case Unsubscribing(n) =>
      if n < |w.handles| && w.handles[n].active then
        World(Unsubscribe(w.counts, w.handles[n].key, w.handles[n].epcs),
              w.handles[n := w.handles[n].(active := false)])
      else w
  }

  function After(calls: seq<Call>): World {
    if calls == [] then World(Counts(map[], {}), []) else Step(After(calls[..|calls| - 1]), calls[|calls| - 1])
  }

  predicate Wants(h: Handle, key: Key, e: Epc) {
    h.active && h.key == key && e in h.epcs
  }

  /** The number of active subscriptions of a device that contain an EPC. */
  function Active(handles: seq<Handle>, key: Key, e: Epc): nat {
    if handles == [] then 0
    else Active(handles[..|handles| - 1], key, e) + (if Wants(handles[|handles| - 1], key, e) then 1 else 0)
  }

  ghost predicate Counted(w: World, key: Key, e: Epc) {
    && (key in w.counts.counters ==>
          && At(w.counts.counters[key], e) == Active(w.handles, key, e)
          && (e in w.counts.counters[key] ==> w.counts.counters[key][e] > 0))
    && (key !in w.counts.counters ==> Active(w.handles, key, e) == 0)
    && (key in w.counts.confirmed <==> key in w.counts.counters)
    && (key in w.counts.confirmed <==> exists h :: h in w.handles && h.key == key)
  }

  lemma {:induction false} ActiveAfterUnsubscribe(handles: seq<Handle>, n: nat, key: Key, e: Epc)
    requires n < |handles| && handles[n].active
    ensures Active(handles[n := handles[n].(active := false)], key, e)
      == Active(handles, key, e) - (if Wants(handles[n], key, e) then 1 else 0)
  {
    var last := |handles| - 1;
    var after := handles[n := handles[n].(active := false)];
    if n < last {
      ActiveAfterUnsubscribe(handles[..last], n, key, e);
      assert after[..last] == handles[..last][n := handles[n].(active := false)];
    } else {
      assert after[..last] == handles[..last];
    }
  }

  /** After any calls, each stored count is the number of active subscriptions that contain the EPC,
      and no zero count is stored. */
  lemma {:induction false} CountsAreActive(calls: seq<Call>, key: Key, e: Epc)
    ensures Counted(After(calls), key, e)
  {
    if calls != [] {
      var before := After(calls[..|calls| - 1]);
      CountsAreActive(calls[..|calls| - 1], key, e);
      match calls[|calls| - 1]
      case Subscribing(k, epcs) =>
        var h := Handle(k, epcs, true);
        assert (before.handles + [h])[..|before.handles|] == before.handles;
        assert forall g :: g in before.handles + [h] <==> g in before.handles || g == h;
      case Unsubscribing(n) =>
        if n < |before.handles| && before.handles[n].active {
          UnsubscribingCounts(before, n, key, e);
        }
    }
  }

  lemma UnsubscribingCounts(w: World, n: nat, key: Key, e: Epc)
    requires Counted(w, key, e) && n < |w.handles| && w.handles[n].active
    ensures Counted(Step(w, Unsubscribing(n)), key, e)
  {
    ActiveAfterUnsubscribe(w.handles, n, key, e);
    var t := Step(w, Unsubscribing(n));
    assert (exists h :: h in w.handles && h.key == key) <==> (exists h :: h in t.handles && h.key == key) by {
      assert forall i :: 0 <= i < |w.handles| ==> t.handles[i].key == w.handles[i].key;
      if h :| h in w.handles && h.key == key {
        var i :| 0 <= i < |w.handles| && w.handles[i] == h;
        assert t.handles[i] in t.handles && t.handles[i].key == key;
      }
      if h :| h in t.handles && h.key == key {
        var i :| 0 <= i < |t.handles| && t.handles[i] == h;
        assert w.handles[i] in w.handles && w.handles[i].key == key;
      }
    }
  }

  lemma {:induction false} ActiveMeansSome(handles: seq<Handle>, key: Key, e: Epc)
    ensures Active(handles, key, e) > 0 <==> exists i :: 0 <= i < |handles| && Wants(handles[i], key, e)
  {
    if handles != [] {
      var last := |handles| - 1;
      ActiveMeansSome(handles[..last], key, e);
      assert forall i :: 0 <= i < last ==> handles[..last][i] == handles[i];
      if Wants(handles[last], key, e) {
        assert Wants(handles[last], key, e);
      } else if Active(handles[..last], key, e) > 0 {
        var i :| 0 <= i < last && Wants(handles[..last][i], key, e);
        assert Wants(handles[i], key, e);
      }
    }
  }

  /** What is polled: every candidate until the device is first subscribed to; afterwards exactly the
      candidates that some active subscription contains. */
  lemma EffectiveIsUnionOfActive(calls: seq<Call>, key: Key, candidates: set<Epc>, e: Epc)
    ensures var w := After(calls);
      e in EffectiveEpcs(w.counts, key, candidates) <==>
        e in candidates &&
        ((forall h :: h in w.handles ==> h.key != key)
         || exists i :: 0 <= i < |w.handles| && Wants(w.handles[i], key, e))
  {
    CountsAreActive(calls, key, e);
    ActiveMeansSome(After(calls).handles, key, e);
  }
}
