/** What each event does to the device manager, said without its own definitions: which frames change a cache and how,
    which are deferred, what is set up next, and when a range is written. */
module ManagerOutcomes {
  import opened Basics
  import opened FrameCodec
  import opened DeviceManager
  import opened DeviceRuns
  import opened DeferralCap

  // ---- Values ----

  /** The value at `e` after properties were listed: that of the last listing, or what was there. */
  ghost predicate LastListedWins(before: Cache, props: seq<Property>, e: Epc, after: Option<seq<byte>>) {
    && (forall j :: 0 <= j < |props| && props[j].epc == e && (forall k :: j < k < |props| ==> props[k].epc != e)
          ==> after == Some(props[j].edt))
    && ((forall j :: 0 <= j < |props| ==> props[j].epc != e) ==> after == ValueAt(before, e))
  }

  /** What "the last value in a list" means. */
  lemma {:induction false} LastInRule(props: seq<Property>, e: Epc)
    ensures match LastIn(props, e)
      case Some(v) =>
        (exists j :: 0 <= j < |props| && props[j] == Property(e, v) && forall k :: j < k < |props| ==> props[k].epc != e)
      case None => forall j :: 0 <= j < |props| ==> props[j].epc != e
  {
    if props != [] {
      var last := |props| - 1;
      LastInRule(props[..last], e);
      assert forall j :: 0 <= j < last ==> props[..last][j] == props[j];
      if props[last].epc == e {
        assert props[last] == Property(e, props[last].edt);
      } else if LastIn(props, e).Some? {
        var v := LastIn(props, e).value;
        var j :| 0 <= j < last && props[..last][j] == Property(e, v) && forall k :: j < k < last ==> props[..last][k].epc != e;
        assert props[j] == Property(e, v);
        assert forall k :: j < k < |props| ==> props[k].epc != e;
      }
    }
  }

  lemma PutLastWins(before: Cache, props: seq<Property>, e: Epc)
    ensures LastListedWins(before, props, e, ValueAt(Put(before, props), e))
  {
    PutListsLast(before, props, e);
    LastInRule(props, e);
  }

  /** Services that carry values: Get_Res, Get_SNA, INF and INFC. Any other leaves caches alone. */
  lemma FrameOutcome(states: seq<Manager>, actions: seq<Action>, registry: Registry, i: nat, key: DeviceKey, frame: Arrival,
                     e: Epc)
    requires IsRun(states, actions, registry) && i < |actions|
    requires actions[i] == FrameArrives(key, frame) && key in states[i].data
    ensures key in states[i + 1].data
    ensures frame.esv == 0x72 || frame.esv == 0x52 || frame.esv == 0x73 || frame.esv == 0x74 ==>
      LastListedWins(states[i].data[key].cache, frame.props, e, ValueAt(states[i + 1].data[key].cache, e))
    ensures frame.esv != 0x72 && frame.esv != 0x52 && frame.esv != 0x73 && frame.esv != 0x74 ==> states[i + 1] == states[i]
    ensures forall k :: k in states[i].data && k != key ==>
      k in states[i + 1].data && states[i + 1].data[k] == states[i].data[k]
    ensures states[i + 1].data[key].attempted == states[i].data[key].attempted
  {
    assert Follows(states, actions, registry, i);
    FrameTouches(states[i], key, frame, registry);
    PutLastWins(states[i].data[key].cache, frame.props, e);
  }

  /** A frame for an object that is not registered is kept exactly if it is no request, its node's task runs, and
      fewer than 64 are kept for the object; nothing else changes. */
  lemma DeferOutcome(states: seq<Manager>, actions: seq<Action>, registry: Registry, i: nat, key: DeviceKey, frame: Arrival)
    requires IsRun(states, actions, registry) && i < |actions|
    requires actions[i] == FrameArrives(key, frame) && key !in states[i].data
    ensures var s := states[i];
      var request := frame.esv == 0x60 || frame.esv == 0x61 || frame.esv == 0x62 || frame.esv == 0x63 || frame.esv == 0x6E;
      var kept := if key in s.deferred then s.deferred[key] else [];
      states[i + 1] ==
        if !request && HasWorker(s.workers, key.node) && |kept| < 64
        then s.(deferred := s.deferred[key := kept + [frame]]) else s
  {
    assert Follows(states, actions, registry, i);
    JobsRunInOrder(states, actions, registry, i);
  }

  lemma LastInSnoc(props: seq<Property>, p: Property, e: Epc)
    ensures LastIn(props + [p], e) == if p.epc == e then Some(p.edt) else LastIn(props, e)
  {
    assert (props + [p])[..|props|] == props;
  }

  lemma {:induction false} AcceptedListsLast(props: seq<Property>, accepted: set<Epc>, e: Epc)
    ensures LastIn(Accepted(props, accepted), e) == if e in accepted then LastIn(props, e) else None
  {
    if props != [] {
      var front, p := props[..|props| - 1], props[|props| - 1];
      AcceptedListsLast(front, accepted, e);
      if p.epc in accepted {
        LastInSnoc(Accepted(front, accepted), p, e);
      } else {
        assert Accepted(front, accepted) + [] == Accepted(front, accepted);
      }
    }
  }

  /** A set, by the user or by range initialization, caches for each EPC the last value requested exactly if the
      device accepted the EPC. */
  lemma SetOutcome(states: seq<Manager>, actions: seq<Action>, registry: Registry, i: nat, key: DeviceKey,
                   props: seq<Property>, accepted: set<Epc>, e: Epc)
    requires IsRun(states, actions, registry) && i < |actions| && key in states[i].data
    requires actions[i] == UserSet(key, props, accepted)
             || (actions[i].Acknowledged? && actions[i].key == key && actions[i].props == props && actions[i].accepted == accepted)
    ensures key in states[i + 1].data
    ensures ValueAt(states[i + 1].data[key].cache, e) ==
      Or(if e in accepted then LastIn(props, e) else None, ValueAt(states[i].data[key].cache, e))
  {
    assert Follows(states, actions, registry, i);
    RunKeeps(states, actions, registry, i);
    StepCache(states[i], actions[i], registry, key);
    AcceptedListsLast(props, accepted, e);
    PutListsLast(states[i].data[key].cache, Accepted(props, accepted), e);
  }

  // ---- Ranges ----

  /** The list of the binding is unset (a header byte 0xFD), not tried yet, and the number of channels is known
      and allows a range of `range`. */
  predicate Unset(b: Binding, d: Device, range: int) {
    && b.selectorEpc.Some? && b.selectorEpc.value !in d.attempted
    && b.resultEpc in d.cache && |d.cache[b.resultEpc]| >= 2
    && (d.cache[b.resultEpc][0] == 0xFD || d.cache[b.resultEpc][1] == 0xFD)
    && b.countEpc.Some? && b.countEpc.value in d.cache && |d.cache[b.countEpc.value]| == 1
    && 1 <= d.cache[b.countEpc.value][0] <= 252
    && b.maxRange.Some?
    && 1 <= range <= 255 && range <= b.maxRange.value && range <= d.cache[b.countEpc.value][0]
    && (range == b.maxRange.value || range == d.cache[b.countEpc.value][0])
  }

  /** A range is written for a binding exactly if its list is unset; it starts at channel 1 and has as many channels
      as there are, up to the binding's maximum. */
  lemma RangeRule(b: Binding, d: Device, p: Property)
    ensures RangeFor(b, d) == Some(p) <==>
      exists range :: Unset(b, d, range) && p == Property(b.selectorEpc.value, [1, range])
  {
    if RangeFor(b, d) == Some(p) {
      var range := p.edt[1];
      var result := d.cache[b.resultEpc];
      assert 0xFD in result[..2] ==> result[0] == 0xFD || result[1] == 0xFD;
      assert Unset(b, d, range);
    }
    if range :| Unset(b, d, range) && p == Property(b.selectorEpc.value, [1, range]) {
      var result := d.cache[b.resultEpc];
      assert result[..2][0] == result[0] && result[..2][1] == result[1];
    }
  }

  /** The ranges written for an object are those of its bindings. */
  lemma {:induction false} RangesRule(bindings: seq<Binding>, d: Device, p: Property)
    ensures p in Ranges(bindings, d) <==> exists i :: 0 <= i < |bindings| && RangeFor(bindings[i], d) == Some(p)
  {
    if bindings != [] {
      var last := |bindings| - 1;
      RangesRule(bindings[..last], d, p);
      assert forall i :: 0 <= i < last ==> bindings[..last][i] == bindings[i];
      if i :| 0 <= i < |bindings| && RangeFor(bindings[i], d) == Some(p) {
        assert i < last ==> RangeFor(bindings[..last][i], d) == Some(p);
      }
    }
  }

  /** Ranges are to be written for the object. */
  ghost predicate NeedsRange(registry: Registry, key: DeviceKey, d: Device) {
    exists i, range :: 0 <= i < |registry(key.eoj)| && Unset(registry(key.eoj)[i], d, range)
  }

  lemma NeedsRangeRule(registry: Registry, key: DeviceKey, d: Device)
    ensures Ranges(registry(key.eoj), d) != [] <==> NeedsRange(registry, key, d)
  {
    var bindings := registry(key.eoj);
    if Ranges(bindings, d) != [] {
      var p := Ranges(bindings, d)[0];
      RangesRule(bindings, d, p);
      var i :| 0 <= i < |bindings| && RangeFor(bindings[i], d) == Some(p);
      RangeRule(bindings[i], d, p);
      var range :| Unset(bindings[i], d, range) && p == Property(bindings[i].selectorEpc.value, [1, range]);
    }
    if i, range :| 0 <= i < |bindings| && Unset(bindings[i], d, range) {
      var p := Property(bindings[i].selectorEpc.value, [1, range]);
      RangeRule(bindings[i], d, p);
      RangesRule(bindings, d, p);
    }
  }

  /** A value frame that leaves a list of a registered object unset queues its initialization at the node, and a
      task to run it; no other frame queues anything. */
  lemma FrameQueues(states: seq<Manager>, actions: seq<Action>, registry: Registry, i: nat, key: DeviceKey, frame: Arrival)
    requires IsRun(states, actions, registry) && i < |actions|
    requires actions[i] == FrameArrives(key, frame) && key in states[i].data
    ensures var s, t := states[i], states[i + 1];
      var values := frame.esv == 0x72 || frame.esv == 0x52 || frame.esv == 0x73 || frame.esv == 0x74;
      key in t.data && SeqAt(t.jobs, key.node) == SeqAt(s.jobs, key.node)
        + if values && NeedsRange(registry, key, t.data[key]) then [Recover(key.eoj)] else []
    ensures forall n :: n != key.node ==> SeqAt(states[i + 1].jobs, n) == SeqAt(states[i].jobs, n)
  {
    assert Follows(states, actions, registry, i);
    FrameQueuesJob(states[i], key, frame, registry);
  }

  lemma FrameQueuesJob(s: Manager, key: DeviceKey, frame: Arrival, registry: Registry)
    requires key in s.data
    ensures var t := ArriveStep(s, key, frame, registry);
      var values := frame.esv == 0x72 || frame.esv == 0x52 || frame.esv == 0x73 || frame.esv == 0x74;
      key in t.data && SeqAt(t.jobs, key.node) == SeqAt(s.jobs, key.node)
        + if values && NeedsRange(registry, key, t.data[key]) then [Recover(key.eoj)] else []
    ensures forall n :: n != key.node ==> SeqAt(ArriveStep(s, key, frame, registry).jobs, n) == SeqAt(s.jobs, n)
  {
    var d := s.data[key].(cache := Put(s.data[key].cache, frame.props));
    NeedsRangeRule(registry, key, d);
    EnqueueJobs(s.(data := s.data[key := d]), key.node, Recover(key.eoj));
  }

  lemma EnqueueJobs(s: Manager, n: Node, job: Job)
    ensures var t := Enqueue(s, n, job);
      && SeqAt(t.jobs, n) == SeqAt(s.jobs, n) + [job] && t.data == s.data
      && forall m :: m != n ==> SeqAt(t.jobs, m) == SeqAt(s.jobs, m)
  {
  }

  // ---- Jobs and setup ----

  /** An instance list queues a discovery job at its node, behind the jobs that wait. */
  lemma DiscoveryQueues(states: seq<Manager>, actions: seq<Action>, registry: Registry, i: nat, n: Node, instances: seq<Eoj>)
    requires IsRun(states, actions, registry) && i < |actions| && actions[i] == Discovered(n, instances)
    ensures SeqAt(states[i + 1].jobs, n) == SeqAt(states[i].jobs, n) + [Discover(instances)]
    ensures HasWorker(states[i + 1].workers, n)
    ensures states[i + 1].data == states[i].data && states[i + 1].deferred == states[i].deferred
  {
    assert Follows(states, actions, registry, i);
    WorkerRuns(states, actions, registry, i + 1, n);
  }

  lemma WorkerRuns(states: seq<Manager>, actions: seq<Action>, registry: Registry, i: nat, n: Node)
    requires IsRun(states, actions, registry) && i < |states| && n in states[i].registered
    ensures HasWorker(states[i].workers, n)
  {
    RunKeeps(states, actions, registry, i);
  }

  predicate Known(s: Manager, key: DeviceKey) {
    key in s.data || key in s.pendingSetups
  }

  /** The task goes on with the first instance, from the k-th, that is not known, or is done with the list. */
  ghost predicate GoesOn(s: Manager, t: Manager, w: WorkerId, instances: seq<Eoj>, k: nat) {
    && w in t.workers && w in s.workers && k <= |instances| && t.workers[w].node == s.workers[w].node
    && t.data == s.data && t.deferred == s.deferred
    && (forall j :: 0 <= j < k ==> Known(s, DeviceKey(s.workers[w].node, instances[j])))
    && (if k == |instances| then t.workers[w].stage == Ready && t.pendingSetups == s.pendingSetups
        else var key := DeviceKey(s.workers[w].node, instances[k]);
          && !Known(s, key) && t.pendingSetups == s.pendingSetups + {key}
          && t.workers[w].stage == Reading(instances[k], instances[k + 1..]))
  }

  lemma {:induction false} NextIsFirstUnknown(s: Manager, w: WorkerId, instances: seq<Eoj>) returns (k: nat)
    requires w in s.workers
    ensures GoesOn(s, NextInstance(s, w, instances), w, instances, k)
    decreases |instances|
  {
    if instances == [] {
      k := 0;
    } else if Known(s, DeviceKey(s.workers[w].node, instances[0])) {
      var j := NextIsFirstUnknown(s, w, instances[1..]);
      k := j + 1;
      forall m | 0 <= m < k ensures Known(s, DeviceKey(s.workers[w].node, instances[m])) {
        if m > 0 {
          assert instances[1..][m - 1] == instances[m];
        }
      }
      if k < |instances| {
        assert instances[1..][j] == instances[k] && instances[1..][j + 1..] == instances[k + 1..];
      }
    } else {
      k := 0;
    }
    NextInstanceTouches(s, w, instances);
  }

  /** A discovery job, taken from the front of the queue, sets up the first instance that is not known. */
  lemma DiscoveryStarts(states: seq<Manager>, actions: seq<Action>, registry: Registry, i: nat, w: WorkerId, n: Node)
    returns (k: nat)
    requires IsRun(states, actions, registry) && i < |actions| && actions[i] == StartJob(w)
    requires w in states[i].workers && states[i].workers[w].node == n
    requires SeqAt(states[i].jobs, n) != [] && states[i].jobs[n][0].Discover?
    ensures GoesOn(states[i], states[i + 1], w, states[i].jobs[n][0].instances, k)
    ensures SeqAt(states[i + 1].jobs, n) == states[i].jobs[n][1..]
  {
    assert Follows(states, actions, registry, i);
    k := StartGoesOn(states[i], w, registry);
  }

  /** When a setup ends, without a device object or with one, the object is no longer marked and the task goes on
      with the first unknown instance after it. So every unknown instance gets its turn. */
  lemma SetupEnds(states: seq<Manager>, actions: seq<Action>, registry: Registry, i: nat, w: WorkerId) returns (k: nat)
    requires IsRun(states, actions, registry) && i < |actions|
    requires w in states[i].workers && InSetup(states[i].workers[w].stage)
    requires actions[i] == ReadFailed(w) || actions[i] == StageEnds(w)
    ensures var s := states[i]; var stage := s.workers[w].stage;
      GoesOn(s.(pendingSetups := s.pendingSetups - {DeviceKey(s.workers[w].node, stage.eoj)}), states[i + 1], w, stage.rest, k)
  {
    assert Follows(states, actions, registry, i);
    k := FinishGoesOn(states[i], w);
  }

  lemma StartGoesOn(s: Manager, w: WorkerId, registry: Registry) returns (k: nat)
    requires IsEnabled(s, StartJob(w)) && s.jobs[s.workers[w].node][0].Discover?
    ensures var t := StartStep(s, w, registry);
      && GoesOn(s, t, w, s.jobs[s.workers[w].node][0].instances, k)
      && SeqAt(t.jobs, s.workers[w].node) == s.jobs[s.workers[w].node][1..]
  {
    var n := s.workers[w].node;
    var job := s.jobs[n][0];
    var u := s.(jobs := s.jobs[n := s.jobs[n][1..]], started := s.started[n := SeqAt(s.started, n) + [job]]);
    k := NextIsFirstUnknown(u, w, job.instances);
    NextKeepsJobs(u, w, job.instances);
  }

  lemma {:induction false} NextKeepsJobs(s: Manager, w: WorkerId, instances: seq<Eoj>)
    requires w in s.workers
    ensures NextInstance(s, w, instances).jobs == s.jobs
    decreases |instances|
  {
    if instances != [] && Known(s, DeviceKey(s.workers[w].node, instances[0])) {
      NextKeepsJobs(s, w, instances[1..]);
    }
  }

  lemma FinishGoesOn(s: Manager, w: WorkerId) returns (k: nat)
    requires w in s.workers && InSetup(s.workers[w].stage)
    ensures var key := DeviceKey(s.workers[w].node, s.workers[w].stage.eoj);
      GoesOn(s.(pendingSetups := s.pendingSetups - {key}), FinishSetup(s, w), w, s.workers[w].stage.rest, k)
  {
    var key := DeviceKey(s.workers[w].node, s.workers[w].stage.eoj);
    k := NextIsFirstUnknown(s.(pendingSetups := s.pendingSetups - {key}), w, s.workers[w].stage.rest);
  }

  /** When a range has been acknowledged, a setup goes on to the notification and a range job is over, as it is when
      the write came to nothing. */
  lemma AcknowledgedGoesOn(states: seq<Manager>, actions: seq<Action>, registry: Registry, i: nat, w: WorkerId)
    requires IsRun(states, actions, registry) && i < |actions| && w in states[i].workers
    requires (actions[i].Acknowledged? && actions[i].worker == w)
             || (actions[i] == StageEnds(w) && states[i].workers[w].stage.Recovering?)
    ensures w in states[i + 1].workers
    ensures states[i].workers[w].stage.Writing? ==>
      (states[i + 1].workers[w].stage == Notifying(states[i].workers[w].stage.eoj, states[i].workers[w].stage.rest))
    ensures states[i].workers[w].stage.Recovering? ==> states[i + 1].workers[w].stage == Ready
    ensures states[i + 1].jobs == states[i].jobs && states[i + 1].deferred == states[i].deferred
  {
    assert Follows(states, actions, registry, i);
  }

  /** When a node's jobs are done, its task is gone, and so are the frames kept for its unregistered objects, and only
      those. */
  lemma TaskEnds(states: seq<Manager>, actions: seq<Action>, registry: Registry, i: nat, w: WorkerId, n: Node)
    requires IsRun(states, actions, registry) && i < |actions| && actions[i] == EndWorker(w)
    requires w in states[i].workers && states[i].workers[w].node == n
    ensures states[i + 1].workers == states[i].workers - {w} && !HasWorker(states[i + 1].workers, n)
    ensures SeqAt(states[i].jobs, n) == [] && SeqAt(states[i + 1].jobs, n) == [] && states[i + 1].data == states[i].data
    ensures forall k :: k in states[i + 1].deferred <==> k in states[i].deferred && k.node != n
    ensures forall k :: k in states[i + 1].deferred ==> states[i + 1].deferred[k] == states[i].deferred[k]
  {
    assert Follows(states, actions, registry, i);
    RunKeeps(states, actions, registry, i);
    assert WorkersOk(states[i]);
    assert DeferredOk(states[i]);
  }

  /** A range job, and a setup that has read its object, write the ranges that are unset, if there are any, and
      remember their selectors; with none the job is over, and the setup goes on to the notification. */
  ghost predicate Writes(d: Device, t: Manager, w: WorkerId, key: DeviceKey, registry: Registry, writing: Stage -> bool, otherwise: Stage) {
    && w in t.workers && key in t.data
    && var props := Ranges(registry(key.eoj), d);
    && t.data[key] == d.(attempted := d.attempted + EpcsOf(props))
    && (!NeedsRange(registry, key, d) ==> t.workers[w].stage == otherwise)
    && (NeedsRange(registry, key, d) ==>
          writing(t.workers[w].stage) && (t.workers[w].stage.Writing? || t.workers[w].stage.Recovering?)
          && t.workers[w].stage.props == props)
  }

  /** Starting a range job. */
  lemma RangeJobWrites(states: seq<Manager>, actions: seq<Action>, registry: Registry, i: nat, w: WorkerId)
    requires IsRun(states, actions, registry) && i < |actions| && actions[i] == StartJob(w) && w in states[i].workers
    requires SeqAt(states[i].jobs, states[i].workers[w].node) != []
    requires SeqAt(states[i].jobs, states[i].workers[w].node)[0].Recover?
    ensures var s := states[i];
      var key := DeviceKey(s.workers[w].node, s.jobs[s.workers[w].node][0].eoj);
      key in s.data
      && Writes(s.data[key], states[i + 1], w, key, registry, (st: Stage) => st.Recovering? && st.eoj == key.eoj, Ready)
      && SeqAt(states[i + 1].jobs, key.node) == s.jobs[key.node][1..]
  {
    assert Follows(states, actions, registry, i);
    var s := states[i];
    var key := DeviceKey(s.workers[w].node, s.jobs[s.workers[w].node][0].eoj);
    NeedsRangeRule(registry, key, s.data[key]);
    NoRangesNoEpcs(s.data[key], Ranges(registry(key.eoj), s.data[key]));
  }

  lemma NoRangesNoEpcs(d: Device, props: seq<Property>)
    ensures props == [] ==> d.(attempted := d.attempted + EpcsOf(props)) == d
  {
    if props == [] {
      assert EpcsOf(props) == {};
    }
  }

  /** A setup that has read its object. */
  lemma SetupWrites(states: seq<Manager>, actions: seq<Action>, registry: Registry, i: nat, w: WorkerId, key: DeviceKey,
                    snapshot: Cache)
    requires IsRun(states, actions, registry) && i < |actions| && actions[i] == ReadDone(w, key, snapshot)
    ensures var s := states[i]; var kept := if key in s.deferred then s.deferred[key] else [];
      && w in s.workers && s.workers[w].stage.Reading? && key !in s.data
      && Writes(Device(ApplyAll(snapshot, kept), {}), states[i + 1], w, key, registry,
                (st: Stage) => st.Writing? && st.eoj == key.eoj && st.rest == s.workers[w].stage.rest,
                Notifying(key.eoj, s.workers[w].stage.rest))
  {
    assert Follows(states, actions, registry, i);
    RunKeeps(states, actions, registry, i);
    ReadWrites(states[i], w, key, snapshot, registry);
  }

  lemma ReadWrites(s: Manager, w: WorkerId, key: DeviceKey, snapshot: Cache, registry: Registry)
    requires DeviceRuns.Ok(s) && IsEnabled(s, ReadDone(w, key, snapshot))
    ensures var rest := s.workers[w].stage.rest;
      && key !in s.data
      && Writes(Device(ApplyAll(snapshot, SeqAt(s.deferred, key)), {}), ReadStep(s, w, key, snapshot, registry), w, key, registry,
                (st: Stage) => st.Writing? && st.eoj == key.eoj && st.rest == rest, Notifying(key.eoj, rest))
  {
    assert StageFits(s.workers[w], s.data.Keys, s.pendingSetups);
    var u := s.(data := s.data[key := Device(snapshot, {})], deferred := s.deferred - {key});
    DeferredTouches(u, key, SeqAt(s.deferred, key), registry);
    var t := RegisterDevice(s, key, snapshot, registry);
    NeedsRangeRule(registry, key, t.data[key]);
    NoRangesNoEpcs(t.data[key], Ranges(registry(key.eoj), t.data[key]));
  }
}
