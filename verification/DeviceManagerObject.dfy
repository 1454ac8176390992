/** The device manager as an object: the same fields and loops as the source, each method shown to do
    exactly the step of DeviceManager it stands for. */
module DeviceManagerObject {
  import opened Basics
  import opened FrameCodec
  import opened DeviceManager

  class ManagerObject {
    const registry: Registry
    var nodeJobs: map<Node, seq<Job>>
    var nodeWorkers: set<Node>
    var tasks: map<WorkerId, Worker>
    var nextTask: WorkerId
    var deferredFrames: map<DeviceKey, seq<Arrival>>
    var data: map<DeviceKey, Device>
    var pendingSetups: set<DeviceKey>
    ghost var enqueued: map<Node, seq<Job>>
    ghost var started: map<Node, seq<Job>>
    ghost var writes: seq<(DeviceKey, Epc)>

    ghost function Model(): Manager
      reads this
    {
      Manager(nodeJobs, nodeWorkers, tasks, nextTask, deferredFrames, data, pendingSetups, enqueued, started, writes)
    }

    constructor (registry: Registry)
      ensures Model() == NEW_MANAGER && this.registry == registry
    {
      this.registry := registry;
      nodeJobs, nodeWorkers, tasks, nextTask, deferredFrames := map[], {}, map[], 0, map[];
      data, pendingSetups, enqueued, started, writes := map[], {}, map[], map[], [];
    }

    method EnqueueNodeJob(node: Node, job: Job)
      modifies this
      ensures Model() == Enqueue(old(Model()), node, job)
    {
      nodeJobs := nodeJobs[node := SeqAt(nodeJobs, node) + [job]];
      enqueued := enqueued[node := SeqAt(enqueued, node) + [job]];
      if node !in nodeWorkers {
        nodeWorkers := nodeWorkers + {node};
        tasks := tasks[nextTask := Worker(node, Ready)];
        nextTask := nextTask + 1;
      }
    }

    /** Store the values that differ; `changed` is the EPCs for which a value other than the cached one is
        listed, and so covers every EPC whose cached value is another now. */
    method StoreProperties(key: DeviceKey, props: seq<Property>) returns (changed: set<Epc>)
      requires key in data
      modifies `data
      ensures data == old(data)[key := old(data)[key].(cache := Put(old(data)[key].cache, props))]
      ensures changed == Differing(old(data)[key].cache, props) && (changed == {} ==> data == old(data))
      ensures forall e :: e !in changed ==> (e in data[key].cache <==> e in old(data)[key].cache)
      ensures forall e :: e !in changed && e in data[key].cache ==> data[key].cache[e] == old(data)[key].cache[e]
    {
      changed := {};
      ghost var before := data[key].cache;
      for i := 0 to |props|
        invariant key in data && data == old(data)[key := old(data)[key].(cache := Put(before, props[..i]))]
        invariant changed == Differing(before, props[..i]) && (changed == {} ==> data == old(data))
        invariant forall e :: e !in changed ==> (e in data[key].cache <==> e in before)
        invariant forall e :: e !in changed && e in data[key].cache ==> data[key].cache[e] == before[e]
      {
        assert props[..i + 1][..i] == props[..i];
        DifferingStep(before, props, i);
        var p := props[i];
        var d := data[key];
        if p.epc !in d.cache || d.cache[p.epc] != p.edt {
          data := data[key := d.(cache := d.cache[p.epc := p.edt])];
          changed := changed + {p.epc};
        } else {
          assert d.cache[p.epc := p.edt] == d.cache;
        }
      }
      assert props[..|props|] == props;
    }

    /** `_apply_accepted_properties`. */
    method ApplyAcceptedProperties(key: DeviceKey, props: seq<Property>, accepted: set<Epc>) returns (changed: set<Epc>)
      requires key in data
      modifies `data
      ensures Model() == Accept(old(Model()), key, props, accepted)
      ensures changed == Differing(old(data)[key].cache, Accepted(props, accepted))
    {
      changed := {};
      ghost var before := data[key].cache;
      for i := 0 to |props|
        invariant key in data && data == old(data)[key := data[key]]
        invariant data[key] == old(data)[key].(cache := Put(before, Accepted(props[..i], accepted)))
        invariant changed == Differing(before, Accepted(props[..i], accepted))
        invariant SameOutside(before, data[key].cache, changed)
      {
        var p := props[i];
        var d := data[key];
        AcceptedTurn(old(data)[key], d, changed, props, i, accepted);
        if p.epc in accepted && (p.epc !in d.cache || d.cache[p.epc] != p.edt) {
          var stored := d.(cache := d.cache[p.epc := p.edt]);
          Overwritten(old(data), key, d, stored);
          data := data[key := stored];
          changed := changed + {p.epc};
        }
      }
      assert props[..|props|] == props;
    }

    /** `_collection_range_recovery_properties`. */
    method RecoveryProperties(key: DeviceKey) returns (props: seq<Property>)
      requires key in data
      ensures props == Ranges(registry(key.eoj), data[key])
    {
      props := [];
      var bindings := registry(key.eoj);
      for i := 0 to |bindings|
        invariant props == Ranges(bindings[..i], data[key])
      {
        assert bindings[..i + 1][..i] == bindings[..i];
        var range := RangeFor(bindings[i], data[key]);
        if range.Some? {
          props := props + [range.value];
        }
      }
      assert bindings[..|bindings|] == bindings;
    }

    method ApplyFrameTo(key: DeviceKey, frame: Arrival) returns (updated: bool)
      requires key in data
      modifies this
      ensures Model() == ApplyFrame(old(Model()), key, frame, registry)
      ensures updated <==>
        frame.esv as int in {0x72, 0x52, 0x73, 0x74} && Differing(old(data)[key].cache, frame.props) != {}
      ensures !updated ==> data[key].cache == old(data)[key].cache
    {
      if !CarriesValues(frame.esv) {
        return false;
      }
      var changed := StoreProperties(key, frame.props);
      updated := changed != {};
      var ranges := RecoveryProperties(key);
      if ranges != [] {
        EnqueueNodeJob(key.node, Recover(key.eoj));
      }
    }

    method ProcessFrameEvent(key: DeviceKey, frame: Arrival) returns (updated: bool)
      modifies this
      ensures Model() == ArriveStep(old(Model()), key, frame, registry)
      ensures updated <==>
        && key in old(data) && frame.esv as int in {0x72, 0x52, 0x73, 0x74}
        && Differing(old(data)[key].cache, frame.props) != {}
    {
      if !IsResponse(frame.esv) {
        return false;
      }
      if key !in data {
        if key.node in nodeWorkers {
          var deferred := SeqAt(deferredFrames, key);
          if |deferred| < MAX_DEFERRED_FRAMES {
            deferredFrames := deferredFrames[key := deferred + [frame]];
          }
        }
        return false;
      }
      updated := ApplyFrameTo(key, frame);
    }

    method ApplyDeferredFrames(key: DeviceKey)
      requires key in data
      modifies this
      ensures Model() == ApplyDeferred(old(Model()).(deferred := old(deferredFrames) - {key}), key,
                                       SeqAt(old(deferredFrames), key), registry)
    {
      var frames := SeqAt(deferredFrames, key);
      deferredFrames := deferredFrames - {key};
      ghost var start := Model();
      for i := 0 to |frames|
        invariant key in data && Model() == ApplyDeferred(start, key, frames[..i], registry)
      {
        DeferredSnoc(start, key, frames, i, registry);
        var _ := ApplyFrameTo(key, frames[i]);
      }
      assert frames[..|frames|] == frames;
    }

    method SetStageOf(w: WorkerId, stage: Stage)
      requires w in tasks
      modifies `tasks
      ensures Model() == SetStage(old(Model()), w, stage)
    {
      tasks := tasks[w := tasks[w].(stage := stage)];
    }

    /** The loop of `process_instance_list_event`, up to the first object it has to set up. */
    method ContinueDiscovery(w: WorkerId, instances: seq<Eoj>)
      requires w in tasks
      modifies this
      ensures Model() == NextInstance(old(Model()), w, instances)
    {
      var node := tasks[w].node;
      ghost var before := Model();
      for i := 0 to |instances|
        invariant Model() == before
        invariant NextInstance(before, w, instances[i..]) == NextInstance(before, w, instances)
      {
        var key := DeviceKey(node, instances[i]);
        assert instances[i..][1..] == instances[i + 1..];
        if key !in data && key !in pendingSetups {
          pendingSetups := pendingSetups + {key};
          SetStageOf(w, Reading(instances[i], instances[i + 1..]));
          return;
        }
      }
      SetStageOf(w, Ready);
    }

    /** `_recover_uninitialized_collection_ranges`, up to its await. */
    method BeginRecovery(w: WorkerId, key: DeviceKey, writing: seq<Property> -> Stage, otherwise: Stage)
      requires w in tasks && key in data
      modifies this
      ensures Model() == BeginWrite(old(Model()), w, key, writing, otherwise, registry)
    {
      var props := RecoveryProperties(key);
      if props == [] {
        SetStageOf(w, otherwise);
        return;
      }
      data := data[key := data[key].(attempted := data[key].attempted + EpcsOf(props))];
      writes := writes + WritesOf(key, props);
      SetStageOf(w, writing(props));
    }

    /** One turn of the loop of `_run_node_jobs`. */
    method StartNextJob(w: WorkerId)
      requires IsEnabled(Model(), StartJob(w))
      modifies this
      ensures Model() == StartStep(old(Model()), w, registry)
    {
      var node := tasks[w].node;
      var job := nodeJobs[node][0];
      nodeJobs := nodeJobs[node := nodeJobs[node][1..]];
      started := started[node := SeqAt(started, node) + [job]];
      match job {
        case Discover(instances) =>
          ContinueDiscovery(w, instances);
        case Recover(eoj) =>
          BeginRecovery(w, DeviceKey(node, eoj), props => Recovering(eoj, props), Ready);
      }
    }

    /** The `finally` block of `_run_node_jobs`. */
    method EndNodeJobs(w: WorkerId)
      requires w in tasks
      modifies this
      ensures Model() == EndStep(old(Model()), w)
    {
      var node := tasks[w].node;
      nodeJobs := nodeJobs - {node};
      nodeWorkers := nodeWorkers - {node};
      tasks := tasks - {w};
      deferredFrames := map k | k in deferredFrames && !(k.node == node && k !in data) :: deferredFrames[k];
    }

    /** `_setup_device` from the end of its reads to the next await. */
    method RegisterRead(w: WorkerId, key: DeviceKey, snapshot: Cache)
      requires IsEnabled(Model(), ReadDone(w, key, snapshot))
      modifies this
      ensures Model() == ReadStep(old(Model()), w, key, snapshot, registry)
    {
      var rest := tasks[w].stage.rest;
      ghost var before := Model();
      data := data[key := Device(snapshot, {})];
      ApplyDeferredFrames(key);
      assert Model() == RegisterDevice(before, key, snapshot, registry);
      BeginRecovery(w, key, props => Writing(key.eoj, rest, props), Notifying(key.eoj, rest));
    }

    /** The `finally` block of `setup_device`, then on to the next instance. */
    method EndSetup(w: WorkerId)
      requires w in tasks
      requires tasks[w].stage.Reading? || tasks[w].stage.Writing? || tasks[w].stage.Notifying?
      modifies this
      ensures Model() == FinishSetup(old(Model()), w)
    {
      pendingSetups := pendingSetups - {DeviceKey(tasks[w].node, tasks[w].stage.eoj)};
      ContinueDiscovery(w, tasks[w].stage.rest);
    }
  }

  predicate Differs(cache: Cache, p: Property) {
    p.epc !in cache || cache[p.epc] != p.edt
  }

  /** The EPCs for which a value other than the cached one is listed. */
  function Differing(cache: Cache, props: seq<Property>): set<Epc> {
    set p | p in props && Differs(cache, p) :: p.epc
  }

  ghost predicate SameOutside(before: Cache, after: Cache, changed: set<Epc>) {
    forall e :: e !in changed ==> (e in after <==> e in before) && (e in after ==> after[e] == before[e])
  }

  lemma DifferingSnoc(cache: Cache, props: seq<Property>, p: Property)
    ensures Differing(cache, props + [p]) == Differing(cache, props) + (if Differs(cache, p) then {p.epc} else {})
  {
    assert forall x :: x in props + [p] <==> x in props || x == p;
  }

  lemma DifferingStep(cache: Cache, props: seq<Property>, i: nat)
    requires i < |props|
    ensures Differing(cache, props[..i + 1])
      == Differing(cache, props[..i]) + (if Differs(cache, props[i]) then {props[i].epc} else {})
  {
    assert props[..i + 1] == props[..i] + [props[i]];
    DifferingSnoc(cache, props[..i], props[i]);
  }

  /** One turn of the loop over the accepted properties. */
  lemma AcceptedTurn(start: Device, d: Device, changed: set<Epc>, props: seq<Property>, i: nat, accepted: set<Epc>)
    requires i < |props| && d == start.(cache := Put(start.cache, Accepted(props[..i], accepted)))
    requires changed == Differing(start.cache, Accepted(props[..i], accepted))
    requires SameOutside(start.cache, d.cache, changed)
    ensures var p := props[i];
      var stores := p.epc in accepted && Differs(d.cache, p);
      var after := if stores then d.(cache := d.cache[p.epc := p.edt]) else d;
      var more := if stores then changed + {p.epc} else changed;
      && after == start.(cache := Put(start.cache, Accepted(props[..i + 1], accepted)))
      && more == Differing(start.cache, Accepted(props[..i + 1], accepted))
      && SameOutside(start.cache, after.cache, more)
  {
    AcceptedStep(d, start.cache, props, i, accepted);
    AcceptedDiffering(start.cache, props, i, accepted);
    StoringCovers(start.cache, d.cache, changed, props[i], props[i].epc in accepted);
  }

  lemma StoringCovers(before: Cache, now: Cache, changed: set<Epc>, p: Property, wanted: bool)
    requires SameOutside(before, now, changed)
    ensures var stores := wanted && Differs(now, p);
      var more := if stores then changed + {p.epc} else changed;
      && more == changed + (if wanted && Differs(before, p) then {p.epc} else {})
      && SameOutside(before, if stores then now[p.epc := p.edt] else now, more)
  {
    if p.epc !in changed {
      assert p.epc in now <==> p.epc in before;
    }
  }

  lemma AcceptedDiffering(cache: Cache, props: seq<Property>, i: nat, accepted: set<Epc>)
    requires i < |props|
    ensures Differing(cache, Accepted(props[..i + 1], accepted))
      == Differing(cache, Accepted(props[..i], accepted))
         + (if props[i].epc in accepted && Differs(cache, props[i]) then {props[i].epc} else {})
  {
    assert props[..i + 1][..i] == props[..i] && props[..i + 1][i] == props[i];
    DifferingSnoc(cache, Accepted(props[..i], accepted), props[i]);
    assert Accepted(props[..i + 1], accepted) ==
      Accepted(props[..i], accepted) + (if props[i].epc in accepted then [props[i]] else []);
  }

  lemma DeferredSnoc(s: Manager, key: DeviceKey, frames: seq<Arrival>, i: nat, registry: Registry)
    requires key in s.data && i < |frames|
    ensures ApplyDeferred(s, key, frames[..i + 1], registry)
      == ApplyFrame(ApplyDeferred(s, key, frames[..i], registry), key, frames[i], registry)
  {
    assert frames[..i + 1][..i] == frames[..i];
  }

  lemma AcceptedStep(d: Device, before: Cache, props: seq<Property>, i: nat, accepted: set<Epc>)
    requires i < |props| && d.cache == Put(before, Accepted(props[..i], accepted))
    ensures var p := props[i];
      var after := if p.epc in accepted && (p.epc !in d.cache || d.cache[p.epc] != p.edt)
                   then d.(cache := d.cache[p.epc := p.edt]) else d;
      after == d.(cache := Put(before, Accepted(props[..i + 1], accepted)))
  {
    var p := props[i];
    assert props[..i + 1][..i] == props[..i] && props[..i + 1][i] == p;
    PutSnoc(before, Accepted(props[..i], accepted), p);
    if p.epc in accepted {
      assert Accepted(props[..i + 1], accepted) == Accepted(props[..i], accepted) + [p];
      if p.epc in d.cache && d.cache[p.epc] == p.edt {
        assert d.cache[p.epc := p.edt] == d.cache;
      }
    } else {
      assert Accepted(props[..i + 1], accepted) == Accepted(props[..i], accepted);
    }
  }

  lemma PutSnoc(cache: Cache, props: seq<Property>, p: Property)
    ensures Put(cache, props + [p]) == Put(cache, props)[p.epc := p.edt]
  {
    assert (props + [p])[..|props|] == props;
  }
}
