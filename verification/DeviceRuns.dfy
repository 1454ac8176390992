/** Every run of the device manager (without shutdown): one job task per node, no job lost, deferral
    of frames invisible in the cache, each range selector written at most once. */
module DeviceRuns {
  import opened Basics
  import opened FrameCodec
  import opened DeviceManager

  // ---- Job tasks ----

  /** One job task per node that has jobs or runs one, and none for any other. */
  ghost predicate TasksOk(jobNodes: set<Node>, registered: set<Node>, workers: map<WorkerId, Worker>, next: WorkerId) {
    && jobNodes == registered
    && (forall w :: w in workers ==> w < next && workers[w].node in registered)
    && (forall v, w :: v in workers && w in workers && workers[v].node == workers[w].node ==> v == w)
    && (forall n :: n in registered ==> HasWorker(workers, n))
  }

  ghost predicate HasWorker(workers: map<WorkerId, Worker>, n: Node) {
    exists w :: w in workers && workers[w].node == n
  }

  ghost predicate WorkersOk(s: Manager) {
    TasksOk(s.jobs.Keys, s.registered, s.workers, s.nextWorker)
  }

  /** Per node, what was enqueued is what was started, in order, followed by what still waits. */
  ghost predicate Balanced(enqueued: map<Node, seq<Job>>, started: map<Node, seq<Job>>, jobs: map<Node, seq<Job>>, n: Node) {
    SeqAt(enqueued, n) == SeqAt(started, n) + SeqAt(jobs, n)
  }

  ghost predicate AllBalanced(enqueued: map<Node, seq<Job>>, started: map<Node, seq<Job>>, jobs: map<Node, seq<Job>>) {
    forall n :: Balanced(enqueued, started, jobs, n)
  }

  ghost predicate JobsOk(s: Manager) {
    AllBalanced(s.enqueued, s.started, s.jobs)
  }

  /** Frames are kept only for objects not yet registered whose node's task runs. */
  ghost predicate FramesOk(deferred: map<DeviceKey, seq<Arrival>>, known: set<DeviceKey>, registered: set<Node>) {
    forall k :: k in deferred ==> k !in known && k.node in registered && 1 <= |deferred[k]| <= MAX_DEFERRED_FRAMES
  }

  ghost predicate DeferredOk(s: Manager) {
    FramesOk(s.deferred, s.data.Keys, s.registered)
  }

  predicate InSetup(st: Stage) {
    st.Reading? || st.Writing? || st.Notifying?
  }

  /** What a stage is about: an object being read is unknown, one being written to is known. */
  ghost predicate StageFits(worker: Worker, known: set<DeviceKey>, pending: set<DeviceKey>) {
    worker.stage.Ready? ||
    (var key := DeviceKey(worker.node, worker.stage.eoj);
     (worker.stage.Reading? <==> key !in known) && (InSetup(worker.stage) ==> key in pending))
  }

  /** The task that is running (`exempt`) may be between two stages. */
  ghost predicate AllStagesFit(workers: map<WorkerId, Worker>, known: set<DeviceKey>, pending: set<DeviceKey>,
                               exempt: set<WorkerId>) {
    forall w :: w in workers && w !in exempt ==> StageFits(workers[w], known, pending)
  }

  /** Range jobs are about registered objects. */
  ghost predicate JobsKnown(jobs: map<Node, seq<Job>>, known: set<DeviceKey>) {
    forall n, i :: n in jobs && 0 <= i < |jobs[n]| && jobs[n][i].Recover? ==> DeviceKey(n, jobs[n][i].eoj) in known
  }

  ghost predicate StagesOk(s: Manager, exempt: set<WorkerId>) {
    AllStagesFit(s.workers, s.data.Keys, s.pendingSetups, exempt) && JobsKnown(s.jobs, s.data.Keys)
  }

  ghost predicate OkBut(s: Manager, exempt: set<WorkerId>) {
    WorkersOk(s) && JobsOk(s) && DeferredOk(s) && StagesOk(s, exempt)
  }

  ghost predicate Ok(s: Manager) {
    OkBut(s, {})
  }

  // ---- Enqueueing ----

  lemma EnqueueKeeps(s: Manager, n: Node, job: Job, exempt: set<WorkerId>)
    requires OkBut(s, exempt) && (job.Recover? ==> DeviceKey(n, job.eoj) in s.data)
    ensures OkBut(Enqueue(s, n, job), exempt)
  {
    PushBalanced(s.enqueued, s.started, s.jobs, n, job);
    PushKnown(s.jobs, n, job, s.data.Keys);
    EnqueueTasks(s, n, job, exempt);
  }

  lemma EnqueueTasks(s: Manager, n: Node, job: Job, exempt: set<WorkerId>)
    requires WorkersOk(s) && DeferredOk(s) && AllStagesFit(s.workers, s.data.Keys, s.pendingSetups, exempt)
    ensures var t := Enqueue(s, n, job);
      WorkersOk(t) && DeferredOk(t) && AllStagesFit(t.workers, t.data.Keys, t.pendingSetups, exempt)
  {
    var t := Enqueue(s, n, job);
    assert t.jobs.Keys == s.jobs.Keys + {n};
    if n in s.registered {
      assert t.workers == s.workers && t.registered == s.registered;
      assert s.jobs.Keys + {n} == s.jobs.Keys;
    } else {
      NewWorker(s.jobs.Keys, s.registered, s.workers, s.nextWorker, n);
      NewWorkerFits(s.workers, s.nextWorker, n, s.data.Keys, s.pendingSetups, exempt);
      assert t.deferred == s.deferred && t.data == s.data;
    }
  }

  lemma NewWorkerFits(workers: map<WorkerId, Worker>, next: WorkerId, n: Node, known: set<DeviceKey>,
                      pending: set<DeviceKey>, exempt: set<WorkerId>)
    requires AllStagesFit(workers, known, pending, exempt)
    ensures AllStagesFit(workers[next := Worker(n, Ready)], known, pending, exempt)
  {
  }

  lemma PushKnown(jobs: map<Node, seq<Job>>, n: Node, job: Job, known: set<DeviceKey>)
    requires JobsKnown(jobs, known) && (job.Recover? ==> DeviceKey(n, job.eoj) in known)
    ensures JobsKnown(jobs[n := SeqAt(jobs, n) + [job]], known)
  {
  }

  lemma NewWorker(jobNodes: set<Node>, registered: set<Node>, workers: map<WorkerId, Worker>, next: WorkerId, n: Node)
    requires TasksOk(jobNodes, registered, workers, next) && n !in registered
    ensures TasksOk(jobNodes + {n}, registered + {n}, workers[next := Worker(n, Ready)], next + 1)
  {
    var more := workers[next := Worker(n, Ready)];
    forall m | m in registered + {n} ensures HasWorker(more, m) {
      if m in registered {
        var w :| w in workers && workers[w].node == m;
        assert w in more && more[w] == workers[w];
      } else {
        assert next in more && more[next].node == m;
      }
    }
  }

  lemma PushBalanced(enqueued: map<Node, seq<Job>>, started: map<Node, seq<Job>>, jobs: map<Node, seq<Job>>, n: Node,
                     job: Job)
    requires AllBalanced(enqueued, started, jobs)
    ensures AllBalanced(enqueued[n := SeqAt(enqueued, n) + [job]], started, jobs[n := SeqAt(jobs, n) + [job]])
  {
    var enqueued', jobs' := enqueued[n := SeqAt(enqueued, n) + [job]], jobs[n := SeqAt(jobs, n) + [job]];
    forall m ensures Balanced(enqueued', started, jobs', m) {
      assert Balanced(enqueued, started, jobs, m);
    }
  }

  // ---- Frames ----

  lemma CacheChangeKeeps(s: Manager, key: DeviceKey, cache: Cache, exempt: set<WorkerId>)
    requires OkBut(s, exempt) && key in s.data
    ensures OkBut(s.(data := s.data[key := s.data[key].(cache := cache)]), exempt)
  {
    assert s.data[key := s.data[key].(cache := cache)].Keys == s.data.Keys;
  }

  lemma ApplyFrameKeeps(s: Manager, key: DeviceKey, frame: Arrival, registry: Registry, exempt: set<WorkerId>)
    requires OkBut(s, exempt) && key in s.data
    ensures OkBut(ApplyFrame(s, key, frame, registry), exempt)
  {
    if CarriesValues(frame.esv) {
      var cache := Put(s.data[key].cache, frame.props);
      CacheChangeKeeps(s, key, cache, exempt);
      EnqueueKeeps(s.(data := s.data[key := s.data[key].(cache := cache)]), key.node, Recover(key.eoj), exempt);
    }
  }

  lemma {:induction false} ApplyDeferredKeeps(s: Manager, key: DeviceKey, frames: seq<Arrival>, registry: Registry,
                                              exempt: set<WorkerId>)
    requires OkBut(s, exempt) && key in s.data
    ensures OkBut(ApplyDeferred(s, key, frames, registry), exempt)
  {
    if frames != [] {
      var last := |frames| - 1;
      ApplyDeferredKeeps(s, key, frames[..last], registry, exempt);
      ApplyFrameKeeps(ApplyDeferred(s, key, frames[..last], registry), key, frames[last], registry, exempt);
    }
  }

  lemma ArriveKeeps(s: Manager, key: DeviceKey, frame: Arrival, registry: Registry)
    requires Ok(s)
    ensures Ok(ArriveStep(s, key, frame, registry))
  {
    if IsResponse(frame.esv) {
      if key in s.data {
        ApplyFrameKeeps(s, key, frame, registry, {});
      }
    }
  }

  // ---- Stages of a job task ----

  lemma SetStageKeeps(s: Manager, w: WorkerId, st: Stage)
    requires OkBut(s, {w}) && w in s.workers
    requires StageFits(Worker(s.workers[w].node, st), s.data.Keys, s.pendingSetups)
    ensures Ok(SetStage(s, w, st))
  {
    var t := SetStage(s, w, st);
    forall n | n in t.registered ensures HasWorker(t.workers, n) {
      var v :| v in s.workers && s.workers[v].node == n;
      assert v in t.workers && t.workers[v].node == n;
    }
  }

  /** Other tasks are about other nodes, so one object may be marked or unmarked as being set up. */
  lemma PendKeeps(s: Manager, w: WorkerId, key: DeviceKey)
    requires OkBut(s, {w}) && w in s.workers && key.node == s.workers[w].node
    ensures OkBut(s.(pendingSetups := s.pendingSetups + {key}), {w})
    ensures OkBut(s.(pendingSetups := s.pendingSetups - {key}), {w})
  {
    forall v | v in s.workers && v != w
      ensures StageFits(s.workers[v], s.data.Keys, s.pendingSetups + {key})
      ensures StageFits(s.workers[v], s.data.Keys, s.pendingSetups - {key})
    {
      assert s.workers[v].node != key.node;
    }
  }

  lemma {:induction false} NextInstanceKeeps(s: Manager, w: WorkerId, instances: seq<Eoj>)
    requires OkBut(s, {w}) && w in s.workers
    ensures Ok(NextInstance(s, w, instances))
    decreases |instances|
  {
    if instances == [] {
      SetStageKeeps(s, w, Ready);
    } else {
      var key := DeviceKey(s.workers[w].node, instances[0]);
      if key in s.data || key in s.pendingSetups {
        NextInstanceKeeps(s, w, instances[1..]);
      } else {
        PendKeeps(s, w, key);
        SetStageKeeps(s.(pendingSetups := s.pendingSetups + {key}), w, Reading(instances[0], instances[1..]));
      }
    }
  }

  // ---- Range initialization ----

  lemma AttemptKeeps(s: Manager, w: WorkerId, key: DeviceKey, props: seq<Property>)
    requires OkBut(s, {w}) && key in s.data
    ensures OkBut(s.(data := s.data[key := s.data[key].(attempted := s.data[key].attempted + EpcsOf(props))],
                     writes := s.writes + WritesOf(key, props)), {w})
  {
    assert s.data[key := s.data[key].(attempted := s.data[key].attempted + EpcsOf(props))].Keys == s.data.Keys;
  }

  lemma BeginWriteKeeps(s: Manager, w: WorkerId, key: DeviceKey, writing: seq<Property> -> Stage, otherwise: Stage,
                        registry: Registry)
    requires OkBut(s, {w}) && w in s.workers && key in s.data
    requires StageFits(Worker(s.workers[w].node, otherwise), s.data.Keys, s.pendingSetups)
    requires forall props :: StageFits(Worker(s.workers[w].node, writing(props)), s.data.Keys, s.pendingSetups)
    ensures Ok(BeginWrite(s, w, key, writing, otherwise, registry))
  {
    var props := Ranges(registry(key.eoj), s.data[key]);
    if props == [] {
      SetStageKeeps(s, w, otherwise);
    } else {
      AttemptKeeps(s, w, key, props);
      var t := s.(data := s.data[key := s.data[key].(attempted := s.data[key].attempted + EpcsOf(props))],
                  writes := s.writes + WritesOf(key, props));
      assert t.data.Keys == s.data.Keys;
      SetStageKeeps(t, w, writing(props));
    }
  }

  // ---- Each step ----

  lemma StartKeeps(s: Manager, w: WorkerId, registry: Registry)
    requires Ok(s) && IsEnabled(s, StartJob(w))
    ensures Ok(StartStep(s, w, registry))
  {
    var node := s.workers[w].node;
    var job := s.jobs[node][0];
    var t := s.(jobs := s.jobs[node := s.jobs[node][1..]], started := s.started[node := SeqAt(s.started, node) + [job]]);
    PopKeeps(s, w);
    match job
    case Discover(instances) => NextInstanceKeeps(t, w, instances);
    case Recover(eoj) =>
      BeginWriteKeeps(t, w, DeviceKey(node, eoj), props => Recovering(eoj, props), Ready, registry);
  }

  lemma PopKeeps(s: Manager, w: WorkerId)
    requires Ok(s) && IsEnabled(s, StartJob(w))
    ensures var node := s.workers[w].node;
      OkBut(s.(jobs := s.jobs[node := s.jobs[node][1..]],
               started := s.started[node := SeqAt(s.started, node) + [s.jobs[node][0]]]), {w})
  {
    var node := s.workers[w].node;
    PopBalanced(s.enqueued, s.started, s.jobs, node);
    assert s.jobs[node := s.jobs[node][1..]].Keys == s.jobs.Keys;
  }

  lemma PopBalanced(enqueued: map<Node, seq<Job>>, started: map<Node, seq<Job>>, jobs: map<Node, seq<Job>>, n: Node)
    requires AllBalanced(enqueued, started, jobs) && n in jobs && jobs[n] != []
    ensures AllBalanced(enqueued, started[n := SeqAt(started, n) + [jobs[n][0]]], jobs[n := jobs[n][1..]])
  {
    var started', jobs' := started[n := SeqAt(started, n) + [jobs[n][0]]], jobs[n := jobs[n][1..]];
    forall m ensures Balanced(enqueued, started', jobs', m) {
      assert Balanced(enqueued, started, jobs, m);
      assert jobs[n] == [jobs[n][0]] + jobs[n][1..];
    }
  }

  lemma EndKeeps(s: Manager, w: WorkerId)
    requires Ok(s) && IsEnabled(s, EndWorker(w))
    ensures Ok(EndStep(s, w))
  {
    var node := s.workers[w].node;
    assert node in s.jobs && s.jobs[node] == [];
    var jobs' := s.jobs - {node};
    forall m ensures Balanced(s.enqueued, s.started, jobs', m) {
      assert Balanced(s.enqueued, s.started, s.jobs, m);
    }
    RemoveWorker(s, w);
  }

  lemma RemoveWorker(s: Manager, w: WorkerId)
    requires WorkersOk(s) && w in s.workers
    ensures WorkersOk(EndStep(s, w))
  {
    var node := s.workers[w].node;
    var t := EndStep(s, w);
    forall n | n in t.registered ensures HasWorker(t.workers, n) {
      var v :| v in s.workers && s.workers[v].node == n;
      assert v in t.workers && t.workers[v].node == n;
    }
  }

  lemma FinishKeeps(s: Manager, w: WorkerId)
    requires Ok(s) && w in s.workers && InSetup(s.workers[w].stage)
    ensures Ok(FinishSetup(s, w))
  {
    assert OkBut(s, {w});
    PendKeeps(s, w, KeyOf(s, w));
    NextInstanceKeeps(s.(pendingSetups := s.pendingSetups - {KeyOf(s, w)}), w, s.workers[w].stage.rest);
  }

  lemma ReadKeeps(s: Manager, w: WorkerId, key: DeviceKey, snapshot: Cache, registry: Registry)
    requires Ok(s) && IsEnabled(s, ReadDone(w, key, snapshot))
    ensures Ok(ReadStep(s, w, key, snapshot, registry))
  {
    var rest := s.workers[w].stage.rest;
    var t := RegisterDevice(s, key, snapshot, registry);
    InsertKeeps(s, w, key, snapshot);
    var u := s.(data := s.data[key := Device(snapshot, {})], deferred := s.deferred - {key});
    ApplyDeferredKeeps(u, key, SeqAt(s.deferred, key), registry, {w});
    DeferredTouches(u, key, SeqAt(s.deferred, key), registry);
    BeginWriteKeeps(t, w, key, props => Writing(key.eoj, rest, props), Notifying(key.eoj, rest), registry);
  }

  lemma InsertKeeps(s: Manager, w: WorkerId, key: DeviceKey, snapshot: Cache)
    requires Ok(s) && w in s.workers && s.workers[w].stage.Reading? && key == KeyOf(s, w)
    ensures OkBut(s.(data := s.data[key := Device(snapshot, {})], deferred := s.deferred - {key}), {w})
  {
    var known := s.data.Keys + {key};
    assert s.data[key := Device(snapshot, {})].Keys == known;
    forall v | v in s.workers && v != w ensures StageFits(s.workers[v], known, s.pendingSetups) {
      assert s.workers[v].node != key.node;
    }
  }

  /** What applying frames to one object leaves alone. */
  ghost predicate TasksLeftAlone(s: Manager, t: Manager) {
    && s.registered <= t.registered && s.nextWorker <= t.nextWorker && t.writes == s.writes
    && (forall w :: w in s.workers && w < s.nextWorker ==> w in t.workers && t.workers[w] == s.workers[w])
  }

  ghost predicate ObjectsLeftAlone(s: Manager, t: Manager, key: DeviceKey) {
    && t.data.Keys == s.data.Keys && t.pendingSetups == s.pendingSetups && t.deferred == s.deferred
    && (forall k :: k in s.data && k != key ==> t.data[k] == s.data[k])
  }

  lemma FrameTouches(s: Manager, key: DeviceKey, frame: Arrival, registry: Registry)
    requires key in s.data
    ensures var t := ApplyFrame(s, key, frame, registry);
      && TasksLeftAlone(s, t) && ObjectsLeftAlone(s, t, key)
      && t.data[key] == s.data[key].(cache := Apply(s.data[key].cache, frame))
  {
    if CarriesValues(frame.esv) {
      var d := s.data[key].(cache := Put(s.data[key].cache, frame.props));
      var u := s.(data := s.data[key := d]);
      assert ObjectsLeftAlone(s, u, key) && TasksLeftAlone(s, u);
      EnqueueTouches(u, key.node, Recover(key.eoj));
    }
  }

  lemma {:induction false} DeferredTouches(s: Manager, key: DeviceKey, frames: seq<Arrival>, registry: Registry)
    requires key in s.data
    ensures var t := ApplyDeferred(s, key, frames, registry);
      && TasksLeftAlone(s, t) && ObjectsLeftAlone(s, t, key)
      && t.data[key] == s.data[key].(cache := ApplyAll(s.data[key].cache, frames))
  {
    if frames != [] {
      var last := |frames| - 1;
      var t := ApplyDeferred(s, key, frames[..last], registry);
      DeferredTouches(s, key, frames[..last], registry);
      FrameTouches(t, key, frames[last], registry);
      LeftAloneTwice(s, t, ApplyFrame(t, key, frames[last], registry), key);
    }
  }

  lemma LeftAloneTwice(s: Manager, t: Manager, u: Manager, key: DeviceKey)
    requires TasksLeftAlone(s, t) && TasksLeftAlone(t, u)
    requires ObjectsLeftAlone(s, t, key) && ObjectsLeftAlone(t, u, key)
    ensures TasksLeftAlone(s, u) && ObjectsLeftAlone(s, u, key)
  {
  }

  lemma AcknowledgedKeeps(s: Manager, w: WorkerId, key: DeviceKey, props: seq<Property>, accepted: set<Epc>,
                          registry: Registry)
    requires Ok(s) && IsEnabled(s, Acknowledged(w, key, props, accepted))
    ensures Ok(Step(s, Acknowledged(w, key, props, accepted), registry))
  {
    var t := Accept(s, key, props, accepted);
    assert OkBut(s, {w});
    CacheChangeKeeps(s, key, Put(s.data[key].cache, Accepted(props, accepted)), {w});
    SetStageKeeps(t, w, if s.workers[w].stage.Writing? then Notifying(key.eoj, s.workers[w].stage.rest) else Ready);
  }

  lemma StepKeeps(s: Manager, a: Action, registry: Registry)
    requires Ok(s) && IsEnabled(s, a)
    ensures Ok(Step(s, a, registry))
  {
    match a
    case FrameArrives(key, frame) => ArriveKeeps(s, key, frame, registry);
    case Discovered(node, instances) => EnqueueKeeps(s, node, Discover(instances), {});
    case StartJob(w) => StartKeeps(s, w, registry);
    case EndWorker(w) => EndKeeps(s, w);
    case ReadFailed(w) => FinishKeeps(s, w);
    case ReadDone(w, key, snapshot) => ReadKeeps(s, w, key, snapshot, registry);
    case Acknowledged(w, key, props, accepted) => AcknowledgedKeeps(s, w, key, props, accepted, registry);
    case StageEnds(w) =>
      if s.workers[w].stage.Recovering? {
        assert OkBut(s, {w});
        SetStageKeeps(s, w, Ready);
      } else {
        FinishKeeps(s, w);
      }
    case UserSet(key, props, accepted) =>
      if key in s.data {
        CacheChangeKeeps(s, key, Put(s.data[key].cache, Accepted(props, accepted)), {});
      }
  }

  // ---- Every run ----

  ghost predicate IsRun(states: seq<Manager>, actions: seq<Action>, registry: Registry) {
    && |states| == |actions| + 1
    && states[0] == NEW_MANAGER
    && (forall i :: 0 <= i < |actions| ==> Follows(states, actions, registry, i))
  }

  ghost predicate Follows(states: seq<Manager>, actions: seq<Action>, registry: Registry, i: nat)
    requires i < |actions| && |states| == |actions| + 1
  {
    IsEnabled(states[i], actions[i]) && states[i + 1] == Step(states[i], actions[i], registry)
  }

  lemma {:induction false} RunKeeps(states: seq<Manager>, actions: seq<Action>, registry: Registry, i: nat)
    requires IsRun(states, actions, registry) && i < |states|
    ensures Ok(states[i])
  {
    if i > 0 {
      RunKeeps(states, actions, registry, i - 1);
      assert Follows(states, actions, registry, i - 1);
      StepKeeps(states[i - 1], actions[i - 1], registry);
    }
  }

  /** Node jobs: at every moment each node has at most one job task, and one exactly when it is
      registered; waiting jobs imply a task; and the jobs started are the first of the jobs enqueued,
      in that order and each once, the others still waiting (none, when the task has ended). */
  lemma JobsRunInOrder(states: seq<Manager>, actions: seq<Action>, registry: Registry, i: nat)
    requires IsRun(states, actions, registry) && i < |states|
    ensures var s := states[i];
      && (forall v, w :: v in s.workers && w in s.workers && s.workers[v].node == s.workers[w].node ==> v == w)
      && (forall n: Node :: (exists w :: w in s.workers && s.workers[w].node == n) <==> n in s.registered)
      && (forall n: Node :: SeqAt(s.jobs, n) != [] ==> n in s.registered)
      && (forall n: Node :: SeqAt(s.enqueued, n) == SeqAt(s.started, n) + SeqAt(s.jobs, n))
      && (forall n: Node :: n !in s.registered ==> SeqAt(s.started, n) == SeqAt(s.enqueued, n))
  {
    RunKeeps(states, actions, registry, i);
    var s := states[i];
    forall n: Node
      ensures SeqAt(s.enqueued, n) == SeqAt(s.started, n) + SeqAt(s.jobs, n)
      ensures (exists w :: w in s.workers && s.workers[w].node == n) <==> n in s.registered
    {
      assert Balanced(s.enqueued, s.started, s.jobs, n);
      assert n in s.registered ==> HasWorker(s.workers, n);
    }
  }

  /** No frame leaks: what is kept belongs to an object that is not registered, of a node whose task
      runs, and is bounded. */
  lemma DeferredNeverLeaks(states: seq<Manager>, actions: seq<Action>, registry: Registry, i: nat, key: DeviceKey)
    requires IsRun(states, actions, registry) && i < |states|
    requires key in states[i].deferred
    ensures key !in states[i].data && key.node in states[i].registered
    ensures 1 <= |states[i].deferred[key]| <= MAX_DEFERRED_FRAMES
  {
    RunKeeps(states, actions, registry, i);
  }

  /** A waiting job can always be started and an acknowledged range always applied: the objects they
      are about stay registered. */
  lemma JobsNeverBlock(states: seq<Manager>, actions: seq<Action>, registry: Registry, i: nat, w: WorkerId)
    requires IsRun(states, actions, registry) && i < |states| && w in states[i].workers
    ensures var s := states[i]; var stage := s.workers[w].stage;
      && (stage.Ready? ==> IsEnabled(s, StartJob(w)) || IsEnabled(s, EndWorker(w)))
      && (stage.Writing? || stage.Recovering? ==> forall accepted :: IsEnabled(s, Acknowledged(w, KeyOf(s, w), stage.props, accepted)))
  {
    RunKeeps(states, actions, registry, i);
    var s := states[i];
    assert StageFits(s.workers[w], s.data.Keys, s.pendingSetups);
  }

  // ---- Range selectors are written once ----

  lemma {:induction false} NextInstanceTouches(s: Manager, w: WorkerId, instances: seq<Eoj>)
    requires w in s.workers
    ensures var t := NextInstance(s, w, instances);
      t.data == s.data && t.deferred == s.deferred && t.registered == s.registered && t.writes == s.writes
    decreases |instances|
  {
    if instances != [] && (DeviceKey(s.workers[w].node, instances[0]) in s.data
                           || DeviceKey(s.workers[w].node, instances[0]) in s.pendingSetups) {
      NextInstanceTouches(s, w, instances[1..]);
    }
  }

  /** The range selectors written so far, each remembered by its device object. */
  ghost predicate WritesOk(s: Manager) {
    && NoDup(s.writes)
    && (forall x :: x in s.writes ==> x.0 in s.data && x.1 in s.data[x.0].attempted)
  }

  ghost predicate SelectorsDiffer(bindings: seq<Binding>) {
    forall i, j :: 0 <= i < j < |bindings| && bindings[i].selectorEpc.Some? ==>
      bindings[i].selectorEpc != bindings[j].selectorEpc
  }

  /** In the registry no two bindings of a class share a selector. */
  ghost predicate RegistryOk(registry: Registry) {
    forall eoj: Eoj :: SelectorsDiffer(registry(eoj))
  }

  /** The one class with collection bindings: power distribution board metering. */
  const BOARD_CLASS := 0x0287

  const BOARD_BINDINGS: seq<Binding> := [
    Binding(0xB3, Some(0xB1), Some(0xB2), Some(60)), Binding(0xB5, Some(0xB1), Some(0xB4), Some(60)),
    Binding(0xB7, Some(0xB1), Some(0xB6), Some(60)), Binding(0xBA, Some(0xB8), Some(0xB9), Some(30)),
    Binding(0xBC, Some(0xB8), Some(0xBB), Some(60)), Binding(0xBE, Some(0xB8), Some(0xBD), Some(60))]

  /** The registry that pyhems ships. */
  function ShippedBindings(eoj: Eoj): seq<Binding> {
    if eoj / 0x100 == BOARD_CLASS then BOARD_BINDINGS else []
  }

  lemma ShippedRegistryIsOk()
    ensures RegistryOk(ShippedBindings)
  {
    assert forall b :: b in BOARD_BINDINGS ==> b.selectorEpc.Some?;
  }

  lemma RangeForSpec(b: Binding, d: Device)
    ensures RangeFor(b, d).Some? ==> b.selectorEpc == Some(RangeFor(b, d).value.epc) && RangeFor(b, d).value.epc !in d.attempted
  {
  }

  /** Each range comes from a binding of its own, whose selector has not been tried. */
  lemma {:induction false} RangeOrigins(bindings: seq<Binding>, d: Device) returns (origin: seq<nat>)
    ensures var r := Ranges(bindings, d);
      && |origin| == |r|
      && (forall i :: 0 <= i < |r| ==> origin[i] < |bindings| && bindings[origin[i]].selectorEpc == Some(r[i].epc))
      && (forall i :: 0 <= i < |r| ==> r[i].epc !in d.attempted)
      && (forall i, j :: 0 <= i < j < |r| ==> origin[i] < origin[j])
  {
    if bindings == [] {
      origin := [];
    } else {
      var last := |bindings| - 1;
      origin := RangeOrigins(bindings[..last], d);
      RangeForSpec(bindings[last], d);
      if RangeFor(bindings[last], d).Some? {
        origin := origin + [last];
      }
    }
  }

  /** Distinct selectors, none tried before. */
  ghost predicate FreshSelectors(props: seq<Property>, attempted: set<Epc>) {
    && (forall i :: 0 <= i < |props| ==> props[i].epc !in attempted)
    && (forall i, j :: 0 <= i < j < |props| ==> props[i].epc != props[j].epc)
  }

  lemma RangesAreFresh(bindings: seq<Binding>, d: Device)
    requires SelectorsDiffer(bindings)
    ensures FreshSelectors(Ranges(bindings, d), d.attempted)
  {
    var origin := RangeOrigins(bindings, d);
    var r := Ranges(bindings, d);
    forall i, j | 0 <= i < j < |r| ensures r[i].epc != r[j].epc {
      assert origin[i] < origin[j];
    }
  }

  lemma WriteIsNew(s: Manager, key: DeviceKey, props: seq<Property>)
    requires WritesOk(s) && key in s.data && FreshSelectors(props, s.data[key].attempted)
    ensures WritesOk(s.(data := s.data[key := s.data[key].(attempted := s.data[key].attempted + EpcsOf(props))],
                        writes := s.writes + WritesOf(key, props)))
  {
    var d := s.data[key].(attempted := s.data[key].attempted + EpcsOf(props));
    var more := WritesOf(key, props);
    var t := s.(data := s.data[key := d], writes := s.writes + more);
    forall i, j | 0 <= i < j < |t.writes| ensures t.writes[i] != t.writes[j] {
      if i < |s.writes| <= j {
        assert t.writes[i] in s.writes && t.writes[j] == more[j - |s.writes|];
      }
    }
    forall x | x in t.writes ensures x.0 in t.data && x.1 in t.data[x.0].attempted {
      if x !in s.writes {
        var i :| 0 <= i < |more| && more[i] == x;
        assert props[i] in props;
      }
    }
  }

  lemma BeginWriteOnce(s: Manager, w: WorkerId, key: DeviceKey, writing: seq<Property> -> Stage, otherwise: Stage,
                       registry: Registry)
    requires WritesOk(s) && w in s.workers && key in s.data && RegistryOk(registry)
    ensures WritesOk(BeginWrite(s, w, key, writing, otherwise, registry))
  {
    var props := Ranges(registry(key.eoj), s.data[key]);
    RangesAreFresh(registry(key.eoj), s.data[key]);
    WriteIsNew(s, key, props);
  }

  /** Writes stay recorded while no object forgets what it has tried. */
  lemma WritesStay(s: Manager, t: Manager)
    requires WritesOk(s) && t.writes == s.writes
    requires forall k :: k in s.data ==> k in t.data && s.data[k].attempted <= t.data[k].attempted
    ensures WritesOk(t)
  {
  }

  lemma StartOnce(s: Manager, w: WorkerId, registry: Registry)
    requires WritesOk(s) && IsEnabled(s, StartJob(w)) && RegistryOk(registry)
    ensures WritesOk(StartStep(s, w, registry))
  {
    var node := s.workers[w].node;
    var job := s.jobs[node][0];
    var t := s.(jobs := s.jobs[node := s.jobs[node][1..]], started := s.started[node := SeqAt(s.started, node) + [job]]);
    match job
    case Discover(instances) =>
      NextInstanceTouches(t, w, instances);
      WritesStay(s, StartStep(s, w, registry));
    case Recover(eoj) =>
      WritesStay(s, t);
      BeginWriteOnce(t, w, DeviceKey(node, eoj), props => Recovering(eoj, props), Ready, registry);
  }

  lemma ReadOnce(s: Manager, w: WorkerId, key: DeviceKey, snapshot: Cache, registry: Registry)
    requires Ok(s) && WritesOk(s) && IsEnabled(s, ReadDone(w, key, snapshot)) && RegistryOk(registry)
    ensures WritesOk(ReadStep(s, w, key, snapshot, registry))
  {
    assert StageFits(s.workers[w], s.data.Keys, s.pendingSetups);
    var u := s.(data := s.data[key := Device(snapshot, {})], deferred := s.deferred - {key});
    var t := RegisterDevice(s, key, snapshot, registry);
    DeferredTouches(u, key, SeqAt(s.deferred, key), registry);
    WritesStay(s, t);
    var rest := s.workers[w].stage.rest;
    BeginWriteOnce(t, w, key, props => Writing(key.eoj, rest, props), Notifying(key.eoj, rest), registry);
  }

  lemma FinishOnce(s: Manager, w: WorkerId)
    requires WritesOk(s) && w in s.workers && InSetup(s.workers[w].stage)
    ensures WritesOk(FinishSetup(s, w))
  {
    NextInstanceTouches(s.(pendingSetups := s.pendingSetups - {KeyOf(s, w)}), w, s.workers[w].stage.rest);
    WritesStay(s, FinishSetup(s, w));
  }

  lemma ArriveOnce(s: Manager, key: DeviceKey, frame: Arrival, registry: Registry)
    requires WritesOk(s)
    ensures WritesOk(ArriveStep(s, key, frame, registry))
  {
    if key in s.data {
      FrameTouches(s, key, frame, registry);
    }
    WritesStay(s, ArriveStep(s, key, frame, registry));
  }

  lemma StepOnce(s: Manager, a: Action, registry: Registry)
    requires Ok(s) && WritesOk(s) && IsEnabled(s, a) && RegistryOk(registry)
    ensures WritesOk(Step(s, a, registry))
  {
    match a
    case StartJob(w) => StartOnce(s, w, registry);
    case ReadDone(w, key, snapshot) => ReadOnce(s, w, key, snapshot, registry);
    case ReadFailed(w) => FinishOnce(s, w);
    case StageEnds(w) =>
      if !s.workers[w].stage.Recovering? {
        FinishOnce(s, w);
      }
    case FrameArrives(key, frame) => ArriveOnce(s, key, frame, registry);
    case Discovered(_, _) => WritesStay(s, Step(s, a, registry));
    case EndWorker(_) => WritesStay(s, Step(s, a, registry));
    case Acknowledged(_, key, props, accepted) => AcceptOnce(s, key, props, accepted);
    case UserSet(key, props, accepted) =>
      if key in s.data {
        AcceptOnce(s, key, props, accepted);
      }
  }

  lemma AcceptOnce(s: Manager, key: DeviceKey, props: seq<Property>, accepted: set<Epc>)
    requires WritesOk(s) && key in s.data
    ensures WritesOk(Accept(s, key, props, accepted))
  {
    WritesStay(s, Accept(s, key, props, accepted));
  }

  /** Each range selector is written at most once per device object, across setup and all later jobs. */
  lemma {:induction false} SelectorsWrittenOnce(states: seq<Manager>, actions: seq<Action>, registry: Registry, i: nat)
    requires IsRun(states, actions, registry) && RegistryOk(registry) && i < |states|
    ensures NoDup(states[i].writes) && WritesOk(states[i])
  {
    if i > 0 {
      SelectorsWrittenOnce(states, actions, registry, i - 1);
      RunKeeps(states, actions, registry, i - 1);
      assert Follows(states, actions, registry, i - 1);
      StepOnce(states[i - 1], actions[i - 1], registry);
    }
  }

  // ---- Deferral is invisible ----

  /** The frames for an object among some actions. */
  function FramesFor(key: DeviceKey, actions: seq<Action>): seq<Arrival> {
    if actions == [] then []
    else
      var a := actions[|actions| - 1];
      FramesFor(key, actions[..|actions| - 1])
      + (if a.FrameArrives? && a.key == key && IsResponse(a.frame.esv) then [a.frame] else [])
  }

  /** What an action means for the values of a registered object. */
  function Effect(cache: Cache, key: DeviceKey, a: Action): Cache {
    match a
    case FrameArrives(k, frame) => if k == key && IsResponse(frame.esv) then Apply(cache, frame) else cache
    case Acknowledged(_, k, props, accepted) => if k == key then Put(cache, Accepted(props, accepted)) else cache
    case UserSet(k, props, accepted) => if k == key then Put(cache, Accepted(props, accepted)) else cache
    case _ => cache
  }

  function Effects(cache: Cache, key: DeviceKey, actions: seq<Action>): Cache {
    if actions == [] then cache
    else Effect(Effects(cache, key, actions[..|actions| - 1]), key, actions[|actions| - 1])
  }

  function FirstFrames(frames: seq<Arrival>): seq<Arrival> {
    frames[..Min(|frames|, MAX_DEFERRED_FRAMES)]
  }

  /** Steps of a job task that leave the caches and the kept frames alone. */
  predicate IsInternal(a: Action) {
    a.StartJob? || a.ReadFailed? || a.StageEnds?
  }

  ghost predicate SameValues(s: Manager, t: Manager) {
    && t.deferred == s.deferred && t.registered == s.registered && t.data.Keys == s.data.Keys
    && forall k :: k in s.data ==> t.data[k].cache == s.data[k].cache
  }

  lemma StartTouches(s: Manager, w: WorkerId, registry: Registry)
    requires IsEnabled(s, StartJob(w))
    ensures SameValues(s, StartStep(s, w, registry))
  {
    var node := s.workers[w].node;
    var job := s.jobs[node][0];
    var t := s.(jobs := s.jobs[node := s.jobs[node][1..]], started := s.started[node := SeqAt(s.started, node) + [job]]);
    match job
    case Discover(instances) => NextInstanceTouches(t, w, instances);
    case Recover(eoj) =>
      BeginWriteTouches(t, w, DeviceKey(node, eoj), props => Recovering(eoj, props), Ready, registry);
  }

  lemma BeginWriteTouches(s: Manager, w: WorkerId, key: DeviceKey, writing: seq<Property> -> Stage, otherwise: Stage,
                          registry: Registry)
    requires w in s.workers && key in s.data
    ensures SameValues(s, BeginWrite(s, w, key, writing, otherwise, registry))
  {
    var props := Ranges(registry(key.eoj), s.data[key]);
    if props != [] {
      var d := s.data[key].(attempted := s.data[key].attempted + EpcsOf(props));
      assert s.data[key := d].Keys == s.data.Keys;
    }
  }

  lemma FinishTouches(s: Manager, w: WorkerId)
    requires w in s.workers && InSetup(s.workers[w].stage)
    ensures SameValues(s, FinishSetup(s, w))
  {
    NextInstanceTouches(s.(pendingSetups := s.pendingSetups - {KeyOf(s, w)}), w, s.workers[w].stage.rest);
  }

  lemma InternalTouches(s: Manager, a: Action, registry: Registry)
    requires IsEnabled(s, a) && IsInternal(a)
    ensures SameValues(s, Step(s, a, registry))
  {
    match a
    case StartJob(w) => StartTouches(s, w, registry);
    case ReadFailed(w) => FinishTouches(s, w);
    case StageEnds(w) =>
      if !s.workers[w].stage.Recovering? {
        FinishTouches(s, w);
      }
    case _ =>
  }

  /** Registration: the other objects are untouched, the new one is its snapshot with the kept frames
      applied, and nothing is kept for it any more. */
  lemma ReadTouches(s: Manager, w: WorkerId, key: DeviceKey, snapshot: Cache, registry: Registry)
    requires Ok(s) && IsEnabled(s, ReadDone(w, key, snapshot))
    ensures var t := ReadStep(s, w, key, snapshot, registry);
      && key !in s.data && t.data.Keys == s.data.Keys + {key}
      && (forall k :: k in s.data ==> t.data[k].cache == s.data[k].cache)
      && t.data[key].cache == ApplyAll(snapshot, SeqAt(s.deferred, key))
      && t.deferred == s.deferred - {key} && s.registered <= t.registered
  {
    assert StageFits(s.workers[w], s.data.Keys, s.pendingSetups);
    var u := s.(data := s.data[key := Device(snapshot, {})], deferred := s.deferred - {key});
    DeferredTouches(u, key, SeqAt(s.deferred, key), registry);
    var rest := s.workers[w].stage.rest;
    BeginWriteTouches(RegisterDevice(s, key, snapshot, registry), w, key, props => Writing(key.eoj, rest, props),
                      Notifying(key.eoj, rest), registry);
  }

  lemma ApplyFrameTouches(s: Manager, key: DeviceKey, frame: Arrival, registry: Registry)
    requires key in s.data
    ensures var t := ApplyFrame(s, key, frame, registry);
      && t.deferred == s.deferred && t.data.Keys == s.data.Keys && s.registered <= t.registered
      && (forall k :: k in s.data ==>
            t.data[k].cache == if k == key then Apply(s.data[k].cache, frame) else s.data[k].cache)
  {
    FrameTouches(s, key, frame, registry);
  }

  lemma EnqueueTouches(s: Manager, n: Node, job: Job)
    ensures var t := Enqueue(s, n, job);
      TasksLeftAlone(s, t) && t.deferred == s.deferred && t.data == s.data && t.pendingSetups == s.pendingSetups
  {
    var t := Enqueue(s, n, job);
    if n in s.registered {
      assert t.workers == s.workers && t.registered == s.registered && t.nextWorker == s.nextWorker;
    } else {
      assert t.workers == s.workers[s.nextWorker := Worker(n, Ready)];
    }
  }

  /** One step, seen from one registered object. */
  lemma StepCache(s: Manager, a: Action, registry: Registry, key: DeviceKey)
    requires Ok(s) && IsEnabled(s, a) && key in s.data
    ensures var t := Step(s, a, registry);
      key in t.data && t.data[key].cache == Effect(s.data[key].cache, key, a)
  {
    if IsInternal(a) {
      InternalTouches(s, a, registry);
    } else {
      match a
      case ReadDone(w, k, snapshot) => ReadTouches(s, w, k, snapshot, registry);
      case FrameArrives(k, frame) => ArriveCache(s, k, frame, registry, key);
      case Acknowledged(_, k, props, accepted) => AcceptCache(s, k, props, accepted, key);
      case UserSet(k, props, accepted) =>
        if k in s.data {
          AcceptCache(s, k, props, accepted, key);
        }
      case Discovered(_, _) =>
      case EndWorker(_) =>
    }
  }

  lemma ArriveCache(s: Manager, k: DeviceKey, frame: Arrival, registry: Registry, key: DeviceKey)
    requires key in s.data
    ensures var t := ArriveStep(s, k, frame, registry);
      key in t.data && t.data[key].cache == Effect(s.data[key].cache, key, FrameArrives(k, frame))
  {
    if k in s.data {
      ApplyFrameTouches(s, k, frame, registry);
    }
  }

  lemma AcceptCache(s: Manager, k: DeviceKey, props: seq<Property>, accepted: set<Epc>, key: DeviceKey)
    requires key in s.data && k in s.data
    ensures var t := Accept(s, k, props, accepted);
      key in t.data && t.data[key].cache ==
        if k == key then Put(s.data[key].cache, Accepted(props, accepted)) else s.data[key].cache
  {
  }

  /** The frames kept for an object after an action. */
  function Kept(kept: seq<Arrival>, key: DeviceKey, running: bool, a: Action): seq<Arrival> {
    if running && a.FrameArrives? && a.key == key && IsResponse(a.frame.esv) && |kept| < MAX_DEFERRED_FRAMES
    then kept + [a.frame] else kept
  }

  /** One step, seen from an object that is not registered, neither before nor after, while its node's
      task runs before and after. */
  lemma StepDeferred(s: Manager, a: Action, registry: Registry, key: DeviceKey)
    requires Ok(s) && IsEnabled(s, a) && key !in s.data
    requires key !in Step(s, a, registry).data && key.node in Step(s, a, registry).registered
    ensures SeqAt(Step(s, a, registry).deferred, key) == Kept(SeqAt(s.deferred, key), key, key.node in s.registered, a)
  {
    if IsInternal(a) {
      InternalTouches(s, a, registry);
    } else {
      match a
      case ReadDone(w, k, snapshot) => ReadTouches(s, w, k, snapshot, registry);
      case FrameArrives(k, frame) => ArriveDeferred(s, k, frame, registry, key);
      case _ =>
    }
  }

  lemma ArriveDeferred(s: Manager, k: DeviceKey, frame: Arrival, registry: Registry, key: DeviceKey)
    requires DeferredOk(s) && key !in s.data
    ensures SeqAt(ArriveStep(s, k, frame, registry).deferred, key) ==
      Kept(SeqAt(s.deferred, key), key, key.node in s.registered, FrameArrives(k, frame))
  {
    if k in s.data {
      ApplyFrameTouches(s, k, frame, registry);
    }
  }

  /** While an object waits to be registered, the frames kept for it are the first 64 of those that
      arrived for it since its node's task began. */
  lemma {:induction false} KeptFrames(states: seq<Manager>, actions: seq<Action>, registry: Registry, i: nat, m: nat,
                                      key: DeviceKey)
    requires IsRun(states, actions, registry) && i < m < |states|
    requires key.node !in states[i].registered
    requires forall x :: i < x <= m ==> key.node in states[x].registered && key !in states[x].data
    requires key !in states[i].data
    ensures SeqAt(states[m].deferred, key) == FirstFrames(FramesFor(key, actions[i + 1..m]))
    decreases m
  {
    KeptOnce(states, actions, registry, m, key);
    if m == i + 1 {
      assert actions[i + 1..m] == [];
    } else {
      KeptFrames(states, actions, registry, i, m - 1, key);
      KeptStep(actions, i, m, key, SeqAt(states[m - 1].deferred, key));
    }
  }

  lemma KeptStep(actions: seq<Action>, i: nat, m: nat, key: DeviceKey, before: seq<Arrival>)
    requires i + 1 < m <= |actions| && before == FirstFrames(FramesFor(key, actions[i + 1..m - 1]))
    ensures Kept(before, key, true, actions[m - 1]) == FirstFrames(FramesFor(key, actions[i + 1..m]))
  {
    SliceSnoc(actions, i + 1, m);
    FramesSnoc(key, actions[i + 1..m - 1], actions[m - 1]);
  }

  lemma KeptOnce(states: seq<Manager>, actions: seq<Action>, registry: Registry, m: nat, key: DeviceKey)
    requires IsRun(states, actions, registry) && 0 < m < |states|
    requires key !in states[m - 1].data && key !in states[m].data && key.node in states[m].registered
    ensures SeqAt(states[m].deferred, key) ==
      Kept(SeqAt(states[m - 1].deferred, key), key, key.node in states[m - 1].registered, actions[m - 1])
    ensures key.node !in states[m - 1].registered ==> SeqAt(states[m].deferred, key) == []
  {
    RunKeeps(states, actions, registry, m - 1);
    assert Follows(states, actions, registry, m - 1);
    StepDeferred(states[m - 1], actions[m - 1], registry, key);
  }

  lemma FramesSnoc(key: DeviceKey, actions: seq<Action>, a: Action)
    ensures FirstFrames(FramesFor(key, actions + [a])) == Kept(FirstFrames(FramesFor(key, actions)), key, true, a)
  {
    assert (actions + [a])[..|actions|] == actions;
  }

  /** From its registration on, an object's cache follows the actions. */
  lemma {:induction false} CacheFollows(states: seq<Manager>, actions: seq<Action>, registry: Registry, j: nat, k: nat,
                                        key: DeviceKey)
    requires IsRun(states, actions, registry) && j <= k < |states| && key in states[j].data
    ensures key in states[k].data
    ensures states[k].data[key].cache == Effects(states[j].data[key].cache, key, actions[j..k])
    decreases k
  {
    var start := states[j].data[key].cache;
    if j == k {
      EffectsNone(start, key, actions, j);
    } else {
      CacheFollows(states, actions, registry, j, k - 1, key);
      CacheOnce(states, actions, registry, k, key);
      EffectsSnoc(start, key, actions, j, k);
    }
  }

  lemma EffectsNone(cache: Cache, key: DeviceKey, actions: seq<Action>, j: nat)
    requires j <= |actions|
    ensures Effects(cache, key, actions[j..j]) == cache
  {
    assert actions[j..j] == [];
  }

  lemma CacheOnce(states: seq<Manager>, actions: seq<Action>, registry: Registry, k: nat, key: DeviceKey)
    requires IsRun(states, actions, registry) && 0 < k < |states| && key in states[k - 1].data
    ensures key in states[k].data
    ensures states[k].data[key].cache == Effect(states[k - 1].data[key].cache, key, actions[k - 1])
  {
    RunKeeps(states, actions, registry, k - 1);
    assert Follows(states, actions, registry, k - 1);
    StepCache(states[k - 1], actions[k - 1], registry, key);
  }

  lemma EffectsSnoc(cache: Cache, key: DeviceKey, actions: seq<Action>, j: nat, k: nat)
    requires j < k <= |actions|
    ensures Effects(cache, key, actions[j..k]) == Effect(Effects(cache, key, actions[j..k - 1]), key, actions[k - 1])
  {
    SliceSnoc(actions, j, k);
  }

  /** Deferral is invisible. Let the node's job task begin with step i, and let step j register the
      object with the snapshot read. At every later moment k the object's cache is the snapshot, with
      the first 64 frames that arrived for it between i and j applied, then everything since j, in the
      order of arrival. */
  lemma DeferralIsInvisible(states: seq<Manager>, actions: seq<Action>, registry: Registry, i: nat, j: nat, k: nat,
                            w: WorkerId, key: DeviceKey, snapshot: Cache)
    requires IsRun(states, actions, registry) && i < j < k < |states|
    requires key.node !in states[i].registered && key !in states[i].data
    requires forall x :: i < x <= j ==> key.node in states[x].registered
    requires actions[j] == ReadDone(w, key, snapshot)
    ensures key in states[k].data
    ensures states[k].data[key].cache ==
      Effects(ApplyAll(snapshot, FirstFrames(FramesFor(key, actions[i + 1..j]))), key, actions[j + 1..k])
  {
    RunKeeps(states, actions, registry, j);
    assert Follows(states, actions, registry, j);
    ReadTouches(states[j], w, key, snapshot, registry);
    forall x | i < x <= j ensures key !in states[x].data {
      if key in states[x].data {
        CacheFollows(states, actions, registry, x, j, key);
      }
    }
    KeptFrames(states, actions, registry, i, j, key);
    CacheFollows(states, actions, registry, j + 1, k, key);
  }

  /** With at most 64 frames during setup no value is lost: all of them count. */
  lemma NoFrameIsLost(states: seq<Manager>, actions: seq<Action>, registry: Registry, i: nat, j: nat, k: nat,
                      w: WorkerId, key: DeviceKey, snapshot: Cache)
    requires IsRun(states, actions, registry) && i < j < k < |states|
    requires key.node !in states[i].registered && key !in states[i].data
    requires forall x :: i < x <= j ==> key.node in states[x].registered
    requires actions[j] == ReadDone(w, key, snapshot)
    requires |FramesFor(key, actions[i + 1..j])| <= MAX_DEFERRED_FRAMES
    ensures key in states[k].data
    ensures states[k].data[key].cache ==
      Effects(ApplyAll(snapshot, FramesFor(key, actions[i + 1..j])), key, actions[j + 1..k])
  {
    DeferralIsInvisible(states, actions, registry, i, j, k, w, key, snapshot);
    var frames := FramesFor(key, actions[i + 1..j]);
    assert FirstFrames(frames) == frames;
  }
}
