/** The device manager's bookkeeping (src/pyhems/device_manager.py): the job task of each node, setup
    of device objects, deferral of frames that arrive during setup, and the one-shot initialization
    of collection ranges. Each action is what one coroutine does between two awaits. */
module DeviceManager {
  import opened Basics
  import opened FrameCodec

  type Node = nat
  type WorkerId = nat
  type Cache = map<Epc, seq<byte>>

  datatype DeviceKey = DeviceKey(node: Node, eoj: Eoj)

  /** The part of a collection binding that range initialization uses. */
  datatype Binding = Binding(resultEpc: Epc, countEpc: Option<Epc>, selectorEpc: Option<Epc>, maxRange: Option<int>)

  /** The bindings of each device class (the registry's `collection_bindings`). */
  type Registry = Eoj -> seq<Binding>

  /** A device object: its cached values, and the range selectors already tried. */
  datatype Device = Device(cache: Cache, attempted: set<Epc>)

  datatype Job = Discover(instances: seq<Eoj>) | Recover(eoj: Eoj)

  /** Where a node's job task is suspended. */
  datatype Stage =
    | Ready                                                     // between two jobs
    | Reading(eoj: Eoj, rest: seq<Eoj>)                         // setup: waiting for the initial values
    | Writing(eoj: Eoj, rest: seq<Eoj>, props: seq<Property>)   // setup: waiting for the range SetC
    | Notifying(eoj: Eoj, rest: seq<Eoj>)                       // setup: waiting for the INF_REQ
    | Recovering(eoj: Eoj, props: seq<Property>)                // range job: waiting for the SetC

  datatype Worker = Worker(node: Node, stage: Stage)

  datatype Manager = Manager(
    jobs: map<Node, seq<Job>>,
    registered: set<Node>,             // the keys of _node_workers
    workers: map<WorkerId, Worker>,    // the job tasks that exist
    nextWorker: WorkerId,
    deferred: map<DeviceKey, seq<Arrival>>,
    data: map<DeviceKey, Device>,
    pendingSetups: set<DeviceKey>,
    // history
    enqueued: map<Node, seq<Job>>,
    started: map<Node, seq<Job>>,
    writes: seq<(DeviceKey, Epc)>)

  const NEW_MANAGER := Manager(map[], {}, map[], 0, map[], map[], {}, map[], map[], [])

  const MAX_DEFERRED_FRAMES := 64

  /** The service and the properties of a received frame. */
  datatype Arrival = Arrival(esv: Esv, props: seq<Property>)

  predicate IsResponse(esv: Esv) {
    esv in {0x7E, 0x71, 0x72, 0x73, 0x74, 0x7A, 0x50, 0x51, 0x52, 0x53, 0x5E}
  }

  predicate CarriesValues(esv: Esv) {
    esv in {0x72, 0x52, 0x73, 0x74}
  }

  datatype Action =
    | FrameArrives(key: DeviceKey, frame: Arrival)
    | Discovered(node: Node, instances: seq<Eoj>)
    | StartJob(worker: WorkerId)
    | EndWorker(worker: WorkerId)
    | ReadFailed(worker: WorkerId)
    | ReadDone(worker: WorkerId, key: DeviceKey, snapshot: Cache)
    | Acknowledged(worker: WorkerId, key: DeviceKey, props: seq<Property>, accepted: set<Epc>)
    | StageEnds(worker: WorkerId)  // the INF_REQ has been answered or not, or the stage raised
    | UserSet(key: DeviceKey, props: seq<Property>, accepted: set<Epc>)

  function SeqAt<K(==), V>(m: map<K, seq<V>>, k: K): seq<V> {
    if k in m then m[k] else []
  }

  // ---- Values ----

  function Put(cache: Cache, props: seq<Property>): Cache {
    if props == [] then cache
    else Put(cache, props[..|props| - 1])[props[|props| - 1].epc := props[|props| - 1].edt]
  }

  function Accepted(props: seq<Property>, accepted: set<Epc>): seq<Property> {
    if props == [] then []
    else
      Accepted(props[..|props| - 1], accepted)
      + (if props[|props| - 1].epc in accepted then [props[|props| - 1]] else [])
  }

  function Apply(cache: Cache, frame: Arrival): Cache {
    if CarriesValues(frame.esv) then Put(cache, frame.props) else cache
  }

  function ApplyAll(cache: Cache, frames: seq<Arrival>): Cache {
    if frames == [] then cache else Apply(ApplyAll(cache, frames[..|frames| - 1]), frames[|frames| - 1])
  }

  // ---- Range initialization ----

  /** The range to write for one binding, when its list is unset and has not been tried yet. */
  function RangeFor(b: Binding, d: Device): Option<Property> {
    if b.selectorEpc.None? || b.countEpc.None? || b.maxRange.None? || b.selectorEpc.value in d.attempted then None
    else if b.resultEpc !in d.cache || |d.cache[b.resultEpc]| < 2 || 0xFD !in d.cache[b.resultEpc][..2] then None
    else if b.countEpc.value !in d.cache || |d.cache[b.countEpc.value]| != 1 then None
    else
      var channels := d.cache[b.countEpc.value][0];
      var range := Min(b.maxRange.value, channels);
      if !(1 <= channels <= 252) || !(1 <= range <= 0xFF) then None
      else Some(Property(b.selectorEpc.value, [1, range]))
  }

  function Ranges(bindings: seq<Binding>, d: Device): seq<Property> {
    if bindings == [] then []
    else
      Ranges(bindings[..|bindings| - 1], d)
      + (var r := RangeFor(bindings[|bindings| - 1], d); if r.Some? then [r.value] else [])
  }

  function EpcsOf(props: seq<Property>): set<Epc> {
    set p | p in props :: p.epc
  }

  function WritesOf(key: DeviceKey, props: seq<Property>): (r: seq<(DeviceKey, Epc)>)
    ensures |r| == |props| && forall i :: 0 <= i < |props| ==> r[i] == (key, props[i].epc)
  {
    seq(|props|, i requires 0 <= i < |props| => (key, props[i].epc))
  }

  // ---- Steps ----

  function Enqueue(s: Manager, node: Node, job: Job): (r: Manager)
    ensures s.workers.Keys <= r.workers.Keys
  {
    var t := s.(jobs := s.jobs[node := SeqAt(s.jobs, node) + [job]],
                enqueued := s.enqueued[node := SeqAt(s.enqueued, node) + [job]]);
    if node in s.registered then t
    else t.(registered := s.registered + {node},
            workers := s.workers[s.nextWorker := Worker(node, Ready)],
            nextWorker := s.nextWorker + 1)
  }

  function ApplyFrame(s: Manager, key: DeviceKey, frame: Arrival, registry: Registry): (t: Manager)
    requires key in s.data
    ensures s.workers.Keys <= t.workers.Keys
  {
    if !CarriesValues(frame.esv) then s
    else
      var d := s.data[key].(cache := Put(s.data[key].cache, frame.props));
      var t := s.(data := s.data[key := d]);
      if Ranges(registry(key.eoj), d) != [] then Enqueue(t, key.node, Recover(key.eoj)) else t
  }

  function ApplyDeferred(s: Manager, key: DeviceKey, frames: seq<Arrival>, registry: Registry): (t: Manager)
    requires key in s.data
    ensures key in t.data && s.workers.Keys <= t.workers.Keys
  {
    if frames == [] then s
    else ApplyFrame(ApplyDeferred(s, key, frames[..|frames| - 1], registry), key, frames[|frames| - 1], registry)
  }

  function SetStage(s: Manager, w: WorkerId, stage: Stage): Manager
    requires w in s.workers
  {
    s.(workers := s.workers[w := s.workers[w].(stage := stage)])
  }

  /** Go on with the instances of a discovery job: skip those known or being set up. */
  function NextInstance(s: Manager, w: WorkerId, instances: seq<Eoj>): Manager
    requires w in s.workers
    decreases |instances|
  {
    if instances == [] then SetStage(s, w, Ready)
    else
      var key := DeviceKey(s.workers[w].node, instances[0]);
      if key in s.data || key in s.pendingSetups then NextInstance(s, w, instances[1..])
      else SetStage(s.(pendingSetups := s.pendingSetups + {key}), w, Reading(instances[0], instances[1..]))
  }

  /** Start writing the unset ranges of a device object, if there are any. */
  function BeginWrite(s: Manager, w: WorkerId, key: DeviceKey, writing: seq<Property> -> Stage, otherwise: Stage,
                      registry: Registry): Manager
    requires w in s.workers && key in s.data
  {
    var props := Ranges(registry(key.eoj), s.data[key]);
    if props == [] then SetStage(s, w, otherwise)
    else
      var d := s.data[key];
      SetStage(s.(data := s.data[key := d.(attempted := d.attempted + EpcsOf(props))],
                  writes := s.writes + WritesOf(key, props)),
               w, writing(props))
  }

  /** A new device object: its snapshot, then the frames deferred for it. */
  function RegisterDevice(s: Manager, key: DeviceKey, snapshot: Cache, registry: Registry): (t: Manager)
    ensures key in t.data && s.workers.Keys <= t.workers.Keys
  {
    ApplyDeferred(s.(data := s.data[key := Device(snapshot, {})], deferred := s.deferred - {key}),
                  key, SeqAt(s.deferred, key), registry)
  }

  function KeyOf(s: Manager, w: WorkerId): DeviceKey
    requires w in s.workers && !s.workers[w].stage.Ready?
  {
    DeviceKey(s.workers[w].node, s.workers[w].stage.eoj)
  }

  predicate IsEnabled(s: Manager, a: Action) {
    match a
    case FrameArrives(_, _) => true
    case Discovered(_, _) => true
    case UserSet(_, _, _) => true
    case StartJob(w) => w in s.workers && s.workers[w].stage.Ready? && SeqAt(s.jobs, s.workers[w].node) != []
      && (s.jobs[s.workers[w].node][0].Recover? ==>
            DeviceKey(s.workers[w].node, s.jobs[s.workers[w].node][0].eoj) in s.data)
    case EndWorker(w) => w in s.workers && s.workers[w].stage.Ready? && SeqAt(s.jobs, s.workers[w].node) == []
    case ReadFailed(w) => w in s.workers && s.workers[w].stage.Reading?
    case ReadDone(w, key, _) => w in s.workers && s.workers[w].stage.Reading? && key == KeyOf(s, w)
    case Acknowledged(w, key, props, _) =>
      && w in s.workers && (s.workers[w].stage.Writing? || s.workers[w].stage.Recovering?)
      && key == KeyOf(s, w) && props == s.workers[w].stage.props && key in s.data
    case StageEnds(w) => w in s.workers && (s.workers[w].stage.Writing? || s.workers[w].stage.Notifying?
                                            || s.workers[w].stage.Recovering?)
  }

  function Accept(s: Manager, key: DeviceKey, props: seq<Property>, accepted: set<Epc>): Manager
    requires key in s.data
  {
    s.(data := s.data[key := s.data[key].(cache := Put(s.data[key].cache, Accepted(props, accepted)))])
  }

  function FinishSetup(s: Manager, w: WorkerId): Manager
    requires w in s.workers && (s.workers[w].stage.Reading? || s.workers[w].stage.Writing? || s.workers[w].stage.Notifying?)
  {
    NextInstance(s.(pendingSetups := s.pendingSetups - {KeyOf(s, w)}), w, s.workers[w].stage.rest)
  }

  function Step(s: Manager, a: Action, registry: Registry): Manager
    requires IsEnabled(s, a)
  {
    match a
    case FrameArrives(key, frame) => ArriveStep(s, key, frame, registry)
    case Discovered(node, instances) => Enqueue(s, node, Discover(instances))
    case StartJob(w) => StartStep(s, w, registry)
    case EndWorker(w) => EndStep(s, w)
    case ReadFailed(w) => FinishSetup(s, w)
    case ReadDone(w, key, snapshot) => ReadStep(s, w, key, snapshot, registry)
    case Acknowledged(w, key, props, accepted) =>
      var t := Accept(s, key, props, accepted);
      SetStage(t, w, if s.workers[w].stage.Writing? then Notifying(key.eoj, s.workers[w].stage.rest) else Ready)
    case StageEnds(w) => if s.workers[w].stage.Recovering? then SetStage(s, w, Ready) else FinishSetup(s, w)
    case UserSet(key, props, accepted) => if key in s.data then Accept(s, key, props, accepted) else s
  }

  function ArriveStep(s: Manager, key: DeviceKey, frame: Arrival, registry: Registry): Manager {
    if !IsResponse(frame.esv) then s
    else if key in s.data then ApplyFrame(s, key, frame, registry)
    else if key.node in s.registered && |SeqAt(s.deferred, key)| < MAX_DEFERRED_FRAMES then
      s.(deferred := s.deferred[key := SeqAt(s.deferred, key) + [frame]])
    else s
  }

  function StartStep(s: Manager, w: WorkerId, registry: Registry): Manager
    requires IsEnabled(s, StartJob(w))
  {
    var node := s.workers[w].node;
    var job := s.jobs[node][0];
    var t := s.(jobs := s.jobs[node := s.jobs[node][1..]], started := s.started[node := SeqAt(s.started, node) + [job]]);
    match job
    case Discover(instances) => NextInstance(t, w, instances)
    case Recover(eoj) => BeginWrite(t, w, DeviceKey(node, eoj), props => Recovering(eoj, props), Ready, registry)
  }

  function EndStep(s: Manager, w: WorkerId): Manager
    requires w in s.workers
  {
    var node := s.workers[w].node;
    s.(jobs := s.jobs - {node}, registered := s.registered - {node}, workers := s.workers - {w},
       deferred := map k | k in s.deferred && !(k.node == node && k !in s.data) :: s.deferred[k])
  }

  function ReadStep(s: Manager, w: WorkerId, key: DeviceKey, snapshot: Cache, registry: Registry): Manager
    requires w in s.workers && s.workers[w].stage.Reading? && key == KeyOf(s, w)
  {
    var rest := s.workers[w].stage.rest;
    var t := RegisterDevice(s, key, snapshot, registry);
    BeginWrite(t, w, key, props => Writing(key.eoj, rest, props), Notifying(key.eoj, rest), registry)
  }
}
