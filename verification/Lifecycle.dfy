/** One branch name as the API server, the ZFS agent, the cluster and the
    operator see it, as a machine whose steps are single external calls.

    The resourceVersion of a stored branch is its index in `log`, so every write
    that changes the object makes a new version and a write succeeds only against
    the newest one.  Branches with different names share no state
    (Branches.ObjectNamesInjective, Paths.ClonePathInjective), so the whole system
    is a family of these cells; module System puts them together. */
module Lifecycle {
  import opened Common
  import opened Branches
  import opened Ttl

  /** A volume clone.  `content` is the content of its origin, `foreign` says that
      it was there before the operator started, `born` is the reconcile attempt
      that made it. */
  datatype Clone = Clone(content: int, foreign: bool, born: nat)

  /** The external call a reconcile pass is about to make. */
  datatype Call =
    | AddFinalizer
    | DeleteExpired(readAt: int)
    | MarkCreating
    | CloneSnapshot
    | ShareClone(made: bool)
    | CheckShare(made: bool)
    | RollBack
    | CreateObject(kind: Kind)
    | ReadNodePort
    | MarkReady(nodePort: nat)
    | MarkDeleting
    | DeleteObject(kind: Kind)
    | ReturnFromStop
    | DeleteClone
    | RemoveFinalizer
    | RecordError(message: Message)

  /** Where the operator stands: between passes, or before a call, holding its
      local copy of the branch and the resourceVersion of that copy. */
  datatype Pc = Idle | At(call: Call, b: Branch, rv: nat)

  datatype Cell = Cell(
    log: seq<Option<Branch>>,     // every stored version; None while absent
    seen: nat,                    // newest version the operator has read
    clones: map<string, Clone>,   // clones of this name, by dataset
    objects: Objects,
    ports: seq<nat>,              // every node port the Service has had, 0 while there was none
    portSeen: nat,                // newest of them the operator has read
    pc: Pc,
    attempt: nat,                 // number of passes that found the branch
    leftover: Objects,            // objects present when the branch was created
    harmed: bool)                 // garbage collection hit a branch that exists
  {
    ghost predicate Ok() {
      0 < |log| && seen < |log|
    }

    function Top(): nat
      requires 0 < |log|
    {
      |log| - 1
    }

    function Current(): Option<Branch>
      requires 0 < |log|
    {
      log[|log| - 1]
    }
  }

  /** How a call ends: it took effect and said so, it took effect but the caller
      saw an error, or it had no effect. */
  datatype Outcome = Done | Lost | Failed

  /** What a call takes from outside: the clock, the content of the snapshot, the
      node port the cluster assigns, and which state of the Service the operator's cache
      shows, the current one if none is given. */
  datatype Inputs = Inputs(now: int, content: int, nodePort: nat, service: Option<nat>)

  datatype Event =
    | UserCreate(spec: Spec)
    | UserDelete
    | Crash
    | Read(version: nat, now: int)
    | Perform(outcome: Outcome, inputs: Inputs)
    | AssignPort(port: nat)
    | Sweep(dataset: string)       // a garbage collection pass destroys the clone

  // ---- API server ----

  /** A write that leaves the object as it was makes no new version. */
  function Store(c: Cell, v: Option<Branch>): Cell
    requires c.Ok()
  {
    if v == c.Current() then c else c.(log := c.log + [v])
  }

  /** Optimistic concurrency. */
  predicate Accepts(c: Cell, rv: nat)
    requires c.Ok()
  {
    rv == c.Top() && c.Current().Some?
  }

  /** The status subresource: only the status is taken from the caller. */
  function WithStatus(c: Cell, st: Status): Cell
    requires c.Ok()
  {
    match c.Current()
    case None => c
    case Some(b) => Store(c, Some(b.(status := st)))
  }

  /** Update of the metadata: dropping the last finalizer of a marked branch
      erases it. */
  function WithFinalizer(c: Cell, present: bool): Cell
    requires c.Ok()
  {
    match c.Current()
    case None => c
    case Some(b) => Store(c, if !present && b.deleting then None else Some(b.(finalizer := present)))
  }

  function RequestDelete(c: Cell): Cell
    requires c.Ok()
  {
    match c.Current()
    case None => c
    case Some(b) => Store(c, Marked(b))
  }

  // ---- the operator ----

  predicate Expired(b: Branch, now: int) {
    b.status.expiresAt.Some? && b.status.phase == Ready && now > b.status.expiresAt.value
  }

  /** What a pass does first, from the version it read. */
  function Decide(b: Branch, rv: nat, now: int): Pc {
    if b.deleting then (if b.finalizer then At(MarkDeleting, b, rv) else Idle)
    else if Expired(b, now) then At(DeleteExpired(now), b, rv)
    else if !b.finalizer then At(AddFinalizer, b, rv)
    else if b.status.phase == Ready then Idle
    else At(MarkCreating, b, rv)
  }

  function Finish(c: Cell): Cell {
    c.(pc := Idle)
  }

  /** The result of a conditional write: `w` is the cell with the write applied. */
  function Written(c: Cell, o: Outcome, rv: nat, w: Cell, next: Pc): Cell
    requires c.Ok()
  {
    if o == Failed || !Accepts(c, rv) then Finish(c)
    else if o == Lost then Finish(w)
    else w.(pc := next)
  }

  function Go(c: Cell, call: Call): Cell
    requires c.pc.At?
  {
    c.(pc := c.pc.(call := call))
  }

  /** After the clone is in place: Start rejects an unknown type at once. */
  function BeginStart(cfg: Config, c: Cell): Cell
    requires c.pc.At?
  {
    Go(c, if cfg.Supported(c.pc.b.spec.dbType) then CreateObject(PV) else RecordError(StartDatabaseFailed))
  }

  function NextCreate(cfg: Config, kind: Kind, dbType: string): Call {
    match kind
    case PV => CreateObject(PVC)
    case PVC => CreateObject(if cfg.HasExtraConfig(dbType) then ConfigMap else Pod)
    case ConfigMap => CreateObject(Pod)
    case Pod => CreateObject(Service)
    case Service => ReadNodePort
  }

  function NextDelete(kind: Kind): Call {
    match kind
    case Service => DeleteObject(Pod)
    case Pod => DeleteObject(ConfigMap)
    case ConfigMap => DeleteObject(PVC)
    case PVC => DeleteObject(PV)
    case PV => ReturnFromStop
  }

  /** The node port recorded in the Service object, 0 while there is none. */
  function PortOf(objects: Objects): nat {
    if Service in objects && objects[Service].ServiceObject? then objects[Service].nodePort else 0
  }

  function ReadyStatus(cfg: Config, name: string, b: Branch, nodePort: nat, now: int): Status {
    Status(Ready, cfg.ClusterHost(name), cfg.DbPort(b.spec.dbType), cfg.externalHost, nodePort, NoMessage,
           if b.spec.ttlHours > 0 then Some(ExpiresAt(now, b.spec.ttlHours)) else b.status.expiresAt)
  }

  /** Other objects; a change of the node port is noted. */
  function Holding(c: Cell, objects: Objects): Cell {
    var port := PortOf(objects);
    if c.ports != [] && c.ports[|c.ports| - 1] == port then c.(objects := objects)
    else c.(objects := objects, ports := c.ports + [port])
  }

  /** The state of the Service a read through the cache shows: it may be behind, but never
      goes back. */
  function Shown(c: Cell, service: Option<nat>): nat {
    if service.Some? && c.portSeen <= service.value < |c.ports| then service.value
    else if c.ports == [] then 0 else |c.ports| - 1
  }

  function PortShown(c: Cell, service: Option<nat>): nat {
    if Shown(c, service) < |c.ports| then c.ports[Shown(c, service)] else 0
  }

  function CreateIfAbsent(cfg: Config, name: string, c: Cell, kind: Kind, nodePort: nat): Cell
    requires c.pc.At?
  {
    if kind in c.objects then c
    else Holding(c, c.objects[kind := Desired(cfg, name, c.pc.b.spec, kind, nodePort)])
  }

  // One function per external call: the cell after the call, and where the operator goes next.

  function DropClone(cfg: Config, c: Cell): Cell
    requires c.pc.At?
  {
    c.(clones := c.clones - {cfg.Dataset(c.pc.b.spec.dbType)})
  }

  /** `zfs clone`, which treats an existing clone as success. */
  function DoCloneSnapshot(cfg: Config, c: Cell, o: Outcome, content: int): Cell
    requires c.pc.At?
  {
    var d := cfg.Dataset(c.pc.b.spec.dbType);
    var made := d !in c.clones;
    var w := if made then c.(clones := c.clones[d := Clone(content, false, c.attempt)]) else c;
    if o == Failed then Go(c, RecordError(CreateCloneFailed))
    else Go(w, if o == Done then ShareClone(made) else RecordError(CreateCloneFailed))
  }

  function DoShareClone(cfg: Config, c: Cell, o: Outcome, made: bool): Cell
    requires c.pc.At?
  {
    if o == Done then BeginStart(cfg, c)
    else Go(c, if o == Failed then CheckShare(made) else RecordError(CreateCloneFailed))
  }

  /** Sharing failed: fine when the clone is shared already, otherwise undo a clone
      this pass has made. */
  function DoCheckShare(cfg: Config, c: Cell, o: Outcome, made: bool): Cell
    requires c.pc.At?
  {
    if o == Done then BeginStart(cfg, c)
    else Go(c, if o == Failed && made then RollBack else RecordError(CreateCloneFailed))
  }

  function DoRollBack(cfg: Config, c: Cell, o: Outcome): Cell
    requires c.pc.At?
  {
    Go(if o == Failed then c else DropClone(cfg, c), RecordError(CreateCloneFailed))
  }

  function DoCreateObject(cfg: Config, name: string, c: Cell, o: Outcome, kind: Kind, nodePort: nat): Cell
    requires c.pc.At?
  {
    if o == Failed then Go(c, RecordError(StartDatabaseFailed))
    else Go(CreateIfAbsent(cfg, name, c, kind, nodePort),
            if o == Done then NextCreate(cfg, kind, c.pc.b.spec.dbType) else RecordError(StartDatabaseFailed))
  }

  function DoReadNodePort(c: Cell, o: Outcome, service: Option<nat>): Cell
    requires c.pc.At?
  {
    var port := PortShown(c, service);
    Go(if o == Failed then c else c.(portSeen := Shown(c, service)),
       if o == Done && port > 0 then MarkReady(port) else RecordError(StartDatabaseFailed))
  }

  /** Stop swallows every delete error. */
  function DoDeleteObject(c: Cell, o: Outcome, kind: Kind): Cell
    requires c.pc.At?
  {
    Go(if o == Failed then c else Holding(c, c.objects - {kind}), NextDelete(kind))
  }

  /** The agent reports a missing clone as not found, which the client takes for success. */
  function DoDeleteClone(cfg: Config, c: Cell, o: Outcome): Cell
    requires c.pc.At?
  {
    Go(if o == Failed then c else DropClone(cfg, c),
       if o == Done then RemoveFinalizer else RecordError(DeleteCloneFailed))
  }

  /** Writing a new phase and going on with the local copy that carries it. */
  function DoMark(c: Cell, o: Outcome, phase: Phase, next: Call): Cell
    requires c.Ok() && c.pc.At?
  {
    var b := c.pc.b.(status := c.pc.b.status.(phase := phase));
    var w := WithStatus(c, b.status);
    Written(c, o, c.pc.rv, w, At(next, b, w.Top()))
  }

  function PerformCall(cfg: Config, name: string, c: Cell, o: Outcome, x: Inputs): Cell
    requires c.Ok() && c.pc.At?
  {
    var b, rv := c.pc.b, c.pc.rv;
    match c.pc.call
    case AddFinalizer => Written(c, o, rv, WithFinalizer(c, true), Idle)
    case DeleteExpired(_) => Finish(if o == Failed then c else RequestDelete(c))
    case MarkCreating => DoMark(c, o, Creating, CloneSnapshot)
    case CloneSnapshot => DoCloneSnapshot(cfg, c, o, x.content)
    case ShareClone(made) => DoShareClone(cfg, c, o, made)
    case CheckShare(made) => DoCheckShare(cfg, c, o, made)
    case RollBack => DoRollBack(cfg, c, o)
    case CreateObject(kind) => DoCreateObject(cfg, name, c, o, kind, x.nodePort)
    case ReadNodePort => DoReadNodePort(c, o, x.service)
    case MarkReady(port) => Written(c, o, rv, WithStatus(c, ReadyStatus(cfg, name, b, port, x.now)), Idle)
    case MarkDeleting => DoMark(c, o, Deleting, DeleteObject(Service))
    case DeleteObject(kind) => DoDeleteObject(c, o, kind)
    case ReturnFromStop => Go(c, if o == Done then DeleteClone else RecordError(StopDatabaseFailed))
    case DeleteClone => DoDeleteClone(cfg, c, o)
    case RemoveFinalizer => Written(c, o, rv, WithFinalizer(c, false), Idle)
    case RecordError(message) =>
      Written(c, o, rv, WithStatus(c, b.status.(phase := Error, message := message)), Idle)
  }

  // ---- steps ----

  predicate Enabled(c: Cell, e: Event) {
    0 < |c.log| && c.seen < |c.log| &&
    match e
    case UserCreate(_) => c.Current().None?
    case Read(version, _) => c.pc.Idle? && c.seen <= version < |c.log|
    case Perform(_, _) => c.pc.At?
    case AssignPort(port) => Service in c.objects && c.objects[Service].ServiceObject? && PortOf(c.objects) == 0 < port
    case _ => true
  }

  function Step(cfg: Config, name: string, c: Cell, e: Event): Cell
    requires Enabled(c, e)
  {
    match e
    case UserCreate(spec) =>
      Store(c, Some(Branch(spec, false, false, BLANK_STATUS))).(leftover := c.objects, harmed := false)
    case UserDelete => RequestDelete(c)
    case Crash => Finish(c)
    case Read(version, now) =>
      var r := c.(seen := version);
      (match c.log[version]
       case None => r
       case Some(b) => r.(pc := Decide(b, version, now), attempt := c.attempt + 1))
    case Perform(o, x) => PerformCall(cfg, name, c, o, x)
    case AssignPort(port) => Holding(c, c.objects[Service := c.objects[Service].(nodePort := port)])
    case Sweep(d) => c.(clones := c.clones - {d}, harmed := c.harmed || c.Current().Some?)
  }

  /** Before the operator has run: clones and objects of unknown provenance may exist. */
  ghost predicate Initial(c: Cell) {
    && c.log == [None] && c.seen == 0 && c.pc == Idle && c.attempt == 0 && !c.harmed
    && (forall d | d in c.clones :: c.clones[d].foreign && c.clones[d].born == 0)
    && (forall k | k in c.objects :: OfKind(k, c.objects[k]))
    && c.ports == [PortOf(c.objects)] && c.portSeen == 0
  }

  predicate OfKind(kind: Kind, o: Object) {
    match kind
    case PV => o.PVObject?
    case PVC => o.PVCObject?
    case ConfigMap => o.ConfigMapObject?
    case Pod => o.PodObject?
    case Service => o.ServiceObject?
  }
}
