/** What every step of a cell keeps. */
module LifecycleInvariant {
  import opened Common
  import opened Branches
  import opened Lifecycle

  // ---- the version log ----

  ghost predicate RecordsEndpoint(cfg: Config, name: string, b: Branch) {
    && b.status.clusterHost == cfg.ClusterHost(name)
    && b.status.clusterPort == cfg.DbPort(b.spec.dbType)
    && b.status.externalHost == cfg.externalHost
    && b.status.externalPort > 0
    && b.status.message == NoMessage
    && cfg.Supported(b.spec.dbType)
  }

  ghost predicate VersionOk(cfg: Config, name: string, v: Option<Branch>) {
    v.Some? ==>
      && (!v.value.finalizer ==> v.value.status == BLANK_STATUS && !v.value.deleting)
      && (v.value.status.phase == Ready ==> RecordsEndpoint(cfg, name, v.value))
      && (v.value.spec.ttlHours <= 0 ==> v.value.status.expiresAt.None?)
      && (v.value.status.phase == Ready && v.value.spec.ttlHours > 0 ==> v.value.status.expiresAt.Some?)
  }

  /** The only ways one stored version gives way to the next. */
  ghost predicate Follows(a: Option<Branch>, b: Option<Branch>) {
    match (a, b)
    case (None, None) => false
    case (None, Some(y)) => y == Branch(y.spec, false, false, BLANK_STATUS)
    case (Some(x), None) => !x.finalizer || x.deleting
    case (Some(x), Some(y)) =>
      && y.spec == x.spec
      && (x.finalizer ==> y.finalizer)
      && (x.deleting ==> y.deleting)
      && (x.Serving() ==> y == x.(deleting := true))
      && (x.status.phase == Ready && y.status.phase == Ready ==> y.status == x.status)
      && (y.status.phase == Ready && x.status.phase != Ready ==>
            x.Live() && y.Live() && x.status.phase == Creating)
  }

  ghost predicate LogOk(cfg: Config, name: string, log: seq<Option<Branch>>) {
    && 0 < |log| && log[0] == None
    && (forall k | 0 <= k < |log| :: VersionOk(cfg, name, log[k]))
    && (forall k | 0 < k < |log| :: Follows(log[k - 1], log[k]))
  }

  /** A protected, unmarked branch the operator may still read cannot have been
      erased since, nor one that serves have changed its status: both need a pass
      that has read the mark. */
  ghost predicate Persistent(log: seq<Option<Branch>>, seen: nat) {
    forall j, k | seen <= k <= j < |log| && log[k].Some? && log[k].value.Live() ::
      && log[j].Some? && log[j].value.finalizer
      && (log[k].value.Serving() ==> log[j].value.status == log[k].value.status)
  }

  lemma AppendOk(cfg: Config, name: string, log: seq<Option<Branch>>, v: Option<Branch>)
    requires LogOk(cfg, name, log) && VersionOk(cfg, name, v) && Follows(log[|log| - 1], v)
    ensures LogOk(cfg, name, log + [v])
  {
    var l := log + [v];
    forall k | 0 < k < |l| ensures Follows(l[k - 1], l[k]) {
      if k < |log| { assert Follows(log[k - 1], log[k]); }
    }
  }

  // ---- where the operator stands ----

  /** The write that marked the branch Creating is the newest version, or only the
      deletion mark has come on top of it. */
  ghost predicate Fenced(c: Cell, b: Branch, rv: nat) {
    && c.Ok()
    && b.Live() && b.status.phase == Creating
    && (rv == c.Top() || (rv + 1 == c.Top() && c.Current() == Some(b.(deleting := true))))
  }

  /** A marked branch in the hands of the deletion flow. */
  ghost predicate Draining(c: Cell, b: Branch, rv: nat) {
    && c.Ok()
    && rv == c.Top() && b.finalizer && b.deleting && b.status.phase == Deleting
    && (forall j | c.seen <= j < |c.log| :: c.log[j].Some? && c.log[j].value.deleting)
  }

  /** The calls of the deletion flow after it has marked the branch. */
  predicate Cleaning(call: Call) {
    call.DeleteObject? || call.ReturnFromStop? || call.DeleteClone? || call.RemoveFinalizer?
  }

  /** The calls of the creation flow after it has marked the branch. */
  predicate Making(call: Call) {
    !Cleaning(call) && (Writes(call) ==> call.MarkReady?)
  }

  /** The calls that write to the branch, or ask for its deletion. */
  predicate Writes(call: Call) {
    call.AddFinalizer? || call.DeleteExpired? || call.MarkCreating? || call.MarkReady? ||
    call.MarkDeleting? || call.RemoveFinalizer? || call.RecordError?
  }

  ghost predicate PcInv(c: Cell) {
    c.Ok() &&
    match c.pc
    case Idle => true
    case At(call, b, rv) =>
      && c.seen <= rv < |c.log| && c.log[rv] == Some(b)
      && match call
         case AddFinalizer => rv == c.seen && !b.deleting && !b.finalizer
         case DeleteExpired(readAt) => rv == c.seen && b.Serving() && b.finalizer && Expired(b, readAt)
         case MarkCreating => rv == c.seen && b.Live() && b.status.phase != Ready
         case MarkDeleting => rv == c.seen && b.finalizer && b.deleting
         case RecordError(_) => Fenced(c, b, rv) || Draining(c, b, rv)
         case _ => if Cleaning(call) then Draining(c, b, rv) else Fenced(c, b, rv)
  }

  ghost predicate History(cfg: Config, name: string, c: Cell) {
    c.Ok() && LogOk(cfg, name, c.log) && Persistent(c.log, c.seen) && PcInv(c)
  }

  // ---- clones ----

  /** The calls between the clone command and the end of a creation. */
  predicate AfterClone(call: Call) {
    call.ShareClone? || call.CheckShare? || call.CreateObject? || call.ReadNodePort? || call.MarkReady?
  }

  predicate Undoable(call: Call) {
    call == ShareClone(true) || call == CheckShare(true) || call == RollBack
  }

  ghost predicate Owned(cfg: Config, c: Cell, d: string) {
    c.Ok() && c.Current().Some? && c.Current().value.finalizer && d == cfg.Dataset(c.Current().value.spec.dbType)
  }

  ghost predicate CloneInv(cfg: Config, c: Cell) {
    && c.Ok()
    && (forall d | d in c.clones && !c.clones[d].foreign :: Owned(cfg, c, d))
    && (forall d | d in c.clones :: c.clones[d].born <= c.attempt)
    && (c.pc.At? ==>
          var d := cfg.Dataset(c.pc.b.spec.dbType);
          && (c.pc.call == RemoveFinalizer ==> d !in c.clones)
          && (AfterClone(c.pc.call) && !c.harmed ==> d in c.clones)
          && (Undoable(c.pc.call) && d in c.clones ==> c.clones[d].born == c.attempt && !c.clones[d].foreign))
    && (c.Current().Some? && c.Current().value.Serving() && !c.harmed ==>
          cfg.Dataset(c.Current().value.spec.dbType) in c.clones)
  }

  // ---- objects ----

  /** The kinds that must be there when the creation flow is about to make a call. */
  function Built(cfg: Config, call: Call, dbType: string): set<Kind> {
    match call
    case CreateObject(kind) => (
      match kind
      case PV => {}
      case PVC => {PV}
      case ConfigMap => {PV, PVC}
      case Pod => Needed(cfg, dbType) - {Pod, Service}
      case Service => Needed(cfg, dbType) - {Service})
    case ReadNodePort => Needed(cfg, dbType)
    case MarkReady(_) => Needed(cfg, dbType)
    case _ => {}
  }

  /** An object either was left over when the branch was created, or is the one
      its spec asks for. */
  ghost predicate Explained(cfg: Config, name: string, leftover: Objects, spec: Spec, kind: Kind, o: Object) {
    if kind in leftover then SameButPort(o, leftover[kind])
    else kind in Needed(cfg, spec.dbType) && SameButPort(o, Desired(cfg, name, spec, kind, 0))
  }

  /** What the objects must be like for the operator's next call. */
  ghost predicate Underway(cfg: Config, c: Cell, t: string, call: Call) {
    && Built(cfg, call, t) <= c.objects.Keys
    && (Making(call) ==> c.leftover.Keys <= c.objects.Keys)
    && (call.CreateObject? ==> call.kind in Needed(cfg, t))
    && (call.CreateObject? || call.ReadNodePort? || call.MarkReady? ==> cfg.Supported(t))
    && (call.MarkReady? ==> c.portSeen < |c.ports| && c.ports[c.portSeen] == call.nodePort > 0)
  }

  ghost predicate ObjectInv(cfg: Config, name: string, c: Cell) {
    && c.Ok()
    && (forall k | k in c.objects :: OfKind(k, c.objects[k]))
    && c.portSeen < |c.ports| && c.ports[|c.ports| - 1] == PortOf(c.objects)
    && (c.Current().Some? ==>
          var b := c.Current().value;
          && (forall k | k in c.objects :: Explained(cfg, name, c.leftover, b.spec, k, c.objects[k]))
          && (!b.deleting ==> c.leftover.Keys <= c.objects.Keys)
          && (b.Serving() ==>
              Needed(cfg, b.spec.dbType) <= c.objects.Keys
              && c.ports[c.portSeen] == b.status.externalPort > 0))
    && (c.pc.At? ==> Underway(cfg, c, c.pc.b.spec.dbType, c.pc.call))
  }

  ghost predicate Inv(cfg: Config, name: string, c: Cell) {
    History(cfg, name, c) && CloneInv(cfg, c) && ObjectInv(cfg, name, c)
  }

  lemma InitialInv(cfg: Config, name: string, c: Cell)
    requires Initial(c)
    ensures Inv(cfg, name, c)
  {
  }

  // ---- preservation: history ----

  /** A new version on top of the log, seen from the log alone. */
  lemma StoreHistory(cfg: Config, name: string, c: Cell, v: Option<Branch>)
    requires c.Ok() && LogOk(cfg, name, c.log) && Persistent(c.log, c.seen)
    requires v != c.Current() ==> VersionOk(cfg, name, v) && Follows(c.Current(), v)
    requires forall k | c.seen <= k < |c.log| && c.log[k].Some? && c.log[k].value.Live() ::
               v.Some? && (c.log[k].value.Serving() ==> v.value.status == c.log[k].value.status)
    ensures var w := Store(c, v);
            w.Ok() && w.Current() == v && LogOk(cfg, name, w.log) && Persistent(w.log, w.seen)
    ensures var w := Store(c, v);
            forall k | 0 <= k < |c.log| :: w.log[k] == c.log[k]
  {
    if v != c.Current() {
      AppendOk(cfg, name, c.log, v);
      var l := Store(c, v).log;
      forall j, k | c.seen <= k <= j < |l| && l[k].Some? && l[k].value.Live()
        ensures l[j].Some? && l[j].value.finalizer
        ensures l[k].value.Serving() ==> l[j].value.status == l[k].value.status
      {
        if j == |c.log| && k < |c.log| {
          assert c.log[|c.log| - 1].Some?;
        }
      }
    }
  }

  lemma ReadHistory(cfg: Config, name: string, c: Cell, version: nat, now: int)
    requires History(cfg, name, c) && Enabled(c, Read(version, now))
    ensures History(cfg, name, Step(cfg, name, c, Read(version, now)))
  {
    assert VersionOk(cfg, name, c.log[version]);
    var w := Step(cfg, name, c, Read(version, now));
    assert w == c.(seen := version, pc := w.pc, attempt := w.attempt);
    if c.log[version].Some? {
      DecidePc(cfg, name, w, c.log[version].value, version, now);
    }
  }

  /** Where a pass stands that has just read. */
  lemma DecidePc(cfg: Config, name: string, w: Cell, b: Branch, version: nat, now: int)
    requires w.Ok() && w.seen == version && w.log[version] == Some(b) && VersionOk(cfg, name, Some(b))
    requires w.pc == Decide(b, version, now)
    ensures PcInv(w)
  {
  }

  /** A marked version seen by the operator: no unmarked one is still readable. */
  lemma MarkedFromSeen(cfg: Config, name: string, c: Cell)
    requires c.Ok() && LogOk(cfg, name, c.log)
    requires c.seen == c.Top() && c.Current().Some? && c.Current().value.deleting
    ensures forall j | c.seen <= j < |c.log| :: c.log[j].Some? && c.log[j].value.deleting
  {
  }

  lemma MarkCreatingHistory(cfg: Config, name: string, c: Cell, o: Outcome, x: Inputs)
    requires History(cfg, name, c) && c.pc.At? && c.pc.call.MarkCreating?
    ensures History(cfg, name, PerformCall(cfg, name, c, o, x))
  {
    var b := c.pc.b.(status := c.pc.b.status.(phase := Creating));
    var w := WithStatus(c, b.status);
    if Accepts(c, c.pc.rv) {
      assert VersionOk(cfg, name, c.Current());
      StoreHistory(cfg, name, c, Some(b));
      FencedWritten(c, b);
    }
    WrittenHistory(cfg, name, c, o, c.pc.rv, w, At(CloneSnapshot, b, w.Top()));
  }

  lemma FencedWritten(c: Cell, b: Branch)
    requires c.Ok() && b.Live() && b.status.phase == Creating
    requires c.Current().Some? && c.Current().value.(status := b.status) == b
    ensures var w := WithStatus(c, b.status); Fenced(w, b, w.Top()) && w.log[w.Top()] == Some(b)
  {
  }

  /** A conditional write keeps what its two ends keep. */
  lemma WrittenHistory(cfg: Config, name: string, c: Cell, o: Outcome, rv: nat, w: Cell, next: Pc)
    requires History(cfg, name, c)
    requires Accepts(c, rv) ==>
               w.Ok() && LogOk(cfg, name, w.log) && Persistent(w.log, w.seen) && PcInv(w.(pc := next))
    ensures History(cfg, name, Written(c, o, rv, w, next))
  {
  }

  lemma DrainingWritten(c: Cell, b: Branch)
    requires c.Ok() && c.seen == c.Top() && b.finalizer && b.deleting && b.status.phase == Deleting
    requires c.Current().Some? && c.Current().value.deleting && c.Current().value.(status := b.status) == b
    ensures var w := WithStatus(c, b.status); Draining(w, b, w.Top()) && w.log[w.Top()] == Some(b)
  {
  }

  lemma MarkDeletingHistory(cfg: Config, name: string, c: Cell, o: Outcome, x: Inputs)
    requires History(cfg, name, c) && c.pc.At? && c.pc.call.MarkDeleting?
    ensures History(cfg, name, PerformCall(cfg, name, c, o, x))
  {
    var b := c.pc.b.(status := c.pc.b.status.(phase := Deleting));
    var w := WithStatus(c, b.status);
    if Accepts(c, c.pc.rv) {
      assert VersionOk(cfg, name, c.Current());
      MarkedFromSeen(cfg, name, c);
      StoreHistory(cfg, name, c, Some(b));
      DrainingWritten(c, b);
    }
    WrittenHistory(cfg, name, c, o, c.pc.rv, w, At(DeleteObject(Service), b, w.Top()));
  }

  lemma ExpireHistory(cfg: Config, name: string, c: Cell, o: Outcome, x: Inputs)
    requires History(cfg, name, c) && c.pc.At? && c.pc.call.DeleteExpired?
    ensures History(cfg, name, PerformCall(cfg, name, c, o, x))
  {
    assert VersionOk(cfg, name, c.log[c.pc.rv]);
    assert c.Current().Some? && c.Current().value.finalizer;
    StoreHistory(cfg, name, c, Marked(c.Current().value));
  }

  lemma FinalizerHistory(cfg: Config, name: string, c: Cell, o: Outcome, x: Inputs)
    requires History(cfg, name, c) && c.pc.At? && (c.pc.call.AddFinalizer? || c.pc.call.RemoveFinalizer?)
    ensures History(cfg, name, PerformCall(cfg, name, c, o, x))
  {
    assert VersionOk(cfg, name, c.log[c.pc.rv]);
    if Accepts(c, c.pc.rv) {
      StoreHistory(cfg, name, c, if c.pc.call.AddFinalizer? then Some(c.pc.b.(finalizer := true)) else None);
    }
  }

  lemma ReadyHistory(cfg: Config, name: string, c: Cell, o: Outcome, x: Inputs)
    requires History(cfg, name, c) && c.pc.At? && c.pc.call.MarkReady?
    requires c.pc.call.nodePort > 0 && cfg.Supported(c.pc.b.spec.dbType)
    ensures History(cfg, name, PerformCall(cfg, name, c, o, x))
  {
    var st := ReadyStatus(cfg, name, c.pc.b, c.pc.call.nodePort, x.now);
    if Accepts(c, c.pc.rv) {
      assert VersionOk(cfg, name, c.Current());
      StoreHistory(cfg, name, c, Some(c.pc.b.(status := st)));
    }
    WrittenHistory(cfg, name, c, o, c.pc.rv, WithStatus(c, st), Idle);
  }

  lemma ErrorHistory(cfg: Config, name: string, c: Cell, o: Outcome, x: Inputs)
    requires History(cfg, name, c) && c.pc.At? && c.pc.call.RecordError?
    ensures History(cfg, name, PerformCall(cfg, name, c, o, x))
  {
    var st := c.pc.b.status.(phase := Error, message := c.pc.call.message);
    if Accepts(c, c.pc.rv) {
      StoreHistory(cfg, name, c, Some(c.pc.b.(status := st)));
    }
    WrittenHistory(cfg, name, c, o, c.pc.rv, WithStatus(c, st), Idle);
  }

  lemma WriteHistory(cfg: Config, name: string, c: Cell, o: Outcome, x: Inputs)
    requires History(cfg, name, c) && c.pc.At? && Writes(c.pc.call)
    requires c.pc.call.MarkReady? ==> c.pc.call.nodePort > 0 && cfg.Supported(c.pc.b.spec.dbType)
    ensures History(cfg, name, PerformCall(cfg, name, c, o, x))
  {
    match c.pc.call
    case MarkCreating => MarkCreatingHistory(cfg, name, c, o, x);
    case MarkDeleting => MarkDeletingHistory(cfg, name, c, o, x);
    case DeleteExpired(_) => ExpireHistory(cfg, name, c, o, x);
    case MarkReady(_) => ReadyHistory(cfg, name, c, o, x);
    case RecordError(_) => ErrorHistory(cfg, name, c, o, x);
    case AddFinalizer => FinalizerHistory(cfg, name, c, o, x);
    case RemoveFinalizer => FinalizerHistory(cfg, name, c, o, x);
    case _ =>
  }

  /** A call that writes nothing to the branch leaves the operator where the same
      facts about the log hold. */
  lemma EffectHistory(cfg: Config, name: string, c: Cell, o: Outcome, x: Inputs)
    requires History(cfg, name, c) && c.pc.At? && !Writes(c.pc.call)
    ensures History(cfg, name, PerformCall(cfg, name, c, o, x))
  {
    EffectPc(cfg, name, c, o, x);
    var w := PerformCall(cfg, name, c, o, x);
    if Cleaning(c.pc.call) {
      assert Draining(w, w.pc.b, w.pc.rv);
    } else {
      assert Fenced(w, w.pc.b, w.pc.rv);
    }
  }

  /** A call that does not write to the branch changes only clones and objects, and
      stays within its flow. */
  ghost predicate OneEffect(c: Cell, w: Cell)
    requires c.pc.At?
  {
    && w.pc.At?
    && w == c.(clones := w.clones, objects := w.objects, ports := w.ports, portSeen := w.portSeen,
               pc := c.pc.(call := w.pc.call))
    && (w.pc.call.RecordError? || (if Cleaning(c.pc.call) then Cleaning(w.pc.call) else Making(w.pc.call)))
  }

  lemma EffectPc(cfg: Config, name: string, c: Cell, o: Outcome, x: Inputs)
    requires c.Ok() && c.pc.At? && !Writes(c.pc.call)
    ensures OneEffect(c, PerformCall(cfg, name, c, o, x))
  {
    if Cleaning(c.pc.call) {
      CleaningPc(cfg, name, c, o, x);
    } else if c.pc.call.CreateObject? || c.pc.call.ReadNodePort? {
      StartPc(cfg, name, c, o, x);
    } else {
      VolumePc(cfg, name, c, o, x);
    }
  }

  lemma CleaningPc(cfg: Config, name: string, c: Cell, o: Outcome, x: Inputs)
    requires c.Ok() && c.pc.At? && Cleaning(c.pc.call) && !Writes(c.pc.call)
    ensures OneEffect(c, PerformCall(cfg, name, c, o, x))
  {
  }

  lemma StartPc(cfg: Config, name: string, c: Cell, o: Outcome, x: Inputs)
    requires c.Ok() && c.pc.At? && (c.pc.call.CreateObject? || c.pc.call.ReadNodePort?)
    ensures OneEffect(c, PerformCall(cfg, name, c, o, x))
  {
  }

  lemma VolumePc(cfg: Config, name: string, c: Cell, o: Outcome, x: Inputs)
    requires c.Ok() && c.pc.At?
    requires c.pc.call.CloneSnapshot? || c.pc.call.ShareClone? || c.pc.call.CheckShare? || c.pc.call.RollBack?
    ensures OneEffect(c, PerformCall(cfg, name, c, o, x))
  {
  }

  /** What a writing call can do to the newest version. */
  ghost predicate OneWrite(c: Cell, w: Cell)
    requires c.Ok() && c.pc.At?
  {
    && w == c.(log := w.log, pc := w.pc)
    && w.Ok() && IsPrefix(c.log, w.log)
    && (w.pc.At? ==> w.pc.b.spec == c.pc.b.spec && w.pc.call in {CloneSnapshot, DeleteObject(Service)})
    && (w.pc.At? && w.pc.call.CloneSnapshot? ==> c.Current().Some? && !c.Current().value.deleting)
    && (w.Current().Some? ==> c.Current().Some? && Inherits(c, w))
    && (w.Current().None? && c.Current().Some? && c.Current().value.finalizer ==>
          c.pc.call == RemoveFinalizer && c.Current().value.spec == c.pc.b.spec)
  }

  lemma WriteEffect(cfg: Config, name: string, c: Cell, o: Outcome, x: Inputs)
    requires PcInv(c) && c.pc.At? && Writes(c.pc.call)
    ensures OneWrite(c, PerformCall(cfg, name, c, o, x))
  {
    match c.pc.call
    case MarkCreating => MarkCreatingEffect(cfg, name, c, o, x);
    case MarkDeleting => MarkDeletingEffect(cfg, name, c, o, x);
    case AddFinalizer => FinalizerEffect(cfg, name, c, o, x);
    case RemoveFinalizer => FinalizerEffect(cfg, name, c, o, x);
    case MarkReady(_) => StatusEffect(cfg, name, c, o, x);
    case RecordError(_) => StatusEffect(cfg, name, c, o, x);
    case _ => ExpireEffect(cfg, name, c, o, x);
  }

  lemma MarkCreatingEffect(cfg: Config, name: string, c: Cell, o: Outcome, x: Inputs)
    requires PcInv(c) && c.pc.At? && c.pc.call.MarkCreating?
    ensures OneWrite(c, PerformCall(cfg, name, c, o, x))
  {
  }

  lemma MarkDeletingEffect(cfg: Config, name: string, c: Cell, o: Outcome, x: Inputs)
    requires PcInv(c) && c.pc.At? && c.pc.call.MarkDeleting?
    ensures OneWrite(c, PerformCall(cfg, name, c, o, x))
  {
    assert PerformCall(cfg, name, c, o, x) == DoMark(c, o, Deleting, DeleteObject(Service));
    DrainEffect(c, o);
  }

  lemma DrainEffect(c: Cell, o: Outcome)
    requires PcInv(c) && c.pc.At? && c.pc.call.MarkDeleting?
    ensures OneWrite(c, DoMark(c, o, Deleting, DeleteObject(Service)))
  {
    StatusWritten(c, c.pc.b.status.(phase := Deleting));
  }

  lemma StatusWritten(c: Cell, st: Status)
    requires c.Ok()
    ensures var w := WithStatus(c, st);
            && w.Ok() && w == c.(log := w.log) && IsPrefix(c.log, w.log)
            && (c.Current().None? ==> w == c)
            && (c.Current().Some? ==> w.Current() == Some(c.Current().value.(status := st)))
  {
  }

  lemma FinalizerEffect(cfg: Config, name: string, c: Cell, o: Outcome, x: Inputs)
    requires PcInv(c) && c.pc.At? && (c.pc.call.AddFinalizer? || c.pc.call.RemoveFinalizer?)
    ensures OneWrite(c, PerformCall(cfg, name, c, o, x))
  {
    if c.pc.call.AddFinalizer? {
      AddEffect(cfg, name, c, o, x);
    }
  }

  lemma AddEffect(cfg: Config, name: string, c: Cell, o: Outcome, x: Inputs)
    requires PcInv(c) && c.pc.At? && c.pc.call.AddFinalizer?
    ensures OneWrite(c, PerformCall(cfg, name, c, o, x))
  {
  }

  lemma StatusEffect(cfg: Config, name: string, c: Cell, o: Outcome, x: Inputs)
    requires PcInv(c) && c.pc.At? && (c.pc.call.MarkReady? || c.pc.call.RecordError?)
    ensures OneWrite(c, PerformCall(cfg, name, c, o, x))
  {
    if c.pc.call.MarkReady? {
      ReadyEffect(cfg, name, c, o, x);
    }
  }

  lemma ReadyEffect(cfg: Config, name: string, c: Cell, o: Outcome, x: Inputs)
    requires PcInv(c) && c.pc.At? && c.pc.call.MarkReady?
    ensures OneWrite(c, PerformCall(cfg, name, c, o, x))
  {
  }

  lemma ExpireEffect(cfg: Config, name: string, c: Cell, o: Outcome, x: Inputs)
    requires PcInv(c) && c.pc.At? && c.pc.call.DeleteExpired?
    ensures OneWrite(c, PerformCall(cfg, name, c, o, x))
  {
  }

  /** The newest version of `w` came from that of `c` by one write. */
  ghost predicate Inherits(c: Cell, w: Cell)
    requires c.Ok() && w.Ok() && c.Current().Some? && w.Current().Some? && c.pc.At?
  {
    var x, y := c.Current().value, w.Current().value;
    && y.spec == x.spec
    && (x.finalizer ==> y.finalizer)
    && (x.deleting ==> y.deleting)
    && (y.Serving() && !x.Serving() ==>
          c.pc.call.MarkReady? && y.spec == c.pc.b.spec && y.status.externalPort == c.pc.call.nodePort)
    && (y.Serving() && x.Serving() ==> y.status == x.status)
  }

  lemma MarkHistory(cfg: Config, name: string, c: Cell)
    requires History(cfg, name, c) && c.Current().Some?
    ensures History(cfg, name, RequestDelete(c))
  {
    assert VersionOk(cfg, name, c.Current());
    StoreHistory(cfg, name, c, Marked(c.Current().value));
    MarkPc(cfg, name, c);
  }

  lemma MarkPc(cfg: Config, name: string, c: Cell)
    requires History(cfg, name, c) && c.Current().Some?
    ensures PcInv(RequestDelete(c))
  {
    assert VersionOk(cfg, name, c.Current());
    if c.pc.At? && !Draining(c, c.pc.b, c.pc.rv) && !Fenced(c, c.pc.b, c.pc.rv) {
      MarkFirst(cfg, name, c);
    }
  }

  lemma MarkFirst(cfg: Config, name: string, c: Cell)
    requires PcInv(c) && c.pc.At? && !Draining(c, c.pc.b, c.pc.rv) && !Fenced(c, c.pc.b, c.pc.rv) && c.Current().Some?
    ensures PcInv(RequestDelete(c))
  {
    var w := RequestDelete(c);
    assert w.log[c.pc.rv] == c.log[c.pc.rv];
  }

  lemma UserHistory(cfg: Config, name: string, c: Cell, e: Event)
    requires History(cfg, name, c) && Enabled(c, e) && (e.UserCreate? || e.UserDelete?)
    ensures History(cfg, name, Step(cfg, name, c, e))
  {
    if e.UserCreate? {
      StoreHistory(cfg, name, c, Some(Branch(e.spec, false, false, BLANK_STATUS)));
    } else if c.Current().Some? {
      MarkHistory(cfg, name, c);
    }
  }

  // ---- preservation: clones and objects ----

  lemma WriteClones(cfg: Config, name: string, c: Cell, w: Cell)
    requires PcInv(c) && CloneInv(cfg, c) && c.pc.At? && OneWrite(c, w)
    ensures CloneInv(cfg, w)
  {
    forall d | d in w.clones && !w.clones[d].foreign ensures Owned(cfg, w, d) {
      assert Owned(cfg, c, d);
    }
  }

  lemma WriteObjects(cfg: Config, name: string, c: Cell, w: Cell)
    requires PcInv(c) && ObjectInv(cfg, name, c) && c.pc.At? && OneWrite(c, w)
    ensures ObjectInv(cfg, name, w)
  {
  }

  lemma CloneClones(cfg: Config, name: string, c: Cell, o: Outcome, x: Inputs)
    requires PcInv(c) && CloneInv(cfg, c) && c.pc.At? && (c.pc.call.CloneSnapshot? || c.pc.call.RollBack?)
    ensures CloneInv(cfg, PerformCall(cfg, name, c, o, x))
  {
    if c.pc.call.RollBack? {
      UndoneClones(cfg, name, c, o, x);
    } else if o != Failed && cfg.Dataset(c.pc.b.spec.dbType) !in c.clones {
      MadeClones(cfg, name, c, o, x);
    } else {
      FoundClones(cfg, name, c, o, x);
    }
  }

  lemma FoundClones(cfg: Config, name: string, c: Cell, o: Outcome, x: Inputs)
    requires PcInv(c) && CloneInv(cfg, c) && c.pc.At? && c.pc.call.CloneSnapshot?
    requires o == Failed || cfg.Dataset(c.pc.b.spec.dbType) in c.clones
    ensures CloneInv(cfg, PerformCall(cfg, name, c, o, x))
  {
  }

  lemma MadeClones(cfg: Config, name: string, c: Cell, o: Outcome, x: Inputs)
    requires PcInv(c) && CloneInv(cfg, c) && c.pc.At? && c.pc.call.CloneSnapshot?
    requires o != Failed && cfg.Dataset(c.pc.b.spec.dbType) !in c.clones
    ensures CloneInv(cfg, PerformCall(cfg, name, c, o, x))
  {
  }

  lemma UndoneClones(cfg: Config, name: string, c: Cell, o: Outcome, x: Inputs)
    requires PcInv(c) && CloneInv(cfg, c) && c.pc.At? && c.pc.call.RollBack?
    ensures CloneInv(cfg, PerformCall(cfg, name, c, o, x))
  {
  }

  /** A call that leaves the clones alone. */
  lemma SameClones(cfg: Config, c: Cell, w: Cell, call: Call)
    requires PcInv(c) && CloneInv(cfg, c) && c.pc.At? && (AfterClone(call) ==> AfterClone(c.pc.call))
    requires w == c.(objects := w.objects, ports := w.ports, portSeen := w.portSeen, pc := c.pc.(call := call))
    requires !call.RemoveFinalizer?
    requires Undoable(call) ==> Undoable(c.pc.call)
    ensures CloneInv(cfg, w)
  {
    forall d | d in w.clones && !w.clones[d].foreign ensures Owned(cfg, w, d) {
      assert Owned(cfg, c, d);
    }
  }

  lemma ShareClones(cfg: Config, name: string, c: Cell, o: Outcome, x: Inputs)
    requires PcInv(c) && CloneInv(cfg, c) && c.pc.At? && (c.pc.call.ShareClone? || c.pc.call.CheckShare?)
    ensures CloneInv(cfg, PerformCall(cfg, name, c, o, x))
  {
    var w := PerformCall(cfg, name, c, o, x);
    SameClones(cfg, c, w, w.pc.call);
  }

  lemma StartClones(cfg: Config, name: string, c: Cell, o: Outcome, x: Inputs)
    requires PcInv(c) && CloneInv(cfg, c) && c.pc.At? && (c.pc.call.CreateObject? || c.pc.call.ReadNodePort?)
    ensures CloneInv(cfg, PerformCall(cfg, name, c, o, x))
  {
    var w := PerformCall(cfg, name, c, o, x);
    SameClones(cfg, c, w, w.pc.call);
  }

  lemma DeleteClones(cfg: Config, name: string, c: Cell, o: Outcome, x: Inputs)
    requires PcInv(c) && CloneInv(cfg, c) && c.pc.At? && c.pc.call.DeleteClone?
    ensures CloneInv(cfg, PerformCall(cfg, name, c, o, x))
  {
    if o == Failed {
      UndeletedClones(cfg, name, c, o, x);
    }
  }

  lemma UndeletedClones(cfg: Config, name: string, c: Cell, o: Outcome, x: Inputs)
    requires PcInv(c) && CloneInv(cfg, c) && c.pc.At? && c.pc.call.DeleteClone?
    requires o == Failed
    ensures CloneInv(cfg, PerformCall(cfg, name, c, o, x))
  {
  }

  lemma CleanClones(cfg: Config, name: string, c: Cell, o: Outcome, x: Inputs)
    requires PcInv(c) && CloneInv(cfg, c) && c.pc.At? && Cleaning(c.pc.call) && !c.pc.call.RemoveFinalizer?
    ensures CloneInv(cfg, PerformCall(cfg, name, c, o, x))
  {
    if c.pc.call.DeleteClone? {
      DeleteClones(cfg, name, c, o, x);
    } else {
      StopClones(cfg, name, c, o, x);
    }
  }

  lemma StopClones(cfg: Config, name: string, c: Cell, o: Outcome, x: Inputs)
    requires PcInv(c) && CloneInv(cfg, c) && c.pc.At? && (c.pc.call.DeleteObject? || c.pc.call.ReturnFromStop?)
    ensures CloneInv(cfg, PerformCall(cfg, name, c, o, x))
  {
    var w := PerformCall(cfg, name, c, o, x);
    SameClones(cfg, c, w, w.pc.call);
  }

  /** A call that leaves the objects alone. */
  lemma SameObjects(cfg: Config, name: string, c: Cell, w: Cell, call: Call)
    requires PcInv(c) && ObjectInv(cfg, name, c) && c.pc.At?
    requires w == c.(clones := w.clones, pc := c.pc.(call := call))
    requires Underway(cfg, w, c.pc.b.spec.dbType, call)
    ensures ObjectInv(cfg, name, w)
  {
  }

  /** The port history has only grown and ends in the port of the Service. */
  ghost predicate PortsNoted(c: Cell, w: Cell) {
    && w.ports != [] && w.ports[|w.ports| - 1] == PortOf(w.objects)
    && |c.ports| <= |w.ports| && (forall i | 0 <= i < |c.ports| :: w.ports[i] == c.ports[i])
  }

  lemma HoldingNotes(c: Cell, objects: Objects)
    ensures var w := Holding(c, objects);
            w == c.(objects := objects, ports := w.ports) && PortsNoted(c, w)
  {
  }

  lemma AddObject(cfg: Config, name: string, c: Cell, kind: Kind, nodePort: nat, w: Cell)
    requires PcInv(c) && ObjectInv(cfg, name, c) && c.pc.At? && c.pc.call == CreateObject(kind) && kind !in c.objects
    requires w == c.(objects := c.objects[kind := Desired(cfg, name, c.pc.b.spec, kind, nodePort)],
                     ports := w.ports, pc := w.pc)
    requires PortsNoted(c, w)
    requires w.pc.At? && w.pc.b == c.pc.b && Underway(cfg, w, c.pc.b.spec.dbType, w.pc.call)
    ensures ObjectInv(cfg, name, w)
  {
    assert c.Current().Some? && c.Current().value.spec == c.pc.b.spec;
    assert Explained(cfg, name, c.leftover, c.pc.b.spec, kind, w.objects[kind]);
  }

  lemma CreateObjects(cfg: Config, name: string, c: Cell, o: Outcome, x: Inputs)
    requires PcInv(c) && ObjectInv(cfg, name, c) && c.pc.At? && c.pc.call.CreateObject?
    ensures ObjectInv(cfg, name, PerformCall(cfg, name, c, o, x))
  {
    if o == Failed || c.pc.call.kind in c.objects {
      FoundObjects(cfg, name, c, o, x);
    } else {
      MadeObjects(cfg, name, c, o, x);
    }
  }

  lemma FoundObjects(cfg: Config, name: string, c: Cell, o: Outcome, x: Inputs)
    requires PcInv(c) && ObjectInv(cfg, name, c) && c.pc.At? && c.pc.call.CreateObject?
    requires o == Failed || c.pc.call.kind in c.objects
    ensures ObjectInv(cfg, name, PerformCall(cfg, name, c, o, x))
  {
    var w := PerformCall(cfg, name, c, o, x);
    SameObjects(cfg, name, c, w, w.pc.call);
  }

  lemma MadeObjects(cfg: Config, name: string, c: Cell, o: Outcome, x: Inputs)
    requires PcInv(c) && ObjectInv(cfg, name, c) && c.pc.At? && c.pc.call.CreateObject?
    requires o != Failed && c.pc.call.kind !in c.objects
    ensures ObjectInv(cfg, name, PerformCall(cfg, name, c, o, x))
  {
    var kind, w := c.pc.call.kind, PerformCall(cfg, name, c, o, x);
    HoldingNotes(c, c.objects[kind := Desired(cfg, name, c.pc.b.spec, kind, x.nodePort)]);
    AddObject(cfg, name, c, kind, x.nodePort, w);
  }

  lemma DropObject(cfg: Config, name: string, c: Cell, kind: Kind, w: Cell)
    requires c.pc.At? && Draining(c, c.pc.b, c.pc.rv) && ObjectInv(cfg, name, c) && Cleaning(c.pc.call)
    requires w == c.(objects := c.objects - {kind}, ports := w.ports, pc := w.pc) && PortsNoted(c, w)
    requires w.pc.At? && w.pc.b == c.pc.b && Cleaning(w.pc.call)
    ensures ObjectInv(cfg, name, w)
  {
    assert c.Current().Some? && c.Current().value.deleting;
  }

  lemma DeleteObjects(cfg: Config, name: string, c: Cell, o: Outcome, x: Inputs)
    requires PcInv(c) && ObjectInv(cfg, name, c) && c.pc.At? && Cleaning(c.pc.call) && !c.pc.call.RemoveFinalizer?
    ensures ObjectInv(cfg, name, PerformCall(cfg, name, c, o, x))
  {
    if c.pc.call.DeleteObject? && o != Failed {
      DeletedObjects(cfg, name, c, o, x);
    } else {
      KeptObjects(cfg, name, c, o, x);
    }
  }

  lemma DeletedObjects(cfg: Config, name: string, c: Cell, o: Outcome, x: Inputs)
    requires PcInv(c) && ObjectInv(cfg, name, c) && c.pc.At? && c.pc.call.DeleteObject? && o != Failed
    ensures ObjectInv(cfg, name, PerformCall(cfg, name, c, o, x))
  {
    HoldingNotes(c, c.objects - {c.pc.call.kind});
    DropObject(cfg, name, c, c.pc.call.kind, PerformCall(cfg, name, c, o, x));
  }

  lemma KeptObjects(cfg: Config, name: string, c: Cell, o: Outcome, x: Inputs)
    requires PcInv(c) && ObjectInv(cfg, name, c) && c.pc.At? && Cleaning(c.pc.call) && !c.pc.call.RemoveFinalizer?
    requires c.pc.call.DeleteObject? ==> o == Failed
    ensures ObjectInv(cfg, name, PerformCall(cfg, name, c, o, x))
  {
    var w := PerformCall(cfg, name, c, o, x);
    SameObjects(cfg, name, c, w, w.pc.call);
  }

  lemma VolumeObjects(cfg: Config, name: string, c: Cell, o: Outcome, x: Inputs)
    requires PcInv(c) && ObjectInv(cfg, name, c) && c.pc.At?
    requires !Writes(c.pc.call) && !Cleaning(c.pc.call) && !c.pc.call.CreateObject?
    ensures ObjectInv(cfg, name, PerformCall(cfg, name, c, o, x))
  {
    var w := PerformCall(cfg, name, c, o, x);
    if c.pc.call.ReadNodePort? {
      PortObjects(cfg, name, c, o, x);
    } else if c.pc.call.ShareClone? || c.pc.call.CheckShare? {
      ShareObjects(cfg, name, c, o, x);
    } else {
      SameObjects(cfg, name, c, w, w.pc.call);
    }
  }

  lemma ShareObjects(cfg: Config, name: string, c: Cell, o: Outcome, x: Inputs)
    requires PcInv(c) && ObjectInv(cfg, name, c) && c.pc.At? && (c.pc.call.ShareClone? || c.pc.call.CheckShare?)
    ensures ObjectInv(cfg, name, PerformCall(cfg, name, c, o, x))
  {
    var w := PerformCall(cfg, name, c, o, x);
    SameObjects(cfg, name, c, w, w.pc.call);
  }

  lemma PortObjects(cfg: Config, name: string, c: Cell, o: Outcome, x: Inputs)
    requires PcInv(c) && ObjectInv(cfg, name, c) && c.pc.At? && c.pc.call.ReadNodePort?
    ensures ObjectInv(cfg, name, PerformCall(cfg, name, c, o, x))
  {
    var w := PerformCall(cfg, name, c, o, x);
    if o == Failed {
      SameObjects(cfg, name, c, w, w.pc.call);
    } else {
      ReadObjectPort(cfg, name, c, w);
    }
  }

  lemma ReadObjectPort(cfg: Config, name: string, c: Cell, w: Cell)
    requires ObjectInv(cfg, name, c) && c.pc.At? && Fenced(c, c.pc.b, c.pc.rv)
    requires c.log[c.pc.rv] == Some(c.pc.b)
    requires w == c.(portSeen := w.portSeen, pc := w.pc) && w.pc.At? && w.portSeen < |w.ports|
    requires w.pc.b == c.pc.b && Underway(cfg, w, w.pc.b.spec.dbType, w.pc.call)
    ensures ObjectInv(cfg, name, w)
  {
  }

  lemma EffectClonesAndObjects(cfg: Config, name: string, c: Cell, o: Outcome, x: Inputs)
    requires PcInv(c) && CloneInv(cfg, c) && ObjectInv(cfg, name, c) && c.pc.At? && !Writes(c.pc.call)
    ensures var w := PerformCall(cfg, name, c, o, x); CloneInv(cfg, w) && ObjectInv(cfg, name, w)
  {
    if Cleaning(c.pc.call) {
      CleanClones(cfg, name, c, o, x);
      DeleteObjects(cfg, name, c, o, x);
    } else if c.pc.call.CreateObject? {
      StartClones(cfg, name, c, o, x);
      CreateObjects(cfg, name, c, o, x);
    } else {
      VolumeObjects(cfg, name, c, o, x);
      if c.pc.call.ReadNodePort? {
        StartClones(cfg, name, c, o, x);
      } else if c.pc.call.CloneSnapshot? || c.pc.call.RollBack? {
        CloneClones(cfg, name, c, o, x);
      } else {
        ShareClones(cfg, name, c, o, x);
      }
    }
  }

  lemma MarkClonesAndObjects(cfg: Config, name: string, c: Cell)
    requires PcInv(c) && CloneInv(cfg, c) && ObjectInv(cfg, name, c)
    ensures CloneInv(cfg, RequestDelete(c)) && ObjectInv(cfg, name, RequestDelete(c))
  {
  }

  lemma UserClonesAndObjects(cfg: Config, name: string, c: Cell, e: Event)
    requires PcInv(c) && CloneInv(cfg, c) && ObjectInv(cfg, name, c)
    requires Enabled(c, e) && (e.UserCreate? || e.UserDelete?)
    ensures var w := Step(cfg, name, c, e); CloneInv(cfg, w) && ObjectInv(cfg, name, w)
  {
    if e.UserDelete? { MarkClonesAndObjects(cfg, name, c); }
  }

  lemma OtherClonesAndObjects(cfg: Config, name: string, c: Cell, e: Event)
    requires PcInv(c) && CloneInv(cfg, c) && ObjectInv(cfg, name, c)
    requires Enabled(c, e) && (e.Crash? || e.AssignPort? || e.Sweep?)
    ensures var w := Step(cfg, name, c, e); CloneInv(cfg, w) && ObjectInv(cfg, name, w)
  {
    if e.AssignPort? {
      AssignedObjects(cfg, name, c, e);
    }
  }

  lemma AssignedObjects(cfg: Config, name: string, c: Cell, e: Event)
    requires PcInv(c) && CloneInv(cfg, c) && ObjectInv(cfg, name, c) && Enabled(c, e) && e.AssignPort?
    ensures var w := Step(cfg, name, c, e); CloneInv(cfg, w) && ObjectInv(cfg, name, w)
  {
    HoldingNotes(c, c.objects[Service := c.objects[Service].(nodePort := e.port)]);
  }

  lemma ReadClones(cfg: Config, name: string, c: Cell, e: Event)
    requires PcInv(c) && CloneInv(cfg, c) && Enabled(c, e) && e.Read?
    ensures CloneInv(cfg, Step(cfg, name, c, e))
  {
    ReadEffect(cfg, name, c, e);
    RestartedClones(cfg, c, Step(cfg, name, c, e));
  }

  /** The calls a pass may begin with. */
  predicate First(call: Call) {
    call.AddFinalizer? || call.DeleteExpired? || call.MarkCreating? || call.MarkDeleting?
  }

  /** A read moves the operator to the start of a pass and touches nothing else. */
  ghost predicate Restarted(c: Cell, w: Cell) {
    && c.Ok() && w.Ok() && w == c.(seen := w.seen, pc := w.pc, attempt := w.attempt)
    && c.attempt <= w.attempt && (w.pc.At? ==> First(w.pc.call))
  }

  lemma ReadEffect(cfg: Config, name: string, c: Cell, e: Event)
    requires Enabled(c, e) && e.Read?
    ensures Restarted(c, Step(cfg, name, c, e))
  {
  }

  lemma RestartedClones(cfg: Config, c: Cell, w: Cell)
    requires CloneInv(cfg, c) && Restarted(c, w)
    ensures CloneInv(cfg, w)
  {
    forall d | d in w.clones && !w.clones[d].foreign ensures Owned(cfg, w, d) {
      assert Owned(cfg, c, d);
    }
  }

  lemma ReadObjects(cfg: Config, name: string, c: Cell, e: Event)
    requires ObjectInv(cfg, name, c) && Enabled(c, e) && e.Read?
    ensures ObjectInv(cfg, name, Step(cfg, name, c, e))
  {
    ReadEffect(cfg, name, c, e);
    RestartedObjects(cfg, name, c, Step(cfg, name, c, e));
  }

  lemma RestartedObjects(cfg: Config, name: string, c: Cell, w: Cell)
    requires ObjectInv(cfg, name, c) && Restarted(c, w)
    ensures ObjectInv(cfg, name, w)
  {
  }

  lemma CallInv(cfg: Config, name: string, c: Cell, o: Outcome, x: Inputs)
    requires Inv(cfg, name, c) && c.pc.At?
    ensures Inv(cfg, name, PerformCall(cfg, name, c, o, x))
  {
    if Writes(c.pc.call) {
      WriteHistory(cfg, name, c, o, x);
      WriteEffect(cfg, name, c, o, x);
      WriteClones(cfg, name, c, PerformCall(cfg, name, c, o, x));
      WriteObjects(cfg, name, c, PerformCall(cfg, name, c, o, x));
    } else {
      EffectHistory(cfg, name, c, o, x);
      EffectClonesAndObjects(cfg, name, c, o, x);
    }
  }

  lemma OtherInv(cfg: Config, name: string, c: Cell, e: Event)
    requires Inv(cfg, name, c) && Enabled(c, e) && (e.Crash? || e.AssignPort? || e.Sweep?)
    ensures Inv(cfg, name, Step(cfg, name, c, e))
  {
    OtherHistory(cfg, name, c, e);
    OtherClonesAndObjects(cfg, name, c, e);
  }

  lemma OtherHistory(cfg: Config, name: string, c: Cell, e: Event)
    requires History(cfg, name, c) && Enabled(c, e) && (e.Crash? || e.AssignPort? || e.Sweep?)
    ensures History(cfg, name, Step(cfg, name, c, e))
  {
    var w := Step(cfg, name, c, e);
    assert w.log == c.log && w.seen == c.seen && (w.pc == c.pc || w.pc == Idle);
  }

  lemma UserInv(cfg: Config, name: string, c: Cell, e: Event)
    requires Inv(cfg, name, c) && Enabled(c, e) && (e.UserCreate? || e.UserDelete?)
    ensures Inv(cfg, name, Step(cfg, name, c, e))
  {
    UserHistory(cfg, name, c, e);
    UserClonesAndObjects(cfg, name, c, e);
  }

  /** Every step of every party keeps the invariant. */
  lemma StepInv(cfg: Config, name: string, c: Cell, e: Event)
    requires Inv(cfg, name, c) && Enabled(c, e)
    ensures Inv(cfg, name, Step(cfg, name, c, e))
  {
    if e.Perform? {
      CallInv(cfg, name, c, e.outcome, e.inputs);
    } else if e.Read? {
      ReadHistory(cfg, name, c, e.version, e.now);
      ReadClones(cfg, name, c, e);
      ReadObjects(cfg, name, c, e);
    } else if e.UserCreate? || e.UserDelete? {
      UserInv(cfg, name, c, e);
    } else {
      OtherInv(cfg, name, c, e);
    }
  }

  /** Versions are only ever added. */
  lemma StepLog(cfg: Config, name: string, c: Cell, e: Event)
    requires Inv(cfg, name, c) && Enabled(c, e)
    ensures IsPrefix(c.log, Step(cfg, name, c, e).log)
  {
    if e.Perform? {
      if Writes(c.pc.call) {
        WriteEffect(cfg, name, c, e.outcome, e.inputs);
      } else {
        EffectPc(cfg, name, c, e.outcome, e.inputs);
      }
    }
  }

  /** A step adds at most one version, and only one that may follow the newest. */
  lemma StepAddsOne(cfg: Config, name: string, c: Cell, e: Event)
    requires Inv(cfg, name, c) && Enabled(c, e)
    ensures var l := Step(cfg, name, c, e).log;
            && (|l| == |c.log| || |l| == |c.log| + 1) && IsPrefix(c.log, l)
            && (|l| > |c.log| ==> Follows(c.Current(), l[|c.log|]))
  {
    var l := Step(cfg, name, c, e).log;
    StepLog(cfg, name, c, e);
    StepInv(cfg, name, c, e);
    if e.Perform? { CallAddsOne(cfg, name, c, e.outcome, e.inputs); }
    FollowsLast(cfg, name, c.log, l);
  }

  lemma CallAddsOne(cfg: Config, name: string, c: Cell, o: Outcome, x: Inputs)
    requires c.Ok() && c.pc.At?
    ensures |PerformCall(cfg, name, c, o, x).log| <= |c.log| + 1
  {
    if !Writes(c.pc.call) {
      EffectPc(cfg, name, c, o, x);
    } else if c.pc.call.MarkCreating? || c.pc.call.MarkDeleting? {
      MarkAddsOne(cfg, name, c, o, x);
    } else {
      EndAddsOne(cfg, name, c, o, x);
    }
  }

  lemma MarkAddsOne(cfg: Config, name: string, c: Cell, o: Outcome, x: Inputs)
    requires c.Ok() && c.pc.At? && (c.pc.call.MarkCreating? || c.pc.call.MarkDeleting?)
    ensures |PerformCall(cfg, name, c, o, x).log| <= |c.log| + 1
  {
    var phase := if c.pc.call.MarkCreating? then Creating else Deleting;
    var next := if c.pc.call.MarkCreating? then CloneSnapshot else DeleteObject(Service);
    assert PerformCall(cfg, name, c, o, x) == DoMark(c, o, phase, next);
    DoMarkAddsOne(c, o, phase, next);
  }

  lemma DoMarkAddsOne(c: Cell, o: Outcome, phase: Phase, next: Call)
    requires c.Ok() && c.pc.At?
    ensures |DoMark(c, o, phase, next).log| <= |c.log| + 1
  {
    assert |WithStatus(c, c.pc.b.status.(phase := phase)).log| <= |c.log| + 1;
  }

  lemma EndAddsOne(cfg: Config, name: string, c: Cell, o: Outcome, x: Inputs)
    requires c.Ok() && c.pc.At? && Writes(c.pc.call) && !c.pc.call.MarkCreating? && !c.pc.call.MarkDeleting?
    ensures |PerformCall(cfg, name, c, o, x).log| <= |c.log| + 1
  {
    if c.pc.call.MarkReady? || c.pc.call.RecordError? {
      StatusAddsOne(cfg, name, c, o, x);
    }
  }

  lemma StatusAddsOne(cfg: Config, name: string, c: Cell, o: Outcome, x: Inputs)
    requires c.Ok() && c.pc.At? && (c.pc.call.MarkReady? || c.pc.call.RecordError?)
    ensures |PerformCall(cfg, name, c, o, x).log| <= |c.log| + 1
  {
    assert forall st :: |WithStatus(c, st).log| <= |c.log| + 1;
  }

  lemma FollowsLast(cfg: Config, name: string, a: seq<Option<Branch>>, b: seq<Option<Branch>>)
    requires a != [] && IsPrefix(a, b) && LogOk(cfg, name, b)
    ensures |b| > |a| ==> Follows(a[|a| - 1], b[|a|])
  {
    if |b| > |a| {
      var k := |a|;
      assert Follows(b[k - 1], b[k]);
    }
  }

  // ---- sequences of events ----

  /** Every cell of `trace` but the first comes from the one before by the event between them. */
  ghost predicate Connected(cfg: Config, name: string, trace: seq<Cell>, events: seq<Event>) {
    && |trace| == |events| + 1
    && (forall i {:trigger events[i]} | 0 <= i < |events| ::
          Enabled(trace[i], events[i]) && trace[i + 1] == Step(cfg, name, trace[i], events[i]))
  }

  /** Every cell a sequence of events leads to keeps the invariant. */
  lemma {:induction false} ConnectedInv(cfg: Config, name: string, trace: seq<Cell>, events: seq<Event>, i: nat)
    requires Connected(cfg, name, trace, events) && i < |trace| && Inv(cfg, name, trace[0])
    ensures Inv(cfg, name, trace[i])
  {
    if i == 0 {
    } else {
      ConnectedInv(cfg, name, trace, events, i - 1);
      StepInv(cfg, name, trace[i - 1], events[i - 1]);
    }
  }

  /** One more event at the end. */
  lemma ConnectedThen(cfg: Config, name: string, trace: seq<Cell>, events: seq<Event>, e: Event)
    requires Connected(cfg, name, trace, events) && Enabled(trace[|events|], e)
    ensures Connected(cfg, name, trace + [Step(cfg, name, trace[|events|], e)], events + [e])
  {
  }

  /** The events determine the cells. */
  lemma {:induction false} SameTrace(
      cfg: Config, name: string, trace: seq<Cell>, events: seq<Event>, longer: seq<Cell>, more: seq<Event>, i: nat)
    requires Connected(cfg, name, trace, events) && Connected(cfg, name, longer, more)
    requires trace[0] == longer[0] && events <= more && i < |trace|
    ensures longer[i] == trace[i]
  {
    if i == 0 {
    } else {
      SameTrace(cfg, name, trace, events, longer, more, i - 1);
      assert more[i - 1] == events[i - 1];
    }
  }
}
