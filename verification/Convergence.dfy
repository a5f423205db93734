/** What a cell comes to once calls stop failing, users stop acting and reads are
    up to date. */
module Convergence {
  import opened Common
  import opened Branches
  import opened Ttl
  import opened Lifecycle
  import opened LifecycleInvariant

  /** How many more calls a pass makes at most from this one on. */
  function Rank(call: Call): nat {
    match call
    case MarkCreating => 12
    case CloneSnapshot => 11
    case ShareClone(_) => 10
    case CheckShare(_) => 9
    case CreateObject(kind) => (
      match kind
      case PV => 8
      case PVC => 7
      case ConfigMap => 6
      case Pod => 5
      case Service => 4)
    case ReadNodePort => 3
    case MarkReady(_) => 2
    case RollBack => 2
    case MarkDeleting => 9
    case DeleteObject(kind) => (
      match kind
      case Service => 8
      case Pod => 7
      case ConfigMap => 6
      case PVC => 5
      case PV => 4)
    case ReturnFromStop => 3
    case DeleteClone => 2
    case _ => 1
  }

  function PcRank(pc: Pc): nat {
    match pc
    case Idle => 0
    case At(call, _, _) => Rank(call)
  }

  /** One more call of the pass under way, successful. */
  function Advance(cfg: Config, name: string, c: Cell, x: Inputs): Cell
    requires c.Ok() && c.pc.At?
  {
    Step(cfg, name, c, Perform(Done, x))
  }

  /** A successful call brings the pass nearer to its end. */
  lemma AdvanceRank(cfg: Config, name: string, c: Cell, x: Inputs)
    requires c.Ok() && c.pc.At?
    ensures Advance(cfg, name, c, x).Ok()
    ensures PcRank(Advance(cfg, name, c, x).pc) < PcRank(c.pc)
  {
    if c.pc.call.MarkCreating? || c.pc.call.MarkDeleting? {
      assert PerformCall(cfg, name, c, Done, x).pc.At? ==>
          PerformCall(cfg, name, c, Done, x).pc.call in {CloneSnapshot, DeleteObject(Service)};
    } else if Writes(c.pc.call) {
      WriteEnds(cfg, name, c, x);
    } else {
      EffectRank(cfg, name, c, x);
    }
  }

  lemma WriteEnds(cfg: Config, name: string, c: Cell, x: Inputs)
    requires c.Ok() && c.pc.At? && Writes(c.pc.call) && !c.pc.call.MarkCreating? && !c.pc.call.MarkDeleting?
    ensures var w := PerformCall(cfg, name, c, Done, x); w.Ok() && w.pc.Idle?
  {
  }

  lemma EffectRank(cfg: Config, name: string, c: Cell, x: Inputs)
    requires c.Ok() && c.pc.At? && !Writes(c.pc.call)
    ensures var w := PerformCall(cfg, name, c, Done, x);
            w.Ok() && w.pc.At? && Rank(w.pc.call) < Rank(c.pc.call)
  {
  }

  /** The pass under way, run to its end with every call successful. */
  function Finished(cfg: Config, name: string, c: Cell, x: Inputs): (w: Cell)
    requires c.Ok()
    ensures w.Ok() && w.pc.Idle?
    decreases PcRank(c.pc)
  {
    if c.pc.Idle? then c
    else
      AdvanceRank(cfg, name, c, x);
      Finished(cfg, name, Advance(cfg, name, c, x), x)
  }

  /** A whole call of Reconcile that reads the newest version and meets no failure. */
  function Pass(cfg: Config, name: string, c: Cell, x: Inputs): (w: Cell)
    requires c.Ok() && c.pc.Idle?
    ensures w.Ok() && w.pc.Idle?
  {
    Finished(cfg, name, Step(cfg, name, c, Read(c.Top(), x.now)), x)
  }

  lemma {:induction false} FinishedInv(cfg: Config, name: string, c: Cell, x: Inputs)
    requires Inv(cfg, name, c)
    ensures Inv(cfg, name, Finished(cfg, name, c, x))
    decreases PcRank(c.pc)
  {
    if c.pc.Idle? {
    } else {
      AdvanceRank(cfg, name, c, x);
      StepInv(cfg, name, c, Perform(Done, x));
      FinishedInv(cfg, name, Advance(cfg, name, c, x), x);
    }
  }

  lemma PassInv(cfg: Config, name: string, c: Cell, x: Inputs)
    requires Inv(cfg, name, c) && c.pc.Idle?
    ensures Inv(cfg, name, Pass(cfg, name, c, x))
  {
    StepInv(cfg, name, c, Read(c.Top(), x.now));
    FinishedInv(cfg, name, Step(cfg, name, c, Read(c.Top(), x.now)), x);
  }

  /** The record of leftovers and harm is left alone, and the branch keeps its spec for
      as long as it exists. */
  ghost predicate Keeps(c: Cell, w: Cell) {
    && c.Ok() && w.Ok() && w.leftover == c.leftover && w.harmed == c.harmed
    && (w.Current().Some? ==> c.Current().Some? && w.Current().value.spec == c.Current().value.spec)
  }

  lemma {:induction false} FinishedKeeps(cfg: Config, name: string, c: Cell, x: Inputs)
    requires Inv(cfg, name, c)
    ensures Keeps(c, Finished(cfg, name, c, x))
    decreases PcRank(c.pc)
  {
    if c.pc.Idle? {
    } else {
      AdvanceRank(cfg, name, c, x);
      StepInv(cfg, name, c, Perform(Done, x));
      CallKeeps(cfg, name, c, x);
      FinishedKeeps(cfg, name, Advance(cfg, name, c, x), x);
    }
  }

  lemma CallKeeps(cfg: Config, name: string, c: Cell, x: Inputs)
    requires Inv(cfg, name, c) && c.pc.At?
    ensures Keeps(c, PerformCall(cfg, name, c, Done, x))
  {
    if Writes(c.pc.call) {
      WriteEffect(cfg, name, c, Done, x);
    } else {
      EffectPc(cfg, name, c, Done, x);
    }
  }

  lemma ReadKeeps(cfg: Config, name: string, c: Cell, now: int)
    requires Inv(cfg, name, c) && c.pc.Idle?
    ensures var r := Step(cfg, name, c, Read(c.Top(), now)); Inv(cfg, name, r) && Keeps(c, r)
  {
    StepInv(cfg, name, c, Read(c.Top(), now));
  }

  lemma PassKeeps(cfg: Config, name: string, c: Cell, x: Inputs)
    requires Inv(cfg, name, c) && c.pc.Idle?
    ensures Inv(cfg, name, Pass(cfg, name, c, x)) && Keeps(c, Pass(cfg, name, c, x))
  {
    var r := Step(cfg, name, c, Read(c.Top(), x.now));
    ReadKeeps(cfg, name, c, x.now);
    FinishedInv(cfg, name, r, x);
    FinishedKeeps(cfg, name, r, x);
  }

  /** The cluster assigns node ports, and the operator is shown a Service that has one. */
  ghost predicate PortsAssigned(c: Cell, x: Inputs) {
    && x.nodePort > 0 && (Service in c.objects ==> PortOf(c.objects) > 0)
    && (x.service.Some? ==> c.portSeen <= x.service.value < |c.ports| && c.ports[x.service.value] > 0)
  }

  /** On the way to Ready and not marked for deletion. */
  ghost predicate HeadingForReady(cfg: Config, c: Cell, x: Inputs) {
    && c.Ok() && c.pc.At? && (Making(c.pc.call) || c.pc.call.MarkCreating?) && !c.pc.call.RollBack?
    && c.pc.rv == c.Top() && cfg.Supported(c.pc.b.spec.dbType) && PortsAssigned(c, x)
  }

  lemma CreationStep(cfg: Config, name: string, c: Cell, x: Inputs)
    requires PcInv(c) && ObjectInv(cfg, name, c) && HeadingForReady(cfg, c, x) && !c.pc.call.MarkReady?
    ensures HeadingForReady(cfg, Advance(cfg, name, c, x), x)
    ensures Advance(cfg, name, c, x).pc.b.spec == c.pc.b.spec
  {
    if c.pc.call.MarkCreating? {
      MarkedCreating(cfg, name, c, x);
    } else {
      EffectPc(cfg, name, c, Done, x);
    }
  }

  lemma MarkedCreating(cfg: Config, name: string, c: Cell, x: Inputs)
    requires PcInv(c) && HeadingForReady(cfg, c, x) && c.pc.call.MarkCreating?
    ensures HeadingForReady(cfg, Advance(cfg, name, c, x), x)
    ensures Advance(cfg, name, c, x).pc.b.spec == c.pc.b.spec
  {
  }

  /** The expiry of a branch that becomes Ready at `now`. */
  function ExpiryFrom(spec: Spec, now: int): Option<int> {
    if spec.ttlHours > 0 then Some(ExpiresAt(now, spec.ttlHours)) else None
  }

  /** Serving by its spec, with the expiry counted from `now`. */
  ghost predicate ServesFrom(w: Cell, spec: Spec, now: int) {
    && w.Ok() && w.Current().Some? && w.Current().value.Serving()
    && w.Current().value.spec == spec && w.Current().value.status.expiresAt == ExpiryFrom(spec, now)
  }

  lemma ReadyWritten(cfg: Config, name: string, c: Cell, x: Inputs)
    requires PcInv(c) && HeadingForReady(cfg, c, x) && c.pc.call.MarkReady?
    requires VersionOk(cfg, name, c.log[c.pc.rv])
    ensures ServesFrom(Finished(cfg, name, c, x), c.pc.b.spec, x.now)
  {
    AdvanceRank(cfg, name, c, x);
    var w := Advance(cfg, name, c, x);
    assert w.pc.Idle? && Finished(cfg, name, c, x) == Finished(cfg, name, w, x) == w;
  }

  lemma {:induction false} CreationEndsReady(cfg: Config, name: string, c: Cell, x: Inputs)
    requires Inv(cfg, name, c) && HeadingForReady(cfg, c, x)
    ensures ServesFrom(Finished(cfg, name, c, x), c.pc.b.spec, x.now)
    decreases PcRank(c.pc)
  {
    AdvanceRank(cfg, name, c, x);
    if c.pc.call.MarkReady? {
      ReadyWritten(cfg, name, c, x);
    } else {
      CreationStep(cfg, name, c, x);
      StepInv(cfg, name, c, Perform(Done, x));
      CreationEndsReady(cfg, name, Advance(cfg, name, c, x), x);
    }
  }

  /** The deletion flow from DeleteObject on; the kinds deleted so far are gone. */
  ghost predicate HeadingForGone(c: Cell) {
    && c.Ok() && c.pc.At? && Cleaning(c.pc.call)
    && (forall k | k in c.objects :: c.pc.call.DeleteObject? && Rank(DeleteObject(k)) <= Rank(c.pc.call))
  }

  lemma DeletionStep(cfg: Config, name: string, c: Cell, x: Inputs)
    requires HeadingForGone(c) && !c.pc.call.RemoveFinalizer?
    ensures HeadingForGone(Advance(cfg, name, c, x))
  {
  }

  ghost predicate Gone(cfg: Config, c: Cell) {
    && c.Ok() && c.Current().None? && c.objects == map[]
    && (forall d | d in c.clones :: c.clones[d].foreign)
  }

  lemma {:induction false} DeletionEndsGone(cfg: Config, name: string, c: Cell, x: Inputs)
    requires Inv(cfg, name, c) && HeadingForGone(c)
    ensures Gone(cfg, Finished(cfg, name, c, x))
    decreases PcRank(c.pc)
  {
    AdvanceRank(cfg, name, c, x);
    StepInv(cfg, name, c, Perform(Done, x));
    var w := Advance(cfg, name, c, x);
    if c.pc.call.RemoveFinalizer? {
      assert w.pc.Idle? && w.Current().None?;
    } else {
      DeletionStep(cfg, name, c, x);
      DeletionEndsGone(cfg, name, w, x);
    }
  }

  // ---- the main results ----

  /** A pass over a marked branch starts the deletion flow. */
  lemma DeletionStarts(cfg: Config, name: string, c: Cell, x: Inputs)
    requires History(cfg, name, c) && c.pc.Idle? && c.Current().Some? && c.Current().value.deleting
    ensures var r := Step(cfg, name, c, Read(c.Top(), x.now));
            r.Ok() && r.pc.At? && HeadingForGone(Advance(cfg, name, r, x))
  {
    assert VersionOk(cfg, name, c.Current());
    assert Step(cfg, name, c, Read(c.Top(), x.now)).pc.call == MarkDeleting;
  }

  /** A branch marked for deletion is gone after one call, with its objects and
      every clone the operator made for it. */
  lemma DeletedWithinOnePass(cfg: Config, name: string, c: Cell, x: Inputs)
    requires Inv(cfg, name, c) && c.pc.Idle? && c.Current().Some? && c.Current().value.deleting
    ensures Gone(cfg, Pass(cfg, name, c, x))
  {
    var r := Step(cfg, name, c, Read(c.Top(), x.now));
    StepInv(cfg, name, c, Read(c.Top(), x.now));
    DeletionStarts(cfg, name, c, x);
    AdvanceRank(cfg, name, r, x);
    StepInv(cfg, name, r, Perform(Done, x));
    DeletionEndsGone(cfg, name, Advance(cfg, name, r, x), x);
  }

  /** An unexpired, unmarked branch of a supported type is Ready after two calls at
      most, one if it carries the finalizer. */
  lemma ReadyWithinTwoPasses(cfg: Config, name: string, c: Cell, x: Inputs, y: Inputs)
    requires Inv(cfg, name, c) && c.pc.Idle? && c.Current().Some?
    requires var b := c.Current().value; !b.deleting && !Expired(b, x.now) && cfg.Supported(b.spec.dbType)
    requires PortsAssigned(c, x) && PortsAssigned(c, y)
    ensures var w := Pass(cfg, name, c, x);
            && w.Current().Some?
            && (c.Current().value.finalizer ==> w.Current().value.Serving())
            && (!c.Current().value.finalizer ==>
                  var v := Pass(cfg, name, w, y);
                  v.Current().Some? && v.Current().value.Serving())
  {
    if c.Current().value.finalizer {
      ReadyWithinOnePass(cfg, name, c, x);
    } else {
      var w := Pass(cfg, name, c, x);
      FinalizerPass(cfg, name, c, x);
      PassInv(cfg, name, c, x);
      ReadyWithinOnePass(cfg, name, w, y);
    }
  }

  lemma FinalizerPass(cfg: Config, name: string, c: Cell, x: Inputs)
    requires Inv(cfg, name, c) && c.pc.Idle? && c.Current().Some?
    requires !c.Current().value.deleting && !c.Current().value.finalizer
    ensures var w := Pass(cfg, name, c, x);
            && w.Current() == Some(c.Current().value.(finalizer := true))
            && w.clones == c.clones && w.objects == c.objects
            && w.ports == c.ports && w.portSeen == c.portSeen
  {
    var r := Step(cfg, name, c, Read(c.Top(), x.now));
    assert VersionOk(cfg, name, c.Current());
    AdvanceRank(cfg, name, r, x);
    var w := Advance(cfg, name, r, x);
    assert w.pc.Idle? && Finished(cfg, name, r, x) == Finished(cfg, name, w, x) == w;
  }

  /** A pass over an unmarked branch with the finalizer that is not Ready makes it serve,
      with the expiry counted from that pass, none without a TTL. */
  lemma ReadyWithExpiry(cfg: Config, name: string, c: Cell, x: Inputs)
    requires Inv(cfg, name, c) && c.pc.Idle? && c.Current().Some? && PortsAssigned(c, x)
    requires var b := c.Current().value; b.Live() && b.status.phase != Ready && cfg.Supported(b.spec.dbType)
    ensures ServesFrom(Pass(cfg, name, c, x), c.Current().value.spec, x.now)
  {
    var e := Read(c.Top(), x.now);
    StepInv(cfg, name, c, e);
    assert Step(cfg, name, c, e).pc.call == MarkCreating;
    CreationEndsReady(cfg, name, Step(cfg, name, c, e), x);
  }

  lemma ReadyWithinOnePass(cfg: Config, name: string, c: Cell, x: Inputs)
    requires Inv(cfg, name, c) && c.pc.Idle? && c.Current().Some? && PortsAssigned(c, x)
    requires var b := c.Current().value; b.Live() && !Expired(b, x.now) && cfg.Supported(b.spec.dbType)
    ensures var w := Pass(cfg, name, c, x); w.Current().Some? && w.Current().value.Serving()
  {
    var e := Read(c.Top(), x.now);
    var r := Step(cfg, name, c, e);
    StepInv(cfg, name, c, e);
    if c.Current().value.status.phase == Ready {
      assert r.pc.Idle?;
    } else {
      ReadyWithExpiry(cfg, name, c, x);
    }
  }

  /** The pass that finds a Ready branch expired requests its deletion and no more. */
  lemma ExpiryRequested(cfg: Config, name: string, c: Cell, x: Inputs)
    requires Inv(cfg, name, c) && c.pc.Idle? && c.Current().Some?
    requires c.Current().value.Serving() && Expired(c.Current().value, x.now)
    ensures var w := Pass(cfg, name, c, x);
            && w.Current() == Some(c.Current().value.(deleting := true))
            && w.clones == c.clones && w.objects == c.objects
  {
    var r := Step(cfg, name, c, Read(c.Top(), x.now));
    assert VersionOk(cfg, name, c.Current());
    assert r.pc.call == DeleteExpired(x.now);
    AdvanceRank(cfg, name, r, x);
    var w := Advance(cfg, name, r, x);
    assert w.pc.Idle? && w.Current() == Some(c.Current().value.(deleting := true));
    assert Finished(cfg, name, r, x) == Finished(cfg, name, w, x) == w;
  }

  /** An expired Ready branch is gone after two calls: the first requests its
      deletion, the second carries it out. */
  lemma ExpiredGoneWithinTwoPasses(cfg: Config, name: string, c: Cell, x: Inputs, y: Inputs)
    requires Inv(cfg, name, c) && c.pc.Idle? && c.Current().Some?
    requires c.Current().value.Serving() && Expired(c.Current().value, x.now)
    ensures Gone(cfg, Pass(cfg, name, Pass(cfg, name, c, x), y))
  {
    assert VersionOk(cfg, name, c.Current());
    ExpiryRequested(cfg, name, c, x);
    PassInv(cfg, name, c, x);
    DeletedWithinOnePass(cfg, name, Pass(cfg, name, c, x), y);
  }
}
