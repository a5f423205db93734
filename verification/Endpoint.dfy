/** The node port a Ready branch has recorded, which the operator has read through a cache,
    and the one its Service has. */
module Endpoint {
  import opened Common
  import opened Branches
  import opened Lifecycle
  import opened LifecycleInvariant
  import opened Convergence
  import opened LifecycleTheorems

  // ---- a name used for the first time ----

  /** Once there is a port it stays. */
  ghost predicate Steady(ports: seq<nat>) {
    forall i, j | 0 <= i < j < |ports| && ports[i] > 0 :: ports[j] == ports[i]
  }

  /** Since its first branch the name has never been without one. */
  ghost predicate FirstLife(c: Cell) {
    forall k | 0 < k < |c.log| :: c.log[k].Some?
  }

  ghost predicate SteadyInv(c: Cell) {
    c.Ok() && (FirstLife(c) ==> Steady(c.ports) || (c.Current().Some? && c.Current().value.deleting))
  }

  /** A step notes at most one more port, and only where there was none or in the deletion
      of the Service. */
  ghost predicate PortsStep(c: Cell, w: Cell) {
    || w.ports == c.ports
    || (exists p :: w.ports == c.ports + [p] && (PortOf(c.objects) == 0 || (c.pc.At? && c.pc.call.DeleteObject?)))
  }

  lemma StepPorts(cfg: Config, name: string, c: Cell, e: Event)
    requires Inv(cfg, name, c) && Enabled(c, e)
    ensures PortsStep(c, Step(cfg, name, c, e))
  {
    if e.Perform? && Writes(c.pc.call) {
      WriteEffect(cfg, name, c, e.outcome, e.inputs);
    } else if e.Perform? && c.pc.call.CreateObject? {
      CreatePorts(cfg, name, c, e.outcome, e.inputs);
    } else if e.Perform? && c.pc.call.DeleteObject? {
      DeletePorts(cfg, name, c, e.outcome, e.inputs);
    } else if e.Perform? {
      OtherPorts(cfg, name, c, e.outcome, e.inputs);
    }
  }

  lemma CreatePorts(cfg: Config, name: string, c: Cell, o: Outcome, x: Inputs)
    requires ObjectInv(cfg, name, c) && c.pc.At? && c.pc.call.CreateObject?
    ensures PortsStep(c, PerformCall(cfg, name, c, o, x))
  {
  }

  lemma DeletePorts(cfg: Config, name: string, c: Cell, o: Outcome, x: Inputs)
    requires ObjectInv(cfg, name, c) && c.pc.At? && c.pc.call.DeleteObject?
    ensures PortsStep(c, PerformCall(cfg, name, c, o, x))
  {
  }

  lemma OtherPorts(cfg: Config, name: string, c: Cell, o: Outcome, x: Inputs)
    requires c.Ok() && c.pc.At? && !Writes(c.pc.call) && !c.pc.call.CreateObject? && !c.pc.call.DeleteObject?
    ensures PerformCall(cfg, name, c, o, x).ports == c.ports
  {
    if Undoable(c.pc.call) || c.pc.call.CloneSnapshot? || c.pc.call.RollBack? {
      ClonePorts(cfg, name, c, o, x);
    }
  }

  lemma ClonePorts(cfg: Config, name: string, c: Cell, o: Outcome, x: Inputs)
    requires c.Ok() && c.pc.At?
    requires Undoable(c.pc.call) || c.pc.call.CloneSnapshot? || c.pc.call.RollBack?
    ensures PerformCall(cfg, name, c, o, x).ports == c.ports
  {
  }

  lemma SteadyThen(ports: seq<nat>, p: nat)
    requires Steady(ports) && ports != [] && ports[|ports| - 1] == 0
    ensures Steady(ports + [p])
  {
  }

  lemma SteadyAfter(c: Cell, w: Cell)
    requires Steady(c.ports) && PortsStep(c, w) && !(c.pc.At? && c.pc.call.DeleteObject?)
    requires c.ports != [] && c.ports[|c.ports| - 1] == PortOf(c.objects)
    ensures Steady(w.ports)
  {
    if w.ports != c.ports {
      assert PortOf(c.objects) == 0 && w.ports == c.ports + [w.ports[|c.ports|]];
      SteadyThen(c.ports, w.ports[|c.ports|]);
    }
  }

  /** Within one life of a branch its mark is never taken back. */
  lemma StaysMarked(cfg: Config, name: string, c: Cell, e: Event)
    requires Inv(cfg, name, c) && Enabled(c, e) && c.Current().Some? && c.Current().value.deleting
    requires FirstLife(Step(cfg, name, c, e))
    ensures var w := Step(cfg, name, c, e);
            w.Ok() && w.Current().Some? && w.Current().value.deleting
  {
    StepAddsOne(cfg, name, c, e);
    StepInv(cfg, name, c, e);
  }

  lemma StepSteady(cfg: Config, name: string, c: Cell, e: Event)
    requires Inv(cfg, name, c) && Enabled(c, e) && SteadyInv(c)
    ensures SteadyInv(Step(cfg, name, c, e))
  {
    var w := Step(cfg, name, c, e);
    StepInv(cfg, name, c, e);
    if FirstLife(w) {
      StepLog(cfg, name, c, e);
      assert FirstLife(c) by {
        forall k | 0 < k < |c.log| ensures c.log[k].Some? { assert w.log[k] == c.log[k]; }
      }
      if c.Current().Some? && c.Current().value.deleting {
        StaysMarked(cfg, name, c, e);
      } else {
        StepPorts(cfg, name, c, e);
        UnmarkedKeepsPort(cfg, name, c);
        SteadyAfter(c, w);
      }
    }
  }

  /** Only a marked branch has its objects deleted. */
  lemma UnmarkedKeepsPort(cfg: Config, name: string, c: Cell)
    requires Inv(cfg, name, c) && !(c.Current().Some? && c.Current().value.deleting)
    ensures !(c.pc.At? && c.pc.call.DeleteObject?)
    ensures c.ports != [] && c.ports[|c.ports| - 1] == PortOf(c.objects)
  {
  }

  lemma {:induction false} RunSteady(cfg: Config, name: string, trace: seq<Cell>, events: seq<Event>, i: nat)
    requires Run(cfg, name, trace, events) && i < |trace| && Service !in trace[0].objects
    ensures SteadyInv(trace[i])
  {
    if i == 0 {
    } else {
      RunSteady(cfg, name, trace, events, i - 1);
      RunInv(cfg, name, trace, events, i - 1);
      assert Enabled(trace[i - 1], events[i - 1]);
      StepSteady(cfg, name, trace[i - 1], events[i - 1]);
    }
  }

  /** A branch whose name has not been used before, and for which no Service was left over,
      records the port its Service has, however far behind the cache was. */
  lemma EndpointIsCurrent(cfg: Config, name: string, trace: seq<Cell>, events: seq<Event>, i: nat)
    requires Run(cfg, name, trace, events) && i < |trace| && Service !in trace[0].objects && trace[i].Ok()
    requires trace[i].Current().Some? && trace[i].Current().value.Serving() && FirstLife(trace[i])
    ensures Service in trace[i].objects && trace[i].objects[Service].ServiceObject?
    ensures trace[i].Current().value.status.externalPort == trace[i].objects[Service].nodePort > 0
  {
    ReadyIsTruthful(cfg, name, trace, events, i);
    RunSteady(cfg, name, trace, events, i);
    var c := trace[i];
    assert Service in Needed(cfg, c.Current().value.spec.dbType);
    assert Steady(c.ports);
    assert c.portSeen < |c.ports| - 1 ==> c.ports[c.portSeen] == c.ports[|c.ports| - 1];
  }

  // ---- a name used again ----

  /** The port the Service of a branch under way will have. */
  function PortComing(c: Cell, x: Inputs): nat {
    if Service in c.objects then PortOf(c.objects) else x.nodePort
  }

  /** What the creation keeps of the ports. */
  ghost predicate PortsKept(c: Cell, w: Cell, x: Inputs) {
    && PortComing(w, x) == PortComing(c, x)
    && |c.ports| <= |w.ports| && (forall i | 0 <= i < |c.ports| :: w.ports[i] == c.ports[i])
  }

  lemma CreationPorts(cfg: Config, name: string, c: Cell, x: Inputs)
    requires PcInv(c) && ObjectInv(cfg, name, c) && HeadingForReady(cfg, c, x)
    ensures var w := Advance(cfg, name, c, x);
            && PortsKept(c, w, x)
            && (x.service.Some? && c.pc.call.ReadNodePort? ==> w.portSeen == x.service.value)
            && (!c.pc.call.ReadNodePort? ==> w.portSeen == c.portSeen)
            && (w.pc.At? && w.pc.call.MarkReady? ==> c.pc.call.ReadNodePort?)
  {
    if Writes(c.pc.call) {
      WriteEffect(cfg, name, c, Done, x);
    } else if c.pc.call.CreateObject? {
      CreationObject(cfg, name, c, x);
    }
  }

  lemma CreationObject(cfg: Config, name: string, c: Cell, x: Inputs)
    requires ObjectInv(cfg, name, c) && HeadingForReady(cfg, c, x) && c.pc.call.CreateObject?
    ensures var w := Advance(cfg, name, c, x); PortsKept(c, w, x) && w.portSeen == c.portSeen
    ensures var w := Advance(cfg, name, c, x); w.pc.At? ==> !w.pc.call.MarkReady?
  {
    HoldingNotes(c, c.objects[c.pc.call.kind := Desired(cfg, name, c.pc.b.spec, c.pc.call.kind, x.nodePort)]);
  }

  /** The operator has read the Service for the branch under way. */
  ghost predicate PortRead(c: Cell, x: Inputs) {
    c.pc.At? && c.pc.call.MarkReady? && x.service.Some? ==> c.portSeen == x.service.value
  }

  lemma {:induction false} CreationEndsWithPort(cfg: Config, name: string, c: Cell, x: Inputs)
    requires Inv(cfg, name, c) && HeadingForReady(cfg, c, x) && PortRead(c, x)
    ensures var w := Finished(cfg, name, c, x);
            PortsKept(c, w, x) && (x.service.Some? ==> w.portSeen == x.service.value)
    decreases PcRank(c.pc)
  {
    AdvanceRank(cfg, name, c, x);
    CreationPorts(cfg, name, c, x);
    var w := Advance(cfg, name, c, x);
    if c.pc.call.MarkReady? {
      ReadyWrittenIdle(cfg, name, c, x);
    } else {
      CreationStep(cfg, name, c, x);
      StepInv(cfg, name, c, Perform(Done, x));
      CreationEndsWithPort(cfg, name, w, x);
    }
  }

  lemma ReadyWrittenIdle(cfg: Config, name: string, c: Cell, x: Inputs)
    requires c.Ok() && c.pc.At? && c.pc.call.MarkReady?
    ensures var w := Advance(cfg, name, c, x);
            w.Ok() && w.pc.Idle? && Finished(cfg, name, c, x) == w && w.ports == c.ports && w.portSeen == c.portSeen
  {
    AdvanceRank(cfg, name, c, x);
    var w := Advance(cfg, name, c, x);
    assert Finished(cfg, name, c, x) == Finished(cfg, name, w, x) == w;
  }

  /** A branch is brought up by a pass that is shown the state of the Service at position v
      of its history.  It records the port of that state; its Service has the one the
      cluster assigns, or had already.  The two are the same exactly if these numbers are:
      right after a name is used again the port of the Service of the earlier branch can be
      recorded. */
  lemma ShownPortIsRecorded(cfg: Config, name: string, c: Cell, v: nat, x: Inputs)
    requires Inv(cfg, name, c) && c.pc.Idle? && c.Current().Some? && PortsAssigned(c, x) && x.service == Some(v)
    requires var b := c.Current().value; b.Live() && b.status.phase != Ready && cfg.Supported(b.spec.dbType)
    ensures var w := Pass(cfg, name, c, x);
            && ServesFrom(w, c.Current().value.spec, x.now)
            && w.Current().value.status.externalPort == c.ports[v]
            && Service in w.objects
            && PortOf(w.objects) == if Service in c.objects then PortOf(c.objects) else x.nodePort
  {
    ReadyWithExpiry(cfg, name, c, x);
    BroughtUpPorts(cfg, name, c, x);
    PassInv(cfg, name, c, x);
    ServingPort(cfg, name, Pass(cfg, name, c, x));
  }

  lemma BroughtUpPorts(cfg: Config, name: string, c: Cell, x: Inputs)
    requires Inv(cfg, name, c) && c.pc.Idle? && c.Current().Some? && PortsAssigned(c, x) && x.service.Some?
    requires var b := c.Current().value; b.Live() && b.status.phase != Ready && cfg.Supported(b.spec.dbType)
    ensures var w := Pass(cfg, name, c, x); PortsKept(c, w, x) && w.portSeen == x.service.value
  {
    var e := Read(c.Top(), x.now);
    var r := Step(cfg, name, c, e);
    StepInv(cfg, name, c, e);
    assert r.pc.call == MarkCreating && r.ports == c.ports && r.objects == c.objects;
    CreationEndsWithPort(cfg, name, r, x);
  }

  lemma ServingPort(cfg: Config, name: string, w: Cell)
    requires ObjectInv(cfg, name, w) && w.Current().Some? && w.Current().value.Serving()
    ensures w.portSeen < |w.ports| && w.Current().value.status.externalPort == w.ports[w.portSeen]
    ensures Service in w.objects
  {
    assert Service in Needed(cfg, w.Current().value.spec.dbType);
  }

  /** The deletion flow reads no Service. */
  lemma CleaningPorts(cfg: Config, name: string, c: Cell, x: Inputs)
    requires Inv(cfg, name, c) && c.pc.At? && (Cleaning(c.pc.call) || c.pc.call.MarkDeleting?)
    ensures var w := Advance(cfg, name, c, x);
            && w.portSeen == c.portSeen && |c.ports| <= |w.ports|
            && (forall i | 0 <= i < |c.ports| :: w.ports[i] == c.ports[i])
  {
    StepPorts(cfg, name, c, Perform(Done, x));
    if Writes(c.pc.call) {
      WriteEffect(cfg, name, c, Done, x);
    }
  }

  lemma {:induction false} GonePorts(cfg: Config, name: string, c: Cell, x: Inputs)
    requires Inv(cfg, name, c) && HeadingForGone(c)
    ensures var w := Finished(cfg, name, c, x);
            && w.portSeen == c.portSeen && |c.ports| <= |w.ports|
            && (forall i | 0 <= i < |c.ports| :: w.ports[i] == c.ports[i])
    decreases PcRank(c.pc)
  {
    AdvanceRank(cfg, name, c, x);
    CleaningPorts(cfg, name, c, x);
    var w := Advance(cfg, name, c, x);
    if c.pc.call.RemoveFinalizer? {
      assert w.pc.Idle? && Finished(cfg, name, c, x) == Finished(cfg, name, w, x) == w;
    } else {
      DeletionStep(cfg, name, c, x);
      StepInv(cfg, name, c, Perform(Done, x));
      GonePorts(cfg, name, w, x);
    }
  }

  lemma DeletedPorts(cfg: Config, name: string, c: Cell, x: Inputs)
    requires Inv(cfg, name, c) && c.pc.Idle? && c.Current().Some? && c.Current().value.deleting
    ensures var w := Pass(cfg, name, c, x);
            && w.portSeen == c.portSeen && |c.ports| <= |w.ports|
            && (forall i | 0 <= i < |c.ports| :: w.ports[i] == c.ports[i])
  {
    var e := Read(c.Top(), x.now);
    var r := Step(cfg, name, c, e);
    StepInv(cfg, name, c, e);
    DeletionStarts(cfg, name, c, x);
    assert VersionOk(cfg, name, c.Current());
    assert r.pc.call == MarkDeleting && r.ports == c.ports && r.portSeen == c.portSeen;
    GonePortsFromMark(cfg, name, r, x);
  }

  lemma GonePortsFromMark(cfg: Config, name: string, c: Cell, x: Inputs)
    requires Inv(cfg, name, c) && c.pc.At? && c.pc.call.MarkDeleting? && HeadingForGone(Advance(cfg, name, c, x))
    ensures var w := Finished(cfg, name, c, x);
            && w.portSeen == c.portSeen && |c.ports| <= |w.ports|
            && (forall i | 0 <= i < |c.ports| :: w.ports[i] == c.ports[i])
  {
    AdvanceRank(cfg, name, c, x);
    CleaningPorts(cfg, name, c, x);
    StepInv(cfg, name, c, Perform(Done, x));
    GonePorts(cfg, name, Advance(cfg, name, c, x), x);
  }

  /** A serving branch is deleted and one of its name made.  When the cache still shows the
      old Service, the new branch comes to serve with the port of the old one recorded,
      whatever port its own Service has been given. */
  lemma StaleEndpoint(cfg: Config, name: string, c: Cell, second: Spec, z: Inputs, x: Inputs, y: Inputs)
    requires Inv(cfg, name, c) && c.pc.Idle? && c.Current().Some? && c.Current().value.Serving()
    requires PortOf(c.objects) > 0 && cfg.Supported(second.dbType)
    requires y.service == Some(|c.ports| - 1) && y.nodePort > 0
    ensures var gone := Pass(cfg, name, Step(cfg, name, c, UserDelete), z);
            && Enabled(gone, UserCreate(second))
            && var w := Pass(cfg, name, Pass(cfg, name, Step(cfg, name, gone, UserCreate(second)), x), y);
               && ServesFrom(w, second, y.now)
               && w.Current().value.status.externalPort == PortOf(c.objects)
               && PortOf(w.objects) == y.nodePort
  {
    assert VersionOk(cfg, name, c.Current());
    ServingPort(cfg, name, c);
    GoneWithPorts(cfg, name, c, z);
    NewWithOldPort(cfg, name, Pass(cfg, name, Step(cfg, name, c, UserDelete), z), second, x, y, |c.ports| - 1);
  }

  /** The deletion of a branch leaves the history of its Service as it was. */
  lemma GoneWithPorts(cfg: Config, name: string, c: Cell, z: Inputs)
    requires Inv(cfg, name, c) && c.pc.Idle? && c.Current().Some? && c.Current().value.Serving()
    ensures var w := Pass(cfg, name, Step(cfg, name, c, UserDelete), z);
            && Inv(cfg, name, w) && Gone(cfg, w) && w.pc.Idle?
            && w.portSeen == c.portSeen && |c.ports| <= |w.ports|
            && (forall i | 0 <= i < |c.ports| :: w.ports[i] == c.ports[i])
  {
    var marked := Step(cfg, name, c, UserDelete);
    StepInv(cfg, name, c, UserDelete);
    assert VersionOk(cfg, name, c.Current());
    assert marked.ports == c.ports && marked.portSeen == c.portSeen;
    DeletedWithinOnePass(cfg, name, marked, z);
    DeletedPorts(cfg, name, marked, z);
    PassInv(cfg, name, marked, z);
  }

  lemma NewWithOldPort(cfg: Config, name: string, c: Cell, second: Spec, x: Inputs, y: Inputs, v: nat)
    requires Inv(cfg, name, c) && Gone(cfg, c) && c.pc.Idle? && cfg.Supported(second.dbType)
    requires c.portSeen <= v < |c.ports| && c.ports[v] > 0 && y.service == Some(v) && y.nodePort > 0
    ensures Enabled(c, UserCreate(second))
    ensures var w := Pass(cfg, name, Pass(cfg, name, Step(cfg, name, c, UserCreate(second)), x), y);
            && ServesFrom(w, second, y.now)
            && w.Current().value.status.externalPort == c.ports[v] && PortOf(w.objects) == y.nodePort
  {
    var made := Step(cfg, name, c, UserCreate(second));
    StepInv(cfg, name, c, UserCreate(second));
    FinalizerPass(cfg, name, made, x);
    PassInv(cfg, name, made, x);
    ShownPortIsRecorded(cfg, name, Pass(cfg, name, made, x), v, y);
  }
}
