/** What holds over whole runs of one cell: any interleaving of users, operator,
    garbage collection and cluster, with calls failing, answers getting lost, the
    operator crashing between any two calls, and reads being stale. */
module LifecycleTheorems {
  import opened Common
  import opened Branches
  import opened Lifecycle
  import opened LifecycleInvariant
  import opened Convergence

  /** `trace` is the run that `events` drives from an initial cell. */
  ghost predicate Run(cfg: Config, name: string, trace: seq<Cell>, events: seq<Event>) {
    Connected(cfg, name, trace, events) && Initial(trace[0])
  }

  lemma RunInv(cfg: Config, name: string, trace: seq<Cell>, events: seq<Event>, i: nat)
    requires Run(cfg, name, trace, events) && i < |trace|
    ensures Inv(cfg, name, trace[i])
  {
    InitialInv(cfg, name, trace[0]);
    ConnectedInv(cfg, name, trace, events, i);
  }

  /** No leaked clone: a clone the operator made exists only while its branch exists,
      carries the finalizer, and has a type served on that dataset. */
  lemma NoLeakedClone(cfg: Config, name: string, trace: seq<Cell>, events: seq<Event>, i: nat, d: string)
    requires Run(cfg, name, trace, events) && i < |trace|
    requires d in trace[i].clones && !trace[i].clones[d].foreign
    ensures trace[i].Ok() && trace[i].Current().Some?
    ensures trace[i].Current().value.finalizer
    ensures d == cfg.Dataset(trace[i].Current().value.spec.dbType)
  {
    RunInv(cfg, name, trace, events, i);
    assert Owned(cfg, trace[i], d);
  }

  /** A Ready, unmarked branch is what it claims: its clone is there unless garbage
      collection has hit it, every object it needs is there, and the recorded endpoint is
      one the Service of its name has had, the present one exactly if the last state of the
      Service the operator has read had the port of the present one. */
  lemma ReadyIsTruthful(cfg: Config, name: string, trace: seq<Cell>, events: seq<Event>, i: nat)
    requires Run(cfg, name, trace, events) && i < |trace| && trace[i].Ok()
    requires trace[i].Current().Some? && trace[i].Current().value.Serving()
    ensures var c := trace[i]; var b := c.Current().value;
            && b.finalizer && cfg.Supported(b.spec.dbType)
            && (!c.harmed ==> cfg.Dataset(b.spec.dbType) in c.clones)
            && Needed(cfg, b.spec.dbType) <= c.objects.Keys
            && c.objects[Service].ServiceObject?
            && b.status.clusterHost == cfg.ClusterHost(name)
            && b.status.clusterPort == cfg.DbPort(b.spec.dbType)
            && b.status.externalHost == cfg.externalHost
            && c.portSeen < |c.ports| && b.status.externalPort == c.ports[c.portSeen] > 0
            && (b.status.externalPort == c.objects[Service].nodePort <==> c.ports[c.portSeen] == c.ports[|c.ports| - 1])
  {
    RunInv(cfg, name, trace, events, i);
    var c := trace[i];
    assert VersionOk(cfg, name, c.Current());
    assert Service in Needed(cfg, c.Current().value.spec.dbType);
    assert OfKind(Service, c.objects[Service]);
  }

  // ---- the version log over a run ----

  /** Versions are only ever added. */
  lemma {:induction false} LogGrows(cfg: Config, name: string, trace: seq<Cell>, events: seq<Event>, i: nat, j: nat)
    requires Run(cfg, name, trace, events) && i <= j < |trace|
    ensures IsPrefix(trace[i].log, trace[j].log)
  {
    if i == j {
    } else {
      LogGrows(cfg, name, trace, events, i, j - 1);
      RunInv(cfg, name, trace, events, j - 1);
      StepLog(cfg, name, trace[j - 1], events[j - 1]);
    }
  }

  /** A branch that serves at one moment of a run has, at any later moment, either
      not changed at all or been marked for deletion as its very next version. */
  lemma ReadyIsStable(cfg: Config, name: string, trace: seq<Cell>, events: seq<Event>, i: nat, j: nat)
    requires Run(cfg, name, trace, events) && i <= j < |trace| && trace[i].Ok()
    requires trace[i].Current().Some? && trace[i].Current().value.Serving()
    ensures var b, n := trace[i].Current().value, |trace[i].log|;
            && n <= |trace[j].log|
            && trace[j].log[n - 1] == Some(b)
            && (|trace[j].log| > n ==> trace[j].log[n] == Some(b.(deleting := true)))
  {
    LogGrows(cfg, name, trace, events, i, j);
    RunInv(cfg, name, trace, events, j);
    var n := |trace[i].log|;
    assert trace[j].log[n - 1] == trace[i].log[n - 1];
    if |trace[j].log| > n {
      assert Follows(trace[j].log[n - 1], trace[j].log[n]);
    }
  }

  /** The versions from k to j belong to one incarnation of the branch. */
  ghost predicate SameLife(log: seq<Option<Branch>>, k: nat, j: nat) {
    k <= j < |log| && forall i | k <= i <= j :: log[i].Some?
  }

  lemma {:induction false} MarkedLog(cfg: Config, name: string, log: seq<Option<Branch>>, k: nat, j: nat)
    requires LogOk(cfg, name, log) && SameLife(log, k, j)
    requires log[k].value.deleting && log[k].value.status.phase != Ready
    ensures log[j].value.deleting && log[j].value.status.phase != Ready && log[j].value.spec == log[k].value.spec
  {
    if k == j {
    } else {
      MarkedLog(cfg, name, log, k, j - 1);
      assert Follows(log[j - 1], log[j]);
    }
  }

  /** A branch that is not Ready when it is marked for deletion never becomes Ready. */
  lemma NeverReadyAfterMark(cfg: Config, name: string, trace: seq<Cell>, events: seq<Event>, i: nat, k: nat, j: nat)
    requires Run(cfg, name, trace, events) && i < |trace|
    requires SameLife(trace[i].log, k, j)
    requires trace[i].log[k].value.deleting && trace[i].log[k].value.status.phase != Ready
    ensures trace[i].log[j].value.status.phase != Ready
  {
    RunInv(cfg, name, trace, events, i);
    MarkedLog(cfg, name, trace[i].log, k, j);
  }

  /** The operator requests deletion only of a branch that exists, is Ready with the
      status it has read, and whose expiry lies before the instant of that reading. */
  lemma NoEarlyExpiry(cfg: Config, name: string, trace: seq<Cell>, events: seq<Event>, i: nat)
    requires Run(cfg, name, trace, events) && i < |trace|
    requires trace[i].pc.At? && trace[i].pc.call.DeleteExpired?
    ensures var c := trace[i];
            && c.Ok() && c.Current().Some?
            && c.Current().value.spec == c.pc.b.spec
            && c.Current().value.status == c.pc.b.status
            && c.Current().value.status.phase == Ready
            && c.Current().value.status.expiresAt.Some?
            && c.Current().value.status.expiresAt.value < c.pc.call.readAt
  {
    RunInv(cfg, name, trace, events, i);
    var c := trace[i];
    assert c.log[c.seen].value.Live();
    SameSpec(cfg, name, c.log, c.seen, c.Top());
  }

  /** The operator never requests deletion of a branch without a TTL. */
  lemma NoTtlNoExpiry(cfg: Config, name: string, trace: seq<Cell>, events: seq<Event>, i: nat)
    requires Run(cfg, name, trace, events) && i < |trace|
    requires trace[i].pc.At? && trace[i].pc.call.DeleteExpired?
    ensures trace[i].Ok() && trace[i].Current().Some? && trace[i].Current().value.spec.ttlHours > 0
  {
    NoEarlyExpiry(cfg, name, trace, events, i);
    RunInv(cfg, name, trace, events, i);
    assert VersionOk(cfg, name, trace[i].Current());
  }

  lemma {:induction false} SameSpec(cfg: Config, name: string, log: seq<Option<Branch>>, k: nat, j: nat)
    requires LogOk(cfg, name, log) && SameLife(log, k, j)
    ensures log[j].value.spec == log[k].value.spec
  {
    if k == j {
    } else {
      SameSpec(cfg, name, log, k, j - 1);
      assert Follows(log[j - 1], log[j]);
    }
  }

  // ---- retries ----

  /** The objects of a serving branch are settled by its spec and by what was left
      over when it was created, up to the node port. */
  lemma SettledObjects(cfg: Config, name: string, c: Cell)
    requires Inv(cfg, name, c) && c.Current().Some? && c.Current().value.Serving()
    ensures var spec := c.Current().value.spec;
            && c.objects.Keys == Needed(cfg, spec.dbType) + c.leftover.Keys
            && (forall k | k in c.objects ::
                  SameButPort(c.objects[k], if k in c.leftover then c.leftover[k] else Desired(cfg, name, spec, k, 0)))
  {
    var spec := c.Current().value.spec;
    forall k | k in c.objects
      ensures k in Needed(cfg, spec.dbType) + c.leftover.Keys
    {
      assert Explained(cfg, name, c.leftover, spec, k, c.objects[k]);
    }
  }

  lemma CleanRun(cfg: Config, name: string, c: Cell, spec: Spec, x: Inputs, y: Inputs)
    requires Inv(cfg, name, c) && c.pc.Idle? && c.Current() == Some(Branch(spec, false, false, BLANK_STATUS))
    requires cfg.Supported(spec.dbType) && PortsAssigned(c, x) && PortsAssigned(c, y)
    ensures var clean := Pass(cfg, name, Pass(cfg, name, c, x), y);
            && Inv(cfg, name, clean) && Keeps(c, clean)
            && clean.Current().Some? && clean.Current().value.Serving()
  {
    ReadyWithinTwoPasses(cfg, name, c, x, y);
    PassKeeps(cfg, name, c, x);
    PassKeeps(cfg, name, Pass(cfg, name, c, x), y);
  }

  /** Retry equals one clean run: a branch that became Ready after any number of
      attempts that failed or crashed anywhere has the same objects, up to the node
      port, as a new branch of the same spec made by two undisturbed passes over the
      same leftovers. */
  lemma RetryEqualsCleanRun(cfg: Config, name: string, trace: seq<Cell>, events: seq<Event>, i: nat,
                            c: Cell, x: Inputs, y: Inputs)
    requires Run(cfg, name, trace, events) && i < |trace| && trace[i].Ok()
    requires trace[i].Current().Some? && trace[i].Current().value.Serving()
    requires Inv(cfg, name, c) && c.pc.Idle?
    requires c.Current() == Some(Branch(trace[i].Current().value.spec, false, false, BLANK_STATUS))
    requires c.leftover == trace[i].leftover && PortsAssigned(c, x) && PortsAssigned(c, y)
    ensures var clean := Pass(cfg, name, Pass(cfg, name, c, x), y);
            && clean.Current().Some? && clean.Current().value.Serving()
            && clean.objects.Keys == trace[i].objects.Keys
            && forall k | k in clean.objects :: SameButPort(clean.objects[k], trace[i].objects[k])
  {
    RunInv(cfg, name, trace, events, i);
    assert VersionOk(cfg, name, trace[i].Current());
    CleanRun(cfg, name, c, trace[i].Current().value.spec, x, y);
    SettledObjects(cfg, name, trace[i]);
    SettledObjects(cfg, name, Pass(cfg, name, Pass(cfg, name, c, x), y));
  }

  /** A serving branch runs what its spec asks for exactly when the needed objects
      left over from an earlier branch of that name already were of that kind. */
  lemma LeftoversDecide(cfg: Config, name: string, c: Cell)
    requires Inv(cfg, name, c) && c.Current().Some? && c.Current().value.Serving()
    ensures var spec := c.Current().value.spec;
            (forall k | k in Needed(cfg, spec.dbType) ::
               k in c.objects && SameButPort(c.objects[k], Desired(cfg, name, spec, k, 0)))
            <==>
            (forall k | k in Needed(cfg, spec.dbType) && k in c.leftover ::
               SameButPort(c.leftover[k], Desired(cfg, name, spec, k, 0)))
  {
    SettledObjects(cfg, name, c);
  }

  // ---- deletions whose errors are swallowed ----

  /** In the deletion flow, past the write that marked the branch. */
  ghost predicate Emptying(c: Cell) {
    c.Ok() && c.pc.At? && Cleaning(c.pc.call) && Draining(c, c.pc.b, c.pc.rv)
  }

  /** The delete of this kind is still to come. */
  predicate Ahead(call: Call, kind: Kind) {
    call.DeleteObject? && Rank(DeleteObject(kind)) <= Rank(call)
  }

  /** How the next call ends when `o` says how the deletes of objects end and every
      other call succeeds. */
  function Ending(call: Call, o: Kind -> Outcome): Outcome {
    if call.DeleteObject? then o(call.kind) else Done
  }

  lemma EndingRank(cfg: Config, name: string, c: Cell, x: Inputs, o: Kind -> Outcome)
    requires c.Ok() && c.pc.At?
    ensures var w := Step(cfg, name, c, Perform(Ending(c.pc.call, o), x)); w.Ok() && PcRank(w.pc) < PcRank(c.pc)
  {
    if !c.pc.call.DeleteObject? {
      AdvanceRank(cfg, name, c, x);
    }
  }

  /** The pass under way, run to its end. */
  function FinishedWith(cfg: Config, name: string, c: Cell, x: Inputs, o: Kind -> Outcome): (w: Cell)
    requires c.Ok()
    ensures w.Ok() && w.pc.Idle?
    decreases PcRank(c.pc)
  {
    if c.pc.Idle? then c
    else
      EndingRank(cfg, name, c, x, o);
      FinishedWith(cfg, name, Step(cfg, name, c, Perform(Ending(c.pc.call, o), x)), x, o)
  }

  lemma EmptyingStep(cfg: Config, name: string, c: Cell, x: Inputs, o: Kind -> Outcome)
    requires Emptying(c)
    ensures var w := Step(cfg, name, c, Perform(Ending(c.pc.call, o), x));
            && (if c.pc.call.RemoveFinalizer? then w.pc.Idle? && w.Current().None? else Emptying(w))
            && w.objects == (if c.pc.call.DeleteObject? && o(c.pc.call.kind) != Failed
                             then c.objects - {c.pc.call.kind} else c.objects)
            && (forall k :: w.pc.At? && Ahead(w.pc.call, k) <==> Ahead(c.pc.call, k) && c.pc.call != DeleteObject(k))
  {
  }

  /** Which objects are left when the flow has ended. */
  lemma {:induction false} EmptyingLeaves(cfg: Config, name: string, c: Cell, x: Inputs, o: Kind -> Outcome)
    requires Emptying(c)
    ensures var w := FinishedWith(cfg, name, c, x, o);
            && w.Current().None?
            && (forall k :: k in w.objects <==> k in c.objects && (Ahead(c.pc.call, k) ==> o(k) == Failed))
            && (forall k | k in w.objects :: w.objects[k] == c.objects[k])
    decreases PcRank(c.pc)
  {
    EndingRank(cfg, name, c, x, o);
    EmptyingStep(cfg, name, c, x, o);
    var w := Step(cfg, name, c, Perform(Ending(c.pc.call, o), x));
    if c.pc.call.RemoveFinalizer? {
      assert FinishedWith(cfg, name, c, x, o) == FinishedWith(cfg, name, w, x, o) == w;
    } else {
      EmptyingLeaves(cfg, name, w, x, o);
    }
  }

  lemma {:induction false} FinishedWithInv(cfg: Config, name: string, c: Cell, x: Inputs, o: Kind -> Outcome)
    requires Inv(cfg, name, c)
    ensures Inv(cfg, name, FinishedWith(cfg, name, c, x, o))
    decreases PcRank(c.pc)
  {
    if c.pc.Idle? {
    } else {
      EndingRank(cfg, name, c, x, o);
      StepInv(cfg, name, c, Perform(Ending(c.pc.call, o), x));
      FinishedWithInv(cfg, name, Step(cfg, name, c, Perform(Ending(c.pc.call, o), x)), x, o);
    }
  }

  /** A pass over a marked branch, however its five deletes end and every other call
      succeeding: the branch and its clone go, and exactly the objects that were there
      and whose delete failed stay, as they were. */
  lemma DeletionLeaves(cfg: Config, name: string, c: Cell, x: Inputs, o: Kind -> Outcome)
    requires Inv(cfg, name, c) && c.pc.Idle? && c.Current().Some? && c.Current().value.deleting
    ensures var w := FinishedWith(cfg, name, Step(cfg, name, c, Read(c.Top(), x.now)), x, o);
            && w.Current().None?
            && (forall k :: k in w.objects <==> k in c.objects && o(k) == Failed)
            && (forall k | k in w.objects :: w.objects[k] == c.objects[k])
            && (forall d | d in w.clones :: w.clones[d].foreign)
  {
    ObjectsLeft(cfg, name, c, x, o);
    StepInv(cfg, name, c, Read(c.Top(), x.now));
    var r := Step(cfg, name, c, Read(c.Top(), x.now));
    FinishedWithInv(cfg, name, r, x, o);
    GoneClones(cfg, name, FinishedWith(cfg, name, r, x, o));
  }

  lemma ObjectsLeft(cfg: Config, name: string, c: Cell, x: Inputs, o: Kind -> Outcome)
    requires History(cfg, name, c) && c.pc.Idle? && c.Current().Some? && c.Current().value.deleting
    ensures var r := Step(cfg, name, c, Read(c.Top(), x.now));
            && r.Ok()
            && var w := FinishedWith(cfg, name, r, x, o);
               && w.Current().None?
               && (forall k :: k in w.objects <==> k in c.objects && o(k) == Failed)
               && (forall k | k in w.objects :: w.objects[k] == c.objects[k])
  {
    DeletionFlow(cfg, name, c, x);
    var r := Step(cfg, name, c, Read(c.Top(), x.now));
    MarkedThen(cfg, name, r, x, o);
    var a := Advance(cfg, name, r, x);
    EmptyingLeaves(cfg, name, a, x, o);
    assert forall k: Kind :: Ahead(a.pc.call, k);
  }

  lemma MarkedThen(cfg: Config, name: string, c: Cell, x: Inputs, o: Kind -> Outcome)
    requires c.Ok() && c.pc.At? && c.pc.call.MarkDeleting?
    ensures Advance(cfg, name, c, x).Ok()
    ensures FinishedWith(cfg, name, c, x, o) == FinishedWith(cfg, name, Advance(cfg, name, c, x), x, o)
  {
    EndingRank(cfg, name, c, x, o);
  }

  /** No clone the operator made outlives its branch. */
  lemma GoneClones(cfg: Config, name: string, c: Cell)
    requires Inv(cfg, name, c) && c.Current().None?
    ensures forall d | d in c.clones :: c.clones[d].foreign
  {
    assert forall d | d in c.clones :: !c.clones[d].foreign ==> Owned(cfg, c, d);
  }

  lemma DeletionFlow(cfg: Config, name: string, c: Cell, x: Inputs)
    requires History(cfg, name, c) && c.pc.Idle? && c.Current().Some? && c.Current().value.deleting
    ensures var r := Step(cfg, name, c, Read(c.Top(), x.now));
            && r.Ok() && r.pc.At? && r.pc.call.MarkDeleting?
            && var a := Advance(cfg, name, r, x);
               && Emptying(a) && a.pc.call == DeleteObject(Service) && a.objects == c.objects
  {
    DeletionStarts(cfg, name, c, x);
  }

  /** With the remaining deletes successful the two ways to finish are one. */
  lemma {:induction false} FinishedWithDone(cfg: Config, name: string, c: Cell, x: Inputs, o: Kind -> Outcome)
    requires Emptying(c) && forall k | Ahead(c.pc.call, k) :: o(k) == Done
    ensures FinishedWith(cfg, name, c, x, o) == Finished(cfg, name, c, x)
    decreases PcRank(c.pc)
  {
    assert c.pc.call.DeleteObject? ==> Ahead(c.pc.call, c.pc.call.kind);
    assert Ending(c.pc.call, o) == Done;
    AdvanceRank(cfg, name, c, x);
    EmptyingStep(cfg, name, c, x, o);
    var w := Advance(cfg, name, c, x);
    if c.pc.call.RemoveFinalizer? {
      assert FinishedWith(cfg, name, w, x, o) == w == Finished(cfg, name, w, x);
    } else {
      FinishedWithDone(cfg, name, w, x, o);
    }
  }

  /** Stop never learns that a delete failed: when the delete of an object that is there
      fails and every later call succeeds, the branch goes and the object stays. */
  lemma SwallowedErrorLeaks(cfg: Config, name: string, c: Cell, kind: Kind, x: Inputs)
    requires Inv(cfg, name, c) && c.pc.At? && c.pc.call == DeleteObject(kind) && kind in c.objects
    ensures var w := Finished(cfg, name, Step(cfg, name, c, Perform(Failed, x)), x);
            w.Current().None? && kind in w.objects
  {
    var o := k => if k == kind then Failed else Done;
    var v := Step(cfg, name, c, Perform(Failed, x));
    EmptyingStep(cfg, name, c, x, o);
    EmptyingLeaves(cfg, name, v, x, o);
    FinishedWithDone(cfg, name, v, x, o);
  }

  /** What a deletion leaves behind is what a later branch of the name starts from. */
  lemma LeftForNext(cfg: Config, name: string, c: Cell, second: Spec, z: Inputs, o: Kind -> Outcome)
    requires Inv(cfg, name, c) && c.pc.Idle? && c.Current().Some? && c.Current().value.deleting
    ensures var r := Step(cfg, name, c, Read(c.Top(), z.now));
            && r.Ok()
            && var gone := FinishedWith(cfg, name, r, z, o);
               && Enabled(gone, UserCreate(second))
               && var made := Step(cfg, name, gone, UserCreate(second));
                  && Inv(cfg, name, made) && made.pc.Idle?
                  && made.Current() == Some(Branch(second, false, false, BLANK_STATUS))
                  && made.leftover == made.objects == gone.objects
                  && (forall k :: k in made.leftover <==> k in c.objects && o(k) == Failed)
                  && (forall k | k in made.leftover :: made.leftover[k] == c.objects[k])
  {
    DeletionLeaves(cfg, name, c, z, o);
    StepInv(cfg, name, c, Read(c.Top(), z.now));
    var r := Step(cfg, name, c, Read(c.Top(), z.now));
    FinishedWithInv(cfg, name, r, z, o);
    CreatedAfterGone(cfg, name, FinishedWith(cfg, name, r, z, o), second);
  }

  lemma CreatedAfterGone(cfg: Config, name: string, gone: Cell, second: Spec)
    requires Inv(cfg, name, gone) && gone.pc.Idle? && Enabled(gone, UserCreate(second))
    ensures var made := Step(cfg, name, gone, UserCreate(second));
            && Inv(cfg, name, made) && made.pc.Idle?
            && made.Current() == Some(Branch(second, false, false, BLANK_STATUS))
            && made.leftover == made.objects == gone.objects
  {
    StepInv(cfg, name, gone, UserCreate(second));
  }

  /** The cell in which a second branch has been made after the deletion. */
  function Second(cfg: Config, name: string, c: Cell, second: Spec, z: Inputs, o: Kind -> Outcome): Cell
    requires Inv(cfg, name, c) && c.pc.Idle? && c.Current().Some? && c.Current().value.deleting
  {
    LeftForNext(cfg, name, c, second, z, o);
    var gone := FinishedWith(cfg, name, Step(cfg, name, c, Read(c.Top(), z.now)), z, o);
    Step(cfg, name, gone, UserCreate(second))
  }

  /** The cell in which it has been brought up by two passes. */
  function Successor(
      cfg: Config, name: string, c: Cell, second: Spec, z: Inputs, o: Kind -> Outcome, x: Inputs, y: Inputs): Cell
    requires Inv(cfg, name, c) && c.pc.Idle? && c.Current().Some? && c.Current().value.deleting
  {
    LeftForNext(cfg, name, c, second, z, o);
    Pass(cfg, name, Pass(cfg, name, Second(cfg, name, c, second, z, o), x), y)
  }

  /** A branch is deleted, its object deletes ending as `o` says, and a second one of its
      name is made and comes to serve.  The second runs what it asks for exactly if every
      object it needs whose delete failed was what it asks for already; an object whose
      delete failed is taken over as it was. */
  lemma SuccessorAdopts(
      cfg: Config, name: string, c: Cell, second: Spec, z: Inputs, o: Kind -> Outcome, x: Inputs, y: Inputs)
    requires Inv(cfg, name, c) && c.pc.Idle? && c.Current().Some? && c.Current().value.deleting
    requires cfg.Supported(second.dbType)
    ensures var made := Second(cfg, name, c, second, z, o);
            PortsAssigned(made, x) && PortsAssigned(made, y) ==>
              var w := Successor(cfg, name, c, second, z, o, x, y);
              && w.Ok() && w.Current().Some? && w.Current().value.Serving() && w.Current().value.spec == second
              && Needed(cfg, second.dbType) <= w.objects.Keys
              && (forall k | k in c.objects && o(k) == Failed ::
                    k in w.objects && SameButPort(w.objects[k], c.objects[k]))
              && ((forall k | k in Needed(cfg, second.dbType) ::
                     SameButPort(w.objects[k], Desired(cfg, name, second, k, 0)))
                  <==>
                  (forall k | k in Needed(cfg, second.dbType) && k in c.objects && o(k) == Failed ::
                     SameButPort(c.objects[k], Desired(cfg, name, second, k, 0))))
  {
    LeftForNext(cfg, name, c, second, z, o);
    var made := Second(cfg, name, c, second, z, o);
    if PortsAssigned(made, x) && PortsAssigned(made, y) {
      CleanRun(cfg, name, made, second, x, y);
      var w := Successor(cfg, name, c, second, z, o, x, y);
      SettledObjects(cfg, name, w);
      LeftoversDecide(cfg, name, w);
    }
  }

  /** So a branch can come to serve on the pod of an earlier one of its name. */
  lemma OldPodServes(
      cfg: Config, name: string, c: Cell, second: Spec, z: Inputs, o: Kind -> Outcome, x: Inputs, y: Inputs)
    requires Inv(cfg, name, c) && c.pc.Idle? && c.Current().Some? && c.Current().value.deleting
    requires cfg.Supported(second.dbType)
    requires Pod in c.objects && o(Pod) == Failed && c.objects[Pod] != Desired(cfg, name, second, Pod, 0)
    ensures var made := Second(cfg, name, c, second, z, o);
            PortsAssigned(made, x) && PortsAssigned(made, y) ==>
              var w := Successor(cfg, name, c, second, z, o, x, y);
              && w.Ok() && w.Current().Some? && w.Current().value.Serving() && w.Current().value.spec == second
              && Pod in w.objects && w.objects[Pod] == c.objects[Pod] != Desired(cfg, name, second, Pod, 0)
  {
    var made := Second(cfg, name, c, second, z, o);
    if PortsAssigned(made, x) && PortsAssigned(made, y) {
      SuccessorAdopts(cfg, name, c, second, z, o, x, y);
      assert OfKind(Pod, c.objects[Pod]);
    }
  }

  /** What can happen to an existing clone in one step. */
  lemma CloneStep(cfg: Config, name: string, c: Cell, e: Event, d: string)
    requires Inv(cfg, name, c) && Enabled(c, e) && d in c.clones
    ensures var w := Step(cfg, name, c, e);
            if d in w.clones then w.clones[d] == c.clones[d]
            else
              || e == Sweep(d)
              || (c.pc.At? && c.pc.call == RollBack && c.clones[d].born == c.attempt)
              || (c.pc.At? && c.pc.call == DeleteClone && c.Current().Some? && c.Current().value.deleting)
  {
    if e.Perform? && Writes(c.pc.call) {
      WriteEffect(cfg, name, c, e.outcome, e.inputs);
    } else if e.Perform? {
      CloneCall(cfg, name, c, e.outcome, e.inputs, d);
    }
  }

  lemma CloneCall(cfg: Config, name: string, c: Cell, o: Outcome, x: Inputs, d: string)
    requires PcInv(c) && CloneInv(cfg, c) && c.pc.At? && !Writes(c.pc.call) && d in c.clones
    ensures var w := PerformCall(cfg, name, c, o, x);
            if d in w.clones then w.clones[d] == c.clones[d]
            else
              || (c.pc.call == RollBack && c.clones[d].born == c.attempt)
              || (c.pc.call == DeleteClone && c.Current().Some? && c.Current().value.deleting)
  {
    if c.pc.call.DeleteClone? || c.pc.call.RollBack? {
      CloneDropped(cfg, name, c, o, x);
    } else if c.pc.call.CloneSnapshot? {
    } else {
      ClonesUntouched(cfg, name, c, o, x);
    }
  }

  lemma CloneDropped(cfg: Config, name: string, c: Cell, o: Outcome, x: Inputs)
    requires c.Ok() && c.pc.At? && (c.pc.call.DeleteClone? || c.pc.call.RollBack?)
    ensures var w := PerformCall(cfg, name, c, o, x);
            w.clones == c.clones || w.clones == c.clones - {cfg.Dataset(c.pc.b.spec.dbType)}
  {
  }

  lemma ClonesUntouched(cfg: Config, name: string, c: Cell, o: Outcome, x: Inputs)
    requires c.Ok() && c.pc.At? && !Writes(c.pc.call)
    requires !c.pc.call.CloneSnapshot? && !c.pc.call.RollBack? && !c.pc.call.DeleteClone?
    ensures PerformCall(cfg, name, c, o, x).clones == c.clones
  {
    if Undoable(c.pc.call) {
      ShareKeepsClones(cfg, name, c, o, x);
    }
  }

  lemma ShareKeepsClones(cfg: Config, name: string, c: Cell, o: Outcome, x: Inputs)
    requires c.Ok() && c.pc.At? && Undoable(c.pc.call) && !c.pc.call.RollBack?
    ensures PerformCall(cfg, name, c, o, x).clones == c.clones
  {
  }

  lemma StepAttempt(cfg: Config, name: string, c: Cell, e: Event)
    requires Inv(cfg, name, c) && Enabled(c, e)
    ensures var w := Step(cfg, name, c, e);
            c.attempt <= w.attempt && (c.pc.Idle? && w.pc.At? ==> w.attempt == c.attempt + 1)
  {
    if e.Perform? {
      if Writes(c.pc.call) {
        WriteEffect(cfg, name, c, e.outcome, e.inputs);
      } else {
        EffectPc(cfg, name, c, e.outcome, e.inputs);
      }
    }
  }

  /** No retry touches an existing clone: between passes a clone is there, then for as
      long as the branch stays unmarked and garbage collection stays away, every
      further attempt, failed or not, leaves it with the same origin content. */
  lemma {:induction false} RetriesKeepClone(cfg: Config, name: string, trace: seq<Cell>, events: seq<Event>, i: nat,
      j: nat, d: string)
    requires Run(cfg, name, trace, events) && i <= j < |trace|
    requires trace[i].pc.Idle? && d in trace[i].clones
    requires forall k | i <= k <= j :: trace[k].Ok() && trace[k].Current().Some? && !trace[k].Current().value.deleting
    requires forall k | i <= k < j :: !events[k].Sweep?
    ensures d in trace[j].clones && trace[j].clones[d] == trace[i].clones[d]
    ensures trace[j].pc.Idle? || trace[j].attempt > trace[j].clones[d].born
    ensures trace[j].attempt >= trace[j].clones[d].born
  {
    RunInv(cfg, name, trace, events, i);
    if i < j {
      RetriesKeepClone(cfg, name, trace, events, i, j - 1, d);
      RunInv(cfg, name, trace, events, j - 1);
      assert !events[j - 1].Sweep?;
      CloneStep(cfg, name, trace[j - 1], events[j - 1], d);
      StepAttempt(cfg, name, trace[j - 1], events[j - 1]);
    }
  }
}
