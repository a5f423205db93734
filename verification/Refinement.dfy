/** The clones of one branch as the operator's machine sees them, and the pool that
    holds them: the calls of the machine are commands on the pool, and what the pool
    keeps of every clone holds for the clone of a Ready branch. */
module Refinement {
  import opened Common
  import opened Branches
  import opened Lifecycle
  import opened LifecycleInvariant
  import opened LifecycleTheorems
  import Z = Zfs

  /** A branch together with the pool. */
  datatype Joint = Joint(cell: Cell, pool: Z.Pool)

  datatype JointEvent =
    | AtCell(event: Event)
    | AtPool(command: Z.Command)   // the agent works for somebody else

  /** The clones of the branch in the pool are those of the cell, with their content. */
  ghost predicate Matches(name: string, j: Joint) {
    && (forall d :: d in j.cell.clones <==> Z.CloneId(d, name) in j.pool.clones)
    && (forall d | d in j.cell.clones :: j.pool.clones[Z.CloneId(d, name)].base == j.cell.clones[d].content)
  }

  /** The clone and the snapshot a branch asks for. */
  function CloneOf(cfg: Config, name: string, b: Branch): Z.CloneId {
    Z.CloneId(cfg.Dataset(b.spec.dbType), name)
  }

  function SnapOf(cfg: Config, b: Branch): Z.SnapId {
    Z.SnapId(cfg.Dataset(b.spec.dbType), b.spec.snapshotRef)
  }

  /** The pool command behind a step of the cell that takes effect. */
  function CommandOf(cfg: Config, name: string, c: Cell, e: Event): Option<Z.Command> {
    if e.Sweep? then Some(Z.DestroyClone(Z.CloneId(e.dataset, name)))
    else if !e.Perform? || !c.pc.At? || e.outcome == Failed then None
    else
      match c.pc.call
      case CloneSnapshot => Some(Z.MakeClone(SnapOf(cfg, c.pc.b), CloneOf(cfg, name, c.pc.b)))
      case RollBack => Some(Z.DestroyClone(CloneOf(cfg, name, c.pc.b)))
      case DeleteClone => Some(Z.DestroyClone(CloneOf(cfg, name, c.pc.b)))
      case _ => None
  }

  /** The commands of the operator, spelled out: a clone of the snapshot its spec names, on
      the dataset of its type, under its own name, and the destruction of that clone. */
  lemma CommandsSpelled(cfg: Config, name: string, c: Cell, o: Outcome, x: Inputs)
    requires c.Ok() && c.pc.At? && o != Failed
    ensures var d, spec := cfg.Dataset(c.pc.b.spec.dbType), c.pc.b.spec;
            var cmd := CommandOf(cfg, name, c, Perform(o, x));
            && (c.pc.call.CloneSnapshot?
                <==> cmd == Some(Z.MakeClone(Z.SnapId(d, spec.snapshotRef), Z.CloneId(d, name))))
            && (c.pc.call.RollBack? || c.pc.call.DeleteClone? <==> cmd == Some(Z.DestroyClone(Z.CloneId(d, name))))
            && (!c.pc.call.CloneSnapshot? && !c.pc.call.RollBack? && !c.pc.call.DeleteClone? <==> cmd == None)
  {
  }

  /** The command is carried out, or has nothing left to do; a new clone has the content
      of the snapshot the branch names. */
  ghost predicate CarriedOut(p: Z.Pool, cmd: Z.Command, content: int) {
    var r := Z.Exec(p, cmd).1;
    match cmd
    case MakeClone(snap, _) => r == Z.Exists || (r == Z.Ok && snap in p.snaps && content == p.snaps[snap].content)
    case _ => r == Z.Ok || r == Z.NoSuch
  }

  /** A command of somebody else leaves the clones of this name alone. */
  predicate Elsewhere(name: string, cmd: Z.Command) {
    match cmd
    case MakeClone(_, clone) => clone.name != name
    case DestroyClone(clone) => clone.name != name
    case _ => true
  }

  ghost predicate JointStep(cfg: Config, name: string, j: Joint, e: JointEvent, k: Joint) {
    match e
    case AtPool(cmd) => Elsewhere(name, cmd) && k.cell == j.cell && k.pool == Z.Exec(j.pool, cmd).0
    case AtCell(event) =>
      && Enabled(j.cell, event) && k.cell == Step(cfg, name, j.cell, event)
      && match CommandOf(cfg, name, j.cell, event)
         case None => k.pool == j.pool
         case Some(cmd) =>
           && CarriedOut(j.pool, cmd, Content(event))
           && k.pool == Z.Exec(j.pool, cmd).0
  }

  lemma PoolStepMatches(cfg: Config, name: string, j: Joint, cmd: Z.Command)
    requires Matches(name, j) && Elsewhere(name, cmd)
    ensures Matches(name, j.(pool := Z.Exec(j.pool, cmd).0))
  {
    if cmd.RenameSnap? {
      var q := Z.Exec(j.pool, cmd).0;
      assert forall c | c in q.clones :: c in j.pool.clones && q.clones[c].base == j.pool.clones[c].base;
    }
  }

  /** What a command does to the clones as the cell sees them. */
  ghost predicate ClonesFollow(c: Cell, cmd: Option<Z.Command>, content: int, w: Cell) {
    match cmd
    case None => w.clones == c.clones
    case Some(MakeClone(_, clone)) =>
      && w.clones.Keys == c.clones.Keys + {clone.dataset}
      && (forall d | d in c.clones :: w.clones[d] == c.clones[d])
      && (clone.dataset !in c.clones ==> w.clones[clone.dataset].content == content)
    case Some(DestroyClone(clone)) => w.clones == c.clones - {clone.dataset}
    case _ => true
  }

  /** The steps of a cell that touch clones. */
  lemma ClonesAfter(cfg: Config, name: string, c: Cell, e: Event)
    requires Inv(cfg, name, c) && Enabled(c, e)
    ensures ClonesFollow(c, CommandOf(cfg, name, c, e), Content(e), Step(cfg, name, c, e))
  {
    if e.Perform? && Writes(c.pc.call) {
      WriteEffect(cfg, name, c, e.outcome, e.inputs);
    } else if e.Perform? && (c.pc.call.CloneSnapshot? || c.pc.call.RollBack? || c.pc.call.DeleteClone?) {
      CloneCalls(cfg, name, c, e.outcome, e.inputs);
    } else if e.Perform? {
      ClonesUntouched(cfg, name, c, e.outcome, e.inputs);
    }
  }

  function Content(e: Event): int {
    if e.Perform? then e.inputs.content else 0
  }

  lemma CloneCalls(cfg: Config, name: string, c: Cell, o: Outcome, x: Inputs)
    requires c.Ok() && c.pc.At? && (c.pc.call.CloneSnapshot? || c.pc.call.RollBack? || c.pc.call.DeleteClone?)
    ensures ClonesFollow(c, CommandOf(cfg, name, c, Perform(o, x)), x.content, PerformCall(cfg, name, c, o, x))
  {
  }

  lemma CellStepMatches(cfg: Config, name: string, j: Joint, e: Event, k: Joint)
    requires Matches(name, j) && Inv(cfg, name, j.cell) && JointStep(cfg, name, j, AtCell(e), k)
    ensures Matches(name, k)
  {
    ClonesAfter(cfg, name, j.cell, e);
  }

  ghost predicate StepAt(cfg: Config, name: string, trace: seq<Joint>, events: seq<JointEvent>, i: nat)
    requires |trace| == |events| + 1 && i < |events|
  {
    JointStep(cfg, name, trace[i], events[i], trace[i + 1])
  }

  ghost predicate JointRun(cfg: Config, name: string, trace: seq<Joint>, events: seq<JointEvent>) {
    && |trace| == |events| + 1
    && Inv(cfg, name, trace[0].cell) && Z.Preserved(trace[0].pool) && Matches(name, trace[0])
    && (forall i | 0 <= i < |events| :: StepAt(cfg, name, trace, events, i))
  }

  lemma {:induction false} JointInv(cfg: Config, name: string, trace: seq<Joint>, events: seq<JointEvent>, i: nat)
    requires JointRun(cfg, name, trace, events) && i < |trace|
    ensures Inv(cfg, name, trace[i].cell) && Z.Preserved(trace[i].pool) && Matches(name, trace[i])
  {
    if i == 0 {
    } else {
      JointInv(cfg, name, trace, events, i - 1);
      var j, e := trace[i - 1], events[i - 1];
      assert StepAt(cfg, name, trace, events, i - 1);
      match e
      case AtPool(cmd) =>
        PoolStepMatches(cfg, name, j, cmd);
        Z.ExecPreserves(j.pool, cmd);
      case AtCell(event) =>
        StepInv(cfg, name, j.cell, event);
        CellStepMatches(cfg, name, j, event, trace[i]);
        if CommandOf(cfg, name, j.cell, event).Some? {
          Z.ExecPreserves(j.pool, CommandOf(cfg, name, j.cell, event).value);
        }
    }
  }

  /** However operator, agent and others interleave: a Ready branch that garbage collection
      has not hit has its clone in the pool, and the origin of that clone exists with the
      content the machine recorded when it made the clone. */
  lemma ReadyData(cfg: Config, name: string, trace: seq<Joint>, events: seq<JointEvent>, i: nat)
    requires JointRun(cfg, name, trace, events) && i < |trace|
    requires var c := trace[i].cell; c.Ok() && c.Current().Some? && c.Current().value.Serving() && !c.harmed
    ensures var c, p := trace[i].cell, trace[i].pool; var id := CloneOf(cfg, name, c.Current().value);
            && id in p.clones && p.clones[id].origin in p.snaps
            && id.dataset in c.clones && p.snaps[p.clones[id].origin].content == c.clones[id.dataset].content
  {
    JointInv(cfg, name, trace, events, i);
  }

  /** The content recorded is that of the snapshot the branch names, at the moment the
      clone is made. */
  lemma MadeFromNamedSnapshot(cfg: Config, name: string, j: Joint, e: Event, k: Joint)
    requires Matches(name, j) && Inv(cfg, name, j.cell) && JointStep(cfg, name, j, AtCell(e), k)
    requires j.cell.pc.At? && e.Perform? && cfg.Dataset(j.cell.pc.b.spec.dbType) !in j.cell.clones
    requires cfg.Dataset(j.cell.pc.b.spec.dbType) in k.cell.clones
    ensures var spec := j.cell.pc.b.spec; var d := cfg.Dataset(spec.dbType);
            && Z.SnapId(d, spec.snapshotRef) in j.pool.snaps
            && k.cell.clones[d].content == j.pool.snaps[Z.SnapId(d, spec.snapshotRef)].content
            && Z.CloneId(d, name) in k.pool.clones
            && k.pool.clones[Z.CloneId(d, name)].origin == Z.SnapId(d, spec.snapshotRef)
  {
    ClonesAfter(cfg, name, j.cell, e);
  }

  // ---- where the clone of a branch comes from ----

  /** A step that makes a clone is the clone command of the creation flow. */
  lemma MakingStep(cfg: Config, name: string, c: Cell, e: Event, d: string)
    requires Inv(cfg, name, c) && Enabled(c, e) && d !in c.clones && d in Step(cfg, name, c, e).clones
    ensures e.Perform? && e.outcome != Failed && c.pc.At? && c.pc.call.CloneSnapshot?
    ensures d == cfg.Dataset(c.pc.b.spec.dbType) && !Step(cfg, name, c, e).clones[d].foreign
    ensures var w := Step(cfg, name, c, e);
            w.Ok() && w.Current().Some? && w.Current().value.spec == c.pc.b.spec
  {
    ClonesAfter(cfg, name, c, e);
    assert e.Perform? && c.pc.At? && c.pc.call.CloneSnapshot?;
    MakingCall(cfg, name, c, e.outcome, e.inputs);
  }

  lemma MakingCall(cfg: Config, name: string, c: Cell, o: Outcome, x: Inputs)
    requires PcInv(c) && c.pc.At? && c.pc.call.CloneSnapshot?
    ensures var w, d := PerformCall(cfg, name, c, o, x), cfg.Dataset(c.pc.b.spec.dbType);
            && w.Ok() && w.Current().Some? && w.Current().value.spec == c.pc.b.spec
            && (d in w.clones && d !in c.clones ==> !w.clones[d].foreign)
  {
  }

  /** A branch that is there before and after a step keeps its spec. */
  lemma SpecKept(cfg: Config, name: string, c: Cell, e: Event)
    requires Inv(cfg, name, c) && Enabled(c, e)
    ensures var w := Step(cfg, name, c, e);
            w.Ok() && (c.Current().Some? && w.Current().Some? ==>
                         w.Current().value.spec == c.Current().value.spec)
  {
    StepAddsOne(cfg, name, c, e);
    StepInv(cfg, name, c, e);
  }

  /** The clone was made at step k of the run for a branch with this spec, from the
      snapshot the spec names, and has been there unchanged since. */
  ghost predicate MadeAt(
      cfg: Config, name: string, trace: seq<Joint>, events: seq<JointEvent>, i: nat, d: string, spec: Spec, k: nat)
    requires |trace| == |events| + 1 && i < |trace| && d in trace[i].cell.clones
  {
    && k < i && events[k].AtCell? && events[k].event.Perform? && events[k].event.outcome != Failed
    && trace[k].cell.pc.At? && trace[k].cell.pc.call.CloneSnapshot? && trace[k].cell.pc.b.spec == spec
    && d == cfg.Dataset(spec.dbType)
    && Z.SnapId(d, spec.snapshotRef) in trace[k].pool.snaps
    && trace[k].pool.snaps[Z.SnapId(d, spec.snapshotRef)].content == trace[i].cell.clones[d].content
    && Z.CloneId(d, name) in trace[k + 1].pool.clones
    && trace[k + 1].pool.clones[Z.CloneId(d, name)].origin == Z.SnapId(d, spec.snapshotRef)
    && (forall j | k < j <= i :: d in trace[j].cell.clones && trace[j].cell.clones[d] == trace[i].cell.clones[d])
  }

  lemma MadeNow(cfg: Config, name: string, trace: seq<Joint>, events: seq<JointEvent>, k: nat, d: string)
    requires JointRun(cfg, name, trace, events) && k < |events|
    requires d !in trace[k].cell.clones && d in trace[k + 1].cell.clones
    ensures var c := trace[k + 1].cell;
            && c.Ok() && c.Current().Some?
            && MadeAt(cfg, name, trace, events, k + 1, d, c.Current().value.spec, k)
  {
    var j, e := trace[k], events[k];
    JointInv(cfg, name, trace, events, k);
    assert StepAt(cfg, name, trace, events, k);
    MakingStep(cfg, name, j.cell, e.event, d);
    MadeFromNamedSnapshot(cfg, name, j, e.event, trace[k + 1]);
  }

  /** A clone of the operator that is there before and after a step is the same, and so
      is the spec of its branch. */
  lemma KeptStep(cfg: Config, name: string, c: Cell, e: Event, d: string)
    requires Inv(cfg, name, c) && Enabled(c, e)
    requires d in c.clones && !c.clones[d].foreign && d in Step(cfg, name, c, e).clones
    ensures var w := Step(cfg, name, c, e);
            && w.clones[d] == c.clones[d] && w.Ok() && c.Current().Some? && w.Current().Some?
            && w.Current().value.spec == c.Current().value.spec
  {
    CloneStep(cfg, name, c, e, d);
    OwnedBranch(cfg, c, d);
    StepInv(cfg, name, c, e);
    OwnedBranch(cfg, Step(cfg, name, c, e), d);
    SpecKept(cfg, name, c, e);
  }

  lemma OwnedBranch(cfg: Config, c: Cell, d: string)
    requires CloneInv(cfg, c) && d in c.clones && !c.clones[d].foreign
    ensures c.Ok() && c.Current().Some?
  {
    assert Owned(cfg, c, d);
  }

  lemma KeptAt(cfg: Config, name: string, trace: seq<Joint>, events: seq<JointEvent>, i: nat, d: string)
    requires JointRun(cfg, name, trace, events) && i < |events|
    requires d in trace[i].cell.clones && d in trace[i + 1].cell.clones && !trace[i + 1].cell.clones[d].foreign
    ensures trace[i + 1].cell.clones[d] == trace[i].cell.clones[d]
    ensures var c, w := trace[i].cell, trace[i + 1].cell;
            && c.Ok() && w.Ok() && c.Current().Some? && w.Current().Some?
            && w.Current().value.spec == c.Current().value.spec
  {
    JointInv(cfg, name, trace, events, i);
    assert StepAt(cfg, name, trace, events, i);
    match events[i]
    case AtPool(_) =>
      OwnedBranch(cfg, trace[i].cell, d);
    case AtCell(e) =>
      CloneStep(cfg, name, trace[i].cell, e, d);
      KeptStep(cfg, name, trace[i].cell, e, d);
  }

  /** A clone the operator made was made for the branch that has it now. */
  lemma {:induction false} MadeForBranch(
      cfg: Config, name: string, trace: seq<Joint>, events: seq<JointEvent>, i: nat, d: string) returns (k: nat)
    requires JointRun(cfg, name, trace, events) && Initial(trace[0].cell) && i < |trace|
    requires d in trace[i].cell.clones && !trace[i].cell.clones[d].foreign
    ensures var c := trace[i].cell;
            c.Ok() && c.Current().Some? && MadeAt(cfg, name, trace, events, i, d, c.Current().value.spec, k)
  {
    if i == 0 {
    } else if d in trace[i - 1].cell.clones {
      KeptAt(cfg, name, trace, events, i - 1, d);
      k := MadeForBranch(cfg, name, trace, events, i - 1, d);
    } else {
      k := i - 1;
      MadeNow(cfg, name, trace, events, k, d);
    }
  }

  /** A foreign clone was there before the operator, and has been there unchanged since. */
  lemma {:induction false} ForeignFromStart(
      cfg: Config, name: string, trace: seq<Joint>, events: seq<JointEvent>, i: nat, d: string)
    requires JointRun(cfg, name, trace, events) && i < |trace|
    requires d in trace[i].cell.clones && trace[i].cell.clones[d].foreign
    ensures forall j | 0 <= j <= i :: d in trace[j].cell.clones && trace[j].cell.clones[d] == trace[i].cell.clones[d]
  {
    if i == 0 {
    } else {
      var j, e := trace[i - 1], events[i - 1];
      JointInv(cfg, name, trace, events, i - 1);
      assert StepAt(cfg, name, trace, events, i - 1);
      if e.AtCell? {
        if d in j.cell.clones {
          CloneStep(cfg, name, j.cell, e.event, d);
        } else {
          MakingStep(cfg, name, j.cell, e.event, d);
        }
      }
      ForeignFromStart(cfg, name, trace, events, i - 1, d);
    }
  }

  /** The data a Ready branch that no sweep hit runs on: its clone in the pool has an origin
      whose content is that of the snapshot its own spec names, at the moment its own
      creation made the clone; or the clone was there before the operator and was adopted. */
  lemma ReadyProvenance(cfg: Config, name: string, trace: seq<Joint>, events: seq<JointEvent>, i: nat)
    requires JointRun(cfg, name, trace, events) && Initial(trace[0].cell) && i < |trace|
    requires var c := trace[i].cell; c.Ok() && c.Current().Some? && c.Current().value.Serving() && !c.harmed
    ensures var c, p, b := trace[i].cell, trace[i].pool, trace[i].cell.Current().value;
            var d, id := cfg.Dataset(b.spec.dbType), CloneOf(cfg, name, b);
            && d in c.clones && id in p.clones && p.clones[id].origin in p.snaps
            && p.snaps[p.clones[id].origin].content == c.clones[d].content
            && if c.clones[d].foreign then
                 forall j | 0 <= j <= i :: d in trace[j].cell.clones && trace[j].cell.clones[d] == c.clones[d]
               else
                 exists k :: 0 <= k && MadeAt(cfg, name, trace, events, i, d, b.spec, k)
  {
    ReadyData(cfg, name, trace, events, i);
    var c := trace[i].cell;
    var d := cfg.Dataset(c.Current().value.spec.dbType);
    if c.clones[d].foreign {
      ForeignFromStart(cfg, name, trace, events, i, d);
    } else {
      var k := MadeForBranch(cfg, name, trace, events, i, d);
    }
  }
}
