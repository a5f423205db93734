/** All branches, all garbage collection passes and the pool together: every clone that a
    step of the system makes or destroys is made or destroyed in the pool by the command
    of the agent, and others use the pool in between. */
module SystemPool {
  import opened Common
  import opened Branches
  import opened Lifecycle
  import opened LifecycleInvariant
  import opened System
  import opened Refinement
  import opened Serving
  import Z = Zfs

  datatype Whole = Whole(world: World, pool: Z.Pool)

  datatype WholeEvent =
    | InWorld(event: SysEvent)
    | InPool(command: Z.Command)   // snapshots come and go, and databases write

  /** The clones of every branch in the pool are those of its cell. */
  ghost predicate Tied(w: World, p: Z.Pool) {
    forall n :: Matches(n, Joint(CellOf(w, n), p))
  }

  /** The pool command behind a step of the system that takes effect. */
  function PoolCommand(cfg: Config, w: World, e: SysEvent): Option<Z.Command> {
    match e
    case AtBranch(name, event) => CommandOf(cfg, name, CellOf(w, name), event)
    case SweepClone(id, name, o) =>
      if o == Failed || id !in w.passes then None
      else Some(Z.DestroyClone(Z.CloneId(w.passes[id].dataset, name)))
    case _ => None
  }

  function ContentFor(e: SysEvent): int {
    if e.AtBranch? then Content(e.event) else 0
  }

  ghost predicate WholeStep(cfg: Config, j: Whole, e: WholeEvent, k: Whole) {
    match e
    case InPool(cmd) =>
      !cmd.MakeClone? && !cmd.DestroyClone? && k == Whole(j.world, Z.Exec(j.pool, cmd).0)
    case InWorld(event) =>
      && SysEnabled(j.world, event) && k.world == SysStep(cfg, j.world, event)
      && match PoolCommand(cfg, j.world, event)
         case None => k.pool == j.pool
         case Some(cmd) => CarriedOut(j.pool, cmd, ContentFor(event)) && k.pool == Z.Exec(j.pool, cmd).0
  }

  ghost predicate WholeStepAt(cfg: Config, trace: seq<Whole>, events: seq<WholeEvent>, i: nat)
    requires |trace| == |events| + 1 && i < |events|
  {
    WholeStep(cfg, trace[i], events[i], trace[i + 1])
  }

  ghost predicate WholeRun(cfg: Config, trace: seq<Whole>, events: seq<WholeEvent>) {
    && |trace| == |events| + 1
    && SysInitial(trace[0].world) && Z.Preserved(trace[0].pool) && Tied(trace[0].world, trace[0].pool)
    && (forall i | 0 <= i < |events| :: WholeStepAt(cfg, trace, events, i))
  }

  // ---- world and pool stay together ----

  /** The command of one branch leaves the clones of all other names alone. */
  lemma OwnCommand(cfg: Config, name: string, c: Cell, e: Event, other: string)
    requires other != name && CommandOf(cfg, name, c, e).Some?
    ensures Elsewhere(other, CommandOf(cfg, name, c, e).value)
  {
  }

  lemma BranchTied(cfg: Config, j: Whole, name: string, e: Event, k: Whole)
    requires SysInv(cfg, j.world) && Tied(j.world, j.pool)
    requires WholeStep(cfg, j, InWorld(AtBranch(name, e)), k)
    ensures Tied(k.world, k.pool)
  {
    CellInv(cfg, j.world, name);
    var c, cmd := CellOf(j.world, name), CommandOf(cfg, name, CellOf(j.world, name), e);
    forall n ensures Matches(n, Joint(CellOf(k.world, n), k.pool)) {
      assert Matches(n, Joint(CellOf(j.world, n), j.pool));
      if n == name {
        CellStepMatches(cfg, name, Joint(c, j.pool), e, Joint(Step(cfg, name, c, e), k.pool));
      } else if cmd.Some? {
        OwnCommand(cfg, name, c, e, n);
        PoolStepMatches(cfg, n, Joint(CellOf(j.world, n), j.pool), cmd.value);
      }
    }
  }

  /** Destroying a clone in the pool is sweeping it in the world. */
  lemma SweptTied(cfg: Config, w: World, p: Z.Pool, id: nat, name: string, o: Outcome)
    requires Tied(w, p) && SysEnabled(w, SweepClone(id, name, o)) && o != Failed
    ensures Tied(SysStep(cfg, w, SweepClone(id, name, o)),
                 p.(clones := p.clones - {Z.CloneId(w.passes[id].dataset, name)}))
  {
    var v, d := SysStep(cfg, w, SweepClone(id, name, o)), w.passes[id].dataset;
    forall n ensures Matches(n, Joint(CellOf(v, n), p.(clones := p.clones - {Z.CloneId(d, name)}))) {
      assert Matches(n, Joint(CellOf(w, n), p));
    }
  }

  lemma SameClonesTied(w: World, v: World, p: Z.Pool, q: Z.Pool)
    requires Tied(w, p) && v.cells == w.cells && q.clones == p.clones
    ensures Tied(v, q)
  {
    forall n ensures Matches(n, Joint(CellOf(v, n), q)) {
      assert Matches(n, Joint(CellOf(w, n), p));
    }
  }

  lemma PoolTied(cfg: Config, w: World, p: Z.Pool, cmd: Z.Command)
    requires Tied(w, p) && !cmd.MakeClone? && !cmd.DestroyClone?
    ensures Tied(w, Z.Exec(p, cmd).0)
  {
    forall n ensures Matches(n, Joint(CellOf(w, n), Z.Exec(p, cmd).0)) {
      assert Matches(n, Joint(CellOf(w, n), p));
      PoolStepMatches(cfg, n, Joint(CellOf(w, n), p), cmd);
    }
  }

  lemma WholeStepTied(cfg: Config, j: Whole, e: WholeEvent, k: Whole)
    requires SysInv(cfg, j.world) && Tied(j.world, j.pool) && WholeStep(cfg, j, e, k)
    ensures Tied(k.world, k.pool)
  {
    match e
    case InPool(cmd) => PoolTied(cfg, j.world, j.pool, cmd);
    case InWorld(AtBranch(name, event)) => BranchTied(cfg, j, name, event, k);
    case InWorld(SweepClone(id, name, o)) =>
      if o == Failed {
        SameClonesTied(j.world, k.world, j.pool, k.pool);
      } else {
        SweptTied(cfg, j.world, j.pool, id, name, o);
        SweptPool(j.pool, Z.CloneId(j.world.passes[id].dataset, name));
      }
    case InWorld(_) => SameClonesTied(j.world, k.world, j.pool, k.pool);
  }

  lemma SweptPool(p: Z.Pool, id: Z.CloneId)
    ensures Z.Exec(p, Z.DestroyClone(id)).0 == p.(clones := p.clones - {id})
  {
  }

  lemma {:induction false} WholeInv(cfg: Config, trace: seq<Whole>, events: seq<WholeEvent>, i: nat)
    requires WholeRun(cfg, trace, events) && i < |trace|
    ensures SysInv(cfg, trace[i].world) && Tied(trace[i].world, trace[i].pool) && Z.Preserved(trace[i].pool)
  {
    if i == 0 {
      SysRunInv(cfg, [trace[0].world], [], 0);
    } else {
      WholeInv(cfg, trace, events, i - 1);
      var j, e := trace[i - 1], events[i - 1];
      assert WholeStepAt(cfg, trace, events, i - 1);
      WholeStepTied(cfg, j, e, trace[i]);
      match e
      case InPool(cmd) => Z.ExecPreserves(j.pool, cmd);
      case InWorld(event) =>
        SysStepInv(cfg, j.world, event);
        if PoolCommand(cfg, j.world, event).Some? {
          Z.ExecPreserves(j.pool, PoolCommand(cfg, j.world, event).value);
        }
    }
  }

  // ---- garbage collection on the pool ----

  /** Every sweep among the first n events is sound. */
  ghost predicate SoundOnPool(trace: seq<Whole>, events: seq<WholeEvent>, n: nat)
    requires n <= |events| && |trace| == |events| + 1
  {
    forall k | 0 <= k < n :: SoundAt(trace, events, k)
  }

  ghost predicate SoundAt(trace: seq<Whole>, events: seq<WholeEvent>, k: nat)
    requires k < |events| && |trace| == |events| + 1
  {
    events[k].InWorld? && events[k].event.SweepClone? ==>
      SoundSweep(trace[0].world, trace[k].world, events[k].event.id, events[k].event.name)
  }

  /** The world's part of a run is a run of the system. */
  lemma {:induction false} WorldRun(cfg: Config, trace: seq<Whole>, events: seq<WholeEvent>, i: nat)
    returns (worlds: seq<World>, steps: seq<SysEvent>)
    requires WholeRun(cfg, trace, events) && i < |trace|
    ensures SysRun(cfg, worlds, steps) && worlds[0] == trace[0].world && worlds[|steps|] == trace[i].world
    ensures SoundOnPool(trace, events, i) ==> SoundSweeps(worlds, steps, |steps|)
  {
    if i == 0 {
      worlds, steps := [trace[0].world], [];
    } else {
      worlds, steps := WorldRun(cfg, trace, events, i - 1);
      assert WholeStepAt(cfg, trace, events, i - 1);
      assert SoundOnPool(trace, events, i) ==> SoundAt(trace, events, i - 1) && SoundOnPool(trace, events, i - 1);
      if events[i - 1].InWorld? {
        var e := events[i - 1].event;
        RunThen(cfg, worlds, steps, e);
        if SoundOnPool(trace, events, i) {
          SoundThen(worlds, steps, trace[i].world, e);
        }
        worlds, steps := worlds + [trace[i].world], steps + [e];
      }
    }
  }

  lemma SoundThen(worlds: seq<World>, steps: seq<SysEvent>, w: World, e: SysEvent)
    requires |worlds| == |steps| + 1 && SoundSweeps(worlds, steps, |steps|)
    requires e.SweepClone? ==> SoundSweep(worlds[0], worlds[|steps|], e.id, e.name)
    ensures SoundSweeps(worlds + [w], steps + [e], |steps| + 1)
  {
    var ws, es := worlds + [w], steps + [e];
    forall k | 0 <= k < |steps| + 1 && es[k].SweepClone? ensures SoundSweep(ws[0], ws[k], es[k].id, es[k].name) {
      if k < |steps| { assert steps[k] == es[k]; }
    }
  }

  /** A Ready, unmarked branch runs on its data, in the pool the agent works on, whatever
      operator, users, databases and any number of collection passes are doing, as long as
      sweeps are sound: its clone is there, and the origin of its clone exists with the
      content recorded when the clone was made.  The volume its pod mounts, unless left over
      from an earlier branch of the name, exports that clone and no other. */
  lemma ReadyOnPool(cfg: Config, trace: seq<Whole>, events: seq<WholeEvent>, i: nat, name: string)
    requires WholeRun(cfg, trace, events) && i < |trace| && SoundOnPool(trace, events, i)
    requires var c := CellOf(trace[i].world, name); c.Ok() && c.Current().Some? && c.Current().value.Serving()
    ensures var c, p := CellOf(trace[i].world, name), trace[i].pool; var id := CloneOf(cfg, name, c.Current().value);
            && id in p.clones && p.clones[id].origin in p.snaps
            && id.dataset in c.clones && p.snaps[p.clones[id].origin].content == c.clones[id.dataset].content
    ensures var c, p := CellOf(trace[i].world, name), trace[i].pool; var b := c.Current().value;
            PV in c.objects && (PV !in c.leftover ==>
              var pv := c.objects[PV];
              && pv.PVObject? && pv.nfsServer == cfg.nfsServer && pv.clone == name
              && pv.dataset == cfg.Dataset(b.spec.dbType) && Z.CloneId(pv.dataset, pv.clone) in p.clones)
  {
    WholeInv(cfg, trace, events, i);
    CellInv(cfg, trace[i].world, name);
    CellObjects(cfg, name, CellOf(trace[i].world, name));
    var worlds, steps := WorldRun(cfg, trace, events, i);
    ReadyHasAll(cfg, worlds, steps, |steps|, name);
    assert Matches(name, Joint(CellOf(trace[i].world, name), trace[i].pool));
  }

  /** A sound sweep finds no clone of a branch in the pool: all it can destroy there was
      there before the operator. */
  lemma SweepSparesPool(cfg: Config, trace: seq<Whole>, events: seq<WholeEvent>, i: nat, id: nat, name: string)
    requires WholeRun(cfg, trace, events) && i < |trace|
    requires SoundSweep(trace[0].world, trace[i].world, id, name) && name in trace[i].world.passes[id].todo
    ensures !Exists(trace[i].world, name)
    ensures forall k | k in trace[i].pool.clones && k.name == name :: k in trace[0].pool.clones
  {
    WholeInv(cfg, trace, events, i);
    var worlds, steps := WorldRun(cfg, trace, events, i);
    GcNeverHarms(cfg, worlds, steps, |steps|, id, name);
    assert Matches(name, Joint(CellOf(trace[i].world, name), trace[i].pool));
    assert Matches(name, Joint(CellOf(trace[0].world, name), trace[0].pool));
  }
}
