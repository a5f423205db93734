/** The garbage collection handler of the API server. */
module GcHandler {
  import opened Common
  import opened Branches
  import opened Lifecycle
  import opened System
  import A = Agent
  import G = SnapshotGc
  import S = Sorting
  import Z = Zfs
  import opened Refinement
  import opened SystemPool

  /** How many archives a collection keeps when asked for none or fewer. */
  function KeepCount(requested: int): (k: int)
    ensures k > 0 && (requested > 0 ==> k == requested) && (requested <= 0 ==> k == 5)
  {
    if requested <= 0 then 5 else requested
  }

  /** Events that belong to one pass. */
  predicate OfPass(e: SysEvent, id: nat) {
    match e
    case AtBranch(_, _) => false
    case ListClones(i, _, _) => i == id
    case ListBranches(i, _) => i == id
    case SweepClone(i, _, _) => i == id
    case EndPass(i) => i == id
  }

  /** From position `from` on, the pass has destroyed the clone of this name and been told so. */
  ghost predicate Confirmed(events: seq<SysEvent>, from: nat, id: nat, name: string) {
    exists k :: from <= k < |events| && events[k] == SweepClone(id, name, Done)
  }

  lemma ConfirmedLater(events: seq<SysEvent>, a: nat, b: nat, all: seq<SysEvent>, id: nat, name: string)
    requires a <= b <= |events| && events < all && |all| == |events| + 1 && all[|events|] == EndPass(id)
    requires !Confirmed(events[..b], a, id, name)
    ensures Confirmed(all, a, id, name) <==> Confirmed(events, b, id, name)
  {
    assert forall k | a <= k < b :: events[k] == events[..b][k];
    if Confirmed(events, b, id, name) {
      var k :| b <= k < |events| && events[k] == SweepClone(id, name, Done);
      assert all[k] == SweepClone(id, name, Done);
    }
    if Confirmed(all, a, id, name) {
      var k :| a <= k < |all| && all[k] == SweepClone(id, name, Done);
      assert events[k] == SweepClone(id, name, Done);
    }
  }

  /** One more name tried. */
  lemma ConfirmedStep(some: seq<SysEvent>, all: seq<SysEvent>, from: nat, id: nat, name: string, o: Outcome)
    requires from <= |some| < |all| && some <= all && all[|all| - 1] == SweepClone(id, name, o)
    requires forall k | |some| <= k < |all| - 1 :: !OfPass(all[k], id)
    ensures forall n :: Confirmed(all, from, id, n) <==> Confirmed(some, from, id, n) || (n == name && o == Done)
  {
    assert forall k | 0 <= k < |some| :: some[k] == all[k];
    forall n | Confirmed(some, from, id, n) ensures Confirmed(all, from, id, n) {
      var k :| from <= k < |some| && some[k] == SweepClone(id, n, Done);
      assert all[k] == SweepClone(id, n, Done);
    }
  }

  lemma ConfirmedInNeither(
      before: seq<SysEvent>, some: seq<SysEvent>, all: seq<SysEvent>, id: nat, name: string)
    requires before <= some <= all
    requires !Confirmed(some, |before|, id, name) && !Confirmed(all, |some|, id, name)
    ensures !Confirmed(all, |before|, id, name)
  {
    assert forall k | 0 <= k < |some| :: some[k] == all[k];
  }

  /** A pass confirms nothing while it lists. */
  lemma ConfirmedAtEnd(
      before: seq<SysEvent>, listed: seq<SysEvent>, swept: seq<SysEvent>, all: seq<SysEvent>, id: nat, name: string)
    requires before <= listed <= swept && all == swept + [EndPass(id)]
    requires !Confirmed(listed, |before|, id, name)
    ensures Confirmed(all, |before|, id, name) <==> Confirmed(swept, |listed|, id, name)
  {
    assert swept[..|listed|] == listed;
    ConfirmedLater(swept, |before|, |listed|, all, id, name);
  }

  /** `alone`, of the host, also says that nobody acts on the branches and that the API
      server answers. */
  class K8sBranchHandler {
    const cfg: Config
    const host: A.Host
    var world: World
    ghost var trace: seq<World>
    ghost var events: seq<SysEvent>

    ghost predicate Recorded()
      reads this
    {
      SysRun(cfg, trace, events) && trace[|trace| - 1] == world
    }

    ghost predicate Valid()
      reads this, host
    {
      Recorded() && host.Valid() && (host.alone ==> Tied(world, host.pool))
    }

    constructor (cfg: Config, host: A.Host, world: World)
      requires SysInitial(world) && host.Valid() && (host.alone ==> Tied(world, host.pool))
      ensures Valid() && this.cfg == cfg && this.host == host && this.world == world && events == []
    {
      this.cfg, this.host, this.world, this.trace, this.events := cfg, host, world, [world], [];
    }

    method Take(e: SysEvent)
      requires Recorded() && SysEnabled(world, e)
      modifies this
      ensures Recorded() && world == SysStep(cfg, old(world), e)
      ensures events == old(events) + [e] && trace == old(trace) + [world]
    {
      world := SysStep(cfg, world, e);
      trace, events := trace + [world], events + [e];
    }

    /** Users, the operator and other passes act, any number of times. */
    method Others(id: nat)
      requires Recorded()
      modifies this
      ensures Recorded() && old(events) <= events
      ensures forall k | |old(events)| <= k < |events| :: !OfPass(events[k], id)
      ensures id in old(world).passes <==> id in world.passes
      ensures id in world.passes ==> world.passes[id] == old(world).passes[id]
      ensures host.alone ==> world == old(world)
    {
      var steps: nat := *;
      if host.alone { return; }
      while steps > 0
        invariant Recorded() && old(events) <= events
        invariant forall k | |old(events)| <= k < |events| :: !OfPass(events[k], id)
        invariant id in old(world).passes <==> id in world.passes
        invariant id in world.passes ==> world.passes[id] == old(world).passes[id]
      {
        var e: SysEvent := *;
        if !OfPass(e, id) && SysEnabled(world, e) {
          Take(e);
        }
        steps := steps - 1;
      }
    }

    /** The names with a clone on the dataset of a type, at one instant; none when the agent
        cannot list them, and an error when the agent cannot be reached. */
    method ListZfsClones(id: nat, dbType: string) returns (err: bool, names: seq<string>)
      requires Recorded() && id !in world.passes
      modifies this
      ensures Recorded() && old(events) <= events
      ensures forall n :: !Confirmed(events, |old(events)|, id, n)
      ensures err ==> id !in world.passes && !host.alone
      ensures !err ==>
        && |events| > |old(events)| && events[|events| - 1].ListClones?
        && id in world.passes && world.passes[id].Listed? && world.passes[id].dataset == cfg.Dataset(dbType)
        && Distinct(names) && (forall n :: n in names <==> n in world.passes[id].names)
        && world.passes[id].names == (if events[|events| - 1].complete then Cloned(world, cfg.Dataset(dbType)) else {})
      ensures host.alone ==>
        world.cells == old(world).cells && world.passes[id].names == Cloned(world, cfg.Dataset(dbType))
    {
      Others(id);
      err, names := *, [];
      var complete: bool := *;
      if host.alone { err, complete := false, true; }
      if err { return; }
      Take(ListClones(id, cfg.Dataset(dbType), complete));
      var rest := world.passes[id].names;
      while rest != {}
        invariant rest <= world.passes[id].names && Distinct(names)
        invariant forall n :: n in names <==> n in world.passes[id].names && n !in rest
        decreases |rest|
      {
        var n :| n in rest;
        names := names + [n];
        rest := rest - {n};
      }
    }

    /** The listed names to destroy: those without a branch at one instant, or all of
        them when the listing fails, for its error is discarded. */
    method ListOrphans(id: nat) returns (orphans: set<string>)
      requires Recorded() && id in world.passes && world.passes[id].Listed?
      modifies this
      ensures Recorded() && old(events) <= events
      ensures forall n :: !Confirmed(events, |old(events)|, id, n)
      ensures id in world.passes && world.passes[id].Sweeping? && orphans == world.passes[id].todo
      ensures world.passes[id].dataset == old(world).passes[id].dataset
      ensures orphans <= old(world).passes[id].names
      ensures exists k, complete ::
                && |old(events)| <= k < |events| == |trace| - 1 && events[k] == ListBranches(id, complete)
                && orphans == Orphans(trace[k], old(world).passes[id].names, complete)
      ensures host.alone ==>
        world.cells == old(world).cells && orphans == Orphans(old(world), old(world).passes[id].names, true)
    {
      Others(id);
      var complete: bool := *;
      if host.alone { complete := true; }
      orphans := Orphans(world, world.passes[id].names, complete);
      ghost var k := |events|;
      Take(ListBranches(id, complete));
      assert events[k] == ListBranches(id, complete);
    }

    /** Asks the agent to destroy one listed clone; one that is not there counts as destroyed. */
    method DeleteClone(agent: A.AgentProvider, id: nat, name: string) returns (o: Outcome)
      requires Valid() && agent.host == host
      requires id in world.passes && world.passes[id].Sweeping? && name in world.passes[id].todo
      requires agent.dataset == world.passes[id].dataset
      modifies this, host
      ensures Valid() && |events| > |old(events)| && old(events) <= events
      ensures events[|events| - 1] == SweepClone(id, name, o)
      ensures forall k | |old(events)| <= k < |events| - 1 :: !OfPass(events[k], id)
      ensures id in world.passes
          && world.passes[id] == old(world).passes[id].(todo := old(world).passes[id].todo - {name})
      ensures host.Issues((c: Z.Command) => c == Z.DestroyClone(Z.CloneId(agent.dataset, name)))
      ensures o == Done ==> Z.CloneId(agent.dataset, name) !in host.pool.clones
      ensures host.alone ==>
        && o == Done
        && host.pool == old(host.pool).(clones := old(host.pool).clones - {Z.CloneId(agent.dataset, name)})
    {
      Others(id);
      SysRunInv(cfg, trace, events, |trace| - 1);
      CellInv(cfg, world, name);
      ghost var w, p := world, host.pool;
      var r, _, _ := agent.DeleteClone(name);
      o := Done;
      if r == A.Failure {
        o := *;
        if o == Done { o := Lost; }
      }
      if host.alone { SweptTied(cfg, w, p, id, name, o); }
      Take(SweepClone(id, name, o));
    }

    /** Tries one orphan; `deleted` are those destroyed before it, since event `first` and
        from the pool p. */
    method SweepOrphan(
        agent: A.AgentProvider, id: nat, name: string, ghost first: nat, ghost p: Z.Pool, ghost deleted: seq<string>)
      returns (gone: bool)
      requires Valid() && agent.host == host && first <= |events|
      requires id in world.passes && world.passes[id].Sweeping? && name in world.passes[id].todo
      requires agent.dataset == world.passes[id].dataset
      requires forall n :: n in deleted <==> Confirmed(events, first, id, n)
      requires host.alone ==> host.pool == A.WithoutClones(p, agent.dataset, Elements(deleted))
      modifies this, host
      ensures Valid() && old(events) <= events
      ensures id in world.passes
          && world.passes[id] == old(world).passes[id].(todo := old(world).passes[id].todo - {name})
      ensures forall n :: n in deleted || (n == name && gone) <==> Confirmed(events, first, id, n)
      ensures host.Issues((c: Z.Command) => c == Z.DestroyClone(Z.CloneId(agent.dataset, name)))
      ensures gone ==> Z.CloneId(agent.dataset, name) !in host.pool.clones
      ensures host.alone ==> gone && host.pool == A.WithoutClones(p, agent.dataset, Elements(deleted + [name]))
    {
      ghost var q, tried := host.pool, events;
      var o := DeleteClone(agent, id, name);
      ConfirmedStep(tried, events, first, id, name, o);
      gone := o == Done;
      if host.alone { A.OneMoreWithout(p, q, host.pool, agent.dataset, deleted, name); }
    }

    /** Destroys the listed orphans one by one; a failed destruction is passed over. */
    method SweepOrphans(agent: A.AgentProvider, id: nat, names: seq<string>, orphans: set<string>)
      returns (deleted: seq<string>)
      requires Valid() && agent.host == host
      requires id in world.passes && world.passes[id].Sweeping? && world.passes[id].todo == orphans
      requires agent.dataset == world.passes[id].dataset
      requires Distinct(names) && forall n | n in orphans :: n in names
      modifies this, host
      ensures Valid() && old(events) <= events
      ensures id in world.passes && world.passes[id].Sweeping? && world.passes[id].todo == {}
      ensures Distinct(deleted)
      ensures forall n :: n in deleted <==> Confirmed(events, |old(events)|, id, n)
      ensures host.Issues((c: Z.Command) => c.DestroyClone? && c.clone.dataset == agent.dataset
          && c.clone.name in orphans)
      ensures host.alone ==>
        && Elements(deleted) == orphans
        && host.pool == A.WithoutClones(old(host.pool), agent.dataset, Elements(deleted))
    {
      ghost var first, p := |events|, host.pool;
      deleted := [];
      var i := 0;
      while i < |names|
        invariant 0 <= i <= |names| && Valid() && old(events) <= events && first <= |events|
        invariant id in world.passes && world.passes[id].Sweeping? && agent.dataset == world.passes[id].dataset
        invariant forall n :: n in world.passes[id].todo <==> n in orphans && n !in names[..i]
        invariant Distinct(deleted) && forall n | n in deleted :: n in names[..i]
        invariant forall n :: n in deleted <==> Confirmed(events, first, id, n)
        invariant host.Issues((c: Z.Command) => c.DestroyClone? && c.clone.dataset == agent.dataset
            && c.clone.name in orphans)
        invariant host.alone ==>
          && (forall n :: n in deleted <==> n in orphans && n in names[..i])
          && host.pool == A.WithoutClones(p, agent.dataset, Elements(deleted))
      {
        var name := names[i];
        assert names[..i + 1] == names[..i] + [name] && name !in names[..i];
        if name in orphans {
          var gone := SweepOrphan(agent, id, name, first, p, deleted);
          if gone { deleted := deleted + [name]; }
        }
        i := i + 1;
      }
      assert names[..|names|] == names;
    }

    /** The orphan half of a collection.  Every execution is a run of the machine, the
        names reported are exactly those whose destruction was confirmed, and the pass ends
        with no orphan left untried.  Alone, they are the clones without a branch. */
    method CollectOrphans(agent: A.AgentProvider, id: nat, dbType: string)
      returns (err: bool, deletedClones: seq<string>)
      requires Valid() && agent.host == host && agent.dataset == cfg.Dataset(dbType) && id !in world.passes
      modifies this, host
      ensures Valid() && old(events) <= events && id !in world.passes
      ensures Distinct(deletedClones)
      ensures forall n :: n in deletedClones <==> Confirmed(events, |old(events)|, id, n)
      ensures !err ==> Completed(id)
      ensures host.Issues((c: Z.Command) => c.DestroyClone? && c.clone.dataset == agent.dataset)
      ensures host.alone ==>
        && !err
        && (forall n :: n in deletedClones <==>
              Z.CloneId(agent.dataset, n) in old(host.pool).clones && !Exists(old(world), n))
        && host.pool == A.WithoutClones(old(host.pool), agent.dataset, Elements(deletedClones))
    {
      ghost var before := events;
      deletedClones := [];
      var names, orphans;
      err, names, orphans := FindOrphans(id, dbType);
      if err { return; }
      ghost var listed := events;
      deletedClones := SweepOrphans(agent, id, names, orphans);
      ghost var swept := events;
      Finish(id);
      forall n ensures n in deletedClones <==> Confirmed(events, |before|, id, n) {
        ConfirmedAtEnd(before, listed, swept, events, id, n);
      }
    }

    /** The two listings, clones first. */
    method FindOrphans(id: nat, dbType: string) returns (err: bool, names: seq<string>, orphans: set<string>)
      requires Valid() && id !in world.passes
      modifies this
      ensures Valid() && old(events) <= events
      ensures forall n :: !Confirmed(events, |old(events)|, id, n)
      ensures if err then id !in world.passes && !host.alone
              else
                && id in world.passes && world.passes[id].Sweeping? && world.passes[id].todo == orphans
                && world.passes[id].dataset == cfg.Dataset(dbType)
                && Distinct(names) && (forall n | n in orphans :: n in names)
      ensures host.alone ==>
        forall n :: n in orphans <==> Z.CloneId(cfg.Dataset(dbType), n) in host.pool.clones && !Exists(old(world), n)
    {
      ghost var before, w := events, world;
      orphans := {};
      err, names := ListZfsClones(id, dbType);
      if host.alone { SameClonesTied(w, world, host.pool, host.pool); }
      if err { return; }
      ghost var cloned, v := events, world;
      orphans := ListOrphans(id);
      forall n ensures !Confirmed(events, |before|, id, n) {
        ConfirmedInNeither(before, cloned, events, id, n);
      }
      if host.alone {
        SameClonesTied(v, world, host.pool, host.pool);
        OrphansByPool(v, host.pool, cfg.Dataset(dbType), orphans);
      }
    }

    method Finish(id: nat)
      requires Valid() && id in world.passes && world.passes[id].Sweeping? && world.passes[id].todo == {}
      modifies this
      ensures Valid() && Completed(id) && events == old(events) + [EndPass(id)] && id !in world.passes
    {
      ghost var w := world;
      Take(EndPass(id));
      if host.alone { SameClonesTied(w, world, host.pool, host.pool); }
    }

    /** The pass has just ended with no orphan left untried. */
    ghost predicate Completed(id: nat)
      reads this
    {
      && |trace| == |events| + 1 && |events| > 0 && events[|events| - 1] == EndPass(id)
      && id in trace[|events| - 1].passes && trace[|events| - 1].passes[id].Sweeping?
      && trace[|events| - 1].passes[id].todo == {}
    }

    /** A collection: the orphans, then the archives.  It fails, before touching anything
        or after the orphans, when the agent cannot be reached or snapshots cannot be
        listed.  The archives that go are judged by the pool the orphans have left. */
    method HandleGC(id: nat, dbType: string, keepSnapshots: int)
      returns (err: bool, deletedClones: seq<string>, deletedSnaps: seq<string>, ghost listing: seq<S.Info>,
        ghost swept: seq<Z.Command>)
      requires Valid() && id !in world.passes
      modifies this, host
      ensures Valid() && old(events) <= events && id !in world.passes
      ensures Distinct(deletedClones) && Distinct(deletedSnaps)
      ensures forall n :: n in deletedClones <==> Confirmed(events, |old(events)|, id, n)
      ensures !err ==> Completed(id)
      ensures !err ==>
        exists i :: 0 < |old(host.pools)| <= i + 1 <= |host.pools|
            && A.ListsSnapshots(host.pools[i], cfg.Dataset(dbType), listing)
      ensures host.done == swept + A.SnapCommands(cfg.Dataset(dbType), deletedSnaps)
      ensures err ==> deletedSnaps == []
      ensures host.Issues((c: Z.Command) => Collects(cfg.Dataset(dbType), listing, KeepCount(keepSnapshots), c))
      ensures host.alone ==>
        var d, p := cfg.Dataset(dbType), old(host.pool); var q := A.WithoutClones(p, d, Elements(deletedClones));
        && !err
        && (forall n :: n in deletedClones <==> Z.CloneId(d, n) in p.clones && !Exists(old(world), n))
        && A.ListsSnapshots(q, d, listing)
        && Elements(deletedSnaps) == G.Victims(listing, KeepCount(keepSnapshots), A.Busy(q, d))
        && host.pool == A.Without(q, d, Elements(deletedSnaps))
    {
      deletedSnaps, listing := [], [];
      var agent := new A.AgentProvider(cfg.Dataset(dbType), host);
      err, deletedClones := CollectOrphans(agent, id, dbType);
      swept := host.done;
      assert A.SnapCommands(cfg.Dataset(dbType), []) == [] && swept + [] == swept;
      if err { return; }
      ghost var q := host.pool;
      var ok;
      ok, deletedSnaps, listing := agent.GCSnapshots(KeepCount(keepSnapshots));
      err := !ok;
      if host.alone { SameClonesTied(world, world, q, host.pool); }
    }
  }

  /** The commands of a collection: clones of the dataset go, and archives beyond the
      first `keep` of the listing. */
  predicate Collects(dataset: string, listing: seq<S.Info>, keep: nat, c: Z.Command) {
    || (c.DestroyClone? && c.clone.dataset == dataset)
    || (c.DestroySnap? && c.id.dataset == dataset && c.id.name in G.Victims(listing, keep, {}))
  }

  /** The orphans of the world are the clones in the pool that have no branch. */
  lemma OrphansByPool(w: World, p: Z.Pool, dataset: string, orphans: set<string>)
    requires Tied(w, p) && orphans == Orphans(w, Cloned(w, dataset), true)
    ensures forall n :: n in orphans <==> Z.CloneId(dataset, n) in p.clones && !Exists(w, n)
  {
    forall n ensures n in Cloned(w, dataset) <==> Z.CloneId(dataset, n) in p.clones {
      assert Matches(n, Joint(CellOf(w, n), p));
    }
  }
}
