/** The operations of the ZFS agent as programs over single pool commands.  Between
    any two commands other operations may run commands of their own, and a command
    may fail; `alone` says that neither happens. */
module Agent {
  import opened Common
  import opened Names
  import opened Sorting
  import opened SnapshotGc
  import opened Zfs
  import opened Paths

  /** The machine the pool lives on, shared by the agents of all its datasets. */
  class Host {
    const alone: bool
    var pool: Pool
    ghost var pools: seq<Pool>
    ghost var commands: seq<Command>
    ghost var mine: seq<Command>      // those of the operation under way and of operations before it
    ghost var said: seq<Reply>        // how each of them was answered
    ghost var done: seq<Command>      // those of them that were answered Ok

    /** The pool has only ever been changed by commands, from a state in which every
        clone had its data. */
    ghost predicate Valid()
      reads this
    {
      pools != [] && Executes(pools, commands) && pools[|pools| - 1] == pool && Preserved(pools[0])
    }

    constructor (alone: bool, pool: Pool)
      requires Preserved(pool)
      ensures Valid() && this.alone == alone && this.pool == pool && commands == []
    {
      this.alone, this.pool, this.pools := alone, pool, [pool];
      this.commands, this.mine, this.said, this.done := [], [], [], [];
    }

    /** All the operation has issued are commands it is allowed. */
    twostate predicate Issues(allowed: Command -> bool)
      reads this
    {
      && old(pools) <= pools && old(mine) <= mine
      && forall i | |old(mine)| <= i < |mine| :: allowed(mine[i])
    }

    /** The operation has issued exactly these commands and heard exactly these replies. */
    twostate predicate Talked(commands: seq<Command>, replies: seq<Reply>)
      reads this
    {
      mine == old(mine) + commands && said == old(said) + replies && |commands| == |replies|
    }

    lemma Safe()
      requires Valid()
      ensures Preserved(pool)
    {
      RunPreserves(pools, commands, |pools| - 1);
    }

    /** Carries out a command, or lets it fail. */
    method Carry(cmd: Command) returns (r: Reply)
      requires Valid()
      modifies this
      ensures Valid() && old(pools) <= pools && mine == old(mine) && said == old(said) && done == old(done)
      ensures (pool, r) == Exec(old(pool), cmd) || (!alone && pool == old(pool) && r == Trouble)
    {
      var fails: bool := *;
      if fails && !alone {
        r := Trouble;
      } else {
        var done := Exec(pool, cmd);
        pool, r := done.0, done.1;
      }
      pools, commands := pools + [pool], commands + [cmd];
    }

    /** Other operations run commands. */
    method Others()
      requires Valid()
      modifies this
      ensures Valid() && old(pools) <= pools && mine == old(mine) && said == old(said) && done == old(done)
      ensures alone ==> pool == old(pool)
    {
      var steps: nat := *;
      if alone { return; }
      while steps > 0
        invariant Valid() && old(pools) <= pools && mine == old(mine) && said == old(said) && done == old(done)
      {
        var cmd: Command := *;
        var _ := Carry(cmd);
        steps := steps - 1;
      }
    }

    /** One command of an operation; `before` is the pool it found. */
    method Run(cmd: Command) returns (r: Reply, ghost before: Pool)
      requires Valid()
      modifies this
      ensures Valid() && old(pools) <= pools && mine == old(mine) + [cmd]
      ensures said == old(said) + [r] && done == if r == Ok then old(done) + [cmd] else old(done)
      ensures (pool, r) == Exec(before, cmd) || (!alone && pool == before && r == Trouble)
      ensures alone ==> before == old(pool)
    {
      Others();
      before := pool;
      r := Carry(cmd);
      mine, said := mine + [cmd], said + [r];
      if r == Ok { done := done + [cmd]; }
    }
  }

  /** `zfs list` shows creation times to the minute. */
  function Minute(t: int): int {
    t - t % 60
  }

  function InfoOf(p: Pool, id: SnapId): Info
    requires id in p.snaps
  {
    Info(id.name, Minute(p.snaps[id].created))
  }

  /** `l` lists the snapshots of a dataset, each once. */
  ghost predicate ListsSnapshots(p: Pool, dataset: string, l: seq<Info>) {
    && DistinctNames(l)
    && (forall i | 0 <= i < |l| ::
        SnapId(dataset, l[i].name) in p.snaps
        && l[i] == InfoOf(p, SnapId(dataset, l[i].name)))
    && (forall id | id in p.snaps && id.dataset == dataset :: InfoOf(p, id) in l)
  }

  /** `l` lists the clones of a dataset, each once. */
  ghost predicate ListsClones(p: Pool, dataset: string, l: seq<string>) {
    Distinct(l) && forall n :: n in l <==> CloneId(dataset, n) in p.clones
  }

  /** The names of the snapshots of a dataset that clones depend on. */
  function Busy(p: Pool, dataset: string): set<string> {
    set c | c in p.clones && p.clones[c].origin.dataset == dataset :: p.clones[c].origin.name
  }

  lemma BusyDependents(p: Pool, dataset: string, name: string)
    ensures name in Busy(p, dataset) <==> p.HasDependents(SnapId(dataset, name))
  {
    if name in Busy(p, dataset) {
      var c :| c in p.clones && p.clones[c].origin.dataset == dataset && p.clones[c].origin.name == name;
      assert p.clones[c].origin == SnapId(dataset, name);
    }
  }

  function SnapCommands(dataset: string, names: seq<string>): seq<Command> {
    seq(|names|, i requires 0 <= i < |names| => DestroySnap(SnapId(dataset, names[i])))
  }

  function CloneCommands(dataset: string, names: seq<string>): seq<Command> {
    seq(|names|, i requires 0 <= i < |names| => DestroyClone(CloneId(dataset, names[i])))
  }

  /** What two sweeps in turn have confirmed. */
  lemma SnapCommandsThen(dataset: string, d: seq<Command>, a: seq<string>, e: seq<Command>, b: seq<string>,
      f: seq<Command>)
    requires e == d + SnapCommands(dataset, a) && f == e + SnapCommands(dataset, b)
    ensures f == d + SnapCommands(dataset, a + b)
  {
  }

  datatype Result = Success | NotFound | Failure

  class AgentProvider {
    const dataset: string
    const host: Host

    constructor (dataset: string, host: Host)
      ensures this.dataset == dataset && this.host == host
    {
      this.dataset, this.host := dataset, host;
    }

    function Snapshot(name: string): SnapId { SnapId(dataset, name) }

    function Branch(name: string): CloneId { CloneId(dataset, name) }

    /** `l` was a listing of the snapshots at some instant of the operation. */
    twostate predicate ListedOnce(l: seq<Info>)
      reads host
    {
      exists i :: 0 < |old(host.pools)| <= i + 1 <= |host.pools| && ListsSnapshots(host.pools[i], dataset, l)
    }

    // ---- snapshots ----

    /** The commands that put a snapshot in the place of another. */
    predicate Taking(name: string, stamp: Stamp, now: int, c: Command) {
      c == DestroySnap(Snapshot(name)) || c == RenameSnap(Snapshot(name), ArchiveName(name, stamp))
      || c == TakeSnap(Snapshot(name), now)
    }

    /** Makes room for a snapshot that is to be overwritten: it is destroyed, or archived
        under a stamped name when clones depend on it. */
    method MakeRoom(name: string, stamp: Stamp, ghost now: int) returns (ok: bool, ghost heard: seq<Reply>)
      requires host.Valid()
      modifies host
      ensures host.Valid()
      ensures heard != []
      ensures if heard[0] == Dependents
              then host.Talked([DestroySnap(Snapshot(name)),
                                RenameSnap(Snapshot(name), ArchiveName(name, stamp))], heard)
              else host.Talked([DestroySnap(Snapshot(name))], heard)
      ensures ok <==> if heard[0] == Dependents then heard[1] == Ok else heard[0] == Ok || heard[0] == NoSuch
      ensures host.Issues((c: Command) => Taking(name, stamp, now, c))
      ensures host.alone ==>
        var p, q, id, archive := old(host.pool), host.pool, Snapshot(name), SnapId(dataset, ArchiveName(name, stamp));
        if id in p.snaps && p.HasDependents(id) then
          ok == (archive !in p.snaps) && q == Exec(p, RenameSnap(id, ArchiveName(name, stamp))).0
        else
          ok && q == p.(snaps := p.snaps - {id})
    {
      var id := Snapshot(name);
      var r, _ := host.Run(DestroySnap(id));
      if r != Dependents { return r == NoSuch || r == Ok, [r]; }
      var renamed, _ := host.Run(RenameSnap(id, ArchiveName(name, stamp)));
      ok, heard := renamed == Ok, [r, renamed];
    }

    /** A new snapshot of the current content.  Overwriting one that clones depend on
        archives it under a stamped name.  Whatever else goes on, it succeeds exactly if the
        snapshot command was answered Ok, and that is issued, last, exactly if room had
        been made where that was asked for. */
    method TakeSnapshot(name: string, overwrite: bool, stamp: Stamp, now: int)
      returns (ok: bool, ghost heard: seq<Reply>)
      requires host.Valid()
      modifies host
      ensures host.Valid()
      ensures var destroy, rename, take := DestroySnap(Snapshot(name)),
                  RenameSnap(Snapshot(name), ArchiveName(name, stamp)), TakeSnap(Snapshot(name), now);
              if !overwrite then host.Talked([take], heard) && (ok <==> heard[0] == Ok)
              else
                && heard != []
                && if heard[0] == Dependents then
                     |heard| >= 2 &&
                     if heard[1] == Ok then
                       host.Talked([destroy, rename, take], heard) && (ok <==> heard[2] == Ok)
                     else host.Talked([destroy, rename], heard) && !ok
                   else if heard[0] == Ok || heard[0] == NoSuch then
                     host.Talked([destroy, take], heard) && (ok <==> heard[1] == Ok)
                   else host.Talked([destroy], heard) && !ok
      ensures host.Issues((c: Command) => Taking(name, stamp, now, c))
      ensures host.alone ==> SameElsewhere(old(host.pool), host.pool, dataset)
      ensures host.alone ==>
        var p, q, id, archive := old(host.pool), host.pool, Snapshot(name), Snapshot(ArchiveName(name, stamp));
        var archiving := overwrite && p.HasDependents(id) && id in p.snaps;
        && (ok <==> if archiving then archive !in p.snaps else overwrite || id !in p.snaps)
        && (!ok ==> q == p)
        && q.clones.Keys == p.clones.Keys
        && (ok ==> id in q.snaps && q.snaps[id] == Snap(p.Content(dataset), now))
        && (ok && archiving ==> archive in q.snaps && q.snaps[archive] == p.snaps[id])
        && (forall s | s != id && s != archive ::
            (s in q.snaps <==> s in p.snaps)
            && (s in p.snaps ==> q.snaps[s] == p.snaps[s]))
        && (forall c | c in p.clones ::
              q.clones[c] == if ok && archiving then Moved(p.clones[c], id, archive) else p.clones[c])
    {
      if host.alone { host.Safe(); }
      ghost var p, room := host.pool, host.pool;
      if overwrite {
        ok, heard, room := TakeOver(name, stamp, now);
      } else {
        var r, _ := host.Run(TakeSnap(Snapshot(name), now));
        ok, heard := r == Ok, [r];
      }
      if host.alone && !(overwrite && !ok) { Taken(p, room, name, overwrite, ArchiveName(name, stamp), now); }
    }

    /** The overwriting half; `room` is the pool with room made. */
    method TakeOver(name: string, stamp: Stamp, now: int)
      returns (ok: bool, ghost heard: seq<Reply>, ghost room: Pool)
      requires host.Valid()
      modifies host
      ensures host.Valid()
      ensures var destroy, rename, take := DestroySnap(Snapshot(name)),
                  RenameSnap(Snapshot(name), ArchiveName(name, stamp)), TakeSnap(Snapshot(name), now);
              && heard != []
              && if heard[0] == Dependents then
                   |heard| >= 2 &&
                   if heard[1] == Ok then
                     host.Talked([destroy, rename, take], heard) && (ok <==> heard[2] == Ok)
                   else host.Talked([destroy, rename], heard) && !ok
                 else if heard[0] == Ok || heard[0] == NoSuch then
                   host.Talked([destroy, take], heard) && (ok <==> heard[1] == Ok)
                 else host.Talked([destroy], heard) && !ok
      ensures host.Issues((c: Command) => Taking(name, stamp, now, c))
      ensures host.alone ==>
        var p, q, id, archive := old(host.pool), host.pool, Snapshot(name), SnapId(dataset, ArchiveName(name, stamp));
        if id in p.snaps && p.HasDependents(id) && archive in p.snaps then !ok && q == p
        else
          && room == (if id in p.snaps && p.HasDependents(id)
                      then Exec(p, RenameSnap(id, ArchiveName(name, stamp))).0 else p.(snaps := p.snaps - {id}))
          && q == Exec(room, TakeSnap(id, now)).0 && (ok <==> Exec(room, TakeSnap(id, now)).1 == Ok)
    {
      ok, heard := MakeRoom(name, stamp, now);
      room := host.pool;
      if !ok { return; }
      var r, _ := host.Run(TakeSnap(Snapshot(name), now));
      ok, heard := r == Ok, heard + [r];
    }

    /** What taking a snapshot comes to once there is room for it. */
    lemma Taken(p: Pool, room: Pool, name: string, overwrite: bool, archived: string, now: int)
      requires Preserved(p)
      requires var id, archive := Snapshot(name), Snapshot(archived);
               if !overwrite then room == p
               else if id in p.snaps && p.HasDependents(id) then
                 archive !in p.snaps && room == Exec(p, RenameSnap(id, archived)).0
               else room == p.(snaps := p.snaps - {id})
      ensures var (q, r), id, archive := Exec(room, TakeSnap(Snapshot(name), now)), Snapshot(name), Snapshot(archived);
              var archiving := overwrite && p.HasDependents(id) && id in p.snaps;
              && SameElsewhere(p, q, dataset)
              && (r == Ok <==> overwrite || id !in p.snaps)
              && (r != Ok ==> q == p)
              && q.clones.Keys == p.clones.Keys
              && (r == Ok ==> id in q.snaps && q.snaps[id] == Snap(p.Content(dataset), now))
              && (r == Ok && archiving ==> archive in q.snaps && q.snaps[archive] == p.snaps[id])
              && (forall s | s != id && s != archive ::
                    (s in q.snaps <==> s in p.snaps) && (s in p.snaps ==> q.snaps[s] == p.snaps[s]))
              && (forall c | c in p.clones ::
                    q.clones[c] == if r == Ok && archiving then Moved(p.clones[c], id, archive) else p.clones[c])
    {
    }

    method DeleteSnapshot(name: string) returns (r: Result, ghost heard: Reply)
      requires host.Valid()
      modifies host
      ensures host.Valid()
      ensures host.Talked([DestroySnap(Snapshot(name))], [heard])
      ensures (r == Success <==> heard == Ok) && (r == NotFound <==> heard == NoSuch)
      ensures host.Issues((c: Command) => c == DestroySnap(Snapshot(name)))
      ensures host.done == old(host.done) + SnapCommands(dataset, if r == Success then [name] else [])
      ensures host.alone ==>
        var p, q, id := old(host.pool), host.pool, Snapshot(name);
        && (r == NotFound <==> id !in p.snaps)
        && (r == Success <==> id in p.snaps && !p.HasDependents(id))
        && q == if r == Success then p.(snaps := p.snaps - {id}) else p
    {
      var reply, _ := host.Run(DestroySnap(Snapshot(name)));
      heard := reply;
      r := if reply == Ok then Success else if reply == NoSuch then NotFound else Failure;
    }

    method ListSnapshots() returns (ok: bool, l: seq<Info>)
      requires host.Valid()
      modifies host
      ensures host.Valid() && old(host.pools) <= host.pools && host.mine == old(host.mine)
          && host.said == old(host.said) && host.done == old(host.done)
      ensures ok ==> ListsSnapshots(host.pool, dataset, l)
      ensures ok ==> forall i | 0 <= i < |l| ::
                var id := SnapId(dataset, l[i].name);
                id in host.pool.snaps && l[i].created <= host.pool.snaps[id].created < l[i].created + 60
      ensures host.alone ==> ok && host.pool == old(host.pool)
    {
      host.Others();
      ok, l := *, [];
      if !ok && !host.alone { return; }
      ok := true;
      var rest := set id | id in host.pool.snaps && id.dataset == dataset;
      while rest != {}
        invariant rest <= set id | id in host.pool.snaps && id.dataset == dataset
        invariant DistinctNames(l)
        invariant forall i | 0 <= i < |l| ::
                    var id := SnapId(dataset, l[i].name);
                        id in host.pool.snaps && id !in rest
                        && l[i] == InfoOf(host.pool, id)
        invariant forall id | id in host.pool.snaps && id.dataset == dataset
            && id !in rest :: InfoOf(host.pool, id) in l
        decreases |rest|
      {
        var id :| id in rest;
        l := l + [InfoOf(host.pool, id)];
        rest := rest - {id};
      }
    }

    // ---- clones ----

    /** A clone of a snapshot with its share; an existing clone is left as it is, a new
        one is undone when it cannot be shared. */
    method CreateClone(snapshot: string, name: string)
      returns (ok: bool, path: string, ghost shared: bool, ghost heard: seq<Reply>)
      requires host.Valid()
      modifies host
      ensures host.Valid()
      ensures heard != [] && (ok <==> (heard[0] == Ok || heard[0] == Exists) && shared)
      ensures ok ==> path == "/" + dataset + "/branches/" + name
      ensures if heard[0] == Ok && !shared
              then host.Talked([MakeClone(Snapshot(snapshot), Branch(name)), DestroyClone(Branch(name))], heard)
              else host.Talked([MakeClone(Snapshot(snapshot), Branch(name))], heard)
      ensures host.Issues((c: Command) => c in {MakeClone(Snapshot(snapshot), Branch(name)),
          DestroyClone(Branch(name))})
      ensures host.alone ==> SameElsewhere(old(host.pool), host.pool, dataset)
      ensures host.alone ==>
        var p, q, id := old(host.pool), host.pool, Branch(name);
        && q.snaps == p.snaps
        && (ok <==> Snapshot(snapshot) in p.snaps && shared)
        && (id in p.clones || !ok ==> q.clones == p.clones)
        && (id !in p.clones && ok ==>
              q.clones == p.clones[id := Clone(Snapshot(snapshot), p.snaps[Snapshot(snapshot)].content, p.next)])
    {
      path, shared := "", false;
      var r, _ := host.Run(MakeClone(Snapshot(snapshot), Branch(name)));
      heard := [r];
      if r != Ok && r != Exists { return false, path, shared, heard; }
      var exported: bool := *;
      shared := exported;
      if !exported {
        var on: bool := *;      // what the query of the share property says
        shared := on;
        if !on {
          if r == Ok {
            var undone, _ := host.Run(DestroyClone(Branch(name)));
            heard := heard + [undone];
          }
          return false, path, shared, heard;
        }
      }
      return true, "/" + ClonePath(dataset, name), shared, heard;
    }

    /** A busy clone is tried once more after the server's threads have been released. */
    method DeleteClone(name: string) returns (r: Result, ghost heard: seq<Reply>, ghost busy: bool)
      requires host.Valid()
      modifies host
      ensures host.Valid()
      ensures heard != []
      ensures if heard[0] !in {Ok, NoSuch} && busy
              then host.Talked([DestroyClone(Branch(name)), DestroyClone(Branch(name))], heard)
              else host.Talked([DestroyClone(Branch(name))], heard)
      ensures (r == Success <==> heard[|heard| - 1] == Ok) && (r == NotFound <==> heard == [NoSuch])
      ensures host.Issues((c: Command) => c == DestroyClone(Branch(name)))
      ensures host.done == old(host.done) + CloneCommands(dataset, if r == Success then [name] else [])
      ensures r != Failure ==> Branch(name) !in host.pool.clones
      ensures host.alone ==>
        var p, q, id := old(host.pool), host.pool, Branch(name);
        && r == (if id in p.clones then Success else NotFound)
        && q == p.(clones := p.clones - {id})
    {
      var reply, _ := host.Run(DestroyClone(Branch(name)));
      heard, busy := [reply], false;
      if reply == Ok { return Success, heard, busy; }
      if reply == NoSuch { return NotFound, heard, busy; }
      var held: bool := *;    // whether the refusal says that the clone is busy
      busy := held;
      if !held { return Failure, heard, busy; }
      var again, _ := host.Run(DestroyClone(Branch(name)));
      heard := heard + [again];
      r := if again == Ok then Success else Failure;
    }

    /** The clones of the dataset; a listing that fails counts as empty. */
    method ListClones() returns (l: seq<string>)
      requires host.Valid()
      modifies host
      ensures host.Valid() && old(host.pools) <= host.pools && host.mine == old(host.mine)
          && host.said == old(host.said) && host.done == old(host.done)
      ensures l == [] || ListsClones(host.pool, dataset, l)
      ensures host.alone ==> host.pool == old(host.pool) && ListsClones(host.pool, dataset, l)
    {
      host.Others();
      l := [];
      var fails: bool := *;
      if fails && !host.alone { return; }
      var rest := set id | id in host.pool.clones && id.dataset == dataset;
      while rest != {}
        invariant rest <= set id | id in host.pool.clones && id.dataset == dataset
        invariant Distinct(l)
        invariant forall n :: n in l <==> Branch(n) in host.pool.clones && Branch(n) !in rest
        decreases |rest|
      {
        var id :| id in rest;
        assert id == Branch(id.name) && id.name !in l;
        l := l + [id.name];
        rest := rest - {id};
      }
    }

    // ---- collection and reset ----

    /** The only command the sweep of a sorted group issues. */
    predicate Collecting(g: seq<Info>, keep: nat, c: Command) {
      exists k :: keep <= k < |g| && c == DestroySnap(Snapshot(g[k].name))
    }

    /** The only command a collection issues: it destroys an archive that lies beyond the
        first `keep` of its group. */
    predicate Disposing(listing: seq<Info>, keep: nat, c: Command) {
      c.DestroySnap? && c.id.dataset == dataset && c.id.name in Victims(listing, keep, {})
    }

    lemma CollectingListed(l: seq<Info>, keep: nat, prefix: string)
      requires DistinctNames(l)
      ensures forall c | Collecting(Ranked(l, prefix), keep, c) :: Disposing(l, keep, c)
    {
      var g := Ranked(l, prefix);
      forall k | keep <= k < |g| ensures g[k].name in Victims(l, keep, {}) {
        ExactlyTheOldUnused(l, keep, {}, k, prefix);
      }
    }

    /** Removes one archive unless a clone depends on it; a query for its clones that
        fails counts as none found.  `before` and `removed` say what had been confirmed. */
    method SweepOne(name: string, ghost before: seq<Command>, ghost removed: seq<string>) returns (gone: bool)
      requires host.Valid() && ArchivePrefix(name).Some?
      requires host.done == before + SnapCommands(dataset, removed)
      modifies host
      ensures host.Valid()
      ensures host.Issues((c: Command) => c == DestroySnap(Snapshot(name)))
      ensures host.done == before + SnapCommands(dataset, if gone then removed + [name] else removed)
      ensures host.alone && old(host.pool).HasDependents(Snapshot(name)) ==> host.mine == old(host.mine)
      ensures host.alone ==>
        var p, id := old(host.pool), Snapshot(name);
        && (gone <==> id in p.snaps && !p.HasDependents(id))
        && host.pool == if gone then p.(snaps := p.snaps - {id}) else p
    {
      ghost var done := host.done;
      host.Others();
      var answered: bool := *;
      var busy := (answered || host.alone) && host.pool.HasDependents(Snapshot(name));
      if busy { return false; }
      var r, _ := DeleteSnapshot(name);
      gone := r == Success;
      SnapCommandsThen(dataset, before, removed, done, if gone then [name] else [], host.done);
      assert removed + [] == removed;
    }

    /** Removes from a sorted group what lies beyond the first `keep` and is not in use; a
        snapshot that cannot be removed is passed over. */
    method SweepSorted(g: seq<Info>, keep: nat) returns (removed: seq<string>)
      requires host.Valid() && DistinctNames(g) && forall s | s in g :: ArchivePrefix(s.name).Some?
      modifies host
      ensures host.Valid()
      ensures host.Issues((c: Command) => Collecting(g, keep, c))
      ensures host.done == old(host.done) + SnapCommands(dataset, removed)
      ensures Distinct(removed) && forall n | n in removed :: exists k :: keep <= k < |g| && g[k].name == n
      ensures host.alone && keep <= |g| && (forall s | s in g :: Snapshot(s.name) in old(host.pool).snaps) ==>
        Swept(old(host.pool), host.pool, dataset, g, keep, |g|, removed)
    {
      ghost var p := host.pool;
      ghost var calm := host.alone && forall s | s in g :: Snapshot(s.name) in p.snaps;
      ghost var before := host.done;
      removed := [];
      var i := keep;
      while i < |g|
        invariant keep <= |g| ==> keep <= i <= |g|
        invariant host.Valid() && host.Issues((c: Command) => Collecting(g, keep, c))
        invariant host.done == before + SnapCommands(dataset, removed)
        invariant Distinct(removed)
        invariant forall n | n in removed :: exists k :: keep <= k < i && k < |g| && g[k].name == n
        invariant calm && keep <= |g| ==> Swept(p, host.pool, dataset, g, keep, i, removed)
      {
        var s := g[i];
        assert s in g && s.name !in removed && Collecting(g, keep, DestroySnap(Snapshot(s.name)));
        if calm { SweptDependents(p, host.pool, dataset, g, keep, i, removed); }
        i := i + 1;
        var gone := SweepOne(s.name, before, removed);
        if !gone { continue; }
        removed := removed + [s.name];
      }
    }

    /** Sorts one group, newest first, and removes what lies beyond the first `keep` and
        is not in use. */
    method SweepGroup(group: seq<Info>, keep: nat) returns (removed: seq<string>)
      requires host.Valid() && DistinctNames(group) && forall s | s in group :: ArchivePrefix(s.name).Some?
      modifies host
      ensures host.Valid()
      ensures host.Issues((c: Command) => Collecting(Exchanged(group), keep, c))
      ensures host.done == old(host.done) + SnapCommands(dataset, removed)
      ensures Distinct(removed) && forall n | n in removed :: exists s :: s in group && s.name == n
      ensures host.alone && (forall s | s in group :: Snapshot(s.name) in old(host.pool).snaps) ==>
        var p := old(host.pool);
        && Elements(removed) == GroupVictims(group, keep, Busy(p, dataset))
        && host.pool == Without(p, dataset, Elements(removed))
    {
      ghost var p := host.pool;
      var archives := new Info[|group|](i requires 0 <= i < |group| => group[i]);
      assert archives[..] == group;
      SortByCreatedDesc(archives);
      SortedMembers(group);
      if archives.Length <= keep { return []; }
      removed := SweepSorted(archives[..], keep);
      assert forall k | 0 <= k < archives.Length :: archives[..][k] in group;
      if host.alone && forall s | s in group :: Snapshot(s.name) in p.snaps {
        SweptGroup(group, keep, Busy(p, dataset), removed);
      }
    }

    /** The sweep of one group of a listing, after others; `before` is what had been
        confirmed at the start, `deleted` what the others have removed. */
    method SweepPrefix(
        group: seq<Info>, keep: nat, ghost listing: seq<Info>, ghost prefix: string,
        ghost before: seq<Command>, ghost deleted: seq<string>)
      returns (removed: seq<string>)
      requires host.Valid() && DistinctNames(listing) && group == GroupOf(listing, prefix)
      requires host.done == before + SnapCommands(dataset, deleted)
      requires Distinct(deleted) && forall n | n in deleted :: ArchivePrefix(n) != Some(prefix)
      modifies host
      ensures host.Valid()
      ensures host.Issues((c: Command) => Disposing(listing, keep, c))
      ensures host.done == before + SnapCommands(dataset, deleted + removed)
      ensures Distinct(deleted + removed) && forall n | n in removed :: ArchivePrefix(n) == Some(prefix)
      ensures host.alone && (forall s | s in group :: Snapshot(s.name) in old(host.pool).snaps) ==>
        var p := old(host.pool);
        && Elements(removed) == GroupVictims(group, keep, Busy(p, dataset))
        && host.pool == Without(p, dataset, Elements(removed))
    {
      ghost var done := host.done;
      GroupMembers(listing, prefix);
      CollectingListed(listing, keep, prefix);
      removed := SweepGroup(group, keep);
      SnapCommandsThen(dataset, before, deleted, done, removed, host.done);
      DistinctConcat(deleted, removed);
    }

    /** The sweep of all groups of a listing, in an order nobody promises. */
    method SweepListing(snaps: seq<Info>, keep: nat) returns (deleted: seq<string>)
      requires host.Valid() && DistinctNames(snaps)
      modifies host
      ensures host.Valid()
      ensures host.Issues((c: Command) => Disposing(snaps, keep, c))
      ensures host.done == old(host.done) + SnapCommands(dataset, deleted)
      ensures Distinct(deleted) && forall n | n in deleted :: ArchivePrefix(n).Some?
      ensures host.alone && ListsSnapshots(old(host.pool), dataset, snaps) ==>
        var p := old(host.pool);
        && Elements(deleted) == Victims(snaps, keep, Busy(p, dataset))
        && host.pool == Without(p, dataset, Elements(deleted))
    {
      ghost var p := host.pool;
      ghost var calm := host.alone && ListsSnapshots(p, dataset, snaps);
      ghost var before := host.done;
      deleted := [];
      var groups := GroupArchives(snaps);
      var rest := groups.Keys;
      while rest != {}
        invariant rest <= groups.Keys && host.Valid()
        invariant host.Issues((c: Command) => Disposing(snaps, keep, c))
        invariant host.done == before + SnapCommands(dataset, deleted)
        invariant Distinct(deleted)
        invariant forall n | n in deleted :: ArchivePrefix(n).Some? && ArchivePrefix(n).value !in rest
        invariant calm ==> Collected(p, host.pool, dataset, snaps, keep, deleted, rest)
        decreases |rest|
      {
        var prefix :| prefix in rest;
        if calm { CollectedGroup(p, host.pool, dataset, snaps, keep, deleted, rest, prefix); }
        ghost var q := host.pool;
        var removed := SweepPrefix(groups[prefix], keep, snaps, prefix, before, deleted);
        if calm { CollectedMore(p, q, host.pool, dataset, snaps, keep, deleted, rest, prefix, removed); }
        deleted := deleted + removed;
        rest := rest - {prefix};
      }
      if calm { VictimsGrouped(snaps, keep, Busy(p, dataset), groups.Keys); }
    }

    /** Keeps the newest `keep` archives of every snapshot and those in use.  Whatever else
        goes on, only archives beyond the first `keep` of the listing are ever destroyed,
        and the names returned are those whose destruction was confirmed. */
    method GCSnapshots(keep: nat) returns (ok: bool, deleted: seq<string>, ghost listing: seq<Info>)
      requires host.Valid()
      modifies host
      ensures host.Valid()
      ensures ok ==> ListedOnce(listing)
      ensures host.Issues((c: Command) => ok && Disposing(listing, keep, c))
      ensures forall k | |old(host.mine)| <= k < |host.mine| ::
                && host.mine[k].DestroySnap? && host.mine[k].id.dataset == dataset
                && var n := host.mine[k].id.name;
                   |n| >= 16 && n[|n| - 16] == '-' && n[|n| - 7] == '-' &&
                   forall i | |n| - 15 <= i < |n| && i != |n| - 7 :: '0' <= n[i] <= '9'
      ensures host.done == old(host.done) + SnapCommands(dataset, deleted)
      ensures !ok ==> deleted == []
      ensures Distinct(deleted) && forall n | n in deleted :: ArchivePrefix(n).Some?
      ensures host.alone ==>
        var p := old(host.pool);
        && ok && ListsSnapshots(p, dataset, listing)
        && Elements(deleted) == Victims(listing, keep, Busy(p, dataset))
        && host.pool == Without(p, dataset, Elements(deleted))
    {
      var snaps;
      ok, snaps := ListSnapshots();
      listing := snaps;
      if !ok { return false, [], listing; }
      ghost var at := |host.pools| - 1;
      deleted := SweepListing(snaps, keep);
      assert ListsSnapshots(host.pools[at], dataset, listing);
      forall k | |old(host.mine)| <= k < |host.mine|
        ensures host.mine[k].DestroySnap? && host.mine[k].id.dataset == dataset
        ensures var n := host.mine[k].id.name;
                |n| >= 16 && n[|n| - 16] == '-' && n[|n| - 7] == '-' &&
                forall i | |n| - 15 <= i < |n| && i != |n| - 7 :: '0' <= n[i] <= '9'
      {
        assert Disposing(listing, keep, host.mine[k]);
        VictimStamped(listing, keep, host.mine[k].id.name);
      }
    }

    /** Destroys listed clones in order and stops at the first that is not there. */
    method DestroyClones(clones: seq<string>) returns (ok: bool, ghost n: nat)
      requires host.Valid()
      modifies host
      ensures host.Valid()
      ensures host.Issues((c: Command) => c.DestroyClone? && c.clone.dataset == dataset && c.clone.name in clones)
      ensures n <= |clones| && (ok <==> n == |clones|)
      ensures host.done == old(host.done) + CloneCommands(dataset, clones[..n])
      ensures host.alone && Distinct(clones) ==>
        && n == Leading(old(host.pool), dataset, clones)
        && host.pool == WithoutClones(old(host.pool), dataset, Elements(clones[..n]))
    {
      ghost var p := host.pool;
      var i := 0;
      while i < |clones|
        invariant 0 <= i <= |clones| && host.Valid()
        invariant host.Issues((c: Command) => c.DestroyClone? && c.clone.dataset == dataset && c.clone.name in clones)
        invariant host.done == old(host.done) + CloneCommands(dataset, clones[..i])
        invariant host.alone && Distinct(clones) ==>
          i <= Leading(p, dataset, clones) && host.pool == WithoutClones(p, dataset, Elements(clones[..i]))
      {
        if host.alone && Distinct(clones) { NextLeading(p, dataset, clones, i); }
        assert CloneCommands(dataset, clones[..i + 1]) == CloneCommands(dataset, clones[..i])
            + CloneCommands(dataset, [clones[i]]);
        var r, _, _ := DeleteClone(clones[i]);
        if r != Success { return false, i; }
        i := i + 1;
      }
      assert clones[..i] == clones;
      return true, i;
    }

    /** Destroys listed snapshots in order and stops at the first that will not go. */
    method DestroySnapshots(snaps: seq<Info>) returns (ok: bool, ghost n: nat)
      requires host.Valid()
      modifies host
      ensures host.Valid()
      ensures host.Issues((c: Command) => c.DestroySnap? && c.id.dataset == dataset)
      ensures n <= |snaps| && (ok <==> n == |snaps|)
      ensures host.done == old(host.done) + SnapCommands(dataset, NamesOf(snaps)[..n])
      ensures host.alone && ListsSnapshots(old(host.pool), dataset, snaps) ==>
        var p, q := old(host.pool), host.pool;
        && q.clones == p.clones && SameElsewhere(p, q, dataset)
        && (ok <==> forall s | s in p.snaps && s.dataset == dataset :: !p.HasDependents(s))
        && (ok ==> forall s | s in q.snaps :: s.dataset != dataset)
    {
      ghost var p, before := host.pool, host.done;
      ghost var calm := host.alone && ListsSnapshots(p, dataset, snaps);
      var i := 0;
      while i < |snaps|
        invariant 0 <= i <= |snaps| && host.Valid()
        invariant host.Issues((c: Command) => c.DestroySnap? && c.id.dataset == dataset)
        invariant host.done == before + SnapCommands(dataset, NamesOf(snaps)[..i])
        invariant calm ==> Emptied(p, host.pool, dataset, snaps, i)
      {
        var gone := DestroyListed(snaps, i, p, before);
        if !gone {
          if calm { EmptiedStop(p, host.pool, dataset, snaps, i); }
          return false, i;
        }
        i := i + 1;
      }
      if calm { EmptiedAll(p, host.pool, dataset, snaps); }
      return true, i;
    }

    /** Destroys one of the listed snapshots, those before it being gone from the pool p. */
    method DestroyListed(snaps: seq<Info>, i: nat, ghost p: Pool, ghost before: seq<Command>) returns (gone: bool)
      requires host.Valid() && i < |snaps|
      requires host.done == before + SnapCommands(dataset, NamesOf(snaps)[..i])
      requires host.alone && ListsSnapshots(p, dataset, snaps) ==> Emptied(p, host.pool, dataset, snaps, i)
      modifies host
      ensures host.Valid()
      ensures host.Issues((c: Command) => c.DestroySnap? && c.id.dataset == dataset)
      ensures host.done == before + SnapCommands(dataset, NamesOf(snaps)[..if gone then i + 1 else i])
      ensures host.alone && ListsSnapshots(p, dataset, snaps) ==>
        && Emptied(p, host.pool, dataset, snaps, if gone then i + 1 else i)
        && gone == !p.HasDependents(SnapId(dataset, snaps[i].name))
    {
      ghost var done, name := host.done, snaps[i].name;
      ghost var names := NamesOf(snaps);
      if host.alone && ListsSnapshots(p, dataset, snaps) { EmptiedNext(p, host.pool, dataset, snaps, i); }
      var r, _ := DeleteSnapshot(snaps[i].name);
      gone := r == Success;
      SnapCommandsThen(dataset, before, names[..i], done, if gone then [name] else [], host.done);
      assert names[..i + 1] == names[..i] + [name] && names[..i] + [] == names[..i];
    }

    /** The rest of a reset once the clones have been listed.  Whatever else goes on, it
        succeeds only after the destruction of every listed clone and snapshot has been
        confirmed, and touches no snapshot before that of every clone has.  Undisturbed
        from here on it succeeds exactly if the list is still right: every listed clone is
        there, and no other. */
    method ResetListed(clones: seq<string>)
      returns (ok: bool, ghost snaps: seq<Info>, ghost listed: bool, ghost n: nat, ghost m: nat)
      requires host.Valid()
      modifies host
      ensures host.Valid()
      ensures host.Issues((c: Command) => (c.DestroyClone? || c.DestroySnap?) && Target(c) == dataset)
      ensures listed ==> ListedOnce(snaps)
      ensures n <= |clones| && m <= |snaps| && (m > 0 ==> n == |clones|)
      ensures host.done == old(host.done) + CloneCommands(dataset, clones[..n])
                           + SnapCommands(dataset, NamesOf(snaps)[..m])
      ensures ok <==> n == |clones| && listed && m == |snaps|
      ensures ok ==>
          host.done == old(host.done) + CloneCommands(dataset, clones)
          + SnapCommands(dataset, NamesOf(snaps))
      ensures host.alone && Distinct(clones) ==>
        var p, q := old(host.pool), host.pool;
        && SameElsewhere(p, q, dataset)
        && (ok <==> ListsClones(p, dataset, clones))
        && (ok ==>
              && (forall c | c in q.clones :: c.dataset != dataset)
              && (forall s | s in q.snaps :: s.dataset != dataset))
        && (Leading(p, dataset, clones) < |clones| ==>
              q == WithoutClones(p, dataset, Elements(clones[..Leading(p, dataset, clones)])))
    {
      ghost var p := host.pool;
      host.Safe();
      snaps, listed, m := [], false, 0;
      ok, n := DestroyClones(clones);
      if !ok {
        assert host.alone && Distinct(clones) ==> Branch(clones[n]) !in p.clones && clones[n] in clones;
        assert SnapCommands(dataset, NamesOf(snaps)[..0]) == [];
        return;
      }
      ghost var q := host.pool;
      var l;
      ok, l := ListSnapshots();
      if ok { snaps := l; }
      assert clones[..n] == clones && SnapCommands(dataset, NamesOf(snaps)[..0]) == [];
      if !ok { return; }
      listed := true;
      ghost var at := |host.pools| - 1;
      ok, m := DestroySnapshots(l);
      assert ListsSnapshots(host.pools[at], dataset, snaps);
      assert NamesOf(snaps)[..|snaps|] == NamesOf(snaps);
      if host.alone && Distinct(clones) {
        assert Preserved(q) by { LeadingPreserved(p, dataset, clones, q); }
        UnlistedBusy(p, q, dataset, clones);
      }
    }

    /** Destroys every clone of the dataset, then every snapshot. */
    method ResetDataset() returns (ok: bool, ghost clones: seq<string>, ghost snaps: seq<Info>)
      requires host.Valid()
      modifies host
      ensures host.Valid()
      ensures host.Issues((c: Command) => (c.DestroyClone? || c.DestroySnap?) && Target(c) == dataset)
      ensures ok ==> ListedOnce(snaps)
      ensures ok ==>
          host.done == old(host.done) + CloneCommands(dataset, clones)
          + SnapCommands(dataset, NamesOf(snaps))
      ensures host.alone ==>
        && ok && SameElsewhere(old(host.pool), host.pool, dataset)
        && (forall c | c in host.pool.clones :: c.dataset != dataset)
        && (forall s | s in host.pool.snaps :: s.dataset != dataset)
    {
      var l := ListClones();
      clones := l;
      ghost var listed, n, m;
      ok, snaps, listed, n, m := ResetListed(l);
    }

    /** A reset that meets the operator draining one of the branches the reset has marked,
        between the listing of the clones and their destruction: it fails, and every
        snapshot is left. */
    method ResetMeetsOperator(name: string) returns (ok: bool)
      requires host.Valid() && host.alone && Branch(name) in host.pool.clones
      modifies host
      ensures host.Valid() && !ok && host.pool.snaps == old(host.pool.snaps)
    {
      var clones := ListClones();
      assert name in clones;
      var _, _, _ := DeleteClone(name);
      ghost var p := host.pool;
      ghost var snaps, listed, n, m;
      ok, snaps, listed, n, m := ResetListed(clones);
      assert Leading(p, dataset, clones) < |clones| by {
        var i :| 0 <= i < |clones| && clones[i] == name;
        assert Branch(clones[i]) !in p.clones;
      }
    }
  }

  // ---- resets ----

  function NamesOf(l: seq<Info>): seq<string> {
    seq(|l|, i requires 0 <= i < |l| => l[i].name)
  }

  /** How many of the names, from the first on, are clones of the dataset. */
  function Leading(p: Pool, dataset: string, names: seq<string>): (k: nat)
    ensures k <= |names| && forall i | 0 <= i < k :: CloneId(dataset, names[i]) in p.clones
    ensures k < |names| ==> CloneId(dataset, names[k]) !in p.clones
  {
    if names == [] || CloneId(dataset, names[0]) !in p.clones then 0 else 1 + Leading(p, dataset, names[1..])
  }

  /** The pool without the named clones of a dataset. */
  function WithoutClones(p: Pool, dataset: string, names: set<string>): Pool {
    p.(clones := p.clones - set n | n in names :: CloneId(dataset, n))
  }

  lemma OneMoreWithout(p: Pool, q: Pool, r: Pool, dataset: string, names: seq<string>, name: string)
    requires q == WithoutClones(p, dataset, Elements(names))
    requires r == q.(clones := q.clones - {CloneId(dataset, name)})
    ensures r == WithoutClones(p, dataset, Elements(names + [name]))
  {
    var gone := set n | n in Elements(names) :: CloneId(dataset, n);
    assert Elements(names + [name]) == Elements(names) + {name};
    assert (set n | n in Elements(names + [name]) :: CloneId(dataset, n)) == gone + {CloneId(dataset, name)};
  }

  lemma NextLeading(p: Pool, dataset: string, names: seq<string>, i: nat)
    requires Distinct(names) && i < |names| && i <= Leading(p, dataset, names)
    ensures var q := WithoutClones(p, dataset, Elements(names[..i])); var id := CloneId(dataset, names[i]);
            && (id in q.clones <==> i < Leading(p, dataset, names))
            && q.(clones := q.clones - {id}) == WithoutClones(p, dataset, Elements(names[..i + 1]))
  {
    assert names[..i + 1] == names[..i] + [names[i]];
    assert Elements(names[..i + 1]) == Elements(names[..i]) + {names[i]};
    assert names[i] !in names[..i];
    var gone := set n | n in Elements(names[..i]) :: CloneId(dataset, n);
    assert (set n | n in Elements(names[..i + 1]) :: CloneId(dataset, n)) == gone + {CloneId(dataset, names[i])};
  }

  lemma LeadingPreserved(p: Pool, dataset: string, names: seq<string>, q: Pool)
    requires Preserved(p) && q == WithoutClones(p, dataset, Elements(names))
    ensures Preserved(q)
  {
  }

  /** After the named clones are gone some snapshot is in use exactly if a clone was not named. */
  lemma UnlistedBusy(p: Pool, q: Pool, dataset: string, names: seq<string>)
    requires Distinct(names) && forall n | n in names :: CloneId(dataset, n) in p.clones
    requires q == WithoutClones(p, dataset, Elements(names)) && Preserved(q)
    ensures (forall s | s in q.snaps && s.dataset == dataset :: !q.HasDependents(s)) <==> ListsClones(p, dataset, names)
    ensures ListsClones(p, dataset, names) ==> forall c | c in q.clones :: c.dataset != dataset
  {
    forall c | c in q.clones && c.dataset == dataset
      ensures CloneId(dataset, c.name) in p.clones && c.name !in names
      ensures q.HasDependents(q.clones[c].origin) && q.clones[c].origin in q.snaps
          && q.clones[c].origin.dataset == dataset
    {
      assert c == CloneId(dataset, c.name);
    }
    if n :| CloneId(dataset, n) in p.clones && n !in names {
      assert CloneId(dataset, n) in q.clones;
    }
    if s :| s in q.snaps && s.dataset == dataset && q.HasDependents(s) {
      var c :| c in q.clones && q.clones[c].origin == s;
      assert c.dataset == dataset;
    }
  }

  /** How far the destruction of all snapshots has come. */
  ghost predicate Emptied(p: Pool, q: Pool, dataset: string, l: seq<Info>, i: nat) {
    && i <= |l| && q == Without(p, dataset, Elements(NamesOf(l)[..i]))
    && (forall k | 0 <= k < i :: !p.HasDependents(SnapId(dataset, l[k].name)))
  }

  lemma EmptiedNext(p: Pool, q: Pool, dataset: string, l: seq<Info>, i: nat)
    requires ListsSnapshots(p, dataset, l) && Emptied(p, q, dataset, l, i) && i < |l|
    ensures var id := SnapId(dataset, l[i].name);
            && id in q.snaps && q.HasDependents(id) == p.HasDependents(id)
            && (!p.HasDependents(id) ==> Emptied(p, q.(snaps := q.snaps - {id}), dataset, l, i + 1))
  {
    var names, id := NamesOf(l), SnapId(dataset, l[i].name);
    assert id in p.snaps;
    assert names[..i + 1] == names[..i] + [l[i].name];
    forall k | 0 <= k < i ensures names[k] != l[i].name {
    }
    assert q.(snaps := q.snaps - {id}) == Without(p, dataset, Elements(names[..i + 1]));
  }

  lemma EmptiedStop(p: Pool, q: Pool, dataset: string, l: seq<Info>, i: nat)
    requires ListsSnapshots(p, dataset, l) && Emptied(p, q, dataset, l, i) && i < |l|
    requires p.HasDependents(SnapId(dataset, l[i].name))
    ensures exists s :: s in p.snaps && s.dataset == dataset && p.HasDependents(s)
  {
    assert SnapId(dataset, l[i].name) in p.snaps;
  }

  lemma EmptiedAll(p: Pool, q: Pool, dataset: string, l: seq<Info>)
    requires ListsSnapshots(p, dataset, l) && Emptied(p, q, dataset, l, |l|)
    ensures forall s | s in p.snaps && s.dataset == dataset :: !p.HasDependents(s)
    ensures forall s | s in q.snaps :: s.dataset != dataset
  {
    var names := NamesOf(l);
    assert names[..|l|] == names;
    forall s | s in p.snaps && s.dataset == dataset ensures !p.HasDependents(s) && s.name in names {
      var k :| 0 <= k < |l| && l[k] == InfoOf(p, s);
      assert s == SnapId(dataset, l[k].name) && names[k] == s.name;
    }
    forall s | s in q.snaps ensures s.dataset != dataset {
      assert s.dataset == dataset ==> s == SnapId(dataset, s.name);
    }
  }

  /** The pool without the named snapshots of a dataset. */
  function Without(p: Pool, dataset: string, names: set<string>): Pool {
    p.(snaps := p.snaps - set n | n in names :: SnapId(dataset, n))
  }

  lemma WithoutSame(p: Pool, dataset: string, names: set<string>)
    ensures Busy(Without(p, dataset, names), dataset) == Busy(p, dataset)
    ensures forall n | n !in names ::
        SnapId(dataset, n) in p.snaps
        ==> SnapId(dataset, n) in Without(p, dataset, names).snaps
  {
  }

  lemma WithoutTwice(p: Pool, dataset: string, a: set<string>, b: set<string>)
    ensures Without(Without(p, dataset, a), dataset, b) == Without(p, dataset, a + b)
  {
  }

  /** How far the sweep of a sorted group has come. */
  ghost predicate Swept(p: Pool, q: Pool, dataset: string, g: seq<Info>, keep: nat, i: nat, removed: seq<string>)
    requires keep <= i <= |g|
  {
    && q == Without(p, dataset, Elements(removed))
    && forall k | keep <= k < i :: g[k].name in removed <==> g[k].name !in Busy(p, dataset)
  }

  /** The next snapshot is removed exactly if no clone depends on it. */
  lemma SweptDependents(p: Pool, q: Pool, dataset: string, g: seq<Info>, keep: nat, i: nat, removed: seq<string>)
    requires keep <= i < |g| && Swept(p, q, dataset, g, keep, i, removed) && g[i].name !in removed && DistinctNames(g)
    requires SnapId(dataset, g[i].name) in p.snaps
    ensures SnapId(dataset, g[i].name) in q.snaps
    ensures if q.HasDependents(SnapId(dataset, g[i].name)) then Swept(p, q, dataset, g, keep, i + 1, removed)
            else Swept(p, q.(snaps := q.snaps - {SnapId(dataset, g[i].name)}), dataset, g, keep, i + 1,
                removed + [g[i].name])
  {
    BusyDependents(p, dataset, g[i].name);
    WithoutTwice(p, dataset, Elements(removed), {g[i].name});
    assert Elements(removed + [g[i].name]) == Elements(removed) + {g[i].name};
    assert (set n | n in {g[i].name} :: SnapId(dataset, n)) == {SnapId(dataset, g[i].name)};
    assert q.HasDependents(SnapId(dataset, g[i].name)) == p.HasDependents(SnapId(dataset, g[i].name));
  }

  lemma DistinctConcat(a: seq<string>, b: seq<string>)
    requires Distinct(a) && Distinct(b) && forall n | n in b :: n !in a
    ensures Distinct(a + b)
  {
    forall i, j | 0 <= i < j < |a + b| ensures (a + b)[i] != (a + b)[j] {
      if i < |a| <= j {
        assert b[j - |a|] in b && a[i] in a;
      }
    }
  }

  /** How far the collection has come: the groups outside `rest` are done. */
  ghost predicate Collected(p: Pool, q: Pool, dataset: string, l: seq<Info>, keep: nat, deleted: seq<string>,
      rest: set<string>) {
    && ListsSnapshots(p, dataset, l)
    && q == Without(p, dataset, Elements(deleted))
    && forall n :: n in deleted <==>
         n in Victims(l, keep, Busy(p, dataset)) && ArchivePrefix(n).Some? && ArchivePrefix(n).value !in rest
  }

  /** The next group is still complete. */
  lemma CollectedGroup(p: Pool, q: Pool, dataset: string, l: seq<Info>, keep: nat, deleted: seq<string>,
      rest: set<string>, prefix: string)
    requires Collected(p, q, dataset, l, keep, deleted, rest) && prefix in rest
    ensures forall s | s in GroupOf(l, prefix) :: SnapId(dataset, s.name) in q.snaps
    ensures Busy(q, dataset) == Busy(p, dataset)
  {
    GroupMembers(l, prefix);
    WithoutSame(p, dataset, Elements(deleted));
    forall s | s in GroupOf(l, prefix) ensures SnapId(dataset, s.name) in q.snaps {
      assert s in l && s.name !in deleted;
    }
  }

  lemma CollectedMore(p: Pool, q: Pool, r: Pool, dataset: string, l: seq<Info>, keep: nat, deleted: seq<string>,
                      rest: set<string>, prefix: string, removed: seq<string>)
    requires Collected(p, q, dataset, l, keep, deleted, rest) && prefix in rest
    requires Elements(removed) == GroupVictims(GroupOf(l, prefix), keep, Busy(p, dataset))
    requires r == Without(q, dataset, Elements(removed))
    ensures Collected(p, r, dataset, l, keep, deleted + removed, rest - {prefix})
  {
    WithoutTwice(p, dataset, Elements(deleted), Elements(removed));
    assert Elements(deleted) + Elements(removed) == Elements(deleted + removed);
    GroupVictimsAre(l, keep, Busy(p, dataset), prefix);
    forall n
      ensures n in deleted + removed <==>
        n in Victims(l, keep, Busy(p, dataset)) && ArchivePrefix(n).Some? && ArchivePrefix(n).value !in rest - {prefix}
    {
      assert n in removed <==> n in Elements(removed);
    }
  }

  lemma SweptGroup(group: seq<Info>, keep: nat, busy: set<string>, removed: seq<string>)
    requires forall n | n in removed :: exists k :: keep <= k < |group| && Exchanged(group)[k].name == n
    requires forall k | keep <= k < |group| ::
        Exchanged(group)[k].name in removed
        <==> Exchanged(group)[k].name !in busy
    ensures Elements(removed) == GroupVictims(group, keep, busy)
  {
    var g, late := Exchanged(group), Beyond(Exchanged(group), keep);
    forall n | n in removed ensures n in GroupVictims(group, keep, busy) {
      var k :| keep <= k < |group| && g[k].name == n;
      assert late[k - keep] == g[k];
    }
    forall n | n in GroupVictims(group, keep, busy) ensures n in removed {
      var s :| s in late && s.name !in busy && s.name == n;
      var k :| 0 <= k < |late| && late[k] == s;
      assert g[keep + k] == s;
    }
  }

  lemma VictimsGrouped(l: seq<Info>, keep: nat, busy: set<string>, prefixes: set<string>)
    requires forall p :: p in prefixes <==> GroupOf(l, p) != []
    ensures forall n | n in Victims(l, keep, busy) :: ArchivePrefix(n).Some? && ArchivePrefix(n).value in prefixes
  {
    forall s | s in l && Doomed(l, keep, busy, s) ensures ArchivePrefix(s.name).value in prefixes {
      GroupMembers(l, ArchivePrefix(s.name).value);
    }
  }
}
