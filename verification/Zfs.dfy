/** The ZFS pool under the agent: snapshots, clones, and the commands the agent
    issues.  A snapshot or clone is identified by its dataset and its short name
    (Paths.SnapPathInjective, Paths.ClonePathInjective). */
module Zfs {
  datatype SnapId = SnapId(dataset: string, name: string)
  datatype CloneId = CloneId(dataset: string, name: string)

  datatype Snap = Snap(content: int, created: int)

  /** A clone depends on its origin.  `base` is the content the origin had when the
      clone was made, `serial` tells clones apart that bore the same name in turn. */
  datatype Clone = Clone(origin: SnapId, base: int, serial: nat)

  datatype Pool = Pool(
    snaps: map<SnapId, Snap>,
    clones: map<CloneId, Clone>,
    live: map<string, int>,       // current content of each dataset
    next: nat)                    // the next serial
  {
    function Content(dataset: string): int {
      if dataset in live then live[dataset] else 0
    }

    predicate HasDependents(id: SnapId) {
      exists c | c in clones :: clones[c].origin == id
    }
  }

  datatype Command =
    | TakeSnap(id: SnapId, now: int)
    | DestroySnap(id: SnapId)
    | RenameSnap(id: SnapId, to: string)
    | MakeClone(snap: SnapId, clone: CloneId)
    | DestroyClone(clone: CloneId)
    | WriteData(dataset: string, content: int)   // the database writes

  datatype Reply = Ok | NoSuch | Exists | Dependents | Trouble

  /** The name a clone's origin bears after a rename. */
  function Moved(c: Clone, from: SnapId, to: SnapId): Clone {
    if c.origin == from then c.(origin := to) else c
  }

  /** A command that ZFS carries out or refuses for a reason of its own. */
  function Exec(p: Pool, cmd: Command): (Pool, Reply) {
    match cmd
    case TakeSnap(id, now) =>
      if id in p.snaps then (p, Exists)
      else (p.(snaps := p.snaps[id := Snap(p.Content(id.dataset), now)]), Ok)
    case DestroySnap(id) =>
      if id !in p.snaps then (p, NoSuch)
      else if p.HasDependents(id) then (p, Dependents)
      else (p.(snaps := p.snaps - {id}), Ok)
    case RenameSnap(id, to) =>
      var target := SnapId(id.dataset, to);
      if id !in p.snaps then (p, NoSuch)
      else if target in p.snaps then (p, Exists)
      else (p.(snaps := (p.snaps - {id})[target := p.snaps[id]],
               clones := map c | c in p.clones :: Moved(p.clones[c], id, target)), Ok)
    case MakeClone(snap, clone) =>
      if snap !in p.snaps || snap.dataset != clone.dataset then (p, NoSuch)
      else if clone in p.clones then (p, Exists)
      else (p.(clones := p.clones[clone := Clone(snap, p.snaps[snap].content, p.next)], next := p.next + 1), Ok)
    case DestroyClone(clone) =>
      if clone !in p.clones then (p, NoSuch)
      else (p.(clones := p.clones - {clone}), Ok)
    case WriteData(dataset, content) => (p.(live := p.live[dataset := content]), Ok)
  }

  // ---- data preservation ----

  /** Every clone's origin exists, on its dataset, with the content it had when the
      clone was made. */
  ghost predicate Preserved(p: Pool) {
    && (forall c | c in p.clones ::
          var o := p.clones[c].origin;
          o in p.snaps && p.snaps[o].content == p.clones[c].base && o.dataset == c.dataset)
    && (forall c | c in p.clones :: p.clones[c].serial < p.next)
  }

  lemma ExecPreserves(p: Pool, cmd: Command)
    requires Preserved(p)
    ensures Preserved(Exec(p, cmd).0)
  {
    match cmd
    case DestroySnap(id) =>
      if id in p.snaps && !p.HasDependents(id) {
        assert forall c | c in p.clones :: p.clones[c].origin != id;
      }
    case _ =>
  }

  /** One command leaves a clone it does not destroy the same clone with the same base;
      a serial is never used twice. */
  lemma ExecKeepsClones(p: Pool, cmd: Command)
    requires Preserved(p)
    ensures var q := Exec(p, cmd).0;
            && p.next <= q.next
            && (forall c | c in q.clones ::
                  if q.clones[c].serial < p.next then
                    c in p.clones && p.clones[c].serial == q.clones[c].serial && p.clones[c].base == q.clones[c].base
                  else c !in p.clones)
  {
  }

  /** `pools` is what the commands make of pools[0]; any command may also fail for a
      reason from outside and leave the pool as it was. */
  ghost predicate Executes(pools: seq<Pool>, commands: seq<Command>) {
    && |pools| == |commands| + 1
    && (forall i {:trigger commands[i]} | 0 <= i < |commands| ::
          pools[i + 1] == pools[i] || pools[i + 1] == Exec(pools[i], commands[i]).0)
  }

  lemma {:induction false} RunPreserves(pools: seq<Pool>, commands: seq<Command>, i: nat)
    requires Executes(pools, commands) && Preserved(pools[0]) && i < |pools|
    ensures Preserved(pools[i])
  {
    if i == 0 {
    } else {
      RunPreserves(pools, commands, i - 1);
      ExecPreserves(pools[i - 1], commands[i - 1]);
    }
  }

  /** Data preservation: over any interleaving of the agent's commands, whatever fails,
      a clone seen at two moments of a run was made from the same content, and at both
      its origin exists under its present name with exactly that content. */
  lemma {:induction false} DataPreserved(pools: seq<Pool>, commands: seq<Command>, i: nat, j: nat, c: CloneId)
    requires Executes(pools, commands) && Preserved(pools[0]) && i <= j < |pools|
    requires c in pools[j].clones && pools[j].clones[c].serial < pools[i].next
    ensures c in pools[i].clones && pools[i].clones[c].serial == pools[j].clones[c].serial
    ensures pools[i].clones[c].base == pools[j].clones[c].base
    ensures forall k | k == i || k == j ::
              var o := pools[k].clones[c].origin;
              o in pools[k].snaps && pools[k].snaps[o].content == pools[i].clones[c].base
    ensures pools[i].next <= pools[j].next
    decreases j
  {
    RunPreserves(pools, commands, i);
    RunPreserves(pools, commands, j);
    if i < j {
      RunPreserves(pools, commands, j - 1);
      NextGrows(pools, commands, i, j - 1);
      ExecKeepsClones(pools[j - 1], commands[j - 1]);
      DataPreserved(pools, commands, i, j - 1, c);
    }
  }

  lemma {:induction false} NextGrows(pools: seq<Pool>, commands: seq<Command>, i: nat, j: nat)
    requires Executes(pools, commands) && Preserved(pools[0]) && i <= j < |pools|
    ensures pools[i].next <= pools[j].next
    decreases j
  {
    if i == j {
    } else {
      NextGrows(pools, commands, i, j - 1);
      RunPreserves(pools, commands, j - 1);
      ExecKeepsClones(pools[j - 1], commands[j - 1]);
    }
  }

  // ---- what a snapshot holds ----

  /** Only writes to a dataset change its content. */
  lemma {:induction false} ContentStays(pools: seq<Pool>, commands: seq<Command>, i: nat, j: nat, dataset: string)
    requires Executes(pools, commands) && i <= j < |pools|
    requires forall k | i <= k < j :: !commands[k].WriteData? || commands[k].dataset != dataset
    ensures pools[j].Content(dataset) == pools[i].Content(dataset)
  {
    if i < j {
      ContentStays(pools, commands, i, j - 1, dataset);
      assert !commands[j - 1].WriteData? || commands[j - 1].dataset != dataset;
    }
  }

  /** A snapshot holds what the database of its dataset last wrote before it, and a clone
      made of it then is based on that, whatever else happens in between. */
  lemma SnapshotHoldsLastWrite(
      pools: seq<Pool>, commands: seq<Command>, i: nat, j: nat, id: SnapId, now: int, content: int)
    requires Executes(pools, commands) && i < j < |commands|
    requires commands[i] == WriteData(id.dataset, content) && pools[i + 1] == Exec(pools[i], commands[i]).0
    requires forall k | i < k < j :: !commands[k].WriteData? || commands[k].dataset != id.dataset
    requires commands[j] == TakeSnap(id, now) && Exec(pools[j], commands[j]) == (pools[j + 1], Ok)
    ensures id in pools[j + 1].snaps && pools[j + 1].snaps[id].content == content
    ensures forall clone: CloneId | clone.dataset == id.dataset && clone !in pools[j + 1].clones ::
              var (q, r) := Exec(pools[j + 1], MakeClone(id, clone));
              r == Ok && clone in q.clones && q.clones[clone].origin == id && q.clones[clone].base == content
  {
    ContentStays(pools, commands, i + 1, j, id.dataset);
  }

  // ---- isolation ----

  /** Two pools agree outside one dataset. */
  ghost predicate SameElsewhere(p: Pool, q: Pool, dataset: string) {
    && (forall s: SnapId | s.dataset != dataset ::
          (s in p.snaps <==> s in q.snaps) && (s in p.snaps ==> p.snaps[s] == q.snaps[s]))
    && (forall c: CloneId | c.dataset != dataset ::
          (c in p.clones <==> c in q.clones) && (c in p.clones ==> p.clones[c] == q.clones[c]))
  }

  /** The dataset a command works on. */
  function Target(cmd: Command): string {
    match cmd
    case TakeSnap(id, _) => id.dataset
    case DestroySnap(id) => id.dataset
    case RenameSnap(id, _) => id.dataset
    case MakeClone(_, clone) => clone.dataset
    case DestroyClone(clone) => clone.dataset
    case WriteData(dataset, _) => dataset
  }

  lemma ExecIsolated(p: Pool, cmd: Command)
    requires Preserved(p)
    ensures SameElsewhere(p, Exec(p, cmd).0, Target(cmd))
  {
  }

  /** Commands on one dataset, however many, leave every other dataset alone. */
  lemma {:induction false} RunIsolated(pools: seq<Pool>, commands: seq<Command>, dataset: string, i: nat)
    requires Executes(pools, commands) && Preserved(pools[0]) && i < |pools|
    requires forall k | 0 <= k < |commands| :: Target(commands[k]) == dataset
    ensures SameElsewhere(pools[0], pools[i], dataset)
  {
    if i == 0 {
    } else {
      RunIsolated(pools, commands, dataset, i - 1);
      RunPreserves(pools, commands, i - 1);
      ExecIsolated(pools[i - 1], commands[i - 1]);
    }
  }
}
