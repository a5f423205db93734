/** All branches together, and any number of garbage collection passes over them. */
module System {
  import opened Common
  import opened Branches
  import opened Lifecycle
  import opened LifecycleInvariant
  import opened Convergence
  import T = LifecycleTheorems
  import R = Refinement

  /** A pass of the GC handler: it lists the clones of one dataset, then the
      branches, then destroys the listed clones that had no branch.  `listed` notes how
      long the version log of each name was when the clones were listed, `marks` how long
      that of each orphan was when the branches were. */
  datatype GcPass =
    | Listed(dataset: string, names: set<string>, listed: map<string, nat>)
    | Sweeping(dataset: string, complete: bool, todo: set<string>, listed: map<string, nat>, marks: map<string, nat>)

  datatype World = World(cells: map<string, Cell>, passes: map<nat, GcPass>)

  const EMPTY_CELL := Cell([None], 0, map[], map[], [0], 0, Idle, 0, map[], false)

  function CellOf(w: World, name: string): Cell {
    if name in w.cells then w.cells[name] else EMPTY_CELL
  }

  datatype SysEvent =
    | AtBranch(name: string, event: Event)
    | ListClones(id: nat, dataset: string, complete: bool)   // the agent answers a failed listing with none
    | ListBranches(id: nat, complete: bool)   // the handler discards a listing error
    | SweepClone(id: nat, name: string, outcome: Outcome)
    | EndPass(id: nat)

  predicate SysEnabled(w: World, e: SysEvent) {
    match e
    case AtBranch(name, event) => !event.Sweep? && Enabled(CellOf(w, name), event)
    case ListClones(id, _, _) => id !in w.passes
    case ListBranches(id, _) => id in w.passes && w.passes[id].Listed?
    case SweepClone(id, name, _) =>
      id in w.passes && w.passes[id].Sweeping? && name in w.passes[id].todo && CellOf(w, name).log != []
      && CellOf(w, name).seen < |CellOf(w, name).log|
    case EndPass(id) => id in w.passes
  }

  /** The names with a clone on the dataset. */
  function Cloned(w: World, dataset: string): set<string> {
    set n | n in w.cells && dataset in w.cells[n].clones
  }

  predicate Exists(w: World, name: string) {
    CellOf(w, name).log != [] && CellOf(w, name).log[|CellOf(w, name).log| - 1].Some?
  }

  /** The listed clones that look like orphans: all of them when the listing of the
      branches failed. */
  function Orphans(w: World, names: set<string>, complete: bool): set<string> {
    set n | n in names && !(complete && Exists(w, n))
  }

  function Marks(w: World, names: set<string>): map<string, nat> {
    map n | n in names :: |CellOf(w, n).log|
  }

  function Sweep1(cfg: Config, w: World, id: nat, name: string, o: Outcome): World
    requires SysEnabled(w, SweepClone(id, name, o))
  {
    var p := w.passes[id];
    var cells := if o == Failed then w.cells
                 else w.cells[name := Step(cfg, name, CellOf(w, name), Sweep(p.dataset))];
    World(cells, w.passes[id := p.(todo := p.todo - {name})])
  }

  function SysStep(cfg: Config, w: World, e: SysEvent): World
    requires SysEnabled(w, e)
  {
    match e
    case AtBranch(name, event) => w.(cells := w.cells[name := Step(cfg, name, CellOf(w, name), event)])
    case ListClones(id, dataset, complete) =>
      var names := if complete then Cloned(w, dataset) else {};
      w.(passes := w.passes[id := Listed(dataset, names, Marks(w, names))])
    case ListBranches(id, complete) =>
      var p := w.passes[id];
      var orphans := Orphans(w, p.names, complete);
      w.(passes := w.passes[id := Sweeping(p.dataset, complete, orphans, p.listed, Marks(w, orphans))])
    case SweepClone(id, name, o) => Sweep1(cfg, w, id, name, o)
    case EndPass(id) => w.(passes := w.passes - {id})
  }

  ghost predicate SysInitial(w: World) {
    w.passes == map[] && forall n | n in w.cells :: Initial(w.cells[n])
  }

  // ---- the invariant ----

  /** The orphans of a complete pass had no branch when the branches were listed. */
  ghost predicate PassOk(w: World, p: GcPass) {
    p.Sweeping? ==>
      && p.todo <= p.marks.Keys
      && (forall n | n in p.marks ::
            && 0 < p.marks[n] <= |CellOf(w, n).log|
            && (p.complete ==> CellOf(w, n).log[p.marks[n] - 1] == None))
  }

  ghost predicate SysInv(cfg: Config, w: World) {
    && (forall n | n in w.cells :: Inv(cfg, n, w.cells[n]))
    && (forall id | id in w.passes :: PassOk(w, w.passes[id]))
  }

  lemma CellInv(cfg: Config, w: World, name: string)
    requires SysInv(cfg, w)
    ensures Inv(cfg, name, CellOf(w, name))
  {
    InitialInv(cfg, name, EMPTY_CELL);
  }

  /** Growing version logs keep what a pass has noted. */
  lemma PassKept(w: World, v: World, p: GcPass)
    requires PassOk(w, p)
    requires forall n :: IsPrefix(CellOf(w, n).log, CellOf(v, n).log)
    ensures PassOk(v, p)
  {
    assert forall n :: IsPrefix(CellOf(w, n).log, CellOf(v, n).log);
  }

  lemma OneCellStep(cfg: Config, w: World, name: string, e: Event, cells: map<string, Cell>)
    requires SysInv(cfg, w) && Enabled(CellOf(w, name), e)
    requires cells == w.cells[name := Step(cfg, name, CellOf(w, name), e)]
    ensures SysInv(cfg, w.(cells := cells))
  {
    var v := w.(cells := cells);
    CellInv(cfg, w, name);
    StepInv(cfg, name, CellOf(w, name), e);
    StepLog(cfg, name, CellOf(w, name), e);
    forall n ensures IsPrefix(CellOf(w, n).log, CellOf(v, n).log) {
    }
    forall id | id in v.passes ensures PassOk(v, v.passes[id]) {
      PassKept(w, v, w.passes[id]);
    }
  }

  lemma ListingStep(cfg: Config, w: World, e: SysEvent)
    requires SysInv(cfg, w) && SysEnabled(w, e) && (e.ListClones? || e.ListBranches? || e.EndPass?)
    ensures SysInv(cfg, SysStep(cfg, w, e))
  {
    var v := SysStep(cfg, w, e);
    forall id | id in v.passes ensures PassOk(v, v.passes[id]) {
      if id in w.passes { PassKept(w, v, w.passes[id]); }
      if e.ListBranches? && id == e.id {
        forall n | n in v.passes[id].marks ensures 0 < |CellOf(v, n).log| {
          CellInv(cfg, w, n);
        }
      }
    }
  }

  /** Striking names off the list of a pass. */
  lemma StruckOff(cfg: Config, w: World, id: nat, p: GcPass)
    requires SysInv(cfg, w) && id in w.passes && w.passes[id].Sweeping? && p.Sweeping?
    requires p == w.passes[id].(todo := p.todo) && p.todo <= w.passes[id].todo
    ensures SysInv(cfg, w.(passes := w.passes[id := p]))
  {
    var v := w.(passes := w.passes[id := p]);
    forall i | i in v.passes ensures PassOk(v, v.passes[i]) {
      assert PassOk(w, w.passes[i]);
    }
  }

  lemma SweepStep(cfg: Config, w: World, id: nat, name: string, o: Outcome)
    requires SysInv(cfg, w) && SysEnabled(w, SweepClone(id, name, o))
    ensures SysInv(cfg, Sweep1(cfg, w, id, name, o))
  {
    var cells := if o == Failed then w.cells
                 else w.cells[name := Step(cfg, name, CellOf(w, name), Sweep(w.passes[id].dataset))];
    if o != Failed {
      OneCellStep(cfg, w, name, Sweep(w.passes[id].dataset), cells);
    }
    var p := w.passes[id];
    StruckOff(cfg, w.(cells := cells), id, p.(todo := p.todo - {name}));
  }

  lemma SysStepInv(cfg: Config, w: World, e: SysEvent)
    requires SysInv(cfg, w) && SysEnabled(w, e)
    ensures SysInv(cfg, SysStep(cfg, w, e))
  {
    if e.AtBranch? {
      OneCellStep(cfg, w, e.name, e.event, w.cells[e.name := Step(cfg, e.name, CellOf(w, e.name), e.event)]);
    } else if e.SweepClone? {
      SweepStep(cfg, w, e.id, e.name, e.outcome);
    } else {
      ListingStep(cfg, w, e);
    }
  }

  // ---- runs ----

  ghost predicate SysRun(cfg: Config, trace: seq<World>, events: seq<SysEvent>) {
    && |trace| == |events| + 1
    && SysInitial(trace[0])
    && (forall i {:trigger events[i]} | 0 <= i < |events| ::
          SysEnabled(trace[i], events[i]) && trace[i + 1] == SysStep(cfg, trace[i], events[i]))
  }

  lemma {:induction false} SysRunInv(cfg: Config, trace: seq<World>, events: seq<SysEvent>, i: nat)
    requires SysRun(cfg, trace, events) && i < |trace|
    ensures SysInv(cfg, trace[i])
  {
    if i == 0 {
      forall n | n in trace[0].cells ensures Inv(cfg, n, trace[0].cells[n]) {
        InitialInv(cfg, n, trace[0].cells[n]);
      }
    } else {
      SysRunInv(cfg, trace, events, i - 1);
      SysStepInv(cfg, trace[i - 1], events[i - 1]);
    }
  }

  // ---- garbage collection is safe, and why ----

  /** The branch came into being at or after version `mark`. */
  ghost predicate CreatedSince(c: Cell, mark: nat) {
    exists m :: 0 < mark <= m < |c.log| && c.log[m - 1] == None && c.log[m].Some?
  }

  lemma {:induction false} CreatedAfterAbsence(c: Cell, mark: nat, j: nat, k: nat)
    requires 0 < mark <= j + 1 && j <= k < |c.log| && c.log[j] == None && c.log[k].Some?
    ensures CreatedSince(c, mark)
  {
    if c.log[k - 1] == None {
      assert 0 < mark <= k;
    } else {
      CreatedAfterAbsence(c, mark, j, k - 1);
    }
  }

  /** The clone was there before the operator started. */
  ghost predicate FromStart(w: World, name: string, dataset: string) {
    name in w.cells && dataset in w.cells[name].clones
  }

  /** A clone the operator did not make was there at the start. */
  ghost predicate Origins(start: World, w: World) {
    forall n, d | d in CellOf(w, n).clones && CellOf(w, n).clones[d].foreign :: FromStart(start, n, d)
  }

  /** A name with a listed clone had a branch when it was listed, unless the clone was there
      at the start; the branches are listed after the clones. */
  ghost predicate ListedOk(start: World, w: World, p: GcPass) {
    && (forall n | n in p.listed ::
          && 0 < p.listed[n] <= |CellOf(w, n).log|
          && (FromStart(start, n, p.dataset) || CellOf(w, n).log[p.listed[n] - 1].Some?))
    && (p.Listed? ==> p.names == p.listed.Keys)
    && (p.Sweeping? ==>
          && p.marks.Keys <= p.listed.Keys
          && (forall n | n in p.marks :: p.listed[n] <= p.marks[n]))
  }

  ghost predicate GcInv(start: World, w: World) {
    Origins(start, w) && forall id | id in w.passes :: ListedOk(start, w, w.passes[id])
  }

  /** No step makes a clone foreign. */
  lemma StaysForeign(cfg: Config, name: string, c: Cell, e: Event, d: string)
    requires Inv(cfg, name, c) && Enabled(c, e)
    requires d in Step(cfg, name, c, e).clones && Step(cfg, name, c, e).clones[d].foreign
    ensures d in c.clones && c.clones[d].foreign
  {
    if d in c.clones {
      T.CloneStep(cfg, name, c, e, d);
    } else {
      R.MakingStep(cfg, name, c, e, d);
    }
  }

  lemma ListedKept(start: World, w: World, v: World, p: GcPass)
    requires ListedOk(start, w, p)
    requires forall n :: IsPrefix(CellOf(w, n).log, CellOf(v, n).log)
    ensures ListedOk(start, v, p)
  {
    assert forall n :: IsPrefix(CellOf(w, n).log, CellOf(v, n).log);
  }

  lemma GcCellStep(cfg: Config, start: World, w: World, name: string, e: Event)
    requires SysInv(cfg, w) && GcInv(start, w) && Enabled(CellOf(w, name), e)
    ensures GcInv(start, With(w, name, Step(cfg, name, CellOf(w, name), e)))
  {
    var c, v := CellOf(w, name), With(w, name, Step(cfg, name, CellOf(w, name), e));
    CellInv(cfg, w, name);
    StepLog(cfg, name, c, e);
    forall n, d | d in CellOf(v, n).clones && CellOf(v, n).clones[d].foreign ensures FromStart(start, n, d) {
      if n == name { StaysForeign(cfg, name, c, e, d); }
    }
    forall n ensures IsPrefix(CellOf(w, n).log, CellOf(v, n).log) {
    }
    forall id | id in v.passes ensures ListedOk(start, v, v.passes[id]) {
      ListedKept(start, w, v, w.passes[id]);
    }
  }

  /** A name with a clone has a branch, unless the clone was there at the start. */
  lemma ClonedHasBranch(cfg: Config, start: World, w: World, name: string, dataset: string)
    requires SysInv(cfg, w) && Origins(start, w) && name in Cloned(w, dataset)
    ensures 0 < |CellOf(w, name).log|
    ensures FromStart(start, name, dataset) || Exists(w, name)
  {
    CellInv(cfg, w, name);
    assert !CellOf(w, name).clones[dataset].foreign ==> Owned(cfg, CellOf(w, name), dataset);
  }

  lemma GcListClones(cfg: Config, start: World, w: World, id: nat, dataset: string, complete: bool)
    requires SysInv(cfg, w) && GcInv(start, w) && id !in w.passes
    ensures GcInv(start, SysStep(cfg, w, ListClones(id, dataset, complete)))
  {
    var v := SysStep(cfg, w, ListClones(id, dataset, complete));
    forall i | i in v.passes ensures ListedOk(start, v, v.passes[i]) {
      if i == id {
        forall n | n in v.passes[id].listed
          ensures 0 < v.passes[id].listed[n] <= |CellOf(v, n).log|
          ensures FromStart(start, n, dataset) || CellOf(v, n).log[v.passes[id].listed[n] - 1].Some?
        {
          ClonedHasBranch(cfg, start, w, n, dataset);
        }
      } else {
        ListedKept(start, w, v, w.passes[i]);
      }
    }
  }

  /** The branches are listed with the version logs at least as long as at the listing of
      the clones. */
  lemma ListedThenSweeping(start: World, w: World, p: GcPass, q: GcPass)
    requires ListedOk(start, w, p) && p.Listed? && q.Sweeping?
    requires q.dataset == p.dataset && q.listed == p.listed && q.marks.Keys <= p.names
    requires forall n | n in q.marks :: q.marks[n] == |CellOf(w, n).log|
    ensures ListedOk(start, w, q)
  {
  }

  lemma GcListBranches(cfg: Config, start: World, w: World, id: nat, complete: bool)
    requires GcInv(start, w) && id in w.passes && w.passes[id].Listed?
    ensures GcInv(start, SysStep(cfg, w, ListBranches(id, complete)))
  {
    var v := SysStep(cfg, w, ListBranches(id, complete));
    forall i | i in v.passes ensures ListedOk(start, v, v.passes[i]) {
      assert ListedOk(start, w, w.passes[i]);
      if i == id { ListedThenSweeping(start, v, w.passes[id], v.passes[id]); }
    }
  }

  lemma GcEndPass(cfg: Config, start: World, w: World, id: nat)
    requires GcInv(start, w) && id in w.passes
    ensures GcInv(start, SysStep(cfg, w, EndPass(id)))
  {
    var v := SysStep(cfg, w, EndPass(id));
    forall i | i in v.passes ensures ListedOk(start, v, v.passes[i]) {
      assert ListedOk(start, w, w.passes[i]);
    }
  }

  lemma GcStruckOff(start: World, w: World, id: nat, p: GcPass)
    requires GcInv(start, w) && id in w.passes && w.passes[id].Sweeping? && p.Sweeping?
    requires p == w.passes[id].(todo := p.todo)
    ensures GcInv(start, w.(passes := w.passes[id := p]))
  {
    var v := w.(passes := w.passes[id := p]);
    assert Origins(start, v);
    forall i | i in v.passes ensures ListedOk(start, v, v.passes[i]) {
      assert ListedOk(start, w, w.passes[i]);
    }
  }

  lemma GcSweepStep(cfg: Config, start: World, w: World, id: nat, name: string, o: Outcome)
    requires SysInv(cfg, w) && GcInv(start, w)
    requires SysEnabled(w, SweepClone(id, name, o))
    ensures GcInv(start, Sweep1(cfg, w, id, name, o))
  {
    var p := w.passes[id];
    var u := if o == Failed then w else With(w, name, Step(cfg, name, CellOf(w, name), Sweep(p.dataset)));
    if o != Failed { GcCellStep(cfg, start, w, name, Sweep(p.dataset)); }
    GcStruckOff(start, u, id, p.(todo := p.todo - {name}));
    assert Sweep1(cfg, w, id, name, o) == u.(passes := u.passes[id := p.(todo := p.todo - {name})]);
  }

  lemma GcStepInv(cfg: Config, start: World, w: World, e: SysEvent)
    requires SysInv(cfg, w) && GcInv(start, w) && SysEnabled(w, e)
    ensures GcInv(start, SysStep(cfg, w, e))
  {
    match e
    case AtBranch(name, event) => GcCellStep(cfg, start, w, name, event);
    case ListClones(id, dataset, complete) => GcListClones(cfg, start, w, id, dataset, complete);
    case SweepClone(id, name, o) => GcSweepStep(cfg, start, w, id, name, o);
    case ListBranches(id, complete) => GcListBranches(cfg, start, w, id, complete);
    case EndPass(id) => GcEndPass(cfg, start, w, id);
  }

  lemma {:induction false} GcRunInv(cfg: Config, trace: seq<World>, events: seq<SysEvent>, i: nat)
    requires SysRun(cfg, trace, events) && i < |trace|
    ensures GcInv(trace[0], trace[i])
  {
    if i == 0 {
    } else {
      GcRunInv(cfg, trace, events, i - 1);
      SysRunInv(cfg, trace, events, i - 1);
      GcStepInv(cfg, trace[0], trace[i - 1], events[i - 1]);
    }
  }

  /** The name has had a branch, none at some later version, and has one now. */
  ghost predicate Reused(c: Cell) {
    exists m :: ReusedSince(c, m)
  }

  /** The name had a branch when its version log had length m, has had none since, and has
      one now. */
  ghost predicate ReusedSince(c: Cell, m: nat) {
    && 0 < m < |c.log| && c.log[m - 1].Some? && c.log[|c.log| - 1].Some?
    && exists b :: m <= b < |c.log| - 1 && c.log[b] == None
  }

  /** A clone from before the operator, with no branch of its name when the clones were
      listed. */
  ghost predicate OldOrphan(start: World, w: World, p: GcPass, name: string) {
    var c := CellOf(w, name);
    && FromStart(start, name, p.dataset) && name in p.listed
    && 0 < p.listed[name] <= |c.log| && c.log[p.listed[name] - 1] == None
  }

  /** A pass whose branch listing succeeded is about to destroy a clone whose branch exists.
      Then either the name was reused within the pass: it had a branch when the clones were
      listed, none when the branches were, and has one now.  Or an orphan from before the
      operator was listed, and a branch of its name has been made since. */
  lemma HarmNeedsReuse(cfg: Config, trace: seq<World>, events: seq<SysEvent>, i: nat, id: nat, name: string)
    requires SysRun(cfg, trace, events) && i < |trace|
    requires id in trace[i].passes && trace[i].passes[id].Sweeping? && trace[i].passes[id].complete
    requires name in trace[i].passes[id].todo && Exists(trace[i], name)
    ensures var p, c := trace[i].passes[id], CellOf(trace[i], name);
            && name in p.marks && name in p.listed && CreatedSince(c, p.marks[name])
            && (OldOrphan(trace[0], trace[i], p, name) || (ReusedSince(c, p.listed[name]) && Reused(c)))
  {
    SysRunInv(cfg, trace, events, i);
    GcRunInv(cfg, trace, events, i);
    var p, c := trace[i].passes[id], CellOf(trace[i], name);
    assert PassOk(trace[i], p) && ListedOk(trace[0], trace[i], p);
    ExistsSinceMark(c, p.marks[name]);
    if c.log[p.listed[name] - 1].Some? {
      GoneBetween(c, p.listed[name], p.marks[name]);
    }
  }

  lemma ExistsSinceMark(c: Cell, mark: nat)
    requires 0 < mark <= |c.log| && c.log[mark - 1] == None && c.log[|c.log| - 1].Some?
    ensures CreatedSince(c, mark)
  {
    CreatedAfterAbsence(c, mark, mark - 1, |c.log| - 1);
  }

  lemma GoneBetween(c: Cell, m: nat, k: nat)
    requires 0 < m <= k <= |c.log| && c.log[m - 1].Some? && c.log[k - 1] == None && c.log[|c.log| - 1].Some?
    ensures ReusedSince(c, m) && Reused(c)
  {
    assert m <= k - 1 < |c.log| - 1;
    assert ReusedSince(c, m);
  }

  /** A sweep by a complete pass, of a name not reused within the pass; where it is of an
      orphan from before the operator, no branch of the name has been made since the
      branches were listed. */
  ghost predicate SoundSweep(start: World, w: World, id: nat, name: string) {
    && id in w.passes && w.passes[id].Sweeping? && w.passes[id].complete
    && var p, c := w.passes[id], CellOf(w, name);
       && (name in p.listed ==> !ReusedSince(c, p.listed[name]))
       && (OldOrphan(start, w, p, name) && name in p.marks ==> !CreatedSince(c, p.marks[name]))
  }

  /** So a sound sweep never destroys the clone of a branch, users creating and deleting
      branches as they like while the pass runs: all it can find is a clone that was there
      before the operator. */
  lemma GcNeverHarms(cfg: Config, trace: seq<World>, events: seq<SysEvent>, i: nat, id: nat, name: string)
    requires SysRun(cfg, trace, events) && i < |trace| && SoundSweep(trace[0], trace[i], id, name)
    requires name in trace[i].passes[id].todo
    ensures !Exists(trace[i], name)
    ensures forall d | d in CellOf(trace[i], name).clones :: FromStart(trace[0], name, d)
  {
    if Exists(trace[i], name) {
      HarmNeedsReuse(cfg, trace, events, i, id, name);
      assert false;
    }
    SysRunInv(cfg, trace, events, i);
    GcRunInv(cfg, trace, events, i);
    AbsentFromStart(cfg, trace[0], trace[i], name);
  }

  /** Without a branch a name has no clone but those from before the operator. */
  lemma AbsentFromStart(cfg: Config, start: World, w: World, name: string)
    requires SysInv(cfg, w) && Origins(start, w) && !Exists(w, name)
    ensures forall d | d in CellOf(w, name).clones :: FromStart(start, name, d)
  {
    CellInv(cfg, w, name);
    var c := CellOf(w, name);
    assert forall d | d in c.clones :: !c.clones[d].foreign ==> Owned(cfg, c, d);
  }

  /** Conversely, a pass whose branch listing failed takes every listed clone for an
      orphan, whoever owns it: sweeping destroys it. */
  lemma FailedListingHarms(cfg: Config, w: World, id: nat, dataset: string, name: string)
    requires SysInv(cfg, w) && id !in w.passes && name in w.cells && dataset in w.cells[name].clones
    ensures var listed := SysStep(cfg, w, ListClones(id, dataset, true));
            var swept := SysStep(cfg, listed, ListBranches(id, false));
            && SysEnabled(swept, SweepClone(id, name, Done))
            && dataset !in CellOf(SysStep(cfg, swept, SweepClone(id, name, Done)), name).clones
            && Exists(SysStep(cfg, swept, SweepClone(id, name, Done)), name) == Exists(w, name)
  {
    CellInv(cfg, w, name);
    var listed := SysStep(cfg, w, ListClones(id, dataset, true));
    assert listed.cells == w.cells && listed.passes[id].Listed? && name in listed.passes[id].names;
    var swept := SysStep(cfg, listed, ListBranches(id, false));
    assert swept.cells == w.cells && swept.passes[id].Sweeping? && name in swept.passes[id].todo;
    SweepTakes(cfg, swept, id, name);
  }

  /** A sweep takes the clone and leaves the branch. */
  lemma SweepTakes(cfg: Config, w: World, id: nat, name: string)
    requires SysEnabled(w, SweepClone(id, name, Done)) && name in w.cells
    ensures var v := SysStep(cfg, w, SweepClone(id, name, Done));
            w.passes[id].dataset !in CellOf(v, name).clones && Exists(v, name) == Exists(w, name)
  {
  }

  /** Every sweep among the first n events is sound. */
  ghost predicate SoundSweeps(trace: seq<World>, events: seq<SysEvent>, n: nat)
    requires n <= |events| && |trace| == |events| + 1
  {
    forall k {:trigger events[k]} | 0 <= k < n && events[k].SweepClone? ::
      SoundSweep(trace[0], trace[k], events[k].id, events[k].name)
  }

  /** Only a sweep over a branch that exists does harm. */
  lemma StepHarm(cfg: Config, name: string, c: Cell, e: Event)
    requires Inv(cfg, name, c) && Enabled(c, e) && !c.harmed && (e.Sweep? ==> c.Current().None?)
    ensures !Step(cfg, name, c, e).harmed
  {
    if e.Perform? {
      if Writes(c.pc.call) {
        WriteEffect(cfg, name, c, e.outcome, e.inputs);
      } else {
        EffectPc(cfg, name, c, e.outcome, e.inputs);
      }
    }
  }

  /** While all sweeps are sound, garbage collection has harmed no branch. */
  lemma {:induction false} NeverHarmed(cfg: Config, trace: seq<World>, events: seq<SysEvent>, i: nat, name: string)
    requires SysRun(cfg, trace, events) && i < |trace| && SoundSweeps(trace, events, i)
    ensures !CellOf(trace[i], name).harmed
  {
    if i == 0 {
    } else {
      NeverHarmed(cfg, trace, events, i - 1, name);
      var w, e := trace[i - 1], events[i - 1];
      SysRunInv(cfg, trace, events, i - 1);
      if e.SweepClone? && e.name == name {
        GcNeverHarms(cfg, trace, events, i - 1, e.id, name);
      }
      SysStepHarm(cfg, w, e, name);
    }
  }

  lemma SysStepHarm(cfg: Config, w: World, e: SysEvent, name: string)
    requires SysInv(cfg, w) && SysEnabled(w, e) && !CellOf(w, name).harmed
    requires e.SweepClone? && e.name == name ==> !Exists(w, name)
    ensures !CellOf(SysStep(cfg, w, e), name).harmed
  {
    CellInv(cfg, w, name);
    if e.AtBranch? && e.name == name {
      StepHarm(cfg, name, CellOf(w, name), e.event);
    } else if e.SweepClone? && e.name == name {
      StepHarm(cfg, name, CellOf(w, name), Sweep(w.passes[e.id].dataset));
    }
  }

  /** In a run whose sweeps are sound a Ready, unmarked branch has its clone and all it
      needs, whatever garbage collection has been doing. */
  lemma ReadyHasAll(cfg: Config, trace: seq<World>, events: seq<SysEvent>, i: nat, name: string)
    requires SysRun(cfg, trace, events) && i < |trace| && SoundSweeps(trace, events, i)
    requires var c := CellOf(trace[i], name); c.Ok() && c.Current().Some? && c.Current().value.Serving()
    ensures var c := CellOf(trace[i], name); var b := c.Current().value;
            && cfg.Dataset(b.spec.dbType) in c.clones
            && Needed(cfg, b.spec.dbType) <= c.objects.Keys
            && c.portSeen < |c.ports| && b.status.externalPort == c.ports[c.portSeen] > 0
  {
    SysRunInv(cfg, trace, events, i);
    CellInv(cfg, trace[i], name);
    NeverHarmed(cfg, trace, events, i, name);
  }

  // ---- continuations of a run ----

  lemma RunThen(cfg: Config, trace: seq<World>, events: seq<SysEvent>, e: SysEvent)
    requires SysRun(cfg, trace, events) && SysEnabled(trace[|events|], e)
    ensures SysRun(cfg, trace + [SysStep(cfg, trace[|events|], e)], events + [e])
  {
  }

  /** The world with one cell replaced. */
  function With(w: World, name: string, c: Cell): World {
    w.(cells := w.cells[name := c])
  }

  /** A run extended by steps of one branch. */
  ghost predicate Continues(cfg: Config, trace: seq<World>, events: seq<SysEvent>, longer: seq<World>,
      more: seq<SysEvent>) {
    && SysRun(cfg, longer, more) && trace <= longer && events <= more
  }

  /** The pass of one branch runs to its end while everything else stands still. */
  lemma {:induction false} RunFinished(cfg: Config, trace: seq<World>, events: seq<SysEvent>, name: string, x: Inputs)
    returns (longer: seq<World>, more: seq<SysEvent>)
    requires SysRun(cfg, trace, events) && name in trace[|events|].cells && trace[|events|].cells[name].Ok()
    ensures Continues(cfg, trace, events, longer, more)
    ensures longer[|more|] == With(trace[|events|], name, Finished(cfg, name, trace[|events|].cells[name], x))
    decreases PcRank(trace[|events|].cells[name].pc)
  {
    var w := trace[|events|];
    var c := w.cells[name];
    if c.pc.Idle? {
      assert w.cells[name := c] == w.cells;
      longer, more := trace, events;
    } else {
      var e := AtBranch(name, Perform(Done, x));
      AdvanceRank(cfg, name, c, x);
      RunThen(cfg, trace, events, e);
      longer, more := RunFinished(cfg, trace + [SysStep(cfg, w, e)], events + [e], name, x);
    }
  }

  lemma RunPass(cfg: Config, trace: seq<World>, events: seq<SysEvent>, name: string, x: Inputs)
    returns (longer: seq<World>, more: seq<SysEvent>)
    requires SysRun(cfg, trace, events) && name in trace[|events|].cells
    requires trace[|events|].cells[name].Ok() && trace[|events|].cells[name].pc.Idle?
    ensures Continues(cfg, trace, events, longer, more)
    ensures longer[|more|] == With(trace[|events|], name, Pass(cfg, name, trace[|events|].cells[name], x))
  {
    var w := trace[|events|];
    var e := AtBranch(name, Read(w.cells[name].Top(), x.now));
    RunThen(cfg, trace, events, e);
    longer, more := RunFinished(cfg, trace + [SysStep(cfg, w, e)], events + [e], name, x);
  }

  /** A branch is made and two passes bring it up; it has its clone. */
  lemma RunCreated(cfg: Config, trace: seq<World>, events: seq<SysEvent>, name: string, spec: Spec, x: Inputs)
    returns (longer: seq<World>, more: seq<SysEvent>)
    requires SysRun(cfg, trace, events) && Absent(trace[|events|], name)
    requires cfg.Supported(spec.dbType) && PortsAssigned(CellOf(trace[|events|], name), x)
    ensures Continues(cfg, trace, events, longer, more)
    ensures var v := longer[|more|];
            && name in v.cells && v == With(trace[|events|], name, v.cells[name])
            && Up(cfg, v.cells[name], spec)
  {
    var w := trace[|events|];
    SysRunInv(cfg, trace, events, |events|);
    CellInv(cfg, w, name);
    CreatedUp(cfg, name, CellOf(w, name), spec, x);
    longer, more := RunBranchStep(cfg, trace, events, name, UserCreate(spec));
    longer, more := RunTwoPasses(cfg, longer, more, name, x);
  }

  lemma RunBranchStep(cfg: Config, trace: seq<World>, events: seq<SysEvent>, name: string, e: Event)
    returns (longer: seq<World>, more: seq<SysEvent>)
    requires SysRun(cfg, trace, events) && !e.Sweep? && Enabled(CellOf(trace[|events|], name), e)
    ensures Continues(cfg, trace, events, longer, more)
    ensures var w := trace[|events|];
            longer[|more|] == With(w, name, Step(cfg, name, CellOf(w, name), e))
  {
    var v := SysStep(cfg, trace[|events|], AtBranch(name, e));
    RunThen(cfg, trace, events, AtBranch(name, e));
    longer, more := trace + [v], events + [AtBranch(name, e)];
  }

  lemma RunTwoPasses(cfg: Config, trace: seq<World>, events: seq<SysEvent>, name: string, x: Inputs)
    returns (longer: seq<World>, more: seq<SysEvent>)
    requires SysRun(cfg, trace, events) && name in trace[|events|].cells
    requires trace[|events|].cells[name].Ok() && trace[|events|].cells[name].pc.Idle?
    ensures Continues(cfg, trace, events, longer, more)
    ensures var c := trace[|events|].cells[name];
            longer[|more|] == With(trace[|events|], name, Pass(cfg, name, Pass(cfg, name, c, x), x))
  {
    longer, more := RunPass(cfg, trace, events, name, x);
    longer, more := RunPass(cfg, longer, more, name, x);
  }

  lemma CreatedUp(cfg: Config, name: string, c: Cell, spec: Spec, x: Inputs)
    requires Inv(cfg, name, c) && c.pc.Idle? && c.Current().None?
    requires cfg.Supported(spec.dbType) && PortsAssigned(c, x)
    ensures var made := Step(cfg, name, c, UserCreate(spec));
            && made.Ok() && made.pc.Idle?
            && Up(cfg, Pass(cfg, name, Pass(cfg, name, made, x), x), spec)
  {
    StepInv(cfg, name, c, UserCreate(spec));
    BroughtUp(cfg, name, Step(cfg, name, c, UserCreate(spec)), spec, x);
  }

  /** No branch of that name, and the operator between passes. */
  ghost predicate Absent(w: World, name: string) {
    CellOf(w, name).Ok() && CellOf(w, name).Current().None? && CellOf(w, name).pc.Idle?
  }

  /** Serving as the spec asks, with its clone, the operator between passes. */
  ghost predicate Up(cfg: Config, c: Cell, spec: Spec) {
    && c.Ok() && c.pc.Idle? && !c.harmed && c.Current().Some?
    && c.Current().value.Serving() && c.Current().value.spec == spec
    && cfg.Dataset(spec.dbType) in c.clones
  }

  lemma BroughtUp(cfg: Config, name: string, c: Cell, spec: Spec, x: Inputs)
    requires Inv(cfg, name, c) && c.pc.Idle? && !c.harmed
        && c.Current() == Some(Branch(spec, false, false, BLANK_STATUS))
    requires cfg.Supported(spec.dbType) && PortsAssigned(c, x)
    ensures Up(cfg, Pass(cfg, name, Pass(cfg, name, c, x), x), spec)
  {
    ReadyWithinTwoPasses(cfg, name, c, x, x);
    PassKeeps(cfg, name, c, x);
    PassKeeps(cfg, name, Pass(cfg, name, c, x), x);
  }

  // ---- what goes wrong otherwise ----

  /** A complete pass has a name on its list that has no branch.  When one is made now, it
      comes to serve and is then swept, it loses its clone exactly if its type is served
      on the dataset of the pass. */
  lemma CreatedThenSwept(
      cfg: Config, trace: seq<World>, events: seq<SysEvent>, id: nat, name: string, spec: Spec, x: Inputs)
    returns (longer: seq<World>, more: seq<SysEvent>)
    requires SysRun(cfg, trace, events) && Absent(trace[|events|], name)
    requires id in trace[|events|].passes && trace[|events|].passes[id].Sweeping?
    requires trace[|events|].passes[id].complete && name in trace[|events|].passes[id].todo
    requires cfg.Supported(spec.dbType) && PortsAssigned(CellOf(trace[|events|], name), x)
    ensures Continues(cfg, trace, events, longer, more)
    ensures more[|more| - 1] == SweepClone(id, name, Done)
    ensures id in longer[|more|].passes && longer[|more|].passes[id].Sweeping? && longer[|more|].passes[id].complete
    ensures var c := CellOf(longer[|more|], name);
            && c.Ok() && c.Current().Some? && c.Current().value.Serving() && c.Current().value.spec == spec
            && (cfg.Dataset(spec.dbType) !in c.clones <==>
                cfg.Dataset(spec.dbType) == trace[|events|].passes[id].dataset)
  {
    longer, more := RunCreated(cfg, trace, events, name, spec, x);
    var e := SweepClone(id, name, Done);
    var v := longer[|more|];
    RunThen(cfg, longer, more, e);
    longer, more := longer + [SysStep(cfg, v, e)], more + [e];
  }

  /** Reuse of a name within one pass does harm.  A serving branch is deleted after its
      clone was listed and is gone when the branches are listed; a branch made anew under
      its name comes to serve, and the sweep takes its clone exactly if it is on the same
      dataset as the first one. */
  lemma ReuseHarms(
      cfg: Config, trace: seq<World>, events: seq<SysEvent>, id: nat, name: string, first: Spec, second: Spec,
          x: Inputs)
    returns (longer: seq<World>, more: seq<SysEvent>)
    requires SysRun(cfg, trace, events) && id !in trace[|events|].passes
    requires name in trace[|events|].cells && Up(cfg, trace[|events|].cells[name], first)
    requires cfg.Supported(second.dbType) && x.nodePort > 0 && x.service.None?
    ensures Continues(cfg, trace, events, longer, more)
    ensures id in longer[|more|].passes && longer[|more|].passes[id].Sweeping? && longer[|more|].passes[id].complete
    ensures more[|more| - 1] == SweepClone(id, name, Done)
    ensures var c := CellOf(longer[|more|], name);
            && c.Ok() && c.Current().Some? && c.Current().value.Serving() && c.Current().value.spec == second
            && (cfg.Dataset(second.dbType) !in c.clones <==> cfg.Dataset(second.dbType) == cfg.Dataset(first.dbType))
  {
    longer, more := ListedThenGone(cfg, trace, events, id, name, first, x);
    var before, done := longer, more;
    longer, more := CreatedThenSwept(cfg, before, done, id, name, second, x);
  }

  /** The pass lists the clones, the branch is deleted and goes, the pass lists the branches. */
  lemma ListedThenGone(cfg: Config, trace: seq<World>, events: seq<SysEvent>, id: nat, name: string, spec: Spec,
      x: Inputs)
    returns (longer: seq<World>, more: seq<SysEvent>)
    requires SysRun(cfg, trace, events) && id !in trace[|events|].passes
    requires name in trace[|events|].cells && Up(cfg, trace[|events|].cells[name], spec)
    ensures Continues(cfg, trace, events, longer, more)
    ensures var w := longer[|more|];
            && Absent(w, name) && CellOf(w, name).objects == map[]
            && id in w.passes && w.passes[id].Sweeping? && w.passes[id].complete && name in w.passes[id].todo
            && w.passes[id].dataset == cfg.Dataset(spec.dbType)
  {
    longer, more := ListedThenMarked(cfg, trace, events, id, name, spec);
    var t, es := longer, more;
    longer, more := MarkedThenGone(cfg, t, es, id, name, spec, x);
  }

  lemma ListedThenMarked(cfg: Config, trace: seq<World>, events: seq<SysEvent>, id: nat, name: string, spec: Spec)
    returns (longer: seq<World>, more: seq<SysEvent>)
    requires SysRun(cfg, trace, events) && id !in trace[|events|].passes
    requires name in trace[|events|].cells && Up(cfg, trace[|events|].cells[name], spec)
    ensures Continues(cfg, trace, events, longer, more)
    ensures var w := longer[|more|];
            && name in w.cells && Doomed(cfg, name, w.cells[name])
            && id in w.passes && w.passes[id].Listed? && name in w.passes[id].names
            && w.passes[id].dataset == cfg.Dataset(spec.dbType)
  {
    var w := trace[|events|];
    SysRunInv(cfg, trace, events, |events|);
    CellInv(cfg, w, name);
    MarkedServing(cfg, name, w.cells[name], spec);
    var e1, e2 := ListClones(id, cfg.Dataset(spec.dbType), true), AtBranch(name, UserDelete);
    RunThen(cfg, trace, events, e1);
    var v := SysStep(cfg, w, e1);
    RunThen(cfg, trace + [v], events + [e1], e2);
    longer, more := trace + [v] + [SysStep(cfg, v, e2)], events + [e1] + [e2];
  }

  lemma MarkedThenGone(cfg: Config, trace: seq<World>, events: seq<SysEvent>, id: nat, name: string, spec: Spec,
      x: Inputs)
    returns (longer: seq<World>, more: seq<SysEvent>)
    requires SysRun(cfg, trace, events)
    requires name in trace[|events|].cells && Doomed(cfg, name, trace[|events|].cells[name])
    requires id in trace[|events|].passes && trace[|events|].passes[id].Listed?
        && name in trace[|events|].passes[id].names
    ensures Continues(cfg, trace, events, longer, more)
    ensures var w := longer[|more|];
            && Absent(w, name) && CellOf(w, name).objects == map[]
            && id in w.passes && w.passes[id].Sweeping? && w.passes[id].complete && name in w.passes[id].todo
            && w.passes[id].dataset == trace[|events|].passes[id].dataset
  {
    longer, more := RunPass(cfg, trace, events, name, x);
    DeletedWithinOnePass(cfg, name, trace[|events|].cells[name], x);
    var w, e := longer[|more|], ListBranches(id, true);
    assert Absent(w, name) && !Exists(w, name);
    RunThen(cfg, longer, more, e);
    longer, more := longer + [SysStep(cfg, w, e)], more + [e];
  }

  /** Marked for deletion, the operator between passes. */
  ghost predicate Doomed(cfg: Config, name: string, c: Cell) {
    Inv(cfg, name, c) && c.pc.Idle? && c.Current().Some? && c.Current().value.deleting
  }

  lemma MarkedServing(cfg: Config, name: string, c: Cell, spec: Spec)
    requires Up(cfg, c, spec) && Inv(cfg, name, c)
    ensures var m := Step(cfg, name, c, UserDelete);
            Doomed(cfg, name, m)
  {
    StepInv(cfg, name, c, UserDelete);
    assert VersionOk(cfg, name, c.Current());
  }

  /** What a pass would sweep that listed the branches first and the clones second. */
  function ReversedOrphans(branches: World, clones: World, dataset: string): set<string> {
    set n | n in Cloned(clones, dataset) && !Exists(branches, n)
  }

  /** Such a pass would do harm with every name new: a branch made between its two listings
      comes to serve, is taken for an orphan, and loses its clone.  With the clones listed first
      and the branches second, as GcPass does it, that branch is not on the list. */
  lemma ReversedListingHarms(
      cfg: Config, trace: seq<World>, events: seq<SysEvent>, name: string, spec: Spec, x: Inputs)
    returns (longer: seq<World>, more: seq<SysEvent>)
    requires SysRun(cfg, trace, events) && Absent(trace[|events|], name)
    requires cfg.Supported(spec.dbType) && PortsAssigned(CellOf(trace[|events|], name), x)
    ensures Continues(cfg, trace, events, longer, more)
    ensures var d, w, v := cfg.Dataset(spec.dbType), trace[|events|], longer[|more|];
            && name in v.cells && Up(cfg, v.cells[name], spec)
            && name in ReversedOrphans(w, v, d)
            && name !in Orphans(v, Cloned(w, d), true)
            && var swept := Step(cfg, name, v.cells[name], Sweep(d));
               swept.Current() == v.cells[name].Current() && d !in swept.clones
  {
    longer, more := RunCreated(cfg, trace, events, name, spec, x);
  }
}
