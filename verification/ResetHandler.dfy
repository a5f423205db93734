/** Resetting a dataset from the API server: the branches of a type are deleted, then
    the agent empties the dataset, before any finalizer has run. */
module ResetHandler {
  import opened Common
  import opened Branches
  import opened Routing
  import Z = Zfs
  import A = Agent
  import S = Sorting
  import L = Lifecycle
  import I = LifecycleInvariant
  import C = Convergence

  /** What delete requests for the names in `done` make of the branches: one with the
      finalizer is marked, one without is gone. */
  ghost predicate Requested(before: map<string, Branch>, after: map<string, Branch>, done: set<string>) {
    && (forall n :: n in after <==> n in before && (n in done ==> before[n].finalizer))
    && (forall n | n in after :: after[n] == if n in done then before[n].(deleting := true) else before[n])
  }

  class K8sBranchHandler {
    const cfg: Config
    const host: A.Host
    var branches: map<string, Branch>   // the stored branches, by name

    constructor (cfg: Config, host: A.Host, branches: map<string, Branch>)
      ensures this.cfg == cfg && this.host == host && this.branches == branches
    {
      this.cfg, this.host, this.branches := cfg, host, branches;
    }

    method ListBranches() returns (err: bool, l: seq<string>)
      ensures host.alone ==> !err
      ensures !err ==> Distinct(l) && forall n :: n in l <==> n in branches
    {
      err, l := *, [];
      if err && !host.alone { return; }
      err := false;
      var rest := branches.Keys;
      while rest != {}
        invariant rest <= branches.Keys && Distinct(l)
        invariant forall n :: n in l <==> n in branches && n !in rest
        decreases |rest|
      {
        var n :| n in rest;
        l := l + [n];
        rest := rest - {n};
      }
    }

    /** Delete of one branch; it fails only when the handler is not alone. */
    method DeleteBranch(name: string) returns (ok: bool)
      modifies this`branches
      ensures host.alone ==> ok
      ensures branches ==
                if !ok || name !in old(branches) then old(branches)
                else if old(branches)[name].finalizer then old(branches)[name := old(branches)[name].(deleting := true)]
                else old(branches) - {name}
    {
      ok := *;
      if host.alone { ok := true; }
      if ok && name in branches {
        match Marked(branches[name])
        case Some(b) => branches := branches[name := b];
        case None => branches := branches - {name};
      }
    }

    /** Requests the deletion of every covered branch; a failed request is passed over. */
    method DeleteCovered(dbType: string, names: seq<string>) returns (deleted: nat, ghost done: set<string>)
      requires Distinct(names) && forall n :: n in names <==> n in branches
      modifies this`branches
      ensures |done| == deleted && forall n | n in done :: n in names
      ensures forall n | n in done :: dbType == "" || old(branches)[n].spec.dbType == dbType
      ensures host.alone ==> forall n | n in old(branches) ::
                dbType == "" || old(branches)[n].spec.dbType == dbType ==> n in done
      ensures forall n :: n in branches <==> n in old(branches) && (n in done ==> old(branches)[n].finalizer)
      ensures forall n | n in branches ::
                branches[n] == if n in done then old(branches)[n].(deleting := true) else old(branches)[n]
    {
      ghost var before := branches;
      deleted, done := 0, {};
      var i := 0;
      while i < |names|
        invariant 0 <= i <= |names|
        invariant deleted == |done| && forall n | n in done :: n in names[..i]
        invariant forall n | n in done :: dbType == "" || before[n].spec.dbType == dbType
        invariant Requested(before, branches, done)
        invariant host.alone ==> forall k | 0 <= k < i ::
          dbType == "" || before[names[k]].spec.dbType == dbType ==> names[k] in done
      {
        var n := names[i];
        assert n in before && n !in names[..i];
        if dbType == "" || branches[n].spec.dbType == dbType {
          var gone := DeleteBranch(n);
          if gone {
            done := done + {n};
            deleted := deleted + 1;
          }
        }
        i := i + 1;
      }
    }

    /** A failed delete is passed over; the agent is asked to reset all the same.  A branch
        that the reset does not cover keeps its clone exactly if its type is not served
        on the dataset that is reset. */
    method HandleResetDataset(dbType: string)
      returns (ok: bool, deletedBranches: nat, ghost done: set<string>, ghost clones: seq<string>,
        ghost snaps: seq<S.Info>)
      requires host.Valid()
      modifies this`branches, host
      ensures host.Valid()
      ensures |done| == deletedBranches && forall n | n in done :: n in old(branches)
      ensures forall n | n in done :: dbType == "" || old(branches)[n].spec.dbType == dbType
      ensures forall n :: n in branches <==> n in old(branches) && (n in done ==> old(branches)[n].finalizer)
      ensures forall n | n in branches ::
                branches[n] == if n in done then old(branches)[n].(deleting := true) else old(branches)[n]
      ensures host.alone ==> forall n | n in old(branches) ::
                n in done <==> dbType == "" || old(branches)[n].spec.dbType == dbType
      ensures host.alone ==>
        var d := cfg.Dataset(dbType);
        && ok
        && (forall c | c in host.pool.clones :: c.dataset != d)
        && (forall s | s in host.pool.snaps :: s.dataset != d)
        && Z.SameElsewhere(old(host.pool), host.pool, d)
      ensures host.Issues((c: Z.Command) => (c.DestroyClone? || c.DestroySnap?) && Z.Target(c) == cfg.Dataset(dbType))
      ensures ok ==>
        && (exists i :: 0 < |old(host.pools)| <= i + 1 <= |host.pools| &&
              A.ListsSnapshots(host.pools[i], cfg.Dataset(dbType), snaps))
        && host.done == old(host.done) + A.CloneCommands(cfg.Dataset(dbType), clones)
                        + A.SnapCommands(cfg.Dataset(dbType), A.NamesOf(snaps))
      ensures host.alone ==>
        forall n | n in old(branches) && dbType != "" && old(branches)[n].spec.dbType != dbType ::
          var t := cfg.Dataset(old(branches)[n].spec.dbType); var id := Z.CloneId(t, n);
          id in old(host.pool).clones ==> (id in host.pool.clones <==> t != cfg.Dataset(dbType))
    {
      deletedBranches, done := 0, {};
      var err, names := ListBranches();
      if err { return false, 0, {}, [], []; }
      deletedBranches, done := DeleteCovered(dbType, names);
      var agent := new A.AgentProvider(cfg.Dataset(dbType), host);
      ok, clones, snaps := agent.ResetDataset();
    }
  }

  /** The configured type that stands in for a requested one. */
  function ServedAs(h: Handler, dbType: string): string {
    if dbType != "" && dbType in h.providers then dbType else h.defaultType
  }

  /** With every configured type on a dataset of its own, two types share a dataset exactly
      if the same configured type stands in for both: a reset of one then takes the clones
      of the other. */
  lemma SharedDataset(cfg: Config, t: string, r: string)
    requires var h := cfg.handler;
             && h.defaultType in h.providers
             && forall a, b | a in h.providers && b in h.providers && a != b :: h.providers[a] != h.providers[b]
    ensures cfg.Dataset(t) == cfg.Dataset(r) <==> ServedAs(cfg.handler, t) == ServedAs(cfg.handler, r)
  {
  }

  /** An agent configured for mysql alone serves a postgres branch on the same dataset.
      Resetting mysql leaves that branch unmarked and takes its clone. */
  method FallbackBranchLosesClone() returns (unmarked: bool, kept: bool)
    ensures unmarked && !kept
  {
    var cfg := Installation("branchdb", "localhost", "nfs", Handler(map["mysql" := "tank/mysql"], "mysql"));
    var base := Z.SnapId("tank/mysql", "base");
    var clone := Z.CloneId("tank/mysql", "feature");
    var branch := Branch(Spec("base", 0, "postgres", ""), true, false, BLANK_STATUS);
    assert cfg.Dataset("postgres") == cfg.Dataset("mysql") == "tank/mysql";
    var pool := Z.Pool(map[base := Z.Snap(0, 0)], map[clone := Z.Clone(base, 0, 0)], map[], 1);
    var host := new A.Host(true, pool);
    var branches := map["feature" := branch];
    var handler := new K8sBranchHandler(cfg, host, branches);
    ghost var done, clones, snaps;
    var ok, n;
    ok, n, done, clones, snaps := handler.HandleResetDataset("mysql");
    unmarked := "feature" in handler.branches && handler.branches["feature"] == branch;
    assert clone in pool.clones;
    kept := clone in host.pool.clones;
  }

  /** Every branch a reset has marked still finalises in one undisturbed pass, although
      its clone is already gone. */
  lemma MarkedStillDrains(cfg: Config, name: string, c: L.Cell, x: L.Inputs)
    requires I.Inv(cfg, name, c) && c.pc.Idle? && c.Current().Some? && c.Current().value.finalizer
    ensures var marked := L.Step(cfg, name, c, L.UserDelete);
            var emptied := L.Step(cfg, name, marked, L.Sweep(cfg.Dataset(c.Current().value.spec.dbType)));
            C.Gone(cfg, C.Pass(cfg, name, emptied, x))
  {
    var d := cfg.Dataset(c.Current().value.spec.dbType);
    var marked := L.Step(cfg, name, c, L.UserDelete);
    I.StepInv(cfg, name, c, L.UserDelete);
    I.StepInv(cfg, name, marked, L.Sweep(d));
    C.DeletedWithinOnePass(cfg, name, L.Step(cfg, name, marked, L.Sweep(d)), x);
  }
}
