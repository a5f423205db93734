/** What a branch that serves runs on, object by object, and what a branch in error says. */
module Serving {
  import opened Common
  import opened Branches
  import opened Lifecycle
  import opened LifecycleInvariant
  import opened LifecycleTheorems
  import Routing

  // ---- the objects of a serving branch ----

  /** A serving branch has a volume, a claim, a pod and a Service, and a configuration if
      its type has one; an empty type stands for the fallback type.  What was not left over
      from an earlier branch of the name is its own: the volume exports the clone of this
      branch, the pod and the configuration are of its type, and the Service has the port
      recorded in the status. */
  lemma ServingObjects(cfg: Config, name: string, trace: seq<Cell>, events: seq<Event>, i: nat)
    requires Run(cfg, name, trace, events) && i < |trace| && trace[i].Ok()
    requires trace[i].Current().Some? && trace[i].Current().value.Serving()
    ensures var c, b := trace[i], trace[i].Current().value;
            var t := if b.spec.dbType == "" then cfg.fallbackType else b.spec.dbType;
            && t in cfg.builtin
            && PV in c.objects && PVC in c.objects && Pod in c.objects && Service in c.objects
            && (cfg.builtin[t].extraConfig ==> ConfigMap in c.objects)
            && (ConfigMap in c.objects ==> cfg.builtin[t].extraConfig || ConfigMap in c.leftover)
            && (PV !in c.leftover ==> c.objects[PV] == PVObject(cfg.nfsServer, cfg.Dataset(b.spec.dbType), name))
            && (PVC !in c.leftover ==> c.objects[PVC] == PVCObject)
            && (ConfigMap in c.objects && ConfigMap !in c.leftover ==> c.objects[ConfigMap] == ConfigMapObject(t))
            && (Pod !in c.leftover ==> c.objects[Pod] == PodObject(t, b.spec.dbVersion))
            && (Service !in c.leftover ==>
                  c.objects[Service].ServiceObject?
                  && c.objects[Service].port == b.status.clusterPort == cfg.builtin[t].port)
  {
    RunInv(cfg, name, trace, events, i);
    CellObjects(cfg, name, trace[i]);
  }

  lemma CellObjects(cfg: Config, name: string, c: Cell)
    requires Inv(cfg, name, c) && c.Current().Some? && c.Current().value.Serving()
    ensures var b := c.Current().value;
            var t := if b.spec.dbType == "" then cfg.fallbackType else b.spec.dbType;
            && t in cfg.builtin
            && PV in c.objects && PVC in c.objects && Pod in c.objects && Service in c.objects
            && (cfg.builtin[t].extraConfig ==> ConfigMap in c.objects)
            && (ConfigMap in c.objects ==> cfg.builtin[t].extraConfig || ConfigMap in c.leftover)
            && (PV !in c.leftover ==> c.objects[PV] == PVObject(cfg.nfsServer, cfg.Dataset(b.spec.dbType), name))
            && (PVC !in c.leftover ==> c.objects[PVC] == PVCObject)
            && (ConfigMap in c.objects && ConfigMap !in c.leftover ==> c.objects[ConfigMap] == ConfigMapObject(t))
            && (Pod !in c.leftover ==> c.objects[Pod] == PodObject(t, b.spec.dbVersion))
            && (Service !in c.leftover ==>
                  c.objects[Service].ServiceObject?
                  && c.objects[Service].port == b.status.clusterPort == cfg.builtin[t].port)
  {
    SettledObjects(cfg, name, c);
    assert VersionOk(cfg, name, c.Current());
    assert {PV, PVC, Pod, Service} <= Needed(cfg, c.Current().value.spec.dbType);
  }

  /** The status of a serving branch: its host is made of its name, no message is left from
      earlier attempts, and it expires exactly if it has a TTL. */
  lemma ServingStatus(cfg: Config, name: string, trace: seq<Cell>, events: seq<Event>, i: nat)
    requires Run(cfg, name, trace, events) && i < |trace| && trace[i].Ok()
    requires trace[i].Current().Some? && trace[i].Current().value.Serving()
    ensures var b := trace[i].Current().value;
            && b.status.clusterHost == name + cfg.hostSuffix
            && b.status.externalHost == cfg.externalHost
            && b.status.message == NoMessage
            && (b.status.expiresAt.Some? <==> b.spec.ttlHours > 0)
  {
    RunInv(cfg, name, trace, events, i);
    assert VersionOk(cfg, name, trace[i].Current());
  }

  /** Until the operator has protected it a branch is as its user made it. */
  lemma UntouchedStatus(cfg: Config, name: string, trace: seq<Cell>, events: seq<Event>, i: nat)
    requires Run(cfg, name, trace, events) && i < |trace| && trace[i].Ok()
    requires trace[i].Current().Some? && !trace[i].Current().value.finalizer
    ensures !trace[i].Current().value.deleting
    ensures var st := trace[i].Current().value.status;
            && st.phase == Unset && st.message == NoMessage && st.expiresAt == None
            && st.clusterHost == st.externalHost == "" && st.clusterPort == st.externalPort == 0
  {
    RunInv(cfg, name, trace, events, i);
    assert VersionOk(cfg, name, trace[i].Current());
  }

  /** The endpoints of this repository's installation. */
  lemma InstalledEndpoint(
      namespace: string, externalHost: string, nfsServer: string, handler: Routing.Handler,
      name: string, trace: seq<Cell>, events: seq<Event>, i: nat)
    requires var cfg := Installation(namespace, externalHost, nfsServer, handler);
             Run(cfg, name, trace, events) && i < |trace| && trace[i].Ok()
    requires trace[i].Current().Some? && trace[i].Current().value.Serving()
    ensures var b := trace[i].Current().value;
            && b.status.clusterHost == name + "." + namespace + ".svc.cluster.local"
            && b.spec.dbType in {"", "mysql", "postgres", "redis"}
            && b.status.clusterPort == (if b.spec.dbType == "postgres" then 5432
                                        else if b.spec.dbType == "redis" then 6379 else 3306)
            && (ConfigMap in trace[i].objects ==>
                  b.spec.dbType in {"", "mysql"} || ConfigMap in trace[i].leftover)
            && (b.spec.dbType in {"", "mysql"} ==> ConfigMap in trace[i].objects)
  {
    var cfg := Installation(namespace, externalHost, nfsServer, handler);
    ServingObjects(cfg, name, trace, events, i);
    ServingStatus(cfg, name, trace, events, i);
    ReadyIsTruthful(cfg, name, trace, events, i);
    var suffix := "." + namespace + ".svc.cluster.local";
    assert name + suffix == name + "." + namespace + ".svc.cluster.local";
  }

  // ---- the phases users see ----

  /** While the operator works on a branch, the branch says so: it is stored as Creating
      from before the clone is made, until it is Ready or in error, at most a deletion mark
      coming on top; and as Deleting from before its first object goes. */
  lemma PhaseShown(cfg: Config, name: string, trace: seq<Cell>, events: seq<Event>, i: nat)
    requires Run(cfg, name, trace, events) && i < |trace| && trace[i].pc.At?
    ensures var c := trace[i]; var call := c.pc.call;
            && c.Ok()
            && (call.CloneSnapshot? || call.ShareClone? || call.CheckShare? || call.RollBack? || call.CreateObject?
                || call.ReadNodePort? || call.MarkReady? ==>
                  c.Current().Some? && c.Current().value.status.phase == Creating && c.Current().value.finalizer)
            && (call.DeleteObject? || call.ReturnFromStop? || call.DeleteClone? || call.RemoveFinalizer? ==>
                  c.Current().Some? && c.Current().value.status.phase == Deleting && c.Current().value.deleting)
  {
    RunInv(cfg, name, trace, events, i);
  }

  // ---- what a branch in error says ----

  /** The message a call's failure leads to. */
  lemma FailureRecorded(cfg: Config, name: string, c: Cell, o: Outcome, x: Inputs)
    requires Inv(cfg, name, c) && c.pc.At? && !c.pc.call.RecordError?
    requires var w := Step(cfg, name, c, Perform(o, x)); w.pc.At? && w.pc.call.RecordError?
    ensures var m, call := Step(cfg, name, c, Perform(o, x)).pc.call.message, c.pc.call;
            && m != NoMessage
            && (m == CreateCloneFailed <==>
                  call.RollBack? || (o != Done && (call.CloneSnapshot? || call.ShareClone? || call.CheckShare?)))
            && (m == StartDatabaseFailed <==>
                  call.CreateObject? || call.ReadNodePort? || (o == Done && (call.ShareClone? || call.CheckShare?)))
            && (m == StopDatabaseFailed <==> call.ReturnFromStop?)
            && (m == DeleteCloneFailed <==> call.DeleteClone?)
  {
    var call := c.pc.call;
    if call.RollBack? || call.CloneSnapshot? || call.ShareClone? || call.CheckShare? {
      FailingClone(cfg, name, c, o, x);
    } else if call.CreateObject? || call.ReadNodePort? {
      FailingStart(cfg, name, c, o, x);
    } else if Writes(call) {
      WriteEffect(cfg, name, c, o, x);
    } else {
      FailingStop(cfg, name, c, o, x);
    }
  }

  lemma FailingClone(cfg: Config, name: string, c: Cell, o: Outcome, x: Inputs)
    requires c.Ok() && c.pc.At?
    requires var call := c.pc.call; call.RollBack? || call.CloneSnapshot? || call.ShareClone? || call.CheckShare?
    ensures var w := PerformCall(cfg, name, c, o, x);
            w.pc.At? && w.pc.call.RecordError? ==>
              w.pc.call.message == if o == Done && !c.pc.call.RollBack? then StartDatabaseFailed else CreateCloneFailed
  {
  }

  lemma FailingStart(cfg: Config, name: string, c: Cell, o: Outcome, x: Inputs)
    requires c.Ok() && c.pc.At? && (c.pc.call.CreateObject? || c.pc.call.ReadNodePort?)
    ensures var w := PerformCall(cfg, name, c, o, x);
            w.pc.At? && w.pc.call.RecordError? ==> w.pc.call.message == StartDatabaseFailed
  {
  }

  lemma FailingStop(cfg: Config, name: string, c: Cell, o: Outcome, x: Inputs)
    requires c.Ok() && c.pc.At?
    requires c.pc.call.DeleteObject? || c.pc.call.ReturnFromStop? || c.pc.call.DeleteClone?
    ensures var w := PerformCall(cfg, name, c, o, x);
            w.pc.At? && w.pc.call.RecordError? ==>
              w.pc.call.message == (if c.pc.call.DeleteClone? then DeleteCloneFailed else StopDatabaseFailed)
              && !c.pc.call.DeleteObject?
  {
  }
}
