/** The DatabaseBranch resource, the Kubernetes objects of one branch, and the
    constants of an installation. */
module Branches {
  import opened Common
  import Routing

  datatype Phase = Unset | Pending | Creating | Ready | Error | Deleting

  datatype Spec = Spec(snapshotRef: string, ttlHours: int, dbType: string, dbVersion: string)

  /** The error texts the operator records, by their leading words. */
  datatype Message = NoMessage | CreateCloneFailed | StartDatabaseFailed | StopDatabaseFailed | DeleteCloneFailed

  datatype Status = Status(
    phase: Phase,
    clusterHost: string,
    clusterPort: int,
    externalHost: string,
    externalPort: int,
    message: Message,
    expiresAt: Option<int>)

  const BLANK_STATUS := Status(Unset, "", 0, "", 0, NoMessage, None)

  /** What the API server stores for one branch, apart from its resourceVersion. */
  datatype Branch = Branch(spec: Spec, finalizer: bool, deleting: bool, status: Status) {
    /** Usable, and nobody has asked for its deletion. */
    predicate Serving() {
      status.phase == Ready && !deleting
    }

    /** Protected by the finalizer and not marked for deletion. */
    predicate Live() {
      finalizer && !deleting
    }
  }

  /** Delete on a branch: with the finalizer present it only sets the deletion mark. */
  function Marked(b: Branch): Option<Branch> {
    if b.finalizer then Some(b.(deleting := true)) else None
  }

  /** What the database provider knows about a supported type. */
  datatype DbConfig = DbConfig(port: int, extraConfig: bool)

  /** Constants of one installation of the operator and the ZFS agent.
      `hostSuffix` follows the branch name in the cluster host name. */
  datatype Config = Config(
    hostSuffix: string,
    externalHost: string,
    nfsServer: string,
    builtin: map<string, DbConfig>,
    fallbackType: string,
    handler: Routing.Handler)
  {
    /** The dataset on which the agent serves a database type. */
    function Dataset(dbType: string): string {
      match Routing.Pick(handler, dbType)
      case Some(d) => d
      case None => ""
    }

    /** Start takes an empty type for the fallback type. */
    function EffectiveType(dbType: string): string {
      if dbType == "" then fallbackType else dbType
    }

    predicate Supported(dbType: string) {
      EffectiveType(dbType) in builtin
    }

    function DbPort(dbType: string): int {
      if Supported(dbType) then builtin[EffectiveType(dbType)].port else 0
    }

    predicate HasExtraConfig(dbType: string) {
      Supported(dbType) && builtin[EffectiveType(dbType)].extraConfig
    }

    function ClusterHost(name: string): string {
      name + hostSuffix
    }
  }

  /** The constants of this repository. */
  function Installation(namespace: string, externalHost: string, nfsServer: string, handler: Routing.Handler): Config {
    Config("." + namespace + ".svc.cluster.local", externalHost, nfsServer,
           map["mysql" := DbConfig(3306, true), "postgres" := DbConfig(5432, false), "redis" := DbConfig(6379, false)],
           "mysql", handler)
  }

  // ---- the objects of one branch in the cluster ----

  datatype Kind = PV | PVC | ConfigMap | Pod | Service

  /** A PV names the clone whose NFS export it mounts, by dataset and clone name. */
  datatype Object =
    | PVObject(nfsServer: string, dataset: string, clone: string)
    | PVCObject
    | ConfigMapObject(dbType: string)
    | PodObject(dbType: string, dbVersion: string)
    | ServiceObject(port: int, nodePort: nat)

  type Objects = map<Kind, Object>

  /** What the volume provider returns: where the clone is exported. */
  datatype Volume = Volume(nfsServer: string, dataset: string, clone: string)

  /** The object Start creates for a branch when none of that kind exists. */
  function Desired(cfg: Config, name: string, spec: Spec, kind: Kind, nodePort: nat): Object {
    match kind
    case PV => PVObject(cfg.nfsServer, cfg.Dataset(spec.dbType), name)
    case PVC => PVCObject
    case ConfigMap => ConfigMapObject(cfg.EffectiveType(spec.dbType))
    case Pod => PodObject(cfg.EffectiveType(spec.dbType), spec.dbVersion)
    case Service => ServiceObject(cfg.DbPort(spec.dbType), nodePort)
  }

  /** A Service with the node port the cluster has given it; any other object as it is. */
  function Numbered(o: Object, nodePort: nat): Object {
    if o.ServiceObject? then o.(nodePort := nodePort) else o
  }

  /** The kinds of object a branch of this type needs. */
  function Needed(cfg: Config, dbType: string): set<Kind> {
    {PV, PVC, Pod, Service} + (if cfg.HasExtraConfig(dbType) then {ConfigMap} else {})
  }

  /** Equal up to the node port, which the cluster chooses. */
  predicate SameButPort(a: Object, b: Object) {
    a == b || (a.ServiceObject? && b.ServiceObject? && a.port == b.port)
  }

  // ---- names of the objects ----

  /** The name under which the object of a kind is stored for a branch. */
  function ObjectName(kind: Kind, branch: string): string {
    match kind
    case PV => "branchdb-pv-" + branch
    case PVC => "branchdb-pvc-" + branch
    case ConfigMap => "branchdb-cfg-" + branch
    case Pod => "branchdb-db-" + branch
    case Service => branch
  }

  /** Two branches never share an object: this is what lets one branch be
      modelled apart from all others. */
  lemma ObjectNamesInjective(kind: Kind, a: string, b: string)
    requires ObjectName(kind, a) == ObjectName(kind, b)
    ensures a == b
  {
    var prefix := ObjectName(kind, "");
    assert ObjectName(kind, a) == prefix + a && ObjectName(kind, b) == prefix + b;
    assert a == (prefix + a)[|prefix|..];
    assert b == (prefix + b)[|prefix|..];
  }
}
