# branchdb verification model

branchdb hands out database branches: a `DatabaseBranch` custom resource asks for one, the
operator makes a ZFS clone of a snapshot for it, starts a database pod on the clone, and takes
everything down again when the resource is deleted or its TTL has passed. An API server offers
garbage collection, dataset reset and a WebSocket feed of events. This project models that
protocol and proves what it promises, over every run rather than for single calls.

## How it is built

- `Lifecycle.dfy` is one branch name as a machine whose steps are single external calls: a log of
  stored versions (the resourceVersion is an index in it), the clones, the cluster objects, and the
  place where the operator stands. A call ends in one of three ways: done, done but answered with
  an error, or failed. Users, garbage collection and the cluster step in between; the operator may
  crash between any two calls; a read may return any version not older than one already read.
- `LifecycleInvariant.dfy` is what every step keeps, `LifecycleTheorems.dfy` what follows for every
  run, `Convergence.dfy` what a pass comes to once nothing fails, with a rank that falls with every
  call. `Answers.dfy` is what a pass asks of the work queue, `Ttl.dfy` the 64-bit arithmetic of the
  expiry, and `Expiry.dfy` the expiry of a branch over passes the queue runs as asked.
- `Reconciler.dfy` is `Reconcile`, `handleDeletion`, `setError`, `Start` and `Stop` as methods that
  read and write a cluster object call by call with early returns. Every execution is shown to be a
  run of the machine, and an undisturbed one to do exactly what `Convergence.Pass` says.
- `Serving.dfy` is what a Ready branch runs on, object by object, and what phase and message users
  see. `Endpoint.dfy` is which port a branch records when the operator reads Services through a cache.
- `System.dfy` puts all branches together with any number of garbage collection passes,
  `SystemPool.dfy` these and the pool; `GcHandler.dfy` is `handleGC` on top of them,
  `ResetHandler.dfy` is `handleResetDataset`.
- `Zfs.dfy` is the pool with the commands the agent issues; `Agent.dfy` the agent's operations as
  programs over those commands, with other operations running in between; `SnapshotGc.dfy` what a
  collection removes as a function of one listing; `Sorting.dfy` the exchange sort. `Refinement.dfy`
  ties the clones of a branch in its machine to the pool.
- `Names.dfy`, `Paths.dfy`, `Text.dfy`, `Listing.dfy` and `Routing.dfy` are the string formats:
  archive names, clone paths, `zfs list` output, the dataset configuration.
- `Hub.dfy` is the WebSocket hub as a state machine and as a class.

## Assumptions

- `Update` and `Status().Update` succeed only against the newest version (Kubernetes API
  Conventions, section "Concurrency Control and Consistency"); the status subresource takes over
  the status alone; an update that changes nothing makes no new version.
- Delete of a branch that has a finalizer only marks it; dropping the last finalizer of a marked
  branch erases it. Deleting one of the other cluster objects removes it at once.
- Reconciles of one name run one at a time, and reads of one branch never go back. The operator
  reads branches and Services through a cache (`cmd/operator/main.go` hands out the manager's
  client): it may be behind by any number of states but never goes back. The API server reads
  branches without one (`cmd/branchdb/main.go` builds a plain client), so one listing shows the
  branches of one instant.
- The spec of a branch never changes, and nobody but this system touches finalizers, clones,
  snapshots or the cluster objects.
- A call that returns an error either took effect before returning or never will. All agents have the
  NFS address of the installation.
- Clone names contain no `/` and clones carry no snapshots of their own. Names are sequences of
  characters below 128, so a byte is a character.
- The clock and the content of a snapshot are inputs, and the node port of a new Service may be 0
  until the cluster assigns one. Instants are integer nanoseconds; a stored expiry has whole
  seconds; creation times in a listing have whole minutes.

## What the proofs found

- A TTL above 2562047 hours overflows a 64-bit duration; the first value past it gives a branch
  that the pass after the one that made it Ready marks for deletion (`Ttl.ExpiryInTime` is the exact
  condition, `Expiry.OverflowMarksNext` the case).
- Garbage collection discards the error of its branch listing. A pass whose listing failed destroys
  clones in use (`System.FailedListingHarms`). With a successful listing, and users creating and
  deleting branches meanwhile, it can only hit a branch whose name was reused within the pass, or one
  made on an orphan from before the operator (`System.HarmNeedsReuse`); such reuse does harm exactly
  if the new branch is on the dataset of the pass (`System.ReuseHarms`). New names are safe because
  clones are listed before branches; the other order would harm them (`System.ReversedListingHarms`).
- Right after a name is reused, the operator's cache can still show the Service of the earlier branch,
  and its port is recorded and stays (`Endpoint.StaleEndpoint`). A name used for the first time is safe
  (`Endpoint.EndpointIsCurrent`).
- `Stop` discards delete errors. An object outlives its branch exactly if it was there and its delete
  failed (`LifecycleTheorems.DeletionLeaves`). A later branch of the same name adopts it: it can serve
  on the old pod (`LifecycleTheorems.OldPodServes`), and runs what it asks for exactly if each such
  object it needs was that already (`LifecycleTheorems.SuccessorAdopts`).
- The comment of `GCSnapshots` promises that snapshots beyond the kept ones without clones go. When
  creation times tie, a second run can remove a snapshot the first one kept
  (`SnapshotGc.TieRemovesMore`). It removes nothing, whatever the order of its listing, exactly if
  each kept snapshot not in use is newer than each one in use beyond the cut
  (`SnapshotGc.SecondRunIdleExactly`).
- Resetting a type destroys every clone on its dataset. A type without a dataset of its own shares
  the default one, and its branches lose their clones without being marked; `HandleResetDataset` has
  the exact condition, `ResetHandler.FallbackBranchLosesClone` the case.
- A reset marks branches and thereby wakes the operator, which may drain one of them before the reset
  comes to its clone. The reset then fails with every snapshot left
  (`Agent.AgentProvider.ResetMeetsOperator`); from the listing on it succeeds exactly if the list
  stays right (`Agent.AgentProvider.ResetListed`).

## Model

| member | source | states |
|---|---|---|
| LifecycleInvariant.StepInv | internal/interface/operator/reconciler.go:33-152 | Every step of a branch, whatever call fails or whoever acts, keeps the invariant on version log, operator position, clones and objects. |
| LifecycleInvariant.StepAddsOne | internal/interface/operator/reconciler.go:33-152 | A step adds at most one version to the log, and only one that may follow the newest. |
| LifecycleTheorems.NoLeakedClone | internal/interface/operator/reconciler.go:58-86 | In every state of every run, a clone the operator made exists only while its branch exists, carries the finalizer, and has a type served on that dataset. |
| LifecycleTheorems.ReadyIsTruthful | internal/interface/operator/reconciler.go:88-112 | A stored Ready without a deletion mark means PV, PVC, Pod and Service (and ConfigMap where due) exist, and the clone exists unless a sweep hit the branch while it existed. The endpoint recorded is one the Service of that name has had, and the present one if and only if the last state of the Service the operator has read had the present port. |
| Endpoint.EndpointIsCurrent | internal/infrastructure/k8sdatabase/provider.go:364-375 | Through every run, however far behind the reads are: while a name is in its first life and no Service was left over for it, a Ready unmarked branch records the port its Service has. |
| Endpoint.ShownPortIsRecorded | internal/infrastructure/k8sdatabase/provider.go:364-375 | A branch brought up by a pass that is shown any one state of the Service of its name records the port of that state, while its Service has the one the cluster assigned. |
| Endpoint.StaleEndpoint | cmd/operator/main.go:84-84 | When a serving branch is deleted, one of its name is made, and the cache still shows the old Service, the new branch serves with the old port recorded, whatever the port of its own Service. |
| Serving.ServingObjects | internal/infrastructure/k8sdatabase/provider.go:126-146 | Over every run, a Ready unmarked branch has a PV, a PVC, a Pod, a Service, and a ConfigMap if its type has one; unless left over from an earlier branch of the name, the PV exports the clone of this very branch on the dataset of its type, Pod and ConfigMap are of its type (the fallback type when empty) and its version, and the Service has the port recorded in the status. |
| Serving.ServingStatus | internal/interface/operator/reconciler.go:88-107 | A Ready unmarked branch has the host made of its name, no message left from earlier attempts, and an expiry exactly if it has a TTL. |
| Serving.UntouchedStatus | internal/interface/operator/reconciler.go:58-67 | Until it has the finalizer a stored branch is unmarked and its status is blank: no phase, no endpoint, no message, no expiry. |
| Serving.InstalledEndpoint | internal/infrastructure/k8sdatabase/provider.go:54-91 | In this installation a Ready unmarked branch is of type mysql, postgres or redis or of none, is recorded as name.namespace.svc.cluster.local with port 3306, 5432 or 6379 (3306 without a type), and has a ConfigMap of its own for mysql alone. |
| Serving.PhaseShown | internal/interface/operator/reconciler.go:74-144 | Whenever the operator is about to make a call of the creation flow the stored phase is Creating, and Deleting in the deletion flow, from before the first object is touched, whatever others do meanwhile. |
| Serving.FailureRecorded | internal/interface/operator/reconciler.go:82-91 | The message recorded says which step failed: the clone, its share or its roll-back, the start, the stop, or the destruction of the clone. |
| LifecycleTheorems.ReadyIsStable | internal/interface/operator/reconciler.go:69-112 | Once Ready and unmarked, the stored branch never changes until its very next version, which is the same with the deletion mark. |
| LifecycleTheorems.NeverReadyAfterMark | internal/interface/operator/reconciler.go:69-112 | A branch that is not Ready when it is marked for deletion never becomes Ready, even with a stale read and a creation under way. |
| LifecycleTheorems.LogGrows | internal/interface/operator/reconciler.go:33-152 | Along a run versions are only ever added. |
| LifecycleTheorems.NoEarlyExpiry | internal/interface/operator/reconciler.go:47-56 | Whenever the operator is about to delete for expiry, the newest version exists, is Ready with the status that was read, and its expiry lies before the time of that reading. |
| LifecycleTheorems.NoTtlNoExpiry | internal/interface/operator/reconciler.go:47-56 | In no run does the operator request deletion of a branch without a TTL. |
| LifecycleTheorems.SettledObjects | internal/infrastructure/k8sdatabase/provider.go:115-152 | The objects of a Ready branch are exactly those its type needs plus what was left over before it, each as the spec asks unless left over. |
| LifecycleTheorems.RetryEqualsCleanRun | internal/infrastructure/k8sdatabase/provider.go:126-146 | After any number of attempts that failed or crashed at any call, a Ready branch has the same objects, up to the assigned port, as one uninterrupted creation. |
| LifecycleTheorems.RetriesKeepClone | internal/infrastructure/zfs/agent_provider.go:102-128 | While the branch is unmarked and collection stays away, no further attempt, failed or not, removes, replaces or re-bases an existing clone. |
| LifecycleTheorems.CloneStep | internal/infrastructure/zfs/agent_provider.go:102-128 | The only steps that take an existing clone away are collection, the roll-back of the attempt that made it, and the deletion flow of a marked branch. |
| LifecycleTheorems.LeftoversDecide | internal/infrastructure/k8sdatabase/provider.go:204-361 | A Ready branch runs what its spec asks for if and only if the needed objects left over from an earlier branch of its name already were that. |
| LifecycleTheorems.DeletionLeaves | internal/infrastructure/k8sdatabase/provider.go:154-172 | However the five deletes of Stop end, with every other call succeeding the branch and its clones go, and an object is left if and only if it was there and its delete failed. |
| LifecycleTheorems.SwallowedErrorLeaks | internal/infrastructure/k8sdatabase/provider.go:154-172 | When one delete in Stop fails on an object that is there and all later calls succeed, the branch goes and the object stays. |
| LifecycleTheorems.SuccessorAdopts | internal/infrastructure/k8sdatabase/provider.go:154-172 | After a branch is deleted with any outcomes of the five deletes, a second branch of its name comes to serve, the operator being shown a Service with a port, on the objects whose delete failed, and runs what it asks for if and only if each of those that it needs was that already. |
| LifecycleTheorems.OldPodServes | internal/infrastructure/k8sdatabase/provider.go:204-361 | When the delete of a pod of another type or version fails, a second branch of the name serves on that old pod. |
| Convergence.AdvanceRank | internal/interface/operator/reconciler.go:33-152 | A successful call strictly lowers the rank of the pass, so a pass without failures ends. |
| Convergence.ReadyWithinTwoPasses | internal/interface/operator/reconciler.go:58-112 | From every state between passes that a run can reach, an unexpired unmarked branch of a supported type is Ready after two undisturbed calls of Reconcile in which the operator is shown a Service with a port, after one if it has the finalizer. |
| Convergence.ReadyWithExpiry | internal/interface/operator/reconciler.go:74-112 | An undisturbed pass over an unmarked branch with the finalizer that is not Ready ends with it serving by its own spec, with the expiry counted from that pass by its TTL, and none without a TTL. |
| Convergence.DeletedWithinOnePass | internal/interface/operator/reconciler.go:116-144 | A marked branch is gone after one undisturbed call, with all its objects and every clone the operator made for it. |
| Convergence.ExpiredGoneWithinTwoPasses | internal/interface/operator/reconciler.go:47-56 | An expired Ready branch is gone, with its clone and objects, after two undisturbed calls. |
| Convergence.ExpiryRequested | internal/interface/operator/reconciler.go:47-56 | The pass that finds a Ready branch expired adds the deletion mark and changes neither clones nor objects. |
| Convergence.FinalizerPass | internal/interface/operator/reconciler.go:58-67 | The pass that adds the finalizer changes neither clones nor objects nor anything else of the branch. |
| Answers.NothingForgotten | internal/interface/operator/reconciler.go:33-152 | A pass that ends with no requeue and no error has read that the branch is absent, or a version newer than the one it read exists, whose event brings the next pass. |
| Answers.RecheckMeansServing | internal/interface/operator/reconciler.go:69-71 | A pass that asks to be run again later asks for ten minutes, and has read, or itself written, a serving branch that has not expired. |
| Answers.AtOnceMeansProtected | internal/interface/operator/reconciler.go:61-66 | A pass that asks to be run again at once has just given the branch its finalizer. |
| Answers.PassAnswerExpected | internal/interface/operator/reconciler.go:33-152 | An undisturbed pass answers with the interval exactly if it ends with the branch serving, with an error exactly if one is recorded, at once exactly if it only added the finalizer, and with nothing exactly if the branch is gone or marked. |
| Ttl.LifetimeExact | internal/interface/operator/reconciler.go:100-103 | The 64-bit product of TTL and hour is exact if and only if the TTL is at most 2562047 hours, for every positive int. |
| Ttl.ExpiryInTime | internal/interface/operator/reconciler.go:100-103 | The stored expiry lies within the last second of the TTL if and only if the TTL is at most 2562047 hours, and then after the present. |
| Ttl.OverflowExpiresAtOnce | internal/interface/operator/reconciler.go:100-103 | One hour more and the stored expiry lies in the past. |
| Expiry.ExpiredOnTime | internal/interface/operator/reconciler.go:30-56 | Over passes run when their answers ask for it: up to the first instant after the expiry the branch is unchanged, that instant is at most ten minutes late, the pass then run only marks the branch, and after the next one it is gone. |
| Expiry.TtlBound | internal/interface/operator/reconciler.go:88-103 | For a branch with spec.ttlHours from 1 to 2562047: the first pass makes it serve; over passes run when their answers ask for it nothing touches it for its TTL, less the rounded second, and at most ten minutes after its TTL it is marked, to be gone with the next pass. |
| Expiry.NoTtlStays | internal/interface/operator/reconciler.go:47-103 | A branch without a TTL, once brought up, is not changed by any number of undisturbed passes. |
| Expiry.OverflowMarksNext | internal/interface/operator/reconciler.go:100-103 | A branch with a TTL of 2562048 hours serves after one pass and is marked for deletion by the next, however soon. |
| Reconciler.Cluster.Reconcile | internal/interface/operator/reconciler.go:33-113 | Every execution, with others acting before each call and each call failing in either way, is a run of the machine ending between passes, and its answer is the one its last step calls for: an error for each refused or failed write and for each recorded error, the interval for a serving branch, at once for an added finalizer; an undisturbed one ends exactly in Pass with the answer PassAnswer. |
| Reconciler.Cluster.ReconcileBranch | internal/interface/operator/reconciler.go:42-112 | From the branch read, the pass runs to its end with the answer its last step calls for; undisturbed, it is made of successful calls only. |
| Reconciler.Cluster.HandleDeletion | internal/interface/operator/reconciler.go:116-144 | The deletion flow is a run of the machine from the mark to the end of the pass, and its error is the one its last step calls for. |
| Reconciler.Cluster.SetError | internal/interface/operator/reconciler.go:147-152 | One status update with the local copy and its version: the newest version gets the error phase and message if it is still that version, nothing changes otherwise, and the answer is an error either way. |
| Reconciler.Cluster.Filled | internal/interface/operator/reconciler.go:93-107 | The local copy that is written back is the branch with exactly the Ready status of the machine: endpoint, expiry, cleared message. |
| Reconciler.Cluster.Start | internal/infrastructure/k8sdatabase/provider.go:115-152 | Whatever objects there are stay, up to the port the cluster assigns, and those made are a PV of the given volume, a PVC, a ConfigMap and a Pod of the given type (the fallback type when empty) and version, and a Service on the port of that type; on success all needed are there, the last thing done was a successful reading of the node port, and the port is that of the state of the Service shown, greater than 0; an unsupported type is an error before any call. |
| Reconciler.Cluster.CreateIfMissing | internal/infrastructure/k8sdatabase/provider.go:220-225 | The call adds the object it is given, a Service with the port the cluster assigns, if none of its kind exists and it takes effect, leaves an existing one alone, touches nothing else, and reports an error exactly if it did not succeed. |
| Reconciler.Cluster.GetNodePort | internal/infrastructure/k8sdatabase/provider.go:364-375 | The port read is the one in some state of the Service no older than one already read; an absent Service, an unassigned port or a failed call is an error. |
| Reconciler.Cluster.Stop | internal/infrastructure/k8sdatabase/provider.go:155-172 | The deletes of Service, Pod, ConfigMap, PVC and PV are issued in this order whatever each comes to, and an object is left exactly if it was there and the delete of its kind failed. |
| Reconciler.Cluster.CreateClone | internal/infrastructure/zfs/agent_provider.go:98-139 | The volume returned is the clone of that name on the dataset of the type; the last call is the clone, the share, its check or the roll-back; there is an error exactly if that call did not succeed or was the roll-back, and then the failure is recorded next. |
| Reconciler.Cluster.ZfsClone | internal/infrastructure/zfs/agent_provider.go:102-128 | The command asked for clones the snapshot given, which is the one the spec names, on the dataset of the type to the name of the branch; an existing clone is left as it is and counts as made, otherwise the clone has the content of the snapshot at that moment. |
| Reconciler.Cluster.ZfsDestroy | internal/infrastructure/zfsagent/provider.go:152-173 | The clone of that dataset goes if the call takes effect, whether or not it was there, and nothing else changes. |
| Reconciler.Cluster.UpdateStatus | internal/interface/operator/reconciler.go:75-79 | The stored branch gets the new status, and that alone, exactly if the call takes effect against the newest version; the caller sees an error exactly if it failed, lost its answer or was refused. |
| Reconciler.Cluster.UpdateFinalizer | internal/interface/operator/reconciler.go:61-67 | The finalizer is set or dropped exactly if the call takes effect against the newest version, a marked branch going with it; the caller sees an error exactly if it failed, lost its answer or was refused. |
| Reconciler.Cluster.DeleteBranch | internal/interface/operator/reconciler.go:51-53 | The newest version is marked if the call takes effect; a failed call or an absent branch is an error. |
| Reconciler.CalmEnds | internal/interface/operator/reconciler.go:33-113 | Any sequence of successful calls that reaches the end of a pass ends where Finished says, with the answer FinishedAnswer. |
| Branches.ObjectNamesInjective | internal/infrastructure/k8sdatabase/provider.go:197-202 | Objects of one kind of different branches have different names. |
| System.SysStepInv | internal/interface/api/k8s_branch_handler.go:459-479 | Every step of branches and collection passes together keeps every branch invariant and what each pass knows. |
| System.HarmNeedsReuse | internal/interface/api/k8s_branch_handler.go:459-479 | In any run, with users creating and deleting branches while any number of passes sweep: when a pass whose branch listing succeeded is about to destroy a clone whose branch exists, its name was reused within the pass (a branch at the clone listing, none at the branch listing, one now), or the pass listed an orphan from before the operator and a branch of its name was made after the branch listing. |
| System.GcNeverHarms | internal/interface/api/k8s_branch_handler.go:459-479 | In all other cases the name swept has no branch, and no clone but one from before the operator. |
| System.NeverHarmed | internal/interface/api/k8s_branch_handler.go:459-479 | In a run in which every sweep belongs to a pass with a successful branch listing and is of a name not reused within that pass, nor of an orphan from before the operator that has been given a branch since, no sweep ever hits a branch that exists, whatever new names come into being meanwhile. |
| System.ReadyHasAll | internal/interface/operator/reconciler.go:88-112 | In such a run of the whole system a Ready unmarked branch has its clone, all its objects, and a recorded port that its Service was last read with. |
| System.FailedListingHarms | internal/interface/api/k8s_branch_handler.go:465-466 | With the branch listing failed, any listed clone may be destroyed while its branch exists. |
| System.ReversedListingHarms | internal/interface/api/k8s_branch_handler.go:459-466 | Every run without a branch of some name continues to one where a branch made after a branch listing serves and is an orphan to a clone listing made then, which a sweep deprives of its clone; to the order of the source it is none. |
| System.ReuseHarms | internal/interface/api/k8s_branch_handler.go:459-479 | Every run with a serving branch continues to one where, within one complete pass, the branch is deleted after its clone was listed and one of its name made after the branches were; it serves and is swept, and its clone is missing if and only if it is on the dataset of the first. |
| System.CreatedThenSwept | internal/interface/api/k8s_branch_handler.go:459-479 | When a branch is made under a name on the list of a complete pass, serves and is swept, it has lost its clone if and only if its type is served on the dataset of the pass. |
| SystemPool.WholeInv | internal/infrastructure/zfs/agent_provider.go:98-169 | With every clone made and destroyed in the pool by the command of the agent, and snapshots and databases changing the pool in between, branches, passes and pool keep their invariants and the clones of every branch are the same in both. |
| SystemPool.ReadyOnPool | internal/infrastructure/zfs/agent_provider.go:98-139 | In such a run with such sweeps a Ready unmarked branch has its clone in the pool the agent works on, with an origin that has the content recorded when the clone was made, and its PV, unless left over, exports exactly that clone. |
| SystemPool.SweepSparesPool | internal/interface/api/k8s_branch_handler.go:471-479 | When such a sweep comes to a name, no branch has it, and the pool has no clone of it but those there from before the operator. |
| GcHandler.KeepCount | internal/interface/api/k8s_branch_handler.go:455-457 | A keep count that is not positive becomes five, any other is taken as given. |
| GcHandler.K8sBranchHandler.ListZfsClones | internal/interface/api/k8s_branch_handler.go:459-463 | The names are the clones of the dataset at one instant, each once, or none when the agent cannot list them; when the agent cannot be reached the pass does not begin. |
| GcHandler.K8sBranchHandler.ListOrphans | internal/interface/api/k8s_branch_handler.go:464-470 | The orphans are the listed clones without a branch at one later instant, or all of them if that listing fails. |
| GcHandler.K8sBranchHandler.DeleteClone | internal/interface/api/k8s_branch_handler.go:472-476 | A sweep of the run and the destroy command of the agent are one: no other clone is touched, and when the destruction is confirmed the clone is not in the pool, disturbed or not; alone, exactly it goes. |
| GcHandler.K8sBranchHandler.SweepOrphans | internal/interface/api/k8s_branch_handler.go:471-479 | Every orphan is tried once, failures are passed over, and the names returned are those confirmed; alone, the pool is left without exactly the orphans. |
| GcHandler.K8sBranchHandler.CollectOrphans | internal/interface/api/k8s_branch_handler.go:459-479 | Every execution is a run of the system that lists clones, then branches, then tries every orphan; the names reported are, without duplicates, exactly those confirmed; alone, they are exactly the clones in the pool that have no branch. |
| GcHandler.K8sBranchHandler.HandleGC | internal/interface/api/k8s_branch_handler.go:445-492 | The orphans, then the archives, on one pool: only clones of the dataset and archives beyond the requested count, or five, of the listing are ever destroyed; success means that the archives were judged by a listing of some moment and those returned are exactly those confirmed, failure that none was; alone, exactly the clones without a branch go, and then exactly the victims of the pool they leave behind, so that an archive only an orphan held goes too. |
| ResetHandler.K8sBranchHandler.DeleteBranch | internal/interface/api/k8s_branch_handler.go:511-517 | A delete that succeeds marks a branch that has the finalizer and removes one that has none; nothing else changes. |
| ResetHandler.K8sBranchHandler.DeleteCovered | internal/interface/api/k8s_branch_handler.go:511-519 | Of the branches of the given type, all branches if it is empty, a set of as many names as counted is deleted: those with the finalizer are marked, those without are gone; undisturbed the set is all of them; no other branch changes, comes or goes. |
| ResetHandler.K8sBranchHandler.HandleResetDataset | internal/interface/api/k8s_branch_handler.go:494-530 | The same of the branches; only clones and snapshots of the dataset are destroyed, and success means that the destruction of every listed one was confirmed; alone, it succeeds, the dataset ends empty, nothing outside it changes, and a branch of another type keeps its clone if and only if its type is served on another dataset. |
| ResetHandler.SharedDataset | internal/interface/api/zfsagent/handler.go:75-84 | With every configured type on a dataset of its own, two types share a dataset if and only if the same configured type stands in for both. |
| ResetHandler.FallbackBranchLosesClone | internal/interface/api/k8s_branch_handler.go:511-525 | With only mysql configured, resetting mysql leaves a postgres branch unmarked and without its clone. |
| ResetHandler.MarkedStillDrains | internal/infrastructure/zfsagent/provider.go:165-168 | A branch marked by a reset is gone after one undisturbed pass although its clone was destroyed before its finalizer ran. |
| Zfs.DataPreserved | internal/infrastructure/zfs/agent_provider.go:40-80 | Over any interleaving of agent commands with any of them failing, a clone has the same base at any two moments, and its origin then exists under its present name with exactly that content. |
| Zfs.SnapshotHoldsLastWrite | internal/infrastructure/zfs/agent_provider.go:61-61 | A snapshot taken has the content last written to its dataset before it, whatever other commands run or fail in between, and a clone made of it then is based on that content. |
| Zfs.ExecPreserves | internal/infrastructure/zfs/agent_provider.go:40-80 | No single command orphans a clone or changes the content of an origin. |
| Zfs.RunIsolated | internal/infrastructure/zfs/agent_provider.go:257-259 | Commands on one dataset leave snapshots and clones of every other dataset alone. |
| Agent.AgentProvider.TakeSnapshot | internal/infrastructure/zfs/agent_provider.go:40-62 | In any case it succeeds exactly if the snapshot command was answered Ok; with overwrite that command follows a destroy answered Ok or not found, or a rename answered Ok after a destroy refused for dependents, and nothing follows any other answer. Alone, only the named snapshot and its archive are touched; overwriting one in use moves it with its time and content to the archive name and every clone of it along; it fails, changing nothing, exactly when the archive name is taken or an existing snapshot is not to be overwritten. |
| Agent.AgentProvider.MakeRoom | internal/infrastructure/zfs/agent_provider.go:42-60 | There is room exactly if the destroy was answered Ok or not found, or was refused for dependents and the rename that then follows was answered Ok; alone, destroyed when unused, renamed when in use, refused when the archive name is taken. |
| Agent.AgentProvider.DeleteSnapshot | internal/infrastructure/zfs/agent_provider.go:65-80 | One destroy: success exactly if answered Ok, not found exactly if it does not exist; alone, missing, in use and destroyed are told apart, and only the last changes the pool. |
| Agent.AgentProvider.ListSnapshots | internal/infrastructure/zfs/agent_provider.go:83-89 | On success the snapshots of the dataset at one instant, each once, with the minute each was created in. |
| Agent.AgentProvider.CreateClone | internal/infrastructure/zfs/agent_provider.go:98-139 | In any case it succeeds exactly if the clone command was answered Ok or that the clone exists and the clone is shared, with the path /dataset/branches/name, and a new clone that cannot be shared is destroyed; alone, a new clone has the content of its snapshot and an existing one stays as it is. |
| Agent.AgentProvider.DeleteClone | internal/infrastructure/zfs/agent_provider.go:146-169 | Success exactly if the last destroy was answered Ok, not found exactly if the first was answered so; a second is only issued after another answer; alone, a missing clone is reported as not found, any other is destroyed and nothing else changes. |
| Agent.AgentProvider.SweepOne | internal/infrastructure/zfs/agent_provider.go:288-300 | At most a destroy of this archive is issued, and it is reported gone exactly if that was confirmed; alone, exactly if it exists and no clone depends on it. |
| Agent.AgentProvider.SweepSorted | internal/infrastructure/zfs/agent_provider.go:287-301 | In any case only members beyond the first keepCount are ever destroyed and the names returned are those confirmed, in order; alone, exactly the unused ones go. |
| Agent.AgentProvider.ListClones | internal/infrastructure/zfs/agent_provider.go:205-233 | The names listed are exactly the clones of the dataset at one instant, each once; a failed listing counts as empty. |
| Agent.AgentProvider.SweepGroup | internal/infrastructure/zfs/agent_provider.go:282-302 | The same for a group that is sorted first: whatever else goes on, its first keepCount in sorted order are kept. |
| Agent.AgentProvider.GCSnapshots | internal/infrastructure/zfs/agent_provider.go:264-304 | Whatever else goes on, only archives beyond the first keepCount of their group in one listing are ever destroyed, every name destroyed ends in a dash, eight digits, a dash and six digits, and the names returned are, each once, exactly those whose destruction was confirmed; alone, they are exactly the victims of the listing, whatever the order of the groups. |
| Agent.AgentProvider.ResetDataset | internal/infrastructure/zfs/agent_provider.go:326-348 | Alone it succeeds and leaves the dataset without clones and snapshots and everything else unchanged; in any case it only destroys on its dataset, and succeeds only after the destruction of every listed clone and snapshot has been confirmed. |
| Agent.AgentProvider.ResetListed | internal/infrastructure/zfs/agent_provider.go:332-348 | In any case no snapshot is destroyed before every listed clone has been, and it succeeds exactly if all clones, the listing of the snapshots and all snapshots were confirmed; undisturbed from the listing on, it succeeds if and only if the list is exactly the clones still there, and otherwise every snapshot is left when a listed clone is gone. |
| Agent.AgentProvider.DestroyClones | internal/infrastructure/zfs/agent_provider.go:332-336 | For any list without repetition: it succeeds if and only if every listed clone is there, and destroys exactly those listed before the first that is not. |
| Agent.AgentProvider.DestroySnapshots | internal/infrastructure/zfs/agent_provider.go:338-346 | Given the snapshots of the dataset it succeeds if and only if no clone depends on any of them, and then none is left. |
| Agent.AgentProvider.ResetMeetsOperator | internal/infrastructure/zfs/agent_provider.go:326-348 | When the operator drains a branch between the listing of the clones and their destruction, the reset fails and leaves every snapshot. |
| SnapshotGc.GroupArchives | internal/infrastructure/zfs/agent_provider.go:269-280 | The map holds for each prefix exactly the listed archives of that prefix, in listing order. |
| SnapshotGc.GroupInOrder | internal/infrastructure/zfs/agent_provider.go:269-280 | The members of a group come in the order of the listing. |
| SnapshotGc.ExactlyTheOldUnused | internal/infrastructure/zfs/agent_provider.go:282-302 | A member of a group is removed if and only if it lies beyond the first keepCount in sorted order and no clone depends on it. |
| SnapshotGc.SurvivorsAreNewer | internal/infrastructure/zfs/agent_provider.go:282-302 | Every removed snapshot leaves keepCount distinct members of its group created no earlier, ties or not. |
| SnapshotGc.OthersUntouched | internal/infrastructure/zfs/agent_provider.go:271-279 | A name that does not end in a dash, eight digits, a dash and six digits is never removed. |
| SnapshotGc.SecondRunIdleExactly | internal/infrastructure/zfs/agent_provider.go:264-304 | A second collection removes nothing, in whatever order the leavings of the first are listed, if and only if in every group each kept snapshot not in use is newer than each one in use beyond the cut. |
| SnapshotGc.UnsettledRemovesMore | internal/infrastructure/zfs/agent_provider.go:282-323 | Where that fails, a listing of the leavings exists from which a second collection removes the kept snapshot. |
| SnapshotGc.SecondRunIdle | internal/infrastructure/zfs/agent_provider.go:264-304 | If no group ties at the cut, a second collection over what is left, listed in any order, removes nothing. |
| SnapshotGc.DistinctTimesNoTie | internal/infrastructure/zfs/agent_provider.go:315-323 | With distinct creation times in each group there is no tie at the cut. |
| SnapshotGc.TieRemovesMore | internal/infrastructure/zfs/agent_provider.go:315-323 | With a tie at the cut a second collection over what the first left can remove a snapshot. |
| Sorting.SortByCreatedDesc | internal/infrastructure/zfs/agent_provider.go:315-323 | The array ends with creation times non-increasing and the same multiset of elements. |
| Sorting.ExchangedSorts | internal/infrastructure/zfs/agent_provider.go:315-323 | The double exchange loop, as a function, orders every sequence and keeps its elements. |
| Sorting.OuterIdle | internal/infrastructure/zfs/agent_provider.go:315-323 | A sequence in order is left as it is, ties included. |
| Names.ArchiveRoundTrip | internal/infrastructure/zfs/agent_provider.go:51-51 | From the archive name built for a name and a time, collection recovers exactly the name. |
| Names.ArchiveNameInjective | internal/infrastructure/zfs/agent_provider.go:51-51 | Different names or times give different archive names. |
| Names.ArchivePrefixExactly | internal/infrastructure/zfs/agent_provider.go:271-279 | A name is an archive of a prefix if and only if it is that prefix, a dash, eight characters from 0 to 9, a dash, and six characters from 0 to 9. |
| Names.LaterSortsBehind | internal/infrastructure/zfs/agent_provider.go:51-51 | Of two archives of one snapshot the later one sorts behind the earlier. |
| Names.InferSnapshotRole | internal/interface/api/k8s_branch_handler.go:82-99 | The role is not current if and only if the name ends in a dash, eight digits, a dash and six digits, which is when collection groups it, and auto exactly when what is before is auto. |
| Names.IsAllDigits | internal/infrastructure/zfs/agent_provider.go:306-313 | True exactly for a non-empty string of decimal digits. |
| Paths.ClonePathInjective | internal/infrastructure/zfs/agent_provider.go:257-259 | Two clones with the same path are the same clone of the same dataset. |
| Paths.SnapPathInjective | internal/infrastructure/zfs/agent_provider.go:41-41 | Two snapshots with the same full name are the same snapshot of the same dataset. |
| Paths.PathsApart | internal/infrastructure/zfs/agent_provider.go:257-259 | Nothing lies below two datasets of which neither lies below the other. |
| Listing.ParseSnapshotList | internal/infrastructure/zfs/agent_provider.go:351-373 | The loop yields the parsed lines in order; lines that are empty or malformed are passed over. |
| Listing.LineExactly | internal/infrastructure/zfs/agent_provider.go:354-362 | A line is skipped if and only if, apart from white space at its ends, it has none inside. |
| Listing.LineSkipped | internal/infrastructure/zfs/agent_provider.go:354-362 | Such a line counts for nothing, wherever it stands. |
| Listing.ListingRoundTrip | internal/infrastructure/zfs/agent_provider.go:351-373 | Any list of names without white space, rendered as zfs output and parsed, comes back with names and dates in order. |
| Listing.ParseCloneList | internal/infrastructure/zfs/agent_provider.go:205-233 | The loop yields the last path element of every line but the one of the branches dataset itself. |
| Listing.CloneListRoundTrip | internal/infrastructure/zfs/agent_provider.go:205-233 | From the recursive listing of a dataset the names extracted are exactly the clones, in order. |
| Routing.ParseDatasets | cmd/zfsagent/main.go:103-115 | The loop yields the map of the well-formed entries, later ones winning. |
| Routing.EntryExactly | cmd/zfsagent/main.go:108-112 | An entry is a type without a colon, a colon and a dataset, neither empty, with any white space round it; it is skipped if and only if, white space apart, it has no colon, nothing before the first, or nothing after it. |
| Routing.MalformedSkipped | cmd/zfsagent/main.go:108-112 | A skipped entry counts for nothing, wherever it stands. |
| Routing.LoadDatasets | cmd/zfsagent/main.go:87-100 | The configuration is never without a dataset: an empty one falls back to mysql on the pool and dataset of the older variables, tank and mysql where these are empty. |
| Routing.BuildProviders | cmd/zfsagent/main.go:73-79 | One provider for each configured type, on its dataset. |
| Routing.NewHandler | internal/interface/api/zfsagent/handler.go:43-50 | The default type is one of the configured ones if there is any. |
| Routing.RouteFromConfiguration | internal/interface/api/zfsagent/handler.go:75-84 | For every configuration string and every requested type a provider is found: the own one of a configured type, else that of the default type. |
| Routing.ConfigurationRoundTrip | cmd/zfsagent/main.go:103-115 | Any map of well-formed types and datasets, printed in any order and with any white space round the entries and parsed, is that map. |
| Routing.RoutedApart | internal/interface/api/zfsagent/handler.go:75-84 | With datasets not nested, any number of commands routed to one type leave snapshots and clones of a type on another dataset unchanged and name nothing below that dataset. |
| Hub.StepInv | internal/interface/api/ws_hub.go:47-120 | Every step of the hub and its connections keeps the invariant. |
| Hub.ChannelSafety | internal/interface/api/ws_hub.go:47-74 | In every state a client is in the map exactly when it has been registered and its channel is open; no channel is closed twice and nothing is sent on a closed one. |
| Hub.StreamContiguity | internal/interface/api/ws_hub.go:59-71 | What a client was sent is the gap-free stretch of the broadcasts taken from the position of its registration in the run to that of its drop or departure, or to now; its buffer never exceeds 256, and it is dropped only with 256 messages in it. |
| Hub.BroadcastOrder | internal/interface/api/ws_hub.go:77-86 | The broadcasts taken followed by those still queued are a subsequence of what was published, and at most 256 are queued. |
| Hub.NeverBlocksUnderLock | internal/interface/api/ws_hub.go:59-71 | From every state in which the loop holds the lock to deliver, as many steps of its own as clients are left, and one more, give the lock back, whatever the state of the channels. |
| Hub.WSHub.Publish | internal/interface/api/ws_hub.go:77-86 | A message is queued unless 256 are queued already, and clients are not touched. |
| Hub.WSHub.OnRegister | internal/interface/api/ws_hub.go:50-53 | Registration is the register step of the machine. |
| Hub.WSHub.OnUnregister | internal/interface/api/ws_hub.go:54-60 | A client still in the map is removed and closed, one dropped before is not closed again. |
| Hub.WSHub.OfferTo | internal/interface/api/ws_hub.go:64-69 | A client with room gets the message, one without is dropped and its channel closed. |
| Hub.WSHub.OnBroadcast | internal/interface/api/ws_hub.go:61-72 | One message is taken and offered to every client in any order, with connections acting in between; the result is a run of the machine. |
| Hub.WSHub.RunLoop | internal/interface/api/ws_hub.go:47-74 | Any number of rounds is a run of the machine that ends waiting. |
| Refinement.ReadyData | internal/infrastructure/zfs/agent_provider.go:98-128 | Over any interleaving of operator, agent and others, a Ready branch that no sweep hit has its clone in the pool, whose origin exists with the content recorded when the clone was made. |
| Refinement.CommandsSpelled | internal/interface/operator/reconciler.go:82-84 | The operator asks the agent for a clone of the snapshot spec.snapshotRef names, on the dataset of its type and under the name of the branch, or for the destruction of that clone, and for nothing else. |
| Refinement.MadeFromNamedSnapshot | internal/interface/operator/reconciler.go:82-84 | A clone made in a step has as its origin the snapshot that spec.snapshotRef names on the dataset of the type of the branch, which exists, and the content recorded is that of this snapshot. |
| Refinement.MadeForBranch | internal/interface/operator/reconciler.go:82-84 | A clone the operator made was made by a clone command for the branch that has it now, with the snapshot spec.snapshotRef names as its origin and with the content that had then, and has been there unchanged since. |
| Refinement.ForeignFromStart | internal/infrastructure/zfs/agent_provider.go:102-128 | A clone the operator did not make was there before it and has been there unchanged since. |
| Refinement.ReadyProvenance | internal/infrastructure/zfs/agent_provider.go:98-128 | A Ready branch that no sweep hit runs on a clone whose origin has the content its own named snapshot had when its own creation made the clone, or on a clone that was there before the operator. |
| Refinement.JointInv | internal/infrastructure/zfs/agent_provider.go:98-169 | The clone calls of the operator are commands on the pool: the clones of a branch in its machine and in the pool stay the same, with the same content. |

## Left out

- HTTP, JSON, routing tables, bearer tokens and os/exec: each call is one atomic step that may fail.
- The console, static files, Swagger, Helm charts, manifests and scripts: user interface and deployment.
- Pod status, metrics, statistics, the MySQL query and the wait for a port after creation: foreign calls or counting.
- Contents of pods beyond type and version (images, mounts, environment, NFS options) and of PVs beyond the server and the clone they export.
- The separate ZFS client in internal/infrastructure/zfs/client.go: its commands are not among those the agent issues.
- The release of NFS server threads: a busy clone is destroyed again after it, and that may fail.
- Date parsing: the creation time of a listing line is an abstract function of its date text.
- The text of errors: a recorded message says which call failed, not why; the length limit of the line scanner on zfs output is not modelled.
- Fairness: the hub is shown never to be stuck under its lock, not that every message is eventually delivered.
- GcHandler.K8sBranchHandler.HandleGC: says which clones and archives go for a collection that nobody disturbs; a disturbed one is described by what it may touch and what was confirmed, and its pool is that of the run only at its own sweeps; what all runs keep of the pool is in module SystemPool.
- The share property of a clone: whether a share succeeds is an outcome of the call.
- Reconciler.Cluster.Stop: the source always returns without error; the contract also allows an error after the deletes, as the interface the reconciler calls does.
- Reconciler.Cluster.CreateClone: does not say what clones there are at its end, because other parties act between its calls; what each call does is stated by Reconciler.Cluster.ZfsClone and Reconciler.Cluster.ZfsDestroy, and that only the attempt that made a clone undoes it by LifecycleTheorems.CloneStep.
- System.GcNeverHarms: requires that the branch listing succeeded, that the name was not reused within the pass, and that no branch has since been made on a listed orphan from before the operator, because without any of these the claim is false (System.FailedListingHarms, System.ReuseHarms, System.CreatedThenSwept).
- ResetHandler.K8sBranchHandler.HandleResetDataset: of a disturbed reset it says what is touched and what success means, not when it succeeds; Agent.AgentProvider.ResetListed says that for a reset disturbed only before the destruction begins.
- Hub.WSHub.RunLoop: rounds are counted, because a method has to end; the number is arbitrary.
