# StarRocks Kubernetes operator, modelled and proved in Dafny

The operator turns a StarRocksCluster or StarRocksWarehouse object into StatefulSets and keeps the frontend's
(FE) view of compute nodes in step with the pods. This project models the parts in which state is kept across
reconciles and proves what they keep over whole runs.

Objects are JSON trees (`Json`). A list that Kubernetes merges by key (containers, env, finalizers) is an object
indexed by that key, any other list an atom; the JSON text in the last-applied annotation is a tree inside a leaf.
What only the API server writes (deletion mark, generation, status) stands beside the tree. The hash is a function
parameter. Every call that can fail, every default that the server fills in and every write of another actor is an
input, so the lemmas hold for all of them.

| module | what it models |
|---|---|
| `Json`, `ThreeWayMerge` | trees and paths; the two diffs, the merged patch and its application, against a one-step definition of the merge |
| `StatefulSets`, `ApplyLaws` | the apply of one StatefulSet, as a function and step by step on a store; when it is refused, fails, skips or patches, in the fields of the objects |
| `ApplyEffects`, `ApplyRuns`, `ApplyCache`, `Orphans` | one apply; runs with other actors and crashes; the hash as a cache; what a crash costs |
| `ApplyRefinement`, `AlwaysPatch`, `SkipLimits` | the guarded apply against one that always patches, in each state and over two parallel runs, and where they part |
| `DisasterRecovery`, `RecoveryReplay` | the recovery state machine and its meeting with the apply |
| `ClusterReconcile`, `ClusterSafety`, `ClusterProgress` | a whole cluster reconcile with its gates, what it keeps, and when it writes |
| `Objects`, `ComputeNodes`, `NodeCollection` | warehouse names; reading, ordering and dropping compute nodes |
| `Warehouses` | the warehouse deletion protocol, interleaved with other actors |
| `StorageVolumes`, `ChartValues`, `Phases` | mounts and claims; chart values migration; reported phases |

The methods follow the source step by step and are proved equal to a specification function, or against a direct
statement of their result; the lemmas are about those functions. A hypothesis that the code needs is a `requires`
clause with a name of its own (`Legal`, `Quiet`, `Disciplined`, `Fair`, `Orderly`).

Properties that turned out to hold only under a condition, each with the exact condition proved:

- A process that dies between the two writes of a patch leaves the new hash beside the old record, and no retry
  repairs that (`ApplyCache.CrashIsNotRetried`). The next patch removes a value that it does not want exactly if it
  drops it from the older record (`ApplyCache.CrashOrphansIff`). A value within an entry (a field, a variable, a
  container) that the older record does not have stays over every later run that neither sets the entry again nor
  stops setting what it is an entry of (`Orphans.CrashOrphanStays`); when an enclosing entry that the record knows
  is given up, it goes with it (`Orphans.GoesWithItsEntry`). So the restore variable of a recovery that crashed in
  its patch outlives the recovery (`RecoveryReplay.CrashedRecoveryIsNotUndone`).
- The guard and an operator that always patches part if a skip rests on no noted hash, or if the server fills in
  something new just then (`SkipLimits.NotedHashIsNeeded`, `SkipLimits.StableFillIsNeeded`).
- A merge repeated from a stale record is empty only if nothing was dropped (`ThreeWayMerge.MergeTwice`).
- The rollout gate accepts a status that predates the spec just patched, and lets a BE create through in the same
  reconcile (`ClusterSafety.BackendPassesTheStaleGate`). When the status behind a gated write is that of the stored
  spec is `ClusterSafety.GateIsCurrentIff`.
- BE is frozen during disaster recovery only if it can read the FE config (`ClusterSafety.BeFreezeNeedsTheConfig`).
- The recovery readiness check accepts any variable with the right value, and a pod without an FE container, against
  its own comment (`DisasterRecovery.UnrelatedVariableCounts`). It means its comment exactly if all pods are plain
  (`DisasterRecovery.RestoredMeans`), and for the pods of a cluster, sidecars included, exactly if no unrelated variable of the user has
  the generation as its value (`DisasterRecovery.TemplateReadinessIff`).
- With repeated ordinals a live compute node can be dropped (`NodeCollection.RepeatedOrdinalIsDropped`); when exactly
  is `NodeCollection.LiveNodesAreSparedIff`.
- A warehouse can vanish without a DROP attempt: if its CR is deleted after a reconcile has read it, or is created
  again, if the StatefulSet is deleted directly, or if its finalizers are edited away, be it between the two writes
  of a patch. Exactly which steps end the protection, and which runs lose the DROP, are `Warehouses.StepLosesIff`
  and `Warehouses.LossIff`.
- A validated host path volume has a path only under the exact spelling of the class name
  (`StorageVolumes.OnlyTheExactSpellingGuaranteesAHostPath`).
- Downgrading chart values without a section of the operator's own gives output that does not parse
  (`ChartValues.DowngradeFlattensIff`).

## Model

| member | source | states |
|---|---|---|
| ThreeWayMerge.MergeRefines | pkg/k8sutils/k8sutils.go:242-258 | applying the merged patch (deletions from last-applied against desired, additions from actual against desired) gives the one-step three-way merge, for all trees |
| ThreeWayMerge.MergedAt | pkg/k8sutils/k8sutils.go:201-251 | path by path: desired values win, a dropped path is gone with all below it, every other path keeps its actual value |
| ThreeWayMerge.PatchEmptyIff | pkg/k8sutils/k8sutils.go:248-255 | the patch is empty iff nothing was dropped and actual already holds everything desired |
| ThreeWayMerge.MergeTwice | pkg/k8sutils/k8sutils.go:212-255 | merging again after a recorded merge gives the empty patch; from a stale record, iff nothing had been dropped |
| StatefulSets.ApplyStatefulSet | pkg/k8sutils/k8sutils.go:155-199 | the stepwise apply leaves the store, the outcome and the caller's object that the specification functions say |
| StatefulSets.PatchByThreeWayMerge | pkg/k8sutils/k8sutils.go:209-277 | the two writes of a patch, with failures and a foreign write between them, end in the specified store |
| StatefulSets.RecordLastApplied | pkg/k8sutils/k8sutils.go:262-274 | the record is written onto what the server holds by then, so writes in between survive |
| ApplyEffects.SentFacts | pkg/k8sutils/k8sutils.go:183-198 | what is patched carries its own hash, the existing service name, an ordered policy if there is one, and never the last-applied annotation |
| ApplyEffects.AlignedEquality | pkg/common/resource_utils/statefulset.go:72-93 | the write decision compares the hash of what would be sent with the stored one, or with the hash of the actual fields if none is stored |
| ApplyEffects.EmptyPatchUnreachable | pkg/k8sutils/k8sutils.go:252-255 | the empty-patch exit is never taken from ApplyStatefulSet |
| ApplyEffects.ApplyExistingIs | pkg/k8sutils/k8sutils.go:161-198 | an apply to an existing object patches to exactly the merge and its record, or clears a deleted object, or changes nothing, and when |
| ApplyEffects.PatchedAt | pkg/k8sutils/k8sutils.go:242-276 | per path after a patch: desired value, or gone unless the server fills it, or the former value |
| ApplyLaws.RefusedIff | pkg/k8sutils/k8sutils.go:175-181 | an apply without leave to scale to one is refused iff the object was read and is not waiting for finalizers, more than one replica is stored, and one or an unsaid number is asked for; with leave never |
| ApplyLaws.RecordDecides | pkg/k8sutils/k8sutils.go:212-277 | an unhindered apply under another hash patches iff the record is missing, blank or an object, and then records what was sent; otherwise it fails and changes nothing |
| ApplyLaws.FirstPatchKeeps | pkg/k8sutils/k8sutils.go:212-251 | the first patch of an object without a record removes nothing |
| ApplyLaws.FailuresChangeNothing | pkg/k8sutils/k8sutils.go:160-167 | a failed read or first write leaves the object as it is |
| ApplyLaws.ScalesTo | pkg/k8sutils/k8sutils.go:175-198 | an unhindered apply under another hash stores the replicas asked for, if they are not one or it has leave |
| ApplyLaws.RescaleGoesThrough | pkg/k8sutils/k8sutils.go:155-198 | after a recorded apply, a change of the replicas to any number but one is patched at once |
| ApplyLaws.PatchKeepsWhatCreationFixed | pkg/k8sutils/k8sutils.go:183-188 | a patch keeps the service name and an OrderedReady policy, and stores the user's policy otherwise |
| ApplyLaws.CreateStores | pkg/k8sutils/k8sutils.go:279-298 | creation stores everything asked for, the record of it, and nothing else but defaults |
| ApplyLaws.NextApplyWritesIff | pkg/common/resource_utils/statefulset.go:43-93 | after a recorded apply of one object, the next of another writes nothing iff the two agree in name, namespace, labels, finalizers, selector, pod template, claim templates, update strategy, retention policy, minReadySeconds and replicas, and otherwise patches |
| ApplyRuns.NoOrphans | pkg/k8sutils/k8sutils.go:155-298 | over every run with other actors, failures and crashes, every stored path is in the last applied tree, or was added by others or the server since the operator last owned it, or was set by a patch whose record was lost and not taken over since |
| ApplyRuns.AfterPatch | pkg/k8sutils/k8sutils.go:155-298 | in every world that a run reaches, a completed patch stores all desired values, keeps what the operator never set, and leaves no other path than those added since by others or by a patch still unrecorded |
| ApplyRuns.UnsetIsGone | pkg/k8sutils/k8sutils.go:209-277 | what the operator once set and recorded is gone after a later completed patch that does not want it, whatever crashed before, if nobody added it again |
| ApplyCache.AlignedHash | pkg/common/resource_utils/statefulset.go:43-68 | the hash of what would be sent depends on the actual object through the service name only |
| ApplyCache.AtMostOneCreateAndOnePatch | pkg/k8sutils/k8sutils.go:161-198 | for a fixed desired object, at most one create and one patch over any number of reconciles, defaults and foreign edits that keep hash, service name and namespace |
| ApplyCache.CrashIsNotRetried | pkg/k8sutils/k8sutils.go:258-274 | after a crash between the writes the old record stays and every later apply of the same object writes nothing |
| ApplyCache.CrashOrphansIff | pkg/k8sutils/k8sutils.go:212-276 | a value of the unrecorded patch that the next one does not want is removed by it iff it is dropped from the older record |
| Orphans.CrashOrphanStays | pkg/k8sutils/k8sutils.go:212-276 | a value that an unrecorded patch set, within an entry that the older record does not have, stays over every run, with any number of completed patches, in which the object lives, no desired object sets the entry, each sets what it is an entry of, and no other actor touches it |
| Orphans.GoesWithItsEntry | pkg/k8sutils/k8sutils.go:212-251 | a patch that gives up an entry known to the record removes everything in it, recorded or not |
| ApplyRefinement.SkipRefinesPatch | pkg/k8sutils/k8sutils.go:190-198 | without hash collisions, the write saved by equal hashes would have left all hashed fields as they are |
| ApplyRefinement.GuardRefinesAlwaysPatch | pkg/k8sutils/k8sutils.go:183-198 | in every state of a run in which others keep the hashed fields and patches complete, a skipped write would have left all hashed fields as they are |
| AlwaysPatch.GuardedFollowsAlways | pkg/k8sutils/k8sutils.go:183-198 | run beside an operator that always patches, on the same requests with defaults, failures, edits and deletions, the guarded one keeps equal hashed fields, hash and existence throughout, if skips rest on a noted hash and meet no new default |
| SkipLimits.NotedHashIsNeeded | pkg/common/resource_utils/statefulset.go:72-93 | on an object just created, spelling out a default and taking it back leaves the two operators with different hashed fields |
| SkipLimits.StableFillIsNeeded | pkg/k8sutils/k8sutils.go:190-198 | a new default of the server at a skip reaches the object of the always-patching operator only |
| ApplyRefinement.CreationFixesServiceAndPolicy | pkg/k8sutils/k8sutils.go:183-188 | service name and an OrderedReady policy never change while the object lives |
| DisasterRecovery.HasClusterSnapshotConf | pkg/subcontrollers/fe/fe_disaster_recovery.go:88-100 | true iff some mount carries the snapshot configuration |
| DisasterRecovery.CarriesSnapshotIff | pkg/subcontrollers/fe/fe_disaster_recovery.go:92-96 | a mount counts iff its sub-path names cluster_snapshot.yaml or its path ends in fe/conf, with or without a slash |
| DisasterRecovery.RecoveryIsEnteredIff | pkg/subcontrollers/fe/fe_disaster_recovery.go:21-46 | with a run mode that says shared_data, recovery is entered iff it is asked for, enabled and not done for its generation, and with the query port |
| DisasterRecovery.NoRecoveryElsewhere | pkg/subcontrollers/fe/feconfig.go:23-28 | with no run mode, or one that does not say shared_data, it is never entered |
| DisasterRecovery.CheckFEReadyInDisasterRecovery | pkg/subcontrollers/fe/fe_disaster_recovery.go:148-197 | true iff pods were listed, there are some, and each FE container carries the generation and each FE status is ready |
| DisasterRecovery.StarRocksCluster.EnterDisasterRecoveryMode | pkg/subcontrollers/fe/fe_disaster_recovery.go:49-86 | the stepwise phase switch leaves the specified status, object and error |
| DisasterRecovery.ReasonsAre | pkg/subcontrollers/fe/fe_disaster_recovery.go:62-84 | the reason that each step of a recovery stores |
| DisasterRecovery.StatusNeverGoesBack | pkg/subcontrollers/fe/fe_disaster_recovery.go:21-86 | over every run with edits and lost status writes, the stored generation and phase never decrease and the phase is one of three |
| DisasterRecovery.DoneIsNotEntered | pkg/subcontrollers/fe/fe_disaster_recovery.go:41-62 | the phase switch never sees done |
| DisasterRecovery.DoingWasStarted | pkg/subcontrollers/fe/fe_disaster_recovery.go:62-73 | a stored doing was stored by a reconcile that saw the snapshot mounted |
| DisasterRecovery.DoneWasEarned | pkg/subcontrollers/fe/fe_disaster_recovery.go:62-84 | a stored done was preceded by such a stored doing and came from a reconcile that saw the pods restored |
| DisasterRecovery.TwoReconcilesFinish | pkg/subcontrollers/fe/fe_disaster_recovery.go:57-84 | two unhindered reconciles finish a due recovery, with its start and end times |
| DisasterRecovery.DoneAbsorbs | pkg/subcontrollers/fe/fe_disaster_recovery.go:41-46 | after done nothing changes the stored status until the generation rises |
| DisasterRecovery.UnrelatedVariableCounts | pkg/subcontrollers/fe/fe_disaster_recovery.go:142-146 | two inputs that pass the readiness check and fail its description |
| DisasterRecovery.RestoredMeans | pkg/subcontrollers/fe/fe_disaster_recovery.go:142-197 | the check never misses a restored FE; pods that pass it run the restore iff each has an FE container and status and no container holds the generation without the restore variable |
| DisasterRecovery.TemplateReadinessIff | pkg/subcontrollers/fe/fe_disaster_recovery.go:126-197 | for all pods of the user's template or of rewritten ones, with any sidecars and with or without statuses, the check is its description iff no variable of the user has the generation as its value without the restore variable having it |
| DisasterRecovery.EarlierRecoveryDoesNotCount | pkg/subcontrollers/fe/fe_disaster_recovery.go:167-181 | a pod rewritten for one generation does not pass the check for another |
| ClusterReconcile.StarRocksClusterReconciler.SyncFeCluster | pkg/subcontrollers/fe/fe_controller.go:62-146 | the FE step leaves the specified store, status, writes and error |
| ClusterReconcile.StarRocksClusterReconciler.PrepareFe | pkg/subcontrollers/fe/fe_controller.go:113-127 | the object to apply and the status in memory, in or out of recovery |
| ClusterReconcile.StarRocksClusterReconciler.CheckFEFullyRolledOut | pkg/subcontrollers/fe/fe_controller.go:271-302 | true iff the FE was read and is stored, has as many ready replicas as asked for, and equal revisions |
| ClusterReconcile.StarRocksClusterReconciler.SyncBeCluster | pkg/subcontrollers/be/be_controller.go:62-149 | the BE step behind its gates |
| ClusterReconcile.StarRocksClusterReconciler.SyncCnCluster | pkg/subcontrollers/cn/cn_controller.go:113-194 | the CN step behind its gates |
| ClusterReconcile.StarRocksClusterReconciler.ReconcileCluster | pkg/controllers/starrockscluster_controller.go:66-140 | nothing for a cluster that is absent or being deleted; else the steps in order up to the first failure, then the status write that may be lost |
| ClusterSafety.StatusFollows | pkg/controllers/starrockscluster_controller.go:90-140 | the stored recovery status moves by the recovery machine alone, whatever else fails |
| ClusterSafety.FailingFeStopsAll | pkg/controllers/starrockscluster_controller.go:90-102 | a failing FE step means no BE or CN write |
| ClusterSafety.WritesAreGated | pkg/subcontrollers/be/be_controller.go:88-99 | every BE or CN create or patch happens after a successful FE step, with the FE object of that step stored and, with WaitForFullRollout, with its replicas ready and its revisions equal |
| ClusterProgress.FrontEndSucceedsIff | pkg/subcontrollers/fe/fe_controller.go:62-146 | the FE step ends well iff spec, config, objects and services are good, recovery has no objection and the apply is created, cleared, unchanged or patched |
| ClusterProgress.BackendWrittenIff | pkg/subcontrollers/be/be_controller.go:62-149 | a reconcile writes BE iff the FE step ended well, BE is valid and prepared, the FE gate is open in its fields, no recovery is seen and the apply writes; the stored BE is then what the apply makes |
| ClusterProgress.ComputeNodesWrittenIff | pkg/subcontrollers/cn/cn_controller.go:113-194 | the same for CN, after a good BE step and with the FE config read |
| ClusterProgress.BackendFailsIff | pkg/subcontrollers/be/be_controller.go:62-149 | what the BE step fails on; never a closed gate or recovery |
| ClusterProgress.ComputeNodesFailIff | pkg/subcontrollers/cn/cn_controller.go:113-194 | what the CN step fails on, a missing FE config first |
| ClusterProgress.RemovedComponentsGo | pkg/subcontrollers/be/be_controller.go:66-74 | a BE or CN whose spec was removed is deleted, at once or once its finalizers are gone |
| ClusterSafety.GateMissesTheRolloutJustStarted | pkg/subcontrollers/fe/fe_controller.go:284-301 | after a patch of the FE spec that keeps its replicas the gate is still open although the spec is not observed |
| ClusterSafety.BackendPassesTheStaleGate | pkg/subcontrollers/be/be_controller.go:88-99 | the reconcile that makes such a patch creates a missing BE StatefulSet, with the FE spec not observed |
| ClusterSafety.GateIsCurrentIff | pkg/subcontrollers/fe/fe_controller.go:264-301 | the FE status behind a gated write is that of the stored spec iff it was current before the reconcile and the FE apply is one that does not patch or patches without changing the spec |
| ClusterSafety.HealthyReconcileSettles | pkg/controllers/starrockscluster_controller.go:90-126 | for a cluster with an FE and any of BE and CN: after one unhindered reconcile of existing objects any number of later ones for the same objects, failing anywhere, write nothing and change nothing |
| ClusterSafety.DisasterRecoveryFreezes | pkg/subcontrollers/cn/cn_controller.go:137-146 | while recovery is active after the FE step, BE and CN, as far as the cluster has them, are not written |
| ClusterSafety.BeFreezeNeedsTheConfig | pkg/subcontrollers/be/be_controller.go:101-106 | during recovery a missing BE StatefulSet is created iff the FE config could not be read |
| ClusterSafety.ScaleTo1OnlyInDisasterRecovery | pkg/k8sutils/k8sutils.go:175-181 | one reconcile takes the stored FE replicas from more than one to one only in recovery |
| ClusterSafety.NoBackendWriteBeforeRecovery | pkg/subcontrollers/fe/fe_controller.go:113-132 | in any run of a cluster with or without BE and CN, while recovery of a generation is asked for, BE and CN are written only after a stored doing that saw the snapshot and a later sight of restored pods |
| RecoveryReplay.RewriteInWords | pkg/subcontrollers/fe/fe_disaster_recovery.go:102-140 | one replica, no startup and liveness probe, a check of the query port for readiness, the two restore variables, at the paths of the FE container |
| RecoveryReplay.RewriteKeeps | pkg/subcontrollers/fe/fe_disaster_recovery.go:102-124 | nothing else of the object changes |
| RecoveryReplay.RecoveryObjectIsOne | pkg/subcontrollers/fe/fe_disaster_recovery.go:62-84 | all steps of a recovery ask for the same object, whatever status is stored |
| RecoveryReplay.ReplayWritesNothing | pkg/controllers/starrockscluster_controller.go:129-140 | once patched, a later FE step of the same recovery leaves the StatefulSet as it is, even after lost status writes |
| RecoveryReplay.RecoveryWritesAtMostTwice | pkg/controllers/starrockscluster_controller.go:129-140 | over all steps of a recovery, with failures and lost status writes, an existing FE StatefulSet is written at most once, and a missing one created and then patched at most once |
| RecoveryReplay.LeavingRecoveryRestores | pkg/subcontrollers/fe/fe_controller.go:129-132 | the first ordinary apply after a recorded recovery is neither refused nor skipped, stores what the user asks for, and removes from the pod template every path that only the recovery had set |
| RecoveryReplay.RecoveryIsUndone | pkg/subcontrollers/fe/fe_controller.go:113-132 | from any run of recovery steps that wrote, with records completed, to the first FE step with recovery no longer active: that step patches once, stores what the user asks for and removes every path of the pod template that only the recovery had set |
| RecoveryReplay.CrashedRecoveryIsNotUndone | pkg/k8sutils/k8sutils.go:258-274 | if the recovery patch dies before its record, the restore variable is still stored after any number of ordinary FE steps of a user who sets other FE variables |
| ComputeNodes.OrdinalInvertsPrinting | pkg/subcontrollers/cn/cn_mysql.go:187-197 | the index parsed from name-i.rest is i, for every dot-free name and i within int |
| ComputeNodes.OrdinalIsNatural | pkg/subcontrollers/cn/cn_mysql.go:189-197 | a parsed index is never negative, whatever the host name |
| ComputeNodes.ScanIs | pkg/subcontrollers/cn/cn_mysql.go:192-196 | what the scan of the index makes of blanks, a sign, digits and the rest, and when there is no number |
| ComputeNodes.QueryShowComputeNodes | pkg/subcontrollers/cn/cn_mysql.go:149-221 | fails iff a row or the row set is bad; else each warehouse has exactly its rows, in ascending order |
| NodeCollection.SyncComputeNodesInFE | pkg/subcontrollers/cn/cn_controller.go:558-631 | succeeds iff replicas, hash, pod count and revisions agree, the node table can be read and every excess node can be dropped, with the error of each early exit; drops exactly a suffix of the ascending list of its warehouse by statements from the back, down to the replicas on success, up to the failed drop otherwise |
| NodeCollection.OnlyDeadNodesAreDropped | pkg/subcontrollers/cn/cn_controller.go:618-628 | with distinct ordinals every dropped node has an ordinal of at least the replicas |
| NodeCollection.LiveNodesAreSparedIff | pkg/subcontrollers/cn/cn_controller.go:618-628 | live ordinals are spared iff the FE lists no more of them than there are replicas |
| NodeCollection.RepeatedOrdinalIsDropped | pkg/subcontrollers/cn/cn_controller.go:618-628 | a table of two nodes with ordinal 0, one of which a complete collection for one replica drops |
| NodeCollection.LowestAreKept | pkg/subcontrollers/cn/cn_mysql.go:210-218 | the nodes that stay have the lowest ordinals |
| NodeCollection.ExactlyTheLiveRemain | pkg/subcontrollers/cn/cn_controller.go:614-630 | if every live ordinal is registered once, the ordinals left in the warehouse are exactly the live ones |
| NodeCollection.RetryContinues | pkg/subcontrollers/cn/cn_controller.go:614-630 | what a failed collection leaves is a shorter listing of the same warehouse, other warehouses untouched |
| Warehouses.DropHitsNoSibling | pkg/k8sutils/templates/object/meta.go:78-81 | two Kubernetes names give the same DROP statement iff they are equal |
| Warehouses.OnlyOneNameIsTheDefault | pkg/subcontrollers/cn/cn_controller.go:614-617 | the name in the FE is the default warehouse iff the object is called default-warehouse |
| Warehouses.ApplyProtects | pkg/k8sutils/templates/statefulset/spec.go:91-95 | applying to a StatefulSet that is not being deleted leaves it there and protected |
| Warehouses.StepLosesIff | pkg/k8sutils/k8sutils.go:169-173 | a protected StatefulSet goes or loses its finalizer in a step iff that is the last call of a clearing, an edit that drops the finalizers, or an apply to an object being deleted or with such an edit between its writes |
| Warehouses.LossIff | pkg/subcontrollers/cn/cn_controller.go:339-375 | over any run the protection ends before a DROP attempt iff some step is such an edit or apply |
| Warehouses.NotGoneBeforeDrop | pkg/subcontrollers/cn/cn_controller.go:339-375 | over every orderly run, with failures at any call, the StatefulSet never vanishes or loses its finalizer before a DROP attempt |
| Warehouses.ClearingCompletes | pkg/controllers/starrockswarehouse_controller.go:71-83 | an unhindered clearing makes one attempt and lets the StatefulSet go whatever the answer |
| Warehouses.DeletionDuringReconcileLosesTheDrop | pkg/k8sutils/k8sutils.go:169-173 | a CR deletion between the read and the apply of one reconcile loses the DROP |
| Warehouses.RecreationLosesTheDrop | pkg/k8sutils/k8sutils.go:169-173 | creating the CR again before its deletion was reconciled loses the DROP |
| Warehouses.DirectDeletionLosesTheDrop | pkg/k8sutils/k8sutils.go:169-173 | deleting the StatefulSet while the CR lives loses the DROP |
| Warehouses.UnprotectingEditLosesTheDrop | pkg/k8sutils/k8sutils.go:155-199 | an edit that drops the finalizers before the CR is deleted loses the DROP |
| Warehouses.EditBetweenWritesLosesTheDrop | pkg/k8sutils/k8sutils.go:258-274 | an edit that drops them between the two writes of a patch loses the DROP |
| Warehouses.LostDropsStayLost | pkg/subcontrollers/cn/cn_controller.go:346-351 | a lost DROP is not attempted later |
| Warehouses.ClearWarehouse | pkg/subcontrollers/cn/cn_controller.go:342-375 | sends DROP WAREHOUSE with an underscore for every dash of the name, the name under which its nodes are collected, iff the executor can be built; then the finalizers go unless that update fails |
| StorageVolumes.MountStorageVolumes | pkg/k8sutils/templates/pod/mount.go:40-68 | volumes and mounts pair up in order by name, read-only on the mount of its own volume |
| StorageVolumes.RenderedAs | pkg/k8sutils/templates/pod/mount.go:40-68 | emptyDir, hostPath and csi in any case, else the sources of a volume without a class, else a claim of its name |
| StorageVolumes.SizedIs | pkg/k8sutils/templates/pod/mount.go:44-46 | volumes count in their order unless their size starts with zero |
| StorageVolumes.PVCList | pkg/k8sutils/templates/statefulset/spec.go:34-62 | the claim templates of the volumes that are neither special nor zero-sized |
| StorageVolumes.ClaimsAre | pkg/k8sutils/templates/statefulset/spec.go:34-62 | one claim, with name, class and size, for each volume that counts and is rendered as a claim, in order |
| StorageVolumes.MountedClaimsAreTheTemplates | pkg/k8sutils/templates/statefulset/spec.go:34-62 | the mounted claims are exactly the claim templates, in order |
| StorageVolumes.ValidIff | pkg/apis/starrocks/v1/starrockscluster_types.go:481-522 | the volumes that validation accepts |
| StorageVolumes.ErrorIs | pkg/apis/starrocks/v1/starrockscluster_types.go:504-522 | which of the CSI errors a rejected volume gets |
| StorageVolumes.ValidatedCsiIsRendered | pkg/apis/starrocks/v1/starrockscluster_types.go:481-522 | a validated volume with an ASCII class is rendered as CSI iff it has a CSI source, with a driver |
| StorageVolumes.LongSFallsBackToAClaim | pkg/apis/starrocks/v1/starrockscluster_types.go:502-522 | a validated CSI volume falls back to a claim iff its class folds to csi only beyond ASCII |
| StorageVolumes.OnlyTheExactSpellingGuaranteesAHostPath | pkg/apis/starrocks/v1/starrockscluster_types.go:485-499 | of the spellings rendered as host path, only the exact one guarantees a path |
| ChartValues.Do | scripts/migrate-chart-value/main.go:105-161 | the migration writes the specified pieces, or nothing, or fails |
| ChartValues.WritesIff | scripts/migrate-chart-value/main.go:115-146 | which file and target are left alone, and which downgrade fails on a type assertion |
| ChartValues.Write | scripts/migrate-chart-value/main.go:163-217 | one section with known keys, blanks defaulted or removed |
| ChartValues.UpgradeSections | scripts/migrate-chart-value/main.go:142-160 | upgrading a flat file parses as the two sections, never empty |
| ChartValues.UpgradedIs | scripts/migrate-chart-value/main.go:142-192 | key by key what the two upgraded sections hold, with the defaults of time zone and name |
| ChartValues.DowngradedIs | scripts/migrate-chart-value/main.go:118-141 | downgrading two non-empty sections reads as the operator's without the shared keys, overlaid by the other |
| ChartValues.DowngradeFlattensIff | scripts/migrate-chart-value/main.go:118-141 | downgrading it again gives each known key once iff the operator had keys of its own, and otherwise does not parse |
| ChartValues.FlatIsOld | scripts/migrate-chart-value/main.go:115-160 | upgrading the flattened file gives the same sections again |
| ChartValues.NewFormatRoundTripIff | scripts/migrate-chart-value/main.go:105-161 | downgrade then upgrade returns a new-format file iff it is normal |
| Phases.Count | pkg/k8sutils/templates/pod/status.go:43-55 | the three lists of pod names, each in order |
| Phases.CountIs | pkg/k8sutils/templates/pod/status.go:43-55 | which pod names are in which list, by readiness and pod phase |
| Phases.ReasonIs | pkg/k8sutils/templates/pod/status.go:30-41 | the reason reported for a pod name is that of the last pod of the name |
| Phases.CountSharesOut | pkg/k8sutils/templates/pod/status.go:43-55 | the three lists together hold every pod once |
| Phases.ComponentStatus.UpdateStatus | pkg/subcontrollers/subcontroller.go:71-130 | lists, phase, reason and error of a component; a failed listing leaves the old phase |
| Phases.RunningIff | pkg/k8sutils/templates/statefulset/status.go:27-52 | running is reported iff all pods are ready and the rollout of the observed spec is done; failed iff some pod waits without running or being pending |
| Phases.PhaseIsOneOfThree | pkg/subcontrollers/subcontroller.go:86-129 | running, reconciling or failed, and never running without the StatefulSet |
| Phases.ReconcileStatus | pkg/controllers/starrockscluster_controller.go:142-167 | the cluster is running iff no FE, BE or CN is reconciling or failed; failed iff a failed one comes first |

## Left out

- Informer cache staleness, conflict retries and backoff: reads see the latest write, a write succeeds or fails as a whole, and one worker reconciles.
- The strategic-merge strategies beyond merge-keyed lists (replace and retain-keys directives, list order): lists are maps or atoms. Two env variables of one name are one entry.
- Server-owned metadata (resource version, creation time) and the status inside the serialized object: kept beside the tree or dropped.
- Hash collisions: `ApplyRefinement`, `AlwaysPatch` and `RecoveryReplay` assume an injective hash; the 32-bit FNV hash of the source is not injective.
- An unset label selector and an empty one count as different in the hashed fields.
- A cluster without an FE spec, the fe-proxy, Deployments, Services, ConfigMaps and autoscalers: same shape as the modelled path, or thin.
- Validation, config lookup, pod template building and the look at the FE endpoints in the cluster reconcile: the outcome of each is an input.
- ClusterReconcile.StarRocksClusterReconciler.ReconcileCluster: the fe-proxy step and the status updates of the components, which come after the three steps and change no StatefulSet of theirs and no recovery status.
- Warehouses.LossIff: the calls of one apply are one step of the warehouse protocol; another actor comes in between its two writes only.
- SQL connection, credentials and TLS: each call succeeds or fails as an input. NULL columns, on which the source panics, do not occur.
- ComputeNodes.SortByIndex: stands for the library sort, of which only the order is used.
- ComputeNodes.ScanInt: blanks are the ASCII ones, and a newline before the number counts as no number.
- The start ordinal of a StatefulSet: live pods are taken to have the ordinals below the replicas.
- Messages, timestamps of reconciles, events and logs, except the reasons and times that the recovery status stores.
- Chart versions other than v1.8.0 and v1.7.1, and YAML syntax beyond what decides whether two marshalled mappings parse as one.
- Class names with folding beyond ASCII other than the long s and the Kelvin sign.
