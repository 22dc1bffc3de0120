# A verified model of Praesto's cache lifecycle and Pod admission

Praesto keeps copies of machine-learning models near the Pods that use them. This project
models, in Dafny, the parts of it where a mistake would lose data or serve half a model, and
proves what they promise. `dafny verify dfyconfig.toml` checks all of it.

## What is modelled

**Local mode as a protocol.** `LocalProtocol` is a labelled transition system: the API store
(ModelCaches and ModelCacheNodes with finalizers and deletion timestamps), one disk per node,
Pods, a clock, the controller's reconcile of each cache and the agent's reconcile of each
ModelCacheNode. Every API write and every disk write is a step of its own, and a reconcile may
stop between any two of them (a crash, a failed call, an early return). `LocalSafety` is the
invariant, `LocalTheorems` what follows for all runs, `LocalDeletion` the termination measure,
and `LocalWitnesses` the runs that show where a promise ends.

**The code on top of it.** `Clusters.Cluster` holds the shared state as mutable fields and a
ghost record of the run so far; its `Valid` says that the record is a run of the protocol.
`NodeAgents.Agent` and `CacheControllers.CacheController` are the reconciles, written as the
source writes them: calls in order, early returns, loops. They can only act through effects
that append a protocol step, so all that is proved of runs holds while they execute. The
`Explains` predicates say what each way of returning tells about the store and the disk, and
from which step it came. Which calls fail is an input (`faults`), and a reconcile gives up
exactly on such a fault or on a conflict with what others did in the meantime.
`LocalReconciles` says, over all runs, what a reconcile must have seen since it began to stand
where it does; so each outcome also follows from what could be seen, and from the object read.
Between two effects `Others` (`OthersOf`) lets everybody else move; its contract is all a
reconcile may rely on, and `AgentMayRely` and `ControllerMayRely` prove that contract of any
number of steps by others. `CsiDrivers.NodeServer` is the reader of the marker, with the same
interference between its marker check and its mount, and with the volume attributes as the text
they are. The statuses of local-mode ModelCaches are in the cluster as well; its `Valid` says that
every one stored is consistent, and `StatusesMayRely` that no writer changes that.

**PVC mode**, in the same way: `PvcProtocol`, `PvcSafety`, `PvcTheorems`, `PvcReconciles`,
`PvcControllers`.
`CacheStatuses` is the status object of a ModelCache and its aggregation, used by both modes.

**Admission.** `Admission.Mutate` says what the webhook does to a Pod; `PodMutators` edits a
Pod object in place and is proved to do that; `AdmissionTheorems` proves framing,
completeness, idempotence, and that admitted Pods are counted by whoever evicts; `AdmittedPods`
says in terms of the Pod and the store alone what an accepted Pod holds, when a Pod is accepted,
and why one is refused. `Usage` is the counting, on both sides. `Paths` and `Overlap` are the path handling, `Downloads` the way
from a repository listing to files, and `KubeIdent` the identifiers everything is labelled with.

## What the proofs found

- **A lost eviction patch strands a cache.** Eviction removes the directory and then patches
  the status. If only the patch is lost, the ModelCacheNode stays Ready without files, and as
  long as Pods on the node use it no agent ever restores them
  (`LocalWitnesses.ALostPatchLeavesReadyWithoutFiles`, `LocalTheorems.LostFilesStayLost`).
  Ready means mountable exactly when no such patch was lost (`LocalTheorems.ReadyIsMountable`).
- **Counting and removing are two steps.** A Pod bound in between loses its directory
  (`LocalWitnesses.APodBoundAfterTheCountLosesItsDirectory`); one bound before the count never
  does (`AdmissionTheorems.AdmissionProtects`). In PVC mode it is the same with Pods created after
  the count (`PvcTheorems.APodCreatedAfterTheCountLosesItsPvc`, `AdmissionTheorems.AdmissionProtectsPvcs`).
- **Checking the marker and mounting are two steps.** The directory can be removed in between,
  and even be there again without its marker when the driver mounts it
  (`LocalWitnesses.AMarkerSeenCanBeGoneAtTheMount`). The marker a driver saw is still there
  exactly if no removal came in between (`LocalTheorems.MarkerStaysExactly`), and for a Pod that
  came through admission only a deletion or an eviction counted before it was bound can be that
  removal (`AdmissionTheorems.AdmissionProtectsMounts`).
- **The attributes of a volume are paths.** The driver joins them to its root and cleans the result,
  so a slash in one leads below a cache's directory and `..` out of the root
  (`Paths.ASlashLeadsBelow`, `Paths.ParentLeadsOut`). Below a cache's directory, a file of the
  repository with the marker's name passes for the marker, while the download may still be under
  way (`CsiDrivers.ARepositoryFileCountsAsMarker`). What a mount rests on is what
  `CsiDrivers.NodeServer.NodePublishVolume` says for any attributes; it is a cache seen complete if
  they are single path segments, as in every volume that admission adds or accepts
  (`AdmissionTheorems.AdmittedVolumesLeadToTheirCaches`). Any two attributes lead to the directory of
  a cache exactly if they come to the root's segments and two more
  (`Paths.SourcePathIsADirectoryOfACacheExactly`).
- **An abandoned rebuild keeps its PVC.** An evicted cache whose rebuild stops after creating the
  PVC, and whose Pod then goes, rests as Evicted with a PVC that the controller never removes
  (`PvcTheorems.AnAbandonedRebuildLeavesItsPvc`, `PvcTheorems.EvictedKeepsALeftoverPvc`).
- **A stale Job marks an empty PVC Ready.** `EnsureDownloadJob` takes any Job of the right
  name. After a user deletes the PVC while the completed Job is still there, the rebuilt cache
  is Ready on a PVC nothing was downloaded to (`PvcTheorems.AStaleJobMarksAnEmptyPvcReady`).
  The Ready mark is sound exactly when the Job finished after the PVC was created
  (`PvcTheorems.ReadyMarkIsSoundExactly`).
- **The nesting check can be blinded.** `/a-b` sorts between `/a` and `/a/b`
  (`Overlap.ASiblingHidesTheNesting`). `Overlap.OverlapExactly` says exactly what is refused.
- **Names collide.** Cache `c` in namespace `a-b` and cache `b-c` in namespace `a` share their
  ModelCacheNode names (`KubeIdent.ACollidingPair`, `KubeIdent.NodeNamesCollide`); PVC and Job names do not tell `.` from
  `-` (`KubeIdent.DotsAndHyphensCollide`). Beside the hash and prefix cases, the sanitised
  strings `""` and `"x"` also come out the same (`KubeIdent.CollisionsExactly`).
- **Praesto's own file names are not reserved.** A listing with a file that cleans to
  `.praesto-complete` puts the marker in place before the download is complete
  (`Downloads.MarkerForgedExactly`).
- **Branches that are never taken**, in reachable states: a Ready object with a zero
  lastUsedTime in either mode, a ModelCacheNode without its ModelCache, and the rewrite of an
  existing ModelCacheNode.
- **Code and documentation differ.** README.md:286 says that the webhook requires the
  ModelCache to be Ready. internal/webhook/pod_mutator.go:187-195 admits every local-mode cache
  that is not Failed, and PVC-mode caches that are Ready or Evicted. The model follows the code.

## Assumptions

- API reads are current, and reconciles of one key do not overlap.
- Disks start without cache directories; what is outside the directories of caches is not known. The
  cache root is absolute or empty, and namespaces and names of caches are single path segments.
- `os.RemoveAll` is one step. A removal file by file would not keep the marker invariant, as the
  marker is not removed first.
- The repository lists no file at or below a name of Praesto's own, the owner file included
  (`LocalProtocol.Listable`; `Downloads.ListableExactly` says it of paths).
- A ModelCacheNode is identified by its cache and node: its name is collision free on the live caches.
- `now` and `time.Until` are one reading of the clock; a stored time keeps whole seconds.
- Specs are immutable, UIDs are fixed by LabelValue (`KubeIdent.LabelValueFixedPoints`), no
  finalizers but Praesto's are set, and Pods keep their volumes, annotation and label.
- PVC mode: deleting the PVC by the controller is immediate; only users and the controller
  delete it; only the controller writes the status; the Job runs on the PVC that exists, and
  expires only once a condition decides it.
- Lower-casing is any map of runes that leaves `[a-z0-9._-]` alone; the short hash is any function to
  ten hexadecimal digits.

## Model

| member | source | states |
|---|---|---|
| LocalTheorems.DeletionSafety | internal/controller/modelcache_controller.go:543-573 | in every run, once the ModelCache object is gone no node holds its directory, no ModelCacheNode is left, and no agent is past its finalizer patch |
| LocalTheorems.MarkerInvariant | internal/nodeagent/agent.go:164-193 | wherever the completion marker exists, the manifest names the ModelCache that exists now, and every listed file is there with the bytes delivered last, with crashes anywhere |
| LocalTheorems.MarkerStaysExactly | internal/csi/node_server.go:57-65 | in every run, a marker seen at one moment is there all the time up to a later one if and only if no agent step in between removes the directory to evict or to delete |
| LocalTheorems.MarkerStaysForBoundPods | internal/nodeagent/agent.go:205-316 | while a Pod uses the directory, only a deletion, or an eviction that counted before the Pod was bound, takes the marker away |
| LocalTheorems.EvictionSparesCountedPods | internal/nodeagent/agent.go:205-297 | a Pod that uses a directory when an eviction removes it was bound after the Pods were counted |
| LocalTheorems.EvictionRespectsTtl | internal/nodeagent/agent.go:279-284 | an eviction at t has t >= stored(u) + ttl and t > u + ttl - 1s for every use or Ready mark u |
| LocalTheorems.EvictionExactly | internal/nodeagent/agent.go:252-297 | with no Pod counted, the agent evicts if and only if the TTL has passed since every recorded use |
| LocalTheorems.RequeueIsExact | internal/nodeagent/agent.go:279-282 | if no use is recorded in between, a later reconcile evicts exactly when the requeue time has passed |
| LocalTheorems.ReachablePhases | internal/nodeagent/agent.go:436-473 | a ModelCacheNode is only empty, Pending, Ready or Evicted; its Ready and DownloadComplete conditions are True exactly when Ready; Ready has a last use |
| LocalTheorems.ReadyIsMountable | internal/nodeagent/agent.go:284-296 | a live Ready ModelCacheNode has its directory and marker if and only if no eviction lost its status patch |
| LocalTheorems.LostFilesStayLost | internal/nodeagent/agent.go:97-110 | after such a loss the directory stays away for as long as Pods on the node use the cache |
| LocalTheorems.NeverRewritten | internal/controller/modelcache_controller.go:598-604 | an existing ModelCacheNode always agrees with the ModelCache, so the update branch is never taken |
| LocalReconciles.WhatAReconcileSaw | internal/nodeagent/agent.go:97-131 | in every run, where an agent's reconcile stands tells what it has seen since it began: a Ready object and a Pod that uses it, a Ready object and none, or an object to populate (new, pending, or evicted and used) |
| LocalReconciles.EvictedStaysEvicted | internal/nodeagent/agent.go:101-110 | in every run, an evicted ModelCacheNode that no Pod uses stays evicted while it exists, and a missing directory stays missing |
| LocalReconciles.NoStatusBeforeTheFinalizer | internal/nodeagent/agent.go:85-95 | in every run, a ModelCacheNode without finalizer has no status yet |
| LocalSafety.Reachable | internal/nodeagent/agent.go:85-95 | finalizers, memory, statuses, times and disks stay consistent in every state of every run |
| LocalDeletion.RankNeverRises | internal/controller/modelcache_controller.go:554-565 | 2 x undeleted + terminating ModelCacheNodes + the object itself never grows under any step while the deletion is under way |
| LocalDeletion.RankCanBeLowered | internal/nodeagent/agent.go:299-316 | while the deletion is under way, agents and the controller alone can lower it |
| LocalDeletion.DeletionCompletes | internal/controller/modelcache_controller.go:543-573 | from every reachable state they can bring the deletion to its end, with no object and no directory left |
| LocalWitnesses.ACacheBecomesReady | internal/nodeagent/agent.go:112-203 | the protocol has runs that reach a Ready cache, so the theorems are about something |
| LocalWitnesses.APodBoundAfterTheCountLosesItsDirectory | internal/nodeagent/agent.go:207-284 | a run in which a Pod bound between count and removal loses its directory |
| LocalWitnesses.ALostPatchLeavesReadyWithoutFiles | internal/nodeagent/agent.go:284-296 | a run in which a lost patch leaves a Ready ModelCacheNode without files |
| LocalWitnesses.AMarkerSeenCanBeGoneAtTheMount | internal/csi/node_server.go:57-65 | a run in which the marker is there, and later the directory is there without it, while a bound Pod uses it |
| NodeAgents.Agent.Reconcile | internal/nodeagent/agent.go:73-203 | one agent reconcile is a stretch of a protocol run. The object it read settles which outcomes are possible: a live new or pending one ends Ready, not prepared or given up; an evicted one may also end not requested; only a Ready one ends with its usage. Each outcome says what holds at its end and what was seen on the way: a Ready object, and Pods that use it or none, behind each usage outcome; an object to populate behind Ready and not prepared. It gives up exactly on a fault or a conflict |
| NodeAgents.Agent.Rehydrate | internal/nodeagent/agent.go:101-110 | an evicted cache is left alone when no Pod on the node uses it, and populated otherwise |
| NodeAgents.Agent.ReconcileReadyCacheUsage | internal/nodeagent/agent.go:205-232 | a used cache gets its last use written; an unused one waits, stays or is evicted |
| NodeAgents.Agent.ReconcileUnusedReadyCache | internal/nodeagent/agent.go:252-297 | no TTL: nothing; bad TTL: an error; otherwise the exact wait, or directory gone and Evicted |
| NodeAgents.Agent.ReconcileDelete | internal/nodeagent/agent.go:299-316 | removes the directory and then the finalizer; afterwards neither object nor directory is there |
| NodeAgents.Agent.PrepareDirectory | internal/nodeagent/agent.go:363-386 | makes the directory and writes the owner file; when any of that fails, the reconcile goes on to the not-prepared report |
| NodeAgents.Agent.Download | internal/modeldownload/huggingface.go:57-71 | every listed file is delivered, in order, each as its reader's chunks joined; it fails where a file would have to lie below another |
| NodeAgents.Agent.CopyChunks | internal/modeldownload/huggingface.go:143-170 | writes each chunk after the ones before it; at the end the file holds all of them |
| NodeAgents.JoinedConcat | internal/modeldownload/huggingface.go:143-170 | joined chunks are all their bytes in order |
| NodeAgents.Agent.WriteCompleteMarker | internal/nodeagent/agent.go:418-423 | the marker is written only after the manifest, for the listing just downloaded |
| NodeAgents.Agent.MarkNodeReady | internal/nodeagent/agent.go:436-454 | marks Ready at a time read after the marker, and only with the marker on disk |
| NodeAgents.Agent.MarkEvicted | internal/nodeagent/agent.go:456-473 | marks Evicted only with the directory gone and the TTL passed |
| Clusters.Cluster.CountPods | internal/nodeagent/agent.go:475-483 | counts the Pods bound to the node that use the cache |
| Clusters.AgentMayRely | internal/nodeagent/agent.go:73-78 | no number of steps by others changes what an agent's reconcile relies on |
| Clusters.ControllerMayRely | internal/controller/modelcache_controller.go:88-104 | the same for the controller: ModelCacheNodes of its cache do not appear, and deletion timestamps stay |
| CacheControllers.CacheController.Reconcile | internal/controller/modelcache_controller.go:88-245 | one local-mode reconcile is a stretch of a protocol run; the object it read settles which outcomes are possible, each outcome says what holds at its end, waiting only with a ModelCacheNode seen, and it gives up exactly on a fault or a conflict; a reported status is the one stored, consistent, and made from the status found and the phases seen |
| CacheControllers.CacheController.ReconcileDelete | internal/controller/modelcache_controller.go:543-573 | either every ModelCacheNode of the cache is being deleted, or object, ModelCacheNodes and directories are gone |
| CacheControllers.CacheController.DeleteNodes | internal/controller/modelcache_controller.go:555-563 | after the loop no ModelCacheNode of the cache is without a deletion timestamp |
| CacheControllers.CacheController.ListModelCacheNodes | internal/controller/modelcache_controller.go:575-586 | lists exactly the ModelCacheNodes with the cache's labels, with their deletion state |
| CacheControllers.CacheController.EnsureModelCacheNode | internal/controller/modelcache_controller.go:588-607 | the node's object exists with the cache's UID, and the phase returned is one it had during the call |
| CacheControllers.CacheController.EnsureAll | internal/controller/modelcache_controller.go:230-239 | one phase per selected node, in order, each seen during the reconcile |
| CacheControllers.SummaryMeans | internal/controller/modelcache_controller.go:640-680 | the status derived from a consistent one is consistent, and Failed exactly when no node is selected |
| Clusters.Cluster.WriteStatus | internal/controller/modelcache_controller.go:223-245 | replaces the stored status of an existing ModelCache by a report made from it; the others stay, and every stored status is still consistent |
| Clusters.StatusesMayRely | internal/controller/modelcache_controller.go:88-104 | no number of steps and status writes by others makes a stored status inconsistent, or changes that of a ModelCache whose reconcile holds its object |
| CacheStatuses.StatusObject.UpdateFromNodes | internal/controller/modelcache_controller.go:640-680 | the counting loop and the switch compute the aggregate |
| CacheStatuses.TallyCounts | internal/controller/modelcache_controller.go:644-655 | the four counters are the numbers of phases of each kind and add up to the total |
| CacheStatuses.OrderIndependent | internal/controller/modelcache_controller.go:640-680 | the aggregate does not depend on the order of the nodes |
| CacheStatuses.AggregateMeans | internal/controller/modelcache_controller.go:661-677 | over the phases alone: Ready exactly when there is a node and all are Ready, Failed exactly when there is none or one is Failed, Downloading exactly when none is Failed, some are Ready or Downloading and not all are Ready, Pending exactly when there are nodes and none is Ready, Downloading or Failed; the Ready condition gives the same case as its reason; the result is consistent |
| CacheStatuses.WithoutNodesConsistent | internal/controller/modelcache_controller.go:213-227 | the report for an empty selection is consistent |
| CacheStatuses.StatusObject.SetStatusSummary | internal/controller/modelcache_controller.go:352-367 | stores mode and counters and says whether the status changed |
| CacheStatuses.ConditionSet | internal/status/status.go:22-30 | setting a condition changes what is looked up under its type and nothing else |
| CacheStatuses.OneStaysOne | internal/status/status.go:22-30 | there is at most one condition per type, still |
| CacheStatuses.ReportConsistent | internal/controller/modelcache_controller.go:336-346 | a PVC-mode report is consistent exactly when it gives a phase and its Ready condition agrees |
| PvcTheorems.StatusAlwaysConsistent | internal/controller/modelcache_controller.go:115-328 | in every run: Ready condition True exactly when Ready, one condition per type, total 1 and counts summing to 1, or to 0 exactly when Evicted |
| PvcTheorems.WhatAStatusTells | internal/controller/modelcache_controller.go:115-328 | in every run: the other conditions, the PVC and Job names and the counters of every status stored go with its phase |
| PvcTheorems.EvictionRespectsTtl | internal/controller/modelcache_controller.go:440-445 | an eviction at t has t >= stored(u) + ttl and t > u + ttl - 1s for every use or Ready mark u |
| PvcTheorems.EvictionSparesCountedPods | internal/controller/modelcache_controller.go:397-490 | a Pod that requests the cache while an eviction deletes its Job and PVC was created after the Pods were counted |
| PvcTheorems.APodCreatedAfterTheCountLosesItsPvc | internal/controller/modelcache_controller.go:398-445 | from every requested new cache with a TTL, a run in which a Pod created between count and deletion finds the cache evicted |
| PvcTheorems.EvictionExactly | internal/controller/modelcache_controller.go:397-457 | with no Pod counted, it evicts if and only if the TTL has passed since every recorded use |
| PvcTheorems.RequeueIsExact | internal/controller/modelcache_controller.go:440-443 | if no use is recorded in between, a later reconcile evicts exactly when the requeue time has passed |
| PvcTheorems.EvictedCreatesNothing | internal/controller/modelcache_controller.go:115-125 | from every state with an evicted cache and no reconcile past the count: as long as no Pod requests it, it stays Evicted, a missing PVC and a missing Job stay missing, and an existing PVC is the same one |
| PvcTheorems.EvictedKeepsALeftoverPvc | internal/controller/modelcache_controller.go:115-125 | what follows for a PVC that a rebuild left behind: the controller never removes it, only a user does |
| PvcTheorems.AnAbandonedRebuildLeavesItsPvc | internal/controller/modelcache_controller.go:248-272 | from every requested new cache with a TTL, a run to an unrequested Evicted cache with such a PVC |
| PvcTheorems.ReadyMeansFilled | internal/controller/modelcache_controller.go:302-314 | unless a user deleted the PVC, a Ready cache's PVC holds a whole download |
| PvcTheorems.ReadyMarkIsSoundExactly | internal/downloader/downloader.go:351-356 | from the look at the succeeded Job up to the write of the status, with users free to delete the PVC in between: Ready is marked on a filled PVC if and only if there is one and the Job finished after it was created |
| PvcTheorems.AStaleJobMarksAnEmptyPvcReady | internal/downloader/downloader.go:351-356 | from every requested new cache, a run that ends Ready on an empty PVC |
| PvcTheorems.ReconcileEvicts | internal/controller/modelcache_controller.go:397-490 | every reconcile of an unused Ready cache past its TTL that no crash and no Pod or PVC event interrupts ends Evicted with neither Job nor PVC |
| PvcTheorems.NextReconcileEvicts | internal/controller/modelcache_controller.go:445-457 | so after a crash anywhere in an eviction, the next such reconcile completes it if no Pod requests the cache then |
| PvcTheorems.EvictionCompletes | internal/controller/modelcache_controller.go:445-480 | such a reconcile exists from every state, whatever is left of Job and PVC |
| PvcTheorems.ReconcileKeepsReadyExactly | internal/controller/modelcache_controller.go:127-184 | with a requesting Pod, every such reconcile of a Ready cache leaves its PVC alone and ends Ready if and only if that PVC is healthy and no call failed, and Failed otherwise |
| PvcTheorems.RequestedReadyIsKept | internal/controller/modelcache_controller.go:127-184 | such a reconcile in which every call succeeds exists from every state |
| PvcTheorems.RebuildCompletes | internal/controller/modelcache_controller.go:248-328 | a requested cache that is not Ready can be rebuilt, a running Job finishing and only a finished one expiring, and is then Ready on a filled, bound PVC |
| PvcTheorems.CrashedEvictionRebuilds | internal/controller/modelcache_controller.go:133-147 | with its PVC lost to a crashed eviction and a Pod requesting it, every such reconcile of a Ready cache ends Failed, and from there it can be rebuilt |
| PvcSafety.Reachable | internal/controller/modelcache_controller.go:115-328 | memory, statuses, times, evictions and data stay consistent in every state of every run |
| PvcReconciles.WhatAReconcileSaw | internal/controller/modelcache_controller.go:106-330 | in every run, where a reconcile stands tells what it has seen since it began, up to the grounds of each report it is about to write |
| PvcReconciles.ProgressExactly | internal/downloader/downloader.go:632-643 | complete or failed exactly if the first decisive condition says so, neither exactly if there is none |
| PvcControllers.PvcController.Reconcile | internal/controller/modelcache_controller.go:106-330 | one PVC-mode reconcile is a stretch of a protocol run. Each outcome is possible only for the phase it found, says what holds at its end, and follows from what was seen since it began: a status it wrote is the last thing that happened, Pending with the PVC seen unbound, Downloading and Ready with the PVC bound and the Job's first decisive condition saying so, Failed with a missing class, a failed Job or a failed call; of a Ready cache, Failed with an unhealthy PVC or a failed call. A call fails exactly by a fault, which ends the reconcile or is reported as Failed |
| PvcControllers.PvcController.ReconcileUnused | internal/controller/modelcache_controller.go:414-457 | no TTL goes on to the PVC; bad TTL is an error; otherwise the exact wait, or Evicted with neither Job nor PVC |
| PvcControllers.PvcController.Evict | internal/controller/modelcache_controller.go:459-490 | Job first, then PVC, then the status |
| PvcControllers.PvcController.CheckReadyPvc | internal/controller/modelcache_controller.go:133-183 | still Ready only with a managed, bound PVC that is not terminating |
| PvcControllers.PvcController.JudgePvc | internal/controller/modelcache_controller.go:133-181 | Failed only if the read failed or the PVC is not healthy now, Ready only if it is |
| PvcControllers.PvcController.EnsureModelCachePVC | internal/downloader/downloader.go:71-102 | finds or creates the PVC and refuses one that is not managed |
| PvcControllers.PvcController.EnsureDownloadJob | internal/downloader/downloader.go:351-380 | finds or creates the Job, or leads to the failure report |
| PvcControllers.PvcController.ReportJob | internal/controller/modelcache_controller.go:286-327 | the phase written is the one the Job's first decisive condition asks for |
| PvcControllers.IsDownloadJobComplete | internal/downloader/downloader.go:632-643 | the first decisive condition: complete, failed, or neither |
| PvcTheorems.MayRely | internal/controller/modelcache_controller.go:88-104 | no number of steps by others changes what the reconcile relies on |
| AdmissionTheorems.MutationIsFramedAndComplete | internal/webhook/pod_mutator.go:69-108 | on acceptance all that was there stays, as prefixes; every mount has its read-only volume, its read-only mount at its clean path and, in PVC mode, its wait container; nothing else is added |
| AdmissionTheorems.MutationIsIdempotent | internal/webhook/pod_mutator.go:247-408 | feeding an accepted Pod back is accepted and returns the same Pod, whatever it held before |
| AdmissionTheorems.ClearPodsAreAccepted | internal/webhook/pod_mutator.go:58-108 | a Pod whose annotation resolves is accepted if nothing in it bears a generated name or is mounted at a requested path |
| AdmittedPods.AdmittedPodsAreServed | internal/webhook/pod_mutator.go:58-108 | an accepted Pod has, for each entry, the read-only CSI volume of the cache named or the claim of its PVC, a read-only mount at the clean path in the target container, and in PVC mode an init container that waits for the marker at that mount; all else is as it was |
| AdmittedPods.TheFirstContainerIsTheDefault | internal/webhook/pod_mutator.go:98-101 | without a target annotation the first container gets every mount and all others are unchanged |
| AdmittedPods.TargetExactly | internal/webhook/pod_mutator.go:78-101 | the target is the first container of the trimmed name asked for, or the first of all; the errors come exactly when the name is blank or no container has it |
| AdmittedPods.AcceptedExactly | internal/webhook/pod_mutator.go:51-109 | accepted if and only if the annotation resolves, there is the target container, and the first volume, init container and mount in question, if there are any, are as needed |
| AdmittedPods.TargetRefusedExactly | internal/webhook/pod_mutator.go:78-97 | refused for its target exactly when nothing else is in the way and the name is blank, or no container has it |
| AdmittedPods.RefusalsAreRight | internal/webhook/pod_mutator.go:51-233 | what a refusal says is wrong with the annotation, a cache or the Pod is so |
| AdmittedPods.SkippedExactly | internal/webhook/pod_mutator.go:118-127 | only a Pod without the annotation passes unchanged |
| AdmittedPods.AdmittedClaimsAreTheirCaches | internal/webhook/pod_mutator.go:276-304 | whatever state of a cache's PVC-mode run the webhook read, the claim of an accepted Pod is that run's PVC |
| Admission.ResolvesExactly | internal/webhook/pod_mutator.go:129-197 | an annotation resolves if and only if it has entries, each names a cache that exists and is not Failed (local mode), or is Ready or Evicted (PVC mode), at a usable path, and no two paths are equal or found nested |
| AdmissionTheorems.RequestsAreResolved | internal/webhook/pod_mutator.go:129-197 | each request becomes one mount of an admissible cache of the Pod's namespace, at distinct clean paths |
| AdmissionTheorems.AdmittedIsCountedByController | internal/controller/modelcache_controller.go:500-541 | the controller counts every accepted Pod for each cache it requests |
| AdmissionTheorems.AdmittedIsCountedByAgent | internal/nodeagent/agent.go:475-516 | once bound, the node's agent counts it for each local-mode cache it requests |
| AdmissionTheorems.AdmissionProtects | internal/webhook/pod_mutator.go:69-111 | in every run, no eviction removes a directory that a Pod which came through admission and was bound before the count uses |
| AdmissionTheorems.AdmissionProtectsMounts | internal/webhook/pod_mutator.go:69-111 | and while such a Pod runs, a marker seen in its directory is lost only to a deletion or to an eviction counted before it was bound |
| AdmissionTheorems.AdmissionProtectsPvcs | internal/webhook/pod_mutator.go:69-111 | in every PVC-mode run, no eviction takes the PVC of a cache that a Pod requests which came through admission and was created before the count |
| AdmissionTheorems.AdmittedVolumesLeadToTheirCaches | internal/webhook/pod_mutator.go:253-304 | an accepted Pod has, for each local-mode cache it requests, a volume whose attributes lead the driver to that cache's directory, for every root |
| Admission.VolumeNamesDistinct | internal/webhook/pod_mutator.go:165-168 | generated volume names of one Pod are pairwise different |
| Admission.EnsureAllAdds | internal/webhook/pod_mutator.go:235-408 | the add-what-is-missing pattern: a prefix, only needed elements, and everything needed |
| Admission.EnsureAllKeeps | internal/webhook/pod_mutator.go:235-408 | a list that has everything needed is accepted and left alone |
| PodMutators.PodMutator.Handle | internal/webhook/pod_mutator.go:51-109 | the handler edits the Pod in place as `Mutate` says, or refuses for the same reason; what that comes to is stated by the rows of AdmittedPods |
| PodMutators.PodMutator.ResolveMultiModelMounts | internal/webhook/pod_mutator.go:129-180 | the loop with its map of seen paths resolves the annotation, with the same first error |
| PodMutators.PodMutator.EnsureModelCacheVolume | internal/webhook/pod_mutator.go:235-304 | keeps a volume of that name that serves, appends one if there is none, else conflicts |
| PodMutators.PodMutator.EnsureWaitInitContainer | internal/webhook/pod_mutator.go:318-341 | the same for the wait init container |
| PodMutators.PodMutator.EnsureModelCacheVolumeMount | internal/webhook/pod_mutator.go:388-408 | the same for the mount, where the first mount of that name or path decides; other containers are unchanged |
| PodMutators.PodMutator.FindTarget | internal/webhook/pod_mutator.go:78-101 | the container that `AdmittedPods.TargetExactly` describes, or the error |
| Usage.ModelCacheRefsFromPod | internal/nodeagent/agent.go:485-507 | the loop lists the caches named by Praesto's CSI volumes, one per key text |
| Usage.RefsExactly | internal/nodeagent/agent.go:499-503 | the dedup key never drops a real cache |
| Usage.PodUsesModelCache | internal/nodeagent/agent.go:509-516 | true exactly when the cache is listed |
| Usage.CountPodsUsingModelCache | internal/nodeagent/agent.go:242-250 | counts the labelled Pods of the node that name the cache (see UsersExactly, UsingCountExactly) |
| Usage.UsersExactly | internal/nodeagent/agent.go:242-250 | counted exactly if on that node, labelled, and with a CSI volume of Praesto whose attributes are the cache's namespace and name |
| Usage.UsingCountExactly | internal/nodeagent/agent.go:475-483 | the count is the number of such Pods |
| Usage.ModelCacheNamesFromPod | internal/controller/modelcache_controller.go:518-541 | the names of the annotation, without blanks and repetitions |
| Usage.NamesExactly | internal/controller/modelcache_controller.go:527-539 | exactly the requested names, each once |
| Usage.CountRequestingPods | internal/controller/modelcache_controller.go:500-516 | counts the labelled Pods of the namespace that request the cache (see RequestersExactly, RequestingCountExactly) |
| Usage.RequestersExactly | internal/controller/modelcache_controller.go:500-541 | counted exactly if in that namespace, labelled, and with an entry whose trimmed name is the cache's |
| Usage.RequestingCountExactly | internal/controller/modelcache_controller.go:500-516 | the count is the number of such Pods |
| Usage.TrimSpaceExactly | internal/controller/modelcache_controller.go:527-539 | trimming cuts off white space alone, and all of it at both ends |
| Usage.RequestsForPod | internal/nodeagent/agent.go:326-355 | enqueues, without duplicates, exactly what the list calls that succeed return for a labelled Pod on this node |
| Usage.NoMissedWakeUp | internal/controller/modelcache_controller.go:609-634 | the ModelCacheNode the controller builds for a cache the Pod uses is among them |
| Usage.NoneElsewhereIsWoken | internal/nodeagent/agent.go:326-355 | where all names are valid label values: woken exactly are the objects made for this node and for a cache that one of the Pod's volumes names, unless the list call fails |
| CsiDrivers.NodeServer.NodePublishVolume | internal/csi/node_server.go:32-70 | for any attributes: the exact argument errors; a failed system call always gives an internal error, and without one that comes only if the directory went away after directory and marker had been seen; no change on error; a moment without directory behind NotFound, one with a directory and one without marker behind FailedPrecondition; success, mounted already or not, only with directory and marker seen; a new bind mount is of the cleaned source path and of a directory that is there now, and rests on a cache seen complete since the call began (still so unless removed in between) if the path is a cache's directory, on a repository file of the marker's name if it lies below one; single-segment attributes always give the former |
| CsiDrivers.NodeServer.CheckAndBind | internal/csi/node_server.go:57-67 | refuses only if the disk could answer that there is no marker file, and succeeds only on what the marker check found, with others moving between check and mount |
| CsiDrivers.NodeServer.CacheComplete | internal/csi/fs.go:21-30 | looks for a file of the marker's name at the path, whatever the path is |
| CsiDrivers.NodeServer.BindMount | internal/csi/mount_linux.go:23-56 | mounts only a directory that exists at the mount, once per target, and fails on every failed system call and otherwise only if the directory went away |
| CsiDrivers.NodeServer.NodeUnpublishVolume | internal/csi/node_server.go:72-83 | takes away that bind mount and no other |
| CsiDrivers.MarkerAtExactly | internal/csi/fs.go:21-30 | the file looked for is the marker at the directory of a cache itself, and a file of the repository below it |
| CsiDrivers.ARepositoryFileCountsAsMarker | internal/csi/node_server.go:38-65 | a run in which a download is under way and both checks of a publish succeed below the cache's directory, on a file the repository may list |
| Paths.SourcePathResolves | internal/csi/paths.go:7-9 | for any attributes, the source path is the root's segments resolved against those of both attributes |
| Paths.SourcePathIsExact | internal/csi/paths.go:7-9 | any two pairs of attributes have one source path exactly when they come to the same segments |
| Paths.SourcePathIsADirectoryOfACacheExactly | internal/csi/paths.go:7-9 | any two attributes lead to the directory of a cache if and only if they come to the root's segments and exactly two more |
| Paths.PlaceExactly | internal/csi/paths.go:7-9 | a path lies within a cache's directory exactly if its segments are the root's, the cache's namespace and name, and the rest |
| Paths.ProperAttributes | internal/csi/node_server.go:38-49 | attributes that are single segments lead to the directory of the cache they name |
| Paths.ASlashLeadsBelow | internal/csi/node_server.go:38-49 | a slash in the namespace attribute leads below a cache's directory |
| Paths.ParentLeadsOut | internal/csi/node_server.go:38-49 | `..` as namespace attribute leads out of every cache's directory, unless the root is `/` |
| Paths.AgentAndDriverAgree | internal/downloader/downloader.go:43-48 | the agent's path, cleaned, is the driver's, for every absolute or empty base |
| Paths.DirectoriesApart | internal/csi/paths.go:7-9 | directories of different caches are different and not nested |
| Paths.RemovalSparesOthers | internal/nodeagent/agent.go:284-305 | removing one cache's directory leaves every file of every other cache as it was |
| Paths.CleanMountPath | internal/webhook/pod_mutator.go:199-216 | the checks in order, with their errors |
| Paths.MountPathKeepsSegments | internal/webhook/pod_mutator.go:199-216 | accepted exactly if absolute, without `..` and with a segment that counts; exactly those segments are kept |
| Paths.MountPathIdempotent | internal/webhook/pod_mutator.go:211-215 | cleaning an accepted path again changes nothing |
| Paths.MountPathsAgree | internal/webhook/pod_mutator.go:155-158 | two accepted paths become one exactly when their segments agree |
| Paths.RelativePathGoesDown | internal/modeldownload/huggingface.go:202-208 | accepted exactly if it leads strictly down; then no `..` is left |
| Paths.DownloadsLandInside | internal/modeldownload/huggingface.go:104-113 | for every absolute target, clean or not, every download lands strictly inside it, at the segments of its own clean path |
| Paths.DestinationsAgree | internal/modeldownload/huggingface.go:110 | two files land on the same file below any absolute target exactly when their clean paths are equal |
| Downloads.ListFiles | internal/modeldownload/huggingface.go:95-102 | keeps exactly the files with a usable path |
| Downloads.KeptFilesAreAccepted | internal/modeldownload/huggingface.go:104-108 | what the listing keeps, the download accepts |
| Downloads.EntriesMatchDestinations | internal/modeldownload/huggingface.go:110-130 | entries of the protocol's directories are files on disk, one to one |
| Downloads.ListableExactly | internal/nodeagent/agent.go:31-33 | the assumption on listings, exactly: no kept file lies at or below a name of Praesto's own |
| Downloads.MarkerForgedExactly | internal/modeldownload/huggingface.go:202-208 | at every step of every download, whatever was listed: the marker is in place if and only if a file opened so far is named like it |
| Downloads.AForgedMarkerInDisguise | internal/modeldownload/huggingface.go:202-208 | such a path below any directory name |
| Overlap.RejectOverlappingMountPaths | internal/webhook/pod_mutator.go:218-233 | the sort and the scan of neighbours |
| Overlap.OverlapExactly | internal/webhook/pod_mutator.go:218-233 | distinct paths are refused exactly when some path has another below it and none that shadows it |
| Overlap.OverlapCompleteWithoutLowBytes | internal/webhook/pod_mutator.go:218-233 | without bytes below '/', refused exactly when two paths are nested |
| Overlap.ASiblingHidesTheNesting | internal/webhook/pod_mutator.go:225-231 | `/a`, `/a-b`, `/a/b` are accepted though nested |
| KubeIdent.Sanitize | internal/kubeident/ident.go:67-83 | the loop with its flag computes the collapsed, trimmed string |
| KubeIdent.DnsLabelIsValid | internal/kubeident/ident.go:22-25 | every string gives a valid RFC 1123 label of 1 to 63 characters |
| KubeIdent.LabelValueIsValid | internal/kubeident/ident.go:27-32 | every string gives a valid label value of 1 to 63 characters |
| KubeIdent.DnsLabelFixedPoints | internal/kubeident/ident.go:22-25 | fixed points are exactly the valid labels without a double hyphen |
| KubeIdent.LabelValueFixedPoints | internal/kubeident/ident.go:27-32 | fixed points are exactly the valid lower-case label values |
| KubeIdent.Idempotent | internal/kubeident/ident.go:22-53 | both functions are idempotent on every string |
| KubeIdent.FallbacksUnreachable | internal/kubeident/ident.go:43-51 | the two fallbacks of the long branch are never taken |
| KubeIdent.CollisionsExactly | internal/kubeident/ident.go:34-53 | exactly when two different sanitised strings truncate to the same result; for two long ones: the same kept prefix, and whole-string hashes that agree modulo 16 to the 10 |
| KubeIdent.DigitsShowRemainder | internal/kubeident/ident.go:85-88 | k hexadecimal digits are equal exactly when the numbers agree modulo 16 to the k |
| KubeIdent.LongNamesAreFull | internal/kubeident/ident.go:34-53 | a long name keeps its first 52 characters and fills all 63, unless punctuation is cut off there |
| KubeIdent.CaseDoesNotMatter | internal/kubeident/ident.go:67-83 | strings that lower-case alike get the same identifiers |
| KubeIdent.PvcNamesCollideExactly | internal/downloader/downloader.go:35-37 | two caches share a PVC name exactly if their prefixed names sanitise alike or collide; valid names that differ never do |
| KubeIdent.NodeNamesCollide | internal/controller/modelcache_controller.go:636-638 | caches whose namespace and name join to the same string share node object names; for names that need no change, only those |
| KubeIdent.ACollidingPair | internal/controller/modelcache_controller.go:636-638 | cache `c` in `a-b` and cache `b-c` in `a` have the same node object name on every node |
| KubeIdent.DotsAndHyphensCollide | internal/downloader/downloader.go:35-52 | PVC and Job names do not tell dots from hyphens, labels do |

## Left out

- HTTP, gRPC, TLS, flags, manager setup, logging and deployment files: plumbing without state.
- JSON, quantity and duration parsing: the parsed annotation, TTL and listing are inputs; TrimSpace knows ASCII white space.
- Stale informer reads, resource versions and watch internals: a conflicting patch counts as a failed call.
- Deletion of a PVC-mode ModelCache: its PVC and Job go by owner references, which is not this repository's code.
- Messages, generations and transition times of conditions; the reasons of ModelCacheNode conditions; status.localPath.
- A node agent without a downloader, which stops after preparing the directory.
- Permission bits, short writes, and empty directories that a failed download leaves among the files of a cache; the agent's marker test also accepts a directory, the driver's does not.
- Integer width: counters are unbounded where the source uses int32.
- The read-only remount of a bind mount, and retries after it fails.
- Job, PVC and PV spec builders, the per-node PV, PVC and Job functions that no reconciler calls, and field validation of ModelCaches.
- internal/controller/modelcachenode_controller.go, whose body is commented out, and the Python downloader: the Job is a process that completes or fails.
- The order of a Go map's iteration: results built from one are sets, or lists without repetition.
- API errors in the webhook other than not-found: they refuse the Pod as not-found does.
- PvcControllers.PvcController.EnsureModelCachePVC: an already-exists answer to a create is not modelled, as nobody else creates the PVC.
- PvcControllers.PvcController.Reconcile: the branch for a ModelCache being deleted is not part of it (see the deletion of PVC-mode ModelCaches above).
