# Control-plane protocols of the self-service API, in Dafny

The control plane provisions VM pods. Many workers share nothing but Postgres
rows, and any of them may stall, crash or lose its claim between two steps while
vCenter carries on. This project models the transactional protocols that keep
that safe, and proves what every run keeps. `dafny verify dfyconfig.toml` checks
all of it.

A transaction under a row lock or an advisory lock is one step on a state value;
a guard that matches no row leaves the state alone. Calls that only compute are
functions. Code that updates rows or works in loops is modelled by classes and
methods whose contracts equate the new row with the step function; the theorems
are about the step functions and whole runs of them.

| area | files |
|---|---|
| Job leases, clone operations, cleanup targets | `JobPayload`, `JobRow`, `CloneTargets`, `PayloadCode`, `CloneProtocol`, `CloneSafety`, `CloneRefusal`, `CloneWitness`, `ClaimFencing`, `JobStore` |
| Host memory admission | `HostAdmission`, `HostMemory`, `HostTransactions`, `HostLocks` |
| Pod lifecycle and VLANs | `PodTables`, `PodLifecycle`, `PodSafety`, `PodWitness`, `PodStore` |
| Smaller state machines | `WorkLease`, `ReplicaBuilds`, `ReplicaSafety`, `ReplicaWitness`, `ReplicaStore`, `TemplateHealth`, `PortGroupReceipts`, `SharedStripes` |
| Algorithms | `WikiClosure`, `WikiPaths`, `LikePattern`, `AuditFilter`, `LineScan`, `ActionSlug`, `ActionLibrary`, `Lexical`, `GoStrings` |

## What the callers are assumed to respect

Each is written out as an `Allowed`/`Obeys` predicate over steps.

- Clone protocol (`CloneProtocol.CallAllowed` and `Allowed`), in full:
  - a claim presents a token never used before; a prepare presents an operation in
    phase prepared whose id was never issued; a new job has a new id;
  - a clone is submitted only by the token that armed its operation, with nothing but
    heartbeats in between, while its claim is current; vCenter never gives two clones
    the same VM reference;
  - stage and a targeted retry overwrite the primary target, abandon, close,
    finish-standalone and disarm drop the operation (the last two also the primary),
    and clearing a VM row's reference drops that reference, only if what goes is not
    the last name of a clone that may still exist;
  - a cleanup is recorded only when that VM is gone, and only if the operation it
    deletes along with it is not the last name of such a clone and is not armed by the
    job's owner.

  No other call is restricted. That each "last name" condition is needed, and no more
  than needed, is `CloneSafety.DropExactly`, `RecordExactly` and `ClearExactly`.
- Host memory (`HostMemory.Allowed`, `HostTransactions.Allowed`): a free-memory
  reading follows the timestamp that fences it; candidates quote such readings and at
  least the host's headroom; nothing is reserved for a VM that already runs; a VM
  starts only under its own unreleased reservation; a lock is granted while free.
- Pods (`PodLifecycle.Allowed`): evidence rows are written only by a worker that
  was let into the pod or holds later work on it; the destroy worker's
  unconditional failure write happens only while the pod is being destroyed.

## Where the code does not keep what one would expect

- Recording a cleanup deletes the stored operation of the same pod VM, whatever clone
  it stands for (internal/database/queries.go:2603-2611). When a newer clone of that
  VM is live, or about to be submitted, nothing names it afterwards:
  `CloneSafety.RecordExactly` is the exact condition,
  `CloneWitness.StaleCleanupForgetsClone` a run without any other breach.
- `RetryJob` with a cleanup target does not look at the destroyed list
  (internal/database/queries.go:1946-1967). A target that was already recorded
  destroyed becomes outstanding again, and the "proof changed" refusal in
  `CompleteVMCloneCleanup` then lasts through every further call until one takes the
  target out of the primary position (a disarm does):
  `CloneRefusal.RefusedUntilPrimaryMoves`, `CloneRefusal.DisarmLifts`, and
  `CloneTargets.AmbiguousReplyStrandsCleanup` for a history.
- `UpdatePodStatus` is unconditional (internal/provisioner/destroy.go:285-293). A
  failure recorded after the pod was destroyed by a compensating `pod_create` or by
  the destroy worker's own successor leaves a `destroy_failed` pod without its VLAN,
  for which no destroy is ever prepared again: `PodSafety.LateFailureStrandsPod`,
  `PodSafety.UnguardedStatusKeepsMatchExactly`, with runs to both in
  `PodWitness.CompensationFinalizesFirst` and `PodWitness.SuccessorFinalizesFirst`.
- Cancelling a never-started pod works exactly for isolated pods; a shared pod
  fails on its missing VLAN row: `PodSafety.CancelsExactlyIsolated`,
  `PodWitness.SharedPodCannotBeCancelled`.
- Sorted host locks are free of deadlock exactly when inventory hosts that share a
  hashed lock number are neighbours in the order: `HostLocks.DeadlockFreeExactly`.
- Repeating a replica-build request returns the original build only until a
  retirement releases its source reference; from then on the same request is a
  conflict: `ReplicaSafety.ReplayExactly`, `ReplicaWitness.ReplayConflicts`.
- A markdown link written with a backslash is checked as written but walked with
  slashes. If the slash twin is missing it counts as link rot; if both files exist, no
  rot is reported and the file the link names is not bundled:
  `WikiPaths.BackslashLinkIsLost`, `WikiPaths.WithoutTwinRots`,
  `WikiPaths.TwinsLoseALink`.
- The port-group trigger before migration 49 rejected every absent-removal close:
  `PortGroupReceipts.TriggerNeverRejects`.

## Model

| member | source | states |
|---|---|---|
| CloneSafety.NoCloneIsForgotten | internal/database/clone_operations.go:172-440 | In every run from an empty job table, with crashes, lease loss and re-claims anywhere, every submitted clone that is not yet destroyed is named by its job's operation in submitting/submitted, by a cleanup target or handoff, or by the adopted pod_vms row |
| CloneSafety.RunKeepsInv | internal/database/clone_operations.go:172-440 | Every run that respects the calling contracts keeps the clone invariant |
| CloneSafety.StepKeepsInv | internal/database/queries.go:2390-2437 | Every single call, submission, task outcome, destruction and crash keeps the clone invariant |
| CloneSafety.DropExactly | internal/database/queries.go:1946-1967 | Stage and a targeted retry, which overwrite the cleanup target silently, and abandon, close, finish-standalone and disarm, which drop the operation, keep every clone named if and only if what goes is not the last name of a clone that may exist |
| CloneSafety.RecordExactly | internal/database/queries.go:2603-2611 | Recording the cleanup of a VM that is gone keeps every clone named, now and after a submission that may follow, if and only if the operation it deletes along is not the last name of a live clone and is not armed by the owner |
| CloneSafety.ClearExactly | internal/database/queries.go:2890-2904 | Clearing a VM row's reference keeps every clone named if and only if each such clone is named in its job's payload |
| CloneSafety.RowSuffices | internal/database/queries.go:2390-2437 | What the job row alone guarantees: stage and targeted retry over an absent or equal primary, and a record while no operation is stored for that pod VM, keep every clone named whatever vCenter did |
| CloneWitness.StaleCleanupForgetsClone | internal/database/queries.go:2540-2619 | A run from an empty database that breaks no contract, after which recording an old, really destroyed clone forgets a live one because it deletes the newer operation of the same pod VM |
| CloneSafety.OutstandingAfter | internal/database/queries.go:2486-2658 | What any call on a job adds to or drops from the outstanding targets, and nothing else |
| CloneSafety.OperationAfter | internal/database/clone_operations.go:172-440 | Only prepare mints an operation, only five calls remove one, every other call keeps its identity |
| CloneSafety.RemovalIsSafe | internal/database/queries.go:2754-2778 | An operation with a live clone leaves the payload only when the VM row or a target that stays names that clone |
| ClaimFencing.SupersededNeverWrites | internal/database/queries.go:1565-1667 | Once a token has lost a job, in every continuation every claim-owned call it makes leaves job and VM rows unchanged |
| ClaimFencing.LostStaysLost | cmd/provision-worker/main.go:989-1011 | With fresh claim tokens, a job a token has lost never comes back to it |
| ClaimFencing.FencedOut | internal/database/queries.go:1822-1837 | A call presenting a token that is not the row's claim changes neither the job nor any VM row |
| ClaimFencing.ClaimEndsOnlyThreeWays | internal/database/queries.go:2022-2037 | A claim ends only by recovery more than a lease after the stored heartbeat, by its own token's retry, or by a rollback handover |
| ClaimFencing.FreshHeartbeatSurvivesRecovery | internal/database/queries.go:1794-1818 | A heartbeat keeps recovery away for a whole lease after it |
| ClaimFencing.RunKeepsPendingUnclaimed | internal/database/queries.go:1946-2037 | In every run a pending job has no claim |
| ClaimFencing.HandoverSurvives | internal/database/clone_operations.go:495-548 | A handed-over receipt stays in the rollback list, in every continuation, until a token claimed after the handover rewrites the list |
| ClaimFencing.ArmedOperationIsNeverReplaced | internal/database/clone_operations.go:172-277 | Whatever the call, an armed operation keeps its id and scope, never falls back to prepared, and keeps a stored task reference |
| ClaimFencing.TaskReferenceNeverChanges | internal/database/clone_operations.go:361-387 | Over every run, once a task reference is stored the job never shows that operation with another one |
| CloneTargets.PrepareKeeps | internal/database/queries.go:2486-2538 | Preparing adds exactly the named target unless it is outstanding or destroyed, arms the job, and keeps the target invariant |
| CloneTargets.FirstCompletion | internal/database/queries.go:2540-2619 | A first completion removes exactly the named target from primary and handoffs, appends it to the destroyed list, promotes a handoff to an empty primary, and sets the completed flag exactly when nothing remains |
| CloneTargets.CompleteKeeps | internal/database/queries.go:2540-2619 | Completion never fails on a sound payload and keeps outstanding and destroyed disjoint and duplicate-free |
| CloneTargets.CompleteIsIdempotent | internal/database/queries.go:2540-2619 | Completing the same target again changes nothing and reports it as already recorded |
| CloneTargets.SettleRemovesExactly | internal/database/queries.go:2575-2619 | Dropping a target leaves the others in their order, and handoffs only beside a primary |
| CloneTargets.RunConserves | internal/database/queries.go:2486-2619 | Over any sequence of prepare and complete calls each target is outstanding, destroyed or unseen as its own calls say; no other target is gained or lost |
| CloneTargets.FlagIsExact | internal/database/queries.go:2612-2616 | If the completed flag is exact before any sequence of completions it is exact after it, that is, set exactly when no target is outstanding |
| CloneTargets.CompletingInAnyOrder | internal/database/queries.go:2540-2619 | Completing targets in any order, with repeats and strangers, ends with the flag set exactly when every outstanding target was among them |
| CloneTargets.ProofChangedExactly | internal/database/queries.go:2805-2822 | On every readable payload the "proof changed" refusal happens exactly when the outstanding match is also recorded destroyed |
| CloneTargets.ProofNeverChanges | internal/database/queries.go:2805-2822 | After any run of prepare and complete calls that refusal cannot happen |
| CloneTargets.StageKeepsApart | internal/database/queries.go:2390-2437 | Staging keeps outstanding and destroyed apart |
| CloneTargets.RetryReopensDestroyed | internal/database/queries.go:1946-1967 | After a retry with a cleanup target, the next attempt to record that cleanup is refused if and only if the target had been destroyed before |
| CloneRefusal.RefusedUntilPrimaryMoves | internal/database/queries.go:1946-1967 | The target had been destroyed before the retry if and only if recording it is refused after every sequence of further calls that leaves the primary target alone |
| CloneRefusal.CallKeepsStuck | internal/database/queries.go:2783-2863 | Only a stage or retry with another target, a finish-standalone or a disarm of the target can end the refusal |
| CloneRefusal.DisarmLifts | internal/database/queries.go:2754-2778 | A disarm by the owner ends it: the same record then succeeds and changes nothing |
| CloneTargets.AmbiguousReplyStrandsCleanup | internal/database/queries.go:1946-1967 | A concrete history in which the refusal is reached |
| PayloadCode.PrepareDestructionPayload | internal/database/queries.go:2486-2538 | The payload code, with its loops, computes the prepare function |
| PayloadCode.CompleteDestructionPayload | internal/database/queries.go:2540-2619 | The payload code, filtering handoffs in place, computes the complete function |
| PayloadCode.FilterInPlace | internal/database/queries.go:2577-2582 | Filtering the handoff buffer in place leaves exactly the other targets, in order, at its front |
| PayloadCode.Parse | internal/database/queries.go:2466-2484 | A stored list parses exactly when every entry is complete, and to the same list |
| PayloadCode.RecordDestroyedPayload | internal/database/queries.go:2621-2658 | The search over primary, handoffs and destroyed list computes the record function with its refusals |
| JobStore.JobRecord.ClaimJob | internal/database/queries.go:1565-1629 | Claims a pending, due and admissible job, and nothing else |
| JobStore.JobRecord.UpdateJobStatus | internal/database/queries.go:1632-1667 | Owner-fenced status change; a cleanup-only job cannot complete unless it is a replica build |
| JobStore.JobRecord.RenewJobLease | internal/database/queries.go:1794-1818 | Refreshes the heartbeat exactly for the current claim |
| JobStore.JobRecord.UpdateJobRollbackSteps | internal/database/queries.go:1822-1837 | Rewrites the rollback list exactly for the current claim |
| JobStore.JobRecord.Reschedule | internal/database/queries.go:1946-2008 | Releases the claim and reschedules; also succeeds, writing nothing, when the same cleanup is already scheduled |
| JobStore.JobRecord.RecoverIfStale | internal/database/queries.go:2022-2037 | Resets exactly the active claims whose heartbeat has expired |
| JobStore.JobRecord.PrepareVMCloneOperation | internal/database/clone_operations.go:172-277 | Returns the stored operation for the same target and source, replaces only an incomplete prepared one, refuses otherwise |
| JobStore.JobRecord.ArmVMCloneOperation | internal/database/clone_operations.go:281-307 | Moves the owner's prepared operation to submitting and arms cleanup |
| JobStore.JobRecord.AbandonUnsubmittedVMCloneOperation | internal/database/clone_operations.go:313-357 | Drops an operation without task, clearing the cleanup marks only when nothing is outstanding |
| JobStore.JobRecord.PersistVMCloneTask | internal/database/clone_operations.go:361-387 | Stores a task reference once; the same one again is accepted, another refused |
| JobStore.JobRecord.CompleteVMCloneOperationWithoutResource | internal/database/clone_operations.go:391-440 | Drops the operation and marks cleanup completed when no target key is present |
| JobStore.JobRecord.FinishStandaloneVMCloneCleanup | internal/database/clone_operations.go:444-490 | Succeeds exactly for the owner of a template check whose target or operation names the clone, clears both, and marks it completed exactly when compensated |
| JobStore.JobRecord.AdoptJobRollbackStep | internal/database/clone_operations.go:495-548 | Appends the receipt unless present, reopens the job as cleanup-only and clears any claim |
| JobStore.JobRecord.StageVMCloneCleanup | internal/database/queries.go:2390-2437 | Overwrites the primary target for the owner unless the target was destroyed |
| JobStore.JobRecord.AdoptPodVMClone | internal/database/queries.go:2663-2750 | Attaches the staged clone to its VM row only for the owner, from an allowed status and without replacing another reference |
| JobStore.JobRecord.DisarmVMCloneCleanup | internal/database/queries.go:2754-2778 | Clears target and operation only for the exact staged clone and no handoffs |
| JobStore.JobRecord.CompleteVMCloneCleanup | internal/database/queries.go:2783-2863 | Records the destruction in the payload and clears the VM row's reference, or refuses and changes nothing |
| JobStore.JobRecord.MarkJobCompensationCompleted | internal/database/queries.go:2868-2886 | Sets the completed flag exactly for an owned cleanup-only job with nothing outstanding |
| JobStore.PodVm.ClearPodVMVCenterReference | internal/database/queries.go:2890-2904 | Clears exactly the named reference and keeps a newer one |
| HostMemory.NeverOvercommitted | internal/database/placements.go:402-772 | Over any interleaving of readings, admissions, VMs appearing and leaving and releases by any number of jobs, memory in use plus memory promised on every host stays within capacity minus headroom |
| HostMemory.AdmissionIsSafe | internal/database/placements.go:681-772 | One admission from an arbitrarily stale reading keeps every host within its limit |
| HostMemory.SampleAndFenceCover | internal/database/placements.go:742-752 | A stale reading plus the reservations the fence still counts cover everything that runs or is promised now |
| HostMemory.InsertCommits | internal/database/placements.go:467-486 | Inserting a plan raises the commitment of each host by exactly what the plan requests there |
| HostMemory.StepKeepsMatches | internal/database/placements.go:632-671 | Running VMs stay tied to their reservations and readings through every step |
| HostMemory.FenceIsExact | internal/database/placements.go:742-752 | In any table, releasing a reservation takes it out of a host's sum exactly when the release came before the observation |
| HostTransactions.NeverOvercommittedUnderLocks | internal/database/placements.go:717-770 | The same limit holds over every interleaving of the lock, read, commit and abort steps of any number of placement transactions with everything else |
| HostTransactions.StepRefines | internal/database/placements.go:717-770 | Each step of the locked transactions is a step of the memory model or leaves it alone; a commit is the whole admission |
| HostTransactions.StepRefinesLocks | internal/database/placements.go:717-740 | Each step is also a step of the lock model, with the requesting hosts in increasing order as the plan, or leaves it alone |
| HostTransactions.TransactionsProgress | internal/database/placements.go:717-740 | With layered lock numbers, whenever placement transactions are open one of them can take its next lock or has them all |
| HostTransactions.StepKeepsInv | internal/database/placements.go:734-757 | Room found under a host's lock is still there at commit, whatever other transactions and releases do |
| HostAdmission.AdmitHostCapacity | internal/database/placements.go:681-772 | Admits a plan exactly when every host with a request has room by its least reading and earliest fence; returns per host exactly the least slack, or without a request the least reading less its headroom, not below zero; takes its locks in strictly increasing host order |
| HostAdmission.Summarise | internal/database/placements.go:687-715 | Per host: least reading, earliest observation, sum of requests; refuses differing headroom values |
| HostAdmission.SummaryDecides | internal/database/placements.go:754-757 | The summary admits a host exactly when every candidate's own reading and fence would |
| HostAdmission.EarlierFenceCountsMore | internal/database/placements.go:709-711 | An earlier observation time never counts fewer reservations |
| HostLocks.NoDeadlock | internal/database/placements.go:717-740 | For any host sets of an inventory and any interleaving no cycle of waits of any length is reachable, when inventory hosts sharing a lock number are neighbours |
| HostLocks.DeadlockFreeExactly | internal/database/placements.go:734-738 | For an inventory of hosts, sorted locking is free of deadlock if and only if that decidable condition on their lock numbers holds |
| HostLocks.DistinctLocksAreLayered | internal/database/placements.go:734-738 | Distinct lock numbers in the inventory satisfy the condition |
| HostLocks.AlwaysProgress | internal/database/placements.go:717-740 | Under the condition, in every reachable state with an open transaction some transaction holds all its locks or its next lock is free |
| PodSafety.MutatorsExcludeDestroys | internal/database/pod_jobs.go:221-692 | In every run, a mutator that works beside a nonterminal destroy of its pod is the owned in-progress vm_destroy of a deleted VM named by the request that activated the destroy of the emptied pod, or a pod_create reopened by a rollback handover since then; and the pod has only that one destroy row |
| PodSafety.ExcusedHasCause | internal/database/pod_jobs.go:608-692 | Whatever mutator a run excuses, some step of the run named or reopened it, and no destroy of its pod was activated after that step |
| PodSafety.ExcusedOnlyByName | internal/database/pod_jobs.go:608-692 | One step excuses a mutator only as the named, owned exclusion with all VMs of the pod deleted or by reopening a pod_create, and an activation excuses nobody else |
| PodLifecycle.StepKeepsExclusive | internal/database/pod_jobs.go:161-176 | Each enqueue, claim, finish, retry, recovery, requeue and finalization keeps the exclusion |
| PodLifecycle.StepKeepsOneJobEach | internal/database/pod_jobs.go:446-606 | No step adds a second pod_create or pod_destroy row for a pod |
| PodLifecycle.RowNeverRevives | internal/database/queries.go:1565-2037 | No call on a job row makes a finished job work again, except the handover of a pod_create |
| PodSafety.PrepareSucceedsExactly | internal/database/pod_jobs.go:787-859 | A destroy worker that owns its job is prepared exactly when the pod is not destroyed; it is never told "obsolete", "ownership lost" or "not found" |
| PodSafety.FailedDestroyRequeuesUnlessBlocked | internal/database/pod_jobs.go:432-438 | A destroy_failed pod without live destroy is queued again exactly when no mutator of it is working |
| PodSafety.DestroyedIsFinal | internal/database/queries.go:864-977 | In every run a destroyed pod stays destroyed and owns no VLAN |
| PodSafety.VlansAreConserved | internal/database/queries.go:819-977 | In every reachable state allocated rows and live isolated pods are equal in number and paired by pod, tag and subnet, never in 347-355, and the pool keeps its rows |
| PodLifecycle.StepKeepsPaired | internal/database/queries.go:1015-1133 | Creation, cancellation, preparation and all finalizers keep the one-to-one match of pods and pool rows |
| PodLifecycle.RetireKeepsPaired | internal/database/queries.go:873-896 | Marking a pod destroyed and releasing its row touches no other pair |
| PodSafety.CancelsExactlyIsolated | internal/database/pod_delete.go:264-326 | A never-started pod is cancelled if and only if it is isolated; for a shared pod the transaction rolls back |
| PodSafety.CancelLeavesClean | internal/database/pod_delete.go:74-327 | A cancelled pod had never let a worker in, and is left destroyed with deleted VMs and no receipt, placement or other job |
| PodSafety.CancelledStaysClean | internal/provisioner/create.go:1294-1300 | In every continuation the cancelled pod stays that way and a stale worker's move to provisioning never applies |
| PodSafety.UnguardedStatusKeepsMatchExactly | internal/database/queries.go:2188-2193 | An unconditional status write to an isolated pod keeps the VLAN match if and only if it does not cross between destroyed and not destroyed |
| PodSafety.LateFailureStrandsPod | internal/provisioner/destroy.go:285-293 | A failure recorded on an isolated pod that is already destroyed leaves it destroy_failed, and in every continuation no worker is prepared for its destruction and no destroy request of any kind queues a job |
| PodSafety.StrandedForEver | internal/database/pod_jobs.go:446-606 | Such a pod never gets a pool row and stays destroyed or destroy_failed, in any continuation, contracts kept or not |
| PodLifecycle.StepMoves | internal/database/pod_jobs.go:182-859 | No step removes a pod, VM, pool row or job or changes what it is; a pod never becomes pending again and a pool row goes only to nobody or to a new pod |
| PodWitness.CompensationFinalizesFirst | internal/database/queries.go:910-977 | A run from an empty installation in which a reopened pod_create finalizes the pod while a destroy worker is at work, so that its failure write strands the pod |
| PodWitness.SuccessorFinalizesFirst | internal/database/queries.go:864-901 | A run in which the destroy worker's successor finalizes the pod, with the same effect |
| PodWitness.SharedPodCannotBeCancelled | internal/database/pod_delete.go:312-321 | A reachable never-started shared pod whose cancellation rolls back |
| PodStore.PodDatabase.CheckoutVLAN | internal/database/queries.go:819-852 | Allocates some free row of the wanted scope outside 347-355, and fails only when there is none |
| PodStore.PodDatabase.CreateIsolatedPod | internal/api/handlers/handlers.go:655-772 | Pod, VLAN, VM rows and pod_create job appear together or not at all |
| PodStore.PodDatabase.CreateVMJob | internal/database/pod_jobs.go:221-288 | Inserts the job exactly when the pod accepts mutators, has no destroy intent and the VM is its own and not deleted |
| PodStore.PodDatabase.CreateVMAddJob | internal/database/pod_jobs.go:326-379 | Inserts VM row and job exactly when the pod is active without destroy intent |
| PodStore.PodDatabase.CreatePodDestroyJob | internal/database/pod_jobs.go:446-606 | Enqueues, requeues, reuses or refuses as decided from status, requirement, VLAN ownership and working mutators, changing at most one job |
| PodStore.PodDatabase.RejectPodDestroyWithNonterminalMutator | internal/database/pod_jobs.go:608-692 | Reports an invalid exclusion or a working mutator of the pod, exactly |
| PodStore.PodDatabase.PodHasAuthoritativeDestroyJob | internal/database/pod_jobs.go:161-176 | Finds destroy intent exactly when a nonterminal pod_destroy exists |
| PodStore.PodDatabase.PreparePodDestroy | internal/database/pod_jobs.go:787-859 | Moves the pod to destroying, or reports which check failed and changes nothing |
| PodStore.PodDatabase.FinalizePodDestroy | internal/database/queries.go:864-901 | Succeeds exactly for the owner of a destroying pod's destroy job, and then marks it destroyed and releases its rows |
| PodStore.PodDatabase.FinalizeNeverAppliedPodCreate | internal/database/queries.go:910-977 | Destroys exactly a pod in a cleanup-safe status without live receipt, and releases its row |
| PodStore.PodDatabase.FinalizeOrphanedPodDestroy | internal/database/queries.go:1015-1133 | Finalizes exactly an attested manual-cleanup pod whose failed destroy has no placements, receipts or competing work |
| PodStore.PodDatabase.CancelPendingPodIfNeverStarted | internal/database/pod_delete.go:74-327 | Gathers the evidence in loops, then cancels, reports, or rolls every table back |
| PodStore.PodDatabase.PodCancellationProtectedJobs | internal/database/pod_delete.go:29-68 | Evidence exactly when another job touches the pod or one of its VMs |
| PodStore.PodDatabase.ReleaseRows | internal/database/pod_delete.go:312-321 | Frees exactly the pod's rows and counts them |
| PodStore.PodDatabase.UpdatePodStatusFrom | internal/database/queries.go:2209-2218 | Applies exactly from the listed statuses |
| PodStore.PodDatabase.BeginPodCreateCleanup | internal/database/queries.go:1863-1933 | Succeeds exactly for the owner of a pod_create when the pod is missing, cleanup-safe or may leave provisioning; then the pod is cleanup-safe and the job cleanup-only |
| WorkLease.HeldForDuration | internal/database/queries.go:4097-4173 | After a claim or renewal at T no other claim succeeds up to T plus the duration unless the holder releases |
| WorkLease.GenerationCountsClaims | internal/database/queries.go:4097-4124 | The generation is the number of successful claims |
| WorkLease.TokenIsLatest | internal/database/queries.go:4097-4124 | A held lease carries the token of the latest successful claim |
| WorkLease.SupersededTokenIsInert | internal/database/queries.go:4127-4173 | Renewing or releasing with a superseded token never changes anything |
| WorkLease.WorkLeaseRow.TryClaimWorkLease | internal/database/queries.go:4097-4124 | Claims a free or expired lease, with the next generation |
| WorkLease.WorkLeaseRow.RenewWorkLease | internal/database/queries.go:4127-4155 | Renews exactly for the matching worker and token |
| WorkLease.WorkLeaseRow.ReleaseWorkLease | internal/database/queries.go:4158-4173 | Releases exactly for the matching worker and token |
| ReplicaSafety.OneLiveJobAndLinked | internal/database/template_replica_builds.go:365-404 | In every run a build has at most one nonterminal job and it is the linked one, so an owned job is never obsolete |
| ReplicaSafety.LastReadyReplicaStays | internal/database/template_replica_builds.go:181-1132 | A template that has a ready replica keeps one in every run |
| ReplicaSafety.LosesOnlyByRetirement | internal/database/template_replica_builds.go:951-1058 | A replica stops being ready only by a retirement whose distinct source replica is ready and stays so |
| ReplicaSafety.ReplayExactly | internal/database/template_replica_builds.go:181-242 | Repeating a create request at any later time returns the original build if and only if its source reference has not been released, and never creates a second build |
| ReplicaWitness.ReplayConflicts | internal/database/template_replica_builds.go:772-793 | A run in which a retirement releases a finished build's source reference and the repeated request conflicts |
| ReplicaBuilds.StepKeepsInv | internal/database/template_replica_builds.go:181-1132 | Every step keeps one live linked job per build and one build per template and key |
| ReplicaBuilds.TerminalStays | internal/database/template_replica_builds.go:938-949 | A finished build job never becomes live again |
| ReplicaStore.ReplicaDatabase.CreateTemplateReplicaBuild | internal/database/template_replica_builds.go:181-344 | Returns the build of a used key or a conflict, and inserts build and first job only from a ready matching anchor to a free compute resource |
| ReplicaStore.ReplicaDatabase.SaveTemplateReplicaBuildState | internal/database/template_replica_builds.go:409-463 | Saves exactly for the owner of the linked job at the expected phase |
| ReplicaStore.ReplicaDatabase.EnsurePendingReplicaForBuild | internal/database/template_replica_builds.go:465-517 | Reserves a pending replica exactly for the owner of a build without result whose compute resource and VM are not taken |
| ReplicaStore.ReplicaDatabase.FinalizeTemplateReplicaBuild | internal/database/template_replica_builds.go:522-589 | Marks the replica ready and closes the build only with a ready anchor, a pending replica and phase finalizing |
| ReplicaStore.ReplicaDatabase.FailTemplateReplicaBuild | internal/database/template_replica_builds.go:591-643 | Fails an open build, marks its replica unhealthy but never a ready one, and remembers the resume phase |
| ReplicaStore.ReplicaDatabase.CompleteTemplateReplicaBuildCleanup | internal/database/template_replica_builds.go:647-864 | Deletes a non-ready result, or a disabled one under all retirement checks, releasing finished dependents |
| ReplicaStore.ReplicaDatabase.RestartTemplateReplicaBuild | internal/database/template_replica_builds.go:866-1132 | Links a new job exactly when the old one is terminal and the restart or retirement conditions hold |
| TemplateHealth.SwapActsOnWhatWasRead | internal/database/template_health.go:93-179 | A swap with an earlier read's version succeeds if and only if nothing was written since, and then the row is the one read, whatever the clock did |
| TemplateHealth.VersionsCountWrites | internal/database/template_health.go:152-152 | Every effective write raises the version by at least one tick |
| TemplateHealth.ConsumedTokenStaysConsumed | internal/database/template_health.go:357-421 | A write based on a read from before a confirmation or clear cannot bring the consumed failure token back |
| TemplateHealth.ConsumedAtMostOnce | internal/database/template_health.go:357-421 | Between two swaps at most one confirmation or clear takes effect |
| TemplateHealth.ConfirmationSummarises | internal/database/template_health.go:367-391 | After a confirmation the summary count is the larger of the two counts and the status is unhealthy exactly from two failures on |
| TemplateHealth.HealthRecord.CompareAndSwapTemplateHealthState | internal/database/template_health.go:93-179 | Inserts only when absent, replaces only at the version read |
| TemplateHealth.HealthRecord.ApplyTemplateHealthDeepConfirmation | internal/database/template_health.go:357-398 | Consumes the pending failure only when the token matches |
| TemplateHealth.HealthRecord.ClearTemplateHealthDeepPending | internal/database/template_health.go:404-421 | Clears the pending failure only when the token matches |
| PortGroupReceipts.RunMovesForward | internal/database/portgroup_receipts.go:53-296 | Over every run the state only moves forward, receipt and job never change, each host key is written once, and removed is final with its time |
| PortGroupReceipts.StepMovesForward | internal/database/portgroup_receipts.go:248-296 | One call keeps the row sound; from applying straight to removed only without keys |
| PortGroupReceipts.StateProvesMutation | internal/database/portgroup_receipts.go:50-110 | Applying, active and bound keys prove an earlier begin by the owning create job; planned proves there was none |
| PortGroupReceipts.TriggerNeverRejects | internal/database/migrations/000049_portgroup_receipt_absent_close.up.sql:8-38 | On every reachable row the table's trigger accepts what the queries write; the earlier trigger rejected exactly the absent-removal close |
| PortGroupReceipts.ReceiptRecord.PersistPodPortGroupReceipt | internal/database/portgroup_receipts.go:180-243 | First receipt wins; only an identical repeat by the same job succeeds |
| PortGroupReceipts.ReceiptRecord.BeginPodPortGroupMutation | internal/database/portgroup_receipts.go:53-110 | Moves planned to applying for the owner of the receipt's job |
| PortGroupReceipts.ReceiptRecord.PersistPodPortGroupKeys | internal/database/portgroup_receipts.go:115-175 | Merges the keys exactly when none is empty or different, whatever the iteration order |
| PortGroupReceipts.ReceiptRecord.MarkPodPortGroupRemoved | internal/database/portgroup_receipts.go:248-268 | Removes from planned, active or removed, keeping the first removal time |
| PortGroupReceipts.ReceiptRecord.MarkPodPortGroupAbsentRemoved | internal/database/portgroup_receipts.go:274-296 | Removes from applying without keys |
| SharedStripes.PickStripe | internal/models/shared_stripes.go:90-113 | Picks the least occupied stripe below the limit, lowest tag first; full exactly when all are active and at the limit |
| SharedStripes.PickSharedStripe | internal/database/single_vm_stripes.go:58-106 | Not ready exactly without policy or with fewer than nine active stripes; otherwise the pick over the counted pods |
| SharedStripes.BestIsUnique | internal/models/shared_stripes.go:86-113 | The choice is determined |
| SharedStripes.NeverOverfull | internal/database/single_vm_stripes.go:56-106 | However picks and destructions interleave, no stripe exceeds sixteen pods |
| SharedStripes.EmptyStaysLevel | internal/models/shared_stripes.go:86-113 | From empty, picks alone keep the stripes within one pod of each other |
| SharedStripes.StripeLayout | internal/models/shared_stripes.go:42-55 | Gateway, fourteen runner and thirty-two DHCP addresses are apart and inside the stripe's /26 and 10.110.0.0/16 |
| SharedStripes.StripesDisjoint | internal/models/shared_stripes.go:42-74 | Two stripes have no address in common |
| SharedStripes.RunnerAddresses | internal/models/shared_stripes.go:59-67 | Lists the runner range in order, once each |
| WikiClosure.ComputeClosure | cmd/wiki-bundler/main.go:221-331 | Terminates on every link graph; link rot exactly when a reachable reference is missing; otherwise the manifest of exactly the reachable allowed files, or the exceeded cap |
| WikiClosure.ManifestIsUnique | cmd/wiki-bundler/main.go:309-331 | The manifest depends only on the repository and the set of seeds |
| WikiClosure.WalkIsComplete | cmd/wiki-bundler/main.go:235-307 | With the queue empty, the visited files are exactly those that belong and nothing reachable is missing |
| WikiClosure.LinkShipsExactly | cmd/wiki-bundler/main.go:277-303 | A recorded link names a bundled file if and only if it is spelled canonically and names a file |
| WikiPaths.BundleWiki | cmd/wiki-bundler/main.go:221-331 | The same, with the byte total and the exceeded cap, for the repository's own path rules |
| WikiPaths.BackslashLinkIsLost | cmd/wiki-bundler/main.go:333-335 | A recorded link with a backslash exists as written and is not in the bundle |
| WikiPaths.WithoutTwinRots | cmd/wiki-bundler/main.go:253-257 | A reachable link whose slash spelling does not exist is link rot |
| WikiPaths.TwinsLoseALink | cmd/wiki-bundler/main.go:277-303 | A repository in which no rot is reported and the file a recorded link names is not bundled |
| LikePattern.PrefixMeaning | internal/database/queries.go:3401-3403 | The prefix pattern matches exactly the texts that start with the search string, up to folding |
| LikePattern.ContainsMeaning | internal/database/queries.go:3405-3407 | The contains pattern matches exactly the texts in which the search string occurs, up to folding |
| LikePattern.EscapedText | internal/database/queries.go:3409-3411 | Escaped text consumes exactly that text, whatever pattern follows |
| AuditFilter.AuditLogWhere | internal/database/queries.go:3289-3399 | Refused exactly when invalid; otherwise the clause with its numbered arguments keeps exactly the rows the filter selects, for every row |
| AuditFilter.AddPrefixes | internal/database/queries.go:3324-3341 | The prefix disjunction keeps exactly the rows with a wanted action prefix |
| AuditFilter.AddQuery | internal/database/queries.go:3362-3371 | One shared placeholder searches the four text columns |
| AuditFilter.Conjoin | internal/database/queries.go:3343-3396 | A further conjunct with appended arguments narrows the rows by exactly what it says |
| LineScan.LastNonEmptyLine | internal/engine/vmwaretools_dispatcher.go:349-382 | The backward scan returns the last line that is not empty once cleaned, or nothing |
| LineScan.LastLineIsLast | internal/engine/vmwaretools_dispatcher.go:346-348 | The plain reading is the cleaned form of a line after which all lines are empty |
| LineScan.SplitRoundTrip | internal/engine/vmwaretools_dispatcher.go:354-358 | Splitting at newlines loses nothing |
| LineScan.SplitExactly | internal/engine/vmwaretools_dispatcher.go:354-358 | The split is the only list of newline-free lines that joins back to the buffer |
| ActionSlug.CallableIsInjective | internal/actionlibrary/validate.go:12-20 | No two valid slugs share a function name |
| ActionSlug.ValidSlugIsCallable | internal/actionlibrary/names.go:13-19 | Every valid slug has a legal name |
| ActionSlug.SlugShape | internal/actionlibrary/validate.go:20-29 | The pattern accepts exactly the strings that start with a letter and consist of letters, digits and single inner hyphens |
| ActionLibrary.BuildActionLibrary | internal/engine/actionlibrary.go:63-118 | Refused exactly when a non-blank action has an illegal name or two share one; otherwise each non-blank action is rendered once, by slug |
| ActionLibrary.RenderingIgnoresOrder | internal/engine/actionlibrary.go:64-68 | Permuting the input changes neither success nor the file |
| ActionLibrary.ValidSlugsAreAccepted | internal/engine/actionlibrary.go:79-96 | Distinct valid slugs are never refused |
| Lexical.SortedUnique | cmd/wiki-bundler/main.go:309-314 | Sorting strings has one result |

## Left out

- vCenter, OPNsense, Kubernetes, NATS and MinIO effects, except that a clone exists, is gone, or a VM runs.
- Worker bodies and HTTP handlers beyond the contracts listed above; logging, audit rows and metrics.
- JSON and UUID syntax: ids are numbers, with one value standing for the empty string; a stored target or operation is complete or not.
- The order in which ClaimJob picks among claimable jobs, and retry limits.
- JobStore.JobRecord.FinishStandaloneVMCloneCleanup: compares the target's three ids, not its whole JSON text.
- prepareVMCloneDestructionPayload has no production caller; it is kept as the handoff step of the protocol.
- Memory of a suspended VM that is resumed without a new reservation, and 64-bit overflow of memory sums.
- validateVMPlacementReferences: only the reservation rule is kept (nothing is reserved for a VM that runs); template, replica and legacy-adoption checks are not.
- Administrative writers that bypass the protocols by design: UpdatePodVM, AddVLAN, UpdateVLAN, RemoveVLAN, ReleaseVLAN, DeleteTemplateSourceReplica, UpdateTemplateSourceReplicaValidation.
- The random choice of a free VLAN is any free row.
- ExtendPod and pod expiry arithmetic: whether a pod has expired or was suspended too long is given to the destroy request.
- Jobs are kept in creation order; ties of created_at are not modelled, and cannot matter because a pod has one pod_create and one pod_destroy row.
- Foreign keys and the active-compute index on replica builds: the model allows more runs than the table does.
- Claims that a live build's source replica is never deleted, which would need those foreign keys.
- Rows of pods and receipts deleted together with their template or pod; legacy receipts written by a migration.
- WikiClosure.ComputeClosure: link extraction by regular expression and link resolution are given, a markdown file carries its resolved links; read errors after a successful stat, titles and checksums are not modelled.
- AuditFilter.AuditLogWhere: the clause is the conjunction the text spells out, not the text; case folding is an arbitrary function.
- The fixed header of the rendered action library is a parameter; the shell parser of ValidateBody is not modelled.
- classifyGuestResult, briefings, image uploads, pinning, reports, sessions and the former leader election, which would only add easy members.
