/**
 Pods, their VMs, their jobs and the VLAN pool, and what each serialized
 transaction does to them. Every transaction holds the pod's row lock (destroy
 workers hold the job's first), so each is one function of the tables; a refused
 or rolled-back transaction leaves them alone.
*/
module PodTables {
  import opened Wrappers
  import JobPayload
  import J = JobRow

  type PodId = nat
  type VmId = nat
  /** Position in creation order, which stands for the job's id. */
  type JobId = nat
  type Tag = nat
  type Subnet = nat

  datatype PodStatus =
    | Pending | Provisioning | Active | Error | Destroying | DestroyFailed | Destroyed | Cancelled

  datatype Mode = Isolated | Shared

  /** What the error message says, as far as any branch looks at it. */
  datatype Note = Plain | ManualCleanup | CancelledBeforeProvisioning

  datatype Pod = Pod(status: PodStatus, mode: Mode, vlan: Tag, subnet: Subnet, note: Note)

  /** `traced`: the row carries a vCenter id, a vCenter name or an address. */
  datatype Vm = Vm(pod: PodId, status: J.VmStatus, traced: bool)

  /** Which hosts a VLAN reaches: all of them, or those of a labelled group. */
  datatype HostScope = AllHosts | Group(name: nat)

  datatype Slot = Slot(subnet: Subnet, scope: HostScope, owner: Option<PodId>)

  /** `VmWork` is start, stop, restart, reset, snapshot, revert, snapshot delete and suspend. */
  datatype Kind = CreatePod | DestroyPod | AddVm | DestroyVm | VmWork

  datatype PodJob = PodJob(kind: Kind, pod: PodId, vm: Option<VmId>, row: J.Job)

  datatype Tables = Tables(
    pods: map<PodId, Pod>,
    vms: map<VmId, Vm>,
    jobs: seq<PodJob>,
    pool: map<Tag, Slot>,
    placements: set<VmId>,
    receipts: map<PodId, bool>) // whether the port-group receipt is still unremoved

  const FIRST_STRIPE: Tag := 347
  const LAST_STRIPE: Tag := 355

  function RowKind(kind: Kind): J.JobType {
    match kind
    case CreatePod => J.PodCreate
    case AddVm => J.VmAdd
    case _ => J.Unrestricted
  }

  function NewJob(kind: Kind, pod: PodId, vm: Option<VmId>): PodJob {
    PodJob(kind, pod, vm, J.Job(RowKind(kind), J.Pending, None, None, None, None, None, 0,
                                JobPayload.Fields(None, None, None, false, false, None), []))
  }

  predicate Terminal(s: J.Status) {
    s == J.Completed || s == J.Failed
  }

  /** The statuses that make a mutator block a destroy. */
  predicate Working(s: J.Status) {
    s == J.Pending || s == J.Claimed || s == J.InProgress
  }

  predicate RejectsMutator(s: PodStatus) {
    s in {Destroying, DestroyFailed, Destroyed, Error, Cancelled}
  }

  predicate CleanupSafe(s: PodStatus) {
    s in {Error, Destroying, DestroyFailed, Destroyed}
  }

  // ---------------------------------------------------------------------------
  // Lookups
  // ---------------------------------------------------------------------------

  predicate Is(job: PodJob, kind: Kind, pod: PodId) {
    job.kind == kind && job.pod == pod
  }

  /** The oldest job of this kind for the pod: the authoritative one. */
  function FirstJob(jobs: seq<PodJob>, kind: Kind, pod: PodId): (r: Option<JobId>)
    ensures r.Some? ==> r.value < |jobs| && Is(jobs[r.value], kind, pod)
    ensures forall i :: 0 <= i < |jobs| && Is(jobs[i], kind, pod) ==> r.Some? && r.value <= i
  {
    if jobs == [] then None
    else
      var last := |jobs| - 1;
      var earlier := FirstJob(jobs[..last], kind, pod);
      if earlier.Some? then earlier else if Is(jobs[last], kind, pod) then Some(last) else None
  }

  ghost predicate DestroyIntent(t: Tables, pod: PodId) {
    exists i :: 0 <= i < |t.jobs| && Is(t.jobs[i], DestroyPod, pod) && !Terminal(t.jobs[i].row.status)
  }

  predicate OwnsExactVlan(t: Tables, pod: PodId, tag: Tag, subnet: Subnet) {
    tag in t.pool && t.pool[tag].owner == Some(pod) && t.pool[tag].subnet == subnet
  }

  /** The job's payload names the pod, or one of the pod's VMs. */
  predicate Touches(t: Tables, job: PodJob, pod: PodId) {
    job.pod == pod || (job.vm.Some? && job.vm.value in t.vms && t.vms[job.vm.value].pod == pod)
  }

  predicate Blocks(t: Tables, i: JobId, pod: PodId, excluded: Option<JobId>)
    requires i < |t.jobs|
  {
    t.jobs[i].kind != DestroyPod && Working(t.jobs[i].row.status) && Some(i) != excluded && Touches(t, t.jobs[i], pod)
  }

  ghost predicate Blocked(t: Tables, pod: PodId, excluded: Option<JobId>) {
    exists i :: 0 <= i < |t.jobs| && Blocks(t, i, pod, excluded)
  }

  /** Every row the pod owns goes back to the pool. */
  function Release(pool: map<Tag, Slot>, pod: PodId): (r: map<Tag, Slot>)
    ensures r.Keys == pool.Keys
    ensures forall tag :: tag in pool ==>
      r[tag] == if pool[tag].owner == Some(pod) then pool[tag].(owner := None) else pool[tag]
  {
    map tag | tag in pool :: if pool[tag].owner == Some(pod) then pool[tag].(owner := None) else pool[tag]
  }

  // ---------------------------------------------------------------------------
  // Enqueueing
  // ---------------------------------------------------------------------------

  /** A free row outside the shared stripes, of the wanted scope; None accepts any scope. */
  predicate Available(t: Tables, tag: Tag, wanted: Option<HostScope>) {
    && tag in t.pool && t.pool[tag].owner.None? && !(FIRST_STRIPE <= tag <= LAST_STRIPE)
    && (wanted.Some? ==> t.pool[tag].scope == wanted.value)
  }

  /** Pod creation asks for rows that reach all hosts. */
  predicate Free(t: Tables, tag: Tag) {
    Available(t, tag, Some(AllHosts))
  }

  function WithPod(t: Tables, pod: PodId, row: Pod, vms: set<VmId>): Tables {
    t.(pods := t.pods[pod := row],
       vms := t.vms + map v | v in vms :: Vm(pod, J.VmPending, false),
       jobs := t.jobs + [NewJob(CreatePod, pod, None)])
  }

  /** Pod, VLAN checkout, VM rows and pod_create job in one transaction. */
  function CreateIsolated(t: Tables, pod: PodId, tag: Tag, vms: set<VmId>): Tables {
    if pod in t.pods || !Free(t, tag) || !(vms !! t.vms.Keys) then t
    else
      var slot := t.pool[tag];
      WithPod(t, pod, Pod(Pending, Isolated, tag, slot.subnet, Plain), vms)
        .(pool := t.pool[tag := slot.(owner := Some(pod))])
  }

  function CreateShared(t: Tables, pod: PodId, stripe: Tag, subnet: Subnet, vms: set<VmId>): Tables {
    if pod in t.pods || !(vms !! t.vms.Keys) then t
    else WithPod(t, pod, Pod(Pending, Shared, stripe, subnet, Plain), vms)
  }

  ghost predicate AcceptsVmJob(t: Tables, pod: PodId, vm: VmId) {
    && pod in t.pods && !RejectsMutator(t.pods[pod].status) && !DestroyIntent(t, pod)
    && vm in t.vms && t.vms[vm].pod == pod && t.vms[vm].status != J.Deleted
  }

  ghost function CreateVmJob(t: Tables, pod: PodId, vm: VmId, kind: Kind): Tables {
    if (kind == DestroyVm || kind == VmWork) && AcceptsVmJob(t, pod, vm)
    then t.(jobs := t.jobs + [NewJob(kind, pod, Some(vm))]) else t
  }

  ghost predicate AcceptsVmAdd(t: Tables, pod: PodId, vm: VmId) {
    pod in t.pods && t.pods[pod].status == Active && !DestroyIntent(t, pod) && vm !in t.vms
  }

  ghost function CreateVmAdd(t: Tables, pod: PodId, vm: VmId): Tables {
    if AcceptsVmAdd(t, pod, vm)
    then t.(vms := t.vms[vm := Vm(pod, J.VmPending, false)], jobs := t.jobs + [NewJob(AddVm, pod, Some(vm))])
    else t
  }

  datatype Requirement = Always | IfExpired | IfSuspendedTooLong | IfEmpty | IfFailed

  /** The vm_destroy worker that asks for the empty pod's destruction names its own job. */
  datatype Exclusion = Exclusion(job: JobId, vm: VmId, owner: J.Token)

  /** What the clock says: the pod has expired; its oldest suspension is over the limit. */
  datatype Facts = Facts(expired: bool, suspendedLong: bool)

  datatype Refusal = PodMissing | StatusRejects | NotNeeded | ExclusionInvalid | BlockedByMutator

  datatype Decision = Enqueued | Requeued(job: JobId) | Reused(job: JobId) | Refused(why: Refusal)

  predicate CanRestart(s: PodStatus, req: Requirement) {
    s in {Pending, Provisioning, Active, Error, Destroying} || (s == DestroyFailed && req == IfFailed)
  }

  predicate AllVms(t: Tables, pod: PodId, statuses: set<J.VmStatus>) {
    forall v :: v in t.vms && t.vms[v].pod == pod ==> t.vms[v].status in statuses
  }

  predicate RequirementMet(t: Tables, pod: PodId, req: Requirement, facts: Facts)
    requires pod in t.pods
  {
    match req
    case Always => true
    case IfExpired => t.pods[pod].status == Active && facts.expired
    case IfSuspendedTooLong =>
      && t.pods[pod].status == Active && facts.suspendedLong
      && AllVms(t, pod, {J.Suspended, J.Deleted}) && !AllVms(t, pod, {J.Deleted})
    case IfEmpty => AllVms(t, pod, {J.Deleted})
    case IfFailed => t.pods[pod].status == DestroyFailed
  }

  predicate ExclusionValid(t: Tables, pod: PodId, req: Requirement, e: Exclusion) {
    && req == IfEmpty
    && e.job < |t.jobs| && Is(t.jobs[e.job], DestroyVm, pod) && t.jobs[e.job].vm == Some(e.vm)
    && t.jobs[e.job].row.status == J.InProgress && t.jobs[e.job].row.claimedBy == Some(e.owner)
    && e.vm in t.vms && t.vms[e.vm].pod == pod && t.vms[e.vm].status == J.Deleted
  }

  function Excluded(e: Option<Exclusion>): Option<JobId> {
    if e.Some? then Some(e.value.job) else None
  }

  ghost function MutatorCheck(t: Tables, pod: PodId, req: Requirement, e: Option<Exclusion>): Option<Refusal> {
    if e.Some? && !ExclusionValid(t, pod, req, e.value) then Some(ExclusionInvalid)
    else if Blocked(t, pod, Excluded(e)) then Some(BlockedByMutator)
    else None
  }

  predicate Recoverable(t: Tables, pod: PodId) {
    pod in t.pods && (t.pods[pod].mode == Shared || OwnsExactVlan(t, pod, t.pods[pod].vlan, t.pods[pod].subnet))
  }

  ghost function DecideDestroy(t: Tables, pod: PodId, req: Requirement, e: Option<Exclusion>, facts: Facts): Decision {
    if pod !in t.pods then Refused(PodMissing)
    else
      var status := t.pods[pod].status;
      var existing := FirstJob(t.jobs, DestroyPod, pod);
      if existing.Some? then
        if Terminal(t.jobs[existing.value].row.status) && CanRestart(status, req)
           && RequirementMet(t, pod, req, facts) && Recoverable(t, pod)
        then
          var refusal := MutatorCheck(t, pod, req, e);
          if refusal.Some? then Refused(refusal.value) else Requeued(existing.value)
        else Reused(existing.value)
      else if status in {Destroying, Destroyed, Cancelled} || (status == DestroyFailed && req != IfFailed) then
        Refused(StatusRejects)
      else if !RequirementMet(t, pod, req, facts) || (req == IfFailed && !Recoverable(t, pod)) then
        Refused(NotNeeded)
      else
        var refusal := MutatorCheck(t, pod, req, e);
        if refusal.Some? then Refused(refusal.value) else Enqueued
  }

  function Requeue(job: PodJob): PodJob {
    job.(row := job.row.(status := J.Pending, claimedBy := None, claimedAt := None, startedAt := None,
                         completedAt := None, nextAttemptAt := None, retryCount := 0))
  }

  ghost function CreateDestroy(t: Tables, pod: PodId, req: Requirement, e: Option<Exclusion>, facts: Facts): Tables {
    match DecideDestroy(t, pod, req, e, facts)
    case Enqueued => t.(jobs := t.jobs + [NewJob(DestroyPod, pod, None)])
    case Requeued(j) => t.(jobs := t.jobs[j := Requeue(t.jobs[j])])
    case _ => t
  }

  // ---------------------------------------------------------------------------
  // The destroy worker and the finalizers
  // ---------------------------------------------------------------------------

  predicate OwnsDestroy(t: Tables, pod: PodId, job: JobId, owner: J.Token) {
    && job < |t.jobs| && Is(t.jobs[job], DestroyPod, pod)
    && t.jobs[job].row.status == J.InProgress && t.jobs[job].row.claimedBy == Some(owner)
  }

  datatype Preparation = LeaseLost | NotFound | AlreadyDestroyed | Obsolete | OwnershipLost | Prepared

  function DecidePrepare(t: Tables, pod: PodId, job: JobId, owner: J.Token): Preparation {
    if !OwnsDestroy(t, pod, job, owner) then LeaseLost
    else if pod !in t.pods then NotFound
    else if t.pods[pod].status == Destroyed then AlreadyDestroyed
    else if FirstJob(t.jobs, DestroyPod, pod) != Some(job) then Obsolete
    else if !Recoverable(t, pod) then OwnershipLost
    else Prepared
  }

  function SetStatus(t: Tables, pod: PodId, status: PodStatus, note: Note): Tables
    requires pod in t.pods
  {
    t.(pods := t.pods[pod := t.pods[pod].(status := status, note := note)])
  }

  function Prepare(t: Tables, pod: PodId, job: JobId, owner: J.Token): Tables {
    if DecidePrepare(t, pod, job, owner) == Prepared then SetStatus(t, pod, Destroying, Plain) else t
  }

  function Retire(t: Tables, pod: PodId, note: Note): Tables
    requires pod in t.pods
  {
    SetStatus(t, pod, Destroyed, note).(pool := Release(t.pool, pod))
  }

  function FinalizeDestroy(t: Tables, pod: PodId, job: JobId, owner: J.Token): Tables {
    if OwnsDestroy(t, pod, job, owner) && pod in t.pods && t.pods[pod].status == Destroying
    then Retire(t, pod, Plain) else t
  }

  predicate LiveReceipt(t: Tables, pod: PodId) {
    pod in t.receipts && t.receipts[pod]
  }

  function FinalizeNeverApplied(t: Tables, pod: PodId): Tables {
    if pod in t.pods && CleanupSafe(t.pods[pod].status) && !LiveReceipt(t, pod) then Retire(t, pod, Plain) else t
  }

  predicate Placed(t: Tables, pod: PodId) {
    exists v :: v in t.placements && v in t.vms && t.vms[v].pod == pod
  }

  ghost predicate OtherWork(t: Tables, pod: PodId, job: JobId) {
    exists i :: 0 <= i < |t.jobs| && i != job && t.jobs[i].pod == pod && !Terminal(t.jobs[i].row.status)
  }

  /** `manualResult`: the failed job's result asks for manual cleanup. */
  ghost predicate MayFinalizeOrphan(t: Tables, pod: PodId, tag: Tag, subnet: Subnet, manualResult: bool) {
    && pod in t.pods && t.pods[pod].status == DestroyFailed && t.pods[pod].note == ManualCleanup
    && t.pods[pod].vlan == tag && t.pods[pod].subnet == subnet
    && var job := FirstJob(t.jobs, DestroyPod, pod);
       && job.Some? && manualResult && t.jobs[job.value].row.status == J.Failed
       && !Placed(t, pod) && !LiveReceipt(t, pod) && !OtherWork(t, pod, job.value)
  }

  ghost function FinalizeOrphan(t: Tables, pod: PodId, tag: Tag, subnet: Subnet, manualResult: bool): Tables {
    if MayFinalizeOrphan(t, pod, tag, subnet, manualResult) then
      var job := FirstJob(t.jobs, DestroyPod, pod).value;
      var done := t.jobs[job].(row := t.jobs[job].row.(status := J.Completed));
      Retire(t, pod, Plain).(jobs := t.jobs[job := done])
    else t
  }

  // ---------------------------------------------------------------------------
  // Cancelling a pod that never started
  // ---------------------------------------------------------------------------

  datatype Cancellation = CancelledNow(job: JobId) | AlreadyCancelled | NeedsDestroy | NoSuchPod | ReleaseMismatch

  /** The create job as it was inserted. */
  predicate Pristine(row: J.Job) {
    && row.status == J.Pending && row.retryCount == 0 && !row.payload.cleanupOnly
    && row.claimedBy.None? && row.claimedAt.None? && row.startedAt.None? && row.completedAt.None?
    && row.nextAttemptAt.None? && row.rollbackSteps == []
  }

  ghost predicate OtherJobs(t: Tables, pod: PodId, create: JobId) {
    exists i :: 0 <= i < |t.jobs| && i != create && Touches(t, t.jobs[i], pod)
  }

  predicate Untouched(t: Tables, pod: PodId) {
    forall v :: v in t.vms && t.vms[v].pod == pod ==> t.vms[v].status == J.VmPending && !t.vms[v].traced
  }

  /** Nothing shows that provisioning of the pod ever began. */
  ghost predicate NeverStarted(t: Tables, pod: PodId) {
    && pod in t.pods && t.pods[pod].status == Pending
    && var create := FirstJob(t.jobs, CreatePod, pod);
       && create.Some? && Pristine(t.jobs[create.value].row) && !OtherJobs(t, pod, create.value)
       && Untouched(t, pod) && pod !in t.receipts && !Placed(t, pod)
  }

  ghost function RowsOf(pool: map<Tag, Slot>, pod: PodId): set<Tag> {
    set tag | tag in pool && pool[tag].owner == Some(pod)
  }

  ghost predicate SoleRow(t: Tables, pod: PodId, tag: Tag) {
    && tag in t.pool && t.pool[tag].owner == Some(pod)
    && forall other :: other in t.pool && t.pool[other].owner == Some(pod) ==> other == tag
  }

  /** The pool holds exactly one row of the pod. */
  ghost predicate HoldsOneRow(t: Tables, pod: PodId) {
    exists tag :: SoleRow(t, pod, tag)
  }

  ghost function DecideCancel(t: Tables, pod: PodId): Cancellation {
    if pod !in t.pods then NoSuchPod
    else if t.pods[pod].status == Destroyed && t.pods[pod].note == CancelledBeforeProvisioning then AlreadyCancelled
    else if !NeverStarted(t, pod) then NeedsDestroy
    else if !HoldsOneRow(t, pod) then ReleaseMismatch
    else CancelledNow(FirstJob(t.jobs, CreatePod, pod).value)
  }

  function DeleteVms(vms: map<VmId, Vm>, pod: PodId): map<VmId, Vm> {
    map v | v in vms :: if vms[v].pod == pod then Vm(pod, J.Deleted, false) else vms[v]
  }

  ghost function CancelPending(t: Tables, pod: PodId, now: J.Time): Tables {
    match DecideCancel(t, pod)
    case CancelledNow(create) =>
      var failed := t.jobs[create].(row := t.jobs[create].row.(status := J.Failed, completedAt := Some(now)));
      Retire(t, pod, CancelledBeforeProvisioning).(vms := DeleteVms(t.vms, pod), jobs := t.jobs[create := failed])
    case _ => t
  }

  // ---------------------------------------------------------------------------
  // The create worker
  // ---------------------------------------------------------------------------

  /** UpdatePodStatusFrom: applies only from one of the listed statuses. */
  function Advance(t: Tables, pod: PodId, from: set<PodStatus>, to: PodStatus): Tables {
    if pod in t.pods && t.pods[pod].status in from then SetStatus(t, pod, to, Plain) else t
  }

  function BeginCleanup(t: Tables, pod: PodId, job: JobId, owner: J.Token, mayLeaveProvisioning: bool): Tables {
    if !(job < |t.jobs| && J.Owns(t.jobs[job].row, owner) && t.jobs[job].kind == CreatePod) then t
    else
      var marked := t.jobs[job := t.jobs[job].(row := J.After(t.jobs[job].row, J.MarkCleanupOnly(owner)))];
      if pod !in t.pods then t.(jobs := marked)
      else if t.pods[pod].status == Provisioning && mayLeaveProvisioning then
        SetStatus(t, pod, Error, Plain).(jobs := marked)
      else if CleanupSafe(t.pods[pod].status) then t.(jobs := marked)
      else t
  }
}
