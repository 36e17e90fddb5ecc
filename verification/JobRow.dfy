/**
 One row of the jobs table and what each database call does to it. Every call is
 a single transaction under the row lock, so it is a function of the row; a call
 whose guard matches no row leaves it alone.
*/
module JobRow {
  import opened Wrappers
  import opened JobPayload

  /** A claim token is minted per claim attempt; it fences every later write of that claim. */
  type Token = nat
  type Time = int
  /** A rollback receipt, compared by its decoded JSON value. */
  type Receipt = nat

  datatype JobType =
    | PodCreate | VmAdd | TemplateVerify | TemplateRevalidate
    | TemplateReplicaBuild | OtherProvisioning | Unrestricted

  datatype Status = Pending | Claimed | InProgress | Completed | Failed | Rollback

  datatype VmStatus = VmPending | Cloning | Configuring | Running | Stopped | Suspended | VmError | Deleted

  datatype VmRow = VmRow(vcenterVmId: Option<Ref>, status: VmStatus)

  datatype Job = Job(
    kind: JobType,
    status: Status,
    claimedBy: Option<Token>,
    claimedAt: Option<Time>,
    startedAt: Option<Time>,
    completedAt: Option<Time>,
    nextAttemptAt: Option<Time>,
    retryCount: nat,
    payload: Fields,
    rollbackSteps: seq<Receipt>)

  datatype Call =
    | Claim(token: Token, now: Time, provisioningEnabled: bool)
    | UpdateStatus(token: Token, to: Status, now: Time)
    | Renew(token: Token, now: Time)
    | SaveRollbackSteps(token: Token, steps: seq<Receipt>, now: Time)
    | RetryJob(token: Token, nextAt: Time, cleanupOnly: bool, cleanupTarget: Option<Target>)
    | RecoverStale(now: Time, lease: Time)
    | PrepareOperation(token: Token, candidate: CloneOperation)
    | ArmOperation(token: Token, op: Ref)
    | AbandonOperation(token: Token, op: Ref)
    | PersistTask(token: Token, op: Ref, task: Ref)
    | CloseOperation(token: Token, op: Ref)
    | FinishStandalone(token: Token, target: Target, compensated: bool)
    | HandOverRollback(step: Receipt, now: Time)
    | StageClone(token: Token, target: Target)
    | AdoptClone(token: Token, podVmId: Ref, moref: Ref, from: set<VmStatus>, vmTo: VmStatus)
    | DisarmClone(token: Token, podVmId: Ref, moref: Ref)
    | RecordCleanup(podVmId: Ref, moref: Ref)
    | HandOffTarget(target: Target)
    | MarkCompensated(token: Token)
    | MarkCleanupOnly(token: Token)

  predicate Active(row: Job) {
    row.status == Claimed || row.status == InProgress
  }

  /** The fence shared by every claim-owned write. */
  predicate Owns(row: Job, token: Token) {
    row.claimedBy == Some(token) && Active(row)
  }

  predicate Clones(kind: JobType) {
    kind == PodCreate || kind == VmAdd || kind == TemplateVerify || kind == TemplateRevalidate
  }

  predicate Standalone(kind: JobType) {
    kind == TemplateVerify || kind == TemplateRevalidate
  }

  predicate ScopeValid(op: CloneOperation) {
    op.id != EMPTY && op.scope.podId != EMPTY && op.scope.podVmId != EMPTY
    && op.scope.targetName != EMPTY && op.scope.sourceRef != EMPTY
  }

  predicate OperationValid(op: CloneOperation) {
    ScopeValid(op) && op.scope.templateId != EMPTY && op.placed
  }

  predicate SameTarget(a: Scope, b: Scope) {
    a.podId == b.podId && a.podVmId == b.podVmId && a.targetName == b.targetName
    && (a.templateId == EMPTY || a.templateId == b.templateId)
  }

  predicate HasOperation(f: Fields, op: Ref) {
    f.operation.Some? && f.operation.value.id == op
  }

  /** No cleanup target and no handoff entries, however the handoff key is stored. */
  predicate NothingOutstanding(f: Fields) {
    f.target.None? && List(f.handoffs) == []
  }

  predicate ClaimableNow(row: Job, now: Time, provisioningEnabled: bool) {
    && row.status == Pending
    && (provisioningEnabled || row.kind == Unrestricted || row.payload.cleanupOnly)
    && (row.nextAttemptAt.Some? ==> row.nextAttemptAt.value <= now)
  }

  predicate StatusChangeAllowed(row: Job, to: Status) {
    && !(to == Completed && row.payload.cleanupOnly && row.kind != TemplateReplicaBuild)
    && (
        || (to == InProgress && row.status == Claimed)
        || (to in {Completed, Failed, Rollback} && row.status == InProgress))
  }

  predicate Stale(row: Job, now: Time, lease: Time) {
    Active(row) && row.completedAt.None? && (row.claimedAt.Some? ==> row.claimedAt.value < now - lease)
  }

  function AppendReceipt(steps: seq<Receipt>, step: Receipt): seq<Receipt> {
    if step in steps then steps else steps + [step]
  }

  function Released(row: Job): Job {
    row.(status := Pending, claimedBy := None, claimedAt := None, startedAt := None)
  }

  function WithPayload(row: Job, f: Fields): Job {
    row.(payload := f)
  }

  /** The operation a prepare call leaves in the payload, or None when it is refused. */
  function PreparedOperation(f: Fields, candidate: CloneOperation): Option<CloneOperation> {
    if !OperationValid(candidate) then None
    else if f.operation.None? then Some(candidate)
    else
      var existing := f.operation.value;
      if !ScopeValid(existing) then None
      else if !OperationValid(existing) && existing.phase == Prepared then
        if SameTarget(existing.scope, candidate.scope) then Some(candidate) else None
      else if SameTarget(existing.scope, candidate.scope) && existing.scope.sourceRef == candidate.scope.sourceRef then
        Some(existing)
      else None
  }

  function AbandonedFields(f: Fields): Fields {
    if NothingOutstanding(f) then f.(operation := None, cleanupOnly := false, cleanupCompleted := false)
    else f.(operation := None)
  }

  /** The row after a call; unchanged when the call's guard does not match. */
  function After(row: Job, c: Call): Job {
    var f := row.payload;
    match c
    case Claim(token, now, enabled) =>
      if ClaimableNow(row, now, enabled)
      then row.(status := Claimed, claimedBy := Some(token), claimedAt := Some(now)) else row
    case UpdateStatus(token, to, now) =>
      if row.claimedBy == Some(token) && StatusChangeAllowed(row, to)
      then row.(status := to,
                claimedAt := if to == InProgress then Some(now) else row.claimedAt,
                startedAt := if to == InProgress && row.startedAt.None? then Some(now) else row.startedAt,
                completedAt := if to == InProgress then row.completedAt else Some(now))
      else row
    case Renew(token, now) =>
      if Owns(row, token) then row.(claimedAt := Some(now)) else row
    case SaveRollbackSteps(token, steps, now) =>
      if Owns(row, token) then row.(rollbackSteps := steps, claimedAt := Some(now)) else row
    case RetryJob(token, nextAt, cleanupOnly, t) =>
      if Owns(row, token)
      then Released(row).(completedAt := None, nextAttemptAt := Some(nextAt), retryCount := row.retryCount + 1,
                          payload := Retry(f, cleanupOnly, t))
      else row
    case RecoverStale(now, lease) =>
      if Stale(row, now, lease) then Released(row) else row
    case PrepareOperation(token, candidate) =>
      var op := PreparedOperation(f, candidate);
      if Owns(row, token) && Clones(row.kind) && op.Some? then WithPayload(row, f.(operation := op)) else row
    case ArmOperation(token, op) =>
      if Owns(row, token) && HasOperation(f, op) && f.operation.value.phase == Prepared
      then WithPayload(row, Arm(f.(operation := Some(f.operation.value.(phase := Submitting))))) else row
    case AbandonOperation(token, op) =>
      if Owns(row, token) && HasOperation(f, op) && f.operation.value.phase != Submitted
         && f.operation.value.taskRef == EMPTY
      then WithPayload(row, AbandonedFields(f)) else row
    case PersistTask(token, op, task) =>
      if Owns(row, token) && HasOperation(f, op) && f.operation.value.taskRef in {EMPTY, task}
      then WithPayload(row, f.(operation := Some(f.operation.value.(taskRef := task, phase := Submitted)))) else row
    case CloseOperation(token, op) =>
      if Owns(row, token) && HasOperation(f, op)
      then WithPayload(row, f.(operation := None,
                               cleanupCompleted := (f.target.None? && f.handoffs.None?) || f.cleanupCompleted))
      else row
    case FinishStandalone(token, t, compensated) =>
      if Owns(row, token) && Standalone(row.kind) && Complete(t)
         && (f.target == Some(t)
             || (f.operation.Some? && f.operation.value.scope.podId == t.podId
                 && f.operation.value.scope.podVmId == t.podVmId))
      then WithPayload(row, f.(target := None, operation := None, cleanupCompleted := compensated,
                               cleanupOnly := compensated && f.cleanupOnly))
      else row
    case HandOverRollback(step, now) =>
      if row.kind == PodCreate && row.status != Completed
      then Released(row).(completedAt := None, nextAttemptAt := Some(now), payload := Arm(f),
                          rollbackSteps := AppendReceipt(row.rollbackSteps, step))
      else row
    case StageClone(token, t) =>
      if Owns(row, token) && Clones(row.kind) && Stage(f, t).Some? then WithPayload(row, Stage(f, t).value) else row
    case AdoptClone(_, _, _, _, _) => row
    case DisarmClone(token, podVmId, moref) =>
      if Owns(row, token) && f.target.Some? && Names(f.target.value, podVmId, moref) && List(f.handoffs) == []
      then WithPayload(row, f.(target := None, operation := None, cleanupOnly := false, cleanupCompleted := false))
      else row
    case RecordCleanup(podVmId, moref) =>
      if RecordDestroyed(f, podVmId, moref).Ok? then WithPayload(row, RecordDestroyed(f, podVmId, moref).value) else row
    case HandOffTarget(t) =>
      if PrepareDestruction(f, t).Ok? then WithPayload(row, PrepareDestruction(f, t).value.0) else row
    case MarkCompensated(token) =>
      if Owns(row, token) && f.cleanupOnly && NothingOutstanding(f)
      then WithPayload(row, f.(cleanupCompleted := true)) else row
    case MarkCleanupOnly(token) =>
      if Owns(row, token) && row.kind == PodCreate then WithPayload(row, f.(cleanupOnly := true)) else row
  }

  /** The clone may be attached: staged exactly here, still owned, not destroyed. */
  predicate MayAdopt(row: Job, token: Token, podVmId: Ref, moref: Ref) {
    && Owns(row, token)
    && row.payload.target.Some? && Names(row.payload.target.value, podVmId, moref)
    && row.payload.target.value !in Destroyed(row.payload)
  }

  function ClearReference(vm: VmRow, moref: Ref): VmRow {
    var starting := vm.status in {VmPending, Cloning, Configuring};
    if vm.vcenterVmId == Some(moref) then VmRow(None, if starting then VmError else vm.status)
    else if vm.vcenterVmId.None? && starting then vm.(status := VmError)
    else vm
  }

  /** The pod_vms row `podVmId` after a call on this job. */
  function VmAfter(row: Job, vm: VmRow, podVmId: Ref, c: Call): VmRow {
    match c
    case AdoptClone(token, id, moref, from, to) =>
      if id == podVmId && MayAdopt(row, token, id, moref) && vm.status in from
         && (vm.vcenterVmId.None? || vm.vcenterVmId == Some(moref))
      then VmRow(Some(moref), to) else vm
    case RecordCleanup(id, moref) =>
      if id == podVmId && RecordDestroyed(row.payload, id, moref).Ok? then ClearReference(vm, moref) else vm
    case _ => vm
  }

  /** The token a claim-owned call presents. */
  function Actor(c: Call): Option<Token> {
    match c
    case UpdateStatus(t, _, _) => Some(t)
    case Renew(t, _) => Some(t)
    case SaveRollbackSteps(t, _, _) => Some(t)
    case RetryJob(t, _, _, _) => Some(t)
    case PrepareOperation(t, _) => Some(t)
    case ArmOperation(t, _) => Some(t)
    case AbandonOperation(t, _) => Some(t)
    case PersistTask(t, _, _) => Some(t)
    case CloseOperation(t, _) => Some(t)
    case FinishStandalone(t, _, _) => Some(t)
    case StageClone(t, _) => Some(t)
    case AdoptClone(t, _, _, _, _) => Some(t)
    case DisarmClone(t, _, _) => Some(t)
    case MarkCompensated(t) => Some(t)
    case MarkCleanupOnly(t) => Some(t)
    case _ => None
  }
}
