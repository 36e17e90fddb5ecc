/**
 The job row and the pod VM row as mutable records, with the queries that update
 them in place. Each method is proved to leave exactly the row that `JobRow.After`
 (and `JobRow.VmAfter`) describes; its result is what the caller learns.
*/
module JobStore {
  import opened Wrappers
  import opened JobPayload
  import opened JobRow
  import PayloadCode

  class PodVm {
    const id: Ref
    var vcenterVmId: Option<Ref>
    var status: VmStatus

    constructor (id: Ref)
      ensures this.id == id && Value() == VmRow(None, VmPending)
    {
      this.id := id;
      vcenterVmId, status := None, VmPending;
    }

    ghost function Value(): VmRow
      reads this
    {
      VmRow(vcenterVmId, status)
    }

    /** Clears exactly this reference; a newer one stays. */
    method ClearPodVMVCenterReference(moref: Ref) returns (cleared: bool)
      modifies this`vcenterVmId
      ensures cleared <==> old(vcenterVmId) == Some(moref)
      ensures vcenterVmId == if cleared then None else old(vcenterVmId)
    {
      cleared := vcenterVmId == Some(moref);
      if cleared {
        vcenterVmId := None;
      }
    }
  }

  /** The staged target or the stored operation is for this clone. */
  predicate NamesClone(f: Fields, t: Target) {
    || f.target == Some(t)
    || (f.operation.Some? && f.operation.value.scope.podId == t.podId && f.operation.value.scope.podVmId == t.podVmId)
  }

  class JobRecord {
    const kind: JobType
    var status: Status
    var claimedBy: Option<Token>
    var claimedAt: Option<Time>
    var startedAt: Option<Time>
    var completedAt: Option<Time>
    var nextAttemptAt: Option<Time>
    var retryCount: nat
    var payload: Fields
    var rollbackSteps: seq<Receipt>

    constructor (kind: JobType)
      ensures Value() == Job(kind, Pending, None, None, None, None, None, 0, Fields(None, None, None, false, false, None), [])
    {
      this.kind := kind;
      status, claimedBy, claimedAt, startedAt, completedAt := Pending, None, None, None, None;
      nextAttemptAt, retryCount := None, 0;
      payload, rollbackSteps := Fields(None, None, None, false, false, None), [];
    }

    function Value(): Job
      reads this
    {
      Job(kind, status, claimedBy, claimedAt, startedAt, completedAt, nextAttemptAt, retryCount, payload, rollbackSteps)
    }

    predicate OwnedBy(worker: Token)
      reads this
    {
      claimedBy == Some(worker) && (status == Claimed || status == InProgress)
    }

    method ClaimJob(claim: Token, now: Time, provisioningEnabled: bool) returns (claimed: bool)
      modifies this
      ensures Value() == After(old(Value()), Claim(claim, now, provisioningEnabled))
      ensures claimed <==> old(ClaimableNow(Value(), now, provisioningEnabled))
      ensures claimed ==> OwnedBy(claim) && claimedAt == Some(now)
    {
      claimed := status == Pending && (nextAttemptAt.None? || nextAttemptAt.value <= now);
      if !provisioningEnabled && kind != Unrestricted && !payload.cleanupOnly {
        claimed := false;
      }
      if claimed {
        status := Claimed;
        claimedBy := Some(claim);
        claimedAt := Some(now);
      }
    }

    method UpdateJobStatus(worker: Token, to: Status, now: Time) returns (ok: bool)
      modifies this
      ensures Value() == After(old(Value()), UpdateStatus(worker, to, now))
      ensures ok <==> old(claimedBy == Some(worker) && StatusChangeAllowed(Value(), to))
      ensures ok ==> status == to && claimedBy == Some(worker)
    {
      ok := claimedBy == Some(worker);
      if to == Completed && payload.cleanupOnly && kind != TemplateReplicaBuild {
        ok := false;
      }
      if to == InProgress {
        ok := ok && status == Claimed;
      } else {
        ok := ok && (to == Completed || to == Failed || to == Rollback) && status == InProgress;
      }
      if ok {
        status := to;
        if to == InProgress {
          claimedAt := Some(now);
          if startedAt.None? {
            startedAt := Some(now);
          }
        } else {
          completedAt := Some(now);
        }
      }
    }

    method RenewJobLease(claim: Token, now: Time) returns (owned: bool)
      modifies this`claimedAt
      ensures Value() == After(old(Value()), Renew(claim, now))
      ensures owned <==> old(OwnedBy(claim))
    {
      owned := OwnedBy(claim);
      if owned {
        claimedAt := Some(now);
      }
    }

    method UpdateJobRollbackSteps(worker: Token, steps: seq<Receipt>, now: Time) returns (ok: bool)
      modifies this`rollbackSteps, this`claimedAt
      ensures Value() == After(old(Value()), SaveRollbackSteps(worker, steps, now))
      ensures ok <==> old(OwnedBy(worker))
    {
      ok := OwnedBy(worker);
      if ok {
        rollbackSteps := steps;
        claimedAt := Some(now);
      }
    }

    predicate CleanupAlreadyScheduled(cleanupOnly: bool, target: Option<Target>)
      reads this
    {
      status == Pending && cleanupOnly && payload.cleanupOnly && (target.None? || payload.target == target)
    }

    /** The second result branch makes a repeated cleanup reschedule succeed without writing. */
    method Reschedule(worker: Token, nextAt: Time, cleanupOnly: bool, target: Option<Target>) returns (ok: bool)
      modifies this
      ensures Value() == After(old(Value()), RetryJob(worker, nextAt, cleanupOnly, target))
      ensures ok <==> (old(OwnedBy(worker)) || CleanupAlreadyScheduled(cleanupOnly, target))
    {
      ok := OwnedBy(worker);
      if ok {
        status := Pending;
        claimedBy, claimedAt, startedAt, completedAt := None, None, None, None;
        nextAttemptAt, retryCount := Some(nextAt), retryCount + 1;
        if cleanupOnly {
          if target.Some? {
            payload := payload.(cleanupCompleted := false, target := target);
          }
          payload := payload.(cleanupOnly := true);
        } else {
          payload := payload.(cleanupOnly := false, cleanupCompleted := false);
        }
      } else {
        ok := CleanupAlreadyScheduled(cleanupOnly, target);
      }
    }

    method RecoverIfStale(now: Time, lease: Time) returns (recovered: bool)
      modifies this
      ensures Value() == After(old(Value()), RecoverStale(now, lease))
      ensures recovered <==> old(Stale(Value(), now, lease))
    {
      recovered := (status == InProgress || status == Claimed) && completedAt.None?
        && (claimedAt.None? || claimedAt.value < now - lease);
      if recovered {
        status := Pending;
        claimedBy, claimedAt, startedAt := None, None, None;
      }
    }

    /** Returns the authoritative operation, or None when the caller lost the job or the scope differs. */
    method PrepareVMCloneOperation(worker: Token, candidate: CloneOperation) returns (op: Option<CloneOperation>)
      modifies this`payload
      ensures Value() == After(old(Value()), PrepareOperation(worker, candidate))
      ensures op.Some? <==> old(OwnedBy(worker)) && Clones(kind) && PreparedOperation(old(payload), candidate).Some?
      ensures op.Some? ==> payload.operation == op
    {
      if !OperationValid(candidate) || !OwnedBy(worker) || !Clones(kind) {
        return None;
      }
      if payload.operation.Some? {
        var existing := payload.operation.value;
        if !ScopeValid(existing) {
          return None;
        }
        if !OperationValid(existing) && existing.phase == Prepared {
          if !SameTarget(existing.scope, candidate.scope) {
            return None;
          }
          payload := payload.(operation := Some(candidate));
          return Some(candidate);
        }
        if !SameTarget(existing.scope, candidate.scope) || existing.scope.sourceRef != candidate.scope.sourceRef {
          return None;
        }
        return Some(existing);
      }
      payload := payload.(operation := Some(candidate));
      return Some(candidate);
    }

    method ArmVMCloneOperation(worker: Token, op: Ref) returns (ok: bool)
      modifies this`payload
      ensures Value() == After(old(Value()), ArmOperation(worker, op))
      ensures ok <==> old(OwnedBy(worker) && HasOperation(payload, op) && payload.operation.value.phase == Prepared)
      ensures ok ==> HasOperation(payload, op) && payload.operation.value.phase == Submitting && payload.cleanupOnly
    {
      ok := OwnedBy(worker) && HasOperation(payload, op) && payload.operation.value.phase == Prepared;
      if ok {
        payload := payload.(cleanupCompleted := false);
        payload := payload.(cleanupOnly := true);
        payload := payload.(operation := Some(payload.operation.value.(phase := Submitting)));
      }
    }

    /** An operation that is already absent counts as abandoned. */
    method AbandonUnsubmittedVMCloneOperation(worker: Token, op: Ref) returns (ok: bool)
      modifies this`payload
      ensures Value() == After(old(Value()), AbandonOperation(worker, op))
      ensures ok <==> OwnedBy(worker) && payload.operation.None?
    {
      if OwnedBy(worker) && HasOperation(payload, op) && payload.operation.value.phase != Submitted
         && payload.operation.value.taskRef == EMPTY {
        payload := payload.(operation := None);
        if payload.target.None? && |List(payload.handoffs)| == 0 {
          payload := payload.(cleanupOnly := false, cleanupCompleted := false);
        }
        return true;
      }
      return OwnedBy(worker) && payload.operation.None?;
    }

    method PersistVMCloneTask(worker: Token, op: Ref, task: Ref) returns (ok: bool)
      modifies this`payload
      ensures Value() == After(old(Value()), PersistTask(worker, op, task))
      ensures ok <==> old(OwnedBy(worker)) && HasOperation(payload, op) && payload.operation.value.taskRef == task
                      && payload.operation.value.phase == Submitted
    {
      ok := OwnedBy(worker) && HasOperation(payload, op)
        && (payload.operation.value.taskRef == EMPTY || payload.operation.value.taskRef == task);
      if ok {
        payload := payload.(operation := Some(payload.operation.value.(taskRef := task)));
        payload := payload.(operation := Some(payload.operation.value.(phase := Submitted)));
      }
    }

    method CompleteVMCloneOperationWithoutResource(worker: Token, op: Ref) returns (ok: bool)
      modifies this`payload
      ensures Value() == After(old(Value()), CloseOperation(worker, op))
      ensures ok <==> old(OwnedBy(worker) && HasOperation(payload, op))
      ensures ok ==> payload.operation.None? && Outstanding(payload) == old(Outstanding(payload))
    {
      ok := OwnedBy(worker) && HasOperation(payload, op);
      if ok {
        payload := payload.(operation := None);
        if payload.target.None? && payload.handoffs.None? {
          payload := payload.(cleanupCompleted := true);
        }
      }
    }

    method FinishStandaloneVMCloneCleanup(worker: Token, t: Target, compensated: bool) returns (ok: bool)
      modifies this`payload
      ensures Value() == After(old(Value()), FinishStandalone(worker, t, compensated))
      ensures ok <==> old(Complete(t) && OwnedBy(worker) && Standalone(kind) && NamesClone(payload, t))
      ensures ok ==> payload.target.None? && payload.operation.None? && payload.cleanupCompleted == compensated
    {
      if !Complete(t) || !OwnedBy(worker) || (kind != TemplateVerify && kind != TemplateRevalidate) {
        return false;
      }
      var named := payload.operation.Some? && payload.operation.value.scope.podId == t.podId
        && payload.operation.value.scope.podVmId == t.podVmId;
      if payload.target != Some(t) && !named {
        return false;
      }
      payload := payload.(target := None, operation := None);
      if compensated {
        payload := payload.(cleanupCompleted := true);
      } else {
        payload := payload.(cleanupOnly := false, cleanupCompleted := false);
      }
      return true;
    }

    /** `AdoptJobRollbackStep`: append the lost owner's receipt once, then reopen the job for cleanup only. */
    method AdoptJobRollbackStep(step: Receipt, now: Time) returns (ok: bool)
      modifies this
      ensures Value() == After(old(Value()), HandOverRollback(step, now))
      ensures ok <==> kind == PodCreate && old(status) != Completed
      ensures ok ==> step in rollbackSteps && old(rollbackSteps) <= rollbackSteps && claimedBy.None?
    {
      ok := kind == PodCreate && status != Completed;
      if ok {
        var duplicate := false;
        for i := 0 to |rollbackSteps|
          invariant duplicate <==> step in rollbackSteps[..i]
        {
          if rollbackSteps[i] == step {
            duplicate := true;
          }
        }
        if !duplicate {
          rollbackSteps := rollbackSteps + [step];
        }
        payload := payload.(cleanupOnly := true);
        payload := payload.(cleanupCompleted := false);
        status := Pending;
        claimedBy, claimedAt, startedAt, completedAt := None, None, None, None;
        nextAttemptAt := Some(now);
      }
    }

    method StageVMCloneCleanup(worker: Token, t: Target) returns (ok: bool)
      modifies this`payload
      ensures Value() == After(old(Value()), StageClone(worker, t))
      ensures ok <==> old(OwnedBy(worker)) && Clones(kind) && t !in Destroyed(old(payload))
    {
      var destroyed := PayloadCode.Contains(List(payload.destroyed), t);
      ok := OwnedBy(worker) && Clones(kind) && !destroyed;
      if ok {
        payload := payload.(cleanupCompleted := false);
        payload := payload.(cleanupOnly := true);
        payload := payload.(target := Some(t));
      }
    }

    /** Attaches the staged clone to its VM row; cleanup intent is kept until it is disarmed. */
    method AdoptPodVMClone(worker: Token, vm: PodVm, moref: Ref, from: set<VmStatus>, to: VmStatus) returns (applied: bool)
      modifies vm
      ensures Value() == After(old(Value()), AdoptClone(worker, vm.id, moref, from, to))
      ensures vm.Value() == VmAfter(old(Value()), old(vm.Value()), vm.id, AdoptClone(worker, vm.id, moref, from, to))
      ensures applied <==> old(MayAdopt(Value(), worker, vm.id, moref) && vm.status in from && vm.vcenterVmId in {None, Some(moref)})
      ensures applied ==> vm.vcenterVmId == Some(moref) && vm.status == to
    {
      applied := false;
      if OwnedBy(worker) && payload.target.Some? && Names(payload.target.value, vm.id, moref) {
        var destroyed := PayloadCode.Contains(List(payload.destroyed), payload.target.value);
        if !destroyed && vm.status in from && (vm.vcenterVmId.None? || vm.vcenterVmId == Some(moref)) {
          vm.vcenterVmId := Some(moref);
          vm.status := to;
          applied := true;
        }
      }
    }

    method DisarmVMCloneCleanup(worker: Token, podVmId: Ref, moref: Ref) returns (ok: bool)
      modifies this`payload
      ensures Value() == After(old(Value()), DisarmClone(worker, podVmId, moref))
      ensures ok <==> old(OwnedBy(worker) && payload.target.Some? && Names(payload.target.value, podVmId, moref)
                          && |Outstanding(payload)| == 1)
      ensures ok ==> Outstanding(payload) == [] && payload.operation.None? && !payload.cleanupOnly
    {
      ok := OwnedBy(worker) && payload.target.Some? && Names(payload.target.value, podVmId, moref)
        && |List(payload.handoffs)| == 0;
      if ok {
        payload := payload.(target := None, cleanupOnly := false);
        payload := payload.(cleanupCompleted := false, operation := None);
      }
    }

    /** Records one exact destruction in the payload and clears exactly that reference from the VM row. */
    method CompleteVMCloneCleanup(vm: PodVm, moref: Ref) returns (r: Result<Fields, PayloadError>)
      modifies this`payload, vm
      ensures Value() == After(old(Value()), RecordCleanup(vm.id, moref))
      ensures vm.Value() == VmAfter(old(Value()), old(vm.Value()), vm.id, RecordCleanup(vm.id, moref))
      ensures r == RecordDestroyed(old(payload), vm.id, moref)
    {
      r := PayloadCode.RecordDestroyedPayload(payload, vm.id, moref);
      if r.Ok? {
        var starting := vm.status == VmPending || vm.status == Cloning || vm.status == Configuring;
        if vm.vcenterVmId == Some(moref) {
          vm.vcenterVmId := None;
          if starting {
            vm.status := VmError;
          }
        } else if vm.vcenterVmId.None? && starting {
          vm.status := VmError;
        }
        payload := r.value;
      }
    }

    method MarkJobCompensationCompleted(worker: Token) returns (ok: bool)
      modifies this`payload
      ensures Value() == After(old(Value()), MarkCompensated(worker))
      ensures ok <==> old(OwnedBy(worker) && payload.cleanupOnly && Outstanding(payload) == [])
      ensures ok ==> payload.cleanupCompleted
    {
      ok := OwnedBy(worker) && payload.cleanupOnly && payload.target.None? && |List(payload.handoffs)| == 0;
      if ok {
        payload := payload.(cleanupCompleted := true);
      }
    }
  }
}
