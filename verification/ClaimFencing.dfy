/**
 What a claim token can and cannot do over whole runs: once superseded it never
 writes again, a claim is taken away only by expiry, by its owner or by a
 rollback handover, and handed-over receipts and stored task references survive.

 Only the freshness of claim tokens is assumed here; none of the clone calling
 contracts is needed except where a lemma asks for `Obeys`.
*/
module ClaimFencing {
  import opened Wrappers
  import opened JobPayload
  import opened JobRow
  import opened CloneProtocol
  import CloneSafety

  /** Each claim attempt mints a token never presented before. */
  ghost predicate FreshClaims(w: World, steps: seq<Step>)
    decreases |steps|
  {
    steps != [] ==>
      && (steps[0].OnJob? && steps[0].call.Claim? ==> steps[0].call.token !in w.used)
      && (steps[0].Enqueue? ==> steps[0].job !in w.jobs)
      && FreshClaims(Apply(w, steps[0]), steps[1..])
  }

  /** A call a token is fenced out of changes nothing: not the job, not the VM rows. */
  lemma FencedOut(row: Job, c: Call, vm: VmRow, podVmId: Ref)
    requires Actor(c).Some? && row.claimedBy != Actor(c)
    ensures After(row, c) == row
    ensures VmAfter(row, vm, podVmId, c) == vm
  {
  }

  /** The job is out of this token's hands. */
  ghost predicate Lost(w: World, j: JobId, token: Token) {
    j in w.jobs && token in w.used && w.jobs[j].claimedBy != Some(token)
  }

  lemma {:induction false} LostStaysLost(w: World, steps: seq<Step>, j: JobId, token: Token)
    requires Lost(w, j, token) && FreshClaims(w, steps)
    ensures Lost(CloneSafety.Run(w, steps), j, token)
    decreases |steps|
  {
    if steps != [] {
      assert Lost(Apply(w, steps[0]), j, token);
      LostStaysLost(Apply(w, steps[0]), steps[1..], j, token);
    }
  }

  /** In every continuation, every call the superseded token makes on that job leaves both tables as they are. */
  lemma SupersededNeverWrites(w: World, steps: seq<Step>, j: JobId, token: Token, c: Call)
    requires Lost(w, j, token) && FreshClaims(w, steps)
    requires Actor(c) == Some(token)
    ensures var now := CloneSafety.Run(w, steps);
            Apply(now, OnJob(j, c)).jobs == now.jobs && Apply(now, OnJob(j, c)).vms == now.vms
  {
    LostStaysLost(w, steps, j, token);
    var now := CloneSafety.Run(w, steps);
    forall v | v in now.vms ensures VmAfter(now.jobs[j], now.vms[v], v, c) == now.vms[v] {
      FencedOut(now.jobs[j], c, now.vms[v], v);
    }
  }

  // ---------------------------------------------------------------------------
  // Who may take a claim away
  // ---------------------------------------------------------------------------

  ghost predicate PendingIsUnclaimed(w: World) {
    forall j :: j in w.jobs && w.jobs[j].status == Pending ==> w.jobs[j].claimedBy.None?
  }

  /** One call: a row that ends up pending has no claim. */
  lemma CallKeepsUnclaimed(row: Job, c: Call)
    requires row.status == Pending ==> row.claimedBy.None?
    ensures After(row, c).status == Pending ==> After(row, c).claimedBy.None?
  {
  }

  lemma StepKeepsUnclaimed(w: World, s: Step)
    requires PendingIsUnclaimed(w)
    ensures PendingIsUnclaimed(Apply(w, s))
  {
    if s.OnJob? && s.job in w.jobs {
      CallKeepsUnclaimed(w.jobs[s.job], s.call);
    }
  }

  lemma {:induction false} RunKeepsPendingUnclaimed(w: World, steps: seq<Step>)
    requires PendingIsUnclaimed(w)
    ensures PendingIsUnclaimed(CloneSafety.Run(w, steps))
    decreases |steps|
  {
    if steps != [] {
      StepKeepsUnclaimed(w, steps[0]);
      RunKeepsPendingUnclaimed(Apply(w, steps[0]), steps[1..]);
    }
  }

  /**
   A step that ends a token's claim is an expiry recovery, and then the stored
   heartbeat is older than the lease or missing; a retry by the token itself; or
   a rollback handover.
  */
  lemma ClaimEndsOnlyThreeWays(w: World, s: Step, j: JobId, token: Token)
    requires PendingIsUnclaimed(w) && j in w.jobs && w.jobs[j].claimedBy == Some(token)
    requires s.Enqueue? ==> s.job !in w.jobs
    requires Apply(w, s).jobs[j].claimedBy != Some(token)
    ensures s.OnJob? && s.job == j
    ensures || (s.call.RecoverStale? && Active(w.jobs[j])
                && (w.jobs[j].claimedAt.Some? ==> w.jobs[j].claimedAt.value + s.call.lease < s.call.now))
            || (s.call.RetryJob? && s.call.token == token)
            || s.call.HandOverRollback?
  {
    assert w.jobs[j].status != Pending;
  }

  /** A heartbeat written at `beat` keeps recovery away for a whole lease after it. */
  lemma FreshHeartbeatSurvivesRecovery(row: Job, beat: Time, now: Time, lease: Time, token: Token)
    requires Owns(row, token) && now <= beat + lease
    ensures After(After(row, Renew(token, beat)), RecoverStale(now, lease)) == After(row, Renew(token, beat))
  {
  }

  // ---------------------------------------------------------------------------
  // Rollback handover
  // ---------------------------------------------------------------------------

  /** Some token minted after the handover rewrote the receipts. */
  predicate RewrittenBySuccessor(steps: seq<Step>, j: JobId, before: set<Token>) {
    exists i | 0 <= i < |steps| :: Rewrites(steps[i], j, before)
  }

  /** One call by anyone but a successor keeps the receipt. */
  lemma CallKeepsReceipt(row: Job, c: Call, step: Receipt, before: set<Token>)
    requires step in row.rollbackSteps && (row.claimedBy.Some? ==> row.claimedBy.value !in before)
    requires !(c.SaveRollbackSteps? && c.token !in before) && !(c.Claim? && c.token in before)
    ensures var after := After(row, c);
            step in after.rollbackSteps && (after.claimedBy.Some? ==> after.claimedBy.value !in before)
  {
  }

  /** The receipt is there, and nobody from before the handover holds the job. */
  ghost predicate HoldsReceipt(w: World, j: JobId, step: Receipt, before: set<Token>) {
    && j in w.jobs && step in w.jobs[j].rollbackSteps && before <= w.used
    && (w.jobs[j].claimedBy.Some? ==> w.jobs[j].claimedBy.value !in before)
  }

  predicate Rewrites(s: Step, j: JobId, before: set<Token>) {
    s.OnJob? && s.job == j && s.call.SaveRollbackSteps? && s.call.token !in before
  }

  lemma StepKeepsReceipt(w: World, s: Step, j: JobId, step: Receipt, before: set<Token>)
    requires HoldsReceipt(w, j, step, before) && !Rewrites(s, j, before)
    requires s.OnJob? && s.call.Claim? ==> s.call.token !in w.used
    requires s.Enqueue? ==> s.job !in w.jobs
    ensures HoldsReceipt(Apply(w, s), j, step, before)
  {
    if s.OnJob? && s.job == j {
      CallKeepsReceipt(w.jobs[j], s.call, step, before);
    }
  }

  lemma {:induction false} ReceiptSticks(w: World, steps: seq<Step>, j: JobId, step: Receipt, before: set<Token>)
    requires HoldsReceipt(w, j, step, before) && FreshClaims(w, steps)
    ensures var end := CloneSafety.Run(w, steps);
            j in end.jobs && (step in end.jobs[j].rollbackSteps || RewrittenBySuccessor(steps, j, before))
    decreases |steps|
  {
    if steps != [] {
      if Rewrites(steps[0], j, before) {
        KeepsJob(w, steps, j);
      } else {
        StepKeepsReceipt(w, steps[0], j, step, before);
        ReceiptSticks(Apply(w, steps[0]), steps[1..], j, step, before);
        if RewrittenBySuccessor(steps[1..], j, before) {
          var i :| 0 <= i < |steps[1..]| && Rewrites(steps[1..][i], j, before);
          assert steps[i + 1] == steps[1..][i];
        }
      }
    }
  }

  lemma {:induction false} KeepsJob(w: World, steps: seq<Step>, j: JobId)
    requires j in w.jobs
    ensures j in CloneSafety.Run(w, steps).jobs
    decreases |steps|
  {
    if steps != [] {
      KeepsJob(Apply(w, steps[0]), steps[1..], j);
    }
  }

  /**
   A receipt handed over while any claim was running stays in `rollback_steps`,
   in every continuation, until a token claimed after the handover rewrites them.
  */
  lemma HandoverSurvives(w: World, j: JobId, step: Receipt, now: Time, steps: seq<Step>)
    requires j in w.jobs && w.jobs[j].kind == PodCreate && w.jobs[j].status != Completed
    requires FreshClaims(Apply(w, OnJob(j, HandOverRollback(step, now))), steps)
    ensures var handed := Apply(w, OnJob(j, HandOverRollback(step, now)));
            var end := CloneSafety.Run(handed, steps);
            && handed.jobs[j].status == Pending && handed.jobs[j].claimedBy.None? && handed.jobs[j].payload.cleanupOnly
            && step in handed.jobs[j].rollbackSteps
            && w.jobs[j].rollbackSteps <= handed.jobs[j].rollbackSteps
            && j in end.jobs
            && (step in end.jobs[j].rollbackSteps || RewrittenBySuccessor(steps, j, w.used))
  {
    var handed := Apply(w, OnJob(j, HandOverRollback(step, now)));
    ReceiptSticks(handed, steps, j, step, w.used);
  }

  // ---------------------------------------------------------------------------
  // Task references
  // ---------------------------------------------------------------------------

  /** One call, with no contract at all: an armed operation is never replaced and its stored task never changes. */
  lemma ArmedOperationIsNeverReplaced(row: Job, c: Call)
    requires row.payload.operation.Some? && row.payload.operation.value.phase != Prepared
    ensures var e, g := row.payload.operation.value, After(row, c).payload;
            g.operation.Some? ==>
              && g.operation.value.id == e.id && g.operation.value.scope == e.scope
              && g.operation.value.phase != Prepared
              && (e.taskRef != EMPTY ==> g.operation.value.taskRef == e.taskRef)
  {
    CloneSafety.OperationAfter(row, c);
  }

  /** The job either still shows this operation with this task, or no longer shows it at all. */
  ghost predicate TaskIs(w: World, j: JobId, op: Ref, task: Ref) {
    && j in w.jobs && op in w.issued
    && (HasOperation(w.jobs[j].payload, op) ==>
          w.jobs[j].payload.operation.value.taskRef == task && w.jobs[j].payload.operation.value.phase != Prepared)
  }

  lemma TaskStep(w: World, s: Step, j: JobId, op: Ref, task: Ref)
    requires Inv(w) && Allowed(w, s) && TaskIs(w, j, op, task) && task != EMPTY
    ensures TaskIs(Apply(w, s), j, op, task)
  {
    if s.OnJob? && s.job == j {
      CloneSafety.CallKeepsIssued(w, j, s.call);
      CloneSafety.OperationAfter(w.jobs[j], s.call);
      if HasOperation(w.jobs[j].payload, op) {
        ArmedOperationIsNeverReplaced(w.jobs[j], s.call);
      }
    }
  }

  /** In every run, once a task reference is stored for an operation that job never shows it with another one. */
  lemma {:induction false} TaskReferenceNeverChanges(w: World, steps: seq<Step>, j: JobId, op: Ref, task: Ref)
    requires Inv(w) && CloneSafety.Obeys(w, steps) && TaskIs(w, j, op, task) && task != EMPTY
    ensures TaskIs(CloneSafety.Run(w, steps), j, op, task)
    decreases |steps|
  {
    if steps != [] {
      TaskStep(w, steps[0], j, op, task);
      CloneSafety.StepKeepsInv(w, steps[0]);
      TaskReferenceNeverChanges(Apply(w, steps[0]), steps[1..], j, op, task);
    }
  }

}
