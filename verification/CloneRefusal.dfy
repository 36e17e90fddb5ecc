/**
 How long the "proof changed" refusal lasts once a retry has brought a destroyed
 target back: through every further call on the job, by whomever, until one of them
 takes that target out of the primary position.
*/
module CloneRefusal {
  import opened Wrappers
  import opened JobPayload
  import opened JobRow
  import CloneTargets

  function RunRow(row: Job, calls: seq<Call>): Job
    decreases |calls|
  {
    if calls == [] then row else RunRow(After(row, calls[0]), calls[1..])
  }

  /** The calls that can replace the primary target `t` or drop it without recording its destruction. */
  predicate MayMovePrimary(c: Call, t: Target) {
    || (c.StageClone? && c.target != t)
    || (c.RetryJob? && c.cleanupOnly && c.cleanupTarget.Some? && c.cleanupTarget != Some(t))
    || c.FinishStandalone?
    || (c.DisarmClone? && Names(t, c.podVmId, c.moref))
  }

  predicate LeavesPrimary(calls: seq<Call>, t: Target) {
    forall i | 0 <= i < |calls| :: !MayMovePrimary(calls[i], t)
  }

  /** The primary target is already recorded destroyed. */
  predicate Stuck(f: Fields, t: Target) {
    f.target == Some(t) && Complete(t) && t in Destroyed(f) && AllComplete(Destroyed(f))
  }

  predicate Refused(row: Job, t: Target) {
    RecordDestroyed(row.payload, t.podVmId, t.vcenterVmId) == Err(ProofChanged)
  }

  lemma StuckIsRefused(row: Job, t: Target)
    requires Stuck(row.payload, t)
    ensures Refused(row, t)
  {
  }

  /** Recording some target keeps the destroyed list's entries and leaves a stuck primary where it is. */
  lemma RecordKeepsStuck(f: Fields, podVmId: Ref, moref: Ref, t: Target)
    requires Stuck(f, t) && RecordDestroyed(f, podVmId, moref).Ok?
    ensures Stuck(RecordDestroyed(f, podVmId, moref).value, t)
  {
    var u := FindTarget(f, podVmId, moref).value.target;
    var g := RecordDestroyed(f, podVmId, moref).value;
    if u !in Destroyed(f) {
      assert Destroyed(g) == Destroyed(f) + [u];
    }
  }

  lemma CallKeepsStuck(row: Job, c: Call, t: Target)
    requires Stuck(row.payload, t) && !MayMovePrimary(c, t)
    ensures Stuck(After(row, c).payload, t)
  {
    match c
    case RecordCleanup(podVmId, moref) =>
      if RecordDestroyed(row.payload, podVmId, moref).Ok? {
        RecordKeepsStuck(row.payload, podVmId, moref, t);
      }
    case _ =>
  }

  lemma {:induction false} RunKeepsStuck(row: Job, calls: seq<Call>, t: Target)
    requires Stuck(row.payload, t) && LeavesPrimary(calls, t)
    ensures Stuck(RunRow(row, calls).payload, t)
    decreases |calls|
  {
    if calls != [] {
      CallKeepsStuck(row, calls[0], t);
      RunKeepsStuck(After(row, calls[0]), calls[1..], t);
    }
  }

  /**
   After a retry with target `t`, recording `t` is refused in every continuation that
   leaves the primary alone, if and only if `t` had been destroyed before the retry.
  */
  lemma RefusedUntilPrimaryMoves(row: Job, token: Token, nextAt: Time, t: Target)
    requires Owns(row, token) && TargetsOk(row.payload) && Complete(t)
    ensures var retried := After(row, RetryJob(token, nextAt, true, Some(t)));
            t in Destroyed(row.payload)
            <==> forall calls :: LeavesPrimary(calls, t) ==> Refused(RunRow(retried, calls), t)
  {
    var retried := After(row, RetryJob(token, nextAt, true, Some(t)));
    CloneTargets.RetryReopensDestroyed(row.payload, t);
    if t in Destroyed(row.payload) {
      forall calls | LeavesPrimary(calls, t) ensures Refused(RunRow(retried, calls), t) {
        RunKeepsStuck(retried, calls, t);
        StuckIsRefused(RunRow(retried, calls), t);
      }
    } else {
      assert LeavesPrimary([], t) && RunRow(retried, []) == retried;
      assert !Refused(RunRow(retried, []), t);
    }
  }

  /** A disarm by the owner does lift it: the record then finds its proof and changes nothing. */
  lemma DisarmLifts(row: Job, token: Token, t: Target)
    requires Owns(row, token) && Stuck(row.payload, t) && List(row.payload.handoffs) == []
    ensures var f := After(row, DisarmClone(token, t.podVmId, t.vcenterVmId)).payload;
            RecordDestroyed(f, t.podVmId, t.vcenterVmId) == Ok(f)
  {
    var f := After(row, DisarmClone(token, t.podVmId, t.vcenterVmId)).payload;
    assert f.target.None? && Destroyed(f) == Destroyed(row.payload);
  }
}
