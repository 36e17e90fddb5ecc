/**
 The promises of the pod tables over whole runs: mutators and destroys exclude
 each other, a destroy worker is never told that its job is obsolete or its VLAN
 lost, destroyed is final, live isolated pods and allocated VLANs are the same
 number, and a cancelled pod is one that no worker was ever let into or will be.
*/
module PodSafety {
  import opened Wrappers
  import J = JobRow
  import opened PodTables
  import opened PodLifecycle

  lemma StepKeepsInv(w: World, s: Step)
    requires Inv(w) && Allowed(w, s)
    ensures Inv(Apply(w, s))
  {
    StepKeepsReferences(w, s);
    StepKeepsOneJobEach(w, s);
    StepKeepsExclusive(w, s);
    StepKeepsPaired(w, s);
    StepKeepsStarted(w, s);
  }

  /** An empty installation: a pool with no row allocated. */
  ghost predicate Initial(w: World) {
    && w.t.pods == map[] && w.t.vms == map[] && w.t.jobs == [] && w.t.placements == {} && w.t.receipts == map[]
    && w.excused == {} && w.started == {}
    && forall tag :: tag in w.t.pool ==> w.t.pool[tag].owner.None?
  }

  lemma {:induction false} RunKeepsInv(w: World, steps: seq<Step>)
    requires Inv(w) && Obeys(w, steps)
    ensures Inv(Run(w, steps))
    decreases |steps|
  {
    if steps != [] {
      StepKeepsInv(w, steps[0]);
      RunKeepsInv(Apply(w, steps[0]), steps[1..]);
    }
  }

  /** From an empty installation, whatever happened. */
  lemma Reachable(w: World, steps: seq<Step>)
    requires Initial(w) && Obeys(w, steps)
    ensures Inv(Run(w, steps))
  {
    RunKeepsInv(w, steps);
  }

  // ---------------------------------------------------------------------------
  // Mutators and destroys
  // ---------------------------------------------------------------------------

  lemma {:induction false} RunSnoc(w: World, steps: seq<Step>)
    requires steps != []
    ensures Run(w, steps) == Apply(Run(w, steps[..|steps| - 1]), steps[|steps| - 1])
    decreases |steps|
  {
    if |steps| == 1 {
      assert steps[..0] == [] && Run(Apply(w, steps[0]), steps[1..]) == Apply(w, steps[0]);
    } else {
      var shorter := steps[..|steps| - 1];
      assert steps[1..][..|steps| - 2] == shorter[1..];
      RunSnoc(Apply(w, steps[0]), steps[1..]);
    }
  }

  /** The step names `m` itself: the owned in-progress vm_destroy of a deleted VM that asks for its now empty pod's destruction. */
  ghost predicate NamesExclusion(w: World, s: Step, m: JobId) {
    && m < |w.t.jobs| && ActivatesFor(w.t, s, w.t.jobs[m].pod)
    && s.exclusion.Some? && s.exclusion.value.job == m
    && ExclusionValid(w.t, s.pod, s.req, s.exclusion.value) && AllVms(w.t, s.pod, {J.Deleted})
  }

  /** The step reopens `m`, a pod_create, for cleanup by a rollback handover. */
  ghost predicate ReopensCreate(w: World, s: Step, m: JobId) {
    m < |w.t.jobs| && Reopens(s, m) && w.t.jobs[m].kind == CreatePod
  }

  /** The only two ways to be excused. */
  lemma ExcusedOnlyByName(w: World, s: Step, m: JobId)
    requires m in Apply(w, s).excused
    ensures NamesExclusion(w, s, m) || ReopensCreate(w, s, m) || m in w.excused
    ensures m < |w.t.jobs| && ActivatesFor(w.t, s, w.t.jobs[m].pod) ==> NamesExclusion(w, s, m)
  {
  }

  /** Step k excused `m`, and no destroy of its pod was activated since. */
  ghost predicate ExcusedAt(w: World, steps: seq<Step>, k: nat, m: JobId)
    requires k < |steps|
  {
    && (NamesExclusion(Run(w, steps[..k]), steps[k], m) || ReopensCreate(Run(w, steps[..k]), steps[k], m))
    && forall i | k < i < |steps| :: !ActivatedAt(w, steps, i, m)
  }

  ghost predicate ActivatedAt(w: World, steps: seq<Step>, i: nat, m: JobId)
    requires i < |steps|
  {
    var before := Run(w, steps[..i]);
    m < |before.t.jobs| && ActivatesFor(before.t, steps[i], before.t.jobs[m].pod)
  }

  lemma ExcuseLasts(w: World, steps: seq<Step>, k: nat, m: JobId)
    requires k < |steps| - 1 && ExcusedAt(w, steps[..|steps| - 1], k, m) && !ActivatedAt(w, steps, |steps| - 1, m)
    ensures ExcusedAt(w, steps, k, m)
  {
    var shorter := steps[..|steps| - 1];
    assert shorter[..k] == steps[..k];
    forall i | k < i < |steps| ensures !ActivatedAt(w, steps, i, m) {
      if i < |steps| - 1 {
        assert shorter[..i] == steps[..i];
        assert !ActivatedAt(w, shorter, i, m);
      }
    }
  }

  lemma {:induction false} ExcusedHasCause(w: World, steps: seq<Step>, m: JobId)
    requires m !in w.excused && m in Run(w, steps).excused
    ensures exists k: nat :: k < |steps| && ExcusedAt(w, steps, k, m)
    decreases |steps|
  {
    if steps != [] {
      var last := |steps| - 1;
      var shorter := steps[..last];
      RunSnoc(w, steps);
      ExcusedOnlyByName(Run(w, shorter), steps[last], m);
      if NamesExclusion(Run(w, shorter), steps[last], m) || ReopensCreate(Run(w, shorter), steps[last], m) {
        assert ExcusedAt(w, steps, last, m);
      } else {
        ExcusedHasCause(w, shorter, m);
        var k: nat :| k < last && ExcusedAt(w, shorter, k, m);
        ExcuseLasts(w, steps, k, m);
      }
    }
  }

  /**
   In every run, a mutator that works beside a nonterminal destroy of its pod was
   named by the very request that activated the destroy, or reopened since; and the
   pod has no other destroy row.
  */
  lemma MutatorsExcludeDestroys(w: World, steps: seq<Step>, d: JobId, m: JobId)
    requires Initial(w) && Obeys(w, steps)
    requires var t := Run(w, steps).t;
             d < |t.jobs| && m < |t.jobs| && t.jobs[m].pod == t.jobs[d].pod
             && LiveDestroy(t.jobs[d]) && LiveMutator(t.jobs[m])
    ensures exists k: nat :: k < |steps| && ExcusedAt(w, steps, k, m)
    ensures var t := Run(w, steps).t;
            forall i :: 0 <= i < |t.jobs| && Is(t.jobs[i], DestroyPod, t.jobs[d].pod) ==> i == d
  {
    Reachable(w, steps);
    ExcusedHasCause(w, steps, m);
  }

  /** A destroy worker that owns its job is told neither "obsolete" nor "ownership lost". */
  lemma PrepareSucceedsExactly(w: World, pod: PodId, job: JobId, owner: J.Token)
    requires Inv(w)
    ensures DecidePrepare(w.t, pod, job, owner) in {LeaseLost, AlreadyDestroyed, Prepared}
    ensures DecidePrepare(w.t, pod, job, owner) == Prepared
            <==> OwnsDestroy(w.t, pod, job, owner) && pod in w.t.pods && w.t.pods[pod].status != Destroyed
  {
    if OwnsDestroy(w.t, pod, job, owner) {
      assert JobRefers(w.t, w.t.jobs[job]);
      var first := FirstJob(w.t.jobs, DestroyPod, pod);
      assert first.Some? && Is(w.t.jobs[first.value], w.t.jobs[job].kind, w.t.jobs[job].pod);
      assert OncePerPod(w.t.jobs[job].kind);
    }
  }

  /** The retry sweep brings a failed destroy back unless a mutator is at work; nothing else stands in its way. */
  lemma FailedDestroyRequeuesUnlessBlocked(w: World, pod: PodId, facts: Facts)
    requires Inv(w) && pod in w.t.pods && w.t.pods[pod].status == DestroyFailed && !DestroyIntent(w.t, pod)
    ensures var d := DecideDestroy(w.t, pod, IfFailed, None, facts);
            && (d.Enqueued? || d.Requeued? || d == Refused(BlockedByMutator))
            && (d == Refused(BlockedByMutator)
                <==> exists i :: 0 <= i < |w.t.jobs| && LiveMutator(w.t.jobs[i]) && w.t.jobs[i].pod == pod)
  {
    var t := w.t;
    forall i | 0 <= i < |t.jobs| ensures Touches(t, t.jobs[i], pod) <==> t.jobs[i].pod == pod {
      assert JobRefers(t, t.jobs[i]);
    }
    if exists i :: 0 <= i < |t.jobs| && LiveMutator(t.jobs[i]) && t.jobs[i].pod == pod {
      var i :| 0 <= i < |t.jobs| && LiveMutator(t.jobs[i]) && t.jobs[i].pod == pod;
      assert Blocks(t, i, pod, None);
    }
  }

  // ---------------------------------------------------------------------------
  // Destroyed is final
  // ---------------------------------------------------------------------------

  ghost predicate IsDestroyed(t: Tables, pod: PodId) {
    pod in t.pods && t.pods[pod].status == Destroyed
  }

  lemma StepKeepsDestroyed(w: World, s: Step, pod: PodId)
    requires Allowed(w, s) && IsDestroyed(w.t, pod)
    ensures IsDestroyed(NextTables(w.t, s), pod)
    ensures pod !in w.started ==> pod !in NextStarted(w, s)
  {
  }

  lemma DestroyedOwnsNothing(t: Tables, pod: PodId)
    requires Paired(t) && IsDestroyed(t, pod)
    ensures forall tag :: tag in t.pool ==> t.pool[tag].owner != Some(pod)
  {
    forall tag | tag in t.pool ensures t.pool[tag].owner != Some(pod) {
      assert t.pool[tag].owner.Some? ==> RowMatches(t, tag);
    }
  }

  lemma {:induction false} DestroyedIsFinal(w: World, steps: seq<Step>, pod: PodId)
    requires Inv(w) && Obeys(w, steps) && IsDestroyed(w.t, pod)
    ensures IsDestroyed(Run(w, steps).t, pod)
    ensures forall tag :: tag in Run(w, steps).t.pool ==> Run(w, steps).t.pool[tag].owner != Some(pod)
    decreases |steps|
  {
    if steps == [] {
      DestroyedOwnsNothing(w.t, pod);
    } else {
      StepKeepsInv(w, steps[0]);
      StepKeepsDestroyed(w, steps[0], pod);
      DestroyedIsFinal(Apply(w, steps[0]), steps[1..], pod);
    }
  }

  // ---------------------------------------------------------------------------
  // The VLAN match
  // ---------------------------------------------------------------------------

  ghost function Allocated(t: Tables): set<Tag> {
    set tag | tag in t.pool && t.pool[tag].owner.Some?
  }

  ghost function Holders(t: Tables): set<PodId> {
    set p | p in t.pods && HoldsVlan(t.pods[p])
  }

  /** A one-to-one correspondence makes two finite sets the same size. */
  lemma {:induction false} SameSize(tags: set<Tag>, pods: set<PodId>, owner: map<Tag, PodId>)
    requires tags == owner.Keys
    requires forall a, b :: a in owner && b in owner && owner[a] == owner[b] ==> a == b
    requires forall a :: a in tags ==> owner[a] in pods
    requires forall p :: p in pods ==> exists a :: a in owner && owner[a] == p
    ensures |tags| == |pods|
    decreases tags
  {
    if tags != {} {
      var a :| a in tags;
      var rest := map b | b in owner && b != a :: owner[b];
      forall p | p in pods - {owner[a]} ensures exists b :: b in rest && rest[b] == p {
        var b :| b in owner && owner[b] == p;
        assert b in rest && rest[b] == p;
      }
      SameSize(tags - {a}, pods - {owner[a]}, rest);
    } else {
      assert pods == {};
    }
  }

  /** In every reachable state there are exactly as many allocated VLANs as live isolated pods, and no row is lost. */
  lemma VlansAreConserved(w: World, steps: seq<Step>)
    requires Initial(w) && Obeys(w, steps)
    ensures var t := Run(w, steps).t;
            && |Allocated(t)| == |Holders(t)|
            && (forall p :: p in Holders(t) ==> OwnsExactVlan(t, p, t.pods[p].vlan, t.pods[p].subnet))
            && (forall p :: p in Holders(t) ==> !(FIRST_STRIPE <= t.pods[p].vlan <= LAST_STRIPE))
    ensures Run(w, steps).t.pool.Keys == w.t.pool.Keys
    ensures forall tag :: tag in w.t.pool ==> Run(w, steps).t.pool[tag].subnet == w.t.pool[tag].subnet
  {
    Reachable(w, steps);
    PoolKeepsShape(w, steps);
    var t := Run(w, steps).t;
    var owner := map tag | tag in Allocated(t) :: t.pool[tag].owner.value;
    forall p | p in Holders(t) ensures t.pods[p].vlan in owner && owner[t.pods[p].vlan] == p {
      assert OwnsExactVlan(t, p, t.pods[p].vlan, t.pods[p].subnet);
    }
    forall a | a in owner ensures owner[a] in Holders(t) && t.pods[owner[a]].vlan == a { assert RowMatches(t, a); }
    SameSize(Allocated(t), Holders(t), owner);
  }

  lemma StepKeepsShape(t: Tables, s: Step)
    ensures NextTables(t, s).pool.Keys == t.pool.Keys
    ensures forall tag :: tag in t.pool ==> NextTables(t, s).pool[tag].subnet == t.pool[tag].subnet
  {
    StepMoves(t, s);
  }

  lemma {:induction false} PoolKeepsShape(w: World, steps: seq<Step>)
    ensures Run(w, steps).t.pool.Keys == w.t.pool.Keys
    ensures forall tag :: tag in w.t.pool ==> Run(w, steps).t.pool[tag].subnet == w.t.pool[tag].subnet
    decreases |steps|
  {
    if steps != [] {
      StepKeepsShape(w.t, steps[0]);
      PoolKeepsShape(Apply(w, steps[0]), steps[1..]);
    }
  }

  // ---------------------------------------------------------------------------
  // Cancellation
  // ---------------------------------------------------------------------------

  /** A pod nobody was let into can be cancelled exactly when it is isolated: a shared pod holds no pool row to release. */
  lemma CancelsExactlyIsolated(w: World, pod: PodId)
    requires Inv(w) && NeverStarted(w.t, pod)
    ensures DecideCancel(w.t, pod).CancelledNow? <==> w.t.pods[pod].mode == Isolated
    ensures DecideCancel(w.t, pod) == ReleaseMismatch <==> w.t.pods[pod].mode == Shared
  {
    assert forall other :: other in w.t.pool && w.t.pool[other].owner.Some? ==> RowMatches(w.t, other);
    if w.t.pods[pod].mode == Isolated {
      assert SoleRow(w.t, pod, w.t.pods[pod].vlan);
    }
  }

  /** Destroyed, with no work on it but its create job, and nothing left behind. */
  ghost predicate Clean(w: World, pod: PodId) {
    && IsDestroyed(w.t, pod) && pod !in w.started && pod !in w.t.receipts
    && (forall i :: 0 <= i < |w.t.jobs| && w.t.jobs[i].pod == pod ==> w.t.jobs[i].kind == CreatePod)
    && CleanVms(w.t, pod) && CleanPlacements(w.t, pod)
  }

  /** A cancelled pod had never let a worker in, and comes out clean. */
  lemma CancelLeavesClean(w: World, pod: PodId, now: J.Time)
    requires Inv(w) && DecideCancel(w.t, pod).CancelledNow?
    ensures pod !in w.started
    ensures Clean(Apply(w, DoCancel(pod, now)), pod)
  {
    var t, next := w.t, Apply(w, DoCancel(pod, now)).t;
    var create := FirstJob(t.jobs, CreatePod, pod).value;
    forall i | 0 <= i < |t.jobs| && i != create ensures next.jobs[i].pod != pod {
      assert !Touches(t, t.jobs[i], pod);
    }
    assert forall v :: v in t.placements && v in t.vms ==> t.vms[v].pod != pod;
  }

  lemma StepKeepsCleanJobs(w: World, s: Step, pod: PodId)
    requires Inv(w) && Clean(w, pod)
    ensures forall i | 0 <= i < |NextTables(w.t, s).jobs| ::
              NextTables(w.t, s).jobs[i].pod == pod ==> NextTables(w.t, s).jobs[i].kind == CreatePod
  {
    var t, next := w.t, NextTables(w.t, s);
    forall i | 0 <= i < |next.jobs| && next.jobs[i].pod == pod ensures next.jobs[i].kind == CreatePod {
      if i < |t.jobs| {
        assert JobRefers(t, t.jobs[i]);
        OldJobs(t, s, i);
      } else {
        NewJobForDestroyed(t, s, pod);
      }
    }
  }

  /** Nothing is enqueued for a destroyed pod. */
  lemma NewJobForDestroyed(t: Tables, s: Step, pod: PodId)
    requires IsDestroyed(t, pod)
    ensures forall i | |t.jobs| <= i < |NextTables(t, s).jobs| :: NextTables(t, s).jobs[i].pod != pod
  {
  }

  ghost predicate CleanVms(t: Tables, pod: PodId) {
    forall v :: v in t.vms && t.vms[v].pod == pod ==> t.vms[v].status == J.Deleted && !t.vms[v].traced
  }

  ghost predicate CleanPlacements(t: Tables, pod: PodId) {
    forall v :: v in t.placements && v in t.vms ==> t.vms[v].pod != pod
  }

  lemma StepKeepsCleanVms(w: World, s: Step, pod: PodId)
    requires Allowed(w, s) && !MayLeaveEvidence(w, pod) && IsDestroyed(w.t, pod) && CleanVms(w.t, pod)
    ensures CleanVms(NextTables(w.t, s), pod)
  {
  }

  lemma StepKeepsCleanPlacements(w: World, s: Step, pod: PodId)
    requires References(w.t) && Allowed(w, s) && !MayLeaveEvidence(w, pod) && CleanPlacements(w.t, pod)
    ensures CleanPlacements(NextTables(w.t, s), pod)
  {
    StepMoves(w.t, s);
  }

  lemma StepKeepsNoReceipt(w: World, s: Step, pod: PodId)
    requires Allowed(w, s) && !MayLeaveEvidence(w, pod) && pod !in w.t.receipts
    ensures pod !in NextTables(w.t, s).receipts
  {
  }

  lemma StepKeepsClean(w: World, s: Step, pod: PodId)
    requires Inv(w) && Allowed(w, s) && Clean(w, pod)
    ensures Clean(Apply(w, s), pod)
  {
    StepKeepsDestroyed(w, s, pod);
    StepKeepsCleanJobs(w, s, pod);
    assert !MayLeaveEvidence(w, pod);
    StepKeepsCleanVms(w, s, pod);
    StepKeepsCleanPlacements(w, s, pod);
    StepKeepsNoReceipt(w, s, pod);
  }

  /**
   After a cancellation no continuation, not even one in which a worker that lost
   its claim before the cancellation carries on, lets provisioning into the pod.
  */
  lemma {:induction false} CancelledStaysClean(w: World, steps: seq<Step>, pod: PodId)
    requires Inv(w) && Obeys(w, steps) && Clean(w, pod)
    ensures Clean(Run(w, steps), pod)
    ensures Apply(Run(w, steps), StartProvisioning(pod)) == Run(w, steps)
    decreases |steps|
  {
    if steps != [] {
      StepKeepsInv(w, steps[0]);
      StepKeepsClean(w, steps[0], pod);
      CancelledStaysClean(Apply(w, steps[0]), steps[1..], pod);
    }
  }

  // ---------------------------------------------------------------------------
  // The unguarded failure write
  // ---------------------------------------------------------------------------

  /**
   The destroy worker records failure without looking at the pod's status. For an
   isolated pod the match with the pool survives such a write exactly when it does
   not cross the line between destroyed and not destroyed.
  */
  lemma UnguardedStatusKeepsMatchExactly(t: Tables, pod: PodId, status: PodStatus, note: Note)
    requires Paired(t) && pod in t.pods && t.pods[pod].mode == Isolated
    ensures Paired(SetStatus(t, pod, status, note)) <==> (t.pods[pod].status == Destroyed <==> status == Destroyed)
  {
    var next := SetStatus(t, pod, status, note);
    if t.pods[pod].status == Destroyed && status != Destroyed {
      var tag := t.pods[pod].vlan;
      assert tag in t.pool && t.pool[tag].owner.Some? ==> RowMatches(t, tag);
      assert !OwnsExactVlan(next, pod, tag, next.pods[pod].subnet);
    } else if t.pods[pod].status != Destroyed && status == Destroyed {
      var tag := t.pods[pod].vlan;
      assert OwnsExactVlan(t, pod, tag, t.pods[pod].subnet);
      assert !RowMatches(next, tag);
    } else {
      forall tag | tag in t.pool && t.pool[tag].owner.Some? ensures RowMatches(next, tag) { assert RowMatches(t, tag); }
    }
  }

  /** An isolated pod that owns no pool row, after its destruction succeeded or failed. */
  ghost predicate Stranded(t: Tables, pod: PodId) {
    && pod in t.pods && t.pods[pod].mode == Isolated && t.pods[pod].status in {DestroyFailed, Destroyed}
    && forall tag :: tag in t.pool ==> t.pool[tag].owner != Some(pod)
  }

  ghost predicate Over(t: Tables, pod: PodId) {
    pod in t.pods && t.pods[pod].status in {DestroyFailed, Destroyed}
  }

  lemma StatusWriteLeavesOver(t: Tables, s: Step, pod: PodId)
    requires Stranded(t, pod) && IsStatusWrite(s)
    ensures Over(NextTables(t, s), pod)
  {
    assert !Recoverable(t, pod);
  }

  lemma FinalizerLeavesOver(t: Tables, s: Step, pod: PodId)
    requires Over(t, pod) && IsFinalizer(s)
    ensures Over(NextTables(t, s), pod)
  {
  }

  lemma OtherLeavesOver(t: Tables, s: Step, pod: PodId)
    requires Over(t, pod) && !IsFinalizer(s) && !IsStatusWrite(s)
    ensures Over(NextTables(t, s), pod)
  {
  }

  /** No step makes anything else of such a pod: it cannot be prepared, restarted or cancelled. */
  lemma StrandedStatusStays(t: Tables, s: Step, pod: PodId)
    requires Stranded(t, pod)
    ensures Over(NextTables(t, s), pod)
  {
    if IsStatusWrite(s) {
      StatusWriteLeavesOver(t, s, pod);
    } else if IsFinalizer(s) {
      FinalizerLeavesOver(t, s, pod);
    } else {
      OtherLeavesOver(t, s, pod);
    }
  }

  /** Nor does any give it a row: rows are handed out only to new pods. */
  lemma StepKeepsStranded(t: Tables, s: Step, pod: PodId)
    requires Stranded(t, pod)
    ensures Stranded(NextTables(t, s), pod)
  {
    StrandedStatusStays(t, s, pod);
    StepMoves(t, s);
    assert PodMoves(t.pods[pod], NextTables(t, s).pods[pod]);
    forall tag | tag in t.pool ensures NextTables(t, s).pool[tag].owner != Some(pod) {
      assert SlotMoves(t, t.pool[tag], NextTables(t, s).pool[tag]);
    }
  }

  /** Whatever happens, contracts kept or not. */
  lemma {:induction false} StrandedForEver(w: World, steps: seq<Step>, pod: PodId)
    requires Stranded(w.t, pod)
    ensures Stranded(Run(w, steps).t, pod)
    decreases |steps|
  {
    if steps != [] {
      StepKeepsStranded(w.t, steps[0], pod);
      StrandedForEver(Apply(w, steps[0]), steps[1..], pod);
    }
  }

  /** For a stranded pod no destroy worker is prepared and no destroy request, of whatever kind, queues a job. */
  lemma StrandedIsNeverDestroyed(t: Tables, pod: PodId, job: JobId, owner: J.Token, req: Requirement, e: Option<Exclusion>, facts: Facts)
    requires Stranded(t, pod)
    ensures DecidePrepare(t, pod, job, owner) != Prepared
    ensures !DecideDestroy(t, pod, req, e, facts).Enqueued? && !DecideDestroy(t, pod, req, e, facts).Requeued?
  {
    assert !Recoverable(t, pod);
  }

  /**
   The write can come late. Whoever destroyed the pod meanwhile, a compensating
   pod_create or the successor of a destroy worker that lost its claim: a failure
   recorded afterwards leaves a destroy_failed pod without its VLAN, and in every
   continuation no destroy worker is prepared for it and no destroy request queues
   a job for it.
  */
  lemma LateFailureStrandsPod(w: World, pod: PodId, note: Note, steps: seq<Step>,
                              job: JobId, owner: J.Token, req: Requirement, e: Option<Exclusion>, facts: Facts)
    requires Inv(w) && IsDestroyed(w.t, pod) && w.t.pods[pod].mode == Isolated
    ensures var failed := Apply(w, MarkDestroyFailed(pod, note));
            && failed.t.pods[pod].status == DestroyFailed
            && DecidePrepare(Run(failed, steps).t, pod, job, owner) != Prepared
            && !DecideDestroy(Run(failed, steps).t, pod, req, e, facts).Enqueued?
            && !DecideDestroy(Run(failed, steps).t, pod, req, e, facts).Requeued?
  {
    var failed := Apply(w, MarkDestroyFailed(pod, note));
    DestroyedOwnsNothing(w.t, pod);
    assert Stranded(failed.t, pod);
    StrandedForEver(failed, steps, pod);
    StrandedIsNeverDestroyed(Run(failed, steps).t, pod, job, owner, req, e, facts);
  }
}
