/**
 The pod transactions as they run: scans over the job and VM rows that gather
 evidence, then row updates in place. Each method is proved to leave exactly the
 tables its function in `PodTables` describes, so the theorems of `PodSafety`
 hold of it.
*/
module PodStore {
  import opened Wrappers
  import J = JobRow
  import opened PodTables

  class PodDatabase {
    var pods: map<PodId, Pod>
    var vms: map<VmId, Vm>
    var jobs: seq<PodJob>
    var pool: map<Tag, Slot>
    var placements: set<VmId>
    var receipts: map<PodId, bool>

    constructor (pool: map<Tag, Slot>)
      ensures Value() == Tables(map[], map[], [], pool, {}, map[])
    {
      pods, vms, jobs, placements, receipts := map[], map[], [], {}, map[];
      this.pool := pool;
    }

    function Value(): Tables
      reads this
    {
      Tables(pods, vms, jobs, pool, placements, receipts)
    }

    // -------------------------------------------------------------------------
    // Scans
    // -------------------------------------------------------------------------

    method PodHasAuthoritativeDestroyJob(pod: PodId) returns (found: bool)
      ensures found <==> DestroyIntent(Value(), pod)
    {
      found := false;
      for i := 0 to |jobs|
        invariant found <==> exists k :: 0 <= k < i && Is(jobs[k], DestroyPod, pod) && !Terminal(jobs[k].row.status)
      {
        if jobs[i].kind == DestroyPod && jobs[i].pod == pod && !Terminal(jobs[i].row.status) {
          found := true;
        }
      }
    }

    method RejectPodDestroyWithNonterminalMutator(pod: PodId, req: Requirement, exclusion: Option<Exclusion>)
      returns (refusal: Option<Refusal>)
      ensures refusal == MutatorCheck(Value(), pod, req, exclusion)
    {
      var excluded := None;
      if exclusion.Some? {
        if !ExclusionValid(Value(), pod, req, exclusion.value) {
          return Some(ExclusionInvalid);
        }
        excluded := Some(exclusion.value.job);
      }
      for i := 0 to |jobs|
        invariant forall k :: 0 <= k < i ==> !Blocks(Value(), k, pod, excluded)
      {
        if Blocks(Value(), i, pod, excluded) {
          return Some(BlockedByMutator);
        }
      }
      return None;
    }

    method PodCancellationProtectedJobs(pod: PodId, create: JobId) returns (evidence: bool)
      ensures evidence <==> OtherJobs(Value(), pod, create)
    {
      evidence := false;
      for i := 0 to |jobs|
        invariant evidence <==> exists k :: 0 <= k < i && k != create && Touches(Value(), jobs[k], pod)
      {
        if i != create && Touches(Value(), jobs[i], pod) {
          evidence := true;
        }
      }
    }

    method PodVmsShowWork(pod: PodId) returns (evidence: bool)
      ensures evidence <==> !Untouched(Value(), pod)
    {
      var rest := vms.Keys;
      while rest != {}
        invariant rest <= vms.Keys
        invariant forall v :: v in vms && v !in rest && vms[v].pod == pod ==> vms[v].status == J.VmPending && !vms[v].traced
      {
        var v :| v in rest;
        if vms[v].pod == pod && (vms[v].status != J.VmPending || vms[v].traced) {
          return true;
        }
        rest := rest - {v};
      }
      return false;
    }

    /** How many rows the release touches, and the pool it leaves. */
    method ReleaseRows(pod: PodId) returns (affected: nat)
      modifies this`pool
      ensures pool == Release(old(pool), pod)
      ensures affected == |RowsOf(old(pool), pod)|
    {
      affected := 0;
      var before, rest := pool, pool.Keys;
      ghost var mine: set<Tag> := {};
      while rest != {}
        invariant rest <= before.Keys && pool.Keys == before.Keys
        invariant mine == set tag | tag in before && tag !in rest && before[tag].owner == Some(pod)
        invariant affected == |mine|
        invariant forall tag :: tag in rest ==> pool[tag] == before[tag]
        invariant forall tag :: tag in before && tag !in rest ==> pool[tag] == Release(before, pod)[tag]
      {
        var tag :| tag in rest;
        if pool[tag].owner == Some(pod) {
          pool := pool[tag := pool[tag].(owner := None)];
          affected := affected + 1;
          mine := mine + {tag};
        }
        rest := rest - {tag};
      }
      assert mine == RowsOf(before, pod);
    }

    // -------------------------------------------------------------------------
    // Producers
    // -------------------------------------------------------------------------

    /** Any free row of the wanted scope outside the shared stripes; none is found only when there is none. */
    method CheckoutVLAN(pod: PodId, wanted: Option<HostScope>) returns (tag: Option<Tag>)
      modifies this`pool
      ensures tag.Some? ==> old(Available(Value(), tag.value, wanted))
      ensures tag.Some? ==> pool == old(pool)[tag.value := old(pool)[tag.value].(owner := Some(pod))]
      ensures tag.None? ==> pool == old(pool) && forall other :: !Available(Value(), other, wanted)
    {
      var rest := pool.Keys;
      while rest != {}
        invariant pool == old(pool) && rest <= pool.Keys
        invariant forall other :: Available(Value(), other, wanted) ==> other in rest
      {
        var t :| t in rest;
        if pool[t].owner.None? && (wanted.None? || pool[t].scope == wanted.value) && (t < FIRST_STRIPE || t > LAST_STRIPE) {
          pool := pool[t := pool[t].(owner := Some(pod))];
          return Some(t);
        }
        rest := rest - {t};
      }
      return None;
    }

    /** `pod` and `vmIds` are newly generated ids. */
    method CreateIsolatedPod(pod: PodId, vmIds: set<VmId>) returns (tag: Option<Tag>)
      requires pod !in pods && vmIds !! vms.Keys
      modifies this
      ensures tag.Some? ==> old(Free(Value(), tag.value)) && Value() == CreateIsolated(old(Value()), pod, tag.value, vmIds)
      ensures tag.None? ==> Value() == old(Value()) && forall other :: !Free(Value(), other)
    {
      tag := CheckoutVLAN(pod, Some(AllHosts));
      if tag.Some? {
        pods := pods[pod := Pod(Pending, Isolated, tag.value, pool[tag.value].subnet, Plain)];
        vms := vms + map v | v in vmIds :: Vm(pod, J.VmPending, false);
        jobs := jobs + [NewJob(CreatePod, pod, None)];
      }
    }

    method CreateVMJob(pod: PodId, vm: VmId, kind: Kind) returns (created: bool)
      modifies this`jobs
      ensures Value() == CreateVmJob(old(Value()), pod, vm, kind)
      ensures created <==> (kind == DestroyVm || kind == VmWork) && old(AcceptsVmJob(Value(), pod, vm))
    {
      if kind != DestroyVm && kind != VmWork {
        return false;
      }
      if pod !in pods || RejectsMutator(pods[pod].status) {
        return false;
      }
      var destroyExists := PodHasAuthoritativeDestroyJob(pod);
      if destroyExists {
        return false;
      }
      if vm !in vms || vms[vm].pod != pod || vms[vm].status == J.Deleted {
        return false;
      }
      jobs := jobs + [NewJob(kind, pod, Some(vm))];
      return true;
    }

    method CreateVMAddJob(pod: PodId, vm: VmId) returns (created: bool)
      modifies this`jobs, this`vms
      ensures Value() == CreateVmAdd(old(Value()), pod, vm)
      ensures created <==> old(AcceptsVmAdd(Value(), pod, vm))
    {
      if pod !in pods || pods[pod].status != Active {
        return false;
      }
      var destroyExists := PodHasAuthoritativeDestroyJob(pod);
      if destroyExists || vm in vms {
        return false;
      }
      vms := vms[vm := Vm(pod, J.VmPending, false)];
      jobs := jobs + [NewJob(AddVm, pod, Some(vm))];
      return true;
    }

    method CreatePodDestroyJob(pod: PodId, req: Requirement, exclusion: Option<Exclusion>, facts: Facts)
      returns (decision: Decision)
      modifies this`jobs
      ensures decision == DecideDestroy(old(Value()), pod, req, exclusion, facts)
      ensures Value() == CreateDestroy(old(Value()), pod, req, exclusion, facts)
    {
      if pod !in pods {
        return Refused(PodMissing);
      }
      var status := pods[pod].status;
      var existing := FirstJob(jobs, DestroyPod, pod);
      if existing.Some? {
        var j := existing.value;
        if Terminal(jobs[j].row.status) && CanRestart(status, req) {
          var required := RequirementMet(Value(), pod, req, facts);
          var ownsResources := true;
          if pods[pod].mode != Shared {
            ownsResources := OwnsExactVlan(Value(), pod, pods[pod].vlan, pods[pod].subnet);
          }
          if required && ownsResources {
            var refusal := RejectPodDestroyWithNonterminalMutator(pod, req, exclusion);
            if refusal.Some? {
              return Refused(refusal.value);
            }
            jobs := jobs[j := Requeue(jobs[j])];
            return Requeued(j);
          }
        }
        return Reused(j);
      }
      match status {
        case Destroying | Destroyed | Cancelled => return Refused(StatusRejects);
        case DestroyFailed =>
          if req != IfFailed {
            return Refused(StatusRejects);
          }
        case _ =>
      }
      if !RequirementMet(Value(), pod, req, facts) {
        return Refused(NotNeeded);
      }
      if req == IfFailed && !Recoverable(Value(), pod) {
        return Refused(NotNeeded);
      }
      var refusal := RejectPodDestroyWithNonterminalMutator(pod, req, exclusion);
      if refusal.Some? {
        return Refused(refusal.value);
      }
      jobs := jobs + [NewJob(DestroyPod, pod, None)];
      return Enqueued;
    }

    // -------------------------------------------------------------------------
    // Create worker
    // -------------------------------------------------------------------------

    method UpdatePodStatusFrom(pod: PodId, from: set<PodStatus>, to: PodStatus) returns (applied: bool)
      modifies this`pods
      ensures applied <==> old(pod in pods && pods[pod].status in from)
      ensures Value() == Advance(old(Value()), pod, from, to)
    {
      applied := pod in pods && pods[pod].status in from;
      if applied {
        pods := pods[pod := pods[pod].(status := to, note := Plain)];
      }
    }

    method BeginPodCreateCleanup(pod: PodId, job: JobId, owner: J.Token, mayLeaveProvisioning: bool)
      returns (ok: bool, status: Option<PodStatus>)
      modifies this`pods, this`jobs
      ensures Value() == BeginCleanup(old(Value()), pod, job, owner, mayLeaveProvisioning)
      ensures ok <==> old(&& job < |jobs| && J.Owns(jobs[job].row, owner) && jobs[job].kind == CreatePod
                          && (pod in pods ==> CleanupSafe(pods[pod].status) || (pods[pod].status == Provisioning && mayLeaveProvisioning)))
      ensures ok ==> status == (if pod in pods then Some(pods[pod].status) else None)
      ensures ok && status.Some? ==> CleanupSafe(status.value)
    {
      if job >= |jobs| || !J.Owns(jobs[job].row, owner) || jobs[job].kind != CreatePod {
        return false, None;
      }
      if pod in pods {
        if pods[pod].status == Provisioning && mayLeaveProvisioning {
          pods := pods[pod := pods[pod].(status := Error, note := Plain)];
        } else if !CleanupSafe(pods[pod].status) {
          return false, None;
        }
      }
      jobs := jobs[job := jobs[job].(row := J.After(jobs[job].row, J.MarkCleanupOnly(owner)))];
      return true, if pod in pods then Some(pods[pod].status) else None;
    }

    // -------------------------------------------------------------------------
    // Destroy worker, finalizers, cancellation
    // -------------------------------------------------------------------------

    method PreparePodDestroy(pod: PodId, job: JobId, owner: J.Token) returns (outcome: Preparation)
      modifies this`pods
      ensures outcome == DecidePrepare(old(Value()), pod, job, owner)
      ensures Value() == Prepare(old(Value()), pod, job, owner)
    {
      if !OwnsDestroy(Value(), pod, job, owner) {
        return LeaseLost;
      }
      if pod !in pods {
        return NotFound;
      }
      if pods[pod].status == Destroyed {
        return AlreadyDestroyed;
      }
      var authoritative := FirstJob(jobs, DestroyPod, pod);
      if authoritative != Some(job) {
        return Obsolete;
      }
      if pods[pod].mode != Shared && !OwnsExactVlan(Value(), pod, pods[pod].vlan, pods[pod].subnet) {
        return OwnershipLost;
      }
      pods := pods[pod := pods[pod].(status := Destroying, note := Plain)];
      return Prepared;
    }

    method FinalizePodDestroy(pod: PodId, job: JobId, owner: J.Token) returns (ok: bool)
      modifies this`pods, this`pool
      ensures Value() == FinalizeDestroy(old(Value()), pod, job, owner)
      ensures ok <==> old(OwnsDestroy(Value(), pod, job, owner) && pod in pods && pods[pod].status == Destroying)
      ensures ok ==> pods[pod].status == Destroyed && forall tag :: tag in pool ==> pool[tag].owner != Some(pod)
    {
      ok := OwnsDestroy(Value(), pod, job, owner) && pod in pods && pods[pod].status == Destroying;
      if ok {
        pods := pods[pod := pods[pod].(status := Destroyed, note := Plain)];
        var _ := ReleaseRows(pod);
      }
    }

    method FinalizeNeverAppliedPodCreate(pod: PodId) returns (finalized: bool)
      modifies this`pods, this`pool
      ensures Value() == PodTables.FinalizeNeverApplied(old(Value()), pod)
      ensures finalized <==> old(pod in pods && CleanupSafe(pods[pod].status) && !LiveReceipt(Value(), pod))
      ensures finalized ==> pod in pods && pods[pod].status == Destroyed
    {
      if pod !in pods || !CleanupSafe(pods[pod].status) || (pod in receipts && receipts[pod]) {
        return false;
      }
      pods := pods[pod := pods[pod].(status := Destroyed, note := Plain)];
      var _ := ReleaseRows(pod);
      return true;
    }

    method FinalizeOrphanedPodDestroy(pod: PodId, tag: Tag, subnet: Subnet, manualResult: bool) returns (ok: bool)
      modifies this`pods, this`pool, this`jobs
      ensures ok <==> old(MayFinalizeOrphan(Value(), pod, tag, subnet, manualResult))
      ensures Value() == FinalizeOrphan(old(Value()), pod, tag, subnet, manualResult)
    {
      if pod !in pods || pods[pod].status != DestroyFailed || pods[pod].note != ManualCleanup
         || pods[pod].vlan != tag || pods[pod].subnet != subnet {
        return false;
      }
      var job := FirstJob(jobs, DestroyPod, pod);
      if job.None? || !manualResult || jobs[job.value].row.status != J.Failed {
        return false;
      }
      if Placed(Value(), pod) || LiveReceipt(Value(), pod) {
        return false;
      }
      for i := 0 to |jobs|
        invariant forall k :: 0 <= k < i && k != job.value && jobs[k].pod == pod ==> Terminal(jobs[k].row.status)
      {
        if i != job.value && jobs[i].pod == pod && !Terminal(jobs[i].row.status) {
          return false;
        }
      }
      pods := pods[pod := pods[pod].(status := Destroyed, note := Plain)];
      jobs := jobs[job.value := jobs[job.value].(row := jobs[job.value].row.(status := J.Completed))];
      var _ := ReleaseRows(pod);
      return true;
    }

    /** The release demands exactly one pool row; any other count rolls the whole transaction back. */
    method CancelPendingPodIfNeverStarted(pod: PodId, now: J.Time) returns (outcome: Cancellation)
      modifies this
      ensures outcome == DecideCancel(old(Value()), pod)
      ensures Value() == CancelPending(old(Value()), pod, now)
    {
      if pod !in pods {
        return NoSuchPod;
      }
      if pods[pod].status == Destroyed && pods[pod].note == CancelledBeforeProvisioning {
        return AlreadyCancelled;
      }
      var create := FirstJob(jobs, CreatePod, pod);
      if create.None? || !Pristine(jobs[create.value].row) || pods[pod].status != Pending {
        return NeedsDestroy;
      }
      var competing := PodCancellationProtectedJobs(pod, create.value);
      if competing {
        return NeedsDestroy;
      }
      var worked := PodVmsShowWork(pod);
      if worked || pod in receipts || Placed(Value(), pod) {
        return NeedsDestroy;
      }
      assert NeverStarted(Value(), pod);
      var podsBefore, vmsBefore, jobsBefore, poolBefore := pods, vms, jobs, pool;
      vms := DeleteVms(vms, pod);
      pods := pods[pod := pods[pod].(status := Destroyed, note := CancelledBeforeProvisioning)];
      var row := jobs[create.value].row;
      jobs := jobs[create.value := jobs[create.value].(row := row.(status := J.Failed, completedAt := Some(now)))];
      var affected := ReleaseRows(pod);
      OneRowExactly(old(Value()), pod, affected);
      if affected != 1 {
        pods, vms, jobs, pool := podsBefore, vmsBefore, jobsBefore, poolBefore;
        return ReleaseMismatch;
      }
      return CancelledNow(create.value);
    }
  }

  lemma SingletonExactly(rows: set<Tag>)
    ensures |rows| == 1 <==> exists a :: a in rows && forall b :: b in rows ==> b == a
  {
    if |rows| == 1 {
      var a :| a in rows;
      assert |rows - {a}| == 0;
      forall b | b in rows ensures b == a {
        assert b !in rows - {a};
      }
    }
    if a :| a in rows && forall b :: b in rows ==> b == a {
      assert rows == {a};
    }
  }

  /** Counting the pod's rows finds one exactly when the pod holds one row and no other. */
  lemma OneRowExactly(t: Tables, pod: PodId, affected: nat)
    requires affected == |RowsOf(t.pool, pod)|
    ensures affected == 1 <==> HoldsOneRow(t, pod)
  {
    var mine := RowsOf(t.pool, pod);
    SingletonExactly(mine);
    if a :| a in mine && forall b :: b in mine ==> b == a {
      forall other | other in t.pool && t.pool[other].owner == Some(pod) ensures other == a {
        assert other in mine;
      }
      assert SoleRow(t, pod, a);
    }
    if HoldsOneRow(t, pod) {
      var a: Tag :| SoleRow(t, pod, a);
      assert a in mine;
    }
  }
}
