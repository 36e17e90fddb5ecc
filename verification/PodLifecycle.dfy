/**
 Runs over the pod tables: any interleaving of producers, workers, sweepers and
 crashes. Beside the tables a run keeps two notes that no transaction reads:
 which mutators the current destroy was allowed to overlap with, and which pods
 a worker was ever let into.
*/
module PodLifecycle {
  import opened Wrappers
  import J = JobRow
  import opened PodTables

  datatype World = World(t: Tables, excused: set<JobId>, started: set<PodId>)

  datatype Step =
    | DoCreateIsolated(pod: PodId, tag: Tag, vms: set<VmId>)
    | DoCreateShared(pod: PodId, tag: Tag, subnet: Subnet, vms: set<VmId>)
    | DoCreateVmJob(pod: PodId, vm: VmId, kind: Kind)
    | DoCreateVmAdd(pod: PodId, vm: VmId)
    | DoCreateDestroy(pod: PodId, req: Requirement, exclusion: Option<Exclusion>, facts: Facts)
    | OnJob(job: JobId, call: J.Call)
    | DoPrepare(pod: PodId, job: JobId, owner: J.Token)
    | DoFinalizeDestroy(pod: PodId, job: JobId, owner: J.Token)
    | DoFinalizeNeverApplied(pod: PodId)
    | DoFinalizeOrphan(pod: PodId, tag: Tag, subnet: Subnet, manualResult: bool)
    | DoCancel(pod: PodId, now: J.Time)
    | StartProvisioning(pod: PodId)
    | FinishProvisioning(pod: PodId)
    | DoBeginCleanup(pod: PodId, job: JobId, owner: J.Token, mayLeaveProvisioning: bool)
    | MarkDestroyFailed(pod: PodId, note: Note)
    | RecordVm(vm: VmId, status: J.VmStatus, traced: bool)
    | RecordPlacements(placements: set<VmId>)
    | RecordReceipt(pod: PodId, live: bool)

  ghost function NextTables(t: Tables, s: Step): Tables {
    match s
    case DoCreateIsolated(pod, tag, vms) => CreateIsolated(t, pod, tag, vms)
    case DoCreateShared(pod, stripe, subnet, vms) => CreateShared(t, pod, stripe, subnet, vms)
    case DoCreateVmJob(pod, vm, kind) => CreateVmJob(t, pod, vm, kind)
    case DoCreateVmAdd(pod, vm) => CreateVmAdd(t, pod, vm)
    case DoCreateDestroy(pod, req, e, facts) => CreateDestroy(t, pod, req, e, facts)
    case OnJob(j, c) =>
      if j < |t.jobs| then t.(jobs := t.jobs[j := t.jobs[j].(row := J.After(t.jobs[j].row, c))]) else t
    case DoPrepare(pod, job, owner) => Prepare(t, pod, job, owner)
    case DoFinalizeDestroy(pod, job, owner) => FinalizeDestroy(t, pod, job, owner)
    case DoFinalizeNeverApplied(pod) => FinalizeNeverApplied(t, pod)
    case DoFinalizeOrphan(pod, tag, subnet, manual) => FinalizeOrphan(t, pod, tag, subnet, manual)
    case DoCancel(pod, now) => CancelPending(t, pod, now)
    case StartProvisioning(pod) => Advance(t, pod, {Pending, Provisioning}, Provisioning)
    case FinishProvisioning(pod) => Advance(t, pod, {Provisioning}, Active)
    case DoBeginCleanup(pod, job, owner, may) => BeginCleanup(t, pod, job, owner, may)
    case MarkDestroyFailed(pod, note) => if pod in t.pods then SetStatus(t, pod, DestroyFailed, note) else t
    case RecordVm(vm, status, traced) =>
      if vm in t.vms then t.(vms := t.vms[vm := t.vms[vm].(status := status, traced := traced)]) else t
    case RecordPlacements(placements) => t.(placements := placements)
    case RecordReceipt(pod, live) => t.(receipts := t.receipts[pod := live])
  }

  /** A destroy starts afresh with only the named vm_destroy excused; a handover excuses the pod_create it reopens. */
  ghost function NextExcused(w: World, s: Step): set<JobId> {
    match s
    case DoCreateDestroy(pod, req, e, facts) =>
      var d := DecideDestroy(w.t, pod, req, e, facts);
      if d.Enqueued? || d.Requeued? then
        (set j | j in w.excused && j < |w.t.jobs| && w.t.jobs[j].pod != pod)
        + (if e.Some? then {e.value.job} else {})
      else w.excused
    case OnJob(j, HandOverRollback(_, _)) =>
      if j < |w.t.jobs| && w.t.jobs[j].kind == CreatePod then w.excused + {j} else w.excused
    case _ => w.excused
  }

  ghost function NextStarted(w: World, s: Step): set<PodId> {
    match s
    case StartProvisioning(pod) =>
      if pod in w.t.pods && w.t.pods[pod].status in {Pending, Provisioning} then w.started + {pod} else w.started
    case _ => w.started
  }

  ghost function Apply(w: World, s: Step): World {
    World(NextTables(w.t, s), NextExcused(w, s), NextStarted(w, s))
  }

  /** Only a worker let into the pod, or one holding later work on it, leaves evidence behind. */
  ghost predicate MayLeaveEvidence(w: World, pod: PodId) {
    pod in w.started || exists i :: 0 <= i < |w.t.jobs| && w.t.jobs[i].pod == pod && w.t.jobs[i].kind != CreatePod
  }

  /** What the callers promise; every other step is unrestricted. */
  ghost predicate Allowed(w: World, s: Step) {
    match s
    case MarkDestroyFailed(pod, _) => pod in w.t.pods && w.t.pods[pod].status in {Destroying, DestroyFailed}
    case RecordVm(vm, _, _) => vm in w.t.vms ==> MayLeaveEvidence(w, w.t.vms[vm].pod)
    case RecordPlacements(placements) =>
      forall v :: v in placements && v !in w.t.placements ==> v in w.t.vms && MayLeaveEvidence(w, w.t.vms[v].pod)
    case RecordReceipt(pod, _) => MayLeaveEvidence(w, pod)
    case _ => true
  }

  ghost function Run(w: World, steps: seq<Step>): World
    decreases |steps|
  {
    if steps == [] then w else Run(Apply(w, steps[0]), steps[1..])
  }

  ghost predicate Obeys(w: World, steps: seq<Step>)
    decreases |steps|
  {
    steps != [] ==> Allowed(w, steps[0]) && Obeys(Apply(w, steps[0]), steps[1..])
  }

  // ---------------------------------------------------------------------------
  // What every run keeps
  // ---------------------------------------------------------------------------

  /** Rows refer to rows that exist, and a VM job's pod is its VM's pod. */
  ghost predicate References(t: Tables) {
    && (forall v :: v in t.vms ==> t.vms[v].pod in t.pods)
    && (forall v :: v in t.placements ==> v in t.vms)
    && forall i :: 0 <= i < |t.jobs| ==> JobRefers(t, t.jobs[i])
  }

  ghost predicate JobRefers(t: Tables, job: PodJob) {
    && job.pod in t.pods
    && job.row.kind == RowKind(job.kind)
    && (job.vm.Some? ==> job.vm.value in t.vms && t.vms[job.vm.value].pod == job.pod)
  }

  predicate OncePerPod(kind: Kind) {
    kind == CreatePod || kind == DestroyPod
  }

  /** A pod has at most one pod_create row and one pod_destroy row, ever. */
  ghost predicate OneJobEach(t: Tables) {
    forall i, j | 0 <= i < |t.jobs| && 0 <= j < |t.jobs| ::
      OncePerPod(t.jobs[i].kind) && Is(t.jobs[j], t.jobs[i].kind, t.jobs[i].pod) ==> i == j
  }

  ghost predicate LiveDestroy(job: PodJob) {
    job.kind == DestroyPod && !Terminal(job.row.status)
  }

  ghost predicate LiveMutator(job: PodJob) {
    job.kind != DestroyPod && Working(job.row.status)
  }

  /** Beside a nonterminal destroy the only working mutators of the pod are the excused ones. */
  ghost predicate Exclusive(w: World) {
    forall d, m | 0 <= d < |w.t.jobs| && 0 <= m < |w.t.jobs| && w.t.jobs[m].pod == w.t.jobs[d].pod ::
      LiveDestroy(w.t.jobs[d]) && LiveMutator(w.t.jobs[m]) ==> m in w.excused
  }

  ghost predicate HoldsVlan(pod: Pod) {
    pod.mode == Isolated && pod.status != Destroyed
  }

  /** Live isolated pods and allocated pool rows match one to one, outside the shared stripes. */
  ghost predicate Paired(t: Tables) {
    && (forall p :: p in t.pods && HoldsVlan(t.pods[p]) ==> OwnsExactVlan(t, p, t.pods[p].vlan, t.pods[p].subnet))
    && forall tag :: tag in t.pool && t.pool[tag].owner.Some? ==> RowMatches(t, tag)
  }

  ghost predicate RowMatches(t: Tables, tag: Tag)
    requires tag in t.pool && t.pool[tag].owner.Some?
  {
    var p := t.pool[tag].owner.value;
    p in t.pods && HoldsVlan(t.pods[p]) && t.pods[p].vlan == tag && !(FIRST_STRIPE <= tag <= LAST_STRIPE)
  }

  ghost predicate StartedLeftPending(w: World) {
    forall p :: p in w.started ==> p in w.t.pods && w.t.pods[p].status != Pending
  }

  ghost predicate Inv(w: World) {
    References(w.t) && OneJobEach(w.t) && Exclusive(w) && Paired(w.t) && StartedLeftPending(w)
  }

  /** No call on a job row revives it, except the handover, and that only for a pod_create. */
  lemma RowNeverRevives(row: J.Job, c: J.Call)
    ensures J.After(row, c).kind == row.kind
    ensures Working(J.After(row, c).status) ==> Working(row.status) || (c.HandOverRollback? && row.kind == J.PodCreate)
    ensures !Terminal(J.After(row, c).status) ==> !Terminal(row.status) || (c.HandOverRollback? && row.kind == J.PodCreate)
  {
  }

  ghost predicate Activates(t: Tables, s: Step, i: JobId) {
    s.DoCreateDestroy? && DecideDestroy(t, s.pod, s.req, s.exclusion, s.facts) == Requeued(i)
  }

  ghost predicate Reopens(s: Step, i: JobId) {
    s.OnJob? && s.job == i && s.call.HandOverRollback?
  }

  // ---------------------------------------------------------------------------
  // What any step leaves as it was
  // ---------------------------------------------------------------------------

  /** A pod stays with its network, and never becomes pending. */
  ghost predicate PodMoves(a: Pod, b: Pod) {
    b.mode == a.mode && b.vlan == a.vlan && b.subnet == a.subnet && (b.status == a.status || b.status != Pending)
  }

  /** A pool row keeps its identity; it changes hands only to nobody or to a pod that is new. */
  ghost predicate SlotMoves(t: Tables, a: Slot, b: Slot) {
    && b.subnet == a.subnet && b.scope == a.scope
    && (b.owner == a.owner || b.owner.None? || b.owner.value !in t.pods)
  }

  ghost predicate SameJob(a: PodJob, b: PodJob) {
    a.kind == b.kind && a.pod == b.pod && a.vm == b.vm && a.row.kind == b.row.kind
  }

  ghost predicate PodsMove(t: Tables, next: Tables) {
    forall p :: p in t.pods ==> p in next.pods && PodMoves(t.pods[p], next.pods[p])
  }

  ghost predicate PoolMoves(t: Tables, next: Tables) {
    next.pool.Keys == t.pool.Keys && forall tag :: tag in t.pool ==> SlotMoves(t, t.pool[tag], next.pool[tag])
  }

  /** VMs stay with their pods; a new VM belongs to a pod that exists. */
  ghost predicate VmsMove(t: Tables, next: Tables) {
    && (forall v :: v in t.vms ==> v in next.vms && next.vms[v].pod == t.vms[v].pod)
    && (forall v :: v in next.vms && v !in t.vms ==> next.vms[v].pod in next.pods)
  }

  /** The earlier jobs keep their identity, and at most one is added. */
  ghost predicate JobsExtend(t: Tables, next: Tables) {
    && |t.jobs| <= |next.jobs| <= |t.jobs| + 1
    && forall i :: 0 <= i < |t.jobs| ==> SameJob(t.jobs[i], next.jobs[i])
  }

  ghost predicate Moves(t: Tables, next: Tables) {
    PodsMove(t, next) && PoolMoves(t, next) && VmsMove(t, next) && JobsExtend(t, next)
  }

  lemma CreationMoves(t: Tables, pod: PodId, row: Pod, vms: set<VmId>)
    requires pod !in t.pods && vms !! t.vms.Keys
    ensures Moves(t, WithPod(t, pod, row, vms))
  {
  }

  lemma CheckoutMoves(t: Tables, pod: PodId, tag: Tag, vms: set<VmId>)
    ensures Moves(t, CreateIsolated(t, pod, tag, vms))
  {
    if pod !in t.pods && Free(t, tag) && vms !! t.vms.Keys {
      var mid := WithPod(t, pod, Pod(Pending, Isolated, tag, t.pool[tag].subnet, Plain), vms);
      CreationMoves(t, pod, Pod(Pending, Isolated, tag, t.pool[tag].subnet, Plain), vms);
      assert CreateIsolated(t, pod, tag, vms) == mid.(pool := t.pool[tag := t.pool[tag].(owner := Some(pod))]);
    } else {
      Unmoved(t);
    }
  }

  lemma SharedMoves(t: Tables, pod: PodId, stripe: Tag, subnet: Subnet, vms: set<VmId>)
    ensures Moves(t, CreateShared(t, pod, stripe, subnet, vms))
  {
    if pod !in t.pods && vms !! t.vms.Keys {
      CreationMoves(t, pod, Pod(Pending, Shared, stripe, subnet, Plain), vms);
    } else {
      Unmoved(t);
    }
  }

  lemma VmJobMoves(t: Tables, pod: PodId, vm: VmId, kind: Kind)
    ensures Moves(t, CreateVmJob(t, pod, vm, kind)) && Moves(t, CreateVmAdd(t, pod, vm))
  {
  }

  lemma DestroyRequestMoves(t: Tables, pod: PodId, req: Requirement, e: Option<Exclusion>, facts: Facts)
    ensures Moves(t, CreateDestroy(t, pod, req, e, facts))
  {
  }

  lemma StatusMoves(t: Tables, pod: PodId, status: PodStatus, note: Note)
    requires pod in t.pods && status != Pending
    ensures Moves(t, SetStatus(t, pod, status, note)) && Moves(t, Retire(t, pod, note))
  {
  }

  /** Replacing job rows under the same identities moves nothing else. */
  lemma RowMoves(t: Tables, mid: Tables, next: Tables)
    requires Moves(t, mid) && |mid.jobs| == |t.jobs| && JobsExtend(t, next) && |next.jobs| == |t.jobs|
    requires next.pods == mid.pods && next.pool == mid.pool && next.vms == mid.vms
    ensures Moves(t, next)
  {
  }

  lemma OrphanMoves(t: Tables, pod: PodId, tag: Tag, subnet: Subnet, manualResult: bool)
    ensures Moves(t, FinalizeOrphan(t, pod, tag, subnet, manualResult))
  {
    if MayFinalizeOrphan(t, pod, tag, subnet, manualResult) {
      StatusMoves(t, pod, Destroyed, Plain);
      RowMoves(t, Retire(t, pod, Plain), FinalizeOrphan(t, pod, tag, subnet, manualResult));
    }
  }

  lemma CancelMoves(t: Tables, pod: PodId, now: J.Time)
    ensures Moves(t, CancelPending(t, pod, now))
  {
    if DecideCancel(t, pod).CancelledNow? {
      StatusMoves(t, pod, Destroyed, CancelledBeforeProvisioning);
    }
  }

  lemma CallMoves(t: Tables, j: JobId, c: J.Call)
    requires j < |t.jobs|
    ensures Moves(t, t.(jobs := t.jobs[j := t.jobs[j].(row := J.After(t.jobs[j].row, c))]))
  {
    RowNeverRevives(t.jobs[j].row, c);
  }

  lemma BeginCleanupMoves(t: Tables, pod: PodId, job: JobId, owner: J.Token, mayLeaveProvisioning: bool)
    ensures Moves(t, BeginCleanup(t, pod, job, owner, mayLeaveProvisioning))
  {
    var next := BeginCleanup(t, pod, job, owner, mayLeaveProvisioning);
    if next == t {
      Unmoved(t);
    } else {
      CallMoves(t, job, J.MarkCleanupOnly(owner));
      if next.pods != t.pods {
        StatusMoves(t, pod, Error, Plain);
        RowMoves(t, SetStatus(t, pod, Error, Plain), next);
      }
    }
  }

  lemma Unmoved(t: Tables)
    ensures Moves(t, t)
  {
  }

  predicate IsProducer(s: Step) {
    s.DoCreateIsolated? || s.DoCreateShared? || s.DoCreateVmJob? || s.DoCreateVmAdd? || s.DoCreateDestroy?
  }

  predicate IsFinalizer(s: Step) {
    s.DoFinalizeDestroy? || s.DoFinalizeNeverApplied? || s.DoFinalizeOrphan? || s.DoCancel?
  }

  predicate IsStatusWrite(s: Step) {
    s.DoPrepare? || s.StartProvisioning? || s.FinishProvisioning? || s.MarkDestroyFailed?
  }

  lemma ProducerMoves(t: Tables, s: Step)
    requires IsProducer(s)
    ensures Moves(t, NextTables(t, s))
  {
    match s
    case DoCreateIsolated(pod, tag, vms) => CheckoutMoves(t, pod, tag, vms);
    case DoCreateShared(pod, tag, subnet, vms) => SharedMoves(t, pod, tag, subnet, vms);
    case DoCreateVmJob(pod, vm, kind) => VmJobMoves(t, pod, vm, kind);
    case DoCreateVmAdd(pod, vm) => VmJobMoves(t, pod, vm, AddVm);
    case DoCreateDestroy(pod, req, e, facts) => DestroyRequestMoves(t, pod, req, e, facts);
  }

  lemma FinalizerMoves(t: Tables, s: Step)
    requires IsFinalizer(s)
    ensures Moves(t, NextTables(t, s))
  {
    Unmoved(t);
    match s
    case DoFinalizeDestroy(pod, _, _) => if pod in t.pods { StatusMoves(t, pod, Destroyed, Plain); }
    case DoFinalizeNeverApplied(pod) => if pod in t.pods { StatusMoves(t, pod, Destroyed, Plain); }
    case DoFinalizeOrphan(pod, tag, subnet, manual) => OrphanMoves(t, pod, tag, subnet, manual);
    case DoCancel(pod, now) => CancelMoves(t, pod, now);
  }

  lemma StatusWriteMoves(t: Tables, s: Step)
    requires IsStatusWrite(s)
    ensures Moves(t, NextTables(t, s))
  {
    Unmoved(t);
    if s.pod in t.pods {
      match s
      case DoPrepare(pod, _, _) => StatusMoves(t, pod, Destroying, Plain);
      case StartProvisioning(pod) => StatusMoves(t, pod, Provisioning, Plain);
      case FinishProvisioning(pod) => StatusMoves(t, pod, Active, Plain);
      case MarkDestroyFailed(pod, note) => StatusMoves(t, pod, DestroyFailed, note);
    }
  }

  lemma EvidenceMoves(t: Tables, s: Step)
    requires s.RecordVm? || s.RecordPlacements? || s.RecordReceipt?
    ensures Moves(t, NextTables(t, s))
  {
  }

  /** No step removes a pod, a VM, a pool row or a job, or changes what they are. */
  lemma StepMoves(t: Tables, s: Step)
    ensures Moves(t, NextTables(t, s))
  {
    if IsProducer(s) {
      ProducerMoves(t, s);
    } else if IsFinalizer(s) {
      FinalizerMoves(t, s);
    } else if IsStatusWrite(s) {
      StatusWriteMoves(t, s);
    } else if s.DoBeginCleanup? {
      BeginCleanupMoves(t, s.pod, s.job, s.owner, s.mayLeaveProvisioning);
    } else if s.OnJob? {
      Unmoved(t);
      if s.job < |t.jobs| { CallMoves(t, s.job, s.call); }
    } else {
      EvidenceMoves(t, s);
    }
  }

  // ---------------------------------------------------------------------------
  // Jobs
  // ---------------------------------------------------------------------------

  /** Whatever becomes of the job, it is not brought back to life unless the step activates or reopens it. */
  ghost predicate NotRevived(t: Tables, s: Step, i: JobId, after: PodJob)
    requires i < |t.jobs|
  {
    && (LiveMutator(after) ==> LiveMutator(t.jobs[i]) || (Reopens(s, i) && t.jobs[i].kind == CreatePod))
    && (LiveDestroy(after) ==> LiveDestroy(t.jobs[i]) || Activates(t, s, i))
  }

  lemma ProducerRevives(t: Tables, s: Step, i: JobId)
    requires IsProducer(s) && i < |t.jobs|
    ensures i < |NextTables(t, s).jobs| && NotRevived(t, s, i, NextTables(t, s).jobs[i])
  {
  }

  lemma FinalizerRevives(t: Tables, s: Step, i: JobId)
    requires IsFinalizer(s) && i < |t.jobs|
    ensures i < |NextTables(t, s).jobs| && NotRevived(t, s, i, NextTables(t, s).jobs[i])
  {
  }

  lemma RowStepRevives(t: Tables, s: Step, i: JobId)
    requires (s.OnJob? || s.DoBeginCleanup?) && i < |t.jobs| && t.jobs[i].row.kind == RowKind(t.jobs[i].kind)
    ensures i < |NextTables(t, s).jobs| && NotRevived(t, s, i, NextTables(t, s).jobs[i])
  {
    if s.OnJob? { RowNeverRevives(t.jobs[i].row, s.call); }
    if s.DoBeginCleanup? { RowNeverRevives(t.jobs[i].row, J.MarkCleanupOnly(s.owner)); }
  }

  /** An existing job keeps its identity; only a requeue or a handover brings it back to life. */
  lemma OldJobs(t: Tables, s: Step, i: JobId)
    requires i < |t.jobs| && t.jobs[i].row.kind == RowKind(t.jobs[i].kind)
    ensures i < |NextTables(t, s).jobs| && SameJob(t.jobs[i], NextTables(t, s).jobs[i])
    ensures NotRevived(t, s, i, NextTables(t, s).jobs[i])
  {
    StepMoves(t, s);
    if IsProducer(s) {
      ProducerRevives(t, s, i);
    } else if IsFinalizer(s) {
      FinalizerRevives(t, s, i);
    } else if s.OnJob? || s.DoBeginCleanup? {
      RowStepRevives(t, s, i);
    }
  }

  /** What an added job is: a mutator only for a pod without destroy intent, a create only for a new pod. */
  ghost predicate AddedOk(t: Tables, s: Step, next: Tables, job: PodJob) {
    && JobRefers(next, job)
    && (job.kind != DestroyPod ==> !DestroyIntent(t, job.pod) && !s.DoCreateDestroy?)
    && (job.kind == CreatePod ==> job.pod !in t.pods)
    && (job.kind == DestroyPod ==>
          && s.DoCreateDestroy? && s.pod == job.pod
          && DecideDestroy(t, s.pod, s.req, s.exclusion, s.facts) == Enqueued)
  }

  lemma CreationAdds(t: Tables, s: Step)
    requires References(t) && (s.DoCreateIsolated? || s.DoCreateShared?)
    ensures var next := NextTables(t, s);
            |next.jobs| != |t.jobs| ==> |next.jobs| == |t.jobs| + 1 && AddedOk(t, s, next, next.jobs[|t.jobs|])
  {
  }

  lemma RequestAdds(t: Tables, s: Step)
    requires References(t) && (s.DoCreateVmJob? || s.DoCreateVmAdd? || s.DoCreateDestroy?)
    ensures var next := NextTables(t, s);
            |next.jobs| != |t.jobs| ==> |next.jobs| == |t.jobs| + 1 && AddedOk(t, s, next, next.jobs[|t.jobs|])
  {
  }

  lemma OthersAddNothing(t: Tables, s: Step)
    requires !IsProducer(s)
    ensures |NextTables(t, s).jobs| == |t.jobs|
  {
  }

  /** A step adds at most one job, and a mutator only to a pod without destroy intent. */
  lemma NewJobs(w: World, s: Step)
    requires References(w.t)
    ensures var t, next := w.t, NextTables(w.t, s);
            |next.jobs| != |t.jobs| ==> |next.jobs| == |t.jobs| + 1 && AddedOk(t, s, next, next.jobs[|t.jobs|])
  {
    if s.DoCreateIsolated? || s.DoCreateShared? {
      CreationAdds(w.t, s);
    } else if IsProducer(s) {
      RequestAdds(w.t, s);
    } else {
      OthersAddNothing(w.t, s);
    }
  }

  lemma ReferencesExtend(t: Tables, next: Tables)
    requires References(t) && Moves(t, next)
    requires forall v :: v in next.placements ==> v in next.vms
    requires |next.jobs| == |t.jobs| + 1 ==> JobRefers(next, next.jobs[|t.jobs|])
    ensures References(next)
  {
    forall i | 0 <= i < |next.jobs| ensures JobRefers(next, next.jobs[i]) {
      if i < |t.jobs| {
        assert JobRefers(t, t.jobs[i]) && SameJob(t.jobs[i], next.jobs[i]);
      }
    }
  }

  lemma StepKeepsReferences(w: World, s: Step)
    requires Inv(w) && Allowed(w, s)
    ensures References(Apply(w, s).t)
  {
    StepMoves(w.t, s);
    NewJobs(w, s);
    PlacementsStay(w, s);
    ReferencesExtend(w.t, NextTables(w.t, s));
  }

  lemma PlacementsStay(w: World, s: Step)
    requires References(w.t) && Allowed(w, s)
    ensures forall v :: v in NextTables(w.t, s).placements ==> v in NextTables(w.t, s).vms
  {
    StepMoves(w.t, s);
  }

  /** A second pod_create or pod_destroy row for a pod is never added. */
  lemma NewJobIsFirst(w: World, s: Step, i: JobId)
    requires References(w.t) && i < |w.t.jobs| && |NextTables(w.t, s).jobs| == |w.t.jobs| + 1
    requires OncePerPod(NextTables(w.t, s).jobs[|w.t.jobs|].kind)
    ensures !Is(w.t.jobs[i], NextTables(w.t, s).jobs[|w.t.jobs|].kind, NextTables(w.t, s).jobs[|w.t.jobs|].pod)
  {
    NewJobs(w, s);
    var t, added := w.t, NextTables(w.t, s).jobs[|w.t.jobs|];
    assert JobRefers(t, t.jobs[i]);
    if added.kind == DestroyPod {
      assert FirstJob(t.jobs, DestroyPod, s.pod).None?;
    }
  }

  lemma OneJobEachExtends(t: Tables, next: Tables)
    requires OneJobEach(t) && JobsExtend(t, next)
    requires |next.jobs| == |t.jobs| + 1 && OncePerPod(next.jobs[|t.jobs|].kind) ==>
               forall i :: 0 <= i < |t.jobs| ==> !Is(t.jobs[i], next.jobs[|t.jobs|].kind, next.jobs[|t.jobs|].pod)
    ensures OneJobEach(next)
  {
    forall i, j | 0 <= i < |next.jobs| && 0 <= j < |next.jobs| && OncePerPod(next.jobs[i].kind)
                  && Is(next.jobs[j], next.jobs[i].kind, next.jobs[i].pod)
      ensures i == j
    {
      if i < |t.jobs| { assert SameJob(t.jobs[i], next.jobs[i]); }
      if j < |t.jobs| { assert SameJob(t.jobs[j], next.jobs[j]); }
    }
  }

  lemma StepKeepsOneJobEach(w: World, s: Step)
    requires Inv(w) && Allowed(w, s)
    ensures OneJobEach(Apply(w, s).t)
  {
    var t, next := w.t, NextTables(w.t, s);
    StepMoves(t, s);
    if |next.jobs| != |t.jobs| && OncePerPod(next.jobs[|t.jobs|].kind) {
      forall i | 0 <= i < |t.jobs| ensures !Is(t.jobs[i], next.jobs[|t.jobs|].kind, next.jobs[|t.jobs|].pod) {
        NewJobIsFirst(w, s, i);
      }
    }
    OneJobEachExtends(t, next);
  }

  /** An activated destroy has found no working mutator of the pod except the one it excuses. */
  lemma ActivationIsClear(w: World, pod: PodId, req: Requirement, e: Option<Exclusion>, facts: Facts, m: JobId)
    requires m < |w.t.jobs| && LiveMutator(w.t.jobs[m]) && w.t.jobs[m].pod == pod
    requires DecideDestroy(w.t, pod, req, e, facts).Enqueued? || DecideDestroy(w.t, pod, req, e, facts).Requeued?
    ensures e.Some? && m == e.value.job
  {
    assert !Blocks(w.t, m, pod, Excluded(e));
  }

  ghost predicate ActivatesFor(t: Tables, s: Step, pod: PodId) {
    && s.DoCreateDestroy? && s.pod == pod
    && var d := DecideDestroy(t, s.pod, s.req, s.exclusion, s.facts); d.Enqueued? || d.Requeued?
  }

  lemma ActivationExcuses(w: World, s: Step, m: JobId)
    requires m < |w.t.jobs| && LiveMutator(w.t.jobs[m]) && ActivatesFor(w.t, s, w.t.jobs[m].pod)
    ensures m in NextExcused(w, s)
  {
    ActivationIsClear(w, s.pod, s.req, s.exclusion, s.facts, m);
  }

  lemma ExcusedStays(w: World, s: Step, m: JobId)
    requires m in w.excused && m < |w.t.jobs| && !ActivatesFor(w.t, s, w.t.jobs[m].pod)
    ensures m in NextExcused(w, s)
  {
  }

  /** A destroy that is live after the step was live before it, unless the step activates it. */
  lemma LiveBefore(w: World, s: Step, d: JobId)
    requires References(w.t) && d < |NextTables(w.t, s).jobs| && LiveDestroy(NextTables(w.t, s).jobs[d])
    ensures var pod := NextTables(w.t, s).jobs[d].pod;
            ActivatesFor(w.t, s, pod) || (d < |w.t.jobs| && LiveDestroy(w.t.jobs[d]) && w.t.jobs[d].pod == pod)
  {
    NewJobs(w, s);
    if d < |w.t.jobs| {
      assert JobRefers(w.t, w.t.jobs[d]);
      OldJobs(w.t, s, d);
      if Activates(w.t, s, d) {
        assert Is(w.t.jobs[d], DestroyPod, s.pod);
      }
    }
  }

  /** A mutator that works after the step worked before it, was reopened, or belongs to a pod without destroy intent. */
  lemma WorkingBefore(w: World, s: Step, m: JobId)
    requires References(w.t) && m < |NextTables(w.t, s).jobs| && LiveMutator(NextTables(w.t, s).jobs[m])
    ensures var pod := NextTables(w.t, s).jobs[m].pod;
            || (m < |w.t.jobs| && LiveMutator(w.t.jobs[m]) && w.t.jobs[m].pod == pod)
            || (m < |w.t.jobs| && Reopens(s, m) && w.t.jobs[m].kind == CreatePod)
            || (!DestroyIntent(w.t, pod) && !s.DoCreateDestroy?)
  {
    NewJobs(w, s);
    if m < |w.t.jobs| {
      assert JobRefers(w.t, w.t.jobs[m]);
      OldJobs(w.t, s, m);
    }
  }

  /** One overlap after a step: both jobs were live before, or the step excuses the mutator. */
  lemma OverlapIsExcused(w: World, s: Step, d: JobId, m: JobId)
    requires Inv(w)
    requires d < |NextTables(w.t, s).jobs| && m < |NextTables(w.t, s).jobs|
    requires var next := NextTables(w.t, s);
             next.jobs[m].pod == next.jobs[d].pod && LiveDestroy(next.jobs[d]) && LiveMutator(next.jobs[m])
    ensures m in NextExcused(w, s)
  {
    LiveBefore(w, s, d);
    WorkingBefore(w, s, m);
    if m < |w.t.jobs| && LiveMutator(w.t.jobs[m]) {
      if ActivatesFor(w.t, s, w.t.jobs[m].pod) {
        ActivationExcuses(w, s, m);
      } else {
        ExcusedStays(w, s, m);
      }
    }
  }

  lemma StepKeepsExclusive(w: World, s: Step)
    requires Inv(w) && Allowed(w, s)
    ensures Exclusive(Apply(w, s))
  {
    var next := NextTables(w.t, s);
    forall d, m | 0 <= d < |next.jobs| && 0 <= m < |next.jobs| && next.jobs[m].pod == next.jobs[d].pod
                  && LiveDestroy(next.jobs[d]) && LiveMutator(next.jobs[m])
      ensures m in NextExcused(w, s)
    {
      OverlapIsExcused(w, s, d, m);
    }
  }

  lemma PairedFrame(t: Tables, u: Tables)
    requires Paired(t) && u.pods == t.pods && u.pool == t.pool
    ensures Paired(u)
  {
    forall tag | tag in u.pool && u.pool[tag].owner.Some? ensures RowMatches(u, tag) { assert RowMatches(t, tag); }
  }

  /** A status change that does not cross the line to destroyed keeps the match. */
  lemma StatusKeepsPaired(t: Tables, pod: PodId, status: PodStatus, note: Note)
    requires Paired(t) && pod in t.pods && (t.pods[pod].status == Destroyed <==> status == Destroyed)
    ensures Paired(SetStatus(t, pod, status, note))
  {
    var u := SetStatus(t, pod, status, note);
    forall tag | tag in u.pool && u.pool[tag].owner.Some? ensures RowMatches(u, tag) { assert RowMatches(t, tag); }
    forall p | p in u.pods && HoldsVlan(u.pods[p]) ensures OwnsExactVlan(u, p, u.pods[p].vlan, u.pods[p].subnet) {
      assert OwnsExactVlan(t, p, t.pods[p].vlan, t.pods[p].subnet);
    }
  }

  /** Retiring a pod gives its row back and touches no other pair. */
  lemma RetireKeepsPaired(t: Tables, pod: PodId, note: Note)
    requires Paired(t) && pod in t.pods
    ensures Paired(Retire(t, pod, note))
  {
    var u := Retire(t, pod, note);
    forall tag | tag in u.pool && u.pool[tag].owner.Some? ensures RowMatches(u, tag) { assert RowMatches(t, tag); }
    forall p | p in u.pods && HoldsVlan(u.pods[p]) ensures OwnsExactVlan(u, p, u.pods[p].vlan, u.pods[p].subnet) {
      assert OwnsExactVlan(t, p, t.pods[p].vlan, t.pods[p].subnet);
    }
  }

  lemma CreateKeepsPaired(t: Tables, pod: PodId, tag: Tag, subnet: Subnet, vms: set<VmId>)
    requires Paired(t)
    ensures Paired(CreateIsolated(t, pod, tag, vms))
    ensures Paired(CreateShared(t, pod, tag, subnet, vms))
  {
    assert forall other :: other in t.pool && t.pool[other].owner.Some? ==> RowMatches(t, other);
  }

  lemma ProducerKeepsPaired(t: Tables, s: Step)
    requires Paired(t) && IsProducer(s)
    ensures Paired(NextTables(t, s))
  {
    match s
    case DoCreateIsolated(pod, tag, vms) => CreateKeepsPaired(t, pod, tag, 0, vms);
    case DoCreateShared(pod, tag, subnet, vms) => CreateKeepsPaired(t, pod, tag, subnet, vms);
    case _ => PairedFrame(t, NextTables(t, s));
  }

  lemma FinalizerKeepsPaired(t: Tables, s: Step)
    requires Paired(t) && IsFinalizer(s)
    ensures Paired(NextTables(t, s))
  {
    var next := NextTables(t, s);
    if next != t {
      var note := if s.DoCancel? then CancelledBeforeProvisioning else Plain;
      RetireKeepsPaired(t, s.pod, note);
      PairedFrame(Retire(t, s.pod, note), next);
    }
  }

  lemma StatusWriteKeepsPaired(w: World, s: Step)
    requires Paired(w.t) && IsStatusWrite(s) && Allowed(w, s)
    ensures Paired(NextTables(w.t, s))
  {
    var t := w.t;
    if NextTables(t, s) != t {
      match s
      case DoPrepare(pod, _, _) => StatusKeepsPaired(t, pod, Destroying, Plain);
      case StartProvisioning(pod) => StatusKeepsPaired(t, pod, Provisioning, Plain);
      case FinishProvisioning(pod) => StatusKeepsPaired(t, pod, Active, Plain);
      case MarkDestroyFailed(pod, note) => StatusKeepsPaired(t, pod, DestroyFailed, note);
    }
  }

  lemma BeginCleanupKeepsPaired(t: Tables, s: Step)
    requires Paired(t) && s.DoBeginCleanup?
    ensures Paired(NextTables(t, s))
  {
    var next := NextTables(t, s);
    if next.pods != t.pods {
      StatusKeepsPaired(t, s.pod, Error, Plain);
      PairedFrame(SetStatus(t, s.pod, Error, Plain), next);
    } else {
      PairedFrame(t, next);
    }
  }

  lemma StepKeepsPaired(w: World, s: Step)
    requires Inv(w) && Allowed(w, s)
    ensures Paired(Apply(w, s).t)
  {
    if IsProducer(s) {
      ProducerKeepsPaired(w.t, s);
    } else if IsFinalizer(s) {
      FinalizerKeepsPaired(w.t, s);
    } else if IsStatusWrite(s) {
      StatusWriteKeepsPaired(w, s);
    } else if s.DoBeginCleanup? {
      BeginCleanupKeepsPaired(w.t, s);
    } else {
      PairedFrame(w.t, NextTables(w.t, s));
    }
  }

  lemma StepKeepsStarted(w: World, s: Step)
    requires StartedLeftPending(w) && Allowed(w, s)
    ensures StartedLeftPending(Apply(w, s))
  {
    StepMoves(w.t, s);
    forall p | p in NextStarted(w, s) ensures p in NextTables(w.t, s).pods && NextTables(w.t, s).pods[p].status != Pending {
      if p in w.started {
        assert PodMoves(w.t.pods[p], NextTables(w.t, s).pods[p]);
      }
    }
  }
}
