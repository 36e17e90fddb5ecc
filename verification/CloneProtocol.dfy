/**
 The clone protocol as a state machine: workers with crashable local state, the
 job rows they share, and vCenter, which makes and destroys clones on its own
 schedule. The main result is that no submitted clone is ever forgotten.
*/
module CloneProtocol {
  import opened Wrappers
  import opened JobPayload
  import opened JobRow

  type JobId = nat

  /** What vCenter did with one submitted clone task. */
  datatype Outcome = InFlight | Made(moref: Ref) | Gone(moref: Ref) | NoResource

  /** The job and VM an operation identity was minted for. */
  datatype Issue = Issue(job: JobId, podVmId: Ref)

  /** A worker that has armed an operation and has done nothing else since. */
  datatype ArmedFor = ArmedFor(job: JobId, op: Ref)

  datatype World = World(
    jobs: map<JobId, Job>,
    vms: map<Ref, VmRow>,
    issued: map<Ref, Issue>,
    clones: map<Ref, Outcome>,
    armed: map<Token, ArmedFor>,
    used: set<Token>)

  datatype Step =
    | OnJob(job: JobId, call: Call)
    | Enqueue(job: JobId, kind: JobType)
    | Submit(token: Token, op: Ref)
    | Materialise(op: Ref, moref: Ref)
    | TaskFails(op: Ref)
    | DestroyClone(op: Ref)
    | ClearReference(podVmId: Ref, moref: Ref)
    | Crash(token: Token)

  predicate Live(o: Outcome) {
    o.InFlight? || o.Made?
  }

  function MorefOf(o: Outcome): Option<Ref> {
    match o
    case Made(m) => Some(m)
    case Gone(m) => Some(m)
    case _ => None
  }

  predicate SameVm(a: Outcome, b: Outcome) {
    MorefOf(a).Some? && MorefOf(a) == MorefOf(b)
  }

  /** The adopted VM row carries this reference. */
  predicate RowNames(w: World, podVmId: Ref, moref: Ref) {
    podVmId in w.vms && w.vms[podVmId].vcenterVmId == Some(moref)
  }

  /** vCenter still holds this exact VM, cloned by job `j` for this pod VM. */
  ghost predicate ExistsFor(w: World, j: JobId, podVmId: Ref, moref: Ref) {
    exists op :: op in w.clones && op in w.issued && w.issued[op] == Issue(j, podVmId) && w.clones[op] == Made(moref)
  }

  ghost predicate Exists(w: World, podVmId: Ref, moref: Ref) {
    exists j :: ExistsFor(w, j, podVmId, moref)
  }

  const NoWork := Fields(None, None, None, false, false, None)

  function NewJob(kind: JobType): Job {
    Job(kind, Pending, None, None, None, None, None, 0, NoWork, [])
  }

  function IssuedAfter(w: World, j: JobId, before: Job, after: Job): map<Ref, Issue> {
    if after.payload.operation.Some? && after.payload.operation != before.payload.operation
       && after.payload.operation.value.id !in w.issued
    then w.issued[after.payload.operation.value.id := Issue(j, after.payload.operation.value.scope.podVmId)]
    else w.issued
  }

  /** A worker submits right after arming or not at all; only the heartbeat runs beside it. */
  function ArmedAfter(w: World, j: JobId, c: Call, changed: bool): map<Token, ArmedFor> {
    if c.ArmOperation? && changed then w.armed[c.token := ArmedFor(j, c.op)]
    else if Actor(c).Some? && !c.Renew? then w.armed - {Actor(c).value}
    else w.armed
  }

  function Apply(w: World, s: Step): World {
    match s
    case OnJob(j, c) =>
      if j !in w.jobs then w else
        var before := w.jobs[j];
        var after := After(before, c);
        w.(jobs := w.jobs[j := after],
           vms := map v | v in w.vms :: VmAfter(before, w.vms[v], v, c),
           issued := IssuedAfter(w, j, before, after),
           armed := ArmedAfter(w, j, c, after != before),
           used := if c.Claim? then w.used + {c.token} else w.used)
    case Enqueue(j, kind) => w.(jobs := w.jobs[j := NewJob(kind)])
    case Submit(token, op) => w.(clones := w.clones[op := InFlight], armed := w.armed - {token})
    case Materialise(op, moref) => w.(clones := w.clones[op := Made(moref)])
    case TaskFails(op) => w.(clones := w.clones[op := NoResource])
    case DestroyClone(op) =>
      if op in w.clones && w.clones[op].Made? then w.(clones := w.clones[op := Gone(w.clones[op].moref)]) else w
    case ClearReference(podVmId, moref) =>
      if RowNames(w, podVmId, moref) then w.(vms := w.vms[podVmId := w.vms[podVmId].(vcenterVmId := None)]) else w
    case Crash(token) => w.(armed := w.armed - {token})
  }

  // ---------------------------------------------------------------------------
  // What callers must respect
  // ---------------------------------------------------------------------------

  /** The clone of `op` is named without its stored operation: by its VM row or by one of these targets. */
  ghost predicate NamedBy(w: World, op: Ref, ts: seq<Target>)
    requires op in w.clones && op in w.issued
  {
    && w.clones[op].Made?
    && (RowNames(w, w.issued[op].podVmId, w.clones[op].moref)
        || exists t :: t in ts && Names(t, w.issued[op].podVmId, w.clones[op].moref))
  }

  /** The job's stored operation may go when `ts` are the targets that stay. */
  ghost predicate OperationMayGo(w: World, j: JobId, ts: seq<Target>)
    requires j in w.jobs
  {
    var f := w.jobs[j].payload;
    f.operation.Some? && f.operation.value.id in w.clones && Live(w.clones[f.operation.value.id]) ==>
      f.operation.value.id in w.issued && NamedBy(w, f.operation.value.id, ts)
  }

  /** The primary target may go when `ts` are the targets that stay. */
  ghost predicate PrimaryMayGo(w: World, j: JobId, ts: seq<Target>, operationStays: bool)
    requires j in w.jobs
  {
    var f := w.jobs[j].payload;
    f.target.Some? ==>
      forall op :: op in w.clones && op in w.issued && w.issued[op] == Issue(j, f.target.value.podVmId)
                   && w.clones[op] == Made(f.target.value.vcenterVmId)
                   ==> NamedBy(w, op, ts) || (operationStays && HasOperation(f, op))
  }

  predicate Overwrites(c: Call) {
    c.StageClone? || (c.RetryJob? && c.cleanupOnly && c.cleanupTarget.Some?)
  }

  predicate DropsOperation(c: Call) {
    c.AbandonOperation? || c.CloseOperation? || c.FinishStandalone? || c.DisarmClone?
  }

  /** The targets that stay when such a call takes effect. */
  function Leaves(f: Fields, c: Call): seq<Target> {
    match c
    case StageClone(_, t) => [t] + List(f.handoffs)
    case RetryJob(_, _, cleanupOnly, t) => if cleanupOnly && t.Some? then [t.value] + List(f.handoffs) else Outstanding(f)
    case FinishStandalone(_, _, _) => List(f.handoffs)
    case DisarmClone(_, _, _) => List(f.handoffs)
    case _ => Outstanding(f)
  }

  /** What the call drops, the operation or the primary target, is not the last name of a live clone. */
  ghost predicate MayDrop(w: World, j: JobId, c: Call)
    requires j in w.jobs
  {
    var ts := Leaves(w.jobs[j].payload, c);
    && (Overwrites(c) ==> PrimaryMayGo(w, j, ts, true))
    && (DropsOperation(c) ==> OperationMayGo(w, j, ts))
    && (c.FinishStandalone? || c.DisarmClone? ==> PrimaryMayGo(w, j, ts, false))
  }

  /** Recording this cleanup deletes the stored operation as well: it is for the same VM, and the record is new. */
  predicate TakesAlong(f: Fields, podVmId: Ref, moref: Ref) {
    && f.operation.Some? && f.operation.value.scope.podVmId == podVmId
    && FindTarget(f, podVmId, moref).Ok? && FindTarget(f, podVmId, moref).value.Staged?
    && RecordDestroyed(f, podVmId, moref).Ok?
  }

  /** The operation taken along is not the last name of a live clone, and nobody is about to submit it. */
  ghost predicate MayTakeAlong(w: World, j: JobId, podVmId: Ref, moref: Ref)
    requires j in w.jobs
  {
    var f := w.jobs[j].payload;
    TakesAlong(f, podVmId, moref) ==>
      && OperationMayGo(w, j, Without(Outstanding(f), FindTarget(f, podVmId, moref).value.target))
      && forall token :: token in w.armed && w.armed[token] == ArmedFor(j, f.operation.value.id) ==> !Owns(w.jobs[j], token)
  }

  /** The calling contract of each database call. */
  ghost predicate CallAllowed(w: World, j: JobId, c: Call)
    requires j in w.jobs
  {
    match c
    case Claim(token, _, _) => token !in w.used
    case PrepareOperation(_, candidate) => candidate.phase == Prepared && candidate.id !in w.issued
    case RecordCleanup(podVmId, moref) => !Exists(w, podVmId, moref) && MayTakeAlong(w, j, podVmId, moref)
    case _ => MayDrop(w, j, c)
  }

  /** Clearing an adopted row's reference takes no live clone's last name. */
  ghost predicate RowMayGo(w: World, podVmId: Ref, moref: Ref) {
    forall op :: op in w.clones && op in w.issued && w.issued[op].podVmId == podVmId && w.clones[op] == Made(moref) ==>
      w.issued[op].job in w.jobs && NamedInPayload(w, op)
  }

  ghost predicate NamedInPayload(w: World, op: Ref)
    requires op in w.clones && op in w.issued && w.issued[op].job in w.jobs
  {
    var f := w.jobs[w.issued[op].job].payload;
    || (HasOperation(f, op) && f.operation.value.phase != Prepared)
    || (w.clones[op].Made? && exists t :: t in Outstanding(f) && Names(t, w.issued[op].podVmId, w.clones[op].moref))
  }

  ghost predicate Allowed(w: World, s: Step) {
    match s
    case OnJob(j, c) => j in w.jobs && CallAllowed(w, j, c)
    case Enqueue(j, _) => j !in w.jobs
    case Submit(token, op) =>
      && token in w.armed && w.armed[token].op == op
      && w.armed[token].job in w.jobs && Owns(w.jobs[w.armed[token].job], token)
    case Materialise(op, moref) =>
      && op in w.clones && w.clones[op].InFlight?
      && forall o | o in w.clones :: MorefOf(w.clones[o]) != Some(moref)
    case TaskFails(op) => op in w.clones && w.clones[op].InFlight?
    case DestroyClone(op) => op in w.clones && w.clones[op].Made?
    case ClearReference(podVmId, moref) => RowMayGo(w, podVmId, moref)
    case Crash(_) => true
  }

  // ---------------------------------------------------------------------------
  // The invariant
  // ---------------------------------------------------------------------------

  /** Something durable names the clone of `op`: its job's payload or the adopted VM row. */
  ghost predicate Remembered(w: World, op: Ref)
    requires op in w.clones && op in w.issued && w.issued[op].job in w.jobs
  {
    NamedInPayload(w, op) || (w.clones[op].Made? && RowNames(w, w.issued[op].podVmId, w.clones[op].moref))
  }

  ghost predicate CloneOk(w: World, op: Ref)
    requires op in w.clones
  {
    && op in w.issued && w.issued[op].job in w.jobs
    && (Live(w.clones[op]) ==> Remembered(w, op))
  }

  ghost predicate OperationOk(w: World, j: JobId)
    requires j in w.jobs
  {
    var f := w.jobs[j].payload;
    f.operation.Some? ==>
      && f.operation.value.id in w.issued
      && w.issued[f.operation.value.id] == Issue(j, f.operation.value.scope.podVmId)
      && (f.operation.value.phase == Prepared ==> f.operation.value.id !in w.clones)
  }

  ghost predicate ArmedOk(w: World, token: Token)
    requires token in w.armed
  {
    var ArmedFor(j, op) := w.armed[token];
    && token in w.used && j in w.jobs && op !in w.clones
    && op in w.issued && w.issued[op].job == j
    && (HasOperation(w.jobs[j].payload, op) ==> w.jobs[j].payload.operation.value.phase != Prepared)
    && (Owns(w.jobs[j], token) ==> HasOperation(w.jobs[j].payload, op))
  }

  ghost predicate Inv(w: World) {
    && (forall op :: op in w.clones ==> CloneOk(w, op))
    && (forall j :: j in w.jobs ==> OperationOk(w, j))
    && (forall token :: token in w.armed ==> ArmedOk(w, token))
    && (forall a, b :: a in w.armed && b in w.armed && w.armed[a].op == w.armed[b].op ==> a == b)
    && (forall a, b :: a in w.clones && b in w.clones && SameVm(w.clones[a], w.clones[b]) ==> a == b)
    && (forall j :: j in w.jobs && w.jobs[j].claimedBy.Some? ==> w.jobs[j].claimedBy.value in w.used)
  }

  /** Every submitted clone that vCenter has not destroyed is named by something durable. */
  ghost predicate NoCloneForgotten(w: World) {
    forall op :: op in w.clones && Live(w.clones[op]) ==>
      op in w.issued && w.issued[op].job in w.jobs && Remembered(w, op)
  }
}
