/**
 Template source replicas and the builds that make them: the durable steps of a
 build (create, save, reserve, finalize, fail, clean up, restart) over the build,
 replica and job rows. Workers pass their own copy of the build record, which may
 be out of date; `copy` below is that record.
*/
module ReplicaBuilds {
  import opened Wrappers
  import JobPayload
  import J = JobRow

  type TemplateId = nat
  type BuildId = nat
  type ReplicaId = nat
  type JobId = nat
  type Ref = JobPayload.Ref

  const EMPTY: Ref := JobPayload.EMPTY

  datatype BuildStatus = Pending | Running | Ready | Failed | CleanupRequired | Retiring | Retired

  /** The thirteen forward phases in order, then the rest. */
  datatype Phase =
    | Forward(step: nat)
    | ResiduePrepared | ResidueSubmitting | ResidueSubmitted | ResidueCleaned
    | PhaseReady | PhaseFailed | PhaseCleanupRequired | PhaseRetired

  const FINALIZING := Forward(12)

  datatype ReplicaStatus = ReplicaPending | ReplicaReady | Unhealthy | Disabled

  datatype Replica = Replica(template: TemplateId, vm: Ref, compute: Ref, status: ReplicaStatus)

  /** What the requester asked for, apart from the source replica; never changed afterwards. */
  datatype Request = Request(template: TemplateId, key: Ref, sourceVm: Ref, compute: Ref, destination: Ref)

  /** What the worker finds out and records as it goes. */
  datatype Progress = Progress(
    status: BuildStatus, phase: Phase, resume: Phase, destVm: Ref, snapshot: Ref,
    cleanupDone: bool, residueCleaned: bool, taskFailed: bool)

  datatype Build = Build(
    request: Request, source: Option<ReplicaId>, result: Option<ReplicaId>, job: Option<JobId>, progress: Progress)

  datatype BuildJob = BuildJob(build: BuildId, row: J.Job)

  datatype State = State(
    builds: map<BuildId, Build>,
    replicas: map<ReplicaId, Replica>,
    jobs: seq<BuildJob>,
    placed: set<ReplicaId>) // replicas a VM placement refers to

  function NewJob(build: BuildId, cleanupOnly: bool): BuildJob {
    BuildJob(build, J.Job(J.TemplateReplicaBuild, J.Pending, None, None, None, None, None, 0,
                          JobPayload.Fields(None, None, None, cleanupOnly, false, None), []))
  }

  predicate OwnsJob(st: State, job: Option<JobId>, worker: J.Token) {
    job.Some? && job.value < |st.jobs| && J.Owns(st.jobs[job.value].row, worker)
  }

  predicate Terminal(s: J.Status) {
    s == J.Completed || s == J.Failed
  }

  /** The build row the worker means: same id and still linked to the worker's job. */
  predicate Linked(st: State, id: BuildId, copy: Build) {
    id in st.builds && st.builds[id].job == copy.job
  }

  predicate ReadyAnchor(st: State, source: Option<ReplicaId>, r: Request) {
    && source.Some? && source.value in st.replicas
    && st.replicas[source.value].template == r.template && st.replicas[source.value].vm == r.sourceVm
    && st.replicas[source.value].status == ReplicaReady
  }

  predicate IsResult(st: State, result: ReplicaId, copy: Build) {
    && result in st.replicas
    && st.replicas[result].template == copy.request.template && st.replicas[result].vm == copy.progress.destVm
    && st.replicas[result].compute == copy.request.compute
  }

  // ---------------------------------------------------------------------------
  // Create
  // ---------------------------------------------------------------------------

  datatype Creation = Created | Existing(build: BuildId) | Conflict | NoAnchor

  ghost predicate HasKey(st: State, id: BuildId, r: Request) {
    id in st.builds && st.builds[id].request.template == r.template && st.builds[id].request.key == r.key
  }

  ghost predicate KeyTaken(st: State, r: Request) {
    exists id :: HasKey(st, id, r)
  }

  ghost predicate Occupied(st: State, r: Request) {
    exists p :: p in st.replicas && st.replicas[p].template == r.template && st.replicas[p].compute == r.compute
  }

  ghost predicate Decides(st: State, r: Request, source: ReplicaId, c: Creation) {
    if KeyTaken(st, r) then
      exists id :: HasKey(st, id, r)
        && c == if st.builds[id].request == r && st.builds[id].source == Some(source) then Existing(id) else Conflict
    else if source !in st.replicas || st.replicas[source].template != r.template then c == NoAnchor
    else if !ReadyAnchor(st, Some(source), r) || Occupied(st, r) then c == Conflict
    else c == Created
  }

  function Inserted(st: State, id: BuildId, r: Request, source: ReplicaId): State {
    var progress := Progress(Pending, Forward(0), Forward(0), EMPTY, EMPTY, false, false, false);
    st.(builds := st.builds[id := Build(r, Some(source), None, Some(|st.jobs|), progress)],
        jobs := st.jobs + [NewJob(id, false)])
  }

  /** `id` is fresh. */
  ghost function Create(st: State, id: BuildId, r: Request, source: ReplicaId): State {
    if id !in st.builds && Decides(st, r, source, Created) then Inserted(st, id, r, source) else st
  }

  // ---------------------------------------------------------------------------
  // Worker steps
  // ---------------------------------------------------------------------------

  /** Compare-and-swap on the phase the worker read. */
  function Save(st: State, id: BuildId, copy: Build, expected: Phase, worker: J.Token): State {
    if OwnsJob(st, copy.job, worker) && Linked(st, id, copy) && st.builds[id].progress.phase == expected
    then st.(builds := st.builds[id := st.builds[id].(progress := copy.progress)]) else st
  }

  /** The insert fails on a taken compute resource, a taken VM or a taken id. */
  ghost predicate CanReserve(st: State, replica: ReplicaId, copy: Build) {
    && replica !in st.replicas
    && forall p :: p in st.replicas && st.replicas[p].template == copy.request.template ==>
         st.replicas[p].compute != copy.request.compute && st.replicas[p].vm != copy.progress.destVm
  }

  ghost function Reserve(st: State, id: BuildId, copy: Build, worker: J.Token, replica: ReplicaId): State {
    if copy.progress.destVm == EMPTY || !OwnsJob(st, copy.job, worker) || copy.result.Some?
       || !CanReserve(st, replica, copy)
    then st
    else
      var row := Replica(copy.request.template, copy.progress.destVm, copy.request.compute, ReplicaPending);
      var linked := if id in st.builds && st.builds[id].result.None?
                    then st.builds[id := st.builds[id].(result := Some(replica))] else st.builds;
      st.(replicas := st.replicas[replica := row], builds := linked)
  }

  predicate MayFinalize(st: State, id: BuildId, copy: Build, worker: J.Token) {
    && copy.source.Some? && copy.result.Some? && copy.progress.cleanupDone && copy.progress.snapshot != EMPTY
    && OwnsJob(st, copy.job, worker)
    && ReadyAnchor(st, copy.source, copy.request)
    && copy.result.value in st.replicas
    && st.replicas[copy.result.value].template == copy.request.template
    && st.replicas[copy.result.value].vm == copy.progress.destVm
    && st.replicas[copy.result.value].status == ReplicaPending
    && Linked(st, id, copy) && st.builds[id].progress.phase == FINALIZING
  }

  function SetReplica(st: State, replica: ReplicaId, status: ReplicaStatus): map<ReplicaId, Replica>
    requires replica in st.replicas
  {
    st.replicas[replica := st.replicas[replica].(status := status)]
  }

  function SetBuild(st: State, id: BuildId, p: Progress): map<BuildId, Build>
    requires id in st.builds
  {
    st.builds[id := st.builds[id].(progress := p)]
  }

  function Finalize(st: State, id: BuildId, copy: Build, worker: J.Token): State {
    if MayFinalize(st, id, copy, worker) then
      var p := st.builds[id].progress.(status := Ready, phase := PhaseReady, taskFailed := false);
      st.(replicas := SetReplica(st, copy.result.value, ReplicaReady), builds := SetBuild(st, id, p))
    else st
  }

  /** A build's own replica is marked unhealthy, but never a ready one. */
  function AfterFailure(st: State, id: BuildId): map<ReplicaId, Replica>
    requires id in st.builds
  {
    var b := st.builds[id];
    if b.result.Some? && b.result.value in st.replicas && b.progress.status != Retiring
       && st.replicas[b.result.value].status != ReplicaReady
    then SetReplica(st, b.result.value, Unhealthy) else st.replicas
  }

  function Fail(st: State, id: BuildId, copy: Build, worker: J.Token, status: BuildStatus, phase: Phase, taskFailed: bool): State {
    if MayFail(st, id, copy, worker)
    then st.(replicas := AfterFailure(st, id),
             builds := SetBuild(st, id, FailedProgress(st.builds[id].progress, copy.progress.phase, status, phase, taskFailed)))
    else st
  }

  predicate MayFail(st: State, id: BuildId, copy: Build, worker: J.Token) {
    && OwnsJob(st, copy.job, worker) && Linked(st, id, copy)
    && st.builds[id].progress.status != Ready && st.builds[id].progress.status != Retired
  }

  /** A build that was moving forward remembers the phase to resume from. */
  function FailedProgress(p: Progress, reached: Phase, status: BuildStatus, phase: Phase, taskFailed: bool): Progress {
    var resume := if (p.status == Pending || p.status == Running) && reached.Forward? then reached else p.resume;
    p.(status := status, phase := phase, resume := resume, taskFailed := taskFailed)
  }

  // ---------------------------------------------------------------------------
  // Clean-up and retirement
  // ---------------------------------------------------------------------------

  /** A build that no longer needs its source: its reference may be released. */
  predicate Finished(b: Build) {
    || b.progress.status == Retired
    || (b.progress.status == Failed && b.result.None? && (b.progress.destVm == EMPTY || b.progress.residueCleaned))
  }

  /** Another build still anchored on the replica. */
  ghost predicate Anchors(st: State, id: BuildId, replica: ReplicaId) {
    exists other :: other in st.builds && other != id && st.builds[other].source == Some(replica) && !Finished(st.builds[other])
  }

  ghost predicate MayDrop(st: State, id: BuildId, copy: Build)
    requires id in st.builds
  {
    var b := st.builds[id];
    var retiring := b.progress.status == Retiring;
    if b.result.None? then !retiring
    else
      var result := b.result.value;
      && IsResult(st, result, copy)
      && (retiring ==>
            && st.replicas[result].status == Disabled
            && copy.source.Some? && copy.source != Some(result) && ReadyAnchor(st, copy.source, copy.request)
            && result !in st.placed && !Anchors(st, id, result))
      && (!retiring ==> st.replicas[result].status != ReplicaReady)
  }

  ghost predicate MayCompleteCleanup(st: State, id: BuildId, copy: Build, worker: J.Token) {
    copy.progress.residueCleaned && OwnsJob(st, copy.job, worker) && Linked(st, id, copy) && MayDrop(st, id, copy)
  }

  /** Finished builds give up their reference to the retired replica. */
  function Unanchored(builds: map<BuildId, Build>, id: BuildId, replica: ReplicaId): map<BuildId, Build> {
    map b | b in builds ::
      if b != id && builds[b].source == Some(replica) && Finished(builds[b]) then builds[b].(source := None) else builds[b]
  }

  ghost function CompleteCleanup(st: State, id: BuildId, copy: Build, worker: J.Token): State {
    if !MayCompleteCleanup(st, id, copy, worker) then st
    else
      var b := st.builds[id];
      var retiring := b.progress.status == Retiring;
      var builds := if retiring && b.result.Some? then Unanchored(st.builds, id, b.result.value) else st.builds;
      var p := b.progress.(status := if retiring then Retired else Failed,
                           phase := if retiring then PhaseRetired else ResidueCleaned,
                           residueCleaned := true, taskFailed := false);
      st.(builds := builds[id := b.(result := None, progress := p)],
          replicas := if b.result.Some? then st.replicas - {b.result.value} else st.replicas)
  }

  predicate Retires(b: Build, cleanupOnly: bool) {
    cleanupOnly && (b.progress.status == Ready || b.progress.status == Retiring)
  }

  ghost predicate MayRetire(st: State, id: BuildId)
    requires id in st.builds
  {
    var b := st.builds[id];
    && b.result.Some? && b.source != b.result && b.progress.destVm != EMPTY
    && ReadyAnchor(st, b.source, b.request)
    && IsResult(st, b.result.value, b)
    && st.replicas[b.result.value].status == (if b.progress.status == Retiring then Disabled else ReplicaReady)
    && b.result.value !in st.placed && !Anchors(st, id, b.result.value)
  }

  ghost predicate MayRestart(st: State, template: TemplateId, id: BuildId, cleanupOnly: bool) {
    && id in st.builds && st.builds[id].request.template == template
    && var b := st.builds[id];
       && b.source.Some?
       && (b.job.Some? ==> b.job.value < |st.jobs| && Terminal(st.jobs[b.job.value].row.status))
       && (if Retires(b, cleanupOnly) then MayRetire(st, id)
           else b.progress.status in {Failed, CleanupRequired} && b.progress.resume.Forward?)
       && (!cleanupOnly ==>
             && ReadyAnchor(st, b.source, b.request) && b.progress.status != CleanupRequired
             && !b.progress.taskFailed && !b.progress.residueCleaned)
  }

  function RestartedProgress(b: Build, cleanupOnly: bool): Progress {
    var p := b.progress.(taskFailed := false);
    if Retires(b, cleanupOnly) then p.(status := Retiring, phase := ResiduePrepared, residueCleaned := false)
    else p.(status := if cleanupOnly then CleanupRequired else Running, phase := b.progress.resume)
  }

  ghost function Restart(st: State, template: TemplateId, id: BuildId, cleanupOnly: bool): State {
    if !MayRestart(st, template, id, cleanupOnly) then st
    else
      var b := st.builds[id];
      var replicas := if Retires(b, cleanupOnly) && b.progress.status == Ready
                      then SetReplica(st, b.result.value, Disabled) else st.replicas;
      st.(builds := st.builds[id := b.(job := Some(|st.jobs|), progress := RestartedProgress(b, cleanupOnly))],
          jobs := st.jobs + [NewJob(id, cleanupOnly)],
          replicas := replicas)
  }

  // ---------------------------------------------------------------------------
  // Runs
  // ---------------------------------------------------------------------------

  datatype Step =
    | DoCreate(build: BuildId, request: Request, source: ReplicaId)
    | DoSave(build: BuildId, copy: Build, expected: Phase, worker: J.Token)
    | DoReserve(build: BuildId, copy: Build, worker: J.Token, replica: ReplicaId)
    | DoFinalize(build: BuildId, copy: Build, worker: J.Token)
    | DoFail(build: BuildId, copy: Build, worker: J.Token, status: BuildStatus, phase: Phase, taskFailed: bool)
    | DoCompleteCleanup(build: BuildId, copy: Build, worker: J.Token)
    | DoRestart(template: TemplateId, build: BuildId, cleanupOnly: bool)
    | OnJob(job: JobId, call: J.Call)
    | DoPlace(placed: set<ReplicaId>)
    | DoRegister(replica: ReplicaId, row: Replica)

  ghost function Apply(st: State, s: Step): State {
    match s
    case DoCreate(id, request, source) => Create(st, id, request, source)
    case DoSave(id, copy, expected, worker) => Save(st, id, copy, expected, worker)
    case DoReserve(id, copy, worker, replica) => Reserve(st, id, copy, worker, replica)
    case DoFinalize(id, copy, worker) => Finalize(st, id, copy, worker)
    case DoFail(id, copy, worker, status, phase, failed) => Fail(st, id, copy, worker, status, phase, failed)
    case DoCompleteCleanup(id, copy, worker) => CompleteCleanup(st, id, copy, worker)
    case DoRestart(template, id, cleanupOnly) => Restart(st, template, id, cleanupOnly)
    case OnJob(j, c) =>
      if j < |st.jobs| then st.(jobs := st.jobs[j := st.jobs[j].(row := J.After(st.jobs[j].row, c))]) else st
    case DoPlace(placed) => st.(placed := placed)
    case DoRegister(replica, row) =>
      if replica !in st.replicas then st.(replicas := st.replicas[replica := row]) else st
  }

  ghost function Run(st: State, steps: seq<Step>): State
    decreases |steps|
  {
    if steps == [] then st else Run(Apply(st, steps[0]), steps[1..])
  }

  ghost predicate JobOk(st: State, j: JobId)
    requires j < |st.jobs|
  {
    && st.jobs[j].build in st.builds && st.jobs[j].row.kind == J.TemplateReplicaBuild
    && (!Terminal(st.jobs[j].row.status) ==> st.builds[st.jobs[j].build].job == Some(j))
  }

  /** A nonterminal job is the linked job of its build, so a build has at most one; and a key names one build. */
  ghost predicate Inv(st: State) {
    && (forall j :: 0 <= j < |st.jobs| ==> JobOk(st, j))
    && (forall id :: id in st.builds && st.builds[id].job.Some? ==>
          st.builds[id].job.value < |st.jobs| && st.jobs[st.builds[id].job.value].build == id)
    && (forall a, b :: a in st.builds && HasKey(st, b, st.builds[a].request) ==> a == b)
  }

  /** A terminal build job stays terminal. */
  lemma TerminalStays(row: J.Job, c: J.Call)
    requires row.kind == J.TemplateReplicaBuild
    ensures J.After(row, c).kind == row.kind && (Terminal(row.status) ==> Terminal(J.After(row, c).status))
  {
  }

  /** No step changes what a build was asked to be. */
  lemma RequestsStay(st: State, s: Step, id: BuildId)
    requires id in st.builds
    ensures id in Apply(st, s).builds && Apply(st, s).builds[id].request == st.builds[id].request
  {
  }

  lemma StepKeepsJobs(st: State, s: Step, j: JobId)
    requires Inv(st) && j < |Apply(st, s).jobs|
    ensures JobOk(Apply(st, s), j)
  {
    if j < |st.jobs| {
      assert JobOk(st, j);
      if s.OnJob? {
        TerminalStays(st.jobs[j].row, s.call);
      }
    }
  }

  /** A build appears only by a create whose key was free. */
  lemma NewBuildHasNewKey(st: State, s: Step, id: BuildId)
    requires id in Apply(st, s).builds && id !in st.builds
    ensures s.DoCreate? && s.build == id && Apply(st, s).builds[id].request == s.request && !KeyTaken(st, s.request)
  {
  }

  lemma StepKeepsKeys(st: State, s: Step, a: BuildId, b: BuildId)
    requires Inv(st) && a in Apply(st, s).builds && HasKey(Apply(st, s), b, Apply(st, s).builds[a].request)
    ensures a == b
  {
    var r := Apply(st, s).builds[a].request;
    if a in st.builds { RequestsStay(st, s, a); } else { NewBuildHasNewKey(st, s, a); }
    if b in st.builds { RequestsStay(st, s, b); } else { NewBuildHasNewKey(st, s, b); }
    assert b in st.builds ==> HasKey(st, b, r);
    assert a in st.builds ==> HasKey(st, a, r);
    assert b !in st.builds && a in st.builds ==> HasKey(st, a, Apply(st, s).builds[b].request);
  }

  lemma StepKeepsLinks(st: State, s: Step, id: BuildId)
    requires Inv(st) && id in Apply(st, s).builds && Apply(st, s).builds[id].job.Some?
    ensures var next := Apply(st, s);
            next.builds[id].job.value < |next.jobs| && next.jobs[next.builds[id].job.value].build == id
  {
  }

  lemma StepKeepsInv(st: State, s: Step)
    requires Inv(st)
    ensures Inv(Apply(st, s))
  {
    var next := Apply(st, s);
    forall j | 0 <= j < |next.jobs| ensures JobOk(next, j) {
      StepKeepsJobs(st, s, j);
    }
    forall id | id in next.builds && next.builds[id].job.Some?
      ensures next.builds[id].job.value < |next.jobs| && next.jobs[next.builds[id].job.value].build == id
    {
      StepKeepsLinks(st, s, id);
    }
    forall a, b | a in next.builds && HasKey(next, b, next.builds[a].request) ensures a == b {
      StepKeepsKeys(st, s, a, b);
    }
  }
}
