/**
 Runs from an empty installation that reach the states in which the pod tables do
 less than one would expect: two ways to a failure recorded after the pod was
 destroyed, and a never-started pod that cannot be cancelled.
*/
module PodWitness {
  import opened Wrappers
  import J = JobRow
  import opened PodTables
  import opened PodLifecycle
  import opened PodSafety

  /** A pool with the single row 100, and nothing else. */
  const Start: World := World(Tables(map[], map[], [], map[100 := Slot(1, AllHosts, None)], {}, map[]), {}, {})

  /** Some run that keeps all contracts leads from `a` to `b`. */
  ghost predicate Leads(a: World, b: World) {
    exists steps :: Obeys(a, steps) && Run(a, steps) == b
  }

  lemma {:induction false} ObeysSnoc(w: World, steps: seq<Step>, s: Step)
    requires Obeys(w, steps) && Allowed(Run(w, steps), s)
    ensures Obeys(w, steps + [s])
    decreases |steps|
  {
    if steps == [] {
      assert steps + [s] == [s];
    } else {
      assert (steps + [s])[0] == steps[0] && (steps + [s])[1..] == steps[1..] + [s];
      ObeysSnoc(Apply(w, steps[0]), steps[1..], s);
    }
  }

  lemma Then(a: World, b: World, s: Step, c: World)
    requires Leads(a, b) && Allowed(b, s) && Apply(b, s) == c
    ensures Leads(a, c)
  {
    var steps :| Obeys(a, steps) && Run(a, steps) == b;
    ObeysSnoc(a, steps, s);
    RunSnoc(a, steps + [s]);
    assert (steps + [s])[..|steps|] == steps;
    assert Obeys(a, steps + [s]) && Run(a, steps + [s]) == c;
  }

  lemma Stay(a: World)
    ensures Leads(a, a)
  {
    assert Obeys(a, []) && Run(a, []) == a;
  }

  // ---------------------------------------------------------------------------
  // One isolated pod, its create job and its destroy job
  // ---------------------------------------------------------------------------

  function At(status: PodStatus, jobs: seq<PodJob>, owner: Option<PodId>, excused: set<JobId>, started: set<PodId>): World {
    World(Tables(map[1 := Pod(status, Isolated, 100, 1, Plain)], map[], jobs, map[100 := Slot(1, AllHosts, owner)], {}, map[]),
          excused, started)
  }

  function InState(job: PodJob, status: J.Status, token: Option<J.Token>, at: Option<J.Time>, started: Option<J.Time>,
                   done: Option<J.Time>): PodJob {
    job.(row := job.row.(status := status, claimedBy := token, claimedAt := at, startedAt := started, completedAt := done))
  }

  const Create: PodJob := NewJob(CreatePod, 1, None)
  const Destroy: PodJob := NewJob(DestroyPod, 1, None)
  const CreateFailed: PodJob := InState(Create, J.Failed, Some(1), Some(0), Some(0), Some(0))

  lemma CreateIsClaimed()
    ensures Leads(Start, At(Pending, [InState(Create, J.Claimed, Some(1), Some(0), None, None)], Some(1), {}, {}))
  {
    Stay(Start);
    var w1 := At(Pending, [Create], Some(1), {}, {});
    assert Apply(Start, DoCreateIsolated(1, 100, {})) == w1;
    Then(Start, Start, DoCreateIsolated(1, 100, {}), w1);
    var w2 := At(Pending, [InState(Create, J.Claimed, Some(1), Some(0), None, None)], Some(1), {}, {});
    Then(Start, w1, OnJob(0, J.Claim(1, 0, true)), w2);
  }

  /** The create attempt starts and fails. */
  lemma CreateFails()
    ensures Leads(Start, At(Provisioning, [CreateFailed], Some(1), {}, {1}))
  {
    CreateIsClaimed();
    var w2 := At(Pending, [InState(Create, J.Claimed, Some(1), Some(0), None, None)], Some(1), {}, {});
    var w3 := At(Pending, [InState(Create, J.InProgress, Some(1), Some(0), Some(0), None)], Some(1), {}, {});
    Then(Start, w2, OnJob(0, J.UpdateStatus(1, J.InProgress, 0)), w3);
    var w4 := At(Provisioning, [InState(Create, J.InProgress, Some(1), Some(0), Some(0), None)], Some(1), {}, {1});
    Then(Start, w3, StartProvisioning(1), w4);
    Then(Start, w4, OnJob(0, J.UpdateStatus(1, J.Failed, 0)), At(Provisioning, [CreateFailed], Some(1), {}, {1}));
  }

  /** The destroy job at work for this token. */
  function Working(token: J.Token, now: J.Time): PodJob {
    InState(Destroy, J.InProgress, Some(token), Some(now), Some(now), None)
  }

  lemma OldestIs(jobs: seq<PodJob>)
    requires |jobs| == 2 && jobs[0].kind == CreatePod && Is(jobs[1], DestroyPod, 1)
    ensures FirstJob(jobs, DestroyPod, 1) == Some(1) && FirstJob(jobs[..1], DestroyPod, 1) == None
  {
  }

  lemma Enqueues()
    ensures Apply(At(Provisioning, [CreateFailed], Some(1), {}, {1}), DoCreateDestroy(1, Always, None, Facts(false, false)))
         == At(Provisioning, [CreateFailed, Destroy], Some(1), {}, {1})
  {
    var w := At(Provisioning, [CreateFailed], Some(1), {}, {1});
    assert FirstJob(w.t.jobs, DestroyPod, 1).None?;
    assert !Blocked(w.t, 1, None);
    assert w.t.jobs + [Destroy] == [CreateFailed, Destroy];
  }

  /** A claimed destroy job is started and prepared. */
  lemma Prepares(a: World, status: PodStatus, pending: PodJob, token: J.Token, now: J.Time)
    requires Leads(a, At(status, [CreateFailed, pending], Some(1), {}, {1}))
    requires status == Provisioning || status == Destroying
    requires pending == InState(Destroy, J.Pending, None, None, None, None)
    ensures Leads(a, At(Destroying, [CreateFailed, Working(token, now)], Some(1), {}, {1}))
  {
    var w0 := At(status, [CreateFailed, pending], Some(1), {}, {1});
    var claimed := InState(Destroy, J.Claimed, Some(token), Some(now), None, None);
    var w1 := At(status, [CreateFailed, claimed], Some(1), {}, {1});
    assert [CreateFailed, pending][1 := claimed] == [CreateFailed, claimed];
    Then(a, w0, OnJob(1, J.Claim(token, now, true)), w1);
    var w2 := At(status, [CreateFailed, Working(token, now)], Some(1), {}, {1});
    assert [CreateFailed, claimed][1 := Working(token, now)] == [CreateFailed, Working(token, now)];
    Then(a, w1, OnJob(1, J.UpdateStatus(token, J.InProgress, now)), w2);
    OldestIs(w2.t.jobs);
    var w3 := At(Destroying, [CreateFailed, Working(token, now)], Some(1), {}, {1});
    assert DecidePrepare(w2.t, 1, 1, token) == Prepared;
    Then(a, w2, DoPrepare(1, 1, token), w3);
  }

  /** Token 2 has prepared the pod and is tearing it down. */
  const AtWork: World := At(Destroying, [CreateFailed, Working(2, 0)], Some(1), {}, {1})

  lemma DestroyIsAtWork()
    ensures Leads(Start, AtWork) && OwnsDestroy(AtWork.t, 1, 1, 2)
  {
    CreateFails();
    Enqueues();
    var w := At(Provisioning, [CreateFailed, Destroy], Some(1), {}, {1});
    Then(Start, At(Provisioning, [CreateFailed], Some(1), {}, {1}), DoCreateDestroy(1, Always, None, Facts(false, false)), w);
    Prepares(Start, Provisioning, Destroy, 2, 0);
  }

  /** Destroyed while token 2 was at work, so that its failure write strands the pod. */
  ghost predicate TooLate(w: World) {
    && Leads(AtWork, w) && Inv(w) && IsDestroyed(w.t, 1) && w.t.pods[1].mode == Isolated
    && Stranded(Apply(w, MarkDestroyFailed(1, Plain)).t, 1)
  }

  lemma LeadsKeepsInv(a: World, b: World)
    requires Inv(a) && Leads(a, b)
    ensures Inv(b)
  {
    var steps :| Obeys(a, steps) && Run(a, steps) == b;
    RunKeepsInv(a, steps);
  }

  lemma AtWorkIsSound()
    ensures Inv(AtWork)
  {
    DestroyIsAtWork();
    LeadsKeepsInv(Start, AtWork);
  }

  lemma DestroyedIsTooLate(jobs: seq<PodJob>, excused: set<JobId>)
    requires Leads(AtWork, At(Destroyed, jobs, None, excused, {1}))
    ensures TooLate(At(Destroyed, jobs, None, excused, {1}))
  {
    AtWorkIsSound();
    LeadsKeepsInv(AtWork, At(Destroyed, jobs, None, excused, {1}));
  }

  const Reopened: PodJob := CreateFailed.(row := J.After(CreateFailed.row, J.HandOverRollback(9, 0)))

  lemma HandsOver()
    ensures Leads(AtWork, At(Destroying, [Reopened, Working(2, 0)], Some(1), {0}, {1}))
  {
    Stay(AtWork);
    var w := At(Destroying, [Reopened, Working(2, 0)], Some(1), {0}, {1});
    assert AtWork.t.jobs[0 := Reopened] == w.t.jobs;
    assert NextTables(AtWork.t, OnJob(0, J.HandOverRollback(9, 0))) == w.t;
    Then(AtWork, AtWork, OnJob(0, J.HandOverRollback(9, 0)), w);
  }

  /** First way: a rollback handover reopens the create job, and its compensation finalizes the pod; token 2 still owns its job. */
  lemma CompensationFinalizesFirst()
    ensures exists w :: TooLate(w) && OwnsDestroy(w.t, 1, 1, 2)
  {
    HandsOver();
    var jobs := [Reopened, Working(2, 0)];
    var w1 := At(Destroying, jobs, Some(1), {0}, {1});
    var w2 := At(Destroyed, jobs, None, {0}, {1});
    assert Release(w1.t.pool, 1) == w2.t.pool;
    Then(AtWork, w1, DoFinalizeNeverApplied(1), w2);
    DestroyedIsTooLate(jobs, {0});
    assert OwnsDestroy(w2.t, 1, 1, 2);
  }

  /** Second way: token 2's lease expires, token 3 takes the job over and finishes it. */
  lemma SuccessorFinalizesFirst()
    ensures exists w :: TooLate(w) && OwnsDestroy(w.t, 1, 1, 3)
  {
    Stay(AtWork);
    var w1 := At(Destroying, [CreateFailed, InState(Destroy, J.Pending, None, None, None, None)], Some(1), {}, {1});
    assert AtWork.t.jobs[1 := w1.t.jobs[1]] == w1.t.jobs;
    Then(AtWork, AtWork, OnJob(1, J.RecoverStale(100, 10)), w1);
    Prepares(AtWork, Destroying, w1.t.jobs[1], 3, 100);
    var w2 := At(Destroying, [CreateFailed, Working(3, 100)], Some(1), {}, {1});
    var w3 := At(Destroyed, [CreateFailed, Working(3, 100)], None, {}, {1});
    assert Release(w2.t.pool, 1) == w3.t.pool;
    Then(AtWork, w2, DoFinalizeDestroy(1, 1, 3), w3);
    DestroyedIsTooLate(w3.t.jobs, {});
  }

  // ---------------------------------------------------------------------------
  // A shared pod nobody started
  // ---------------------------------------------------------------------------

  const SharedPod: World :=
    World(Tables(map[1 := Pod(Pending, Shared, 347, 2, Plain)], map[], [Create], map[100 := Slot(1, AllHosts, None)], {}, map[]), {}, {})

  lemma SharedIsCreated()
    ensures Leads(Start, SharedPod)
  {
    Stay(Start);
    var s, next := DoCreateShared(1, 347, 2, {}), CreateShared(Start.t, 1, 347, 2, {});
    assert NextTables(Start.t, s) == next;
    assert next.pods == SharedPod.t.pods;
    assert next.vms == SharedPod.t.vms;
    assert next.jobs == SharedPod.t.jobs;
    assert next == SharedPod.t;
    Then(Start, Start, s, SharedPod);
  }

  lemma SharedIsPristine()
    ensures NeverStarted(SharedPod.t, 1)
  {
    var t := SharedPod.t;
    assert FirstJob(t.jobs, CreatePod, 1) == Some(0);
    assert Pristine(t.jobs[0].row);
    assert !OtherJobs(t, 1, 0) && Untouched(t, 1) && !Placed(t, 1);
  }

  lemma SharedPodCannotBeCancelled()
    ensures exists w :: Leads(Start, w) && NeverStarted(w.t, 1) && DecideCancel(w.t, 1) == ReleaseMismatch
  {
    SharedIsCreated();
    SharedIsPristine();
    forall tag ensures !SoleRow(SharedPod.t, 1, tag) {}
    assert DecideCancel(SharedPod.t, 1) == ReleaseMismatch;
  }
}
