/**
 A run in which a retirement releases the source reference of a finished build, so
 that repeating that build's create request is answered with a conflict.
*/
module ReplicaWitness {
  import opened Wrappers
  import J = JobRow
  import opened ReplicaBuilds

  /** Template 1 with one ready replica, VM 10 on compute resource 1. */
  const Start: State := At(map[], map[1 := Source], [])

  ghost predicate Reached(st: State) {
    exists steps :: Run(Start, steps) == st
  }

  lemma {:induction false} RunSnoc(st: State, steps: seq<Step>, s: Step)
    ensures Run(st, steps + [s]) == Apply(Run(st, steps), s)
    decreases |steps|
  {
    if steps == [] {
      assert steps + [s] == [s] && Run(Apply(st, s), []) == Apply(st, s);
    } else {
      assert (steps + [s])[0] == steps[0] && (steps + [s])[1..] == steps[1..] + [s];
      RunSnoc(Apply(st, steps[0]), steps[1..], s);
    }
  }

  lemma Then(st: State, s: Step, next: State)
    requires Reached(st) && Apply(st, s) == next
    ensures Reached(next)
  {
    var steps :| Run(Start, steps) == st;
    RunSnoc(Start, steps, s);
    assert Run(Start, steps + [s]) == next;
  }

  // ---------------------------------------------------------------------------
  // Build 1 makes replica 2 from replica 1; build 2 starts from replica 2 and fails
  // ---------------------------------------------------------------------------

  function At(builds: map<BuildId, Build>, replicas: map<ReplicaId, Replica>, jobs: seq<BuildJob>): State {
    State(builds, replicas, jobs, {})
  }

  const Source: Replica := Replica(1, 10, 1, ReplicaReady)
  const First: Request := Request(1, 1, 10, 2, 5)
  const Second: Request := Request(1, 2, 20, 3, 6)
  const Fresh: Progress := Progress(Pending, Forward(0), Forward(0), EMPTY, EMPTY, false, false, false)
  const Accepted: Progress := Progress(Running, FINALIZING, Forward(0), 20, 7, true, false, false)
  const Done: Progress := Accepted.(status := Ready, phase := PhaseReady)
  const Broken: Progress := Fresh.(status := Failed, phase := PhaseFailed)

  function FirstBuild(result: Option<ReplicaId>, p: Progress): Build {
    Build(First, Some(1), result, Some(0), p)
  }

  function Made(status: ReplicaStatus): Replica {
    Replica(1, 20, 2, status)
  }

  function Held(build: BuildId, cleanupOnly: bool, token: J.Token): BuildJob {
    var job := NewJob(build, cleanupOnly);
    job.(row := job.row.(status := J.Claimed, claimedBy := Some(token), claimedAt := Some(0)))
  }

  const FirstJobDone: BuildJob :=
    Held(1, false, 1).(row := Held(1, false, 1).row.(status := J.Completed, startedAt := Some(0), completedAt := Some(0)))

  lemma FirstIsInserted()
    ensures Reached(At(map[1 := FirstBuild(None, Fresh)], map[1 := Source], [NewJob(1, false)]))
  {
    assert Run(Start, []) == Start;
    assert !KeyTaken(Start, First) && !Occupied(Start, First) && ReadyAnchor(Start, Some(1), First);
    assert Decides(Start, First, 1, Created);
    var st, made := At(map[1 := FirstBuild(None, Fresh)], map[1 := Source], [NewJob(1, false)]), Inserted(Start, 1, First, 1);
    assert made.builds == st.builds;
    assert made.jobs == st.jobs;
    assert made == st;
    assert Apply(Start, DoCreate(1, First, 1)) == Create(Start, 1, First, 1) == made;
    Then(Start, DoCreate(1, First, 1), st);
  }

  lemma FirstIsCreated()
    ensures Reached(At(map[1 := FirstBuild(None, Fresh)], map[1 := Source], [Held(1, false, 1)]))
  {
    FirstIsInserted();
    var st0 := At(map[1 := FirstBuild(None, Fresh)], map[1 := Source], [NewJob(1, false)]);
    var st1 := At(map[1 := FirstBuild(None, Fresh)], map[1 := Source], [Held(1, false, 1)]);
    assert st0.jobs[0 := Held(1, false, 1)] == st1.jobs;
    assert J.After(NewJob(1, false).row, J.Claim(1, 0, true)) == Held(1, false, 1).row;
    assert Apply(st0, OnJob(0, J.Claim(1, 0, true))) == st1;
    Then(st0, OnJob(0, J.Claim(1, 0, true)), st1);
  }

  lemma FirstIsAccepted()
    ensures Reached(At(map[1 := FirstBuild(Some(2), Accepted)], map[1 := Source, 2 := Made(ReplicaPending)], [Held(1, false, 1)]))
  {
    FirstIsCreated();
    var jobs := [Held(1, false, 1)];
    var st0 := At(map[1 := FirstBuild(None, Fresh)], map[1 := Source], jobs);
    var st1 := At(map[1 := FirstBuild(None, Accepted)], map[1 := Source], jobs);
    Then(st0, DoSave(1, FirstBuild(None, Accepted), Forward(0), 1), st1);
    var st2 := At(map[1 := FirstBuild(Some(2), Accepted)], map[1 := Source, 2 := Made(ReplicaPending)], jobs);
    assert CanReserve(st1, 2, FirstBuild(None, Accepted));
    Then(st1, DoReserve(1, FirstBuild(None, Accepted), 1, 2), st2);
  }

  lemma FirstIsFinalized()
    ensures Reached(At(map[1 := FirstBuild(Some(2), Done)], map[1 := Source, 2 := Made(ReplicaReady)], [Held(1, false, 1)]))
  {
    FirstIsAccepted();
    var st0 := At(map[1 := FirstBuild(Some(2), Accepted)], map[1 := Source, 2 := Made(ReplicaPending)], [Held(1, false, 1)]);
    var st1 := At(map[1 := FirstBuild(Some(2), Done)], map[1 := Source, 2 := Made(ReplicaReady)], [Held(1, false, 1)]);
    Then(st0, DoFinalize(1, FirstBuild(Some(2), Accepted), 1), st1);
  }

  lemma FirstIsReady()
    ensures Reached(At(map[1 := FirstBuild(Some(2), Done)], map[1 := Source, 2 := Made(ReplicaReady)], [FirstJobDone]))
  {
    FirstIsFinalized();
    var builds, replicas := map[1 := FirstBuild(Some(2), Done)], map[1 := Source, 2 := Made(ReplicaReady)];
    var st1 := At(builds, replicas, [Held(1, false, 1)]);
    var begun := Held(1, false, 1).(row := Held(1, false, 1).row.(status := J.InProgress, startedAt := Some(0)));
    var st2 := At(builds, replicas, [begun]);
    Then(st1, OnJob(0, J.UpdateStatus(1, J.InProgress, 0)), st2);
    Then(st2, OnJob(0, J.UpdateStatus(1, J.Completed, 0)), At(builds, replicas, [FirstJobDone]));
  }

  function SecondBuild(source: Option<ReplicaId>, p: Progress): Build {
    Build(Second, source, None, Some(1), p)
  }

  lemma SecondIsCreated()
    ensures Reached(At(map[1 := FirstBuild(Some(2), Done), 2 := SecondBuild(Some(2), Fresh)],
                       map[1 := Source, 2 := Made(ReplicaReady)], [FirstJobDone, NewJob(2, false)]))
  {
    FirstIsReady();
    var st := At(map[1 := FirstBuild(Some(2), Done)], map[1 := Source, 2 := Made(ReplicaReady)], [FirstJobDone]);
    var next := At(map[1 := FirstBuild(Some(2), Done), 2 := SecondBuild(Some(2), Fresh)],
                   map[1 := Source, 2 := Made(ReplicaReady)], [FirstJobDone, NewJob(2, false)]);
    assert !KeyTaken(st, Second) && !Occupied(st, Second);
    assert st.jobs + [NewJob(2, false)] == next.jobs;
    Then(st, DoCreate(2, Second, 2), next);
  }

  /** The second build fails before it has made anything: it needs its source no longer. */
  lemma SecondFails()
    ensures Reached(At(map[1 := FirstBuild(Some(2), Done), 2 := SecondBuild(Some(2), Broken)],
                       map[1 := Source, 2 := Made(ReplicaReady)], [FirstJobDone, Held(2, false, 2)]))
  {
    SecondIsCreated();
    var replicas, jobs := map[1 := Source, 2 := Made(ReplicaReady)], [FirstJobDone, Held(2, false, 2)];
    var st0 := At(map[1 := FirstBuild(Some(2), Done), 2 := SecondBuild(Some(2), Fresh)], replicas, [FirstJobDone, NewJob(2, false)]);
    var st1 := At(map[1 := FirstBuild(Some(2), Done), 2 := SecondBuild(Some(2), Fresh)], replicas, jobs);
    assert st0.jobs[1 := Held(2, false, 2)] == jobs;
    Then(st0, OnJob(1, J.Claim(2, 0, true)), st1);
    var st2 := At(map[1 := FirstBuild(Some(2), Done), 2 := SecondBuild(Some(2), Broken)], replicas, jobs);
    Then(st1, DoFail(2, SecondBuild(Some(2), Fresh), 2, Failed, PhaseFailed, false), st2);
  }

  const Leaving: Progress := Done.(status := Retiring, phase := ResiduePrepared)
  const Left: Progress := Leaving.(status := Retired, phase := PhaseRetired, residueCleaned := true)

  function Retired1(result: Option<ReplicaId>, p: Progress): Build {
    Build(First, Some(1), result, Some(2), p)
  }

  lemma RetirementIsQueued()
    ensures Reached(At(map[1 := Retired1(Some(2), Leaving), 2 := SecondBuild(Some(2), Broken)],
                       map[1 := Source, 2 := Made(Disabled)], [FirstJobDone, Held(2, false, 2), NewJob(1, true)]))
  {
    SecondFails();
    var st0 := At(map[1 := FirstBuild(Some(2), Done), 2 := SecondBuild(Some(2), Broken)],
                  map[1 := Source, 2 := Made(ReplicaReady)], [FirstJobDone, Held(2, false, 2)]);
    assert !Anchors(st0, 1, 2);
    assert MayRetire(st0, 1);
    var builds, replicas := map[1 := Retired1(Some(2), Leaving), 2 := SecondBuild(Some(2), Broken)], map[1 := Source, 2 := Made(Disabled)];
    var st1 := At(builds, replicas, [FirstJobDone, Held(2, false, 2), NewJob(1, true)]);
    assert st0.jobs + [NewJob(1, true)] == st1.jobs;
    Then(st0, DoRestart(1, 1, true), st1);
  }

  lemma RetirementStarts()
    ensures Reached(At(map[1 := Retired1(Some(2), Leaving), 2 := SecondBuild(Some(2), Broken)],
                       map[1 := Source, 2 := Made(Disabled)], [FirstJobDone, Held(2, false, 2), Held(1, true, 3)]))
  {
    RetirementIsQueued();
    var builds, replicas := map[1 := Retired1(Some(2), Leaving), 2 := SecondBuild(Some(2), Broken)], map[1 := Source, 2 := Made(Disabled)];
    var st1 := At(builds, replicas, [FirstJobDone, Held(2, false, 2), NewJob(1, true)]);
    var st2 := At(builds, replicas, [FirstJobDone, Held(2, false, 2), Held(1, true, 3)]);
    assert st1.jobs[2 := Held(1, true, 3)] == st2.jobs;
    Then(st1, OnJob(2, J.Claim(3, 0, true)), st2);
  }

  const End: State := At(map[1 := Retired1(None, Left), 2 := SecondBuild(None, Broken)],
                         map[1 := Source], [FirstJobDone, Held(2, false, 2), Held(1, true, 3)])

  lemma RetirementEnds()
    ensures Reached(End)
  {
    RetirementStarts();
    var st := At(map[1 := Retired1(Some(2), Leaving), 2 := SecondBuild(Some(2), Broken)],
                 map[1 := Source, 2 := Made(Disabled)], [FirstJobDone, Held(2, false, 2), Held(1, true, 3)]);
    var copy := Retired1(Some(2), Leaving.(residueCleaned := true));
    assert !Anchors(st, 1, 2);
    assert MayCompleteCleanup(st, 1, copy, 3);
    assert Unanchored(st.builds, 1, 2)[1 := Retired1(None, Left)] == End.builds;
    assert st.replicas - {2} == End.replicas;
    Then(st, DoCompleteCleanup(1, copy, 3), End);
  }

  /** The second request was accepted once; repeated at the end of this run it conflicts. */
  lemma ReplayConflicts()
    ensures exists steps :: var now := Run(Start, steps); HasKey(now, 2, Second) && Decides(now, Second, 2, Conflict)
  {
    RetirementEnds();
    assert HasKey(End, 2, Second);
    assert Decides(End, Second, 2, Conflict);
    var steps :| Run(Start, steps) == End;
  }
}
