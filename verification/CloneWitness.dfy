/**
 A run in which every caller keeps its contract but the last one: the cleanup of an
 old clone takes a newer operation for the same pod VM along, and the newer clone is
 forgotten.
*/
module CloneWitness {
  import opened Wrappers
  import opened JobPayload
  import opened JobRow
  import opened CloneProtocol
  import opened CloneSafety

  /** Some run that keeps all contracts leads here from an empty database. */
  ghost predicate Reached(w: World) {
    exists steps :: Obeys(EmptyWorld, steps) && Run(EmptyWorld, steps) == w
  }

  lemma {:induction false} RunSnoc(w: World, steps: seq<Step>, s: Step)
    ensures Run(w, steps + [s]) == Apply(Run(w, steps), s)
    ensures Obeys(w, steps) && Allowed(Run(w, steps), s) ==> Obeys(w, steps + [s])
    decreases |steps|
  {
    if steps == [] {
      assert steps + [s] == [s];
      assert Run(Apply(w, s), []) == Apply(w, s);
    } else {
      assert (steps + [s])[0] == steps[0] && (steps + [s])[1..] == steps[1..] + [s];
      RunSnoc(Apply(w, steps[0]), steps[1..], s);
    }
  }

  lemma Then(w: World, s: Step, w': World)
    requires Reached(w) && Allowed(w, s) && w' == Apply(w, s)
    ensures Reached(w')
  {
    var steps :| Obeys(EmptyWorld, steps) && Run(EmptyWorld, steps) == w;
    RunSnoc(EmptyWorld, steps, s);
    assert Obeys(EmptyWorld, steps + [s]) && Run(EmptyWorld, steps + [s]) == w';
  }

  // ---------------------------------------------------------------------------
  // Job 0 clones pod VM 6 twice; the first clone is VM 7, the second VM 8
  // ---------------------------------------------------------------------------

  const OLD: Target := Target(5, 6, 7)

  function Operation(id: Ref, phase: Phase): CloneOperation {
    CloneOperation(id, Scope(5, 6, 9, 9, 9), true, EMPTY, phase)
  }

  /** The job while token 1 holds it. */
  function Claimed1(target: Option<Target>, marked: bool, operation: Option<CloneOperation>): Job {
    Job(PodCreate, Claimed, Some(1), Some(0), None, None, None, 0, Fields(target, None, None, marked, false, operation), [])
  }

  function At(job: Job, issued: map<Ref, Issue>, clones: map<Ref, Outcome>, armed: map<Token, ArmedFor>): World {
    World(map[0 := job], map[], issued, clones, armed, {1})
  }

  const Issued1: map<Ref, Issue> := map[21 := Issue(0, 6)]
  const Issued2: map<Ref, Issue> := map[21 := Issue(0, 6), 22 := Issue(0, 6)]

  lemma PrepareStep(target: Option<Target>, marked: bool, issued: map<Ref, Issue>, clones: map<Ref, Outcome>, op: Ref)
    requires Reached(At(Claimed1(target, marked, None), issued, clones, map[])) && op != EMPTY && op !in issued
    ensures Reached(At(Claimed1(target, marked, Some(Operation(op, Prepared))), issued[op := Issue(0, 6)], clones, map[]))
  {
    var w := At(Claimed1(target, marked, None), issued, clones, map[]);
    var w' := At(Claimed1(target, marked, Some(Operation(op, Prepared))), issued[op := Issue(0, 6)], clones, map[]);
    var s := OnJob(0, PrepareOperation(1, Operation(op, Prepared)));
    assert Apply(w, s) == w';
    Then(w, s, w');
  }

  lemma ArmStep(target: Option<Target>, marked: bool, issued: map<Ref, Issue>, clones: map<Ref, Outcome>, op: Ref)
    requires Reached(At(Claimed1(target, marked, Some(Operation(op, Prepared))), issued, clones, map[])) && op in issued
    ensures Reached(At(Claimed1(target, true, Some(Operation(op, Submitting))), issued, clones, map[1 := ArmedFor(0, op)]))
  {
    var w := At(Claimed1(target, marked, Some(Operation(op, Prepared))), issued, clones, map[]);
    var w' := At(Claimed1(target, true, Some(Operation(op, Submitting))), issued, clones, map[1 := ArmedFor(0, op)]);
    assert Apply(w, OnJob(0, ArmOperation(1, op))) == w';
    Then(w, OnJob(0, ArmOperation(1, op)), w');
  }

  lemma SubmitStep(job: Job, issued: map<Ref, Issue>, clones: map<Ref, Outcome>, op: Ref, moref: Ref)
    requires Reached(At(job, issued, clones, map[1 := ArmedFor(0, op)])) && Owns(job, 1)
    requires op !in clones && forall o | o in clones :: MorefOf(clones[o]) != Some(moref)
    ensures Reached(At(job, issued, clones[op := Made(moref)], map[]))
  {
    var w0 := At(job, issued, clones, map[1 := ArmedFor(0, op)]);
    var w1 := At(job, issued, clones[op := InFlight], map[]);
    var w2 := At(job, issued, clones[op := Made(moref)], map[]);
    Then(w0, Submit(1, op), w1);
    assert w2.clones == w1.clones[op := Made(moref)];
    Then(w1, Materialise(op, moref), w2);
  }

  /** One clone operation from prepare to the finished clone. */
  lemma CloneOnce(target: Option<Target>, marked: bool, before: map<Ref, Issue>, clones: map<Ref, Outcome>, op: Ref, moref: Ref)
    requires Reached(At(Claimed1(target, marked, None), before, clones, map[]))
    requires op != EMPTY && op !in before && op !in clones && forall o | o in clones :: MorefOf(clones[o]) != Some(moref)
    ensures Reached(At(Claimed1(target, true, Some(Operation(op, Submitting))), before[op := Issue(0, 6)],
                       clones[op := Made(moref)], map[]))
  {
    PrepareStep(target, marked, before, clones, op);
    ArmStep(target, marked, before[op := Issue(0, 6)], clones, op);
    SubmitStep(Claimed1(target, true, Some(Operation(op, Submitting))), before[op := Issue(0, 6)], clones, op, moref);
  }

  lemma ClaimedFirst()
    ensures Reached(At(Claimed1(None, false, None), map[], map[], map[]))
  {
    var w := EmptyWorld.(jobs := map[0 := NewJob(PodCreate)]);
    assert Obeys(EmptyWorld, []) && Run(EmptyWorld, []) == EmptyWorld;
    Then(EmptyWorld, Enqueue(0, PodCreate), w);
    var w' := At(Claimed1(None, false, None), map[], map[], map[]);
    assert Apply(w, OnJob(0, Claim(1, 0, true))) == w';
    Then(w, OnJob(0, Claim(1, 0, true)), w');
  }

  lemma StageStep(op: CloneOperation)
    requires Reached(At(Claimed1(None, true, Some(op)), Issued1, map[21 := Made(7)], map[]))
    ensures Reached(At(Claimed1(Some(OLD), true, Some(op)), Issued1, map[21 := Made(7)], map[]))
  {
    var w := At(Claimed1(None, true, Some(op)), Issued1, map[21 := Made(7)], map[]);
    var w' := At(Claimed1(Some(OLD), true, Some(op)), Issued1, map[21 := Made(7)], map[]);
    assert Apply(w, OnJob(0, StageClone(1, OLD))) == w';
    assert MayDrop(w, 0, StageClone(1, OLD));
    Then(w, OnJob(0, StageClone(1, OLD)), w');
  }

  lemma CloseStep(op: CloneOperation)
    requires Reached(At(Claimed1(Some(OLD), true, Some(op)), Issued1, map[21 := Gone(7)], map[])) && op.id == 21
    ensures Reached(At(Claimed1(Some(OLD), true, None), Issued1, map[21 := Gone(7)], map[]))
  {
    var w := At(Claimed1(Some(OLD), true, Some(op)), Issued1, map[21 := Gone(7)], map[]);
    var w' := At(Claimed1(Some(OLD), true, None), Issued1, map[21 := Gone(7)], map[]);
    assert Apply(w, OnJob(0, CloseOperation(1, 21))) == w';
    assert MayDrop(w, 0, CloseOperation(1, 21));
    Then(w, OnJob(0, CloseOperation(1, 21)), w');
  }

  /** The first clone is staged and destroyed, and its operation closed; its target is still to be recorded. */
  lemma FirstClone()
    ensures Reached(At(Claimed1(Some(OLD), true, None), Issued1, map[21 := Gone(7)], map[]))
  {
    ClaimedFirst();
    CloneOnce(None, false, map[], map[], 21, 7);
    var op := Operation(21, Submitting);
    assert At(Claimed1(None, true, Some(op)), map[][21 := Issue(0, 6)], map[][21 := Made(7)], map[])
        == At(Claimed1(None, true, Some(op)), Issued1, map[21 := Made(7)], map[]);
    StageStep(op);
    var w := At(Claimed1(Some(OLD), true, Some(op)), Issued1, map[21 := Made(7)], map[]);
    var w' := At(Claimed1(Some(OLD), true, Some(op)), Issued1, map[21 := Gone(7)], map[]);
    assert Apply(w, DestroyClone(21)) == w';
    Then(w, DestroyClone(21), w');
    CloseStep(op);
  }

  /** After a run without a single breach, recording the old, really destroyed clone forgets the live one. */
  lemma StaleCleanupForgetsClone()
    ensures exists steps :: Obeys(EmptyWorld, steps) && ForgetsOnRecord(Run(EmptyWorld, steps), 0, 6, 7)
  {
    FirstClone();
    CloneOnce(Some(OLD), true, Issued1, map[21 := Gone(7)], 22, 8);
    var w := At(Claimed1(Some(OLD), true, Some(Operation(22, Submitting))), Issued2, map[21 := Gone(7), 22 := Made(8)], map[]);
    assert Reached(w);
    RecordForgets(w);
    var steps :| Obeys(EmptyWorld, steps) && Run(EmptyWorld, steps) == w;
  }

  ghost predicate ForgetsOnRecord(w: World, j: JobId, podVmId: Ref, moref: Ref) {
    && j in w.jobs && !Exists(w, podVmId, moref)
    && NoCloneForgotten(w) && !NoCloneForgotten(Apply(w, OnJob(j, RecordCleanup(podVmId, moref))))
  }

  lemma ReachedRemembers(w: World)
    requires Reached(w)
    ensures NoCloneForgotten(w)
  {
    var steps :| Obeys(EmptyWorld, steps) && Run(EmptyWorld, steps) == w;
    RunKeepsInv(EmptyWorld, steps);
    InvRemembers(w);
  }

  /** The second operation goes with the record of the first clone, and no target is left. */
  lemma RecordTakesAlong(f: Fields)
    requires f == Claimed1(Some(OLD), true, Some(Operation(22, Submitting))).payload
    ensures TakesAlong(f, 6, 7)
    ensures Outstanding(RecordDestroyed(f, 6, 7).value) == [] && RecordDestroyed(f, 6, 7).value.operation.None?
  {
    assert FindTarget(f, 6, 7) == Ok(Staged(OLD));
    TakingAlongLeaves(f, 6, 7);
    assert Outstanding(f) == [OLD] && Without([OLD], OLD) == [];
  }

  lemma RecordForgets(w: World)
    requires w == At(Claimed1(Some(OLD), true, Some(Operation(22, Submitting))), Issued2,
                     map[21 := Gone(7), 22 := Made(8)], map[])
    requires Reached(w)
    ensures ForgetsOnRecord(w, 0, 6, 7)
  {
    ReachedRemembers(w);
    RecordTakesAlong(w.jobs[0].payload);
    RecordFrame(w, 0, 6, 7);
    UnnamedIsForgotten(w, Apply(w, OnJob(0, RecordCleanup(6, 7))), 0, 22);
  }
}
