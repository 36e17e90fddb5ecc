/** What every run of replica-build steps keeps. */
module ReplicaSafety {
  import opened Wrappers
  import opened ReplicaBuilds

  lemma {:induction false} RunKeepsInv(st: State, steps: seq<Step>)
    requires Inv(st)
    ensures Inv(Run(st, steps))
    decreases |steps|
  {
    if steps != [] {
      StepKeepsInv(st, steps[0]);
      RunKeepsInv(Apply(st, steps[0]), steps[1..]);
    }
  }

  ghost predicate Initial(st: State) {
    st.builds == map[] && st.jobs == []
  }

  /** One live job per build, and it is the linked one; so a worker that owns a build job is never told it is obsolete. */
  lemma OneLiveJobAndLinked(st: State, steps: seq<Step>, i: JobId, j: JobId)
    requires Initial(st)
    requires i < |Run(st, steps).jobs| && !Terminal(Run(st, steps).jobs[i].row.status)
    requires j < |Run(st, steps).jobs| && !Terminal(Run(st, steps).jobs[j].row.status)
    requires Run(st, steps).jobs[i].build == Run(st, steps).jobs[j].build
    ensures i == j
    ensures var now := Run(st, steps); now.jobs[i].build in now.builds && now.builds[now.jobs[i].build].job == Some(i)
  {
    RunKeepsInv(st, steps);
    assert JobOk(Run(st, steps), i) && JobOk(Run(st, steps), j);
  }

  // ---------------------------------------------------------------------------
  // Idempotency keys
  // ---------------------------------------------------------------------------

  /** The build keeps its request, and its source is the original one or has been released for good. */
  ghost predicate Kept(st: State, id: BuildId, r: Request, source: ReplicaId) {
    id in st.builds && st.builds[id].request == r && (st.builds[id].source == Some(source) || st.builds[id].source.None?)
  }

  lemma StepKeepsBuild(st: State, s: Step, id: BuildId, r: Request, source: ReplicaId)
    requires Kept(st, id, r, source)
    ensures Kept(Apply(st, s), id, r, source)
    ensures st.builds[id].source.None? ==> Apply(st, s).builds[id].source.None?
  {
    RequestsStay(st, s, id);
  }

  lemma {:induction false} RunKeepsBuild(st: State, steps: seq<Step>, id: BuildId, r: Request, source: ReplicaId)
    requires Kept(st, id, r, source)
    ensures Kept(Run(st, steps), id, r, source)
    decreases |steps|
  {
    if steps != [] {
      StepKeepsBuild(st, steps[0], id, r, source);
      RunKeepsBuild(Apply(st, steps[0]), steps[1..], id, r, source);
    }
  }

  /**
   Repeating a create request at any later time returns the original build exactly
   as long as its source reference has not been released by a retirement; after
   that the same request is answered with a conflict. It never creates a second build.
  */
  lemma ReplayExactly(st: State, steps: seq<Step>, id: BuildId, r: Request, source: ReplicaId, c: Creation)
    requires Inv(st) && id !in st.builds && Decides(st, r, source, Created)
    requires Decides(Run(Create(st, id, r, source), steps), r, source, c)
    ensures var now := Run(Create(st, id, r, source), steps);
            && id in now.builds
            && (c == Existing(id) <==> now.builds[id].source == Some(source))
            && (c == Conflict <==> now.builds[id].source.None?)
            && c != Created && (forall other :: Create(now, other, r, source) == now)
  {
    var made := Create(st, id, r, source);
    assert made == Apply(st, DoCreate(id, r, source));
    StepKeepsInv(st, DoCreate(id, r, source));
    RunKeepsInv(made, steps);
    RunKeepsBuild(made, steps, id, r, source);
    var now := Run(made, steps);
    assert HasKey(now, id, r);
    forall other | HasKey(now, other, r) ensures other == id {
      assert HasKey(now, other, now.builds[id].request);
    }
    assert KeyTaken(now, r) && !Decides(now, r, source, Created);
  }

  // ---------------------------------------------------------------------------
  // The last ready replica
  // ---------------------------------------------------------------------------

  ghost predicate IsReadyFor(st: State, p: ReplicaId, template: TemplateId) {
    p in st.replicas && st.replicas[p].template == template && st.replicas[p].status == ReplicaReady
  }

  ghost predicate HasReady(st: State, template: TemplateId) {
    exists p :: IsReadyFor(st, p, template)
  }

  /** A step takes readiness from a replica only by retiring it, and then the anchor of the retired build is ready and stays. */
  lemma StepKeepsReady(st: State, s: Step, template: TemplateId)
    requires HasReady(st, template)
    ensures HasReady(Apply(st, s), template)
  {
    var p: ReplicaId :| IsReadyFor(st, p, template);
    var next := Apply(st, s);
    if !IsReadyFor(next, p, template) {
      LosesOnlyByRetirement(st, s, p, template);
    }
  }

  lemma LosesOnlyByRetirement(st: State, s: Step, p: ReplicaId, template: TemplateId)
    requires IsReadyFor(st, p, template) && !IsReadyFor(Apply(st, s), p, template)
    ensures s.DoRestart? && s.cleanupOnly && s.build in st.builds
    ensures var b := st.builds[s.build];
            b.result == Some(p) && b.source.Some? && b.source != Some(p) && IsReadyFor(Apply(st, s), b.source.value, template)
  {
  }

  lemma {:induction false} LastReadyReplicaStays(st: State, steps: seq<Step>, template: TemplateId)
    requires HasReady(st, template)
    ensures HasReady(Run(st, steps), template)
    decreases |steps|
  {
    if steps != [] {
      StepKeepsReady(st, steps[0], template);
      LastReadyReplicaStays(Apply(st, steps[0]), steps[1..], template);
    }
  }
}
