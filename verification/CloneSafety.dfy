/** The proof that every run keeps the clone invariant, and what follows from it. */
module CloneSafety {
  import opened Wrappers
  import opened JobPayload
  import opened JobRow
  import opened CloneProtocol
  import CloneTargets

  // ---------------------------------------------------------------------------
  // Row facts: what a call adds to, drops from and keeps in the payload
  // ---------------------------------------------------------------------------

  function Added(c: Call): seq<Target> {
    match c
    case StageClone(_, t) => [t]
    case RetryJob(_, _, cleanupOnly, t) => if cleanupOnly && t.Some? then [t.value] else []
    case HandOffTarget(t) => [t]
    case _ => []
  }

  predicate Drops(f: Fields, c: Call, t: Target) {
    match c
    case StageClone(_, _) => f.target == Some(t)
    case RetryJob(_, _, cleanupOnly, replacement) => cleanupOnly && replacement.Some? && f.target == Some(t)
    case FinishStandalone(_, _, _) => f.target == Some(t)
    case DisarmClone(_, podVmId, moref) => f.target == Some(t) && Names(t, podVmId, moref)
    case RecordCleanup(podVmId, moref) => Names(t, podVmId, moref)
    case _ => false
  }

  predicate SameOperation(f: Fields, g: Fields) {
    || g.operation == f.operation
    || (f.operation.Some? && g.operation.Some?
        && g.operation.value.id == f.operation.value.id
        && g.operation.value.scope == f.operation.value.scope
        && g.operation.value.phase != Prepared)
  }

  /** A recorded cleanup drops exactly the targets it names. */
  lemma OutstandingAfterRecord(f: Fields, podVmId: Ref, moref: Ref, t: Target)
    requires RecordDestroyed(f, podVmId, moref).Ok?
    ensures t in Outstanding(RecordDestroyed(f, podVmId, moref).value) ==> t in Outstanding(f)
    ensures t in Outstanding(f) ==> t in Outstanding(RecordDestroyed(f, podVmId, moref).value) || Names(t, podVmId, moref)
  {
    var u := FindTarget(f, podVmId, moref).value.target;
    if u !in Destroyed(f) {
      CloneTargets.FirstCompletion(f, u);
      CloneTargets.WithoutMembers(Outstanding(f), u);
    }
  }

  lemma OutstandingAfterHandOff(f: Fields, u: Target, t: Target)
    requires PrepareDestruction(f, u).Ok?
    ensures var g := PrepareDestruction(f, u).value.0;
            && (t in Outstanding(g) ==> t in Outstanding(f) || t == u)
            && (t in Outstanding(f) ==> t in Outstanding(g))
  {
  }

  lemma OutstandingAfter(row: Job, c: Call, t: Target)
    ensures t in Outstanding(After(row, c).payload) ==> t in Outstanding(row.payload) || t in Added(c)
    ensures t in Outstanding(row.payload) ==> t in Outstanding(After(row, c).payload) || Drops(row.payload, c, t)
    ensures After(row, c) != row && t in Added(c) && !c.HandOffTarget? ==> t in Outstanding(After(row, c).payload)
  {
    var f := row.payload;
    match c
    case RecordCleanup(podVmId, moref) =>
      if RecordDestroyed(f, podVmId, moref).Ok? {
        OutstandingAfterRecord(f, podVmId, moref, t);
      }
    case HandOffTarget(u) =>
      if PrepareDestruction(f, u).Ok? {
        OutstandingAfterHandOff(f, u, t);
      }
    case StageClone(_, _) =>
    case RetryJob(_, _, _, _) =>
    case FinishStandalone(_, _, _) =>
    case DisarmClone(_, _, _) =>
    case _ =>
      assert Outstanding(After(row, c).payload) == Outstanding(f) by { OtherCallsKeepTargets(row, c); }
  }

  lemma OtherCallsKeepTargets(row: Job, c: Call)
    requires !c.RecordCleanup? && !c.HandOffTarget? && !c.StageClone? && !c.RetryJob? && !c.FinishStandalone? && !c.DisarmClone?
    ensures After(row, c).payload.target == row.payload.target && After(row, c).payload.handoffs == row.payload.handoffs
  {
  }

  /** Only prepare mints an operation; only five calls remove one; the rest keep its identity. */
  lemma OperationAfter(row: Job, c: Call)
    ensures SameOperation(row.payload, After(row, c).payload)
      || (c.PrepareOperation? && After(row, c).payload.operation == Some(c.candidate))
      || After(row, c).payload.operation.None?
    ensures row.payload.operation.Some? && After(row, c).payload.operation.None? ==>
              DropsOperation(c) || (c.RecordCleanup? && TakesAlong(row.payload, c.podVmId, c.moref))
  {
  }

  /** The targets that stay after a call that drops the operation or overwrites the primary, and what stays of the operation. */
  lemma LeavesIsOutstanding(row: Job, c: Call)
    requires After(row, c) != row && (Overwrites(c) || DropsOperation(c))
    ensures Outstanding(After(row, c).payload) == Leaves(row.payload, c)
    ensures DropsOperation(c) ==> After(row, c).payload.operation.None?
    ensures Overwrites(c) ==> After(row, c).payload.operation == row.payload.operation
  {
  }

  /** The same for a recorded cleanup that takes the operation along. */
  lemma TakingAlongLeaves(f: Fields, podVmId: Ref, moref: Ref)
    requires TakesAlong(f, podVmId, moref)
    ensures var g := RecordDestroyed(f, podVmId, moref).value;
            && Outstanding(g) == Without(Outstanding(f), FindTarget(f, podVmId, moref).value.target)
            && g.operation.None?
  {
    CloneTargets.FirstCompletion(f, FindTarget(f, podVmId, moref).value.target);
  }

  // ---------------------------------------------------------------------------
  // One database call keeps each part of the invariant
  // ---------------------------------------------------------------------------

  lemma CallKeepsIssued(w: World, j: JobId, c: Call)
    requires Inv(w) && j in w.jobs && CallAllowed(w, j, c)
    ensures var w' := Apply(w, OnJob(j, c));
            && w'.clones == w.clones
            && w'.jobs.Keys == w.jobs.Keys
            && (forall o :: o in w.issued ==> o in w'.issued && w'.issued[o] == w.issued[o])
  {
  }

  lemma ClonesAreIssued(w: World)
    requires Inv(w)
    ensures w.clones.Keys <= w.issued.Keys
  {
    forall o | o in w.clones ensures o in w.issued {
      assert CloneOk(w, o);
    }
  }

  lemma CallKeepsOperation(w: World, j: JobId, c: Call)
    requires Inv(w) && j in w.jobs && CallAllowed(w, j, c)
    ensures OperationOk(Apply(w, OnJob(j, c)), j)
  {
    assert OperationOk(w, j);
    OperationAfter(w.jobs[j], c);
    ClonesAreIssued(w);
  }

  lemma CallKeepsOtherOperation(w: World, j: JobId, c: Call, k: JobId)
    requires Inv(w) && j in w.jobs && CallAllowed(w, j, c) && k in w.jobs && k != j
    ensures OperationOk(Apply(w, OnJob(j, c)), k)
  {
    CallKeepsIssued(w, j, c);
    assert OperationOk(w, k);
  }

  /** Only a claim makes an owner. */
  lemma OwnedBefore(row: Job, c: Call, token: Token)
    requires Owns(After(row, c), token) && !(c.Claim? && c.token == token)
    ensures Owns(row, token)
  {
  }

  /** A fenced call by anyone else, and every unfenced call that keeps the claim, leaves the owner's operation in place. */
  lemma OthersKeepOperation(row: Job, c: Call, token: Token, op: Ref)
    requires Owns(row, token) && (Actor(c) != Some(token) || c.Renew?)
    requires HasOperation(row.payload, op)
    requires c.RecordCleanup? ==> !TakesAlong(row.payload, c.podVmId, c.moref)
    ensures HasOperation(After(row, c).payload, op)
  {
    OperationAfter(row, c);
  }

  lemma CallKeepsArmedOperation(w: World, j: JobId, c: Call, token: Token)
    requires Inv(w) && j in w.jobs && CallAllowed(w, j, c)
    requires token in w.armed && w.armed[token].job == j
    requires Actor(c) != Some(token) || c.Renew?
    requires Owns(After(w.jobs[j], c), token)
    ensures Owns(w.jobs[j], token)
    ensures HasOperation(After(w.jobs[j], c).payload, w.armed[token].op)
  {
    assert ArmedOk(w, token);
    assert OperationOk(w, j);
    OwnedBefore(w.jobs[j], c, token);
    OthersKeepOperation(w.jobs[j], c, token, w.armed[token].op);
  }

  lemma ArmingIsOk(w: World, j: JobId, token: Token, op: Ref)
    requires Inv(w) && j in w.jobs
    requires After(w.jobs[j], ArmOperation(token, op)) != w.jobs[j]
    ensures ArmedOk(Apply(w, OnJob(j, ArmOperation(token, op))), token)
  {
    assert OperationOk(w, j);
  }

  /** Once armed, an operation never shows as merely prepared again. */
  lemma CallKeepsPhase(w: World, j: JobId, c: Call, token: Token)
    requires Inv(w) && j in w.jobs && CallAllowed(w, j, c)
    requires token in w.armed && w.armed[token].job == j
    ensures var g := After(w.jobs[j], c).payload;
            HasOperation(g, w.armed[token].op) ==> g.operation.value.phase != Prepared
  {
    assert ArmedOk(w, token);
    OperationAfter(w.jobs[j], c);
  }

  /** An armed token the call does not concern stays in order if its operation does. */
  lemma ArmedStays(w: World, j: JobId, c: Call, token: Token)
    requires j in w.jobs && token in w.armed && ArmedOk(w, token)
    requires var w' := Apply(w, OnJob(j, c));
             && token in w'.armed && w'.armed[token] == w.armed[token]
             && w.armed[token].op in w'.issued && w'.issued[w.armed[token].op] == w.issued[w.armed[token].op]
    requires w.armed[token].job == j ==>
               var g := After(w.jobs[j], c);
               && (HasOperation(g.payload, w.armed[token].op) ==> g.payload.operation.value.phase != Prepared)
               && (Owns(g, token) ==> HasOperation(g.payload, w.armed[token].op))
    ensures ArmedOk(Apply(w, OnJob(j, c)), token)
  {
  }

  lemma ArmedOperationStays(w: World, j: JobId, c: Call, token: Token)
    requires Inv(w) && j in w.jobs && CallAllowed(w, j, c)
    requires token in w.armed && w.armed[token].job == j
    requires Actor(c) != Some(token) || c.Renew?
    ensures var g := After(w.jobs[j], c);
            && (HasOperation(g.payload, w.armed[token].op) ==> g.payload.operation.value.phase != Prepared)
            && (Owns(g, token) ==> HasOperation(g.payload, w.armed[token].op))
  {
    CallKeepsPhase(w, j, c, token);
    if Owns(After(w.jobs[j], c), token) {
      CallKeepsArmedOperation(w, j, c, token);
    }
  }

  lemma CallKeepsArmed(w: World, j: JobId, c: Call, token: Token)
    requires Inv(w) && j in w.jobs && CallAllowed(w, j, c)
    requires token in Apply(w, OnJob(j, c)).armed
    ensures ArmedOk(Apply(w, OnJob(j, c)), token)
  {
    if c.ArmOperation? && c.token == token {
      ArmingIsOk(w, j, token, c.op);
    } else {
      CallKeepsIssued(w, j, c);
      assert ArmedOk(w, token);
      if w.armed[token].job == j {
        ArmedOperationStays(w, j, c, token);
      }
      ArmedStays(w, j, c, token);
    }
  }

  lemma CallKeepsArmedDistinct(w: World, j: JobId, c: Call, a: Token, b: Token)
    requires Inv(w) && j in w.jobs && CallAllowed(w, j, c)
    requires a in Apply(w, OnJob(j, c)).armed && b in Apply(w, OnJob(j, c)).armed
    requires Apply(w, OnJob(j, c)).armed[a].op == Apply(w, OnJob(j, c)).armed[b].op
    ensures a == b
  {
    if a in w.armed { assert ArmedOk(w, a); }
    if b in w.armed { assert ArmedOk(w, b); }
    assert OperationOk(w, j);
  }

  /** A VM row loses its reference only to a cleanup whose contract says the VM is gone. */
  lemma CallKeepsReference(w: World, j: JobId, c: Call, op: Ref)
    requires Inv(w) && j in w.jobs && CallAllowed(w, j, c)
    requires op in w.clones && op in w.issued && w.clones[op].Made?
    requires var v := w.issued[op].podVmId; v in w.vms && w.vms[v].vcenterVmId == Some(w.clones[op].moref)
    ensures var v := w.issued[op].podVmId;
            v in Apply(w, OnJob(j, c)).vms && Apply(w, OnJob(j, c)).vms[v].vcenterVmId == Some(w.clones[op].moref)
  {
    var v := w.issued[op].podVmId;
    assert ExistsFor(w, w.issued[op].job, v, w.clones[op].moref);
    assert Exists(w, v, w.clones[op].moref);
  }

  /** An operation that still has a live clone leaves the payload only when something that stays names that clone. */
  lemma RemovalIsSafe(w: World, j: JobId, c: Call)
    requires Inv(w) && j in w.jobs && CallAllowed(w, j, c)
    requires w.jobs[j].payload.operation.Some? && After(w.jobs[j], c).payload.operation.None?
    requires var op := w.jobs[j].payload.operation.value.id; op in w.clones && Live(w.clones[op])
    ensures w.jobs[j].payload.operation.value.id in w.issued
    ensures NamedBy(w, w.jobs[j].payload.operation.value.id, Outstanding(After(w.jobs[j], c).payload))
  {
    OperationAfter(w.jobs[j], c);
    if c.RecordCleanup? {
      TakingAlongLeaves(w.jobs[j].payload, c.podVmId, c.moref);
    } else {
      LeavesIsOutstanding(w.jobs[j], c);
    }
  }

  /** What a target that stays or the VM row names is remembered after the call. */
  lemma NamedIsRemembered(w: World, j: JobId, c: Call, op: Ref)
    requires Inv(w) && j in w.jobs && CallAllowed(w, j, c)
    requires op in w.clones && op in w.issued && w.issued[op].job == j
    requires NamedBy(w, op, Outstanding(After(w.jobs[j], c).payload))
    ensures Remembered(Apply(w, OnJob(j, c)), op)
  {
    CallKeepsIssued(w, j, c);
    if RowNames(w, w.issued[op].podVmId, w.clones[op].moref) {
      CallKeepsReference(w, j, c, op);
    }
  }

  lemma CallKeepsOperationEvidence(w: World, j: JobId, c: Call, op: Ref)
    requires Inv(w) && j in w.jobs && CallAllowed(w, j, c)
    requires op in w.clones && op in w.issued && w.issued[op].job == j && Live(w.clones[op])
    requires HasOperation(w.jobs[j].payload, op) && w.jobs[j].payload.operation.value.phase != Prepared
    ensures Remembered(Apply(w, OnJob(j, c)), op)
  {
    CallKeepsIssued(w, j, c);
    OperationAfter(w.jobs[j], c);
    if After(w.jobs[j], c).payload.operation.None? {
      RemovalIsSafe(w, j, c);
      NamedIsRemembered(w, j, c, op);
    }
  }

  /** Each call that drops a target whose clone still exists leaves another name for it. */
  lemma DropIsSafe(w: World, j: JobId, c: Call, op: Ref, t: Target)
    requires Inv(w) && j in w.jobs && CallAllowed(w, j, c)
    requires op in w.clones && op in w.issued && w.issued[op].job == j && w.clones[op].Made?
    requires t in Outstanding(w.jobs[j].payload) && Names(t, w.issued[op].podVmId, w.clones[op].moref)
    requires t !in Outstanding(After(w.jobs[j], c).payload)
    ensures Remembered(Apply(w, OnJob(j, c)), op)
  {
    CallKeepsIssued(w, j, c);
    OutstandingAfter(w.jobs[j], c, t);
    assert ExistsFor(w, j, t.podVmId, t.vcenterVmId);
    assert Exists(w, t.podVmId, t.vcenterVmId);
    assert w.jobs[j].payload.target == Some(t);
    LeavesIsOutstanding(w.jobs[j], c);
    if NamedBy(w, op, Leaves(w.jobs[j].payload, c)) {
      NamedIsRemembered(w, j, c, op);
    } else {
      assert OperationOk(w, j);
    }
  }

  lemma CallKeepsTargetEvidence(w: World, j: JobId, c: Call, op: Ref, t: Target)
    requires Inv(w) && j in w.jobs && CallAllowed(w, j, c)
    requires op in w.clones && op in w.issued && w.issued[op].job == j && w.clones[op].Made?
    requires t in Outstanding(w.jobs[j].payload) && Names(t, w.issued[op].podVmId, w.clones[op].moref)
    ensures Remembered(Apply(w, OnJob(j, c)), op)
  {
    CallKeepsIssued(w, j, c);
    if t !in Outstanding(After(w.jobs[j], c).payload) {
      DropIsSafe(w, j, c, op, t);
    }
  }

  lemma CallKeepsClone(w: World, j: JobId, c: Call, op: Ref)
    requires Inv(w) && j in w.jobs && CallAllowed(w, j, c) && op in w.clones
    ensures CloneOk(Apply(w, OnJob(j, c)), op)
  {
    CallKeepsIssued(w, j, c);
    assert CloneOk(w, op);
    if Live(w.clones[op]) {
      var k, v := w.issued[op].job, w.issued[op].podVmId;
      var f := w.jobs[k].payload;
      if w.clones[op].Made? && RowNames(w, v, w.clones[op].moref) {
        CallKeepsReference(w, j, c, op);
      } else if k == j {
        if HasOperation(f, op) && f.operation.value.phase != Prepared {
          CallKeepsOperationEvidence(w, j, c, op);
        } else {
          var t :| t in Outstanding(f) && Names(t, v, w.clones[op].moref);
          CallKeepsTargetEvidence(w, j, c, op, t);
        }
      }
    }
  }

  lemma CallKeepsTokens(w: World, j: JobId, c: Call, k: JobId)
    requires Inv(w) && j in w.jobs && CallAllowed(w, j, c)
    requires var w' := Apply(w, OnJob(j, c)); k in w'.jobs && w'.jobs[k].claimedBy.Some?
    ensures var w' := Apply(w, OnJob(j, c)); w'.jobs[k].claimedBy.value in w'.used
  {
  }

  lemma CallKeepsClones(w: World, w': World, j: JobId, c: Call)
    requires Inv(w) && j in w.jobs && CallAllowed(w, j, c) && w' == Apply(w, OnJob(j, c))
    ensures w'.clones == w.clones && forall op :: op in w'.clones ==> CloneOk(w', op)
  {
    CallKeepsIssued(w, j, c);
    forall op | op in w'.clones ensures CloneOk(w', op) {
      CallKeepsClone(w, j, c, op);
    }
  }

  lemma CallKeepsOperations(w: World, w': World, j: JobId, c: Call)
    requires Inv(w) && j in w.jobs && CallAllowed(w, j, c) && w' == Apply(w, OnJob(j, c))
    ensures forall k :: k in w'.jobs ==> OperationOk(w', k)
  {
    CallKeepsIssued(w, j, c);
    forall k | k in w'.jobs ensures OperationOk(w', k) {
      if k == j { CallKeepsOperation(w, j, c); } else { CallKeepsOtherOperation(w, j, c, k); }
    }
  }

  lemma CallKeepsAllArmed(w: World, w': World, j: JobId, c: Call)
    requires Inv(w) && j in w.jobs && CallAllowed(w, j, c) && w' == Apply(w, OnJob(j, c))
    ensures forall token :: token in w'.armed ==> ArmedOk(w', token)
    ensures forall a, b :: a in w'.armed && b in w'.armed && w'.armed[a].op == w'.armed[b].op ==> a == b
  {
    forall token | token in w'.armed ensures ArmedOk(w', token) {
      CallKeepsArmed(w, j, c, token);
    }
    forall a, b | a in w'.armed && b in w'.armed && w'.armed[a].op == w'.armed[b].op ensures a == b {
      CallKeepsArmedDistinct(w, j, c, a, b);
    }
  }

  lemma CallKeepsInv(w: World, w': World, j: JobId, c: Call)
    requires Inv(w) && j in w.jobs && CallAllowed(w, j, c) && w' == Apply(w, OnJob(j, c))
    ensures Inv(w')
  {
    CallKeepsClones(w, w', j, c);
    CallKeepsOperations(w, w', j, c);
    CallKeepsAllArmed(w, w', j, c);
    forall k | k in w'.jobs && w'.jobs[k].claimedBy.Some? ensures w'.jobs[k].claimedBy.value in w'.used {
      CallKeepsTokens(w, j, c, k);
    }
  }

  // ---------------------------------------------------------------------------
  // vCenter, worker and enqueue steps
  // ---------------------------------------------------------------------------

  lemma SubmitKeepsInv(w: World, w': World, token: Token, op: Ref)
    requires Inv(w) && Allowed(w, Submit(token, op)) && w' == Apply(w, Submit(token, op))
    ensures Inv(w')
  {
    assert ArmedOk(w, token);
    var j := w.armed[token].job;
    assert OperationOk(w, j);
    forall o | o in w'.clones ensures CloneOk(w', o) {
      if o != op { assert CloneOk(w, o); }
    }
    forall k | k in w'.jobs ensures OperationOk(w', k) {
      assert OperationOk(w, k);
    }
    forall a | a in w'.armed ensures ArmedOk(w', a) {
      assert ArmedOk(w, a);
    }
  }

  /** vCenter resolves a clone it holds: any change of outcome that gives no VM a second owner. */
  lemma OutcomeKeepsInv(w: World, w': World, op: Ref, outcome: Outcome)
    requires Inv(w) && op in w.clones && w' == w.(clones := w.clones[op := outcome])
    requires outcome.Made? ==> w.clones[op].InFlight? && forall o | o in w.clones :: MorefOf(w.clones[o]) != Some(outcome.moref)
    requires outcome.Gone? ==> w.clones[op] == Made(outcome.moref)
    requires outcome.NoResource? ==> w.clones[op].InFlight?
    requires !outcome.InFlight?
    ensures Inv(w')
  {
    forall o | o in w'.clones ensures CloneOk(w', o) {
      assert CloneOk(w, o);
    }
    forall k | k in w'.jobs ensures OperationOk(w', k) {
      assert OperationOk(w, k);
    }
    forall a | a in w'.armed ensures ArmedOk(w', a) {
      assert ArmedOk(w, a);
    }
  }

  lemma CrashKeepsInv(w: World, w': World, token: Token)
    requires Inv(w) && w' == Apply(w, Crash(token))
    ensures Inv(w')
  {
    forall o | o in w'.clones ensures CloneOk(w', o) { assert CloneOk(w, o); }
    forall k | k in w'.jobs ensures OperationOk(w', k) { assert OperationOk(w, k); }
    forall a | a in w'.armed ensures ArmedOk(w', a) { assert ArmedOk(w, a); }
  }

  lemma EnqueueKeepsInv(w: World, w': World, j: JobId, kind: JobType)
    requires Inv(w) && j !in w.jobs && w' == Apply(w, Enqueue(j, kind))
    ensures Inv(w')
  {
    forall o | o in w'.clones ensures CloneOk(w', o) { assert CloneOk(w, o); }
    forall k | k in w'.jobs ensures OperationOk(w', k) {
      if k in w.jobs { assert OperationOk(w, k); }
    }
    forall a | a in w'.armed ensures ArmedOk(w', a) { assert ArmedOk(w, a); }
  }

  lemma ClearKeepsInv(w: World, w': World, podVmId: Ref, moref: Ref)
    requires Inv(w) && RowMayGo(w, podVmId, moref) && w' == Apply(w, ClearReference(podVmId, moref))
    ensures Inv(w')
  {
    forall o | o in w'.clones ensures CloneOk(w', o) { assert CloneOk(w, o); }
    forall k | k in w'.jobs ensures OperationOk(w', k) { assert OperationOk(w, k); }
    forall a | a in w'.armed ensures ArmedOk(w', a) { assert ArmedOk(w, a); }
  }

  lemma StepKeepsInv(w: World, s: Step)
    requires Inv(w) && Allowed(w, s)
    ensures Inv(Apply(w, s))
  {
    var w' := Apply(w, s);
    match s
    case OnJob(j, c) => CallKeepsInv(w, w', j, c);
    case Submit(token, op) => SubmitKeepsInv(w, w', token, op);
    case Materialise(op, moref) => OutcomeKeepsInv(w, w', op, Made(moref));
    case TaskFails(op) => OutcomeKeepsInv(w, w', op, NoResource);
    case DestroyClone(op) => OutcomeKeepsInv(w, w', op, Gone(w.clones[op].moref));
    case ClearReference(podVmId, moref) => ClearKeepsInv(w, w', podVmId, moref);
    case Enqueue(j, kind) => EnqueueKeepsInv(w, w', j, kind);
    case Crash(token) => CrashKeepsInv(w, w', token);
  }

  // ---------------------------------------------------------------------------
  // Runs
  // ---------------------------------------------------------------------------

  function Run(w: World, steps: seq<Step>): World
    decreases |steps|
  {
    if steps == [] then w else Run(Apply(w, steps[0]), steps[1..])
  }

  /** Every caller along the run respects its contract; crashes and lease losses may fall anywhere. */
  ghost predicate Obeys(w: World, steps: seq<Step>)
    decreases |steps|
  {
    steps == [] || (Allowed(w, steps[0]) && Obeys(Apply(w, steps[0]), steps[1..]))
  }

  lemma {:induction false} RunKeepsInv(w: World, steps: seq<Step>)
    requires Inv(w) && Obeys(w, steps)
    ensures Inv(Run(w, steps))
    decreases |steps|
  {
    if steps != [] {
      StepKeepsInv(w, steps[0]);
      RunKeepsInv(Apply(w, steps[0]), steps[1..]);
    }
  }

  /** The database as it is before the first job. */
  const EmptyWorld := World(map[], map[], map[], map[], map[], {})

  /** In every run from any set of VM rows, every submitted clone stays named until it is destroyed. */
  lemma NoCloneIsForgotten(vms: map<Ref, VmRow>, steps: seq<Step>)
    requires Obeys(EmptyWorld.(vms := vms), steps)
    ensures NoCloneForgotten(Run(EmptyWorld.(vms := vms), steps))
  {
    var w := Run(EmptyWorld.(vms := vms), steps);
    RunKeepsInv(EmptyWorld.(vms := vms), steps);
    InvRemembers(w);
  }

  // ---------------------------------------------------------------------------
  // The contracts are exact
  // ---------------------------------------------------------------------------

  /**
   Stage and a targeted retry overwrite the primary silently; abandon, close,
   finish-standalone and disarm drop the operation. Each keeps every clone named if
   and only if its contract holds.
  */
  lemma DropExactly(w: World, j: JobId, c: Call)
    requires Inv(w) && j in w.jobs && (Overwrites(c) || DropsOperation(c)) && After(w.jobs[j], c) != w.jobs[j]
    ensures NoCloneForgotten(Apply(w, OnJob(j, c))) <==> MayDrop(w, j, c)
  {
    var w' := Apply(w, OnJob(j, c));
    var f := w.jobs[j].payload;
    if MayDrop(w, j, c) {
      CallKeepsInv(w, w', j, c);
      InvRemembers(w');
    } else {
      LeavesIsOutstanding(w.jobs[j], c);
      DropFrame(w, j, c);
      assert OperationOk(w, j);
      if DropsOperation(c) && !OperationMayGo(w, j, Leaves(f, c)) {
        UnnamedIsForgotten(w, w', j, f.operation.value.id);
      } else {
        var stays := Overwrites(c);
        var op :| op in w.clones && op in w.issued && w.issued[op] == Issue(j, f.target.value.podVmId)
          && w.clones[op] == Made(f.target.value.vcenterVmId)
          && !NamedBy(w, op, Leaves(f, c)) && !(stays && HasOperation(f, op));
        UnnamedIsForgotten(w, w', j, op);
      }
    }
  }

  /** Such a call touches nothing but its own row. */
  lemma DropFrame(w: World, j: JobId, c: Call)
    requires j in w.jobs && (Overwrites(c) || DropsOperation(c)) && After(w.jobs[j], c) != w.jobs[j]
    ensures var w' := Apply(w, OnJob(j, c));
            w'.issued == w.issued && w'.clones == w.clones && w'.vms == w.vms && w'.jobs == w.jobs[j := After(w.jobs[j], c)]
  {
    LeavesIsOutstanding(w.jobs[j], c);
    var w' := Apply(w, OnJob(j, c));
    assert forall v | v in w.vms :: w'.vms[v] == w.vms[v];
  }

  /** A live clone that nothing in the new payload names, and whose row does not, is forgotten. */
  lemma UnnamedIsForgotten(w: World, w': World, j: JobId, op: Ref)
    requires op in w.clones && op in w.issued && w.issued[op].job == j && Live(w.clones[op])
    requires w'.issued == w.issued && w'.clones == w.clones && j in w'.jobs
    requires forall v, m :: RowNames(w', v, m) ==> RowNames(w, v, m)
    requires !NamedBy(w, op, Outstanding(w'.jobs[j].payload)) && !HasOperation(w'.jobs[j].payload, op)
    ensures !NoCloneForgotten(w')
  {
    assert !Remembered(w', op);
  }

  lemma InvRemembers(w: World)
    requires Inv(w)
    ensures NoCloneForgotten(w)
  {
    forall op | op in w.clones ensures CloneOk(w, op) {}
  }

  /**
   Recording the cleanup of a VM that is gone deletes the stored operation for the
   same pod VM, whoever minted it. All clones stay named, now and after any
   submission that may follow at once, if and only if the operation taken along is
   not the last name of a live clone and is not armed by the job's owner.
  */
  lemma RecordExactly(w: World, j: JobId, podVmId: Ref, moref: Ref)
    requires Inv(w) && j in w.jobs && !Exists(w, podVmId, moref)
    ensures var w' := Apply(w, OnJob(j, RecordCleanup(podVmId, moref)));
            MayTakeAlong(w, j, podVmId, moref) <==>
              && NoCloneForgotten(w')
              && forall token, op :: Allowed(w', Submit(token, op)) ==> NoCloneForgotten(Apply(w', Submit(token, op)))
  {
    var c := RecordCleanup(podVmId, moref);
    var w' := Apply(w, OnJob(j, c));
    if MayTakeAlong(w, j, podVmId, moref) {
      CallKeepsInv(w, w', j, c);
      InvRemembers(w');
      forall token, op | Allowed(w', Submit(token, op)) ensures NoCloneForgotten(Apply(w', Submit(token, op))) {
        StepKeepsInv(w', Submit(token, op));
        InvRemembers(Apply(w', Submit(token, op)));
      }
    } else {
      UnsafeRecordForgets(w, j, podVmId, moref);
    }
  }

  lemma UnsafeRecordForgets(w: World, j: JobId, podVmId: Ref, moref: Ref)
    requires Inv(w) && j in w.jobs && !MayTakeAlong(w, j, podVmId, moref)
    ensures var w' := Apply(w, OnJob(j, RecordCleanup(podVmId, moref)));
            || !NoCloneForgotten(w')
            || exists token, op :: Allowed(w', Submit(token, op)) && !NoCloneForgotten(Apply(w', Submit(token, op)))
  {
    var f := w.jobs[j].payload;
    var op := f.operation.value.id;
    var w' := Apply(w, OnJob(j, RecordCleanup(podVmId, moref)));
    var ts := Without(Outstanding(f), FindTarget(f, podVmId, moref).value.target);
    TakingAlongLeaves(f, podVmId, moref);
    RecordFrame(w, j, podVmId, moref);
    assert OperationOk(w, j);
    if !OperationMayGo(w, j, ts) {
      UnnamedIsForgotten(w, w', j, op);
    } else {
      var token :| token in w.armed && w.armed[token] == ArmedFor(j, op) && Owns(w.jobs[j], token);
      assert ArmedOk(w, token);
      SubmitForgets(w', j, token, op);
    }
  }

  /** Recording a cleanup leaves identities, clones, claims and arming alone, and sets no reference. */
  lemma RecordFrame(w: World, j: JobId, podVmId: Ref, moref: Ref)
    requires j in w.jobs && TakesAlong(w.jobs[j].payload, podVmId, moref)
    ensures var w' := Apply(w, OnJob(j, RecordCleanup(podVmId, moref)));
            && w'.issued == w.issued && w'.clones == w.clones && w'.armed == w.armed
            && w'.jobs == w.jobs[j := w.jobs[j].(payload := RecordDestroyed(w.jobs[j].payload, podVmId, moref).value)]
            && forall v, m :: RowNames(w', v, m) ==> RowNames(w, v, m)
  {
    TakingAlongLeaves(w.jobs[j].payload, podVmId, moref);
  }

  lemma SubmitForgets(w: World, j: JobId, token: Token, op: Ref)
    requires j in w.jobs && token in w.armed && w.armed[token] == ArmedFor(j, op) && Owns(w.jobs[j], token)
    requires op in w.issued && w.issued[op].job == j && !HasOperation(w.jobs[j].payload, op)
    ensures Allowed(w, Submit(token, op)) && !NoCloneForgotten(Apply(w, Submit(token, op)))
  {
    var w' := Apply(w, Submit(token, op));
    assert op in w'.clones && Live(w'.clones[op]) && !Remembered(w', op);
  }

  /** What a caller can tell from the job row alone: it overwrites nothing, or records without taking an operation along. */
  predicate SafeByRow(f: Fields, c: Call) {
    || (Overwrites(c) && (f.target.None? || f.target == Some(Added(c)[0])))
    || (c.RecordCleanup? && !(f.operation.Some? && f.operation.value.scope.podVmId == c.podVmId))
    || (DropsOperation(c) && f.operation.None? && f.target.None?)
  }

  lemma RowMeetsContract(w: World, j: JobId, c: Call)
    requires j in w.jobs && SafeByRow(w.jobs[j].payload, c) && (c.RecordCleanup? ==> !Exists(w, c.podVmId, c.moref))
    ensures CallAllowed(w, j, c)
  {
    var f, ts := w.jobs[j].payload, Leaves(w.jobs[j].payload, c);
    if Overwrites(c) && f.target.Some? {
      assert ts[0] == f.target.value && f.target.value in ts;
      forall op | op in w.clones && op in w.issued && w.issued[op] == Issue(j, f.target.value.podVmId)
                  && w.clones[op] == Made(f.target.value.vcenterVmId)
        ensures NamedBy(w, op, ts)
      {
        assert Names(f.target.value, w.issued[op].podVmId, w.clones[op].moref);
      }
    }
  }

  /** Then every clone stays named, whatever vCenter did meanwhile. */
  lemma RowSuffices(w: World, j: JobId, c: Call)
    requires Inv(w) && j in w.jobs && SafeByRow(w.jobs[j].payload, c)
    requires c.RecordCleanup? ==> !Exists(w, c.podVmId, c.moref)
    ensures CallAllowed(w, j, c) && NoCloneForgotten(Apply(w, OnJob(j, c)))
  {
    RowMeetsContract(w, j, c);
    CallKeepsInv(w, Apply(w, OnJob(j, c)), j, c);
    InvRemembers(Apply(w, OnJob(j, c)));
  }

  /** Clearing an adopted row's reference keeps every clone named exactly under its contract. */
  lemma ClearExactly(w: World, podVmId: Ref, moref: Ref)
    requires Inv(w) && RowNames(w, podVmId, moref)
    ensures NoCloneForgotten(Apply(w, ClearReference(podVmId, moref))) <==> RowMayGo(w, podVmId, moref)
  {
    var w' := Apply(w, ClearReference(podVmId, moref));
    if RowMayGo(w, podVmId, moref) {
      ClearKeepsInv(w, w', podVmId, moref);
      InvRemembers(w');
    } else {
      var op :| op in w.clones && op in w.issued && w.issued[op].podVmId == podVmId && w.clones[op] == Made(moref)
        && !(w.issued[op].job in w.jobs && NamedInPayload(w, op));
      assert CloneOk(w, op);
      assert !Remembered(w', op);
    }
  }
}
