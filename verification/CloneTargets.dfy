/**
 Conservation of cleanup targets: each payload call moves exactly the target it
 names, whole runs lose nothing, and the only way to reach the "proof changed"
 refusal is to make a destroyed target outstanding again.
*/
module CloneTargets {
  import opened Wrappers
  import opened JobPayload

  lemma {:induction false} WithoutMembers(ts: seq<Target>, t: Target)
    ensures forall x :: x in Without(ts, t) <==> x in ts && x != t
    ensures t !in ts ==> Without(ts, t) == ts
  {
    if ts != [] {
      WithoutMembers(ts[1..], t);
      assert ts == [ts[0]] + ts[1..];
    }
  }

  lemma {:induction false} WithoutNoDup(ts: seq<Target>, t: Target)
    requires NoDup(ts)
    ensures NoDup(Without(ts, t))
  {
    if ts != [] {
      WithoutMembers(ts[1..], t);
      assert ts[0] !in ts[1..];
      WithoutNoDup(ts[1..], t);
    }
  }

  lemma WithoutCons(x: Target, ts: seq<Target>, t: Target)
    ensures Without([x] + ts, t) == (if x == t then [] else [x]) + Without(ts, t)
  {
    assert ([x] + ts)[1..] == ts;
  }

  /** The filter: what stays of the primary, then what stays of the handoffs. */
  lemma FilteredOutstanding(f: Fields, t: Target)
    ensures Without(Outstanding(f), t)
         == (if f.target.Some? && f.target.value != t then [f.target.value] else []) + Without(List(f.handoffs), t)
  {
    if f.target.Some? {
      WithoutCons(f.target.value, List(f.handoffs), t);
    } else {
      assert Outstanding(f) == List(f.handoffs);
    }
  }

  /** The promotion: an empty primary takes the first remaining handoff and the order stays. */
  lemma PromotionKeepsOrder(target: Option<Target>, rest: seq<Target>, f: Fields)
    requires f == (if target.None? && rest != [] then f.(target := Some(rest[0]), handoffs := Pack(rest[1..]))
                   else f.(target := target, handoffs := Pack(rest)))
    ensures Outstanding(f) == (if target.Some? then [target.value] else []) + rest
    ensures f.handoffs != Some([]) && (List(f.handoffs) != [] ==> f.target.Some?)
  {
    if rest != [] {
      assert rest == [rest[0]] + rest[1..];
    }
  }

  /** Completing removes the named target and nothing else, and keeps the visiting order. */
  lemma SettleRemovesExactly(f: Fields, t: Target)
    ensures Outstanding(Settle(f, t)) == Without(Outstanding(f), t)
    ensures List(Settle(f, t).handoffs) != [] ==> Settle(f, t).target.Some?
    ensures Settle(f, t).handoffs != Some([])
  {
    FilteredOutstanding(f, t);
    PromotionKeepsOrder(if f.target == Some(t) then None else f.target, Without(List(f.handoffs), t), Settle(f, t));
  }

  lemma PrepareKeeps(f: Fields, t: Target)
    requires TargetsOk(f) && Complete(t)
    ensures PrepareDestruction(f, t).Ok?
    ensures var (g, already) := PrepareDestruction(f, t).value;
            && TargetsOk(g)
            && already == (t in Destroyed(f))
            && Destroyed(g) == Destroyed(f)
            && g.operation == f.operation
            && Outstanding(g) == (if already || t in Outstanding(f) then Outstanding(f) else Outstanding(f) + [t])
            && (!already ==> g.cleanupOnly && !g.cleanupCompleted)
  {
    var (g, already) := PrepareDestruction(f, t).value;
    assert forall h | h in List(f.handoffs) :: h in Outstanding(f);
    if !already && f.target.Some? && t !in Outstanding(f) {
      assert f.target.value in Outstanding(f);
      assert Outstanding(g) == Outstanding(f) + [t];
    }
  }

  lemma AppendNoDup(ts: seq<Target>, t: Target)
    requires NoDup(ts) && t !in ts
    ensures NoDup(ts + [t])
  {
  }

  lemma AppendComplete(ts: seq<Target>, t: Target)
    requires AllComplete(ts) && Complete(t)
    ensures AllComplete(ts + [t])
  {
  }

  /** After the removal nothing is both outstanding and destroyed, and no target became incomplete. */
  lemma RemovalKeepsApart(before: seq<Target>, destroyed: seq<Target>, t: Target)
    requires AllComplete(before) && forall u | u in before :: u !in destroyed
    ensures AllComplete(Without(before, t)) && forall u | u in Without(before, t) :: u !in destroyed + [t]
  {
    WithoutMembers(before, t);
  }

  lemma RemovalKeepsInv(f: Fields, t: Target, g: Fields)
    requires TargetsOk(f) && Complete(t) && t !in Destroyed(f)
    requires Outstanding(g) == Without(Outstanding(f), t)
    requires Destroyed(g) == Destroyed(f) + [t]
    requires List(g.handoffs) != [] ==> g.target.Some?
    requires g.cleanupCompleted ==> Outstanding(g) == []
    ensures TargetsOk(g)
  {
    WithoutNoDup(Outstanding(f), t);
    AppendNoDup(Destroyed(f), t);
    AppendComplete(Destroyed(f), t);
    RemovalKeepsApart(Outstanding(f), Destroyed(f), t);
  }

  /** The payload a first completion writes, before the flags and the operation. */
  lemma SettledFirst(f: Fields, t: Target)
    ensures var settled := Settle(f.(destroyed := Some(Destroyed(f) + [t])), t);
            && Outstanding(settled) == Without(Outstanding(f), t)
            && Destroyed(settled) == Destroyed(f) + [t]
            && (List(settled.handoffs) != [] ==> settled.target.Some?)
            && (settled.target.None? && settled.handoffs.None? <==> Outstanding(settled) == [])
            && settled.operation == f.operation
  {
    var recorded := f.(destroyed := Some(Destroyed(f) + [t]));
    assert Outstanding(recorded) == Outstanding(f);
    SettleRemovesExactly(recorded, t);
  }

  /** A first completion, on any readable payload. */
  lemma FirstCompletion(f: Fields, t: Target)
    requires Complete(t) && AllComplete(Destroyed(f)) && AllComplete(List(f.handoffs)) && t !in Destroyed(f)
    ensures CompleteDestruction(f, t).Ok?
    ensures var (g, already) := CompleteDestruction(f, t).value;
            && !already
            && Outstanding(g) == Without(Outstanding(f), t)
            && Destroyed(g) == Destroyed(f) + [t]
            && (List(g.handoffs) != [] ==> g.target.Some?)
            && g.cleanupOnly && (g.cleanupCompleted <==> Outstanding(g) == [])
            && (g.operation == f.operation || (g.operation.None? && f.operation.value.scope.podVmId == t.podVmId))
  {
    SettledFirst(f, t);
    var settled, g := Settle(f.(destroyed := Some(Destroyed(f) + [t])), t), CompleteDestruction(f, t).value.0;
    assert g.target == settled.target && g.handoffs == settled.handoffs && g.destroyed == settled.destroyed;
  }

  lemma CompleteKeeps(f: Fields, t: Target)
    requires TargetsOk(f) && Complete(t)
    ensures CompleteDestruction(f, t).Ok?
    ensures var (g, already) := CompleteDestruction(f, t).value;
            && TargetsOk(g)
            && already == (t in Destroyed(f))
            && Outstanding(g) == Without(Outstanding(f), t)
            && Destroyed(g) == (if already then Destroyed(f) else Destroyed(f) + [t])
            && (already ==> g == f)
            && (!already ==> g.cleanupOnly && (g.cleanupCompleted <==> Outstanding(g) == []))
  {
    if t in Destroyed(f) {
      WithoutMembers(Outstanding(f), t);
    } else {
      assert forall h | h in List(f.handoffs) :: h in Outstanding(f);
      FirstCompletion(f, t);
      RemovalKeepsInv(f, t, CompleteDestruction(f, t).value.0);
    }
  }

  lemma CompleteIsIdempotent(f: Fields, t: Target)
    requires TargetsOk(f) && Complete(t)
    ensures CompleteDestruction(CompleteDestruction(f, t).value.0, t)
         == Ok((CompleteDestruction(f, t).value.0, true))
  {
    CompleteKeeps(f, t);
  }

  // ---------------------------------------------------------------------------
  // Whole runs
  // ---------------------------------------------------------------------------

  datatype Call = Prepare(target: Target) | Destroy(target: Target)

  /** A refused call leaves the stored payload alone. */
  function Apply(f: Fields, c: Call): Fields {
    var r := if c.Prepare? then PrepareDestruction(f, c.target) else CompleteDestruction(f, c.target);
    if r.Ok? then r.value.0 else f
  }

  function Run(f: Fields, calls: seq<Call>): Fields
    decreases |calls|
  {
    if calls == [] then f else Run(Apply(f, calls[0]), calls[1..])
  }

  predicate Named(calls: seq<Call>, t: Target) {
    Complete(t) && (Prepare(t) in calls || Destroy(t) in calls)
  }

  predicate Completed(calls: seq<Call>, t: Target) {
    Complete(t) && Destroy(t) in calls
  }

  /** One call moves the target it names and no other. */
  lemma ApplyConserves(f: Fields, c: Call, t: Target)
    requires TargetsOk(f)
    ensures TargetsOk(Apply(f, c))
    ensures t in Destroyed(Apply(f, c)) <==> t in Destroyed(f) || Completed([c], t)
    ensures t in Outstanding(Apply(f, c))
      <==> (t in Outstanding(f) || Named([c], t)) && t !in Destroyed(Apply(f, c))
  {
    if Complete(c.target) {
      if c.Prepare? {
        PrepareKeeps(f, c.target);
      } else {
        CompleteKeeps(f, c.target);
        WithoutMembers(Outstanding(f), c.target);
      }
    }
  }

  lemma CallsSplit(calls: seq<Call>, t: Target)
    requires calls != []
    ensures Completed(calls, t) <==> Completed([calls[0]], t) || Completed(calls[1..], t)
    ensures Named(calls, t) <==> Named([calls[0]], t) || Named(calls[1..], t)
  {
    assert calls == [calls[0]] + calls[1..];
  }

  /**
   Over any run of prepare and complete calls the invariant holds, a target is
   destroyed exactly when it was before or some call completed it, and a target
   that was ever named never disappears: it is outstanding until it is destroyed.
  */
  lemma {:induction false} RunConserves(f: Fields, calls: seq<Call>, t: Target)
    requires TargetsOk(f)
    ensures TargetsOk(Run(f, calls))
    ensures t in Destroyed(Run(f, calls)) <==> t in Destroyed(f) || Completed(calls, t)
    ensures t in Outstanding(Run(f, calls))
      <==> (t in Outstanding(f) || Named(calls, t)) && t !in Destroyed(Run(f, calls))
    decreases |calls|
  {
    if calls != [] {
      ApplyConserves(f, calls[0], t);
      RunConserves(Apply(f, calls[0]), calls[1..], t);
      CallsSplit(calls, t);
    }
  }

  function Destroys(ts: seq<Target>): seq<Call> {
    seq(|ts|, i requires 0 <= i < |ts| => Destroy(ts[i]))
  }

  lemma CompletingKeepsFlagExact(f: Fields, t: Target)
    requires TargetsOk(f) && Complete(t) && (f.cleanupCompleted <==> Outstanding(f) == [])
    ensures TargetsOk(Apply(f, Destroy(t)))
    ensures Apply(f, Destroy(t)).cleanupCompleted <==> Outstanding(Apply(f, Destroy(t))) == []
  {
    CompleteKeeps(f, t);
  }

  lemma {:induction false} FlagIsExact(f: Fields, ts: seq<Target>)
    requires TargetsOk(f) && AllComplete(ts)
    requires f.cleanupCompleted <==> Outstanding(f) == []
    ensures TargetsOk(Run(f, Destroys(ts)))
    ensures Run(f, Destroys(ts)).cleanupCompleted <==> Outstanding(Run(f, Destroys(ts))) == []
    decreases |ts|
  {
    if ts != [] {
      CompletingKeepsFlagExact(f, ts[0]);
      assert Destroys(ts)[1..] == Destroys(ts[1..]);
      FlagIsExact(Apply(f, Destroy(ts[0])), ts[1..]);
    }
  }

  /**
   Completing targets in any order, with repeats and strangers, sets
   `cleanup_completed` exactly when every outstanding target was among them.
  */
  lemma CompletingInAnyOrder(f: Fields, ts: seq<Target>)
    requires TargetsOk(f) && AllComplete(ts) && Outstanding(f) != []
    ensures Run(f, Destroys(ts)).cleanupCompleted <==> forall t | t in Outstanding(f) :: t in ts
  {
    var calls := Destroys(ts);
    var left := Outstanding(Run(f, calls));
    FlagIsExact(f, ts);
    forall t ensures t in left <==> t in Outstanding(f) && t !in ts {
      RunConserves(f, calls, t);
      if t in ts {
        var i :| 0 <= i < |ts| && ts[i] == t;
        assert calls[i] == Destroy(t);
      }
    }
    assert left != [] ==> left[0] in left;
  }

  // ---------------------------------------------------------------------------
  // The "proof changed" refusal
  // ---------------------------------------------------------------------------

  /** The first outstanding target carrying this VM and reference, if any. */
  function Claimant(f: Fields, podVmId: Ref, moref: Ref): Option<Target> {
    FirstNamed(Outstanding(f), podVmId, moref)
  }

  /** For every readable payload: refused exactly when the outstanding match is also destroyed. */
  lemma ProofChangedExactly(f: Fields, podVmId: Ref, moref: Ref)
    requires AllComplete(Outstanding(f)) && AllComplete(Destroyed(f))
    ensures RecordDestroyed(f, podVmId, moref) == Err(ProofChanged)
      <==> Claimant(f, podVmId, moref).Some? && Claimant(f, podVmId, moref).value in Destroyed(f)
  {
    assert forall h | h in List(f.handoffs) :: h in Outstanding(f);
    if f.target.Some? {
      assert Outstanding(f)[0] == f.target.value && Outstanding(f)[1..] == List(f.handoffs);
      assert f.target.value in Outstanding(f);
    } else {
      assert Outstanding(f) == List(f.handoffs);
    }
  }

  lemma ApartNeverRefuses(f: Fields, podVmId: Ref, moref: Ref)
    requires TargetsOk(f)
    ensures RecordDestroyed(f, podVmId, moref) != Err(ProofChanged)
  {
    ProofChangedExactly(f, podVmId, moref);
  }

  /** No run of prepare and complete calls can reach the refusal. */
  lemma ProofNeverChanges(f: Fields, calls: seq<Call>, podVmId: Ref, moref: Ref)
    requires TargetsOk(f)
    ensures RecordDestroyed(Run(f, calls), podVmId, moref) != Err(ProofChanged)
  {
    RunConserves(f, calls, Target(podVmId, podVmId, moref));
    ApartNeverRefuses(Run(f, calls), podVmId, moref);
  }

  /** Staging keeps outstanding and destroyed apart, whatever it overwrites. */
  lemma StageKeepsApart(f: Fields, t: Target)
    requires Apart(f)
    ensures Stage(f, t).None? <==> t in Destroyed(f)
    ensures Stage(f, t).Some? ==>
              && t in Outstanding(Stage(f, t).value)
              && Apart(Stage(f, t).value)
  {
    if Stage(f, t).Some? {
      var g := Stage(f, t).value;
      assert Outstanding(g)[0] == t;
      assert forall x | x in Outstanding(g) :: x == t || x in Outstanding(f);
    }
  }

  /**
   Rescheduling with a cleanup target skips the destroyed check: the next attempt to
   record that target is refused exactly when it had been destroyed before.
  */
  lemma RetryReopensDestroyed(f: Fields, t: Target)
    requires TargetsOk(f) && Complete(t)
    ensures RecordDestroyed(Retry(f, true, Some(t)), t.podVmId, t.vcenterVmId) == Err(ProofChanged)
      <==> t in Destroyed(f)
  {
    var g := Retry(f, true, Some(t));
    assert Outstanding(g)[0] == t;
    assert forall h | h in List(f.handoffs) :: h in Outstanding(f);
    assert AllComplete(Outstanding(g));
    ProofChangedExactly(g, t.podVmId, t.vcenterVmId);
  }

  /** The shortest such history: destroy, lose the reply, reschedule with the same target. */
  lemma AmbiguousReplyStrandsCleanup()
    ensures var t := Target(1, 2, 3);
            var start := Fields(Some(t), None, None, true, false, None);
            && TargetsOk(start)
            && RecordDestroyed(start, 2, 3).Ok?
            && RecordDestroyed(Retry(RecordDestroyed(start, 2, 3).value, true, Some(t)), 2, 3)
               == Err(ProofChanged)
  {
    var t := Target(1, 2, 3);
    var start := Fields(Some(t), None, None, true, false, None);
    assert Outstanding(start) == [t] && Destroyed(start) == [];
    CompleteKeeps(start, t);
    ProofChangedExactly(start, 2, 3);
    var done := CompleteDestruction(start, t).value.0;
    assert RecordDestroyed(start, 2, 3) == Ok(done);
    RetryReopensDestroyed(done, t);
  }
}
