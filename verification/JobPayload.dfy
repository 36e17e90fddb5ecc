/**
 The clone bookkeeping fields of a job's JSON payload, and the functions that
 move an exact clone between them: outstanding (the primary cleanup target and
 the handoff list) and destroyed.

 A JSON key that may be absent is an `Option`; `Some([])` is the key holding an
 empty array, which the completion rule in `CompleteVMCloneOperationWithoutResource`
 tells apart from an absent key.
*/
module JobPayload {
  import opened Wrappers

  /** Identifiers are compared, never inspected, so they are numbered; EMPTY is the empty string. */
  type Ref = nat

  const EMPTY: Ref := 0

  datatype Target = Target(podId: Ref, podVmId: Ref, vcenterVmId: Ref)

  datatype Phase = Prepared | Submitting | Submitted

  /** Identity that a later candidate must match before it may resume an operation. */
  datatype Scope = Scope(podId: Ref, podVmId: Ref, targetName: Ref, sourceRef: Ref, templateId: Ref)

  /** `placed` says that the immutable host, pool, compute and DRS identity is complete. */
  datatype CloneOperation = CloneOperation(id: Ref, scope: Scope, placed: bool, taskRef: Ref, phase: Phase)

  datatype Fields = Fields(
    target: Option<Target>,
    handoffs: Option<seq<Target>>,
    destroyed: Option<seq<Target>>,
    cleanupOnly: bool,
    cleanupCompleted: bool,
    operation: Option<CloneOperation>)

  datatype PayloadError = Incomplete | NoExactTarget | ProofChanged

  predicate Complete(t: Target) {
    t.podId != EMPTY && t.podVmId != EMPTY && t.vcenterVmId != EMPTY
  }

  predicate AllComplete(ts: seq<Target>) {
    forall t | t in ts :: Complete(t)
  }

  function List(ts: Option<seq<Target>>): seq<Target> {
    if ts.Some? then ts.value else []
  }

  function Pack(ts: seq<Target>): Option<seq<Target>> {
    if ts == [] then None else Some(ts)
  }

  function Primary(f: Fields): seq<Target> {
    if f.target.Some? then [f.target.value] else []
  }

  /** Everything still to be destroyed, in the order a cleanup worker visits it. */
  function Outstanding(f: Fields): seq<Target> {
    Primary(f) + List(f.handoffs)
  }

  function Destroyed(f: Fields): seq<Target> {
    List(f.destroyed)
  }

  function Without(ts: seq<Target>, t: Target): seq<Target> {
    if ts == [] then []
    else (if ts[0] == t then [] else [ts[0]]) + Without(ts[1..], t)
  }

  ghost predicate NoDup<T>(s: seq<T>) {
    forall i, j :: 0 <= i < j < |s| ==> s[i] != s[j]
  }

  /** Nothing is both outstanding and destroyed. */
  ghost predicate Apart(f: Fields) {
    forall t | t in Outstanding(f) :: t !in Destroyed(f)
  }

  /** What every payload written by these functions satisfies. */
  ghost predicate TargetsOk(f: Fields) {
    && NoDup(Outstanding(f))
    && NoDup(Destroyed(f))
    && Apart(f)
    && (List(f.handoffs) != [] ==> f.target.Some?)
    && (f.cleanupCompleted ==> Outstanding(f) == [])
    && AllComplete(Outstanding(f)) && AllComplete(Destroyed(f))
  }

  // ---------------------------------------------------------------------------
  // The payload functions
  // ---------------------------------------------------------------------------

  function Arm(f: Fields): Fields {
    f.(cleanupOnly := true, cleanupCompleted := false)
  }

  /** `prepareVMCloneDestructionPayload`; the flag says the target was already destroyed. */
  function PrepareDestruction(f: Fields, t: Target): Result<(Fields, bool), PayloadError> {
    if !Complete(t) || !AllComplete(Destroyed(f)) then Err(Incomplete)
    else if t in Destroyed(f) then Ok((f, true))
    else if f.target.None? then Ok((Arm(f.(target := Some(t))), false))
    else if f.target.value == t then Ok((Arm(f), false))
    else if !AllComplete(List(f.handoffs)) then Err(Incomplete)
    else if t in List(f.handoffs) then Ok((Arm(f), false))
    else Ok((Arm(f.(handoffs := Some(List(f.handoffs) + [t]))), false))
  }

  /** Drops `t` from the outstanding fields, promoting the first handoff to an empty primary. */
  function Settle(f: Fields, t: Target): Fields {
    var target := if f.target == Some(t) then None else f.target;
    var remaining := Without(List(f.handoffs), t);
    if target.None? && remaining != [] then f.(target := Some(remaining[0]), handoffs := Pack(remaining[1..]))
    else f.(target := target, handoffs := Pack(remaining))
  }

  function DropOperation(f: Fields, podVmId: Ref): Fields {
    if f.operation.Some? && f.operation.value.scope.podVmId == podVmId then f.(operation := None) else f
  }

  /** `completeVMCloneDestructionPayload`; the flag says the proof was already recorded. */
  function CompleteDestruction(f: Fields, t: Target): Result<(Fields, bool), PayloadError> {
    if !Complete(t) || !AllComplete(Destroyed(f)) then Err(Incomplete)
    else if t in Destroyed(f) then Ok((f, true))
    else if !AllComplete(List(f.handoffs)) then Err(Incomplete)
    else
      var g := DropOperation(Settle(f.(destroyed := Some(Destroyed(f) + [t])), t), t.podVmId);
      Ok((g.(cleanupOnly := true, cleanupCompleted := g.target.None? && g.handoffs.None?), false))
  }

  predicate Names(t: Target, podVmId: Ref, moref: Ref) {
    t.podVmId == podVmId && t.vcenterVmId == moref
  }

  function FirstNamed(ts: seq<Target>, podVmId: Ref, moref: Ref): (r: Option<Target>)
    ensures r.Some? ==> r.value in ts && Names(r.value, podVmId, moref)
    ensures r.None? ==> forall t | t in ts :: !Names(t, podVmId, moref)
  {
    if ts == [] then None
    else if Names(ts[0], podVmId, moref) then Some(ts[0])
    else FirstNamed(ts[1..], podVmId, moref)
  }

  datatype Found = Staged(target: Target) | Recorded(target: Target) | Absent

  /** `findVMCloneCleanupTarget`. */
  function FindTarget(f: Fields, podVmId: Ref, moref: Ref): Result<Found, PayloadError> {
    if f.target.Some? && !Complete(f.target.value) then Err(Incomplete)
    else if f.target.Some? && Names(f.target.value, podVmId, moref) then Ok(Staged(f.target.value))
    else if !AllComplete(List(f.handoffs)) then Err(Incomplete)
    else
      var handoff := FirstNamed(List(f.handoffs), podVmId, moref);
      if handoff.Some? then Ok(Staged(handoff.value))
      else if !AllComplete(Destroyed(f)) then Err(Incomplete)
      else
        var destroyed := FirstNamed(Destroyed(f), podVmId, moref);
        Ok(if destroyed.Some? then Recorded(destroyed.value) else Absent)
  }

  /** The payload half of `CompleteVMCloneCleanup`, with its three refusals. */
  function RecordDestroyed(f: Fields, podVmId: Ref, moref: Ref): Result<Fields, PayloadError> {
    match FindTarget(f, podVmId, moref)
    case Err(e) => Err(e)
    case Ok(Absent) => Err(NoExactTarget)
    case Ok(found) =>
      match CompleteDestruction(f, found.target)
      case Err(e) => Err(e)
      case Ok((g, already)) => if already != found.Recorded? then Err(ProofChanged) else Ok(g)
  }

  /** The payload half of `StageVMCloneCleanup`: overwrite the primary unless it was destroyed. */
  function Stage(f: Fields, t: Target): Option<Fields> {
    if t in Destroyed(f) then None else Some(Arm(f.(target := Some(t))))
  }

  /** The payload half of `RetryJob`. Its target branch does not look at the destroyed list. */
  function Retry(f: Fields, cleanupOnly: bool, t: Option<Target>): Fields {
    if cleanupOnly && t.Some? then Arm(f.(target := t))
    else if cleanupOnly then f.(cleanupOnly := true)
    else f.(cleanupOnly := false, cleanupCompleted := false)
  }
}
