/**
 The payload functions as the loops that compute them: linear searches, the
 completeness scan, and the filter that compacts the handoff slice in place.
*/
module PayloadCode {
  import opened Wrappers
  import opened JobPayload

  method Contains(ts: seq<Target>, t: Target) returns (found: bool)
    ensures found <==> t in ts
  {
    for i := 0 to |ts|
      invariant t !in ts[..i]
    {
      if ts[i] == t {
        return true;
      }
    }
    return false;
  }

  method Parse(raw: Option<seq<Target>>) returns (ok: bool, ts: seq<Target>)
    ensures ts == List(raw)
    ensures ok <==> AllComplete(ts)
  {
    if raw.None? {
      return true, [];
    }
    ts := raw.value;
    for i := 0 to |ts|
      invariant forall j | 0 <= j < i :: Complete(ts[j])
    {
      if !Complete(ts[i]) {
        return false, ts;
      }
    }
    return true, ts;
  }

  lemma WithoutSnoc(ts: seq<Target>, x: Target, t: Target)
    ensures Without(ts + [x], t) == Without(ts, t) + (if x == t then [] else [x])
  {
    if ts == [] {
      assert ts + [x] == [x];
    } else {
      WithoutSnoc(ts[1..], x, t);
      assert (ts + [x])[1..] == ts[1..] + [x];
    }
  }

  /** `remaining := handoffs[:0]` then append: the write index never passes the read index. */
  method FilterInPlace(handoffs: array<Target>, t: Target) returns (kept: nat)
    modifies handoffs
    ensures kept <= handoffs.Length
    ensures handoffs[..kept] == Without(old(handoffs[..]), t)
  {
    kept := 0;
    for i := 0 to handoffs.Length
      invariant kept <= i
      invariant handoffs[..kept] == Without(old(handoffs[..])[..i], t)
      invariant handoffs[i..] == old(handoffs[..])[i..]
    {
      ghost var before := handoffs[..kept];
      var existing := handoffs[i];
      assert existing == old(handoffs[..])[i] by { assert handoffs[i..][0] == existing; }
      WithoutSnoc(old(handoffs[..])[..i], existing, t);
      assert old(handoffs[..])[..i + 1] == old(handoffs[..])[..i] + [existing];
      if existing != t {
        handoffs[kept] := existing;
        kept := kept + 1;
        assert handoffs[..kept] == before + [existing];
      }
      assert handoffs[i + 1..] == old(handoffs[..])[i + 1..];
    }
    assert old(handoffs[..])[..handoffs.Length] == old(handoffs[..]);
  }

  method PrepareDestructionPayload(payload: Fields, t: Target) returns (r: Result<(Fields, bool), PayloadError>)
    ensures r == PrepareDestruction(payload, t)
  {
    if !Complete(t) {
      return Err(Incomplete);
    }
    var fields := payload;
    var ok, destroyed := Parse(fields.destroyed);
    if !ok {
      return Err(Incomplete);
    }
    var already := Contains(destroyed, t);
    if already {
      return Ok((payload, true));
    }
    if fields.target.None? {
      fields := fields.(target := Some(t));
    } else if fields.target.value != t {
      var readable, handoffs := Parse(fields.handoffs);
      if !readable {
        return Err(Incomplete);
      }
      var found := Contains(handoffs, t);
      if !found {
        fields := fields.(handoffs := Some(handoffs + [t]));
      }
    }
    fields := fields.(cleanupOnly := true);
    fields := fields.(cleanupCompleted := false);
    return Ok((fields, false));
  }

  method CompleteDestructionPayload(payload: Fields, t: Target) returns (r: Result<(Fields, bool), PayloadError>)
    ensures r == CompleteDestruction(payload, t)
  {
    if !Complete(t) {
      return Err(Incomplete);
    }
    var fields := payload;
    var ok, destroyed := Parse(fields.destroyed);
    if !ok {
      return Err(Incomplete);
    }
    var already := Contains(destroyed, t);
    if already {
      return Ok((payload, true));
    }
    fields := fields.(destroyed := Some(destroyed + [t]));
    if fields.target.Some? && fields.target.value == t {
      fields := fields.(target := None);
    }
    var readable, handoffs := Parse(fields.handoffs);
    if !readable {
      return Err(Incomplete);
    }
    var slice := new Target[|handoffs|](i requires 0 <= i < |handoffs| => handoffs[i]);
    assert slice[..] == handoffs;
    var kept := FilterInPlace(slice, t);
    var remaining := slice[..kept];
    if |remaining| == 0 {
      fields := fields.(handoffs := None);
    } else {
      if fields.target.None? {
        fields := fields.(target := Some(remaining[0]));
        remaining := remaining[1..];
      }
      fields := fields.(handoffs := if |remaining| == 0 then None else Some(remaining));
    }
    fields := fields.(cleanupOnly := true);
    if fields.operation.Some? && fields.operation.value.scope.podVmId == t.podVmId {
      fields := fields.(operation := None);
    }
    fields := fields.(cleanupCompleted := fields.target.None? && fields.handoffs.None?);
    return Ok((fields, false));
  }

  method Search(ts: seq<Target>, podVmId: Ref, moref: Ref) returns (r: Option<Target>)
    ensures r == FirstNamed(ts, podVmId, moref)
  {
    for i := 0 to |ts|
      invariant FirstNamed(ts, podVmId, moref) == FirstNamed(ts[i..], podVmId, moref)
    {
      assert ts[i..][0] == ts[i] && ts[i..][1..] == ts[i + 1..];
      if Names(ts[i], podVmId, moref) {
        return Some(ts[i]);
      }
    }
    return None;
  }

  /** One cleanup completion under the row lock; a refusal writes nothing back. */
  method RecordDestroyedPayload(payload: Fields, podVmId: Ref, moref: Ref) returns (r: Result<Fields, PayloadError>)
    ensures r == RecordDestroyed(payload, podVmId, moref)
  {
    var found := Absent;
    if payload.target.Some? && !Complete(payload.target.value) {
      return Err(Incomplete);
    }
    if payload.target.Some? && Names(payload.target.value, podVmId, moref) {
      found := Staged(payload.target.value);
    } else {
      var readable, handoffs := Parse(payload.handoffs);
      if !readable {
        return Err(Incomplete);
      }
      var handoff := Search(handoffs, podVmId, moref);
      if handoff.Some? {
        found := Staged(handoff.value);
      } else {
        var ok, destroyed := Parse(payload.destroyed);
        if !ok {
          return Err(Incomplete);
        }
        var recorded := Search(destroyed, podVmId, moref);
        if recorded.Some? {
          found := Recorded(recorded.value);
        }
      }
    }
    if found.Absent? {
      return Err(NoExactTarget);
    }
    var completed := CompleteDestructionPayload(payload, found.target);
    match completed
    case Err(e) => return Err(e);
    case Ok((fields, already)) =>
      return if already != found.Recorded? then Err(ProofChanged) else Ok(fields);
  }
}
