/**
 Named work leases: one row per reconciler, claimed when free or expired, renewed
 and released only with the claim's own token. Runs are sequences of calls by any
 number of workers, stamped with the database clock.
*/
module WorkLease {
  import opened Wrappers

  type Worker = nat
  type Token = nat
  type Time = int

  datatype Lease = Lease(claimedBy: Option<Worker>, token: Option<Token>, claimedAt: Option<Time>, generation: nat)

  datatype Call =
    | TryClaim(worker: Worker, token: Token)
    | Renew(worker: Worker, token: Token)
    | Release(worker: Worker, token: Token)

  datatype Event = Event(call: Call, now: Time)

  predicate Claimable(l: Lease, now: Time, duration: Time) {
    l.token.None? || l.claimedAt.None? || l.claimedAt.value < now - duration
  }

  predicate Holds(l: Lease, worker: Worker, token: Token) {
    l.claimedBy == Some(worker) && l.token == Some(token)
  }

  predicate Succeeds(l: Lease, e: Event, duration: Time) {
    if e.call.TryClaim? then Claimable(l, e.now, duration) else Holds(l, e.call.worker, e.call.token)
  }

  function Next(l: Lease, e: Event, duration: Time): Lease {
    if !Succeeds(l, e, duration) then l
    else
      match e.call
      case TryClaim(worker, token) => Lease(Some(worker), Some(token), Some(e.now), l.generation + 1)
      case Renew(_, _) => l.(claimedAt := Some(e.now))
      case Release(_, _) => l.(claimedBy := None, token := None, claimedAt := None)
  }

  class WorkLeaseRow {
    var claimedBy: Option<Worker>
    var token: Option<Token>
    var claimedAt: Option<Time>
    var generation: nat

    constructor ()
      ensures Value() == Lease(None, None, None, 0)
    {
      claimedBy, token, claimedAt, generation := None, None, None, 0;
    }

    function Value(): Lease
      reads this
    {
      Lease(claimedBy, token, claimedAt, generation)
    }

    method TryClaimWorkLease(worker: Worker, minted: Token, now: Time, duration: Time) returns (granted: Option<nat>)
      modifies this
      ensures Value() == Next(old(Value()), Event(TryClaim(worker, minted), now), duration)
      ensures granted == if old(Claimable(Value(), now, duration)) then Some(generation) else None
    {
      if token.Some? && claimedAt.Some? && claimedAt.value >= now - duration {
        return None;
      }
      claimedBy, token, claimedAt := Some(worker), Some(minted), Some(now);
      generation := generation + 1;
      return Some(generation);
    }

    method RenewWorkLease(worker: Worker, claim: Token, now: Time, duration: Time) returns (renewed: bool)
      modifies this`claimedAt
      ensures Value() == Next(old(Value()), Event(Renew(worker, claim), now), duration)
      ensures renewed == Holds(old(Value()), worker, claim)
    {
      renewed := claimedBy == Some(worker) && token == Some(claim);
      if renewed {
        claimedAt := Some(now);
      }
    }

    method ReleaseWorkLease(worker: Worker, claim: Token, now: Time, duration: Time)
      modifies this
      ensures Value() == Next(old(Value()), Event(Release(worker, claim), now), duration)
    {
      if claimedBy == Some(worker) && token == Some(claim) {
        claimedBy, token, claimedAt := None, None, None;
      }
    }
  }

  // ---------------------------------------------------------------------------
  // Whole runs
  // ---------------------------------------------------------------------------

  function Run(l: Lease, events: seq<Event>, duration: Time): Lease {
    if events == [] then l
    else Next(Run(l, events[..|events| - 1], duration), events[|events| - 1], duration)
  }

  /** The clock never runs backwards. */
  ghost predicate ClockOk(events: seq<Event>) {
    forall i, j :: 0 <= i < j < |events| ==> events[i].now <= events[j].now
  }

  /** Every claim attempt presents a token no earlier attempt presented. */
  ghost predicate FreshTokens(events: seq<Event>) {
    forall i, j :: 0 <= i < j < |events| && events[i].call.TryClaim? && events[j].call.TryClaim?
      ==> events[i].call.token != events[j].call.token
  }

  /** The event at this position takes effect. */
  predicate SucceedsAt(l: Lease, events: seq<Event>, i: nat, duration: Time)
    requires i < |events|
  {
    Succeeds(Run(l, events[..i], duration), events[i], duration)
  }

  predicate ClaimsAt(l: Lease, events: seq<Event>, i: nat, duration: Time)
    requires i < |events|
  {
    events[i].call.TryClaim? && SucceedsAt(l, events, i, duration)
  }

  ghost function Claims(l: Lease, events: seq<Event>, duration: Time): set<nat> {
    set i: nat | i < |events| && ClaimsAt(l, events, i, duration)
  }

  lemma EarlierClaims(l: Lease, events: seq<Event>, duration: Time)
    requires events != []
    ensures var last := |events| - 1;
            Claims(l, events, duration) == Claims(l, events[..last], duration)
              + (if ClaimsAt(l, events, last, duration) then {last} else {})
  {
    var last := |events| - 1;
    forall i: nat | i < last ensures ClaimsAt(l, events, i, duration) == ClaimsAt(l, events[..last], i, duration) {
      assert events[..last][..i] == events[..i];
    }
  }

  /** The generation counts the successful claims. */
  lemma {:induction false} GenerationCountsClaims(l: Lease, events: seq<Event>, duration: Time)
    ensures Run(l, events, duration).generation == l.generation + |Claims(l, events, duration)|
    decreases |events|
  {
    if events != [] {
      GenerationCountsClaims(l, events[..|events| - 1], duration);
      EarlierClaims(l, events, duration);
    }
  }

  /**
   Exclusive in time: a claim or renewal that succeeds at T keeps the lease through
   every later call up to T plus the duration, unless its holder releases it.
  */
  lemma {:induction false} HeldForDuration(l: Lease, events: seq<Event>, i: nat, duration: Time)
    requires i < |events| && ClockOk(events) && SucceedsAt(l, events, i, duration) && !events[i].call.Release?
    requires events[|events| - 1].now <= events[i].now + duration
    requires forall k :: i < k < |events| ==> events[k].call != Release(events[i].call.worker, events[i].call.token)
    ensures Holds(Run(l, events, duration), events[i].call.worker, events[i].call.token)
    ensures Run(l, events, duration).claimedAt.Some? && Run(l, events, duration).claimedAt.value >= events[i].now
    ensures forall k: nat :: i < k < |events| ==> !ClaimsAt(l, events, k, duration)
    decreases |events|
  {
    var last := |events| - 1;
    if i < last {
      var shorter := events[..last];
      assert shorter[..i] == events[..i];
      assert shorter[|shorter| - 1].now <= events[last].now;
      HeldForDuration(l, shorter, i, duration);
      forall k: nat | i < k < last ensures !ClaimsAt(l, events, k, duration) {
        assert shorter[..k] == events[..k];
        assert !ClaimsAt(l, shorter, k, duration);
      }
    }
  }

  /** A lease's token is the one of the latest successful claim. */
  lemma {:induction false} TokenIsLatest(l: Lease, events: seq<Event>, duration: Time)
    requires l.token.None?
    ensures var token := Run(l, events, duration).token;
            token.Some? ==> exists i: nat :: i < |events| && IsLatest(l, events, i, duration) && events[i].call.token == token.value
    decreases |events|
  {
    if events != [] {
      var last := |events| - 1;
      var shorter := events[..last];
      TokenIsLatest(l, shorter, duration);
      if ClaimsAt(l, events, last, duration) {
        assert IsLatest(l, events, last, duration);
      } else if Run(l, events, duration).token.Some? {
        var i: nat :| i < |shorter| && IsLatest(l, shorter, i, duration) && shorter[i].call.token == Run(l, shorter, duration).token.value;
        assert shorter[..i] == events[..i];
        forall k: nat | i < k < |events| ensures !ClaimsAt(l, events, k, duration) {
          if k < last {
            assert shorter[..k] == events[..k];
            assert !ClaimsAt(l, shorter, k, duration);
          }
        }
        assert IsLatest(l, events, i, duration);
      }
    }
  }

  ghost predicate IsLatest(l: Lease, events: seq<Event>, i: nat, duration: Time)
    requires i < |events|
  {
    ClaimsAt(l, events, i, duration) && forall k: nat :: i < k < |events| ==> !ClaimsAt(l, events, k, duration)
  }

  /** Renewing or releasing with a superseded token does nothing, for ever. */
  lemma SupersededTokenIsInert(l: Lease, events: seq<Event>, i: nat, j: nat, e: Event, duration: Time)
    requires l.token.None? && FreshTokens(events) && i < j < |events|
    requires ClaimsAt(l, events, i, duration) && ClaimsAt(l, events, j, duration)
    requires !e.call.TryClaim? && e.call.token == events[i].call.token
    ensures Next(Run(l, events, duration), e, duration) == Run(l, events, duration)
  {
    TokenIsLatest(l, events, duration);
  }
}
