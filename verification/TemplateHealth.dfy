/**
 The template health row. Reconciliation replaces it by compare-and-swap on its
 version; confirmation jobs update it when their failure token still matches. The
 clock may jump in either direction.
*/
module TemplateHealth {
  import opened Wrappers

  type Time = int
  type Text = nat

  datatype Health = Health(
    unhealthy: bool,
    consecutive: nat,
    structural: nat,
    structuralError: Option<Text>,
    deep: nat,
    deepAt: Option<Time>,
    deepPassed: Option<bool>,
    deepError: Option<Text>,
    pendingFailure: Option<Time>,
    confirmationDue: Option<Time>,
    lastError: Option<Text>)

  datatype Row = Row(health: Health, updatedAt: Time)

  datatype Write =
    | Swap(health: Health, read: Option<Time>) // the version read; None when no row was found
    | Confirm(expected: Time, passed: bool, checkedAt: Time, error: Option<Text>)
    | ClearPending(expected: Time)

  datatype Event = Event(write: Write, clock: Time)

  function Max(a: int, b: int): int {
    if a < b then b else a
  }

  function NextVersion(updatedAt: Time, clock: Time): Time {
    Max(clock, updatedAt + 1)
  }

  function Confirmed(h: Health, passed: bool, checkedAt: Time, error: Option<Text>): Health {
    h.(deepAt := Some(checkedAt), deepPassed := Some(passed), deepError := error,
       deep := if passed then 0 else 2,
       pendingFailure := None, confirmationDue := None,
       consecutive := if passed then h.structural else Max(h.structural, 2),
       unhealthy := !passed || h.structural >= 2,
       lastError := if !passed then error else if h.structural > 0 then h.structuralError else None)
  }

  predicate Succeeds(row: Option<Row>, e: Event) {
    match e.write
    case Swap(_, read) => if row.Some? then read == Some(row.value.updatedAt) else read.None?
    case Confirm(expected, _, _, _) => row.Some? && row.value.health.pendingFailure == Some(expected)
    case ClearPending(expected) => row.Some? && row.value.health.pendingFailure == Some(expected)
  }

  function Written(h: Health, w: Write): Health {
    match w
    case Swap(health, _) => health
    case Confirm(_, passed, checkedAt, error) => Confirmed(h, passed, checkedAt, error)
    case ClearPending(_) => h.(pendingFailure := None, confirmationDue := None)
  }

  function Next(row: Option<Row>, e: Event): Option<Row> {
    if !Succeeds(row, e) then row
    else if row.None? then Some(Row(e.write.health, e.clock))
    else Some(Row(Written(row.value.health, e.write), NextVersion(row.value.updatedAt, e.clock)))
  }

  class HealthRecord {
    var row: Option<Row>

    constructor ()
      ensures row == None
    {
      row := None;
    }

    method CompareAndSwapTemplateHealthState(state: Health, read: Option<Time>, clock: Time) returns (ok: bool)
      modifies this
      ensures ok == Succeeds(old(row), Event(Swap(state, read), clock))
      ensures row == Next(old(row), Event(Swap(state, read), clock))
    {
      if read.None? {
        ok := row.None?;
        if ok {
          row := Some(Row(state, clock));
        }
        return;
      }
      ok := row.Some? && row.value.updatedAt == read.value;
      if ok {
        var version := row.value.updatedAt + 1;
        row := Some(Row(state, if clock > version then clock else version));
      }
    }

    method ApplyTemplateHealthDeepConfirmation(expected: Time, passed: bool, checkedAt: Time, error: Option<Text>, clock: Time)
      returns (ok: bool)
      modifies this
      ensures ok == Succeeds(old(row), Event(Confirm(expected, passed, checkedAt, error), clock))
      ensures row == Next(old(row), Event(Confirm(expected, passed, checkedAt, error), clock))
    {
      ok := row.Some? && row.value.health.pendingFailure == Some(expected);
      if ok {
        row := Some(Row(Confirmed(row.value.health, passed, checkedAt, error), NextVersion(row.value.updatedAt, clock)));
      }
    }

    method ClearTemplateHealthDeepPending(expected: Time, clock: Time) returns (ok: bool)
      modifies this
      ensures ok == Succeeds(old(row), Event(ClearPending(expected), clock))
      ensures row == Next(old(row), Event(ClearPending(expected), clock))
    {
      ok := row.Some? && row.value.health.pendingFailure == Some(expected);
      if ok {
        var h := row.value.health.(pendingFailure := None, confirmationDue := None);
        row := Some(Row(h, NextVersion(row.value.updatedAt, clock)));
      }
    }
  }

  // ---------------------------------------------------------------------------
  // Whole runs
  // ---------------------------------------------------------------------------

  function Run(row: Option<Row>, events: seq<Event>): Option<Row>
    decreases |events|
  {
    if events == [] then row else Run(Next(row, events[0]), events[1..])
  }

  /** How many of the writes take effect. */
  function Effective(row: Option<Row>, events: seq<Event>): nat
    decreases |events|
  {
    if events == [] then 0
    else (if Succeeds(row, events[0]) then 1 else 0) + Effective(Next(row, events[0]), events[1..])
  }

  /** Every effective write moves the version forward by at least one tick, whatever the clock says. */
  lemma {:induction false} VersionsCountWrites(row: Option<Row>, events: seq<Event>)
    requires row.Some?
    ensures Run(row, events).Some? && Run(row, events).value.updatedAt >= row.value.updatedAt + Effective(row, events)
    ensures Effective(row, events) == 0 ==> Run(row, events) == row
    decreases |events|
  {
    if events != [] {
      VersionsCountWrites(Next(row, events[0]), events[1..]);
    }
  }

  /**
   No lost update: a swap made after any run, with the version read before it,
   succeeds exactly when nothing was written in between; then the row is still
   the one that was read.
  */
  lemma SwapActsOnWhatWasRead(read: Option<Row>, events: seq<Event>, health: Health, clock: Time)
    ensures var version := if read.Some? then Some(read.value.updatedAt) else None;
            var now := Run(read, events);
            && (Succeeds(now, Event(Swap(health, version), clock)) <==> Effective(read, events) == 0)
            && (Succeeds(now, Event(Swap(health, version), clock)) ==> now == read)
  {
    if read.Some? {
      VersionsCountWrites(read, events);
    } else {
      AbsentUntilWritten(events);
    }
  }

  lemma {:induction false} AbsentUntilWritten(events: seq<Event>)
    ensures Run(None, events).None? <==> Effective(None, events) == 0
    decreases |events|
  {
    if events != [] {
      if Succeeds(None, events[0]) {
        VersionsCountWrites(Next(None, events[0]), events[1..]);
      } else {
        AbsentUntilWritten(events[1..]);
      }
    }
  }

  lemma {:induction false} RunsCompose(row: Option<Row>, first: seq<Event>, then_: seq<Event>)
    ensures Run(row, first + then_) == Run(Run(row, first), then_)
    ensures Effective(row, first + then_) == Effective(row, first) + Effective(Run(row, first), then_)
    decreases |first|
  {
    if first == [] {
      assert first + then_ == then_;
    } else {
      assert (first + then_)[1..] == first[1..] + then_;
      RunsCompose(Next(row, first[0]), first[1..], then_);
    }
  }

  /** A write based on a read from before a confirmation or clear took effect cannot bring the consumed token back. */
  lemma ConsumedTokenStaysConsumed(read: Row, before: seq<Event>, e: Event, after: seq<Event>, health: Health, clock: Time)
    requires !e.write.Swap? && Succeeds(Run(Some(read), before), e)
    ensures var now := Run(Some(read), before + [e] + after);
            Next(now, Event(Swap(health, Some(read.updatedAt)), clock)) == now
  {
    var mid := Run(Some(read), before);
    assert before + [e] + after == before + ([e] + after);
    RunsCompose(Some(read), before, [e] + after);
    RunsCompose(mid, [e], after);
    assert [e][1..] == [];
    assert Effective(mid, [e]) == 1 + Effective(Next(mid, e), []);
    SwapActsOnWhatWasRead(Some(read), before + [e] + after, health, clock);
  }

  /** Without a new swap, at most one confirmation or clear of a failure takes effect. */
  lemma {:induction false} ConsumedAtMostOnce(row: Option<Row>, events: seq<Event>)
    requires forall i :: 0 <= i < |events| ==> !events[i].write.Swap?
    ensures Effective(row, events) <= 1
    ensures row.None? || row.value.health.pendingFailure.None? ==> Effective(row, events) == 0
    decreases |events|
  {
    if events != [] {
      ConsumedAtMostOnce(Next(row, events[0]), events[1..]);
    }
  }

  /** A confirmation leaves the summary columns consistent with the two failure counts. */
  lemma ConfirmationSummarises(h: Health, passed: bool, checkedAt: Time, error: Option<Text>)
    ensures var c := Confirmed(h, passed, checkedAt, error);
            && c.consecutive == Max(c.structural, c.deep)
            && (c.unhealthy <==> c.consecutive >= 2)
            && c.structural == h.structural && c.pendingFailure.None? && c.confirmationDue.None?
            && (passed && h.structural == 0 ==> c.lastError.None?)
  {
  }
}
