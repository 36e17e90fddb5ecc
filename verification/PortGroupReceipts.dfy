/**
 The durable port-group receipt of a pod: which switch changes a create job was
 allowed to make, the per-host keys it learned, and the proof of their removal.
*/
module PortGroupReceipts {
  import opened Wrappers

  type JobId = nat
  type Time = int
  type Receipt = nat
  /** Zero stands for the empty string. */
  type Host = nat
  type Key = nat

  const EMPTY := 0

  datatype Stage = Legacy | Planned | Applying | Active | Removed

  datatype Row = Row(createJob: JobId, receipt: Receipt, keys: map<Host, Key>, stage: Stage, removedAt: Option<Time>)

  /** `owned`: the job row shows a live claim by the caller on this pod's create job. */
  datatype Call =
    | Persist(job: JobId, owned: bool, receipt: Receipt)
    | Begin(job: JobId, owned: bool, receipt: Receipt)
    | BindKeys(receipt: Receipt, keys: map<Host, Key>)
    | MarkRemoved(receipt: Receipt, now: Time)
    | MarkAbsentRemoved(receipt: Receipt, now: Time)

  predicate KeysBind(existing: map<Host, Key>, keys: map<Host, Key>) {
    forall h :: h in keys ==> h != EMPTY && keys[h] != EMPTY && (h in existing ==> existing[h] == keys[h])
  }

  predicate Succeeds(row: Option<Row>, c: Call) {
    match c
    case Persist(job, owned, receipt) =>
      owned && (row.Some? ==> row.value.createJob == job && row.value.receipt == receipt && row.value.removedAt.None?)
    case Begin(job, owned, receipt) =>
      && row.Some? && row.value.createJob == job && owned && row.value.receipt == receipt
      && row.value.stage in {Planned, Applying, Active}
    case BindKeys(receipt, keys) =>
      && row.Some? && row.value.receipt == receipt && row.value.removedAt.None?
      && row.value.stage in {Applying, Active} && KeysBind(row.value.keys, keys)
    case MarkRemoved(receipt, _) => row.Some? && row.value.receipt == receipt && row.value.stage in {Planned, Active, Removed}
    case MarkAbsentRemoved(receipt, _) =>
      && row.Some? && row.value.receipt == receipt && row.value.stage == Applying
      && row.value.keys == map[] && row.value.removedAt.None?
  }

  function Next(row: Option<Row>, c: Call): Option<Row> {
    if !Succeeds(row, c) then row
    else
      match c
      case Persist(job, _, receipt) => if row.Some? then row else Some(Row(job, receipt, map[], Planned, None))
      case Begin(_, _, _) => if row.value.stage == Planned then Some(row.value.(stage := Applying)) else row
      case BindKeys(_, keys) => Some(row.value.(keys := row.value.keys + keys, stage := Active))
      case MarkRemoved(_, now) =>
        Some(row.value.(stage := Removed, removedAt := if row.value.removedAt.Some? then row.value.removedAt else Some(now)))
      case MarkAbsentRemoved(_, now) => Some(row.value.(stage := Removed, removedAt := Some(now)))
  }

  class ReceiptRecord {
    var row: Option<Row>

    constructor ()
      ensures row == None
    {
      row := None;
    }

    method PersistPodPortGroupReceipt(job: JobId, owned: bool, receipt: Receipt) returns (ok: bool)
      modifies this
      ensures ok == Succeeds(old(row), Persist(job, owned, receipt)) && row == Next(old(row), Persist(job, owned, receipt))
    {
      if !owned {
        return false;
      }
      if row.None? {
        row := Some(Row(job, receipt, map[], Planned, None));
        return true;
      }
      ok := row.value.createJob == job && row.value.receipt == receipt && row.value.removedAt.None?;
    }

    method BeginPodPortGroupMutation(job: JobId, owned: bool, receipt: Receipt) returns (ok: bool)
      modifies this
      ensures ok == Succeeds(old(row), Begin(job, owned, receipt)) && row == Next(old(row), Begin(job, owned, receipt))
    {
      if row.None? || row.value.createJob != job || !owned {
        return false;
      }
      var stage := row.value.stage;
      if row.value.receipt != receipt || (stage != Planned && stage != Applying && stage != Active) {
        return false;
      }
      if stage == Planned {
        row := Some(row.value.(stage := Applying));
      }
      return true;
    }

    /** The merge stops at the first bad key; whether there is one does not depend on the order. */
    method PersistPodPortGroupKeys(receipt: Receipt, keys: map<Host, Key>) returns (ok: bool)
      modifies this
      ensures ok == Succeeds(old(row), BindKeys(receipt, keys)) && row == Next(old(row), BindKeys(receipt, keys))
    {
      if row.None? || row.value.receipt != receipt || row.value.removedAt.Some?
         || (row.value.stage != Applying && row.value.stage != Active) {
        return false;
      }
      var existing, rest := row.value.keys, keys.Keys;
      while rest != {}
        invariant rest <= keys.Keys && row == old(row)
        invariant existing.Keys == row.value.keys.Keys + (keys.Keys - rest)
        invariant forall h :: h in existing ==> existing[h] == if h in keys && h !in rest then keys[h] else row.value.keys[h]
        invariant forall h :: h in keys && h !in rest ==>
                    h != EMPTY && keys[h] != EMPTY && (h in row.value.keys ==> row.value.keys[h] == keys[h])
      {
        var host :| host in rest;
        var key := keys[host];
        if host == EMPTY || key == EMPTY || (host in existing && existing[host] != key) {
          return false;
        }
        existing, rest := existing[host := key], rest - {host};
      }
      assert existing == row.value.keys + keys;
      row := Some(row.value.(keys := existing, stage := Active));
      return true;
    }

    method MarkPodPortGroupRemoved(receipt: Receipt, now: Time) returns (ok: bool)
      modifies this
      ensures ok == Succeeds(old(row), MarkRemoved(receipt, now)) && row == Next(old(row), MarkRemoved(receipt, now))
    {
      ok := row.Some? && row.value.receipt == receipt
        && (row.value.stage == Planned || row.value.stage == Active || row.value.stage == Removed);
      if ok {
        if row.value.removedAt.None? {
          row := Some(row.value.(removedAt := Some(now)));
        }
        row := Some(row.value.(stage := Removed));
      }
    }

    method MarkPodPortGroupAbsentRemoved(receipt: Receipt, now: Time) returns (ok: bool)
      modifies this
      ensures ok == Succeeds(old(row), MarkAbsentRemoved(receipt, now)) && row == Next(old(row), MarkAbsentRemoved(receipt, now))
    {
      ok := row.Some? && row.value.receipt == receipt && row.value.stage == Applying
        && row.value.keys == map[] && row.value.removedAt.None?;
      if ok {
        row := Some(row.value.(stage := Removed, removedAt := Some(now)));
      }
    }
  }

  // ---------------------------------------------------------------------------
  // Whole runs
  // ---------------------------------------------------------------------------

  /** The row after the calls, starting without one. */
  function Run(calls: seq<Call>): Option<Row> {
    if calls == [] then None else Next(Run(calls[..|calls| - 1]), calls[|calls| - 1])
  }

  function Rank(stage: Stage): nat {
    match stage
    case Legacy => 0
    case Planned => 1
    case Applying => 2
    case Active => 3
    case Removed => 4
  }

  /** Nothing recorded in `a` is different in `b`, except for what moves forward. */
  ghost predicate Extends(a: Row, b: Row) {
    && a.createJob == b.createJob && a.receipt == b.receipt
    && Rank(a.stage) <= Rank(b.stage)
    && (forall h :: h in a.keys ==> h in b.keys && b.keys[h] == a.keys[h])
    && (a.stage == Removed ==> b == a)
  }

  /** What every reachable row satisfies. */
  ghost predicate Sound(r: Row) {
    && (r.stage == Removed <==> r.removedAt.Some?)
    && (r.keys != map[] ==> r.stage == Active || r.stage == Removed)
    && r.stage != Legacy
  }

  /** One call: the row stays sound and only moves forward; from applying to removed only without keys. */
  lemma StepMovesForward(row: Option<Row>, c: Call)
    requires row.Some? ==> Sound(row.value)
    ensures Next(row, c).Some? ==> Sound(Next(row, c).value)
    ensures row.Some? ==> Next(row, c).Some? && Extends(row.value, Next(row, c).value)
    ensures row.Some? && row.value.stage == Applying && Next(row, c).value.stage == Removed ==>
              c.MarkAbsentRemoved? && row.value.keys == map[] && Next(row, c).value.keys == map[]
  {
  }

  lemma {:induction false} RunIsSound(calls: seq<Call>)
    ensures Run(calls).Some? ==> Sound(Run(calls).value)
  {
    if calls != [] {
      RunIsSound(calls[..|calls| - 1]);
      StepMovesForward(Run(calls[..|calls| - 1]), calls[|calls| - 1]);
    }
  }

  /** Over every run: state, keys, receipt and removal time only move forward, and removed is final. */
  lemma {:induction false} RunMovesForward(calls: seq<Call>, i: nat)
    requires i <= |calls| && Run(calls[..i]).Some?
    ensures Run(calls).Some? && Extends(Run(calls[..i]).value, Run(calls).value)
    decreases |calls|
  {
    var last := |calls| - 1;
    if i == |calls| {
      assert calls[..i] == calls;
    } else {
      assert calls[..last][..i] == calls[..i];
      RunMovesForward(calls[..last], i);
      RunIsSound(calls[..last]);
      StepMovesForward(Run(calls[..last]), calls[last]);
    }
  }

  /** A begin-mutation by the owner of the receipt's own create job took effect at this position. */
  ghost predicate BeganAt(calls: seq<Call>, i: nat)
    requires i < |calls|
  {
    calls[i].Begin? && calls[i].owned && Succeeds(Run(calls[..i]), calls[i])
  }

  ghost predicate Began(calls: seq<Call>) {
    exists i: nat :: i < |calls| && BeganAt(calls, i)
  }

  lemma BeganEarlier(calls: seq<Call>)
    requires calls != []
    ensures Began(calls) <==> Began(calls[..|calls| - 1]) || BeganAt(calls, |calls| - 1)
  {
    var last := |calls| - 1;
    forall i: nat | i < last ensures BeganAt(calls[..last], i) <==> BeganAt(calls, i) {
      assert calls[..last][..i] == calls[..i];
    }
    if Began(calls) && !BeganAt(calls, last) {
      var i: nat :| i < |calls| && BeganAt(calls, i);
      assert BeganAt(calls[..last], i);
    }
    if Began(calls[..last]) {
      var i: nat :| i < last && BeganAt(calls[..last], i);
      assert BeganAt(calls, i);
    }
  }

  /**
   Bound keys, and the applying and active states, prove that the owning create job
   had begun to mutate; the planned state proves that it had not.
  */
  lemma {:induction false} StateProvesMutation(calls: seq<Call>)
    ensures Run(calls).Some? && (Run(calls).value.stage in {Applying, Active} || Run(calls).value.keys != map[]) ==> Began(calls)
    ensures Run(calls).None? || Run(calls).value.stage == Planned ==> !Began(calls)
  {
    if calls != [] {
      var shorter := calls[..|calls| - 1];
      StateProvesMutation(shorter);
      BeganEarlier(calls);
      RunIsSound(shorter);
    }
  }

  // ---------------------------------------------------------------------------
  // The table's trigger
  // ---------------------------------------------------------------------------

  predicate MovesAsPlanned(a: Stage, b: Stage) {
    (a == Planned && b in {Applying, Removed}) || (a == Applying && b == Active) || (a == Active && b == Removed)
  }

  /** An applying receipt closes without keys. */
  predicate ClosesUnbound(a: Row, b: Row) {
    a.stage == Applying && b.stage == Removed && a.keys == map[] && b.keys == map[]
  }

  predicate IdentityKept(a: Row, b: Row) {
    && a.createJob == b.createJob && a.receipt == b.receipt
    && (forall h :: h in a.keys ==> h in b.keys && b.keys[h] == a.keys[h])
    && (a.stage == Removed ==> b.stage == Removed)
    && (a.removedAt.Some? ==> b.removedAt == a.removedAt)
  }

  /** What the row trigger lets through before the unbound close was admitted. */
  predicate EarlierTriggerAccepts(a: Row, b: Row) {
    IdentityKept(a, b) && (a.stage == b.stage || MovesAsPlanned(a.stage, b.stage))
  }

  predicate TriggerAccepts(a: Row, b: Row) {
    IdentityKept(a, b) && (a.stage == b.stage || MovesAsPlanned(a.stage, b.stage) || ClosesUnbound(a, b))
  }

  /**
   On every reachable row the trigger accepts whatever the queries write. The
   earlier trigger rejected exactly the absent-removal close, always.
  */
  lemma TriggerNeverRejects(calls: seq<Call>, c: Call)
    requires Run(calls).Some?
    ensures Next(Run(calls), c).Some? && TriggerAccepts(Run(calls).value, Next(Run(calls), c).value)
    ensures EarlierTriggerAccepts(Run(calls).value, Next(Run(calls), c).value)
            <==> !(c.MarkAbsentRemoved? && Succeeds(Run(calls), c))
  {
    RunIsSound(calls);
  }
}
