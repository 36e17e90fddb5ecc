/**
 The audit log search: a filter becomes a WHERE clause whose values travel
 separately as numbered arguments. The clause is a conjunction of disjunctions;
 a comparison with NULL is never true, and no negation stands above a
 comparison, so "true" is all that has to be tracked of SQL's three truth values.
*/
module AuditFilter {
  import opened Wrappers
  import opened LikePattern
  import opened GoStrings

  datatype Value = Text(text: string) | Id(id: nat) | Instant(at: int)

  datatype Column = Action | UserId | Username | DisplayName | Email | Details | ResourceType | ResourceId | CreatedAt

  /** An audit row joined with its user, if the user row still exists. */
  datatype Row = Row(
    action: string,
    userId: Option<nat>,
    username: Option<string>,
    displayName: Option<string>,
    email: Option<string>,
    details: Option<string>,
    resourceType: Option<string>,
    resourceId: Option<nat>,
    createdAt: Option<int>)

  datatype Actor = Unset | All | Human | Synthetic | System | OtherActor

  datatype Filter = Filter(
    action: string,
    actions: seq<string>,
    excludeActions: seq<string>,
    actor: Actor,
    query: string,
    userId: Option<nat>,
    resourceType: string,
    resourceId: Option<nat>,
    since: Option<int>,
    until: Option<int>)

  /** One comparison; `n` is the number of its placeholder, counting from one. */
  datatype Atom =
    | LikeArg(n: nat)
    | ContainsArg(col: Column, n: nat)
    | Differs(n: nat)
    | Equals(col: Column, n: nat)
    | AtLeast(n: nat)
    | AtMost(n: nat)
    | IsNull(col: Column)
    | IsNotNull(col: Column)
    | NameLike(pattern: string)
    | NameNotLike(pattern: string)

  type Clause = seq<seq<Atom>>

  const SYNTHETIC := "synthetic"
  const SYNTHETIC_PATTERN := "synthetic%"
  const MAX_ACTIONS := 8
  const MAX_QUERY := 200

  function Identity(c: char): char {
    c
  }

  // ---------------------------------------------------------------------------
  // What a clause means
  // ---------------------------------------------------------------------------

  function AsText(s: Option<string>): Option<Value> {
    if s.Some? then Some(Text(s.value)) else None
  }

  function AsId(i: Option<nat>): Option<Value> {
    if i.Some? then Some(Id(i.value)) else None
  }

  function Cell(row: Row, col: Column): Option<Value> {
    match col
    case Action => Some(Text(row.action))
    case UserId => AsId(row.userId)
    case Username => AsText(row.username)
    case DisplayName => AsText(row.displayName)
    case Email => AsText(row.email)
    case Details => AsText(row.details)
    case ResourceType => AsText(row.resourceType)
    case ResourceId => AsId(row.resourceId)
    case CreatedAt => if row.createdAt.Some? then Some(Instant(row.createdAt.value)) else None
  }

  /** COALESCE(column, ''). */
  function TextOrEmpty(row: Row, col: Column): string {
    var cell := Cell(row, col);
    if cell.Some? && cell.value.Text? then cell.value.text else ""
  }

  function Argument(args: seq<Value>, n: nat): Option<Value> {
    if 1 <= n <= |args| then Some(args[n - 1]) else None
  }

  function TextArgument(args: seq<Value>, n: nat): Option<string> {
    var a := Argument(args, n);
    if a.Some? && a.value.Text? then Some(a.value.text) else None
  }

  /** The comparison is true of the row; `fold` is the case folding of ILIKE. */
  predicate Holds(atom: Atom, args: seq<Value>, row: Row, fold: char -> char) {
    match atom
    case LikeArg(n) =>
      var p := TextArgument(args, n);
      p.Some? && Matches(p.value, row.action, Identity)
    case ContainsArg(col, n) =>
      var p := TextArgument(args, n);
      p.Some? && Matches(p.value, TextOrEmpty(row, col), fold)
    case Differs(n) => Argument(args, n).Some? && Argument(args, n) != Some(Text(row.action))
    case Equals(col, n) => Argument(args, n).Some? && Argument(args, n) == Cell(row, col)
    case AtLeast(n) =>
      var a := Argument(args, n);
      row.createdAt.Some? && a.Some? && a.value.Instant? && row.createdAt.value >= a.value.at
    case AtMost(n) =>
      var a := Argument(args, n);
      row.createdAt.Some? && a.Some? && a.value.Instant? && row.createdAt.value <= a.value.at
    case IsNull(col) => Cell(row, col).None?
    case IsNotNull(col) => Cell(row, col).Some?
    case NameLike(pattern) => row.username.Some? && Matches(pattern, row.username.value, Identity)
    case NameNotLike(pattern) => row.username.Some? && !Matches(pattern, row.username.value, Identity)
  }

  ghost predicate SomeHolds(atoms: seq<Atom>, args: seq<Value>, row: Row, fold: char -> char) {
    exists k :: 0 <= k < |atoms| && Holds(atoms[k], args, row, fold)
  }

  /** The clause keeps the row. */
  ghost predicate Keeps(clause: Clause, args: seq<Value>, row: Row, fold: char -> char) {
    forall i :: 0 <= i < |clause| ==> SomeHolds(clause[i], args, row, fold)
  }

  function Placeholder(atom: Atom): nat {
    match atom
    case LikeArg(n) => n
    case ContainsArg(_, n) => n
    case Differs(n) => n
    case Equals(_, n) => n
    case AtLeast(n) => n
    case AtMost(n) => n
    case _ => 0
  }

  ghost predicate BoundedAtoms(atoms: seq<Atom>, n: nat) {
    forall k :: 0 <= k < |atoms| ==> Placeholder(atoms[k]) <= n
  }

  /** No placeholder points past the n arguments collected so far. */
  ghost predicate Bounded(clause: Clause, n: nat) {
    forall i :: 0 <= i < |clause| ==> BoundedAtoms(clause[i], n)
  }

  // ---------------------------------------------------------------------------
  // What a filter means
  // ---------------------------------------------------------------------------

  function NonEmpty(values: seq<string>): (r: seq<string>)
    ensures forall v :: v in r <==> v in values && v != ""
  {
    if values == [] then []
    else
      var last := values[|values| - 1];
      NonEmpty(values[..|values| - 1]) + if last != "" then [last] else []
  }

  predicate Valid(f: Filter) {
    && !f.actor.OtherActor?
    && |NonEmpty(f.actions)| <= MAX_ACTIONS && |NonEmpty(f.excludeActions)| <= MAX_ACTIONS
    && ByteLength(TrimSpace(f.query)) <= MAX_QUERY
  }

  function Prefixes(f: Filter): seq<string> {
    (if f.action != "" then [f.action] else []) + NonEmpty(f.actions)
  }

  ghost predicate HasPrefix(text: string, prefix: string) {
    |prefix| <= |text| && text[..|prefix|] == prefix
  }

  ghost predicate ActionWanted(prefixes: seq<string>, row: Row) {
    prefixes == [] || exists k :: 0 <= k < |prefixes| && HasPrefix(row.action, prefixes[k])
  }

  ghost predicate ActorWanted(actor: Actor, row: Row) {
    match actor
    case Human => row.userId.Some? && (row.username.None? || !HasPrefix(row.username.value, SYNTHETIC))
    case Synthetic => row.username.Some? && HasPrefix(row.username.value, SYNTHETIC)
    case System => row.userId.None?
    case _ => true
  }

  ghost predicate QueryFound(query: string, row: Row, fold: char -> char) {
    || query == ""
    || Occurs(query, TextOrEmpty(row, DisplayName), fold)
    || Occurs(query, TextOrEmpty(row, Email), fold)
    || Occurs(query, TextOrEmpty(row, Username), fold)
    || Occurs(query, TextOrEmpty(row, Details), fold)
  }

  /** The rows a caller asks for. */
  ghost predicate Selected(f: Filter, row: Row, fold: char -> char) {
    && ActionWanted(Prefixes(f), row)
    && (row.action == "" || row.action !in f.excludeActions)
    && ActorWanted(f.actor, row)
    && QueryFound(TrimSpace(f.query), row, fold)
    && RestWanted(f, row)
  }

  ghost predicate RestWanted(f: Filter, row: Row) {
    && (f.userId.Some? ==> row.userId == f.userId)
    && (f.resourceType != "" ==> row.resourceType == Some(f.resourceType))
    && (f.resourceId.Some? ==> row.resourceId == f.resourceId)
    && (f.since.Some? ==> row.createdAt.Some? && row.createdAt.value >= f.since.value)
    && (f.until.Some? ==> row.createdAt.Some? && row.createdAt.value <= f.until.value)
  }

  // ---------------------------------------------------------------------------
  // Growing the clause
  // ---------------------------------------------------------------------------

  /** More arguments change nothing for comparisons whose placeholders are bound. */
  lemma HoldsWithMore(atom: Atom, args: seq<Value>, more: seq<Value>, row: Row, fold: char -> char)
    requires Placeholder(atom) <= |args|
    ensures Holds(atom, args + more, row, fold) == Holds(atom, args, row, fold)
  {
  }

  lemma KeepsWithMore(clause: Clause, args: seq<Value>, more: seq<Value>, row: Row, fold: char -> char)
    requires Bounded(clause, |args|)
    ensures Keeps(clause, args + more, row, fold) <==> Keeps(clause, args, row, fold)
  {
    forall i | 0 <= i < |clause|
      ensures SomeHolds(clause[i], args + more, row, fold) <==> SomeHolds(clause[i], args, row, fold)
    {
      forall k | 0 <= k < |clause[i]| ensures Holds(clause[i][k], args + more, row, fold) == Holds(clause[i][k], args, row, fold) {
        assert BoundedAtoms(clause[i], |args|);
        HoldsWithMore(clause[i][k], args, more, row, fold);
      }
    }
  }

  /** A further conjunct narrows the rows by exactly what it says, with its arguments appended. */
  lemma Conjoin(clause: Clause, args: seq<Value>, atoms: seq<Atom>, more: seq<Value>)
    requires Bounded(clause, |args|) && BoundedAtoms(atoms, |args| + |more|)
    ensures Bounded(clause + [atoms], |args + more|)
    ensures forall row, fold ::
              Keeps(clause + [atoms], args + more, row, fold)
              <==> Keeps(clause, args, row, fold) && SomeHolds(atoms, args + more, row, fold)
  {
    var longer := clause + [atoms];
    forall row, fold
      ensures Keeps(longer, args + more, row, fold)
              <==> Keeps(clause, args, row, fold) && SomeHolds(atoms, args + more, row, fold)
    {
      KeepsWithMore(clause, args, more, row, fold);
      assert longer[|clause|] == atoms;
      assert forall i :: 0 <= i < |clause| ==> longer[i] == clause[i];
    }
  }

  /** A single comparison as conjunct. */
  lemma ConjoinOne(clause: Clause, args: seq<Value>, atom: Atom, more: seq<Value>)
    requires Bounded(clause, |args|) && Placeholder(atom) <= |args| + |more|
    ensures Bounded(clause + [[atom]], |args + more|)
    ensures forall row, fold ::
              Keeps(clause + [[atom]], args + more, row, fold)
              <==> Keeps(clause, args, row, fold) && Holds(atom, args + more, row, fold)
  {
    Conjoin(clause, args, [atom], more);
    forall row, fold ensures SomeHolds([atom], args + more, row, fold) <==> Holds(atom, args + more, row, fold) {
      assert [atom][0] == atom;
    }
  }

  lemma PrefixIsPrefix(prefix: string, text: string)
    ensures Matches(LikePrefix(prefix), text, Identity) <==> HasPrefix(text, prefix)
  {
    PrefixMeaning(prefix, text, Identity);
    if HasPrefix(text, prefix) {
      assert forall i :: 0 <= i < |prefix| ==> prefix[i] == text[..|prefix|][i];
    }
  }

  // ---------------------------------------------------------------------------
  // The builder
  // ---------------------------------------------------------------------------

  method AddPrefixes(prefixes: seq<string>) returns (clause: Clause, args: seq<Value>)
    ensures Bounded(clause, |args|)
    ensures forall row, fold :: Keeps(clause, args, row, fold) <==> ActionWanted(prefixes, row)
  {
    clause, args := [], [];
    if prefixes == [] {
      return;
    }
    var parts: seq<Atom> := [];
    for i := 0 to |prefixes|
      invariant |parts| == |args| == i
      invariant forall k :: 0 <= k < i ==> parts[k] == LikeArg(k + 1) && args[k] == Text(LikePrefix(prefixes[k]))
    {
      parts := parts + [LikeArg(i + 1)];
      args := args + [Text(LikePrefix(prefixes[i]))];
    }
    clause := [parts];
    forall row, fold ensures Keeps(clause, args, row, fold) <==> ActionWanted(prefixes, row) {
      forall k | 0 <= k < |prefixes| ensures Holds(parts[k], args, row, fold) <==> HasPrefix(row.action, prefixes[k]) {
        PrefixIsPrefix(prefixes[k], row.action);
      }
      assert clause[0] == parts;
    }
  }

  method AddExcludes(clause0: Clause, args0: seq<Value>, excludes: seq<string>) returns (clause: Clause, args: seq<Value>)
    requires Bounded(clause0, |args0|)
    ensures Bounded(clause, |args|)
    ensures forall row, fold ::
              Keeps(clause, args, row, fold)
              <==> Keeps(clause0, args0, row, fold) && (row.action == "" || row.action !in excludes)
  {
    clause, args := clause0, args0;
    for i := 0 to |excludes|
      invariant Bounded(clause, |args|)
      invariant forall row, fold ::
                  Keeps(clause, args, row, fold)
                  <==> Keeps(clause0, args0, row, fold) && (row.action == "" || row.action !in excludes[..i])
    {
      if excludes[i] != "" {
        var atom, value := Differs(|args| + 1), Text(excludes[i]);
        ConjoinOne(clause, args, atom, [value]);
        assert Argument(args + [value], |args| + 1) == Some(value);
        clause, args := clause + [[atom]], args + [value];
      }
    }
    assert excludes[..|excludes|] == excludes;
  }

  method AddActor(clause0: Clause, args: seq<Value>, actor: Actor) returns (clause: Clause)
    requires Bounded(clause0, |args|)
    ensures Bounded(clause, |args|)
    ensures forall row, fold :: Keeps(clause, args, row, fold) <==> Keeps(clause0, args, row, fold) && ActorWanted(actor, row)
  {
    clause := clause0;
    assert args + [] == args;
    SyntheticMeaning();
    match actor {
      case Human =>
        ConjoinOne(clause, args, IsNotNull(UserId), []);
        clause := clause + [[IsNotNull(UserId)]];
        var either := [IsNull(Username), NameNotLike(SYNTHETIC_PATTERN)];
        Conjoin(clause, args, either, []);
        clause := clause + [either];
        assert either[0] == IsNull(Username) && either[1] == NameNotLike(SYNTHETIC_PATTERN);
      case Synthetic =>
        ConjoinOne(clause, args, NameLike(SYNTHETIC_PATTERN), []);
        clause := clause + [[NameLike(SYNTHETIC_PATTERN)]];
      case System =>
        ConjoinOne(clause, args, IsNull(UserId), []);
        clause := clause + [[IsNull(UserId)]];
      case _ =>
    }
  }

  /** The literal pattern for monitor accounts is the escaped prefix. */
  lemma SyntheticMeaning()
    ensures forall text :: Matches(SYNTHETIC_PATTERN, text, Identity) <==> HasPrefix(text, SYNTHETIC)
  {
    assert LikePrefix(SYNTHETIC) == SYNTHETIC_PATTERN;
    forall text ensures Matches(SYNTHETIC_PATTERN, text, Identity) <==> HasPrefix(text, SYNTHETIC) {
      PrefixIsPrefix(SYNTHETIC, text);
    }
  }

  method AddQuery(clause0: Clause, args0: seq<Value>, query: string) returns (clause: Clause, args: seq<Value>)
    requires Bounded(clause0, |args0|)
    ensures Bounded(clause, |args|)
    ensures forall row, fold ::
              Keeps(clause, args, row, fold) <==> Keeps(clause0, args0, row, fold) && QueryFound(query, row, fold)
  {
    clause, args := clause0, args0;
    if query != "" {
      var n, value := |args| + 1, Text(LikeContains(query));
      var any := [ContainsArg(DisplayName, n), ContainsArg(Email, n), ContainsArg(Username, n), ContainsArg(Details, n)];
      Conjoin(clause, args, any, [value]);
      assert TextArgument(args + [value], n) == Some(LikeContains(query));
      forall row, fold ensures SomeHolds(any, args + [value], row, fold) <==> QueryFound(query, row, fold) {
        AnyColumn(query, any, n, args + [value], row, fold);
      }
      clause, args := clause + [any], args + [value];
    }
  }

  lemma AnyColumn(query: string, any: seq<Atom>, n: nat, args: seq<Value>, row: Row, fold: char -> char)
    requires query != "" && TextArgument(args, n) == Some(LikeContains(query))
    requires any == [ContainsArg(DisplayName, n), ContainsArg(Email, n), ContainsArg(Username, n), ContainsArg(Details, n)]
    ensures SomeHolds(any, args, row, fold) <==> QueryFound(query, row, fold)
  {
    ContainsMeaning(query, TextOrEmpty(row, DisplayName), fold);
    ContainsMeaning(query, TextOrEmpty(row, Email), fold);
    ContainsMeaning(query, TextOrEmpty(row, Username), fold);
    ContainsMeaning(query, TextOrEmpty(row, Details), fold);
    assert Holds(any[0], args, row, fold) <==> Occurs(query, TextOrEmpty(row, DisplayName), fold);
    assert Holds(any[1], args, row, fold) <==> Occurs(query, TextOrEmpty(row, Email), fold);
    assert Holds(any[2], args, row, fold) <==> Occurs(query, TextOrEmpty(row, Username), fold);
    assert Holds(any[3], args, row, fold) <==> Occurs(query, TextOrEmpty(row, Details), fold);
  }

  method AddRest(clause0: Clause, args0: seq<Value>, f: Filter) returns (clause: Clause, args: seq<Value>)
    requires Bounded(clause0, |args0|)
    ensures Bounded(clause, |args|)
    ensures forall row, fold :: Keeps(clause, args, row, fold) <==> Keeps(clause0, args0, row, fold) && RestWanted(f, row)
  {
    clause, args := clause0, args0;
    if f.userId.Some? {
      clause, args := AddOne(clause, args, Equals(UserId, |args| + 1), Id(f.userId.value));
    }
    if f.resourceType != "" {
      clause, args := AddOne(clause, args, Equals(ResourceType, |args| + 1), Text(f.resourceType));
    }
    if f.resourceId.Some? {
      clause, args := AddOne(clause, args, Equals(ResourceId, |args| + 1), Id(f.resourceId.value));
    }
    if f.since.Some? {
      clause, args := AddOne(clause, args, AtLeast(|args| + 1), Instant(f.since.value));
    }
    if f.until.Some? {
      clause, args := AddOne(clause, args, AtMost(|args| + 1), Instant(f.until.value));
    }
  }

  /** The comparison against this very value. */
  ghost predicate Compares(atom: Atom, value: Value, row: Row) {
    match atom
    case Equals(col, _) => Cell(row, col) == Some(value)
    case AtLeast(_) => row.createdAt.Some? && value.Instant? && row.createdAt.value >= value.at
    case AtMost(_) => row.createdAt.Some? && value.Instant? && row.createdAt.value <= value.at
    case _ => false
  }

  method AddOne(clause0: Clause, args0: seq<Value>, atom: Atom, value: Value) returns (clause: Clause, args: seq<Value>)
    requires Bounded(clause0, |args0|)
    requires (atom.Equals? || atom.AtLeast? || atom.AtMost?) && atom.n == |args0| + 1
    ensures Bounded(clause, |args|)
    ensures forall row, fold :: Keeps(clause, args, row, fold) <==> Keeps(clause0, args0, row, fold) && Compares(atom, value, row)
  {
    ConjoinOne(clause0, args0, atom, [value]);
    clause, args := clause0 + [[atom]], args0 + [value];
    assert Argument(args, atom.n) == Some(value);
  }

  /** Refused exactly when the filter is invalid; otherwise the clause keeps exactly the selected rows, for every row and folding. */
  method AuditLogWhere(f: Filter) returns (r: Result<(Clause, seq<Value>), Refusal>)
    ensures r.Err? <==> !Valid(f)
    ensures r.Ok? ==> Bounded(r.value.0, |r.value.1|)
    ensures r.Ok? ==> forall row, fold :: Keeps(r.value.0, r.value.1, row, fold) <==> Selected(f, row, fold)
  {
    if !Valid(f) {
      return Err(InvalidFilter);
    }
    var prefixes := [];
    if f.action != "" {
      prefixes := [f.action];
    }
    for i := 0 to |f.actions|
      invariant prefixes == (if f.action != "" then [f.action] else []) + NonEmpty(f.actions[..i])
    {
      assert f.actions[..i + 1][..i] == f.actions[..i];
      if f.actions[i] != "" {
        prefixes := prefixes + [f.actions[i]];
      }
    }
    assert f.actions[..|f.actions|] == f.actions;
    var clause, args := AddPrefixes(prefixes);
    clause, args := AddExcludes(clause, args, f.excludeActions);
    clause := AddActor(clause, args, f.actor);
    clause, args := AddQuery(clause, args, TrimSpace(f.query));
    clause, args := AddRest(clause, args, f);
    return Ok((clause, args));
  }

  datatype Refusal = InvalidFilter
}
