/**
 Rendering library actions into one sourceable shell file. Actions are sorted by
 slug; actions with a blank body are left out; an illegal or repeated function
 name stops the rendering.
*/
module ActionLibrary {
  import opened Wrappers
  import opened GoStrings
  import opened Lexical
  import opened ActionSlug
  import LineScan

  datatype Action = Action(slug: string, name: string, description: string, script: string)

  datatype Refusal = IllegalName(slug: string) | SameName(first: string, second: string)

  predicate Blank(a: Action) {
    TrimSpace(a.script) == ""
  }

  function TrimNewlines(s: string): string {
    if s != "" && s[|s| - 1] == '\n' then TrimNewlines(s[..|s| - 1]) else s
  }

  function Commented(s: string): string {
    if s == "" then "" else (if s[0] == '\n' then "\n# " else [s[0]]) + Commented(s[1..])
  }

  function BodyLine(line: string): string {
    if TrimSpace(line) == "" then "\n" else "    " + line + "\n"
  }

  function Indented(lines: seq<string>): string {
    if lines == [] then "" else Indented(lines[..|lines| - 1]) + BodyLine(lines[|lines| - 1])
  }

  function Comments(a: Action): string {
    (if a.name != "" then "# " + a.name + "\n" else "")
    + (if TrimSpace(a.description) != "" then "# " + Commented(TrimSpace(a.description)) + "\n" else "")
  }

  /** One action as a shell function. */
  function Rendered(a: Action): string {
    Comments(a) + Underscored(TrimSpace(a.slug)) + "() {\n" + Indented(LineScan.Split(TrimNewlines(a.script))) + "}\n\n"
  }

  function RenderedAll(actions: seq<Action>): string {
    if actions == [] then "" else RenderedAll(actions[..|actions| - 1]) + Rendered(actions[|actions| - 1])
  }

  function NonBlank(actions: seq<Action>): seq<Action> {
    if actions == [] then []
    else
      var last := actions[|actions| - 1];
      NonBlank(actions[..|actions| - 1]) + if Blank(last) then [] else [last]
  }

  // ---------------------------------------------------------------------------
  // Order
  // ---------------------------------------------------------------------------

  ghost predicate BySlug(s: seq<Action>) {
    forall i, j :: 0 <= i < j < |s| ==> !Less(s[j].slug, s[i].slug)
  }

  ghost predicate StrictlyBySlug(s: seq<Action>) {
    forall i, j :: 0 <= i < j < |s| ==> Less(s[i].slug, s[j].slug)
  }

  /** Sorting by slug; nothing is promised about actions with the same slug. */
  method SortBySlug(actions: seq<Action>) returns (r: seq<Action>)
    ensures BySlug(r) && multiset(r) == multiset(actions)
  {
    r := [];
    for i := 0 to |actions|
      invariant BySlug(r) && multiset(r) == multiset(actions[..i])
    {
      r := InsertBySlug(r, actions[i]);
      assert actions[..i + 1] == actions[..i] + [actions[i]];
    }
    assert actions[..|actions|] == actions;
  }

  method InsertBySlug(s: seq<Action>, x: Action) returns (r: seq<Action>)
    requires BySlug(s)
    ensures BySlug(r) && multiset(r) == multiset(s) + multiset{x}
  {
    var i := |s|;
    while i > 0 && Less(x.slug, s[i - 1].slug)
      invariant 0 <= i <= |s|
      invariant forall k :: i <= k < |s| ==> Less(x.slug, s[k].slug)
    {
      i := i - 1;
    }
    r := s[..i] + [x] + s[i..];
    InsertedBySlug(s, x, i);
    InsertedOnce(s, x, i);
  }

  lemma InsertedBySlug(s: seq<Action>, x: Action, i: nat)
    requires BySlug(s) && i <= |s| && (i > 0 ==> !Less(x.slug, s[i - 1].slug))
    requires forall k :: i <= k < |s| ==> Less(x.slug, s[k].slug)
    ensures BySlug(s[..i] + [x] + s[i..])
  {
    forall k | 0 <= k < i ensures !Less(x.slug, s[k].slug) {
      NotBelow(x.slug, s[k].slug, s[i - 1].slug);
    }
    forall k | i <= k < |s| ensures !Less(s[k].slug, x.slug) {
      LessIsTotal(x.slug, s[k].slug);
    }
  }

  lemma InsertedOnce(s: seq<Action>, x: Action, i: nat)
    requires i <= |s|
    ensures multiset(s[..i] + [x] + s[i..]) == multiset(s) + multiset{x}
  {
    assert s == s[..i] + s[i..];
  }

  /** Actions with different slugs have one listing by slug. */
  lemma {:induction false} BySlugUnique(a: seq<Action>, b: seq<Action>)
    requires StrictlyBySlug(a) && StrictlyBySlug(b) && multiset(a) == multiset(b)
    ensures a == b
    decreases |a|
  {
    assert |a| == |multiset(a)| == |multiset(b)| == |b|;
    if a != [] {
      LeadsAll(a, b);
      LeadsAll(b, a);
      LessIsTotal(a[0].slug, b[0].slug);
      HeadsEqual(a, b);
      assert a == [a[0]] + a[1..] && b == [b[0]] + b[1..];
      BySlugUnique(a[1..], b[1..]);
    }
  }

  lemma LeadsAll(a: seq<Action>, b: seq<Action>)
    requires StrictlyBySlug(a) && a != [] && b != [] && multiset(a) == multiset(b)
    ensures !Less(b[0].slug, a[0].slug)
    ensures b[0].slug == a[0].slug ==> b[0] == a[0]
  {
    assert b[0] in multiset(a);
    var i :| 0 <= i < |a| && a[i] == b[0];
    LessIsTotal(a[0].slug, a[i].slug);
  }

  lemma HeadsEqual(a: seq<Action>, b: seq<Action>)
    requires a != [] && b != [] && multiset(a) == multiset(b) && a[0] == b[0]
    ensures multiset(a[1..]) == multiset(b[1..])
  {
    assert a == [a[0]] + a[1..] && b == [b[0]] + b[1..];
    assert multiset(a[1..]) == multiset(a) - multiset{a[0]};
    assert multiset(b[1..]) == multiset(b) - multiset{b[0]};
  }

  /** Which actions are not blank does not depend on their order. */
  lemma {:induction false} NonBlankCounts(actions: seq<Action>, a: Action)
    ensures multiset(NonBlank(actions))[a] == if Blank(a) then 0 else multiset(actions)[a]
  {
    if actions != [] {
      var shorter, last := actions[..|actions| - 1], actions[|actions| - 1];
      NonBlankCounts(shorter, a);
      assert actions == shorter + [last];
    }
  }

  lemma SameNonBlank(a: seq<Action>, b: seq<Action>)
    requires multiset(a) == multiset(b)
    ensures multiset(NonBlank(a)) == multiset(NonBlank(b))
  {
    forall x ensures multiset(NonBlank(a))[x] == multiset(NonBlank(b))[x] {
      NonBlankCounts(a, x);
      NonBlankCounts(b, x);
    }
  }

  // ---------------------------------------------------------------------------
  // Names
  // ---------------------------------------------------------------------------

  /** Every action has a legal function name and no two share one. */
  ghost predicate NamesOk(s: seq<Action>) {
    && (forall i :: 0 <= i < |s| ==> CallableName(s[i].slug).Some?)
    && forall i, j :: 0 <= i < j < |s| ==> CallableName(s[i].slug) != CallableName(s[j].slug)
  }

  lemma TwiceInMultiset(s: seq<Action>, i: nat, j: nat)
    requires i < j < |s| && s[i] == s[j]
    ensures multiset(s)[s[i]] >= 2
  {
    assert s == s[..i] + [s[i]] + s[i + 1..j] + [s[j]] + s[j + 1..];
  }

  lemma {:induction false} TwiceInSequence(s: seq<Action>, x: Action)
    requires multiset(s)[x] >= 2
    ensures exists i, j :: 0 <= i < j < |s| && s[i] == s[j] == x
    decreases |s|
  {
    var last := |s| - 1;
    var shorter := s[..last];
    assert s == shorter + [s[last]];
    if s[last] == x {
      assert x in multiset(shorter);
      var i :| 0 <= i < last && shorter[i] == x;
      assert s[i] == s[last] == x;
    } else {
      TwiceInSequence(shorter, x);
      var i, j :| 0 <= i < j < last && shorter[i] == shorter[j] == x;
      assert s[i] == s[j] == x;
    }
  }

  /** Whether the names are fine does not depend on the order. */
  lemma NamesIgnoreOrder(a: seq<Action>, b: seq<Action>)
    requires multiset(a) == multiset(b) && NamesOk(a)
    ensures NamesOk(b)
  {
    forall i | 0 <= i < |b| ensures CallableName(b[i].slug).Some? {
      assert b[i] in multiset(a);
    }
    forall i, j | 0 <= i < j < |b| ensures CallableName(b[i].slug) != CallableName(b[j].slug) {
      assert b[i] in multiset(a) && b[j] in multiset(a);
      var p :| 0 <= p < |a| && a[p] == b[i];
      var q :| 0 <= q < |a| && a[q] == b[j];
      if p == q {
        NoneTwice(a, b, i, j);
      }
    }
  }

  lemma NoneTwice(a: seq<Action>, b: seq<Action>, i: nat, j: nat)
    requires multiset(a) == multiset(b) && NamesOk(a) && i < j < |b|
    ensures b[i] != b[j]
  {
    if multiset(a)[b[i]] >= 2 {
      TwiceInSequence(a, b[i]);
    } else if b[i] == b[j] {
      TwiceInMultiset(b, i, j);
    }
  }

  lemma {:induction false} NonBlankPrefix(actions: seq<Action>, k: nat)
    requires k <= |actions|
    ensures NonBlank(actions[..k]) <= NonBlank(actions)
  {
    if k == |actions| {
      assert actions[..k] == actions;
    } else {
      var shorter := actions[..|actions| - 1];
      assert shorter[..k] == actions[..k];
      NonBlankPrefix(shorter, k);
    }
  }

  lemma {:induction false} NonBlankKeepsOrder(actions: seq<Action>)
    requires BySlug(actions)
    ensures BySlug(NonBlank(actions))
    ensures forall i :: 0 <= i < |NonBlank(actions)| ==> NonBlank(actions)[i] in actions
  {
    if actions != [] {
      var shorter := actions[..|actions| - 1];
      NonBlankKeepsOrder(shorter);
    }
  }

  /** Sorted, with different names, hence with different slugs. */
  lemma DifferentNamesSortStrictly(s: seq<Action>)
    requires BySlug(s) && NamesOk(s)
    ensures StrictlyBySlug(s)
  {
    forall i, j | 0 <= i < j < |s| ensures Less(s[i].slug, s[j].slug) {
      LessIsTotal(s[i].slug, s[j].slug);
    }
  }

  /** Valid, pairwise different slugs always have good names. */
  lemma ValidSlugsAreAccepted(actions: seq<Action>)
    requires forall i :: 0 <= i < |actions| ==> ValidSlug(actions[i].slug)
    requires forall i, j :: 0 <= i < j < |actions| ==> actions[i].slug != actions[j].slug
    ensures NamesOk(actions)
  {
    forall i | 0 <= i < |actions| ensures CallableName(actions[i].slug).Some? {
      ValidSlugIsCallable(actions[i].slug);
    }
    forall i, j | 0 <= i < j < |actions| ensures CallableName(actions[i].slug) != CallableName(actions[j].slug) {
      if CallableName(actions[i].slug) == CallableName(actions[j].slug) {
        CallableIsInjective(actions[i].slug, actions[j].slug);
      }
    }
  }

  // ---------------------------------------------------------------------------
  // The file
  // ---------------------------------------------------------------------------

  /** The file for a listing; empty when there is nothing to inject. */
  function FileText(header: string, order: seq<Action>): string {
    if order == [] then "" else header + RenderedAll(order)
  }

  /** Each action that is not blank, once, by slug. */
  ghost predicate IsListing(actions: seq<Action>, order: seq<Action>) {
    multiset(order) == multiset(NonBlank(actions)) && StrictlyBySlug(order)
  }

  /** The names used so far. */
  ghost predicate SeenOk(seen: map<string, string>, done: seq<Action>) {
    && (forall i :: 0 <= i < |done| ==> CallableName(done[i].slug).Some? && CallableName(done[i].slug).value in seen)
    && (forall fn :: fn in seen ==> exists i :: 0 <= i < |done| && CallableName(done[i].slug) == Some(fn))
  }

  lemma FreshName(seen: map<string, string>, done: seq<Action>, a: Action)
    requires NamesOk(done) && SeenOk(seen, done)
    ensures NamesOk(done + [a]) <==> CallableName(a.slug).Some? && CallableName(a.slug).value !in seen
    ensures NamesOk(done + [a]) ==> SeenOk(seen[CallableName(a.slug).value := a.slug], done + [a])
  {
    var longer, fn := done + [a], CallableName(a.slug);
    assert longer[|done|] == a && forall i :: 0 <= i < |done| ==> longer[i] == done[i];
    if fn.Some? && fn.value in seen {
      var i :| 0 <= i < |done| && CallableName(done[i].slug) == fn;
      assert CallableName(longer[i].slug) == CallableName(longer[|done|].slug);
    }
    if fn.Some? && fn.value !in seen {
      SeenGrows(seen, done, a);
    }
  }

  lemma SeenGrows(seen: map<string, string>, done: seq<Action>, a: Action)
    requires SeenOk(seen, done) && CallableName(a.slug).Some?
    ensures SeenOk(seen[CallableName(a.slug).value := a.slug], done + [a])
  {
    var longer, more := done + [a], seen[CallableName(a.slug).value := a.slug];
    assert longer[|done|] == a && forall i :: 0 <= i < |done| ==> longer[i] == done[i];
    forall f | f in more ensures exists i :: 0 <= i < |longer| && CallableName(longer[i].slug) == Some(f) {
      if f in seen {
        var i :| 0 <= i < |done| && CallableName(done[i].slug) == Some(f);
        assert CallableName(longer[i].slug) == Some(f);
      } else {
        assert CallableName(longer[|done|].slug) == Some(f);
      }
    }
  }

  lemma RefusedForGood(sorted: seq<Action>, k: nat)
    requires k <= |sorted| && !NamesOk(NonBlank(sorted[..k]))
    ensures !NamesOk(NonBlank(sorted))
  {
    NonBlankPrefix(sorted, k);
    var whole, part := NonBlank(sorted), NonBlank(sorted[..k]);
    assert forall i :: 0 <= i < |part| ==> part[i] == whole[i];
  }

  lemma OneMore(sorted: seq<Action>, k: nat)
    requires k < |sorted|
    ensures NonBlank(sorted[..k + 1]) == NonBlank(sorted[..k]) + if Blank(sorted[k]) then [] else [sorted[k]]
  {
    assert sorted[..k + 1][..k] == sorted[..k];
  }

  lemma RenderedAppends(done: seq<Action>, a: Action)
    ensures RenderedAll(done + [a]) == RenderedAll(done) + Rendered(a)
  {
    assert (done + [a])[..|done|] == done;
  }

  /** One action that is not blank: refused for its name, or its text and its name recorded. */
  method RenderNext(seen: map<string, string>, a: Action, ghost done: seq<Action>)
    returns (refusal: Option<Refusal>, names: map<string, string>, text: string)
    requires NamesOk(done) && SeenOk(seen, done)
    ensures refusal.Some? <==> !NamesOk(done + [a])
    ensures refusal.None? ==> SeenOk(names, done + [a]) && RenderedAll(done + [a]) == RenderedAll(done) + text
  {
    RenderedAppends(done, a);
    FreshName(seen, done, a);
    var fn := CallableName(a.slug);
    names, text := seen, "";
    if fn.None? {
      refusal := Some(IllegalName(a.slug));
    } else if fn.value in seen {
      refusal := Some(SameName(seen[fn.value], a.slug));
    } else {
      refusal := None;
      names := seen[fn.value := a.slug];
      text := RenderAction(a, fn.value);
    }
  }

  /** The rendering loop over the sorted actions. */
  method RenderSorted(header: string, sorted: seq<Action>) returns (r: Result<string, Refusal>)
    ensures r.Err? <==> !NamesOk(NonBlank(sorted))
    ensures r.Ok? ==> r.value == FileText(header, NonBlank(sorted))
  {
    var text, count := "", 0;
    var seen: map<string, string> := map[];
    ghost var done: seq<Action> := [];
    for k := 0 to |sorted|
      invariant done == NonBlank(sorted[..k]) && NamesOk(done) && SeenOk(seen, done)
      invariant count == |done| && text == RenderedAll(done)
    {
      OneMore(sorted, k);
      if !Blank(sorted[k]) {
        var refusal, names, one := RenderNext(seen, sorted[k], done);
        if refusal.Some? {
          RefusedForGood(sorted, k + 1);
          return Err(refusal.value);
        }
        seen, text, count, done := names, text + one, count + 1, done + [sorted[k]];
      }
    }
    assert sorted[..|sorted|] == sorted;
    return Ok(if count == 0 then "" else header + text);
  }

  method BuildActionLibrary(header: string, actions: seq<Action>) returns (r: Result<string, Refusal>)
    ensures r.Err? <==> !NamesOk(NonBlank(actions))
    ensures r.Ok? ==> exists order :: IsListing(actions, order) && r.value == FileText(header, order)
  {
    var sorted := SortBySlug(actions);
    r := RenderSorted(header, sorted);
    SameNonBlank(sorted, actions);
    if r.Ok? {
      NamesIgnoreOrder(NonBlank(sorted), NonBlank(actions));
      NonBlankKeepsOrder(sorted);
      DifferentNamesSortStrictly(NonBlank(sorted));
      assert IsListing(actions, NonBlank(sorted));
    } else if NamesOk(NonBlank(actions)) {
      NamesIgnoreOrder(NonBlank(actions), NonBlank(sorted));
    }
  }

  method IndentBody(script: string) returns (body: string)
    ensures body == Indented(LineScan.Split(TrimNewlines(script)))
  {
    var lines := LineScan.Split(TrimNewlines(script));
    body := "";
    for i := 0 to |lines|
      invariant body == Indented(lines[..i])
    {
      assert lines[..i + 1][..i] == lines[..i];
      body := body + BodyLine(lines[i]);
    }
    assert lines[..|lines|] == lines;
  }

  method RenderAction(a: Action, fn: string) returns (text: string)
    requires fn == Underscored(TrimSpace(a.slug))
    ensures text == Rendered(a)
  {
    text := Comments(a);
    var body := IndentBody(a.script);
    text := text + fn + "() {\n" + body + "}\n\n";
  }

  /** Permuting the input changes neither whether the rendering succeeds nor the file. */
  lemma RenderingIgnoresOrder(header: string, a: seq<Action>, b: seq<Action>, first: seq<Action>, second: seq<Action>)
    requires multiset(a) == multiset(b)
    ensures NamesOk(NonBlank(a)) <==> NamesOk(NonBlank(b))
    ensures IsListing(a, first) && IsListing(b, second) ==> FileText(header, first) == FileText(header, second)
  {
    SameNonBlank(a, b);
    if NamesOk(NonBlank(a)) {
      NamesIgnoreOrder(NonBlank(a), NonBlank(b));
    }
    if NamesOk(NonBlank(b)) {
      NamesIgnoreOrder(NonBlank(b), NonBlank(a));
    }
    if IsListing(a, first) && IsListing(b, second) {
      BySlugUnique(first, second);
    }
  }
}
