/** Library action slugs and the shell function names they become. */
module ActionSlug {
  import opened Wrappers
  import opened GoStrings

  predicate IsLower(c: char) {
    'a' <= c <= 'z'
  }

  predicate IsAlnum(c: char) {
    IsLower(c) || '0' <= c <= '9'
  }

  /** What may follow a letter or digit of the slug: more of the word, or a hyphen and a further word. */
  predicate InWord(s: string) {
    if s == "" then true
    else if s[0] == '-' then |s| > 1 && IsAlnum(s[1]) && InWord(s[2..])
    else IsAlnum(s[0]) && InWord(s[1..])
  }

  /** A letter, then letters and digits, then words of letters and digits, each after one hyphen. */
  predicate ValidSlug(slug: string) {
    slug != "" && IsLower(slug[0]) && InWord(slug[1..])
  }

  predicate LegalName(name: string) {
    && name != "" && (IsLower(name[0]) || name[0] == '_')
    && forall i :: 0 <= i < |name| ==> IsAlnum(name[i]) || name[i] == '_'
  }

  function Underscored(s: string): (r: string)
    ensures |r| == |s|
    ensures forall i :: 0 <= i < |s| ==> r[i] == if s[i] == '-' then '_' else s[i]
  {
    if s == "" then "" else [if s[0] == '-' then '_' else s[0]] + Underscored(s[1..])
  }

  function CallableName(slug: string): Option<string> {
    var name := Underscored(TrimSpace(slug));
    if LegalName(name) then Some(name) else None
  }

  /** Words and single hyphens only, and not a hyphen at either end. */
  ghost predicate Kebab(s: string) {
    && (forall i :: 0 <= i < |s| ==> IsAlnum(s[i]) || s[i] == '-')
    && (forall i :: 0 <= i < |s| && s[i] == '-' ==> i + 1 < |s| && s[i + 1] != '-')
  }

  lemma {:induction false} InWordIsKebab(s: string)
    ensures InWord(s) <==> Kebab(s)
  {
    if s != "" {
      KebabTail(s);
      InWordIsKebab(s[1..]);
      if s[0] == '-' && |s| > 1 {
        KebabTail(s[1..]);
        assert s[1..][1..] == s[2..];
        InWordIsKebab(s[2..]);
      }
    }
  }

  lemma KebabTail(s: string)
    requires s != ""
    ensures Kebab(s) <==> (IsAlnum(s[0]) || (s[0] == '-' && |s| > 1 && s[1] != '-')) && Kebab(s[1..])
  {
    assert forall i :: 0 < i < |s| ==> s[i] == s[1..][i - 1];
    if (IsAlnum(s[0]) || (s[0] == '-' && |s| > 1 && s[1] != '-')) && Kebab(s[1..]) {
      forall i | 0 <= i < |s| ensures IsAlnum(s[i]) || s[i] == '-' {
        if i > 0 { assert s[i] == s[1..][i - 1]; }
      }
      forall i | 0 <= i < |s| && s[i] == '-' ensures i + 1 < |s| && s[i + 1] != '-' {
        if i > 0 { assert s[i] == s[1..][i - 1]; assert s[1..][i] == s[i + 1]; }
      }
    }
    if Kebab(s) {
      forall i | 0 <= i < |s[1..]| && s[1..][i] == '-' ensures i + 1 < |s[1..]| && s[1..][i + 1] != '-' {
        assert s[i + 1] == '-';
      }
    }
  }

  /** The shape in one line: starts with a letter, letters, digits and single inner hyphens. */
  lemma SlugShape(slug: string)
    ensures ValidSlug(slug) <==> slug != "" && IsLower(slug[0]) && Kebab(slug)
  {
    if slug != "" {
      InWordIsKebab(slug[1..]);
      KebabTail(slug);
    }
  }

  lemma {:induction false} NothingToTrim(s: string)
    requires forall i :: 0 <= i < |s| ==> !IsSpace(s[i])
    ensures TrimSpace(s) == s
  {
  }

  /** A valid slug has a legal name, and it is the slug with hyphens replaced. */
  lemma ValidSlugIsCallable(slug: string)
    requires ValidSlug(slug)
    ensures CallableName(slug) == Some(Underscored(slug)) && LegalName(Underscored(slug))
  {
    SlugShape(slug);
    NothingToTrim(slug);
  }

  /** No two valid slugs share a name. */
  lemma CallableIsInjective(a: string, b: string)
    requires ValidSlug(a) && ValidSlug(b) && CallableName(a) == CallableName(b)
    ensures a == b
  {
    ValidSlugIsCallable(a);
    ValidSlugIsCallable(b);
    SlugShape(a);
    SlugShape(b);
    forall i | 0 <= i < |a| ensures a[i] == b[i] {
      assert Underscored(a)[i] == Underscored(b)[i];
    }
  }
}
