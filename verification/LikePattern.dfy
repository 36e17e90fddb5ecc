/**
 LIKE patterns with backslash as escape character, as in section 9.7.1 of the
 PostgreSQL documentation, and the escaping that turns search text into one.
 `fold` is the identity for LIKE and a case folding for ILIKE.
*/
module LikePattern {

  /** A pattern that ends in its escape character matches nothing. */
  predicate Matches(pattern: string, text: string, fold: char -> char)
    decreases |pattern| + |text|
  {
    if pattern == "" then text == ""
    else if pattern[0] == '%' then
      Matches(pattern[1..], text, fold) || (text != "" && Matches(pattern, text[1..], fold))
    else if pattern[0] == '_' then text != "" && Matches(pattern[1..], text[1..], fold)
    else if pattern[0] == '\\' then
      |pattern| > 1 && text != "" && fold(pattern[1]) == fold(text[0]) && Matches(pattern[2..], text[1..], fold)
    else text != "" && fold(pattern[0]) == fold(text[0]) && Matches(pattern[1..], text[1..], fold)
  }

  function EscapeChar(c: char): string {
    if c == '\\' || c == '%' || c == '_' then ['\\', c] else [c]
  }

  function EscapeLike(s: string): string {
    if s == "" then "" else EscapeChar(s[0]) + EscapeLike(s[1..])
  }

  function LikePrefix(s: string): string {
    EscapeLike(s) + "%"
  }

  function LikeContains(s: string): string {
    "%" + EscapeLike(s) + "%"
  }

  /** `s` stands in `text` at position `at`, up to folding. */
  ghost predicate OccursAt(s: string, text: string, at: nat, fold: char -> char) {
    at + |s| <= |text| && forall i :: 0 <= i < |s| ==> fold(s[i]) == fold(text[at + i])
  }

  ghost predicate Occurs(s: string, text: string, fold: char -> char) {
    exists at: nat :: OccursAt(s, text, at, fold)
  }

  /** One escaped character matches exactly that character. */
  lemma EscapedChar(c: char, rest: string, text: string, fold: char -> char)
    ensures Matches(EscapeChar(c) + rest, text, fold)
            <==> text != "" && fold(c) == fold(text[0]) && Matches(rest, text[1..], fold)
  {
    var pattern := EscapeChar(c) + rest;
    if |EscapeChar(c)| == 2 {
      assert pattern[2..] == rest;
    } else {
      assert pattern[1..] == rest;
    }
  }

  /** Escaped text consumes exactly that text, whatever pattern follows. */
  lemma {:induction false} EscapedText(s: string, rest: string, text: string, fold: char -> char)
    ensures Matches(EscapeLike(s) + rest, text, fold)
            <==> OccursAt(s, text, 0, fold) && Matches(rest, text[|s|..], fold)
  {
    if s == "" {
      assert EscapeLike(s) + rest == rest && text[0..] == text;
    } else {
      assert EscapeLike(s) + rest == EscapeChar(s[0]) + (EscapeLike(s[1..]) + rest);
      EscapedChar(s[0], EscapeLike(s[1..]) + rest, text, fold);
      if text != "" {
        EscapedText(s[1..], rest, text[1..], fold);
        ShiftOccurrence(s, text, fold);
        assert |s| <= |text| ==> text[1..][|s| - 1..] == text[|s|..];
      }
    }
  }

  lemma ShiftOccurrence(s: string, text: string, fold: char -> char)
    requires s != "" && text != ""
    ensures OccursAt(s, text, 0, fold) <==> fold(s[0]) == fold(text[0]) && OccursAt(s[1..], text[1..], 0, fold)
  {
    if fold(s[0]) == fold(text[0]) && OccursAt(s[1..], text[1..], 0, fold) {
      forall i | 0 <= i < |s| ensures fold(s[i]) == fold(text[i]) {
        if i > 0 {
          assert s[1..][i - 1] == s[i] && text[1..][i - 1] == text[i];
        }
      }
    }
    if OccursAt(s, text, 0, fold) {
      forall i | 0 <= i < |s[1..]| ensures fold(s[1..][i]) == fold(text[1..][i]) {
        assert s[1..][i] == s[i + 1] && text[1..][i] == text[i + 1];
      }
    }
  }

  lemma {:induction false} PercentMatchesAll(text: string, fold: char -> char)
    ensures Matches("%", text, fold)
  {
    if text != "" {
      PercentMatchesAll(text[1..], fold);
    }
  }

  /** A leading percent sign lets the rest match at any position. */
  lemma {:induction false} PercentSkips(rest: string, text: string, fold: char -> char)
    ensures Matches("%" + rest, text, fold) <==> exists at :: 0 <= at <= |text| && Matches(rest, text[at..], fold)
    decreases |text|
  {
    var pattern := "%" + rest;
    assert pattern[1..] == rest && text[0..] == text;
    if text != "" {
      PercentSkips(rest, text[1..], fold);
      assert forall at :: 0 <= at <= |text[1..]| ==> text[1..][at..] == text[at + 1..];
      if at :| 0 <= at <= |text| && Matches(rest, text[at..], fold) && at > 0 {
        assert text[1..][at - 1..] == text[at..];
      }
    }
  }

  /** `likePrefix(s)` matches exactly the texts that start with s. */
  lemma PrefixMeaning(s: string, text: string, fold: char -> char)
    ensures Matches(LikePrefix(s), text, fold) <==> OccursAt(s, text, 0, fold)
  {
    EscapedText(s, "%", text, fold);
    if |s| <= |text| {
      PercentMatchesAll(text[|s|..], fold);
    }
  }

  lemma DropOccurrence(s: string, text: string, at: nat, fold: char -> char)
    requires at <= |text|
    ensures OccursAt(s, text[at..], 0, fold) <==> OccursAt(s, text, at, fold)
  {
    forall i | 0 <= i && at + i < |text| ensures text[at..][i] == text[at + i] {}
  }

  /** `likeContains(s)` matches exactly the texts in which s occurs. */
  lemma ContainsMeaning(s: string, text: string, fold: char -> char)
    ensures Matches(LikeContains(s), text, fold) <==> Occurs(s, text, fold)
  {
    assert LikeContains(s) == "%" + LikePrefix(s);
    PercentSkips(LikePrefix(s), text, fold);
    forall at: nat | at <= |text|
      ensures Matches(LikePrefix(s), text[at..], fold) <==> OccursAt(s, text, at, fold)
    {
      PrefixMeaning(s, text[at..], fold);
      DropOccurrence(s, text, at, fold);
    }
  }
}
