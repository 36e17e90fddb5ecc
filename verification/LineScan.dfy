/**
 The last non-empty line of a guest script's output, found by scanning backwards,
 against the plain reading: split at newlines, clean each line, take the last one
 that is not empty. Characters stand for bytes.
*/
module LineScan {

  // ---------------------------------------------------------------------------
  // The plain reading
  // ---------------------------------------------------------------------------

  function Split(s: string): (r: seq<string>)
    ensures |r| > 0
  {
    if s == "" then [""] else Extend(Split(s[..|s| - 1]), s[|s| - 1])
  }

  /** One more character: a newline opens a line, anything else goes to the last one. */
  function Extend(lines: seq<string>, c: char): (r: seq<string>)
    requires |lines| > 0
    ensures |r| > 0
  {
    var last := |lines| - 1;
    if c == '\n' then lines + [""] else lines[..last] + [lines[last] + [c]]
  }

  function Join(lines: seq<string>): string
    requires |lines| > 0
  {
    var last := |lines| - 1;
    if last == 0 then lines[0] else Join(lines[..last]) + "\n" + lines[last]
  }

  /** Splitting loses nothing. */
  lemma {:induction false} SplitRoundTrip(s: string)
    ensures Join(Split(s)) == s
  {
    if s != "" {
      var shorter, c := s[..|s| - 1], s[|s| - 1];
      SplitRoundTrip(shorter);
      RoundTripStep(shorter, Split(shorter), c);
      assert s == shorter + [c];
    }
  }

  lemma RoundTripStep(s: string, lines: seq<string>, c: char)
    requires |lines| > 0 && Join(lines) == s
    ensures Join(Extend(lines, c)) == s + [c]
  {
    JoinExtend(lines, c);
  }

  lemma JoinExtend(lines: seq<string>, c: char)
    requires |lines| > 0
    ensures Join(Extend(lines, c)) == Join(lines) + [c]
  {
    if c == '\n' {
      JoinOpen(lines);
    } else {
      JoinGrow(lines, c);
    }
  }

  lemma JoinOpen(lines: seq<string>)
    requires |lines| > 0
    ensures Join(lines + [""]) == Join(lines) + "\n"
  {
    assert (lines + [""])[..|lines|] == lines;
    assert Join(lines) + "\n" + "" == Join(lines) + "\n";
  }

  lemma JoinGrow(lines: seq<string>, c: char)
    requires |lines| > 0
    ensures Join(lines[..|lines| - 1] + [lines[|lines| - 1] + [c]]) == Join(lines) + [c]
  {
    var last := |lines| - 1;
    var before, line := lines[..last], lines[last];
    var longer := before + [line + [c]];
    if last > 0 {
      assert longer[..last] == before;
      assert Join(before) + "\n" + (line + [c]) == (Join(before) + "\n" + line) + [c];
    }
  }

  /** No newline is left inside a line. */
  lemma {:induction false} SplitAtNewlines(s: string, i: nat)
    requires i < |Split(s)|
    ensures '\n' !in Split(s)[i]
  {
    if s != "" {
      var rest := Split(s[..|s| - 1]);
      if i < |rest| {
        SplitAtNewlines(s[..|s| - 1], i);
      }
    }
  }

  function DropEnds(s: string): string {
    if s != "" && (s[|s| - 1] == '\n' || s[|s| - 1] == '\r') then DropEnds(s[..|s| - 1]) else s
  }

  function DropBlanks(s: string): string {
    if s != "" && (s[0] == ' ' || s[0] == '\t') then DropBlanks(s[1..]) else s
  }

  function Clean(line: string): string {
    DropBlanks(DropEnds(line))
  }

  function LastNonEmpty(lines: seq<string>): string {
    if lines == [] then ""
    else
      var line := Clean(lines[|lines| - 1]);
      if line != "" then line else LastNonEmpty(lines[..|lines| - 1])
  }

  function LastLine(buf: string): string {
    LastNonEmpty(Split(buf))
  }

  /** The result is the cleaned form of one of the lines, and every later line is empty once cleaned. */
  lemma {:induction false} LastLineIsLast(lines: seq<string>)
    ensures LastNonEmpty(lines) == "" ==> forall k :: 0 <= k < |lines| ==> Clean(lines[k]) == ""
    ensures LastNonEmpty(lines) != "" ==>
              exists i :: 0 <= i < |lines| && LastNonEmpty(lines) == Clean(lines[i])
                && forall k :: i < k < |lines| ==> Clean(lines[k]) == ""
  {
    if lines != [] {
      var last := |lines| - 1;
      if Clean(lines[last]) == "" {
        LastLineIsLast(lines[..last]);
        if LastNonEmpty(lines) != "" {
          var i :| 0 <= i < last && LastNonEmpty(lines[..last]) == Clean(lines[..last][i])
            && forall k :: i < k < last ==> Clean(lines[..last][k]) == "";
          assert lines[i] == lines[..last][i];
          assert forall k :: i < k < last ==> lines[k] == lines[..last][k];
        } else {
          assert forall k :: 0 <= k < last ==> lines[k] == lines[..last][k];
        }
      }
    }
  }

  // ---------------------------------------------------------------------------
  // What the scan relies on
  // ---------------------------------------------------------------------------

  lemma ExtendJoin(a: seq<string>, b: seq<string>, c: char)
    requires |b| > 0
    ensures Extend(a + b, c) == a + Extend(b, c)
  {
  }

  lemma {:induction false} SplitJoin(a: string, b: string)
    ensures Split(a + "\n" + b) == Split(a) + Split(b)
  {
    var s := a + "\n" + b;
    if b == "" {
      assert s[..|s| - 1] == a;
    } else {
      var shorter := b[..|b| - 1];
      assert s[..|s| - 1] == a + "\n" + shorter;
      SplitJoin(a, shorter);
      ExtendJoin(Split(a), Split(shorter), b[|b| - 1]);
    }
  }

  lemma {:induction false} SplitOne(line: string)
    requires '\n' !in line
    ensures Split(line) == [line]
  {
    if line != "" {
      SplitOne(line[..|line| - 1]);
      assert line == line[..|line| - 1] + [line[|line| - 1]];
    }
  }

  /** A carriage return at the end changes nothing. */
  lemma DropReturn(buf: string)
    requires buf != "" && buf[|buf| - 1] == '\r'
    ensures LastLine(buf) == LastLine(buf[..|buf| - 1])
  {
    var rest := Split(buf[..|buf| - 1]);
    var last := rest[|rest| - 1] + "\r";
    assert Split(buf) == rest[..|rest| - 1] + [last];
    assert Split(buf)[..|rest| - 1] == rest[..|rest| - 1];
    assert last[..|last| - 1] == rest[|rest| - 1];
    assert Clean(last) == Clean(rest[|rest| - 1]);
  }

  /** Neither does a newline. */
  lemma DropNewline(buf: string)
    requires buf != "" && buf[|buf| - 1] == '\n'
    ensures LastLine(buf) == LastLine(buf[..|buf| - 1])
  {
    var rest := Split(buf[..|buf| - 1]);
    assert Split(buf)[..|rest|] == rest;
  }

  /** The line that ends the buffer decides, and otherwise what is before it. */
  lemma LastLineDecides(before: string, line: string)
    requires '\n' !in line
    ensures LastLine(before + "\n" + line) == if Clean(line) != "" then Clean(line) else LastLine(before)
    ensures LastLine(line) == Clean(line)
  {
    SplitJoin(before, line);
    SplitOne(line);
    assert (Split(before) + [line])[..|Split(before)|] == Split(before);
  }

  /** The answer for the part of the buffer before `end`. */
  function LastLineTo(buf: string, end: nat): string
    requires end <= |buf|
  {
    LastLine(buf[..end])
  }

  lemma ReturnAt(buf: string, end: nat)
    requires 0 < end <= |buf| && buf[end - 1] == '\r'
    ensures LastLineTo(buf, end) == LastLineTo(buf, end - 1)
  {
    DropReturn(buf[..end]);
    assert buf[..end][..end - 1] == buf[..end - 1];
  }

  lemma NewlineAt(buf: string, end: nat)
    requires 0 < end <= |buf| && buf[end - 1] == '\n'
    ensures LastLineTo(buf, end) == LastLineTo(buf, end - 1)
  {
    DropNewline(buf[..end]);
    assert buf[..end][..end - 1] == buf[..end - 1];
  }

  /** A line without its newline. */
  lemma LineAt(buf: string, start: nat, stop: nat)
    requires start <= stop <= |buf| && (start == 0 || buf[start - 1] == '\n') && '\n' !in buf[start..stop]
    ensures LastLineTo(buf, stop)
         == if Clean(buf[start..stop]) != "" then Clean(buf[start..stop]) else LastLineTo(buf, if start == 0 then 0 else start - 1)
  {
    if start == 0 {
      LastLineDecides("", buf[..stop]);
      assert buf[start..stop] == buf[..stop] && buf[..0] == "";
    } else {
      LastLineDecides(buf[..start - 1], buf[start..stop]);
      assert buf[..stop] == buf[..start - 1] + "\n" + buf[start..stop];
    }
  }

  lemma CleanDropsNewline(line: string)
    requires line != "" && line[|line| - 1] == '\n'
    ensures Clean(line) == Clean(line[..|line| - 1])
  {
  }

  /** One round of the scan: the slice from the line's start, with or without its newline. */
  lemma RoundDecides(buf: string, start: nat, end: nat)
    requires start < end <= |buf|
    requires start == 0 || buf[start - 1] == '\n'
    requires forall k :: start <= k < end - 1 ==> buf[k] != '\n'
    ensures Clean(buf[start..end]) != "" ==> LastLineTo(buf, end) == Clean(buf[start..end])
    ensures Clean(buf[start..end]) == "" ==> LastLineTo(buf, end) == LastLineTo(buf, if start == 0 then 0 else start - 1)
  {
    if buf[end - 1] == '\n' {
      NewlineAt(buf, end);
      LineAt(buf, start, end - 1);
      CleanDropsNewline(buf[start..end]);
      assert buf[start..end][..end - 1 - start] == buf[start..end - 1];
    } else {
      LineAt(buf, start, end);
    }
  }

  lemma JoinSnoc(lines: seq<string>, last: string)
    requires |lines| > 0
    ensures Join(lines + [last]) == Join(lines) + "\n" + last
  {
    assert (lines + [last])[..|lines|] == lines;
  }

  lemma SplitSnoc(lines: seq<string>, last: string)
    requires |lines| > 0 && Split(Join(lines)) == lines && '\n' !in last
    ensures Split(Join(lines + [last])) == lines + [last]
  {
    JoinSnoc(lines, last);
    SplitJoin(Join(lines), last);
    SplitOne(last);
  }

  ghost predicate NewlineFree(lines: seq<string>) {
    forall i :: 0 <= i < |lines| ==> '\n' !in lines[i]
  }

  /** Lines without newlines that join to the buffer are its split: there is no other. */
  lemma {:induction false} SplitOfJoin(lines: seq<string>)
    requires |lines| > 0 && NewlineFree(lines)
    ensures Split(Join(lines)) == lines
  {
    var before, last := lines[..|lines| - 1], lines[|lines| - 1];
    assert lines == before + [last];
    if before == [] {
      SplitOne(last);
    } else {
      SplitOfJoin(before);
      SplitSnoc(before, last);
    }
  }

  lemma SplitExactly(s: string, lines: seq<string>)
    ensures lines == Split(s) <==> |lines| > 0 && NewlineFree(lines) && Join(lines) == s
  {
    SplitRoundTrip(s);
    forall i | 0 <= i < |Split(s)| ensures '\n' !in Split(s)[i] {
      SplitAtNewlines(s, i);
    }
    if |lines| > 0 && NewlineFree(lines) {
      SplitOfJoin(lines);
    }
  }

  // ---------------------------------------------------------------------------
  // The scan
  // ---------------------------------------------------------------------------

  method TrimLine(raw: string) returns (line: string)
    ensures line == Clean(raw)
  {
    line := raw;
    while |line| > 0 && (line[|line| - 1] == '\n' || line[|line| - 1] == '\r')
      invariant DropEnds(line) == DropEnds(raw)
      decreases |line|
    {
      line := line[..|line| - 1];
    }
    var i := 0;
    while i < |line| && (line[i] == ' ' || line[i] == '\t')
      invariant 0 <= i <= |line| && DropBlanks(line[i..]) == DropBlanks(line)
    {
      assert line[i..][1..] == line[i + 1..];
      i := i + 1;
    }
    line := line[i..];
  }

  /** Back to the start of the line that ends at `end`, its own newline included. */
  method LineStart(buf: string, end: nat) returns (start: nat)
    requires 0 < end <= |buf|
    ensures start < end && (start == 0 || buf[start - 1] == '\n')
    ensures forall k :: start <= k < end - 1 ==> buf[k] != '\n'
  {
    start := end - 1;
    while start > 0 && buf[start - 1] != '\n'
      invariant 0 <= start < end
      invariant forall k :: start <= k < end - 1 ==> buf[k] != '\n'
    {
      start := start - 1;
    }
  }

  method LastNonEmptyLine(buf: string) returns (r: string)
    ensures r == LastLine(buf)
  {
    var end := |buf|;
    assert buf[..end] == buf;
    while end > 0
      invariant 0 <= end <= |buf| && LastLineTo(buf, end) == LastLine(buf)
      decreases end
    {
      var start := LineStart(buf, end);
      RoundDecides(buf, start, end);
      var line := TrimLine(buf[start..end]);
      if line != "" {
        return line;
      }
      end := start;
      if end > 0 && buf[end - 1] == '\n' {
        end := end - 1;
      }
      if end > 0 && buf[end - 1] == '\r' {
        ReturnAt(buf, end);
        end := end - 1;
      }
    }
    return "";
  }
}
