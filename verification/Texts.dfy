/** What str.splitlines, strip and split do, and how texts made of lines and words
    are read back. */
module Texts {
  import opened Basics

  // --------------------------------------------------------------- lines

  /** Where str.splitlines breaks. */
  predicate IsBreak(c: char) {
    '\n' <= c <= '\r' || '\U{1C}' <= c <= '\U{1E}' || c == '\U{85}' || '\U{2028}' <= c <= '\U{2029}'
  }

  /** What white space matches in a pattern, and what strip removes. */
  predicate IsSpace(c: char) {
    || IsBreak(c) || c == ' ' || c == '\t' || c == '\U{1F}' || c == '\U{A0}' || c == '\U{1680}'
    || '\U{2000}' <= c <= '\U{200A}' || c == '\U{202F}' || c == '\U{205F}' || c == '\U{3000}'
  }

  /** The same by their code points. */
  lemma SpacesAre(c: char)
    ensures IsBreak(c) <==> c as int in {0x0A, 0x0B, 0x0C, 0x0D, 0x1C, 0x1D, 0x1E, 0x85, 0x2028, 0x2029}
    ensures IsSpace(c) <==>
              c as int in {0x09, 0x0A, 0x0B, 0x0C, 0x0D, 0x1C, 0x1D, 0x1E, 0x1F, 0x20, 0x85, 0xA0, 0x1680, 0x2000, 0x2001, 0x2002,
                           0x2003, 0x2004, 0x2005, 0x2006, 0x2007, 0x2008, 0x2009, 0x200A, 0x2028, 0x2029, 0x202F, 0x205F, 0x3000}
  {
  }

  /** How long the first line is, with its ending. */
  function LineLength(text: string): (n: nat)
    ensures n <= |text| && (text != "" ==> 0 < n)
  {
    if text == "" then 0
    else if text[0] == '\r' && |text| > 1 && text[1] == '\n' then 2
    else if IsBreak(text[0]) then 1
    else 1 + LineLength(text[1..])
  }

  /** splitlines(keepends=True) */
  function SplitLines(text: string): seq<string>
    decreases |text|
  {
    if text == "" then [] else [text[..LineLength(text)]] + SplitLines(text[LineLength(text)..])
  }

  predicate BreakFree(text: string) {
    forall c <- text :: !IsBreak(c)
  }

  predicate OneLine(line: string) {
    line != "" && LineLength(line) == |line|
  }

  /** A line that ends where it stops, also when this text comes next. */
  predicate Closed(line: string, next: string) {
    line != "" && IsBreak(line[|line| - 1]) && !(line[|line| - 1] == '\r' && next != "" && next[0] == '\n')
  }

  ghost predicate LinesOk(lines: seq<string>) {
    && (forall i | 0 <= i < |lines| :: OneLine(lines[i]))
    && forall i, j | 0 <= i && j == i + 1 < |lines| :: Closed(lines[i], lines[j])
  }

  lemma {:induction false} FirstLine(line: string, next: string)
    requires OneLine(line) && (next == "" || Closed(line, next))
    ensures LineLength(line + next) == |line|
  {
    hide IsBreak;
    if next == "" {
      assert line + next == line;
    } else if LineLength(line[1..]) + 1 == |line| && |line| > 1 && !(line[0] == '\r' && line[1] == '\n') && !IsBreak(line[0]) {
      FirstLine(line[1..], next);
      assert (line + next)[1..] == line[1..] + next;
    } else {
      assert (line + next)[0] == line[0];
    }
  }

  lemma {:induction false} SplitJoin(lines: seq<string>)
    requires LinesOk(lines)
    ensures SplitLines(Concat(lines)) == lines
  {
    hide OneLine, Closed, LineLength;
    if lines != [] {
      var first, rest := lines[0], lines[1..];
      TailOk(lines);
      SplitJoin(rest);
      assert lines == [first] + rest;
      ConcatCons(first, rest);
      NextLine(lines);
      FirstLine(first, Concat(rest));
      assert first != "" by { NotEmpty(first); }
      assert (first + Concat(rest))[..|first|] == first && (first + Concat(rest))[|first|..] == Concat(rest);
    }
  }

  lemma NotEmpty(line: string)
    requires OneLine(line)
    ensures line != ""
  {
  }

  lemma TailOk(lines: seq<string>)
    requires LinesOk(lines) && lines != []
    ensures LinesOk(lines[1..])
  {
    hide OneLine, Closed;
  }

  lemma NextLine(lines: seq<string>)
    requires LinesOk(lines) && lines != []
    ensures Concat(lines[1..]) == "" || Closed(lines[0], Concat(lines[1..]))
  {
    hide LineLength, IsBreak, Concat;
    if |lines| == 1 {
      hide OneLine, Closed;
      ConcatNone<char>();
    } else {
      var second, rest := lines[1], lines[2..];
      assert lines[1..] == [second] + rest;
      ConcatCons(second, rest);
      assert Closed(lines[0], lines[1]);
      assert (second + Concat(rest))[0] == second[0];
    }
  }

  lemma {:induction false} LineIsOne(text: string)
    requires text != ""
    ensures var n := LineLength(text);
            OneLine(text[..n]) && (n < |text| ==> Closed(text[..n], text[n..]))
  {
    hide IsBreak;
    var n := LineLength(text);
    if text[0] == '\r' && |text| > 1 && text[1] == '\n' {
      NewlineBreaks();
    } else if !IsBreak(text[0]) && |text| > 1 {
      LineIsOne(text[1..]);
      assert text[..n][1..] == text[1..][..n - 1];
      assert text[n..] == text[1..][n - 1..];
    }
  }

  lemma NewlineBreaks()
    ensures IsBreak('\n') && IsBreak('\r')
  {
  }

  lemma LinesCons(first: string, rest: seq<string>)
    requires OneLine(first) && LinesOk(rest)
    requires rest != [] ==> Closed(first, rest[0])
    ensures LinesOk([first] + rest)
  {
    hide OneLine, Closed;
    var lines := [first] + rest;
    forall i, j | 0 <= i && j == i + 1 < |lines|
      ensures Closed(lines[i], lines[j])
    {
      if i > 0 {
        assert Closed(rest[i - 1], rest[j - 1]);
      }
    }
  }

  /** Splitting loses nothing and gives proper lines. */
  lemma {:induction false} JoinSplit(text: string)
    ensures Concat(SplitLines(text)) == text && LinesOk(SplitLines(text))
    decreases |text|
  {
    hide OneLine, Closed, LineLength, Concat;
    if text == "" {
      ConcatNone<char>();
    } else {
      var n := LineLength(text);
      LengthPositive(text);
      JoinSplit(text[n..]);
      LineIsOne(text);
      ConcatCons(text[..n], SplitLines(text[n..]));
      if n < |text| {
        LengthPositive(text[n..]);
        ClosedFirst(text[..n], text[n..]);
      }
      LinesCons(text[..n], SplitLines(text[n..]));
    }
  }

  lemma LengthPositive(text: string)
    requires text != ""
    ensures 0 < LineLength(text) <= |text|
  {
  }

  lemma ClosedFirst(line: string, next: string)
    requires line != "" && next != "" && Closed(line, next)
    ensures Closed(line, SplitLines(next)[0])
  {
    hide IsBreak;
  }

  // ---------------------------------------------------- proper new lines

  predicate Terminated(line: string) {
    line != "" && IsBreak(line[|line| - 1])
  }

  /** No line break comes first, so the line before keeps its own. */
  predicate Begins(line: string) {
    line != "" && !IsBreak(line[0])
  }

  lemma TerminatedCloses(line: string, next: string)
    requires Terminated(line) && Begins(next)
    ensures Closed(line, next)
  {
  }

  lemma LinesAppend(a: seq<string>, b: seq<string>)
    requires LinesOk(a) && LinesOk(b)
    requires a != [] && b != [] ==> Terminated(a[|a| - 1]) && Begins(b[0])
    ensures LinesOk(a + b)
  {
    hide OneLine, Closed, Terminated, Begins;
    forall i, j | 0 <= i && j == i + 1 < |a + b|
      ensures Closed((a + b)[i], (a + b)[j])
    {
      if j < |a| {
        assert Closed(a[i], a[j]);
      } else if i >= |a| {
        assert Closed(b[i - |a|], b[j - |a|]);
      } else {
        TerminatedCloses(a[i], b[0]);
      }
    }
  }

  lemma LinesSlice(lines: seq<string>, i: nat, j: nat)
    requires LinesOk(lines) && i <= j <= |lines|
    ensures LinesOk(lines[i..j])
    ensures 0 < j < |lines| ==> Terminated(lines[j - 1])
  {
    hide OneLine, IsBreak;
    if 0 < j < |lines| {
      assert Closed(lines[j - 1], lines[j]);
    }
    var slice := lines[i..j];
    forall k, l | 0 <= k && l == k + 1 < |slice|
      ensures Closed(slice[k], slice[l])
    {
      assert Closed(lines[i + k], lines[i + l]);
    }
  }

  lemma LinesOne(lines: seq<string>, i: nat, j: nat)
    requires LinesOk(lines) && i <= j <= |lines|
    ensures forall line <- lines[i..j] :: OneLine(line)
  {
    hide OneLine, Closed;
  }

  /** A line is free of breaks up to its ending. */
  lemma {:induction false} LineBody(line: string) returns (n: nat)
    requires OneLine(line)
    ensures n <= |line| && BreakFree(line[..n]) && forall c <- line[n..] :: IsBreak(c)
  {
    hide IsBreak;
    n := 0;
    if line[0] == '\r' && |line| > 1 && line[1] == '\n' {
      NewlineBreaks();
    } else if !IsBreak(line[0]) {
      n := 1;
      if |line| > 1 {
        var m := LineBody(line[1..]);
        n := m + 1;
        assert line[..n] == [line[0]] + line[1..][..m];
        assert line[n..] == line[1..][m..];
      }
    }
  }

  lemma BodyTo(line: string, i: nat)
    requires OneLine(line) && i < |line| && !IsBreak(line[i])
    ensures BreakFree(line[..i])
  {
    hide IsBreak, LineLength;
    var n := LineBody(line);
    assert line[..i] <= line[..n];
    forall c <- line[..i]
      ensures !IsBreak(c)
    {
      var k :| 0 <= k < i && line[..i][k] == c;
      assert line[..n][k] == c;
    }
  }

  /** What may be put before a newline: no break, but for a carriage return at
      the end, which becomes part of the ending. */
  predicate Fits(body: string) {
    BreakFree(body) || (body != "" && body[|body| - 1] == '\r' && BreakFree(body[..|body| - 1]))
  }

  lemma {:induction false} MadeLine(body: string)
    ensures OneLine(body + "\n") <==> Fits(body)
    ensures Terminated(body + "\n")
  {
    NewlineBreaks();
    if body == "" {
      assert body + "\n" == "\n";
    } else if |body| > 1 {
      MadeLine(body[1..]);
      assert (body + "\n")[1..] == body[1..] + "\n";
      FitsCons(body);
      hide IsBreak, Fits;
    } else {
      hide IsBreak;
    }
  }

  lemma FitsCons(body: string)
    requires |body| > 1
    ensures Fits(body) <==> !IsBreak(body[0]) && Fits(body[1..])
  {
    hide IsBreak;
    FreeAppend([body[0]], body[1..]);
    FreeAppend([body[0]], body[1..][..|body| - 2]);
    assert body == [body[0]] + body[1..];
    assert body[..|body| - 1] == [body[0]] + body[1..][..|body| - 2];
  }

  lemma FreeAppend(a: string, b: string)
    ensures BreakFree(a + b) <==> BreakFree(a) && BreakFree(b)
  {
    hide IsBreak;
    assert forall c <- a :: c in a + b;
    assert forall c <- b :: c in a + b;
  }

  lemma FitsAppend(a: string, b: string)
    requires BreakFree(a)
    ensures Fits(a + b) <==> Fits(b)
  {
    hide IsBreak;
    FreeAppend(a, b);
    if b == "" {
      assert a + b == a;
    } else {
      assert (a + b)[..|a + b| - 1] == a + b[..|b| - 1];
      FreeAppend(a, b[..|b| - 1]);
    }
  }

  /** Printable ASCII has no line breaks. */
  lemma Printable(text: string)
    requires forall i | 0 <= i < |text| :: ' ' <= text[i] <= '~'
    ensures BreakFree(text)
  {
  }

  lemma FreeFits(text: string)
    requires BreakFree(text)
    ensures Fits(text)
  {
  }

  /** A text that does not end in a carriage return fits if it has no break. */
  lemma FitsFree(text: string)
    requires text != "" && text[|text| - 1] != '\r'
    ensures Fits(text) <==> BreakFree(text)
  {
    hide BreakFree;
  }

  function Made(bodies: seq<string>): seq<string> {
    seq(|bodies|, i requires 0 <= i < |bodies| => bodies[i] + "\n")
  }

  lemma MadeOk(bodies: seq<string>)
    requires forall b <- bodies :: Begins(b)
    ensures LinesOk(Made(bodies)) <==> forall b <- bodies :: Fits(b)
    ensures forall i | 0 <= i < |bodies| :: Begins(Made(bodies)[i]) && Terminated(Made(bodies)[i])
  {
    hide OneLine, Closed, Fits, IsBreak;
    var lines := Made(bodies);
    forall i | 0 <= i < |bodies|
      ensures OneLine(lines[i]) <==> Fits(bodies[i])
      ensures Begins(lines[i]) && Terminated(lines[i])
    {
      assert bodies[i] in bodies;
      MadeLine(bodies[i]);
    }
    forall i, j | 0 <= i && j == i + 1 < |lines|
      ensures Closed(lines[i], lines[j])
    {
      TerminatedCloses(lines[i], lines[j]);
    }
    if LinesOk(lines) {
      assert forall i | 0 <= i < |bodies| :: OneLine(lines[i]);
    }
  }

  // ----------------------------------------------------------- stripping

  function SpaceRun(line: string): (n: nat)
    ensures n <= |line|
  {
    if line == "" || !IsSpace(line[0]) then 0 else 1 + SpaceRun(line[1..])
  }

  function RStrip(text: string): string {
    if text == "" || !IsSpace(text[|text| - 1]) then text else RStrip(text[..|text| - 1])
  }

  function Strip(text: string): string {
    RStrip(text[SpaceRun(text)..])
  }

  lemma {:induction false} RStripFree(a: string, b: string)
    requires BreakFree(a) && forall c <- b :: IsSpace(c)
    ensures BreakFree(RStrip(a + b))
  {
    hide IsBreak, IsSpace;
    if b != "" {
      var front := b[..|b| - 1];
      assert (a + b)[..|a + b| - 1] == a + front;
      assert (a + b)[|a + b| - 1] == b[|b| - 1] && b[|b| - 1] in b;
      RStripFree(a, front);
    } else {
      assert a + b == a;
      RStripWithin(a);
    }
  }

  lemma {:induction false} RStripWithin(text: string)
    ensures RStrip(text) <= text
  {
    hide IsSpace;
    if text != "" && IsSpace(text[|text| - 1]) {
      RStripWithin(text[..|text| - 1]);
    }
  }

  lemma StripWithin(text: string)
    ensures BreakFree(text) ==> BreakFree(Strip(text))
  {
    hide IsBreak, IsSpace, RStrip, SpaceRun;
    RStripWithin(text[SpaceRun(text)..]);
    assert forall c <- text[SpaceRun(text)..] :: c in text;
    assert forall c <- Strip(text) :: c in text[SpaceRun(text)..];
  }

  /** What is stripped off a line takes its ending with it. */
  lemma StripLine(line: string, i: nat)
    requires OneLine(line) && i <= |line|
    ensures BreakFree(Strip(line[i..]))
  {
    hide IsBreak, LineLength, RStrip, SpaceRun;
    var n := LineBody(line);
    var j := i + SpaceRun(line[i..]);
    var m := Max(j, n);
    assert line[i..][SpaceRun(line[i..])..] == line[j..m] + line[m..];
    assert forall c <- line[j..m] :: c in line[..n];
    assert forall c <- line[m..] :: c in line[n..];
    SpacesBreak();
    RStripFree(line[j..m], line[m..]);
  }

  lemma SpacesBreak()
    ensures forall c :: IsBreak(c) ==> IsSpace(c)
  {
  }

  lemma {:induction false} RStripEnds(text: string)
    ensures RStrip(text) == "" || !IsSpace(RStrip(text)[|RStrip(text)| - 1])
  {
    hide IsSpace;
    if text != "" && IsSpace(text[|text| - 1]) {
      RStripEnds(text[..|text| - 1]);
    }
  }

  /** The value is the text without the white space around it. */
  ghost predicate Trimmed(text: string, value: string) {
    exists i: nat, j: nat :: TrimmedAt(text, value, i, j)
  }

  ghost predicate TrimmedAt(text: string, value: string, i: nat, j: nat) {
    && i <= j <= |text| && value == text[i..j]
    && (forall k | 0 <= k < i :: IsSpace(text[k])) && (forall k | j <= k < |text| :: IsSpace(text[k]))
    && (i < j ==> !IsSpace(text[i]) && !IsSpace(text[j - 1]))
  }

  lemma {:induction false} SpaceRunIs(text: string)
    ensures forall k | 0 <= k < SpaceRun(text) :: IsSpace(text[k])
    ensures SpaceRun(text) < |text| ==> !IsSpace(text[SpaceRun(text)])
  {
    hide IsSpace;
    if text != "" && IsSpace(text[0]) {
      SpaceRunIs(text[1..]);
      assert forall k | 0 < k < SpaceRun(text) :: text[k] == text[1..][k - 1];
    }
  }

  lemma SpaceRunAt(text: string, n: nat)
    requires n <= |text| && (forall k | 0 <= k < n :: IsSpace(text[k])) && (n < |text| ==> !IsSpace(text[n]))
    ensures SpaceRun(text) == n
  {
    SpaceRunIs(text);
    hide IsSpace;
  }

  lemma {:induction false} RStripSpaces(text: string)
    ensures RStrip(text) <= text && forall k | |RStrip(text)| <= k < |text| :: IsSpace(text[k])
  {
    hide IsSpace;
    if text != "" && IsSpace(text[|text| - 1]) {
      RStripSpaces(text[..|text| - 1]);
    }
  }

  lemma StripTrims(text: string)
    ensures Trimmed(text, Strip(text))
  {
    var i := SpaceRun(text);
    SpaceRunIs(text);
    RStripSpaces(text[i..]);
    RStripEnds(text[i..]);
    hide IsSpace, RStrip, SpaceRun;
    var j := i + |Strip(text)|;
    assert forall k | j <= k < |text| :: text[k] == text[i..][k - i];
    assert Strip(text) == text[i..][..j - i] == text[i..j];
    assert TrimmedAt(text, Strip(text), i, j);
  }

  lemma TrimmedOnce(text: string, a: string, b: string)
    requires Trimmed(text, a) && Trimmed(text, b)
    ensures a == b
  {
    hide IsSpace;
    var i: nat, j: nat :| TrimmedAt(text, a, i, j);
    var k: nat, l: nat :| TrimmedAt(text, b, k, l);
    if i < j && k < l {
      assert i == k && j == l;
    }
  }

  /** What strip returns. */
  lemma StripIff(text: string, value: string)
    ensures Strip(text) == value <==> Trimmed(text, value)
  {
    StripTrims(text);
    if Trimmed(text, value) {
      TrimmedOnce(text, value, Strip(text));
    }
    hide Trimmed, Strip;
  }

  // ------------------------------------------------------ counting lines

  /** What follows a newline is split on its own. */
  lemma {:induction false} SplitAppend(a: string, b: string)
    requires a == "" || a[|a| - 1] == '\n'
    ensures SplitLines(a + b) == SplitLines(a) + SplitLines(b)
    decreases |a|
  {
    hide LineLength, OneLine, SplitLines, IsBreak;
    if a == "" {
      NoLines();
      assert a + b == b;
    } else {
      var n := LineLength(a);
      LengthPositive(a);
      LineIsOne(a);
      var line, rest := a[..n], a[n..];
      SplitAppend(rest, b);
      assert a == line + rest && a + b == line + (rest + b);
      if rest == "" {
        NewlineCloses(line, b);
        assert rest + b == b;
      } else {
        assert (rest + b)[0] == rest[0];
      }
      SplitFirst(line, rest + b);
      SplitFirst(line, rest);
      assert [line] + SplitLines(rest) + SplitLines(b) == [line] + (SplitLines(rest) + SplitLines(b));
    }
  }

  lemma NewlineCloses(line: string, next: string)
    requires line != "" && line[|line| - 1] == '\n'
    ensures Closed(line, next)
  {
    NewlineBreaks();
  }

  lemma SplitFirst(line: string, rest: string)
    requires OneLine(line) && (rest == "" || Closed(line, rest))
    ensures SplitLines(line + rest) == [line] + SplitLines(rest)
  {
    hide Closed, LineLength;
    FirstLine(line, rest);
    assert (line + rest)[..|line|] == line && (line + rest)[|line|..] == rest;
  }

  /** Bodies that do not fit on their lines give more lines than there are bodies. */
  lemma {:induction false} LineCount(bodies: seq<string>)
    ensures |SplitLines(Concat(Made(bodies)))| >= |bodies|
    ensures |SplitLines(Concat(Made(bodies)))| == |bodies| <==> forall b <- bodies :: Fits(b)
  {
    hide SplitLines, Fits, Concat;
    if bodies == [] {
      ConcatNone<char>();
      NoLines();
    } else {
      var first, rest := bodies[0], bodies[1..];
      LineCount(rest);
      assert Made(bodies) == [first + "\n"] + Made(rest);
      ConcatCons(first + "\n", Made(rest));
      SplitAppend(first + "\n", Concat(Made(rest)));
      MadeCount(first);
      assert bodies == [first] + rest;
    }
  }

  lemma NoLines()
    ensures SplitLines("") == []
  {
  }

  lemma MadeCount(body: string)
    ensures |SplitLines(body + "\n")| >= 1
    ensures |SplitLines(body + "\n")| == 1 <==> Fits(body)
  {
    MadeLine(body);
    hide LineLength, Fits;
    LengthPositive(body + "\n");
    var n := LineLength(body + "\n");
    if n < |body + "\n"| {
      assert (body + "\n")[n..] != "";
    } else {
      assert (body + "\n")[n..] == "";
    }
  }

  // ------------------------------------------------ bare lines and words

  /** A line without its ending. */
  function Bare(line: string): string {
    var n := |line|;
    if n >= 2 && line[n - 2] == '\r' && line[n - 1] == '\n' then line[..n - 2]
    else if n >= 1 && IsBreak(line[n - 1]) then line[..n - 1]
    else line
  }

  /** splitlines() */
  function BareLines(text: string): seq<string> {
    var lines := SplitLines(text);
    seq(|lines|, i requires 0 <= i < |lines| => Bare(lines[i]))
  }

  lemma BareMade(body: string)
    requires BreakFree(body)
    ensures Bare(body + "\n") == body
  {
    NewlineBreaks();
    hide IsBreak;
    var line := body + "\n";
    assert line[..|line| - 1] == body;
    assert |line| >= 2 ==> line[|line| - 2] in body;
  }

  function WordLength(text: string): (n: nat)
    ensures n <= |text| && (forall i | 0 <= i < n :: !IsSpace(text[i])) && (n < |text| ==> IsSpace(text[n]))
  {
    if text == "" || IsSpace(text[0]) then 0 else 1 + WordLength(text[1..])
  }

  /** split() */
  function Words(text: string): seq<string>
    decreases |text|
  {
    if text == "" then []
    else if IsSpace(text[0]) then Words(text[1..])
    else [text[..WordLength(text)]] + Words(text[WordLength(text)..])
  }

  predicate IsWord(text: string) {
    text != "" && forall c <- text :: !IsSpace(c)
  }

  function Spaced(words: seq<string>): string {
    if words == [] then "" else if |words| == 1 then words[0] else words[0] + " " + Spaced(words[1..])
  }

  lemma {:induction false} WordLengthOf(word: string, rest: string)
    requires IsWord(word) && (rest == "" || IsSpace(rest[0]))
    ensures WordLength(word + rest) == |word|
  {
    hide IsSpace;
    assert (word + rest)[1..] == word[1..] + rest;
    assert forall c <- word[1..] :: c in word;
    assert word[0] in word;
    if |word| > 1 {
      WordLengthOf(word[1..], rest);
    } else {
      assert word[1..] + rest == rest;
    }
  }

  lemma BlankIsSpace()
    ensures IsSpace(' ')
  {
  }

  lemma SpaceSkipped(c: char, text: string)
    requires IsSpace(c)
    ensures Words([c] + text) == Words(text)
  {
    hide IsSpace;
    assert ([c] + text)[1..] == text;
  }

  lemma WordFirst(first: string, tail: string)
    requires IsWord(first) && (tail == "" || IsSpace(tail[0]))
    ensures Words(first + tail) == [first] + Words(tail)
  {
    hide IsSpace;
    WordLengthOf(first, tail);
    assert first[0] in first;
    assert (first + tail)[..|first|] == first && (first + tail)[|first|..] == tail;
  }

  /** What starts with white space is split on its own. */
  lemma {:induction false} WordsJoin(a: string, b: string)
    requires b == "" || IsSpace(b[0])
    ensures Words(a + b) == Words(a) + Words(b)
    decreases |a|
  {
    hide IsSpace, Words, WordLength;
    if a == "" {
      NoWords();
      assert a + b == b;
    } else if IsSpace(a[0]) {
      WordsJoin(a[1..], b);
      SpaceSkipped(a[0], a[1..]);
      SpaceSkipped(a[0], a[1..] + b);
      assert a == [a[0]] + a[1..] && a + b == [a[0]] + (a[1..] + b);
    } else {
      var n := WordLength(a);
      var word, rest := a[..n], a[n..];
      WordsJoin(rest, b);
      assert a == word + rest && a + b == word + (rest + b);
      WordFirst(word, rest);
      WordFirst(word, rest + b);
    }
  }

  lemma WordsBlank(text: string)
    ensures Words(" " + text) == Words(text)
  {
    BlankIsSpace();
    hide IsSpace;
    assert (" " + text)[1..] == text;
  }

  lemma OneWord(word: string)
    requires IsWord(word)
    ensures Words(word) == [word]
  {
    WordFirst(word, "");
    assert word + "" == word;
  }

  lemma NoWords()
    ensures Words("") == []
  {
  }

  /** Fields are split one by one. */
  lemma WordsCons(first: string, others: seq<string>)
    ensures Words(Spaced([first] + others)) == Words(first) + Words(Spaced(others))
  {
    hide IsSpace, Words;
    assert ([first] + others)[1..] == others;
    if others == [] {
      NoWords();
      assert Words(first) + [] == Words(first);
    } else {
      BlankIsSpace();
      WordsBlank(Spaced(others));
      WordsJoin(first, " " + Spaced(others));
      assert first + (" " + Spaced(others)) == first + " " + Spaced(others);
    }
  }

  lemma {:induction false} WordsFields(words: seq<string>, others: seq<string>)
    requires forall w <- words :: IsWord(w)
    ensures Words(Spaced(words + others)) == words + Words(Spaced(others))
  {
    hide IsWord, Words, Spaced;
    if words == [] {
      assert words + others == others;
    } else {
      var first, rest := words[0], words[1..];
      assert first in words;
      WordsFields(rest, others);
      WordsCons(first, rest + others);
      OneWord(first);
      assert words + others == [first] + (rest + others);
    }
  }

  lemma WordsAlone(words: seq<string>)
    requires forall w <- words :: IsWord(w)
    ensures Words(Spaced(words)) == words
  {
    hide IsWord, Words, Spaced;
    WordsFields(words, []);
    NoWords();
    SpacedNone();
    assert words + [] == words;
  }

  lemma SpacedNone()
    ensures Spaced([]) == ""
  {
  }

  /** Texts without breaks stay without when blanks are put between them. */
  lemma {:induction false} SpacedFree(texts: seq<string>)
    requires forall t <- texts :: BreakFree(t)
    ensures BreakFree(Spaced(texts))
  {
    if texts != [] {
      var first := texts[0];
      assert first in texts;
      Printable(" ");
      hide IsBreak, BreakFree;
      if |texts| > 1 {
        SpacedFree(texts[1..]);
        FreeAppend(first, " ");
        FreeAppend(first + " ", Spaced(texts[1..]));
      }
    }
  }

  lemma WordFree(word: string)
    requires IsWord(word)
    ensures BreakFree(word)
  {
    SpacesBreak();
    hide IsSpace, IsBreak;
  }

  lemma WordBegins(word: string)
    requires IsWord(word)
    ensures Begins(word)
  {
    SpacesBreak();
    hide IsSpace, IsBreak;
    assert word[0] in word;
  }

  lemma SpacedWords(words: seq<string>)
    requires forall w <- words :: IsWord(w)
    ensures BreakFree(Spaced(words)) && (words != [] ==> Begins(Spaced(words)))
  {
    hide IsWord, BreakFree;
    forall w <- words
      ensures BreakFree(w) && Begins(w)
    {
      WordFree(w);
      WordBegins(w);
    }
    SpacedFree(words);
    hide IsBreak;
    if words != [] {
      assert words[0] in words && Spaced(words)[0] == words[0][0];
    }
  }
}
