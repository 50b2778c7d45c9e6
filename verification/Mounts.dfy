/** Mount tables: reading mountinfo, and which mount a path is on. */
module Mounts {
  import opened Basics
  import opened Texts

  // ------------------------------------------------------------- escapes

  predicate Octal(c: char) {
    '0' <= c <= '7'
  }

  function OctalValue(text: string): nat
    requires |text| == 3 && Octal(text[0]) && Octal(text[1]) && Octal(text[2])
  {
    64 * ((text[0] - '0') as nat) + 8 * ((text[1] - '0') as nat) + (text[2] - '0') as nat
  }

  predicate StartsEscape(text: string) {
    |text| >= 4 && text[0] == '\\' && Octal(text[1]) && Octal(text[2]) && Octal(text[3])
  }

  /** _unescape_mount_field */
  function Unescape(text: string): string {
    if text == "" then ""
    else if StartsEscape(text) then [OctalValue(text[1..4]) as char] + Unescape(text[4..])
    else [text[0]] + Unescape(text[1..])
  }

  function Digits(c: char): string
    requires c as int < 512
  {
    var n := c as int;
    ['\\', '0' + (n / 64) as char, '0' + (n / 8 % 8) as char, '0' + (n % 8) as char]
  }

  /** What the kernel does to some of the characters of a field. */
  function Escape(text: string, escaped: char -> bool): string
    requires forall c :: escaped(c) ==> c as int < 512
  {
    if text == "" then "" else (if escaped(text[0]) then Digits(text[0]) else [text[0]]) + Escape(text[1..], escaped)
  }

  /** Backslashes are escaped, and nothing that has no three octal digits. */
  ghost predicate Escaping(escaped: char -> bool) {
    escaped('\\') && forall c :: escaped(c) ==> c as int < 512
  }

  /** No white space is left unescaped. */
  predicate Clean(text: string, escaped: char -> bool) {
    forall c <- text :: IsSpace(c) ==> escaped(c)
  }

  lemma DigitsOctal(c: char, rest: string)
    requires c as int < 512
    ensures StartsEscape(Digits(c) + rest)
    ensures OctalValue((Digits(c) + rest)[1..4]) == c as int && (Digits(c) + rest)[4..] == rest
  {
    var n := c as int;
    assert 0 <= n / 64 < 8 && 0 <= n / 8 % 8 < 8 && 0 <= n % 8 < 8;
    assert n == 64 * (n / 64) + 8 * (n / 8 % 8) + n % 8;
    assert (Digits(c) + rest)[1..4] == Digits(c)[1..4];
  }

  /** Reading an escaped field restores it, whichever characters are escaped
      beside the backslash. */
  lemma {:induction false} UnescapeEscape(text: string, escaped: char -> bool)
    requires Escaping(escaped)
    ensures Unescape(Escape(text, escaped)) == text
  {
    if text != "" {
      var rest := Escape(text[1..], escaped);
      UnescapeEscape(text[1..], escaped);
      if escaped(text[0]) {
        DigitsOctal(text[0], rest);
      } else {
        assert ([text[0]] + rest)[1..] == rest;
      }
      assert text == [text[0]] + text[1..];
    }
  }

  // -------------------------------------------------------------- records

  const SEPARATOR := " - "

  /** partition(" - "): where it is first found. */
  function Partition(line: string): (r: Option<nat>)
    ensures r.Some? ==> r.value + 3 <= |line| && line[r.value..r.value + 3] == SEPARATOR
  {
    if |line| < 3 then None
    else if line[..3] == SEPARATOR then Some(0)
    else
      var r := Partition(line[1..]);
      if r.None? then None else Some(r.value + 1)
  }

  /** The parts of a path, the root first. */
  type Path = seq<string>

  /** The segment that a slash or the end of the text completes. */
  function Own(segment: string): Path {
    if segment in {"", "."} then [] else [segment]
  }

  function Segments(text: string, sofar: string): seq<string> {
    if text == "" then Own(sofar)
    else if text[0] == '/' then Own(sofar) + Segments(text[1..], "")
    else Segments(text[1..], sofar + [text[0]])
  }

  function PathOf(text: string): Path {
    (if text == "" || text[0] != '/' then []
     else if |text| >= 2 && text[1] == '/' && (|text| == 2 || text[2] != '/') then ["//"]
     else ["/"])
    + Segments(text, "")
  }

  datatype Mount = Mount(point: Path, fstype: string, source: string)

  /** One line of mountinfo. */
  function Record(line: string): Option<Mount> {
    var at := Partition(line);
    if at.None? then None
    else
      var fields, fs := Words(line[..at.value]), Words(line[at.value + 3..]);
      if |fields| < 5 || |fs| < 2 then None
      else Some(Mount(PathOf(Unescape(fields[4])), Unescape(fs[0]), Unescape(fs[1])))
  }

  function Records(lines: seq<string>): Option<seq<Mount>> {
    if lines == [] then Some([])
    else
      var front, last := Records(lines[..|lines| - 1]), Record(lines[|lines| - 1]);
      if front.None? || last.None? then None else Some(front.value + [last.value])
  }

  function Mountinfo(lines: seq<string>): Option<seq<Mount>> {
    if lines == [] then None else Records(lines)
  }

  function Table(text: string): Option<seq<Mount>> {
    Mountinfo(BareLines(text))
  }

  /** read_mountinfo */
  method ReadMountinfo(text: string) returns (r: Option<seq<Mount>>)
    ensures r == Table(text)
  {
    hide Record, BareLines;
    var lines := BareLines(text);
    var mounts := [];
    for i := 0 to |lines|
      invariant Records(lines[..i]) == Some(mounts)
    {
      assert lines[..i + 1][..i] == lines[..i];
      var mount := Record(lines[i]);
      if mount.None? {
        BadRecord(lines, i);
        return None;
      }
      mounts := mounts + [mount.value];
    }
    assert lines[..|lines|] == lines;
    RecordsSize(lines);
    if mounts == [] {
      return None;
    }
    return Some(mounts);
  }

  /** A table is refused exactly if it has no line, or a line that is no record. */
  lemma TableRefused(text: string)
    ensures Table(text).None? <==> BareLines(text) == [] || exists i :: 0 <= i < |BareLines(text)| && Record(BareLines(text)[i]).None?
  {
    hide Record, BareLines;
    var lines := BareLines(text);
    forall i | 0 <= i < |lines| && Record(lines[i]).None?
      ensures Records(lines) == None
    {
      BadRecord(lines, i);
    }
    if forall i | 0 <= i < |lines| :: Record(lines[i]).Some? {
      GoodRecords(lines);
    }
  }

  lemma {:induction false} GoodRecords(lines: seq<string>)
    requires forall i | 0 <= i < |lines| :: Record(lines[i]).Some?
    ensures Records(lines).Some?
  {
    hide Record;
    if lines != [] {
      GoodRecords(lines[..|lines| - 1]);
    }
  }

  lemma {:induction false} BadRecord(lines: seq<string>, i: nat)
    requires i < |lines| && Record(lines[i]).None?
    ensures Records(lines) == None
  {
    hide Record;
    if i < |lines| - 1 {
      BadRecord(lines[..|lines| - 1], i);
    }
  }

  lemma {:induction false} RecordsSize(lines: seq<string>)
    ensures Records(lines).Some? ==> |Records(lines).value| == |lines|
  {
    hide Record;
    if lines != [] {
      RecordsSize(lines[..|lines| - 1]);
    }
  }

  // ------------------------------------------------------ the terms used

  /** The segments with a slash between each two. */
  function Slashed(segments: seq<string>): string
    requires segments != []
  {
    if |segments| == 1 then segments[0] else segments[0] + "/" + Slashed(segments[1..])
  }

  /** Those that are parts of a path. */
  function Proper(segments: seq<string>): seq<string> {
    if segments == [] then []
    else (if segments[0] == "" || segments[0] == "." then [] else [segments[0]]) + Proper(segments[1..])
  }

  lemma {:induction false} SegmentsEat(word: string, rest: string, sofar: string)
    requires '/' !in word
    ensures Segments(word + rest, sofar) == Segments(rest, sofar + word)
  {
    if word == "" {
      assert word + rest == rest && sofar + word == sofar;
    } else {
      assert word[0] in word;
      assert (word + rest)[1..] == word[1..] + rest;
      SegmentsEat(word[1..], rest, sofar + [word[0]]);
      assert sofar + [word[0]] + word[1..] == sofar + word;
    }
  }

  lemma {:induction false} SegmentsAre(segments: seq<string>)
    requires segments != [] && forall s <- segments :: '/' !in s
    ensures Segments(Slashed(segments), "") == Proper(segments)
  {
    hide Segments;
    var first, others := segments[0], segments[1..];
    assert first in segments && "" + first == first;
    if others == [] {
      assert first + "" == first;
      SegmentsEat(first, "", "");
      SegmentsIs("", first);
      assert Own(first) + [] == Own(first);
    } else {
      SegmentsAre(others);
      var rest := "/" + Slashed(others);
      assert Slashed(segments) == first + rest;
      SegmentsEat(first, rest, "");
      SegmentsIs(rest, first);
      assert rest[1..] == Slashed(others);
    }
  }

  /** A path is its root, if it has one, and the segments between the slashes, but
      for empty ones and dots. Just two slashes at the start are another root. */
  lemma PathIs(text: string, segments: seq<string>)
    requires segments != [] && (forall s <- segments :: '/' !in s) && text == Slashed(segments)
    ensures PathOf(text)
         == (if "//" <= text && !("///" <= text) then ["//"] else if "/" <= text then ["/"] else []) + Proper(segments)
  {
    SegmentsAre(segments);
    hide Segments, Slashed, Proper;
    assert "/" <= text <==> text != "" && text[0] == '/';
    assert "//" <= text <==> |text| >= 2 && text[0] == '/' && text[1] == '/';
    assert "///" <= text <==> |text| >= 3 && text[0] == '/' && text[1] == '/' && text[2] == '/';
  }

  /** Every text has such segments. */
  lemma {:induction false} SomeSegments(text: string) returns (segments: seq<string>)
    ensures segments != [] && (forall s <- segments :: '/' !in s) && text == Slashed(segments)
  {
    if text == "" {
      segments := [""];
    } else {
      var others := SomeSegments(text[1..]);
      if text[0] == '/' {
        segments := [""] + others;
        assert segments[1..] == others;
      } else {
        segments := [[text[0]] + others[0]] + others[1..];
        assert others[0] in others && forall s <- others[1..] :: s in others;
        assert segments[1..] == others[1..];
        if |others| > 1 {
          assert [text[0]] + (others[0] + "/" + Slashed(others[1..])) == [text[0]] + others[0] + "/" + Slashed(others[1..]);
        }
      }
      assert text == [text[0]] + text[1..];
    }
  }

  /** A dash between two blanks. */
  ghost predicate DashAt(line: string, k: nat) {
    k + 2 < |line| && line[k] == ' ' && line[k + 1] == '-' && line[k + 2] == ' '
  }

  /** The separator is found where it first stands. */
  lemma {:induction false} PartitionFirst(line: string)
    ensures match Partition(line)
            case None => forall k :: !DashAt(line, k)
            case Some(at) => DashAt(line, at) && forall k: nat | k < at :: !DashAt(line, k)
  {
    if |line| >= 3 {
      assert line[..3] == SEPARATOR <==> DashAt(line, 0);
      if line[..3] != SEPARATOR {
        PartitionFirst(line[1..]);
        assert forall k: nat :: DashAt(line, k + 1) <==> DashAt(line[1..], k);
        forall k: nat | k > 0
          ensures DashAt(line, k) <==> DashAt(line[1..], k - 1)
        {
        }
      }
    }
  }

  /** What is no escape stays as it is. */
  lemma {:induction false} UnescapePlain(text: string)
    requires forall i | 0 <= i < |text| :: !StartsEscape(text[i..])
    ensures Unescape(text) == text
  {
    if text != "" {
      assert text[0..] == text;
      forall i | 0 <= i < |text[1..]|
        ensures !StartsEscape(text[1..][i..])
      {
        assert text[1..][i..] == text[i + 1..];
      }
      UnescapePlain(text[1..]);
    }
  }

  // ------------------------------------------------------- the separator

  /** A field as it stands in a line: no blank in it, and not a dash alone. */
  predicate Field(text: string) {
    text != "" && text != "-" && ' ' !in text
  }

  lemma {:induction false} PartitionSkip(word: string, rest: string)
    requires ' ' !in word
    ensures Partition(word + rest)
         == if Partition(rest).Some? then Some(Partition(rest).value + |word|) else None
  {
    hide *;
    if word == "" {
      assert word + rest == rest;
    } else {
      assert word + rest == [word[0]] + (word[1..] + rest);
      assert word[0] in word;
      assert forall c <- word[1..] :: c in word;
      PartitionOne(word[0], word[1..] + rest);
      PartitionSkip(word[1..], rest);
    }
  }

  lemma PartitionOne(c: char, rest: string)
    requires c != ' '
    ensures Partition([c] + rest) == if Partition(rest).Some? then Some(Partition(rest).value + 1) else None
  {
    var text := [c] + rest;
    assert text[1..] == rest && text[0] == c;
    assert |text| >= 3 ==> text[..3][0] == c && SEPARATOR[0] == ' ';
  }

  lemma PartitionHere(rest: string)
    ensures Partition(SEPARATOR + rest) == Some(0)
  {
    assert (SEPARATOR + rest)[..3] == SEPARATOR;
  }

  lemma PartitionBlank(tail: string)
    requires |tail| < 2 || (" " + tail)[..3] != SEPARATOR
    ensures Partition(" " + tail) == if Partition(tail).Some? then Some(Partition(tail).value + 1) else None
  {
    assert (" " + tail)[1..] == tail;
  }

  /** No separator begins among fields. */
  lemma {:induction false} PartitionFields(fields: seq<string>, rest: string)
    requires fields != [] && forall f <- fields :: Field(f)
    ensures Partition(Spaced(fields) + rest)
         == if Partition(rest).Some? then Some(Partition(rest).value + |Spaced(fields)|) else None
  {
    hide Partition;
    var first := fields[0];
    assert first in fields;
    if |fields| == 1 {
      PartitionSkip(first, rest);
    } else {
      var others := fields[1..];
      var tail := Spaced(others) + rest;
      PartitionFields(others, rest);
      assert others[0] in fields;
      NotSeparator(others, rest);
      PartitionBlank(tail);
      PartitionSkip(first, " " + tail);
      assert Spaced(fields) == first + " " + Spaced(others);
      assert first + (" " + tail) == Spaced(fields) + rest;
    }
  }

  lemma NotSeparator(fields: seq<string>, rest: string)
    requires fields != [] && Field(fields[0])
    ensures |Spaced(fields) + rest| < 2 || (" " + (Spaced(fields) + rest))[..3] != SEPARATOR
  {
    var first, text := fields[0], " " + (Spaced(fields) + rest);
    assert forall i | 0 <= i < |first| :: first[i] in first && text[i + 1] == first[i];
    if |text| >= 3 {
      assert text[..3][1] == first[0];
      if |first| > 1 {
        assert text[..3][2] == first[1];
        assert SEPARATOR[2] == ' ';
      } else {
        assert first == [first[0]];
        assert SEPARATOR[1] == '-';
      }
    }
  }

  // -------------------------------------------------------- escaped fields

  lemma {:induction false} EscapeNoSpace(text: string, escaped: char -> bool)
    requires Escaping(escaped) && Clean(text, escaped)
    ensures forall c <- Escape(text, escaped) :: !IsSpace(c)
    ensures text != "" ==> IsWord(Escape(text, escaped))
  {
    if text != "" {
      assert forall c <- text[1..] :: c in text;
      EscapeNoSpace(text[1..], escaped);
      if escaped(text[0]) {
        DigitsNoSpace(text[0]);
      } else {
        assert text[0] in text;
      }
      hide IsSpace;
    }
  }

  lemma DigitsNoSpace(c: char)
    requires c as int < 512
    ensures forall d <- Digits(c) :: !IsSpace(d)
  {
    var n := c as int;
    assert 0 <= n / 64 < 8 && 0 <= n / 8 % 8 < 8 && 0 <= n % 8 < 8;
  }

  lemma EscapeNoDash(text: string, escaped: char -> bool)
    requires Escaping(escaped) && text != "" && text[0] == '/'
    ensures Escape(text, escaped) != "-"
  {
    assert Escape(text, escaped)[0] == '/' || Escape(text, escaped)[0] == '\\';
  }

  lemma {:induction false} EscapeAppend(a: string, b: string, escaped: char -> bool)
    requires Escaping(escaped)
    ensures Escape(a + b, escaped) == Escape(a, escaped) + Escape(b, escaped)
  {
    if a == "" {
      assert a + b == b;
    } else {
      assert (a + b)[1..] == a[1..] + b;
      EscapeAppend(a[1..], b, escaped);
    }
  }

  /** Blanks are escaped as well. */
  ghost predicate Separating(escaped: char -> bool) {
    Escaping(escaped) && escaped(' ')
  }

  lemma {:induction false} EscapeNoBlank(text: string, escaped: char -> bool)
    requires Separating(escaped)
    ensures ' ' !in Escape(text, escaped)
  {
    if text != "" {
      EscapeNoBlank(text[1..], escaped);
      if escaped(text[0]) {
        DigitsNoSpace(text[0]);
        BlankIsSpace();
      }
      hide IsSpace, Digits;
    }
  }

  /** A path as a field, whatever white space is in it. */
  lemma PathField(text: string, escaped: char -> bool)
    requires Separating(escaped) && text != "" && text[0] == '/'
    ensures Field(Escape(text, escaped))
  {
    EscapeNoBlank(text, escaped);
    EscapeNoDash(text, escaped);
  }

  function EscapeAll(texts: seq<string>, escaped: char -> bool): seq<string>
    requires forall c :: escaped(c) ==> c as int < 512
  {
    seq(|texts|, i requires 0 <= i < |texts| => Escape(texts[i], escaped))
  }

  lemma {:induction false} FirstUnclean(text: string, escaped: char -> bool) returns (k: nat)
    requires !Clean(text, escaped)
    ensures k < |text| && IsSpace(text[k]) && !escaped(text[k]) && Clean(text[..k], escaped)
  {
    hide IsSpace;
    if IsSpace(text[0]) && !escaped(text[0]) {
      k := 0;
    } else {
      assert text == [text[0]] + text[1..];
      var j := FirstUnclean(text[1..], escaped);
      k := j + 1;
      assert text[..k] == [text[0]] + text[1..][..j];
    }
  }

  predicate HasChar(path: Path, c: char) {
    exists part <- path :: c in part
  }

  lemma OwnHolds(segment: string, c: char)
    requires c != '.'
    ensures HasChar(Own(segment), c) <==> c in segment
  {
    if Own(segment) != [] {
      assert Own(segment)[0] == segment;
    }
  }

  lemma SegmentsIs(text: string, sofar: string)
    ensures Segments(text, sofar)
         == if text == "" then Own(sofar)
            else if text[0] == '/' then Own(sofar) + Segments(text[1..], "")
            else Segments(text[1..], sofar + [text[0]])
  {
  }

  lemma {:induction false} SegmentsHold(text: string, sofar: string, c: char)
    requires c != '/' && c != '.'
    ensures HasChar(Segments(text, sofar), c) <==> c in sofar + text
    decreases |text|
  {
    hide *;
    SegmentsIs(text, sofar);
    OwnHolds(sofar, c);
    if text == "" {
      assert sofar + text == sofar;
    } else if text[0] == '/' {
      SegmentsHold(text[1..], "", c);
      assert "" + text[1..] == text[1..];
      HasAppend(Own(sofar), Segments(text[1..], ""), c);
      InParts(sofar, text, c);
    } else {
      SegmentsHold(text[1..], sofar + [text[0]], c);
      assert sofar + [text[0]] + text[1..] == sofar + text;
    }
  }

  lemma InParts(sofar: string, text: string, c: char)
    requires text != "" && text[0] != c
    ensures c in sofar + text <==> c in sofar || c in text[1..]
  {
    assert text == [text[0]] + text[1..];
  }

  lemma HasAppend(a: Path, b: Path, c: char)
    ensures HasChar(a + b, c) <==> HasChar(a, c) || HasChar(b, c)
  {
    assert forall part <- a :: part in a + b;
    assert forall part <- b :: part in a + b;
  }

  lemma PathHolds(text: string, c: char)
    requires c != '/' && c != '.'
    ensures HasChar(PathOf(text), c) <==> c in text
  {
    hide Segments, HasChar;
    SegmentsHold(text, "", c);
    assert "" + text == text;
    RootHolds(c);
    HasAppend([], Segments(text, ""), c);
    HasAppend(["/"], Segments(text, ""), c);
    HasAppend(["//"], Segments(text, ""), c);
  }

  lemma RootHolds(c: char)
    requires c != '/'
    ensures !HasChar([], c) && !HasChar(["/"], c) && !HasChar(["//"], c)
  {
  }

  lemma SlashNoSpace()
    ensures !IsSpace('/') && !IsSpace('.')
  {
  }

  lemma EscapeStart(c: char, back: string, escaped: char -> bool)
    requires Escaping(escaped) && !escaped(c)
    ensures Escape([c] + back, escaped) == [c] + Escape(back, escaped)
  {
    assert ([c] + back)[1..] == back;
  }

  lemma FrontDiffers(front: string, whole: string, c: char, escaped: char -> bool)
    requires Clean(front, escaped) && IsSpace(c) && !escaped(c) && c in whole
    ensures PathOf(front) != PathOf(whole)
  {
    hide IsSpace, PathOf;
    SlashNoSpace();
    PathHolds(front, c);
    PathHolds(whole, c);
  }

  /** The first word read of a path is all of it, or it is the part before the
      white space that is left in it. */
  lemma FirstWord(text: string, escaped: char -> bool)
    requires Escaping(escaped) && text != "" && text[0] == '/'
    ensures var words := Words(Escape(text, escaped));
            && words != []
            && (PathOf(Unescape(words[0])) == PathOf(text) <==> Clean(text, escaped))
            && (Clean(text, escaped) ==> words == [Escape(text, escaped)])
  {
    hide IsSpace, IsWord, Words, PathOf, Escape, Unescape, Clean;
    if Clean(text, escaped) {
      EscapeNoSpace(text, escaped);
      OneWord(Escape(text, escaped));
      UnescapeEscape(text, escaped);
    } else {
      var k := FirstUnclean(text, escaped);
      var c, front, back := text[k], text[..k], text[k + 1..];
      SlashNoSpace();
      assert front != "" && front[0] == '/';
      EscapeNoSpace(front, escaped);
      assert text == front + ([c] + back);
      EscapeAppend(front, [c] + back, escaped);
      EscapeStart(c, back, escaped);
      WordFirst(Escape(front, escaped), [c] + Escape(back, escaped));
      UnescapeEscape(front, escaped);
      FrontDiffers(front, text, c, escaped);
    }
  }

  /** Every word of escaped texts is an escaped clean text. */
  ghost predicate EscapedClean(word: string, escaped: char -> bool)
    requires forall c :: escaped(c) ==> c as int < 512
  {
    exists text: string :: Clean(text, escaped) && Escape(text, escaped) == word
  }

  lemma {:induction false} WordsEscaped(text: string, escaped: char -> bool)
    requires Escaping(escaped)
    ensures forall w <- Words(Escape(text, escaped)) :: EscapedClean(w, escaped)
    decreases |text|
  {
    hide IsSpace, IsWord, Escape, Clean, EscapedClean, Words;
    if Clean(text, escaped) {
      EscapeNoSpace(text, escaped);
      if text == "" {
        EscapeNothing(escaped);
        NoWords();
      } else {
        OneWord(Escape(text, escaped));
        IsEscapedClean(text, escaped);
      }
    } else {
      var k := FirstUnclean(text, escaped);
      var c, front, back := text[k], text[..k], text[k + 1..];
      assert text == front + ([c] + back);
      EscapeAppend(front, [c] + back, escaped);
      EscapeStart(c, back, escaped);
      WordsEscaped(back, escaped);
      SpaceSkipped(c, Escape(back, escaped));
      EscapeNoSpace(front, escaped);
      if front == "" {
        EscapeNothing(escaped);
        assert "" + ([c] + Escape(back, escaped)) == [c] + Escape(back, escaped);
      } else {
        WordFirst(Escape(front, escaped), [c] + Escape(back, escaped));
        IsEscapedClean(front, escaped);
      }
    }
  }

  lemma EscapeNothing(escaped: char -> bool)
    requires Escaping(escaped)
    ensures Escape("", escaped) == ""
  {
  }

  lemma IsEscapedClean(text: string, escaped: char -> bool)
    requires Escaping(escaped) && Clean(text, escaped)
    ensures EscapedClean(Escape(text, escaped), escaped)
  {
    hide Escape, Clean;
  }

  lemma {:induction false} AllEscaped(texts: seq<string>, escaped: char -> bool)
    requires Escaping(escaped)
    ensures forall w <- Words(Spaced(EscapeAll(texts, escaped))) :: EscapedClean(w, escaped)
  {
    hide Escape, EscapedClean, Clean, IsSpace, Words;
    NoWords();
    if texts != [] {
      var first, others := texts[0], texts[1..];
      AllEscaped(others, escaped);
      WordsEscaped(first, escaped);
      assert EscapeAll(texts, escaped)[1..] == EscapeAll(others, escaped);
      WordsCons(Escape(first, escaped), EscapeAll(others, escaped));
      assert EscapeAll(texts, escaped) == [Escape(first, escaped)] + EscapeAll(others, escaped);
    }
  }

  lemma EscapedReads(word: string, escaped: char -> bool)
    requires Escaping(escaped) && EscapedClean(word, escaped)
    ensures Clean(Unescape(word), escaped)
  {
    hide Clean, Escape, Unescape;
    var text: string :| Clean(text, escaped) && Escape(text, escaped) == word;
    UnescapeEscape(text, escaped);
  }

  // -------------------------------------------------------------- records

  /** What the kernel writes into a line of mountinfo: the numbers, the root
      within the file system, the mount point, the other fields, the type, the
      source, and the options. */
  datatype Line = Line(
    ids: seq<string>, root: string, point: string, more: seq<string>, fstype: string, source: string, options: seq<string>)

  function PrintRecord(line: Line, escaped: char -> bool): string
    requires forall c :: escaped(c) ==> c as int < 512
  {
    Spaced(line.ids + [Escape(line.root, escaped), Escape(line.point, escaped)] + line.more) + SEPARATOR
    + Spaced(EscapeAll([line.fstype, line.source] + line.options, escaped))
  }

  /** Numbers and flags are words; the root and the point are absolute paths. */
  ghost predicate LineOk(line: Line) {
    && |line.ids| == 3 && (forall w <- line.ids + line.more :: IsWord(w) && w != "-")
    && line.root != "" && line.root[0] == '/' && line.point != "" && line.point[0] == '/'
    && line.fstype != "" && line.source != ""
  }

  /** The line falls into its two halves, whatever is in its fields. */
  lemma Halves(line: Line, escaped: char -> bool)
    requires Separating(escaped) && LineOk(line)
    ensures var fields, fs := line.ids + [Escape(line.root, escaped), Escape(line.point, escaped)] + line.more,
                              Spaced(EscapeAll([line.fstype, line.source] + line.options, escaped));
            var text := PrintRecord(line, escaped);
            && Partition(text) == Some(|Spaced(fields)|)
            && text[..|Spaced(fields)|] == Spaced(fields) && text[|Spaced(fields)| + 3..] == fs
  {
    hide IsSpace, IsWord, Spaced, Partition, Escape, EscapeAll, Field;
    var fields := line.ids + [Escape(line.root, escaped), Escape(line.point, escaped)] + line.more;
    PathField(line.root, escaped);
    PathField(line.point, escaped);
    forall f <- fields
      ensures Field(f)
    {
      if f in line.ids + line.more {
        WordField(f);
      } else {
        assert f == Escape(line.root, escaped) || f == Escape(line.point, escaped);
      }
    }
    var fs := Spaced(EscapeAll([line.fstype, line.source] + line.options, escaped));
    PartitionFields(fields, SEPARATOR + fs);
    PartitionHere(fs);
    assert Spaced(fields) + (SEPARATOR + fs) == Spaced(fields) + SEPARATOR + fs;
  }

  lemma WordField(word: string)
    requires IsWord(word) && word != "-"
    ensures Field(word)
  {
    BlankIsSpace();
    hide IsSpace;
  }

  /** The words of the first half. */
  lemma FirstHalf(line: Line, escaped: char -> bool)
    requires Escaping(escaped) && LineOk(line)
    ensures Words(Spaced(line.ids + [Escape(line.root, escaped), Escape(line.point, escaped)] + line.more))
         == line.ids + Words(Escape(line.root, escaped)) + Words(Escape(line.point, escaped)) + Words(Spaced(line.more))
  {
    hide IsSpace, IsWord, Words, Spaced, Escape;
    var root, point := Escape(line.root, escaped), Escape(line.point, escaped);
    assert line.ids + [root, point] + line.more == line.ids + ([root] + ([point] + line.more));
    forall w <- line.ids
      ensures IsWord(w)
    {
      assert w in line.ids + line.more;
    }
    WordsFields(line.ids, [root] + ([point] + line.more));
    WordsCons(root, [point] + line.more);
    WordsCons(point, line.more);
  }

  /** The words of the second half, if type and source are clean. */
  lemma SecondHalf(line: Line, escaped: char -> bool)
    requires Escaping(escaped) && LineOk(line)
    requires Clean(line.fstype, escaped) && Clean(line.source, escaped)
    ensures var fs := Words(Spaced(EscapeAll([line.fstype, line.source] + line.options, escaped)));
            |fs| >= 2 && Unescape(fs[0]) == line.fstype && Unescape(fs[1]) == line.source
  {
    hide IsSpace, IsWord, Words, Spaced, Escape, Unescape, Clean;
    var a, b := Escape(line.fstype, escaped), Escape(line.source, escaped);
    assert EscapeAll([line.fstype, line.source] + line.options, escaped) == [a, b] + EscapeAll(line.options, escaped);
    EscapeNoSpace(line.fstype, escaped);
    EscapeNoSpace(line.source, escaped);
    WordsFields([a, b], EscapeAll(line.options, escaped));
    UnescapeEscape(line.fstype, escaped);
    UnescapeEscape(line.source, escaped);
  }

  /** No white space is left in the type and the source, and none in the point
      either, if the root is one word. If white space splits the root, its second
      word is read as the mount point. */
  predicate Restored(line: Line, escaped: char -> bool)
    requires forall c :: escaped(c) ==> c as int < 512
  {
    && Clean(line.fstype, escaped) && Clean(line.source, escaped)
    && var root := Words(Escape(line.root, escaped));
       if |root| <= 1 then Clean(line.point, escaped) else PathOf(Unescape(root[1])) == PathOf(line.point)
  }

  /** The fifth field is the second word of the root, or the first of the point. */
  lemma FifthField(line: Line, escaped: char -> bool)
    requires Escaping(escaped) && LineOk(line)
    ensures var root, point := Words(Escape(line.root, escaped)), Words(Escape(line.point, escaped));
            var fields := Words(Spaced(line.ids + [Escape(line.root, escaped), Escape(line.point, escaped)] + line.more));
            root != [] && point != [] && |fields| >= 5 && fields[4] == if |root| == 1 then point[0] else root[1]
  {
    hide IsSpace, IsWord, Words, Spaced, Escape, Unescape, PathOf, Clean;
    FirstHalf(line, escaped);
    FirstWord(line.root, escaped);
    FirstWord(line.point, escaped);
  }

  /** Reading a printed record restores the mount point, the type and the source
      exactly under the condition above. */
  lemma RecordRead(line: Line, escaped: char -> bool)
    requires Separating(escaped) && LineOk(line)
    ensures Record(PrintRecord(line, escaped)) == Some(Mount(PathOf(line.point), line.fstype, line.source))
       <==> Restored(line, escaped)
  {
    hide IsSpace, IsWord, Spaced, Words, Partition, PathOf, Escape, Unescape, Clean, PrintRecord, EscapeAll, EscapedClean;
    Halves(line, escaped);
    FifthField(line, escaped);
    FirstWord(line.point, escaped);
    if Clean(line.fstype, escaped) && Clean(line.source, escaped) {
      SecondHalf(line, escaped);
    } else {
      var fs := Words(Spaced(EscapeAll([line.fstype, line.source] + line.options, escaped)));
      AllEscaped([line.fstype, line.source] + line.options, escaped);
      if |fs| >= 2 {
        assert fs[0] in fs && fs[1] in fs;
        EscapedReads(fs[0], escaped);
        EscapedReads(fs[1], escaped);
      }
    }
  }

  /** No white space is left unescaped. */
  predicate AllClean(line: Line, escaped: char -> bool) {
    && Clean(line.root, escaped) && Clean(line.point, escaped) && Clean(line.fstype, escaped) && Clean(line.source, escaped)
    && forall text <- line.options :: Clean(text, escaped)
  }

  lemma CleanRestored(line: Line, escaped: char -> bool)
    requires Escaping(escaped) && LineOk(line) && AllClean(line, escaped)
    ensures Restored(line, escaped) && Fits(PrintRecord(line, escaped))
  {
    FirstWord(line.root, escaped);
    hide IsSpace, IsBreak, IsWord, Words, Escape, EscapeAll, Unescape, Clean, PathOf, Spaced, BreakFree, Fits;
    var fields := line.ids + [Escape(line.root, escaped), Escape(line.point, escaped)] + line.more;
    var texts := [line.fstype, line.source] + line.options;
    EscapeFree(line.root, escaped);
    EscapeFree(line.point, escaped);
    forall f <- fields
      ensures BreakFree(f)
    {
      if f in line.ids + line.more {
        WordFree(f);
      }
    }
    SpacedFree(fields);
    forall f <- EscapeAll(texts, escaped)
      ensures BreakFree(f)
    {
      AllAt(texts, escaped);
      var i :| 0 <= i < |texts| && EscapeAll(texts, escaped)[i] == f;
      EscapeFree(texts[i], escaped);
    }
    SpacedFree(EscapeAll(texts, escaped));
    Printable(SEPARATOR);
    FreeAppend(Spaced(fields), SEPARATOR);
    FreeAppend(Spaced(fields) + SEPARATOR, Spaced(EscapeAll(texts, escaped)));
    FreeFits(PrintRecord(line, escaped));
  }

  lemma AllAt(texts: seq<string>, escaped: char -> bool)
    requires Escaping(escaped)
    ensures |EscapeAll(texts, escaped)| == |texts|
    ensures forall i | 0 <= i < |texts| :: EscapeAll(texts, escaped)[i] == Escape(texts[i], escaped)
  {
    hide Escape;
  }

  lemma EscapeFree(text: string, escaped: char -> bool)
    requires Escaping(escaped) && Clean(text, escaped)
    ensures BreakFree(Escape(text, escaped))
  {
    EscapeNoSpace(text, escaped);
    SpacesBreak();
    hide IsSpace, IsBreak, Clean, Escape;
  }

  /** What Linux escapes in mountinfo. */
  predicate Kernel(c: char) {
    c == ' ' || c == '\t' || c == '\n' || c == '\\' || c == '#'
  }

  lemma WordOf(text: string)
    requires text != "" && forall i | 0 <= i < |text| :: '!' <= text[i] <= '~'
    ensures IsWord(text)
  {
  }

  /** A record on this root and this point. */
  function PlainLine(root: string, point: string): Line {
    Line(["36", "35", "98:0"], root, point, ["rw"], "ext4", "/dev/sda1", ["rw"])
  }

  lemma PlainLineOk(root: string, point: string)
    requires root != "" && root[0] == '/' && point != "" && point[0] == '/'
    ensures LineOk(PlainLine(root, point)) && Separating(Kernel)
  {
    WordOf("36");
    WordOf("35");
    WordOf("98:0");
    WordOf("rw");
    assert "36"[0] == '3' && "35"[0] == '3' && "98:0"[0] == '9' && "rw"[0] == 'r';
  }

  lemma PlainLineClean(root: string, point: string)
    requires Clean(root, Kernel) && Clean(point, Kernel)
    ensures AllClean(PlainLine(root, point), Kernel)
  {
    assert Clean("ext4", Kernel) && Clean("/dev/sda1", Kernel) && Clean("rw", Kernel);
    hide Clean;
  }

  /** A no-break space, which Linux allows and does not escape, cuts the mount
      point. */
  lemma SpaceInPoint()
    ensures var line := PlainLine("/", "/a\U{A0}b");
            LineOk(line) && Record(PrintRecord(line, Kernel)) != Some(Mount(PathOf("/a\U{A0}b"), "ext4", "/dev/sda1"))
  {
    var point := "/a\U{A0}b";
    assert point[2] in point && IsSpace(point[2]) && !Kernel(point[2]);
    assert Escape("/", Kernel) == "/";
    WordOf("/");
    OneWord("/");
    PlainLineOk("/", point);
    hide IsWord, Record, PrintRecord, Words, PathOf;
    RecordRead(PlainLine("/", point), Kernel);
  }

  /** In the root it shifts the fields, so that a clean mount point is not read. */
  lemma SpaceInRoot()
    ensures var line := PlainLine("/x\U{A0}y", "/a");
            LineOk(line) && Record(PrintRecord(line, Kernel)) != Some(Mount(PathOf("/a"), "ext4", "/dev/sda1"))
  {
    hide *;
    var root := "/x\U{A0}y";
    RootEscaped();
    WordOf("/x");
    WordOf("y");
    PlainLineOk(root, "/a");
    assert root == "/x" + ("\U{A0}" + "y");
    WordFirst("/x", "\U{A0}" + "y");
    SpaceSkipped('\U{A0}', "y");
    OneWord("y");
    YIsNot();
    Shifted(PlainLine(root, "/a"));
    RecordRead(PlainLine(root, "/a"), Kernel);
    PlainIs(root, "/a");
  }

  lemma PlainIs(root: string, point: string)
    ensures PlainLine(root, point).point == point && PlainLine(root, point).root == root
    ensures PlainLine(root, point).fstype == "ext4" && PlainLine(root, point).source == "/dev/sda1"
  {
  }

  lemma Shifted(line: Line)
    requires line == PlainLine("/x\U{A0}y", "/a") && Words(Escape("/x\U{A0}y", Kernel)) == ["/x", "y"]
    requires PathOf(Unescape("y")) != PathOf("/a")
    ensures !Restored(line, Kernel)
  {
    hide Words, Escape, PathOf, Unescape;
  }

  lemma RootEscaped()
    ensures Escape("/x\U{A0}y", Kernel) == "/x\U{A0}y" && IsSpace('\U{A0}')
  {
    var root := "/x\U{A0}y";
    assert root[1..] == "x\U{A0}y" && root[1..][1..] == "\U{A0}y" && root[1..][1..][1..] == "y";
    assert "y"[1..] == "";
  }

  lemma YIsNot()
    ensures PathOf(Unescape("y")) != PathOf("/a")
  {
    assert "y"[1..] == "" && Unescape("y") == "y";
    PathHolds("y", 'a');
    PathHolds("/a", 'a');
    assert "/a"[1] == 'a';
    hide PathOf;
  }

  // --------------------------------------------------------- the whole table

  function Prints(lines: seq<Line>, escaped: char -> bool): seq<string>
    requires forall c :: escaped(c) ==> c as int < 512
  {
    seq(|lines|, i requires 0 <= i < |lines| => PrintRecord(lines[i], escaped))
  }

  function Means(lines: seq<Line>): seq<Mount> {
    seq(|lines|, i requires 0 <= i < |lines| => Mount(PathOf(lines[i].point), lines[i].fstype, lines[i].source))
  }

  /** The text of the file: every record ended by a newline. */
  function PrintTable(lines: seq<Line>, escaped: char -> bool): string
    requires forall c :: escaped(c) ==> c as int < 512
  {
    Concat(Made(Prints(lines, escaped)))
  }

  lemma RecordBegins(line: Line, escaped: char -> bool)
    requires Escaping(escaped) && LineOk(line)
    ensures Begins(PrintRecord(line, escaped))
  {
    hide IsSpace, IsWord, Escape, EscapeAll;
    var fields := line.ids + [Escape(line.root, escaped), Escape(line.point, escaped)] + line.more;
    assert line.ids[0] in line.ids + line.more && fields[0] == line.ids[0];
    WordBegins(line.ids[0]);
    assert Spaced(fields)[0] == line.ids[0][0];
  }

  /** A carriage return before the newline makes no difference. */
  lemma BareRecord(body: string)
    requires Fits(body)
    ensures Record(Bare(body + "\n")) == Record(body)
  {
    if BreakFree(body) {
      BareMade(body);
    } else {
      var front := body[..|body| - 1];
      assert body == front + "\r";
      assert (body + "\n")[..|body| - 1] == front;
      CarriageReturn(front);
    }
  }

  lemma CarriageReturn(text: string)
    ensures Record(text + "\r") == Record(text)
  {
    PartitionReturn(text);
    if Partition(text).Some? {
      var at := Partition(text).value;
      var post := text[at + 3..];
      hide Partition, Words, PathOf, Unescape;
      assert (text + "\r")[..at] == text[..at] && (text + "\r")[at + 3..] == post + "\r";
      ReturnSkipped();
      WordsJoin(post, "\r");
      assert Words(post) + [] == Words(post);
    }
  }

  lemma ReturnSkipped()
    ensures Words("\r") == [] && IsSpace('\r')
  {
    assert "\r"[1..] == "";
  }

  lemma {:induction false} PartitionReturn(text: string)
    ensures Partition(text + "\r") == Partition(text)
  {
    var grown := text + "\r";
    if text != "" {
      PartitionReturn(text[1..]);
      assert grown[1..] == text[1..] + "\r";
      if |text| >= 3 {
        assert grown[..3] == text[..3];
      } else {
        assert Partition(text).None? && Partition(text[1..]).None?;
        if |text| == 2 {
          assert grown[..3][2] == '\r' && SEPARATOR[2] == ' ';
        }
      }
    }
  }

  /** A list of lines is read as these mounts exactly if each is. */
  lemma {:induction false} RecordsIff(lines: seq<string>, mounts: seq<Mount>)
    ensures Records(lines) == Some(mounts)
       <==> |lines| == |mounts| && forall i | 0 <= i < |lines| :: Record(lines[i]) == Some(mounts[i])
  {
    hide Record;
    RecordsSize(lines);
    if lines != [] && mounts != [] {
      var n, m := |lines| - 1, |mounts| - 1;
      RecordsIff(lines[..n], mounts[..m]);
      assert mounts == mounts[..m] + [mounts[m]];
      if Records(lines) == Some(mounts) {
        assert Records(lines[..n]) == Some(mounts[..m]) by {
          assert (Records(lines[..n]).value + [Record(lines[n]).value])[..n] == Records(lines[..n]).value;
        }
      }
    }
  }

  /** Reading the whole file restores every mount, in order, exactly if each
      record is restored, and none has a line break in it. */
  lemma TableRead(lines: seq<Line>, escaped: char -> bool)
    requires lines != [] && Separating(escaped) && forall line <- lines :: LineOk(line)
    ensures Table(PrintTable(lines, escaped)) == Some(Means(lines))
       <==> forall line <- lines :: Restored(line, escaped) && Fits(PrintRecord(line, escaped))
  {
    hide *;
    SeparatingIs(escaped);
    var bodies := Prints(lines, escaped);
    forall b <- bodies
      ensures Begins(b)
    {
      PrintsAt(lines, escaped);
      var i :| 0 <= i < |lines| && bodies[i] == b;
      RecordBegins(lines[i], escaped);
    }
    PrintsAt(lines, escaped);
    TableIs(lines, escaped);
    RecordsIff(BareLines(PrintTable(lines, escaped)), Means(lines));
    if forall b <- bodies :: Fits(b) {
      FittingTable(lines, escaped);
      forall i | 0 <= i < |lines|
        ensures Record(BareLines(PrintTable(lines, escaped))[i]) == Some(Means(lines)[i]) <==> Restored(lines[i], escaped)
      {
        assert bodies[i] in bodies;
        BareRecord(bodies[i]);
        RecordRead(lines[i], escaped);
      }
      forall line <- lines
        ensures Fits(PrintRecord(line, escaped))
      {
        var i :| 0 <= i < |lines| && lines[i] == line;
        assert bodies[i] in bodies;
      }
      assert forall i | 0 <= i < |lines| :: lines[i] in lines;
    } else {
      var b :| b in bodies && !Fits(b);
      var i :| 0 <= i < |lines| && bodies[i] == b;
      assert lines[i] in lines;
      LineCount(bodies);
      BareSize(PrintTable(lines, escaped));
    }
  }

  lemma SeparatingIs(escaped: char -> bool)
    requires Separating(escaped)
    ensures Escaping(escaped) && forall c :: escaped(c) ==> c as int < 512
  {
  }

  /** So a table in which no white space is left unescaped is restored. */
  lemma CleanTable(lines: seq<Line>, escaped: char -> bool)
    requires lines != [] && Separating(escaped) && forall line <- lines :: LineOk(line) && AllClean(line, escaped)
    ensures Table(PrintTable(lines, escaped)) == Some(Means(lines))
  {
    hide *;
    SeparatingIs(escaped);
    forall line <- lines
      ensures Restored(line, escaped) && Fits(PrintRecord(line, escaped))
    {
      CleanRestored(line, escaped);
    }
    TableRead(lines, escaped);
  }

  lemma PrintsAt(lines: seq<Line>, escaped: char -> bool)
    requires Escaping(escaped)
    ensures |Prints(lines, escaped)| == |Means(lines)| == |lines|
    ensures forall i | 0 <= i < |lines| ::
              && Prints(lines, escaped)[i] == PrintRecord(lines[i], escaped)
              && Means(lines)[i] == Mount(PathOf(lines[i].point), lines[i].fstype, lines[i].source)
  {
    hide PrintRecord, PathOf;
  }

  lemma TableIs(lines: seq<Line>, escaped: char -> bool)
    requires lines != [] && Escaping(escaped)
    ensures PrintTable(lines, escaped) == Concat(Made(Prints(lines, escaped)))
    ensures Table(PrintTable(lines, escaped)) == Some(Means(lines))
       <==> Records(BareLines(PrintTable(lines, escaped))) == Some(Means(lines))
  {
    hide Records, BareLines, Concat, Made, Prints, PathOf;
    var read := BareLines(PrintTable(lines, escaped));
    RecordsSize(read);
    if read == [] {
      assert Means(lines) != [];
    }
  }

  lemma FittingTable(lines: seq<Line>, escaped: char -> bool)
    requires Escaping(escaped)
    requires forall b <- Prints(lines, escaped) :: Begins(b) && Fits(b)
    ensures var read, bodies := BareLines(PrintTable(lines, escaped)), Prints(lines, escaped);
            |read| == |bodies| && forall i | 0 <= i < |bodies| :: read[i] == Bare(bodies[i] + "\n")
  {
    hide Fits, Begins, LinesOk, SplitLines, Concat, Prints, Bare;
    MadeOk(Prints(lines, escaped));
    SplitJoin(Made(Prints(lines, escaped)));
  }

  lemma BareSize(text: string)
    ensures |BareLines(text)| == |SplitLines(text)|
  {
  }

  /** What Linux allows and does not escape can break a line as well: with a
      vertical tab in one mount point the table is not restored. */
  lemma TabbedTable(others: seq<Line>)
    requires forall line <- others :: LineOk(line)
    ensures var lines := others + [PlainLine("/", "/a\U{0B}b")];
            Table(PrintTable(lines, Kernel)) != Some(Means(lines))
  {
    var line := PlainLine("/", "/a\U{0B}b");
    var lines := others + [line];
    PlainLineOk("/", "/a\U{0B}b");
    assert line in lines;
    TabbedBreaks(line);
    hide *;
    TableRead(lines, Kernel);
  }

  lemma TabbedBreaks(line: Line)
    requires line == PlainLine("/", "/a\U{0B}b")
    ensures !Restored(line, Kernel)
  {
    assert line.point[2] in line.point && IsSpace(line.point[2]) && !Kernel(line.point[2]);
    assert Escape("/", Kernel) == "/";
    WordOf("/");
    OneWord("/");
    hide Words, PathOf;
  }

  // ----------------------------------------------------- the effective mount

  /** path == mount or mount in path.parents */
  predicate Contains(point: Path, path: Path) {
    point == path || (point <= path && (point != [] || path[0] !in {"/", "//"}))
  }

  function Matching(path: Path, mounts: seq<Mount>): seq<Mount> {
    if mounts == [] then []
    else
      var front, last := Matching(path, mounts[..|mounts| - 1]), mounts[|mounts| - 1];
      if Contains(last.point, path) then front + [last] else front
  }

  /** max by depth, then by position */
  function Deepest(matching: seq<Mount>): Mount
    requires matching != []
  {
    if |matching| == 1 then matching[0]
    else
      var front, last := Deepest(matching[..|matching| - 1]), matching[|matching| - 1];
      if |front.point| <= |last.point| then last else front
  }

  /** effective_mount */
  function Effective(path: Path, mounts: seq<Mount>): Option<Mount> {
    var matching := Matching(path, mounts);
    if matching == [] then None else Some(Deepest(matching))
  }

  /** The record at k holds the path: it is above it, nothing deeper is, and no
      later record is stacked on the same point. */
  ghost predicate Governs(path: Path, mounts: seq<Mount>, k: nat) {
    && k < |mounts| && Contains(mounts[k].point, path)
    && (forall j | 0 <= j < |mounts| && Contains(mounts[j].point, path) :: mounts[j].point <= mounts[k].point)
    && forall j | k < j < |mounts| :: mounts[j].point != mounts[k].point
  }

  /** What is above a path: the path itself, and everything it is reached through,
      which of an absolute path includes its root. */
  lemma ContainsIff(point: Path, path: Path)
    ensures Contains(point, path) <==>
              point == path || ((exists n :: 0 <= n < |path| && point == path[..n])
                                && (point != [] || path[0] !in {"/", "//"}))
  {
    if point <= path && point != path {
      assert |point| < |path| && point == path[..|point|];
    }
  }

  /** Two mounts above one path at the same depth are mounts on one point. */
  lemma SameDepth(a: Path, b: Path, path: Path)
    requires Contains(a, path) && Contains(b, path)
    ensures |a| <= |b| ==> a <= b
    ensures |a| == |b| ==> a == b
  {
    assert path[..|a|] == a && path[..|b|] == b;
  }

  lemma EffectiveStep(path: Path, front: seq<Mount>, last: Mount)
    ensures var before := Effective(path, front);
            Effective(path, front + [last])
            == if !Contains(last.point, path) || (before.Some? && |before.value.point| > |last.point|) then before else Some(last)
  {
    hide Contains;
    assert (front + [last])[..|front|] == front;
    var matching := Matching(path, front);
    assert (matching + [last])[..|matching|] == matching;
  }

  lemma GovernsSnoc(path: Path, front: seq<Mount>, last: Mount, k: nat)
    requires Governs(path, front, k)
    ensures if Contains(last.point, path) && |front[k].point| <= |last.point| then Governs(path, front + [last], |front|)
            else Governs(path, front + [last], k)
  {
    if Contains(last.point, path) {
      SameDepth(front[k].point, last.point, path);
      SameDepth(last.point, front[k].point, path);
    }
    hide Contains;
  }

  /** A record governs the path exactly if any holds it, and it is the one
      returned. */
  lemma {:induction false} EffectiveFound(path: Path, mounts: seq<Mount>) returns (k: nat)
    ensures Effective(path, mounts).None? <==> forall m <- mounts :: !Contains(m.point, path)
    ensures Effective(path, mounts).Some? ==>
              Governs(path, mounts, k) && Effective(path, mounts).value == mounts[k]
  {
    k := 0;
    if mounts == [] {
      hide Contains, Deepest;
    } else {
      hide Contains, Effective, Governs;
      var front, last := mounts[..|mounts| - 1], mounts[|mounts| - 1];
      assert mounts == front + [last];
      k := EffectiveFound(path, front);
      EffectiveStep(path, front, last);
      if Effective(path, front).None? {
        if Contains(last.point, path) {
          k := |front|;
          LastGoverns(path, front, last);
        }
      } else {
        GovernsSnoc(path, front, last, k);
        GovernsContains(path, front, k);
        k := if Contains(last.point, path) && |front[k].point| <= |last.point| then |front| else k;
      }
    }
  }

  lemma GovernsContains(path: Path, mounts: seq<Mount>, k: nat)
    requires Governs(path, mounts, k)
    ensures k < |mounts| && mounts[k] in mounts && Contains(mounts[k].point, path)
  {
    hide Contains;
  }

  lemma LastGoverns(path: Path, front: seq<Mount>, last: Mount)
    requires forall m <- front :: !Contains(m.point, path)
    requires Contains(last.point, path)
    ensures Governs(path, front + [last], |front|)
  {
    hide Contains;
    assert forall i | 0 <= i < |front| :: front[i] in front;
  }

  /** effective_mount returns the governing record, and there is only one. */
  lemma EffectiveGoverns(path: Path, mounts: seq<Mount>, k: nat)
    requires Governs(path, mounts, k)
    ensures Effective(path, mounts) == Some(mounts[k])
  {
    hide Contains, Effective;
    var i := EffectiveFound(path, mounts);
    assert mounts[k] in mounts;
    assert mounts[i].point <= mounts[k].point && mounts[k].point <= mounts[i].point;
    assert mounts[i].point == mounts[k].point;
  }
}
