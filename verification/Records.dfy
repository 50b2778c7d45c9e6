/** Cutting a log file into records: complete lines, grouped under header lines
    for the sources that write multi-line messages. */
module Records {
  import opened Basics
  import opened Sources

  const NEWLINE: byte := 10

  /** The two header regular expressions, as predicates of one line. */
  datatype Headers = Headers(samba: bytes -> bool, hal: bytes -> bool)

  datatype Line = Line(raw: bytes, end: nat)

  datatype Group = Group(raw: bytes, end: nat, header: bool, count: nat)

  predicate SambaKind(kind: Kind) {
    kind == Samba || kind == Smbd || kind == Nmbd || kind == Winbindd
  }

  predicate Grouped(kind: Kind) {
    SambaKind(kind) || kind == HalDaemon
  }

  predicate Header(headers: Headers, kind: Kind, raw: bytes) {
    if SambaKind(kind) then headers.samba(raw)
    else if kind == HalDaemon then headers.hal(raw)
    else false
  }

  /** A line that opens a record even when another record is open. */
  predicate Starts(headers: Headers, kind: Kind, raw: bytes) {
    !Grouped(kind) || Header(headers, kind, raw)
  }

  /** Position of the first `b`, or the length when there is none. */
  function Find(data: bytes, b: byte): (i: nat)
    ensures i <= |data|
    ensures i < |data| ==> data[i] == b
  {
    if data == [] || data[0] == b then 0 else Find(data[1..], b) + 1
  }

  /** bytes.split. */
  function Split(data: bytes, b: byte): (parts: seq<bytes>)
    ensures parts != []
  {
    var i := Find(data, b);
    if i == |data| then [data] else [data[..i]] + Split(data[i + 1..], b)
  }

  /** The lines of a file with their terminators; the unterminated rest counts
      as a line only in a rotated file. */
  function Lines(data: bytes, rotated: bool): seq<bytes> {
    var i := Find(data, NEWLINE);
    if i < |data| then [data[..i + 1]] + Lines(data[i + 1..], rotated)
    else if rotated && data != [] then [data]
    else []
  }

  /** One more line: it opens a record or continues the last one. */
  function AddLine(groups: seq<bytes>, line: bytes, starts: bool): seq<bytes> {
    if groups == [] || starts then groups + [line]
    else groups[..|groups| - 1] + [groups[|groups| - 1] + line]
  }

  function GroupLines(headers: Headers, kind: Kind, lines: seq<bytes>): (groups: seq<bytes>)
    ensures groups == [] <==> lines == []
  {
    if lines == [] then []
    else
      var line := lines[|lines| - 1];
      AddLine(GroupLines(headers, kind, lines[..|lines| - 1]), line, Starts(headers, kind, line))
  }

  /** A header written last waits for its body until a poll finds no growth. */
  predicate HeldBack(headers: Headers, kind: Kind, lines: seq<bytes>, quiet: bool, rotated: bool) {
    lines != [] && !rotated && !quiet && Header(headers, kind, lines[|lines| - 1])
  }

  function CutLines(headers: Headers, kind: Kind, lines: seq<bytes>, quiet: bool, rotated: bool): seq<bytes> {
    if HeldBack(headers, kind, lines, quiet, rotated) then lines[..|lines| - 1] else lines
  }

  /** The records completed_records returns for data[offset:]; `quiet` says
      that the file has not grown since the previous poll. */
  function Cut(headers: Headers, kind: Kind, data: bytes, offset: nat, quiet: bool, rotated: bool): seq<bytes>
    requires offset <= |data|
  {
    GroupLines(headers, kind, CutLines(headers, kind, Lines(data[offset..], rotated), quiet, rotated))
  }

  // ---------------------------------------------------------------- lines

  /** The lines are the parts of the split, each with its newline back. */
  lemma {:induction false} SplitIsLines(data: bytes)
    ensures var parts, lines := Split(data, NEWLINE), Lines(data, false);
            && |lines| == |parts| - 1
            && (forall k | 0 <= k < |lines| :: lines[k] == parts[k] + [NEWLINE])
  {
    hide Find;
    var i := Find(data, NEWLINE);
    if i < |data| {
      FindHit(data, NEWLINE);
      SplitIsLines(data[i + 1..]);
      assert data[..i + 1] == data[..i] + [NEWLINE];
    }
  }

  /** What the split leaves after the last newline. */
  function Tail(data: bytes): bytes {
    if data == [] || data[|data| - 1] == NEWLINE then [] else Tail(data[..|data| - 1]) + [data[|data| - 1]]
  }

  lemma {:induction false} TailAfter(a: bytes, b: bytes)
    ensures Tail(a + [NEWLINE] + b) == Tail(b)
  {
    var whole := a + [NEWLINE] + b;
    if b != [] {
      var front := b[..|b| - 1];
      TailAfter(a, front);
      assert whole[..|whole| - 1] == a + [NEWLINE] + front;
    }
  }

  lemma {:induction false} TailPlain(data: bytes)
    requires NEWLINE !in data
    ensures Tail(data) == data
  {
    if data != [] {
      TailPlain(data[..|data| - 1]);
    }
  }

  lemma {:induction false} FindAbsent(data: bytes, b: byte)
    requires Find(data, b) == |data|
    ensures b !in data
  {
    if data != [] {
      FindAbsent(data[1..], b);
      assert data == [data[0]] + data[1..];
    }
  }

  lemma LinesMore(data: bytes, rotated: bool)
    requires Find(data, NEWLINE) < |data|
    ensures var i := Find(data, NEWLINE);
            Lines(data, rotated) == [data[..i + 1]] + Lines(data[i + 1..], rotated)
  {
    hide Find;
  }

  lemma TailMore(data: bytes)
    requires Find(data, NEWLINE) < |data|
    ensures Tail(data) == Tail(data[Find(data, NEWLINE) + 1..])
  {
    hide *;
    var i := Find(data, NEWLINE);
    FindHit(data, NEWLINE);
    SplitAt(data, i);
    TailAfter(data[..i], data[i + 1..]);
  }

  lemma FindHit(data: bytes, b: byte)
    requires Find(data, b) < |data|
    ensures data[Find(data, b)] == b
  {
  }

  lemma SplitAt(data: bytes, i: nat)
    requires i < |data|
    ensures data == data[..i] + [data[i]] + data[i + 1..]
  {
  }

  lemma LinesLast(data: bytes, rotated: bool)
    requires Find(data, NEWLINE) == |data|
    ensures Lines(data, rotated) == if rotated && data != [] then [data] else []
  {
    hide Find;
  }

  lemma TailLast(data: bytes)
    requires Find(data, NEWLINE) == |data|
    ensures Tail(data) == data
  {
    FindAbsent(data, NEWLINE);
    TailPlain(data);
    hide Find, Tail;
  }

  lemma FindBound(data: bytes, b: byte)
    ensures Find(data, b) <= |data|
  {
  }

  lemma {:induction false} LinesAndTail(data: bytes)
    ensures data == Concat(Lines(data, false)) + Tail(data)
    ensures Lines(data, true) == Lines(data, false) + (if Tail(data) == [] then [] else [Tail(data)])
    ensures Lines(Tail(data), false) == []
  {
    hide *;
    var i := Find(data, NEWLINE);
    FindBound(data, NEWLINE);
    if i < |data| {
      var first, rest := data[..i + 1], data[i + 1..];
      LinesMore(data, true);
      LinesMore(data, false);
      TailMore(data);
      LinesAndTail(rest);
      ConcatCons(first, Lines(rest, false));
      assert data == first + rest;
      assert first + (Concat(Lines(rest, false)) + Tail(rest)) == first + Concat(Lines(rest, false)) + Tail(rest);
    } else {
      LinesLast(data, true);
      LinesLast(data, false);
      TailLast(data);
      ConcatNone<byte>();
    }
  }

  lemma LinesTile(data: bytes, rotated: bool)
    ensures Concat(Lines(data, rotated)) <= data
    ensures rotated ==> Concat(Lines(data, rotated)) == data
  {
    LinesAndTail(data);
    if rotated {
      if Tail(data) == [] {
        assert Lines(data, true) == Lines(data, false);
      } else {
        ConcatSnoc(Lines(data, false), Tail(data));
      }
    }
  }

  lemma {:induction false} FindPrefix(data: bytes, more: bytes, b: byte)
    requires Find(data, b) < |data|
    ensures Find(data + more, b) == Find(data, b)
  {
    if data[0] != b {
      assert (data + more)[1..] == data[1..] + more;
      FindPrefix(data[1..], more, b);
    }
  }

  /** Appending bytes never changes the lines that were already complete. */
  lemma {:induction false} LinesGrow(data: bytes, more: bytes, rotated: bool)
    ensures Lines(data, false) <= Lines(data + more, rotated)
  {
    hide *;
    var i := Find(data, NEWLINE);
    FindBound(data, NEWLINE);
    if i == |data| {
      LinesLast(data, false);
    } else {
      LinesMore(data, false);
      var first, rest, grown := data[..i + 1], data[i + 1..], data + more;
      FindPrefix(data, more, NEWLINE);
      LinesMore(grown, rotated);
      assert grown[..i + 1] == first;
      assert grown[i + 1..] == rest + more;
      LinesGrow(rest, more, rotated);
      PrefixCons(first, Lines(rest, false), Lines(rest + more, rotated));
    }
  }

  lemma PrefixCons<T>(x: T, a: seq<T>, b: seq<T>)
    requires a <= b
    ensures [x] + a <= [x] + b
  {
  }

  lemma LinesUncons(data: bytes, rotated: bool, first: bytes, others: seq<bytes>)
    requires Lines(data, rotated) == [first] + others
    ensures first <= data && Lines(data[|first|..], rotated) == others
    ensures first != []
  {
    hide *;
    var i, lines := Find(data, NEWLINE), Lines(data, rotated);
    FindBound(data, NEWLINE);
    assert lines[0] == first && lines[1..] == others;
    if i < |data| {
      LinesMore(data, rotated);
      assert first == data[..i + 1];
    } else {
      LinesLast(data, rotated);
      assert lines == [data];
      assert data[|data|..] == [];
      LinesOfNothing(rotated);
    }
  }

  lemma LinesOfNothing(rotated: bool)
    ensures Lines([], rotated) == []
  {
  }

  lemma PrefixOfRest(data: bytes, a: bytes, b: bytes)
    requires a <= data && b <= data[|a|..]
    ensures a + b <= data
    ensures data[|a + b|..] == data[|a|..][|b|..]
  {
    assert data == a + data[|a|..];
  }

  /** Reading on from the end of the first lines yields the other lines. */
  lemma {:induction false} LinesDrop(data: bytes, taken: seq<bytes>, left: seq<bytes>, rotated: bool)
    requires Lines(data, rotated) == taken + left
    ensures Concat(taken) <= data
    ensures Lines(data[|Concat(taken)|..], rotated) == left
  {
    if taken == [] {
      assert data[0..] == data;
    } else {
      var first, others := taken[0], taken[1..];
      assert taken == [first] + others;
      assert taken + left == [first] + (others + left);
      ConcatCons(first, others);
      LinesUncons(data, rotated, first, others + left);
      var rest := data[|first|..];
      LinesDrop(rest, others, left, rotated);
      PrefixOfRest(data, first, Concat(others));
    }
  }

  // --------------------------------------------------------------- groups

  lemma GroupsSnoc(headers: Headers, kind: Kind, lines: seq<bytes>, line: bytes)
    ensures GroupLines(headers, kind, lines + [line])
         == AddLine(GroupLines(headers, kind, lines), line, Starts(headers, kind, line))
  {
    assert (lines + [line])[..|lines|] == lines;
  }

  lemma AddLineTiles(groups: seq<bytes>, line: bytes, starts: bool)
    ensures Concat(AddLine(groups, line, starts)) == Concat(groups) + line
  {
    if groups == [] || starts {
      ConcatSnoc(groups, line);
    } else {
      var before, last := groups[..|groups| - 1], groups[|groups| - 1];
      ConcatSnoc(before, last + line);
      assert Concat(groups) == Concat(before) + last;
      assert Concat(before) + (last + line) == (Concat(before) + last) + line;
    }
  }

  lemma {:induction false} GroupsTile(headers: Headers, kind: Kind, lines: seq<bytes>)
    ensures Concat(GroupLines(headers, kind, lines)) == Concat(lines)
  {
    if lines != [] {
      var front, line := lines[..|lines| - 1], lines[|lines| - 1];
      GroupsTile(headers, kind, front);
      AddLineTiles(GroupLines(headers, kind, front), line, Starts(headers, kind, line));
    }
  }

  /** Two lists of records with the last of the first and the first of the
      second put together, unless a record starts there anyway. */
  function Rejoined(a: seq<bytes>, b: seq<bytes>, starts: bool): seq<bytes> {
    if a == [] || b == [] || starts then a + b
    else a[..|a| - 1] + [a[|a| - 1] + b[0]] + b[1..]
  }

  lemma RejoinedAddLine(a: seq<bytes>, b: seq<bytes>, line: bytes, opens: bool, starts: bool)
    requires b != []
    ensures Rejoined(a, AddLine(b, line, starts), opens) == AddLine(Rejoined(a, b, opens), line, starts)
  {
    var n, both := |b| - 1, a + b;
    if a == [] || opens {
      if starts {
        assert a + (b + [line]) == both + [line];
      } else {
        assert a + (b[..n] + [b[n] + line]) == both[..|both| - 1] + [both[|both| - 1] + line];
      }
    } else if n == 0 && !starts {
      var m := |a| - 1;
      assert a[m] + (b[0] + line) == (a[m] + b[0]) + line;
      assert a[..m] + [(a[m] + b[0]) + line] == AddLine(a[..m] + [a[m] + b[0]], line, false);
    }
  }

  lemma {:induction false} GroupsRejoin(headers: Headers, kind: Kind, a: seq<bytes>, b: seq<bytes>)
    requires b != []
    ensures GroupLines(headers, kind, a + b)
         == Rejoined(GroupLines(headers, kind, a), GroupLines(headers, kind, b), Starts(headers, kind, b[0]))
  {
    var front, line := b[..|b| - 1], b[|b| - 1];
    assert a + b == (a + front) + [line];
    GroupsSnoc(headers, kind, a + front, line);
    if front == [] {
      assert a + front == a;
      assert GroupLines(headers, kind, b) == [line];
    } else {
      GroupsRejoin(headers, kind, a, front);
      RejoinedAddLine(GroupLines(headers, kind, a), GroupLines(headers, kind, front), line,
                      Starts(headers, kind, b[0]), Starts(headers, kind, line));
    }
  }

  // ----------------------------------------------------------------- cuts

  /** The lines a cut takes and leaves. */
  lemma CutSpan(headers: Headers, kind: Kind, data: bytes, offset: nat, quiet: bool, rotated: bool)
    returns (taken: seq<bytes>, left: seq<bytes>)
    requires offset <= |data|
    ensures taken == CutLines(headers, kind, Lines(data[offset..], rotated), quiet, rotated)
    ensures taken + left == Lines(data[offset..], rotated)
    ensures |left| == (if HeldBack(headers, kind, Lines(data[offset..], rotated), quiet, rotated) then 1 else 0)
    ensures Concat(Cut(headers, kind, data, offset, quiet, rotated)) == Concat(taken)
    ensures Concat(taken) <= data[offset..]
    ensures Lines(data[offset + |Concat(taken)|..], rotated) == left
  {
    var lines := Lines(data[offset..], rotated);
    taken := CutLines(headers, kind, lines, quiet, rotated);
    left := lines[|taken|..];
    GroupsTile(headers, kind, taken);
    LinesDrop(data[offset..], taken, left, rotated);
    assert data[offset..][|Concat(taken)|..] == data[offset + |Concat(taken)|..];
  }

  /** Records tile the bytes from the offset; a rotated file is consumed to its
      last byte; a live one keeps back at most one complete line, a header. */
  lemma CutTiles(headers: Headers, kind: Kind, data: bytes, offset: nat, quiet: bool, rotated: bool)
    requires offset <= |data|
    ensures var end := offset + |Concat(Cut(headers, kind, data, offset, quiet, rotated))|;
            && end <= |data|
            && Concat(Cut(headers, kind, data, offset, quiet, rotated)) == data[offset..end]
            && (rotated ==> end == |data|)
            && |Lines(data[end..], rotated)| <= (if Grouped(kind) then 1 else 0)
            && (forall line <- Lines(data[end..], rotated) :: Header(headers, kind, line))
            && (quiet ==> Lines(data[end..], rotated) == [])
  {
    hide *;
    var taken, left := CutSpan(headers, kind, data, offset, quiet, rotated);
    LinesTile(data[offset..], rotated);
    LeftBehind(headers, kind, Lines(data[offset..], rotated), quiet, rotated, taken, left);
    assert Concat(taken) == data[offset..][..|Concat(taken)|];
    assert rotated ==> taken + left == taken;
  }

  /** Only a lone header can be left behind. */
  lemma LeftBehind(headers: Headers, kind: Kind, lines: seq<bytes>, quiet: bool, rotated: bool, taken: seq<bytes>, left: seq<bytes>)
    requires taken + left == lines && |left| == (if HeldBack(headers, kind, lines, quiet, rotated) then 1 else 0)
    ensures rotated || quiet ==> left == []
    ensures |left| <= (if Grouped(kind) then 1 else 0) && forall line <- left :: Header(headers, kind, line)
  {
    if left != [] {
      assert left == [lines[|taken|]];
    }
  }

  /** Grouping two stretches of lines one after the other and in one go. */
  lemma SplitGroups(headers: Headers, kind: Kind, taken: seq<bytes>, rest: seq<bytes>, quiet: bool, rotated: bool)
    ensures var first := GroupLines(headers, kind, taken);
            var second := GroupLines(headers, kind, CutLines(headers, kind, rest, quiet, rotated));
            var single := GroupLines(headers, kind, CutLines(headers, kind, taken + rest, quiet, rotated));
            if rest != [] then single == Rejoined(first, second, Starts(headers, kind, rest[0]))
            else
              && second == []
              && if HeldBack(headers, kind, taken, quiet, rotated) then first != [] && single == first[..|first| - 1] else single == first
  {
    hide GroupLines, CutLines, HeldBack, Rejoined;
    if rest == [] {
      assert taken + rest == taken;
      CutNothing(headers, kind, quiet, rotated);
      CutHeld(headers, kind, taken, quiet, rotated);
    } else {
      var restTaken := CutLines(headers, kind, rest, quiet, rotated);
      CutAfter(headers, kind, taken, rest, quiet, rotated);
      if restTaken == [] {
        assert taken + restTaken == taken;
        CutNothing(headers, kind, quiet, rotated);
        RejoinedNothing(GroupLines(headers, kind, taken), Starts(headers, kind, rest[0]));
      } else {
        GroupsRejoin(headers, kind, taken, restTaken);
        CutFirst(headers, kind, rest, quiet, rotated);
      }
    }
  }

  lemma RejoinedNothing(a: seq<bytes>, starts: bool)
    ensures Rejoined(a, [], starts) == a
  {
  }

  lemma CutFirst(headers: Headers, kind: Kind, lines: seq<bytes>, quiet: bool, rotated: bool)
    requires CutLines(headers, kind, lines, quiet, rotated) != []
    ensures lines != [] && CutLines(headers, kind, lines, quiet, rotated)[0] == lines[0]
  {
  }

  lemma CutNothing(headers: Headers, kind: Kind, quiet: bool, rotated: bool)
    ensures CutLines(headers, kind, [], quiet, rotated) == [] && GroupLines(headers, kind, []) == []
  {
  }

  lemma CutHeld(headers: Headers, kind: Kind, taken: seq<bytes>, quiet: bool, rotated: bool)
    ensures var first, single := GroupLines(headers, kind, taken), GroupLines(headers, kind, CutLines(headers, kind, taken, quiet, rotated));
            if HeldBack(headers, kind, taken, quiet, rotated) then first != [] && single == first[..|first| - 1] else single == first
  {
    hide GroupLines;
    if HeldBack(headers, kind, taken, quiet, rotated) {
      var front, line := taken[..|taken| - 1], taken[|taken| - 1];
      GroupsSnoc(headers, kind, front, line);
      assert taken == front + [line];
    }
  }

  lemma CutAfter(headers: Headers, kind: Kind, taken: seq<bytes>, rest: seq<bytes>, quiet: bool, rotated: bool)
    requires rest != []
    ensures CutLines(headers, kind, taken + rest, quiet, rotated) == taken + CutLines(headers, kind, rest, quiet, rotated)
  {
    assert (taken + rest)[|taken + rest| - 1] == rest[|rest| - 1];
  }

  /** A second poll of the grown file resumes at the lines the first one left. */
  lemma Resume(headers: Headers, kind: Kind, data: bytes, more: bytes, offset: nat, quiet: bool, rotated: bool)
    returns (taken: seq<bytes>, rest: seq<bytes>)
    requires offset <= |data|
    ensures taken == CutLines(headers, kind, Lines(data[offset..], false), quiet, false)
    ensures Lines((data + more)[offset..], rotated) == taken + rest
    ensures offset + |Concat(taken)| <= |data|
    ensures Concat(Cut(headers, kind, data, offset, quiet, false)) == Concat(taken)
    ensures Lines((data + more)[offset + |Concat(taken)|..], rotated) == rest
    ensures rest == [] ==> taken == Lines(data[offset..], false)
  {
    hide *;
    var grown := data + more;
    var left;
    taken, left := CutSpan(headers, kind, data, offset, quiet, false);
    assert grown[offset..] == data[offset..] + more;
    LinesGrow(data[offset..], more, rotated);
    var all := Lines(grown[offset..], rotated);
    assert taken <= taken + left <= all;
    rest := all[|taken|..];
    assert all == taken + rest;
    LinesDrop(grown[offset..], taken, rest, rotated);
    assert grown[offset..][|Concat(taken)|..] == grown[offset + |Concat(taken)|..];
    if rest == [] {
      assert left == [];
    }
  }

  /** Polling in two steps instead of one: reading `data`, then reading on in the
      grown file. If there are lines left to read, a single cut of the grown file
      gives the same records, with the last one of the first step and the first
      one of the second put together exactly if the first line left starts no
      record. If there are none, the second step gives nothing, and the single
      cut gives the same records but for a last header that it holds back and
      that the first step took as complete because the file was quiet. */
  lemma PollSplit(headers: Headers, kind: Kind, data: bytes, more: bytes, offset: nat,
                  quiet: bool, quietLater: bool, rotated: bool, first: seq<bytes>, reached: nat)
    requires offset <= |data|
    requires first == Cut(headers, kind, data, offset, quiet, false)
    requires reached == offset + |Concat(first)|
    ensures reached <= |data|
    ensures var second := Cut(headers, kind, data + more, reached, quietLater, rotated);
            var single := Cut(headers, kind, data + more, offset, quietLater, rotated);
            var left := Lines((data + more)[reached..], rotated);
            if left != [] then single == Rejoined(first, second, Starts(headers, kind, left[0]))
            else
              && second == []
              && if HeldBack(headers, kind, Lines((data + more)[offset..], rotated), quietLater, rotated)
                 then quiet && first != [] && single == first[..|first| - 1]
                 else single == first
    ensures !Grouped(kind) ==>
              Cut(headers, kind, data + more, offset, quietLater, rotated)
              == first + Cut(headers, kind, data + more, reached, quietLater, rotated)
  {
    hide *;
    var taken, rest := Resume(headers, kind, data, more, offset, quiet, rotated);
    SplitGroups(headers, kind, taken, rest, quietLater, rotated);
    CutIs(headers, kind, data, offset, quiet, false);
    CutIs(headers, kind, data + more, offset, quietLater, rotated);
    CutIs(headers, kind, data + more, reached, quietLater, rotated);
    if rest == [] {
      assert taken + rest == taken;
      TakenQuiet(headers, kind, taken, quiet, quietLater, rotated);
    }
    if !Grouped(kind) {
      Ungrouped(headers, kind, rest, quietLater, rotated, first, Cut(headers, kind, data + more, reached, quietLater, rotated));
      Ungrouped(headers, kind, taken, quietLater, rotated, first, []);
    }
  }

  lemma CutIs(headers: Headers, kind: Kind, data: bytes, offset: nat, quiet: bool, rotated: bool)
    requires offset <= |data|
    ensures Cut(headers, kind, data, offset, quiet, rotated)
         == GroupLines(headers, kind, CutLines(headers, kind, Lines(data[offset..], rotated), quiet, rotated))
  {
    hide GroupLines, CutLines, Lines;
  }

  /** What was taken from a live file and would be held back later: the file was
      quiet. */
  lemma TakenQuiet(headers: Headers, kind: Kind, lines: seq<bytes>, quiet: bool, quietLater: bool, rotated: bool)
    requires lines == CutLines(headers, kind, lines, quiet, false)
    ensures HeldBack(headers, kind, lines, quietLater, rotated) ==> quiet
  {
    hide Header;
  }

  lemma Ungrouped(headers: Headers, kind: Kind, lines: seq<bytes>, quiet: bool, rotated: bool, a: seq<bytes>, b: seq<bytes>)
    requires !Grouped(kind)
    ensures !HeldBack(headers, kind, lines, quiet, rotated)
    ensures lines != [] ==> Rejoined(a, b, Starts(headers, kind, lines[0])) == a + b
    ensures a + [] == a
  {
  }

  // ------------------------------------------------- what a cut consists of

  /** A complete line: a newline ends it, and there is no other in it. */
  ghost predicate IsLine(line: bytes) {
    line != [] && line[|line| - 1] == 10 && 10 !in line[..|line| - 1]
  }

  /** The bytes are these complete lines and an incomplete one. */
  ghost predicate SplitsInto(data: bytes, lines: seq<bytes>, rest: bytes) {
    data == Concat(lines) + rest && (forall line <- lines :: IsLine(line)) && 10 !in rest
  }

  lemma {:induction false} FindFirst(data: bytes, b: byte)
    ensures b !in data[..Find(data, b)]
  {
    if data != [] && data[0] != b {
      FindFirst(data[1..], b);
      var i := Find(data[1..], b);
      assert data[..i + 1] == [data[0]] + data[1..][..i];
    }
  }

  /** Such a split exists. */
  lemma LinesSplit(data: bytes)
    ensures SplitsInto(data, Lines(data, false), Tail(data))
  {
    hide *;
    LinesAndTail(data);
    LinesAre(data);
    TailFree(data);
    SplitsIs(data, Lines(data, false), Tail(data));
  }

  lemma SplitsIs(data: bytes, lines: seq<bytes>, rest: bytes)
    ensures SplitsInto(data, lines, rest)
       <==> data == Concat(lines) + rest && (forall line <- lines :: IsLine(line)) && NEWLINE !in rest
  {
    hide IsLine;
  }

  lemma {:induction false} LinesAre(data: bytes)
    ensures forall line <- Lines(data, false) :: IsLine(line)
  {
    hide *;
    var i := Find(data, NEWLINE);
    FindBound(data, NEWLINE);
    if i < |data| {
      LinesMore(data, false);
      LinesAre(data[i + 1..]);
      FindFirst(data, NEWLINE);
      FindHit(data, NEWLINE);
      MakesLine(data, i);
    } else {
      LinesLast(data, false);
    }
  }

  lemma MakesLine(data: bytes, i: nat)
    requires i < |data| && data[i] == NEWLINE && NEWLINE !in data[..i]
    ensures IsLine(data[..i + 1])
  {
    assert data[..i + 1][..i] == data[..i];
  }

  lemma {:induction false} TailFree(data: bytes)
    ensures NEWLINE !in Tail(data)
  {
    if data != [] && data[|data| - 1] != NEWLINE {
      TailFree(data[..|data| - 1]);
    }
  }

  lemma FindUnique(data: bytes, b: byte, i: nat)
    requires i <= |data| && b !in data[..i] && (i < |data| ==> data[i] == b)
    ensures Find(data, b) == i
  {
    FindFirst(data, b);
    FindBound(data, b);
    NotIn(data, b, i);
    NotIn(data, b, Find(data, b));
    if Find(data, b) < |data| {
      FindHit(data, b);
    }
    hide Find;
  }

  lemma NotIn(data: bytes, b: byte, n: nat)
    requires n <= |data| && b !in data[..n]
    ensures forall k | 0 <= k < n :: data[k] != b
  {
    assert forall k | 0 <= k < n :: data[k] == data[..n][k];
  }

  /** A line before anything is its first line. */
  lemma LineFirst(line: bytes, more: bytes)
    requires IsLine(line)
    ensures Find(line + more, NEWLINE) == |line| - 1
    ensures (line + more)[..|line|] == line && (line + more)[|line|..] == more
  {
    var data := line + more;
    assert data[..|line| - 1] == line[..|line| - 1];
    FindUnique(data, NEWLINE, |line| - 1);
  }

  /** There is only one way to split bytes into lines. */
  lemma {:induction false} SplitUnique(data: bytes, lines: seq<bytes>, rest: bytes)
    requires SplitsInto(data, lines, rest)
    ensures Lines(data, false) == lines && Tail(data) == rest
  {
    hide *;
    SplitsIs(data, lines, rest);
    if lines == [] {
      ConcatNone<byte>();
      assert data == rest;
      assert data[..|data|] == data;
      FindUnique(data, NEWLINE, |data|);
      LinesLast(data, false);
      TailLast(data);
    } else {
      var first, others := lines[0], lines[1..];
      assert lines == [first] + others;
      assert first in lines;
      ConcatCons(first, others);
      var more := Concat(others) + rest;
      assert data == first + more;
      LineFirst(first, more);
      LineSize(first);
      LinesMore(data, false);
      TailMore(data);
      SplitsIs(more, others, rest);
      SplitUnique(more, others, rest);
    }
  }

  lemma LineSize(line: bytes)
    requires IsLine(line)
    ensures line != []
  {
  }

  /** A line that opens a record: of the kinds that write messages of several
      lines, one that its header pattern matches; of the others, any. */
  ghost predicate Opens(headers: Headers, kind: Kind, line: bytes) {
    if kind in {Samba, Smbd, Nmbd, Winbindd} then headers.samba(line)
    else if kind == HalDaemon then headers.hal(line)
    else true
  }

  ghost predicate ManyLined(kind: Kind) {
    kind in {Samba, Smbd, Nmbd, Winbindd, HalDaemon}
  }

  /** The records are runs of these lines: each but the first begins with a line
      that opens a record, and no other line in it does. */
  ghost predicate Grouping(headers: Headers, kind: Kind, lines: seq<bytes>, records: seq<bytes>, runs: seq<seq<bytes>>) {
    && Concat(runs) == lines && |runs| == |records|
    && (forall i | 0 <= i < |runs| :: runs[i] != [] && records[i] == Concat(runs[i]))
    && (forall i | 0 < i < |runs| :: Opens(headers, kind, runs[i][0]))
    && (forall i, j | 0 <= i < |runs| && 0 < j < |runs[i]| :: !Opens(headers, kind, runs[i][j]))
  }

  lemma StartsOpens(headers: Headers, kind: Kind, line: bytes)
    ensures Starts(headers, kind, line) <==> Opens(headers, kind, line)
    ensures Header(headers, kind, line) <==> ManyLined(kind) && Opens(headers, kind, line)
  {
  }

  /** One run more, or one line more in the last run. */
  lemma RunOpened(headers: Headers, kind: Kind, lines: seq<bytes>, records: seq<bytes>, runs: seq<seq<bytes>>, line: bytes)
    requires Grouping(headers, kind, lines, records, runs)
    requires runs == [] || Opens(headers, kind, line)
    ensures Grouping(headers, kind, lines + [line], records + [line], runs + [[line]])
  {
    hide Opens;
    ConcatSnoc(runs, [line]);
    ConcatOne(line);
  }

  lemma RunExtended(headers: Headers, kind: Kind, lines: seq<bytes>, records: seq<bytes>, runs: seq<seq<bytes>>, line: bytes)
    requires Grouping(headers, kind, lines, records, runs)
    requires runs != [] && !Opens(headers, kind, line)
    ensures var n := |runs| - 1;
            Grouping(headers, kind, lines + [line], AddLine(records, line, false), runs[..n] + [runs[n] + [line]])
  {
    hide Opens, Concat;
    var n := |runs| - 1;
    assert runs == runs[..n] + [runs[n]];
    ConcatSnoc(runs[..n], runs[n]);
    ConcatSnoc(runs[..n], runs[n] + [line]);
    ConcatSnoc(runs[n], line);
    assert Concat(runs[..n]) + (runs[n] + [line]) == Concat(runs[..n]) + runs[n] + [line];
  }

  lemma NoRuns(headers: Headers, kind: Kind)
    ensures Grouping(headers, kind, [], [], [])
  {
  }

  lemma {:induction false} SomeGrouping(headers: Headers, kind: Kind, lines: seq<bytes>) returns (runs: seq<seq<bytes>>)
    ensures Grouping(headers, kind, lines, GroupLines(headers, kind, lines), runs)
  {
    hide *;
    if lines == [] {
      runs := [];
      NoRuns(headers, kind);
      NoGroups(headers, kind);
    } else {
      var front, line := lines[..|lines| - 1], lines[|lines| - 1];
      assert lines == front + [line];
      runs := SomeGrouping(headers, kind, front);
      var records := GroupLines(headers, kind, front);
      GroupsSnoc(headers, kind, front, line);
      StartsOpens(headers, kind, line);
      RunsSize(headers, kind, front, records, runs);
      AddLineIs(records, line, Starts(headers, kind, line));
      if runs == [] || Opens(headers, kind, line) {
        RunOpened(headers, kind, front, records, runs, line);
        runs := runs + [[line]];
      } else {
        RunExtended(headers, kind, front, records, runs, line);
        runs := runs[..|runs| - 1] + [runs[|runs| - 1] + [line]];
      }
    }
  }

  lemma NoGroups(headers: Headers, kind: Kind)
    ensures GroupLines(headers, kind, []) == []
  {
  }

  lemma AddLineIs(records: seq<bytes>, line: bytes, starts: bool)
    ensures AddLine(records, line, starts) == if records == [] || starts then records + [line] else AddLine(records, line, false)
  {
  }

  lemma RunsSize(headers: Headers, kind: Kind, lines: seq<bytes>, records: seq<bytes>, runs: seq<seq<bytes>>)
    requires Grouping(headers, kind, lines, records, runs)
    ensures |runs| == |records| && (runs == [] <==> lines == [])
  {
    if runs != [] {
      assert Concat(runs) == Concat(runs[..|runs| - 1]) + runs[|runs| - 1];
    }
  }

  /** Where the last line stands. */
  lemma LastRun(front: seq<bytes>, line: bytes, runs: seq<seq<bytes>>)
    requires runs != [] && runs[|runs| - 1] != [] && Concat(runs) == front + [line]
    ensures var n := |runs| - 1;
            var m := |runs[n]| - 1;
            runs[n][m] == line && front == Concat(runs[..n]) + runs[n][..m] && runs[n] == runs[n][..m] + [line]
  {
    var n := |runs| - 1;
    assert Concat(runs[..n]) + runs[n] == front + [line];
    hide Concat;
    LastPart(Concat(runs[..n]), runs[n], front, line);
  }

  lemma LastPart<T>(a: seq<T>, b: seq<T>, front: seq<T>, last: T)
    requires a + b == front + [last] && b != []
    ensures var m := |b| - 1; b[m] == last && front == a + b[..m] && b == b[..m] + [last]
  {
    var m := |b| - 1;
    assert |front| == |a| + m;
    assert (front + [last])[|front|] == last;
    assert front == (a + b)[..|front|];
  }

  lemma RunDropped(headers: Headers, kind: Kind, front: seq<bytes>, line: bytes, records: seq<bytes>, runs: seq<seq<bytes>>)
    requires Grouping(headers, kind, front + [line], records, runs) && runs != [] && |runs[|runs| - 1]| == 1
    ensures var n := |runs| - 1;
            && Grouping(headers, kind, front, records[..n], runs[..n]) && records == records[..n] + [line]
            && (n > 0 ==> Opens(headers, kind, line))
  {
    hide Opens, Concat;
    var n := |runs| - 1;
    LastRun(front, line, runs);
    assert Concat(runs[..n]) + [] == Concat(runs[..n]);
    assert runs[n] == [line];
    ConcatOne(line);
  }

  lemma RunShortened(headers: Headers, kind: Kind, front: seq<bytes>, line: bytes, records: seq<bytes>, runs: seq<seq<bytes>>)
    requires Grouping(headers, kind, front + [line], records, runs) && runs != [] && |runs[|runs| - 1]| > 1
    ensures var n := |runs| - 1;
            var last := runs[n][..|runs[n]| - 1];
            && Grouping(headers, kind, front, records[..n] + [Concat(last)], runs[..n] + [last])
            && records == records[..n] + [Concat(last) + line] && !Opens(headers, kind, line)
  {
    hide Opens, Concat;
    var n := |runs| - 1;
    var m := |runs[n]| - 1;
    LastRun(front, line, runs);
    ConcatSnoc(runs[..n], runs[n][..m]);
    ConcatSnoc(runs[n][..m], line);
    assert !Opens(headers, kind, runs[n][m]);
  }

  /** A grouping without its last line is one: either the last run was that line
      alone, or it is shorter by it. */
  lemma GroupingFront(headers: Headers, kind: Kind, front: seq<bytes>, line: bytes, records: seq<bytes>, runs: seq<seq<bytes>>)
      returns (before: seq<bytes>, shorter: seq<seq<bytes>>)
    requires Grouping(headers, kind, front + [line], records, runs)
    ensures Grouping(headers, kind, front, before, shorter)
    ensures records == AddLine(before, line, Opens(headers, kind, line))
  {
    RunsSize(headers, kind, front + [line], records, runs);
    RunsFull(headers, kind, front + [line], records, runs);
    hide *;
    var n := |runs| - 1;
    assert runs[n] in runs;
    if |runs[n]| == 1 {
      RunDropped(headers, kind, front, line, records, runs);
      before, shorter := records[..n], runs[..n];
      AddOpened(before, line, Opens(headers, kind, line));
    } else {
      RunShortened(headers, kind, front, line, records, runs);
      var last := runs[n][..|runs[n]| - 1];
      before, shorter := records[..n] + [Concat(last)], runs[..n] + [last];
      AddExtended(records[..n], Concat(last), line);
    }
  }

  lemma RunsFull(headers: Headers, kind: Kind, lines: seq<bytes>, records: seq<bytes>, runs: seq<seq<bytes>>)
    requires Grouping(headers, kind, lines, records, runs)
    ensures forall run <- runs :: run != []
  {
    hide Opens, Concat;
  }

  lemma AddOpened(records: seq<bytes>, line: bytes, starts: bool)
    requires records == [] || starts
    ensures AddLine(records, line, starts) == records + [line]
  {
  }

  lemma AddExtended(front: seq<bytes>, last: bytes, line: bytes)
    ensures AddLine(front + [last], line, false) == front + [last + line]
  {
  }

  /** There is only one way to group lines. */
  lemma {:induction false} GroupingUnique(headers: Headers, kind: Kind, lines: seq<bytes>, records: seq<bytes>, runs: seq<seq<bytes>>)
    requires Grouping(headers, kind, lines, records, runs)
    ensures records == GroupLines(headers, kind, lines)
    decreases |lines|
  {
    hide *;
    RunsSize(headers, kind, lines, records, runs);
    if lines == [] {
      NoGroups(headers, kind);
    } else {
      var front, line := lines[..|lines| - 1], lines[|lines| - 1];
      assert lines == front + [line];
      var before, shorter := GroupingFront(headers, kind, front, line, records, runs);
      GroupingUnique(headers, kind, front, before, shorter);
      GroupsSnoc(headers, kind, front, line);
      StartsOpens(headers, kind, line);
    }
  }

  /** The last complete line waits for the rest of its record: the file is live
      and has grown since the last poll, and the line is a header. */
  ghost predicate HeaderWaits(headers: Headers, kind: Kind, lines: seq<bytes>, quiet: bool, rotated: bool) {
    !rotated && !quiet && lines != [] && ManyLined(kind) && Opens(headers, kind, lines[|lines| - 1])
  }

  /** The lines a cut takes: the complete ones, a rotated file's incomplete last
      one, but not a header that waits. */
  ghost function TakenLines(headers: Headers, kind: Kind, lines: seq<bytes>, rest: bytes, quiet: bool, rotated: bool): seq<bytes> {
    if rotated then (if rest == [] then lines else lines + [rest])
    else if HeaderWaits(headers, kind, lines, quiet, rotated) then lines[..|lines| - 1]
    else lines
  }

  /** Exactly what a cut returns, and what it leaves: given the only way to split
      the bytes from the offset into lines, the only way to group those taken. */
  lemma CutExactly(headers: Headers, kind: Kind, data: bytes, offset: nat, quiet: bool, rotated: bool,
                   lines: seq<bytes>, rest: bytes, records: seq<bytes>)
    requires offset <= |data| && SplitsInto(data[offset..], lines, rest)
    ensures var taken := TakenLines(headers, kind, lines, rest, quiet, rotated);
            && (records == Cut(headers, kind, data, offset, quiet, rotated)
                <==> exists runs :: Grouping(headers, kind, taken, records, runs))
            && var end := offset + |Concat(Cut(headers, kind, data, offset, quiet, rotated))|;
               end <= |data|
               && data[end..] == (if HeaderWaits(headers, kind, lines, quiet, rotated) then lines[|lines| - 1] else [])
                                 + (if rotated then [] else rest)
  {
    hide *;
    var taken := TakenLines(headers, kind, lines, rest, quiet, rotated);
    TakenIs(headers, kind, data, offset, quiet, rotated, lines, rest);
    GroupsTile(headers, kind, taken);
    LeftOver(headers, kind, data, offset, lines, rest, quiet, rotated);
    var runs := SomeGrouping(headers, kind, taken);
    forall other | Grouping(headers, kind, taken, records, other)
      ensures records == GroupLines(headers, kind, taken)
    {
      GroupingUnique(headers, kind, taken, records, other);
    }
  }

  lemma TakenIs(headers: Headers, kind: Kind, data: bytes, offset: nat, quiet: bool, rotated: bool, lines: seq<bytes>, rest: bytes)
    requires offset <= |data| && SplitsInto(data[offset..], lines, rest)
    ensures Cut(headers, kind, data, offset, quiet, rotated)
         == GroupLines(headers, kind, TakenLines(headers, kind, lines, rest, quiet, rotated))
  {
    SplitUnique(data[offset..], lines, rest);
    LinesAndTail(data[offset..]);
    CutIs(headers, kind, data, offset, quiet, rotated);
    if lines != [] {
      StartsOpens(headers, kind, lines[|lines| - 1]);
    }
    hide Lines, Tail, GroupLines, SplitsInto, Header, Opens, ManyLined;
    if rest == [] {
      assert lines + [] == lines;
    }
  }

  lemma LeftOver(headers: Headers, kind: Kind, data: bytes, offset: nat, lines: seq<bytes>, rest: bytes, quiet: bool, rotated: bool)
    requires offset <= |data| && SplitsInto(data[offset..], lines, rest)
    ensures var end := offset + |Concat(TakenLines(headers, kind, lines, rest, quiet, rotated))|;
            end <= |data|
            && data[end..] == (if HeaderWaits(headers, kind, lines, quiet, rotated) then lines[|lines| - 1] else [])
                              + (if rotated then [] else rest)
  {
    hide Opens, ManyLined, IsLine, Concat;
    var taken := TakenLines(headers, kind, lines, rest, quiet, rotated);
    if rotated {
      if rest != [] {
        ConcatSnoc(lines, rest);
      }
      assert Concat(taken) == data[offset..];
    } else if HeaderWaits(headers, kind, lines, quiet, rotated) {
      var n := |lines| - 1;
      assert lines == lines[..n] + [lines[n]];
      ConcatSnoc(lines[..n], lines[n]);
      assert data[offset..] == Concat(taken) + (lines[n] + rest);
      assert data[offset + |Concat(taken)|..] == data[offset..][|Concat(taken)|..];
    } else {
      assert data[offset + |Concat(taken)|..] == data[offset..][|Concat(taken)|..];
    }
  }

  // --------------------------------------------------------------- method

  /** End of the k-th record of a cut. */
  ghost function EndOf(parts: seq<bytes>, k: nat, offset: nat): nat
    requires k < |parts|
  {
    offset + |Concat(parts[..k + 1])|
  }

  lemma EndOfPrefix(parts: seq<bytes>, more: seq<bytes>, offset: nat)
    requires parts <= more
    ensures forall k | 0 <= k < |parts| :: EndOf(more, k, offset) == EndOf(parts, k, offset)
  {
    forall k | 0 <= k < |parts|
      ensures EndOf(more, k, offset) == EndOf(parts, k, offset)
    {
      assert more[..k + 1] == parts[..k + 1];
    }
  }

  lemma EndOfLast(parts: seq<bytes>, offset: nat)
    requires parts != []
    ensures EndOf(parts, |parts| - 1, offset) == offset + |Concat(parts)|
  {
    assert parts[..|parts|] == parts;
  }

  ghost predicate Located(lines: seq<Line>, parts: seq<bytes>, offset: nat) {
    && |lines| == |parts|
    && forall k | 0 <= k < |parts| :: lines[k].raw == parts[k] && lines[k].end == EndOf(parts, k, offset)
  }

  ghost predicate GroupsLocated(groups: seq<Group>, parts: seq<bytes>, offset: nat) {
    && |groups| == |parts|
    && forall k | 0 <= k < |parts| ::
         groups[k].raw == parts[k] && groups[k].end == EndOf(parts, k, offset) && groups[k].count >= 1
  }

  lemma LocatedSnoc(lines: seq<Line>, parts: seq<bytes>, offset: nat, raw: bytes)
    requires Located(lines, parts, offset)
    ensures Located(lines + [Line(raw, offset + |Concat(parts)| + |raw|)], parts + [raw], offset)
  {
    EndOfPrefix(parts, parts + [raw], offset);
    EndOfLast(parts + [raw], offset);
    ConcatSnoc(parts, raw);
  }

  lemma NothingRead(parts: seq<bytes>, offset: nat)
    ensures Located([], parts[..0], offset) && Concat(parts[..0]) == []
  {
  }

  method TerminateParts(parts: seq<bytes>, offset: nat, ghost whole: seq<bytes>)
    returns (lines: seq<Line>, pos: nat)
    requires |whole| == |parts| - 1
    requires forall k | 0 <= k < |whole| :: whole[k] == parts[k] + [NEWLINE]
    ensures Located(lines, whole, offset)
    ensures pos == offset + |Concat(whole)|
  {
    hide EndOf, Located, Concat;
    pos, lines := offset, [];
    NothingRead(whole, offset);
    for i := 0 to |parts| - 1
      invariant Located(lines, whole[..i], offset)
      invariant pos == offset + |Concat(whole[..i])|
    {
      var raw := parts[i] + [NEWLINE];
      LocatedSnoc(lines, whole[..i], offset, raw);
      ConcatSnoc(whole[..i], raw);
      assert whole[..i + 1] == whole[..i] + [raw];
      pos := pos + |raw|;
      lines := lines + [Line(raw, pos)];
    }
    assert whole[..|parts| - 1] == whole;
  }

  method SplitLines(data: bytes, offset: nat, rotated: bool) returns (lines: seq<Line>)
    requires offset <= |data|
    ensures Located(lines, Lines(data[offset..], rotated), offset)
  {
    ghost var chunk := data[offset..];
    ghost var whole := Lines(chunk, false);
    SplitIsLines(chunk);
    LinesAndTail(chunk);
    var pos;
    lines, pos := TerminateParts(Split(data[offset..], NEWLINE), offset, whole);
    assert data[pos..] == Tail(chunk) by {
      assert data[pos..] == chunk[|Concat(whole)|..];
    }
    if rotated {
      if pos < |data| {
        LocatedSnoc(lines, whole, offset, data[pos..]);
        lines := lines + [Line(data[pos..], |data|)];
      } else {
        assert Lines(chunk, true) == whole;
      }
    }
  }

  lemma OpenGroup(groups: seq<Group>, parts: seq<bytes>, offset: nat, raw: bytes, end: nat, header: bool)
    requires GroupsLocated(groups, parts, offset)
    requires end == offset + |Concat(parts)| + |raw|
    ensures GroupsLocated(groups + [Group(raw, end, header, 1)], parts + [raw], offset)
  {
    EndOfPrefix(parts, parts + [raw], offset);
    EndOfLast(parts + [raw], offset);
    ConcatSnoc(parts, raw);
  }

  lemma ExtendGroup(groups: seq<Group>, parts: seq<bytes>, offset: nat, raw: bytes, end: nat)
    requires GroupsLocated(groups, parts, offset)
    requires groups != []
    requires end == offset + |Concat(parts)| + |raw|
    ensures var last := groups[|groups| - 1];
            GroupsLocated(groups[..|groups| - 1] + [Group(last.raw + raw, end, last.header, last.count + 1)],
                          AddLine(parts, raw, false), offset)
  {
    hide EndOf;
    var after := AddLine(parts, raw, false);
    AddLineTiles(parts, raw, false);
    EndOfPrefix(parts[..|parts| - 1], parts, offset);
    EndOfPrefix(parts[..|parts| - 1], after, offset);
    EndOfLast(after, offset);
  }

  lemma NextLine(headers: Headers, kind: Kind, parts: seq<bytes>, i: nat, offset: nat)
    requires i < |parts|
    ensures GroupLines(headers, kind, parts[..i + 1])
         == AddLine(GroupLines(headers, kind, parts[..i]), parts[i], Starts(headers, kind, parts[i]))
    ensures EndOf(parts, i, offset) == offset + |Concat(GroupLines(headers, kind, parts[..i]))| + |parts[i]|
  {
    assert parts[..i + 1] == parts[..i] + [parts[i]];
    GroupsSnoc(headers, kind, parts[..i], parts[i]);
    GroupsTile(headers, kind, parts[..i]);
    ConcatSnoc(parts[..i], parts[i]);
  }

  /** One turn of the grouping loop. */
  method GroupLine(headers: Headers, kind: Kind, groups: seq<Group>, line: Line, ghost parts: seq<bytes>, ghost offset: nat)
    returns (grown: seq<Group>)
    requires GroupsLocated(groups, parts, offset)
    requires line.end == offset + |Concat(parts)| + |line.raw|
    ensures GroupsLocated(grown, AddLine(parts, line.raw, Starts(headers, kind, line.raw)), offset)
    ensures grown != []
    ensures grown[|grown| - 1].header && grown[|grown| - 1].count == 1 <==> Header(headers, kind, line.raw)
  {
    var Line(raw, end) := line;
    var header := Header(headers, kind, raw);
    if !Grouped(kind) {
      OpenGroup(groups, parts, offset, raw, end, false);
      grown := groups + [Group(raw, end, false, 1)];
    } else if header || groups == [] {
      OpenGroup(groups, parts, offset, raw, end, header);
      grown := groups + [Group(raw, end, header, 1)];
    } else {
      ExtendGroup(groups, parts, offset, raw, end);
      var last := groups[|groups| - 1];
      grown := groups[..|groups| - 1] + [Group(last.raw + raw, end, last.header, last.count + 1)];
    }
  }

  method GroupRecords(headers: Headers, kind: Kind, lines: seq<Line>, ghost parts: seq<bytes>, ghost offset: nat)
    returns (groups: seq<Group>)
    requires Located(lines, parts, offset)
    ensures GroupsLocated(groups, GroupLines(headers, kind, parts), offset)
    ensures groups != [] ==>
              var last := groups[|groups| - 1];
              last.header && last.count == 1 <==> Header(headers, kind, parts[|parts| - 1])
  {
    hide GroupLines, EndOf;
    groups := [];
    NothingLocated(headers, kind, parts, offset);
    for i := 0 to |lines|
      invariant GroupsLocated(groups, GroupLines(headers, kind, parts[..i]), offset)
      invariant i > 0 ==>
                  var last := groups[|groups| - 1];
                  last.header && last.count == 1 <==> Header(headers, kind, parts[i - 1])
    {
      NextLine(headers, kind, parts, i, offset);
      assert lines[i].raw == parts[i] && lines[i].end == EndOf(parts, i, offset);
      groups := GroupLine(headers, kind, groups, lines[i], GroupLines(headers, kind, parts[..i]), offset);
    }
    assert parts[..|lines|] == parts;
  }

  lemma NothingLocated(headers: Headers, kind: Kind, parts: seq<bytes>, offset: nat)
    ensures GroupsLocated([], GroupLines(headers, kind, parts[..0]), offset)
  {
  }

  lemma DropLast(headers: Headers, kind: Kind, groups: seq<Group>, parts: seq<bytes>, offset: nat)
    requires parts != [] && Header(headers, kind, parts[|parts| - 1])
    requires GroupsLocated(groups, GroupLines(headers, kind, parts), offset)
    ensures GroupsLocated(groups[..|groups| - 1], GroupLines(headers, kind, parts[..|parts| - 1]), offset)
  {
    var front, line := parts[..|parts| - 1], parts[|parts| - 1];
    GroupsSnoc(headers, kind, front, line);
    assert parts == front + [line];
    EndOfPrefix(GroupLines(headers, kind, front), GroupLines(headers, kind, parts), offset);
  }

  /** completed_records: split into lines, fold them into groups, and drop a
      lone trailing header of a live file that is still growing. */
  method CompletedRecords(headers: Headers, kind: Kind, data: bytes, offset: nat, seenSize: int, rotated: bool)
    returns (records: seq<Line>)
    requires offset <= |data|
    ensures Located(records, Cut(headers, kind, data, offset, seenSize == |data|, rotated), offset)
  {
    var lines := SplitLines(data, offset, rotated);
    ghost var parts := Lines(data[offset..], rotated);
    var groups := GroupRecords(headers, kind, lines, parts, offset);
    if groups != [] && groups[|groups| - 1].header && groups[|groups| - 1].count == 1 && !rotated && seenSize != |data| {
      DropLast(headers, kind, groups, parts, offset);
      groups := groups[..|groups| - 1];
    }
    records := WithoutFlags(groups, Cut(headers, kind, data, offset, seenSize == |data|, rotated), offset);
  }

  method WithoutFlags(groups: seq<Group>, ghost parts: seq<bytes>, ghost offset: nat) returns (records: seq<Line>)
    requires GroupsLocated(groups, parts, offset)
    ensures Located(records, parts, offset)
  {
    records := [];
    for i := 0 to |groups|
      invariant |records| == i
      invariant forall k | 0 <= k < i :: records[k] == Line(groups[k].raw, groups[k].end)
    {
      records := records + [Line(groups[i].raw, groups[i].end)];
    }
  }
}
