/** Finding the cursor's file again after rotation, and reading on from it. */
module Rotation {
  import opened Basics
  import opened Sources
  import opened Records
  import opened States

  /** A file to read, from an offset; `rotated` for anything but the live one. */
  datatype Piece = Piece(rec: Rec, offset: nat, rotated: bool)

  /** What one poll takes from one kind, and where it leaves the cursor. */
  datatype Polled = Polled(records: seq<bytes>, cursor: Cursor, gap: bool)

  predicate SameFile(rec: Rec, cursor: Cursor) {
    rec.dev == cursor.dev && rec.inode == cursor.inode
  }

  predicate MatchesPrefix(rec: Rec, cursor: Cursor) {
    |rec.data| >= cursor.offset && Sha256(rec.data[..cursor.offset]) == cursor.sha256
  }

  predicate Matches(rec: Rec, cursor: Cursor, sameFile: bool) {
    (sameFile ==> SameFile(rec, cursor)) && MatchesPrefix(rec, cursor)
  }

  /** The first match from position i on. */
  function FirstMatch(recs: seq<Rec>, cursor: Cursor, sameFile: bool, i: nat): (r: Option<nat>)
    requires i <= |recs|
    ensures r.Some? ==> i <= r.value < |recs| && Matches(recs[r.value], cursor, sameFile)
    ensures r.Some? ==> forall j | i <= j < r.value :: !Matches(recs[j], cursor, sameFile)
    ensures r.None? ==> forall j | i <= j < |recs| :: !Matches(recs[j], cursor, sameFile)
    decreases |recs| - i
  {
    if i == |recs| then None
    else if Matches(recs[i], cursor, sameFile) then Some(i)
    else FirstMatch(recs, cursor, sameFile, i + 1)
  }

  /** The generation to resume in: the oldest with the cursor's identity and
      prefix, or else the oldest with its prefix. */
  function Locate(recs: seq<Rec>, cursor: Cursor): (r: Option<nat>)
    ensures r.Some? ==> r.value < |recs| && MatchesPrefix(recs[r.value], cursor)
  {
    var exact := FirstMatch(recs, cursor, true, 0);
    if exact.Some? then exact else FirstMatch(recs, cursor, false, 0)
  }

  /** These files one after another, the first of them from the offset. */
  function PiecesFrom(recs: seq<Rec>, offset: nat): (pieces: seq<Piece>)
    requires recs != [] && offset <= |recs[0].data|
    ensures pieces != [] && |pieces| == |recs|
    ensures forall p <- pieces :: p.offset <= |p.rec.data|
    ensures pieces[|pieces| - 1].rec == recs[|recs| - 1] && !pieces[|pieces| - 1].rotated
  {
    if |recs| == 1 then [Piece(recs[0], offset, false)]
    else [Piece(recs[0], offset, true)] + PiecesFrom(recs[1..], 0)
  }

  function Work(recs: seq<Rec>, previous: Option<Cursor>): (pieces: seq<Piece>)
    requires recs != []
    ensures pieces != []
    ensures forall p <- pieces :: p.offset <= |p.rec.data|
    ensures pieces[|pieces| - 1].rec == recs[|recs| - 1] && !pieces[|pieces| - 1].rotated
  {
    var live := [Piece(recs[|recs| - 1], 0, false)];
    if previous.None? then live
    else
      match Locate(recs, previous.value)
      case None => live
      case Some(found) => PiecesFrom(recs[found..], previous.value.offset)
  }

  function SeenSize(previous: Option<Cursor>): int {
    if previous.Some? then previous.value.sizeSeen else -1
  }

  function CutPiece(headers: Headers, kind: Kind, piece: Piece, seen: int): seq<bytes>
    requires piece.offset <= |piece.rec.data|
  {
    Cut(headers, kind, piece.rec.data, piece.offset, seen == |piece.rec.data|, piece.rotated)
  }

  function CutPieces(headers: Headers, kind: Kind, pieces: seq<Piece>, seen: int): seq<bytes>
    requires forall p <- pieces :: p.offset <= |p.rec.data|
  {
    if pieces == [] then []
    else CutPiece(headers, kind, pieces[0], seen) + CutPieces(headers, kind, pieces[1..], seen)
  }

  /** The cursor after reading a file up to `end`. */
  function CursorAt(rec: Rec, end: nat): Cursor
    requires end <= |rec.data|
  {
    Cursor(rec.dev, rec.inode, end, Sha256(rec.data[..end]), |rec.data|)
  }

  function Reached(headers: Headers, kind: Kind, piece: Piece, seen: int): (end: nat)
    requires piece.offset <= |piece.rec.data|
    ensures piece.offset <= end <= |piece.rec.data|
  {
    CutTiles(headers, kind, piece.rec.data, piece.offset, seen == |piece.rec.data|, piece.rotated);
    piece.offset + |Concat(CutPiece(headers, kind, piece, seen))|
  }

  lemma PieceSpan(headers: Headers, kind: Kind, piece: Piece, seen: int)
    requires piece.offset <= |piece.rec.data|
    ensures var end := Reached(headers, kind, piece, seen);
            && Concat(CutPiece(headers, kind, piece, seen)) == piece.rec.data[piece.offset..end]
            && (piece.rotated ==> end == |piece.rec.data|)
  {
    CutTiles(headers, kind, piece.rec.data, piece.offset, seen == |piece.rec.data|, piece.rotated);
  }

  lemma OnePiece(headers: Headers, kind: Kind, piece: Piece, seen: int)
    requires piece.offset <= |piece.rec.data|
    ensures CutPieces(headers, kind, [piece], seen) == CutPiece(headers, kind, piece, seen)
  {
    hide CutPiece;
    assert [piece][1..] == [];
    assert CutPiece(headers, kind, piece, seen) + [] == CutPiece(headers, kind, piece, seen);
  }

  lemma CutPiecesCons(headers: Headers, kind: Kind, piece: Piece, others: seq<Piece>, seen: int)
    requires piece.offset <= |piece.rec.data| && forall p <- others :: p.offset <= |p.rec.data|
    ensures Concat(CutPieces(headers, kind, [piece] + others, seen))
         == Concat(CutPiece(headers, kind, piece, seen)) + Concat(CutPieces(headers, kind, others, seen))
  {
    hide CutPiece;
    assert ([piece] + others)[1..] == others;
    ConcatAppend(CutPiece(headers, kind, piece, seen), CutPieces(headers, kind, others, seen));
  }

  /** One poll of one kind over its retained files, oldest first. */
  function Poll(headers: Headers, kind: Kind, previous: Option<Cursor>, recs: seq<Rec>): (polled: Polled)
    requires recs != []
    ensures polled.cursor.offset <= |recs[|recs| - 1].data|
  {
    var pieces, seen := Work(recs, previous), SeenSize(previous);
    var live := pieces[|pieces| - 1];
    assert live in pieces && live.rec == recs[|recs| - 1];
    Polled(CutPieces(headers, kind, pieces, seen),
           CursorAt(live.rec, Reached(headers, kind, live, seen)),
           previous.Some? && Locate(recs, previous.value).None?)
  }

  // -------------------------------------------------------------- the log

  /** Everything ever written to one log, and where its generations start. */
  datatype Log = Log(stream: bytes, starts: seq<nat>)

  ghost predicate WellFormed(log: Log) {
    && log.starts != []
    && (forall i, j | 0 <= i <= j < |log.starts| :: log.starts[i] <= log.starts[j])
    && log.starts[|log.starts| - 1] <= |log.stream|
  }

  function EndOfGen(log: Log, g: nat): nat
    requires g < |log.starts|
  {
    if g + 1 < |log.starts| then log.starts[g + 1] else |log.stream|
  }

  ghost function Gen(log: Log, g: nat): bytes
    requires WellFormed(log) && g < |log.starts|
  {
    log.stream[log.starts[g]..EndOfGen(log, g)]
  }

  /** Later writes append, and rotation only starts new generations at the end. */
  ghost predicate Extends(earlier: Log, grown: Log) {
    && earlier.stream <= grown.stream
    && earlier.starts <= grown.starts
    && forall i | |earlier.starts| <= i < |grown.starts| :: |earlier.stream| <= grown.starts[i]
  }

  /** The retained files are the log's generations from `first` on. Which device
      and inode each has is left open: that covers renaming and copytruncate. */
  ghost predicate Shows(log: Log, first: nat, recs: seq<Rec>) {
    && WellFormed(log)
    && first + |recs| == |log.starts|
    && recs != []
    && forall i | 0 <= i < |recs| :: recs[i].data == Gen(log, first + i)
  }

  /** The cursor is a position in generation g. */
  ghost predicate Tracks(log: Log, cursor: Cursor, g: nat) {
    && WellFormed(log)
    && g < |log.starts|
    && cursor.offset <= |Gen(log, g)|
    && cursor.sha256 == Sha256(Gen(log, g)[..cursor.offset])
  }

  ghost function Position(log: Log, cursor: Cursor, g: nat): nat
    requires g < |log.starts|
  {
    log.starts[g] + cursor.offset
  }

  // ------------------------------------------------------------- locating

  lemma FirstMatchIs(recs: seq<Rec>, cursor: Cursor, sameFile: bool, t: nat)
    requires t < |recs|
    ensures FirstMatch(recs, cursor, sameFile, 0) == Some(t)
       <==> Matches(recs[t], cursor, sameFile) && forall j | 0 <= j < t :: !Matches(recs[j], cursor, sameFile)
  {
    var r := FirstMatch(recs, cursor, sameFile, 0);
    if r.Some? && r.value < t {
      assert Matches(recs[r.value], cursor, sameFile);
    }
  }

  /** File t starts with the consumed prefix, and it is the first one that also
      has the cursor's identity, or no file has both and it is the first one
      that starts with the prefix. */
  ghost predicate Recognised(recs: seq<Rec>, cursor: Cursor, t: int) {
    && 0 <= t < |recs| && MatchesPrefix(recs[t], cursor)
    && (|| (SameFile(recs[t], cursor)
            && forall j | 0 <= j < t :: !(SameFile(recs[j], cursor) && MatchesPrefix(recs[j], cursor)))
        || ((forall j | 0 <= j < |recs| :: !(SameFile(recs[j], cursor) && MatchesPrefix(recs[j], cursor)))
            && forall j | 0 <= j < t :: !MatchesPrefix(recs[j], cursor)))
  }

  /** Exactly when the search finds file t. */
  lemma LocateExactly(recs: seq<Rec>, cursor: Cursor, t: nat)
    ensures Locate(recs, cursor) == Some(t) <==> Recognised(recs, cursor, t)
  {
    assert forall j | 0 <= j < |recs| :: Matches(recs[j], cursor, true) <==> SameFile(recs[j], cursor) && MatchesPrefix(recs[j], cursor);
    assert forall j | 0 <= j < |recs| :: Matches(recs[j], cursor, false) <==> MatchesPrefix(recs[j], cursor);
    if t < |recs| {
      FirstMatchIs(recs, cursor, true, t);
      FirstMatchIs(recs, cursor, false, t);
    }
  }

  /** The simple case: one retained file starts with the prefix. */
  lemma LocateUnique(recs: seq<Rec>, cursor: Cursor, t: nat)
    requires t < |recs| && MatchesPrefix(recs[t], cursor)
    requires forall j | 0 <= j < |recs| :: MatchesPrefix(recs[j], cursor) ==> j == t
    ensures Recognised(recs, cursor, t)
  {
  }

  /** With no match the poll counts a gap and reads the live file from its start. */
  lemma LocateNone(headers: Headers, kind: Kind, cursor: Cursor, recs: seq<Rec>)
    requires recs != []
    ensures Poll(headers, kind, Some(cursor), recs).gap <==> forall j | 0 <= j < |recs| :: !MatchesPrefix(recs[j], cursor)
    ensures Poll(headers, kind, Some(cursor), recs).gap ==>
              var live := Piece(recs[|recs| - 1], 0, false);
              Poll(headers, kind, Some(cursor), recs).records == CutPiece(headers, kind, live, cursor.sizeSeen)
  {
    assert forall j | 0 <= j < |recs| :: Matches(recs[j], cursor, false) <==> MatchesPrefix(recs[j], cursor);
    assert forall j | 0 <= j < |recs| :: Matches(recs[j], cursor, true) ==> MatchesPrefix(recs[j], cursor);
    if Locate(recs, cursor).None? {
      var live := Piece(recs[|recs| - 1], 0, false);
      OnePiece(headers, kind, live, cursor.sizeSeen);
      assert Work(recs, Some(cursor)) == [live];
    }
  }

  /** A cursor at offset 0 has the empty prefix, which every generation starts
      with: the search then goes by identity alone, else takes the oldest. */
  lemma LocateAtZero(recs: seq<Rec>, cursor: Cursor, t: nat)
    requires cursor.offset == 0 && cursor.sha256 == Sha256([])
    requires t < |recs|
    ensures Locate(recs, cursor) == Some(t) <==>
            || (SameFile(recs[t], cursor) && forall j | 0 <= j < t :: !SameFile(recs[j], cursor))
            || (t == 0 && forall j | 0 <= j < |recs| :: !SameFile(recs[j], cursor))
  {
    assert forall j | 0 <= j < |recs| :: recs[j].data[..0] == [];
    assert forall j | 0 <= j < |recs| :: MatchesPrefix(recs[j], cursor);
    LocateExactly(recs, cursor, t);
    if t > 0 {
      assert MatchesPrefix(recs[0], cursor);
    }
  }

  // -------------------------------------------------------------- reading

  lemma Glue(s: bytes, a: nat, b: nat, c: nat)
    requires a <= b <= c <= |s|
    ensures s[a..b] + s[b..c] == s[a..c]
  {
  }

  lemma GenBounds(log: Log, g: nat)
    requires WellFormed(log) && g < |log.starts|
    ensures log.starts[g] <= EndOfGen(log, g) <= |log.stream|
    ensures |Gen(log, g)| == EndOfGen(log, g) - log.starts[g]
    ensures EndOfGen(log, g) <= log.starts[|log.starts| - 1] || g == |log.starts| - 1
  {
  }

  lemma SliceOfSlice(s: bytes, from: nat, to: nat, a: nat, b: nat)
    requires from <= to <= |s| && a <= b <= to - from
    ensures s[from..to][a..b] == s[from + a..from + b]
  {
    var x, y := s[from..to][a..b], s[from + a..from + b];
    assert forall i | 0 <= i < b - a :: x[i] == y[i];
  }

  /** A cut of one generation, as a stretch of the stream. */
  lemma PieceInStream(headers: Headers, kind: Kind, log: Log, g: nat, piece: Piece, seen: int)
    requires WellFormed(log) && g < |log.starts|
    requires piece.rec.data == Gen(log, g) && piece.offset <= |piece.rec.data|
    ensures var from, to := log.starts[g] + piece.offset, log.starts[g] + Reached(headers, kind, piece, seen);
            && from <= to <= EndOfGen(log, g) <= |log.stream|
            && Concat(CutPiece(headers, kind, piece, seen)) == log.stream[from..to]
            && (piece.rotated ==> to == EndOfGen(log, g))
  {
    hide CutPiece, Reached, WellFormed;
    PieceSpan(headers, kind, piece, seen);
    ReachedWithin(headers, kind, piece, seen);
    GenBounds(log, g);
    var end := Reached(headers, kind, piece, seen);
    assert piece.offset <= end <= |Gen(log, g)|;
    SliceOfSlice(log.stream, log.starts[g], EndOfGen(log, g), piece.offset, end);
  }

  lemma ShowsTail(log: Log, first: nat, recs: seq<Rec>)
    requires Shows(log, first, recs) && |recs| > 1
    ensures Shows(log, first + 1, recs[1..])
  {
    var others := recs[1..];
    forall i | 0 <= i < |others|
      ensures others[i].data == Gen(log, first + 1 + i)
    {
      assert recs[i + 1].data == Gen(log, first + (i + 1));
    }
  }

  lemma {:induction false} ShowsFrom(log: Log, first: nat, recs: seq<Rec>, found: nat)
    requires Shows(log, first, recs) && found < |recs|
    ensures Shows(log, first + found, recs[found..])
  {
    if found == 0 {
      assert recs[0..] == recs;
    } else {
      ShowsFrom(log, first, recs, found - 1);
      ShowsTail(log, first + (found - 1), recs[found - 1..]);
      assert recs[found - 1..][1..] == recs[found..];
    }
  }

  /** Retained files read one after another yield one stretch of the stream. */
  ghost predicate Span(headers: Headers, kind: Kind, log: Log, from: nat, pieces: seq<Piece>, seen: int)
    requires pieces != [] && log.starts != [] && forall p <- pieces :: p.offset <= |p.rec.data|
  {
    var to := log.starts[|log.starts| - 1] + Reached(headers, kind, pieces[|pieces| - 1], seen);
    from <= to <= |log.stream| && Concat(CutPieces(headers, kind, pieces, seen)) == log.stream[from..to]
  }

  lemma SpanCons(headers: Headers, kind: Kind, log: Log, g: nat, piece: Piece, others: seq<Piece>, seen: int)
    requires WellFormed(log) && g + 1 < |log.starts|
    requires piece.rec.data == Gen(log, g) && piece.offset <= |piece.rec.data| && piece.rotated
    requires others != [] && forall p <- others :: p.offset <= |p.rec.data|
    requires Span(headers, kind, log, log.starts[g + 1], others, seen)
    ensures Span(headers, kind, log, log.starts[g] + piece.offset, [piece] + others, seen)
  {
    hide Gen, WellFormed, CutPieces, CutPiece, Reached, Concat;
    PieceInStream(headers, kind, log, g, piece, seen);
    CutPiecesCons(headers, kind, piece, others, seen);
    assert ([piece] + others)[|others|] == others[|others| - 1];
    Glue(log.stream, log.starts[g] + piece.offset, log.starts[g + 1],
         log.starts[|log.starts| - 1] + Reached(headers, kind, others[|others| - 1], seen));
  }

  lemma {:induction false} PiecesSpan(headers: Headers, kind: Kind, log: Log, first: nat, recs: seq<Rec>, offset: nat, seen: int)
    requires Shows(log, first, recs) && offset <= |recs[0].data|
    ensures Span(headers, kind, log, log.starts[first] + offset, PiecesFrom(recs, offset), seen)
    decreases |recs|
  {
    hide Reached, CutPiece, WellFormed, Gen;
    assert recs[0].data == Gen(log, first + 0);
    if |recs| == 1 {
      var piece := Piece(recs[0], offset, false);
      PieceInStream(headers, kind, log, first, piece, seen);
      OnePiece(headers, kind, piece, seen);
    } else {
      ShowsTail(log, first, recs);
      PiecesSpan(headers, kind, log, first + 1, recs[1..], 0, seen);
      hide Span;
      SpanCons(headers, kind, log, first, Piece(recs[0], offset, true), PiecesFrom(recs[1..], 0), seen);
    }
  }

  lemma LocateOffset(recs: seq<Rec>, cursor: Cursor, found: nat)
    requires Locate(recs, cursor) == Some(found)
    ensures found < |recs| && cursor.offset <= |recs[found].data|
  {
    hide FirstMatch;
  }

  lemma ReachedWithin(headers: Headers, kind: Kind, piece: Piece, seen: int)
    requires piece.offset <= |piece.rec.data|
    ensures piece.offset <= Reached(headers, kind, piece, seen) <= |piece.rec.data|
  {
    PieceSpan(headers, kind, piece, seen);
    hide CutPiece;
  }

  lemma WorkFound(headers: Headers, kind: Kind, recs: seq<Rec>, cursor: Cursor, found: nat)
    requires recs != [] && Locate(recs, cursor) == Some(found)
    ensures var pieces := PiecesFrom(recs[found..], cursor.offset);
            var live := pieces[|pieces| - 1];
            && Poll(headers, kind, Some(cursor), recs)
               == Polled(CutPieces(headers, kind, pieces, cursor.sizeSeen),
                         CursorAt(live.rec, Reached(headers, kind, live, cursor.sizeSeen)), false)
  {
    hide CutPieces, Reached, Locate;
    assert Work(recs, Some(cursor)) == PiecesFrom(recs[found..], cursor.offset);
  }

  /** A poll that resumes in generation `found` takes exactly the bytes from the
      cursor's offset in that generation to the new cursor. */
  lemma PolledSpan(headers: Headers, kind: Kind, log: Log, first: nat, recs: seq<Rec>, cursor: Cursor, found: nat)
    requires Shows(log, first, recs)
    requires Locate(recs, cursor) == Some(found)
    ensures var polled := Poll(headers, kind, Some(cursor), recs);
            var live := |log.starts| - 1;
            && !polled.gap
            && Tracks(log, polled.cursor, live)
            && log.starts[first + found] + cursor.offset <= Position(log, polled.cursor, live) <= |log.stream|
            && Concat(polled.records) == log.stream[log.starts[first + found] + cursor.offset..Position(log, polled.cursor, live)]
  {
    hide Poll, Locate, CutPieces, Reached, PiecesFrom, Concat;
    LocateOffset(recs, cursor, found);
    var left := recs[found..];
    assert left[0] == recs[found];
    ShowsFrom(log, first, recs, found);
    WorkFound(headers, kind, recs, cursor, found);
    PiecesSpan(headers, kind, log, first + found, left, cursor.offset, cursor.sizeSeen);
    assert recs[|recs| - 1].data == Gen(log, first + (|recs| - 1));
    var pieces := PiecesFrom(left, cursor.offset);
    var live := pieces[|pieces| - 1];
    var end := Reached(headers, kind, live, cursor.sizeSeen);
    ReachedWithin(headers, kind, live, cursor.sizeSeen);
    assert live.rec.data == Gen(log, |log.starts| - 1);
    assert |recs| + first == |log.starts|;
    hide PiecesFrom, Shows, Gen, WellFormed, Concat;
    assert Poll(headers, kind, Some(cursor), recs).cursor == CursorAt(live.rec, end);
  }

  /** Rotation loses and repeats nothing as long as the search finds the
      cursor's own generation. */
  lemma RotationExact(headers: Headers, kind: Kind, log: Log, first: nat, recs: seq<Rec>, cursor: Cursor, g: nat)
    requires Shows(log, first, recs) && Tracks(log, cursor, g) && first <= g
    requires Locate(recs, cursor) == Some(g - first)
    ensures var polled := Poll(headers, kind, Some(cursor), recs);
            var live := |log.starts| - 1;
            !polled.gap && Reads(Position(log, cursor, g), log, polled.cursor, live, polled.records)
  {
    hide Poll, Locate, Shows, Concat, Gen;
    PolledSpan(headers, kind, log, first, recs, cursor, g - first);
  }

  /** Exactly when one poll neither loses nor repeats a byte, wherever the cursor
      stands and whatever has been rotated away. If a file is recognised, it has to
      start where the cursor's own generation starts: a later one loses what lies
      between, an earlier one repeats it, and either way no gap is counted. If
      none is recognised, a gap is counted, and the live file has to start where
      the cursor stands. */
  lemma RotationExactIff(headers: Headers, kind: Kind, log: Log, first: nat, recs: seq<Rec>, cursor: Cursor, g: nat)
    requires Shows(log, first, recs) && Tracks(log, cursor, g)
    ensures var polled, live := Poll(headers, kind, Some(cursor), recs), |log.starts| - 1;
            var from, end := Position(log, cursor, g), Position(log, polled.cursor, live);
            var exact := Reads(from, log, polled.cursor, live, polled.records);
            && (polled.gap <==> forall t: nat :: !Recognised(recs, cursor, t))
            && (polled.gap ==> (exact <==> from == log.starts[live])
                               && |Concat(polled.records)| + log.starts[live] == end)
            && (forall t: nat | Recognised(recs, cursor, t) ::
                  && (exact <==> log.starts[first + t] == log.starts[g])
                  && |Concat(polled.records)| + from + log.starts[first + t] == end + log.starts[g])
  {
    hide *;
    Shown(log, first, recs, cursor, g);
    var polled := Poll(headers, kind, Some(cursor), recs);
    GapIff(headers, kind, recs, cursor);
    if Locate(recs, cursor).None? {
      PolledFresh(headers, kind, log, first, recs, cursor);
      SpanIff(log, Position(log, cursor, g), log.starts[|log.starts| - 1], polled);
      forall t: nat
        ensures !Recognised(recs, cursor, t)
      {
        LocateExactly(recs, cursor, t);
      }
    } else {
      var found := Locate(recs, cursor).value;
      LocateExactly(recs, cursor, found);
      PolledSpan(headers, kind, log, first, recs, cursor, found);
      SpanIff(log, Position(log, cursor, g), log.starts[first + found] + cursor.offset, polled);
      forall t: nat | Recognised(recs, cursor, t)
        ensures t == found
      {
        LocateExactly(recs, cursor, t);
      }
    }
  }

  lemma Shown(log: Log, first: nat, recs: seq<Rec>, cursor: Cursor, g: nat)
    requires Shows(log, first, recs) && Tracks(log, cursor, g)
    ensures WellFormed(log) && first + |recs| == |log.starts| && recs != [] && g < |log.starts|
    ensures Position(log, cursor, g) == log.starts[g] + cursor.offset
  {
  }

  lemma GapIff(headers: Headers, kind: Kind, recs: seq<Rec>, cursor: Cursor)
    requires recs != []
    ensures Poll(headers, kind, Some(cursor), recs).gap <==> Locate(recs, cursor).None?
    ensures Locate(recs, cursor).Some? ==> Locate(recs, cursor).value < |recs|
  {
    hide CutPieces, Work;
  }

  /** A poll that recognises no file takes the bytes from the start of the live
      one to the new cursor. */
  lemma PolledFresh(headers: Headers, kind: Kind, log: Log, first: nat, recs: seq<Rec>, cursor: Cursor)
    requires Shows(log, first, recs) && Locate(recs, cursor).None?
    ensures var polled := Poll(headers, kind, Some(cursor), recs);
            var live := |log.starts| - 1;
            && Tracks(log, polled.cursor, live)
            && log.starts[live] <= Position(log, polled.cursor, live) <= |log.stream|
            && Concat(polled.records) == log.stream[log.starts[live]..Position(log, polled.cursor, live)]
  {
    hide CutPieces, CutPiece, Reached, Locate, Concat, WellFormed;
    var piece, live := Piece(recs[|recs| - 1], 0, false), |log.starts| - 1;
    assert recs[|recs| - 1].data == Gen(log, first + (|recs| - 1));
    assert Work(recs, Some(cursor)) == [piece];
    OnePiece(headers, kind, piece, cursor.sizeSeen);
    hide Shows;
    PieceInStream(headers, kind, log, live, piece, cursor.sizeSeen);
    ReachedWithin(headers, kind, piece, cursor.sizeSeen);
  }

  /** What was read from one position is what a reader at another should have
      read only if the two are the same. */
  lemma SpanIff(log: Log, from: nat, start: nat, polled: Polled)
    requires log.starts != [] && Tracks(log, polled.cursor, |log.starts| - 1)
    requires var end := Position(log, polled.cursor, |log.starts| - 1);
             start <= end <= |log.stream| && Concat(polled.records) == log.stream[start..end]
    ensures var end := Position(log, polled.cursor, |log.starts| - 1);
            && (Reads(from, log, polled.cursor, |log.starts| - 1, polled.records) <==> from == start)
            && |Concat(polled.records)| + start == end
  {
    hide Gen, WellFormed, Concat;
    var end := Position(log, polled.cursor, |log.starts| - 1);
    assert |log.stream[start..end]| == end - start;
    if Reads(from, log, polled.cursor, |log.starts| - 1, polled.records) {
      assert |log.stream[from..end]| == end - from;
    }
  }

  // ------------------------------------------------------------- many polls

  lemma TracksExtends(earlier: Log, grown: Log, cursor: Cursor, g: nat)
    requires Tracks(earlier, cursor, g) && WellFormed(grown) && Extends(earlier, grown)
    ensures Tracks(grown, cursor, g)
    ensures Position(grown, cursor, g) == Position(earlier, cursor, g)
  {
    assert EndOfGen(earlier, g) <= EndOfGen(grown, g);
    assert Gen(earlier, g) <= Gen(grown, g);
    assert Gen(earlier, g)[..cursor.offset] == Gen(grown, g)[..cursor.offset];
  }

  /** What one poll sees of the log. */
  datatype View = View(log: Log, first: nat, recs: seq<Rec>)

  ghost function CursorAfter(headers: Headers, kind: Kind, cursor: Cursor, views: seq<View>): Cursor
    requires forall v <- views :: v.recs != []
  {
    if views == [] then cursor
    else
      var v := views[|views| - 1];
      Poll(headers, kind, Some(CursorAfter(headers, kind, cursor, views[..|views| - 1])), v.recs).cursor
  }

  ghost function RecordsOf(headers: Headers, kind: Kind, cursor: Cursor, views: seq<View>): seq<bytes>
    requires forall v <- views :: v.recs != []
  {
    if views == [] then []
    else
      var front, v := views[..|views| - 1], views[|views| - 1];
      RecordsOf(headers, kind, cursor, front)
      + Poll(headers, kind, Some(CursorAfter(headers, kind, cursor, front)), v.recs).records
  }

  ghost function GapsOf(headers: Headers, kind: Kind, cursor: Cursor, views: seq<View>): nat
    requires forall v <- views :: v.recs != []
  {
    if views == [] then 0
    else
      var front, v := views[..|views| - 1], views[|views| - 1];
      GapsOf(headers, kind, cursor, front)
      + if Poll(headers, kind, Some(CursorAfter(headers, kind, cursor, front)), v.recs).gap then 1 else 0
  }

  /** The generation the cursor is in before poll k: the one it starts in, then
      the live one of the previous poll. */
  ghost function GenBefore(g: nat, views: seq<View>, k: nat): int
    requires k <= |views|
  {
    if k == 0 then g else |views[k - 1].log.starts| - 1
  }

  /** Poll k: the log has only grown since the poll before, and the cursor's
      generation is still retained and recognised by identity and prefix. */
  ghost predicate FaithfulAt(headers: Headers, kind: Kind, start: Log, cursor: Cursor, g: nat, views: seq<View>, k: nat)
    requires k < |views| && forall v <- views :: v.recs != []
  {
    var v, own := views[k], GenBefore(g, views, k);
    && Shows(v.log, v.first, v.recs)
    && Extends(if k == 0 then start else views[k - 1].log, v.log)
    && Recognised(v.recs, CursorAfter(headers, kind, cursor, views[..k]), own - v.first)
  }

  ghost predicate Faithful(headers: Headers, kind: Kind, start: Log, cursor: Cursor, g: nat, views: seq<View>) {
    && Tracks(start, cursor, g)
    && (forall v <- views :: v.recs != [])
    && forall k | 0 <= k < |views| :: FaithfulAt(headers, kind, start, cursor, g, views, k)
  }

  lemma FaithfulFront(headers: Headers, kind: Kind, start: Log, cursor: Cursor, g: nat, views: seq<View>)
    requires Faithful(headers, kind, start, cursor, g, views) && views != []
    ensures Faithful(headers, kind, start, cursor, g, views[..|views| - 1])
  {
    hide CursorAfter, Shows, Extends, Recognised, Tracks;
    var front := views[..|views| - 1];
    forall k | 0 <= k < |front|
      ensures FaithfulAt(headers, kind, start, cursor, g, front, k)
    {
      assert FaithfulAt(headers, kind, start, cursor, g, views, k);
      assert front[..k] == views[..k];
    }
  }

  /** The records are the stream from `start` to the cursor. */
  ghost predicate Reads(start: nat, log: Log, cursor: Cursor, g: int, records: seq<bytes>) {
    && 0 <= g && Tracks(log, cursor, g)
    && start <= Position(log, cursor, g) <= |log.stream|
    && Concat(records) == log.stream[start..Position(log, cursor, g)]
  }

  lemma ReadOn(start: nat, before: Log, here: Cursor, own: int, records: seq<bytes>, log: Log, cursor: Cursor, g: int, more: seq<bytes>)
    requires Reads(start, before, here, own, records)
    requires Reads(Position(before, here, own), log, cursor, g, more)
    requires before.stream <= log.stream
    ensures Reads(start, log, cursor, g, records + more)
  {
    hide Gen, WellFormed;
    ConcatAppend(records, more);
    var a, b := start, Position(before, here, own);
    assert before.stream[a..b] == log.stream[a..b];
    Glue(log.stream, a, b, Position(log, cursor, g));
  }

  ghost function LastLog(start: Log, views: seq<View>): Log {
    if views == [] then start else views[|views| - 1].log
  }

  /** The records of a run are the stream from its first cursor to its last. */
  ghost predicate RunExact(headers: Headers, kind: Kind, start: Log, cursor: Cursor, g: nat, views: seq<View>)
    requires g < |start.starts| && forall v <- views :: v.recs != []
  {
    && Reads(Position(start, cursor, g), LastLog(start, views), CursorAfter(headers, kind, cursor, views),
             GenBefore(g, views, |views|), RecordsOf(headers, kind, cursor, views))
    && GapsOf(headers, kind, cursor, views) == 0
  }

  lemma RunNil(headers: Headers, kind: Kind, start: Log, cursor: Cursor, g: nat)
    requires Tracks(start, cursor, g)
    ensures RunExact(headers, kind, start, cursor, g, [])
  {
    GenBounds(start, g);
    assert start.stream[Position(start, cursor, g)..Position(start, cursor, g)] == [];
  }

  lemma RunSnoc(headers: Headers, kind: Kind, start: Log, cursor: Cursor, g: nat, front: seq<View>, v: View)
    requires g < |start.starts| && v.recs != [] && forall v <- front :: v.recs != []
    requires RunExact(headers, kind, start, cursor, g, front)
    requires var here, own := CursorAfter(headers, kind, cursor, front), GenBefore(g, front, |front|);
             && Shows(v.log, v.first, v.recs) && Extends(LastLog(start, front), v.log)
             && Recognised(v.recs, here, own - v.first)
    ensures RunExact(headers, kind, start, cursor, g, front + [v])
  {
    hide *;
    var before := LastLog(start, front);
    var here, own := CursorAfter(headers, kind, cursor, front), GenBefore(g, front, |front|);
    ExactReads(headers, kind, start, cursor, g, front);
    ReadsTracks(Position(start, cursor, g), before, here, own, RecordsOf(headers, kind, cursor, front));
    RotationStep(headers, kind, before, here, own, v);
    var polled := Poll(headers, kind, Some(here), v.recs);
    ReadOn(Position(start, cursor, g), before, here, own, RecordsOf(headers, kind, cursor, front),
           v.log, polled.cursor, |v.log.starts| - 1, polled.records);
    SnocPolls(headers, kind, start, cursor, g, front, v);
    ExactReads(headers, kind, start, cursor, g, front + [v]);
  }

  lemma ExactReads(headers: Headers, kind: Kind, start: Log, cursor: Cursor, g: nat, views: seq<View>)
    requires g < |start.starts| && forall v <- views :: v.recs != []
    ensures RunExact(headers, kind, start, cursor, g, views) <==>
              && Reads(Position(start, cursor, g), LastLog(start, views), CursorAfter(headers, kind, cursor, views),
                       GenBefore(g, views, |views|), RecordsOf(headers, kind, cursor, views))
              && GapsOf(headers, kind, cursor, views) == 0
  {
    hide Reads, CursorAfter, RecordsOf, GapsOf;
  }

  lemma ReadsTracks(start: nat, log: Log, cursor: Cursor, g: int, records: seq<bytes>)
    requires Reads(start, log, cursor, g, records)
    ensures 0 <= g && Tracks(log, cursor, g)
  {
    hide Tracks;
  }

  /** What one more view adds to a run. */
  lemma SnocPolls(headers: Headers, kind: Kind, start: Log, cursor: Cursor, g: nat, front: seq<View>, v: View)
    requires v.recs != [] && forall v <- front :: v.recs != []
    ensures var views, polled := front + [v], Poll(headers, kind, Some(CursorAfter(headers, kind, cursor, front)), v.recs);
            && (forall v <- views :: v.recs != [])
            && CursorAfter(headers, kind, cursor, views) == polled.cursor
            && RecordsOf(headers, kind, cursor, views) == RecordsOf(headers, kind, cursor, front) + polled.records
            && GapsOf(headers, kind, cursor, views) == GapsOf(headers, kind, cursor, front) + (if polled.gap then 1 else 0)
            && LastLog(start, views) == v.log && GenBefore(g, views, |views|) == |v.log.starts| - 1
  {
    hide Poll;
    assert (front + [v])[..|front|] == front;
  }

  /** Over any number of polls and any rotations between them, the records cut
      are together exactly the stream from the first cursor to the last, and no
      gap is counted. */
  lemma {:induction false} RotationRun(headers: Headers, kind: Kind, start: Log, cursor: Cursor, g: nat, views: seq<View>)
    requires Faithful(headers, kind, start, cursor, g, views)
    ensures RunExact(headers, kind, start, cursor, g, views)
  {
    hide *;
    FaithfulBasics(headers, kind, start, cursor, g, views);
    if views == [] {
      RunNil(headers, kind, start, cursor, g);
    } else {
      var front, v := views[..|views| - 1], views[|views| - 1];
      FaithfulFront(headers, kind, start, cursor, g, views);
      RotationRun(headers, kind, start, cursor, g, front);
      LastView(headers, kind, start, cursor, g, views, LastLog(start, front));
      RunSnoc(headers, kind, start, cursor, g, front, v);
      assert views == front + [v];
    }
  }

  lemma FaithfulBasics(headers: Headers, kind: Kind, start: Log, cursor: Cursor, g: nat, views: seq<View>)
    requires Faithful(headers, kind, start, cursor, g, views)
    ensures Tracks(start, cursor, g) && g < |start.starts| && forall v <- views :: v.recs != []
  {
  }

  lemma LastView(headers: Headers, kind: Kind, start: Log, cursor: Cursor, g: nat, views: seq<View>, before: Log)
    requires Faithful(headers, kind, start, cursor, g, views) && views != []
    requires before == LastLog(start, views[..|views| - 1])
    ensures var front, v := views[..|views| - 1], views[|views| - 1];
            var own, here := GenBefore(g, front, |front|), CursorAfter(headers, kind, cursor, front);
            && Shows(v.log, v.first, v.recs) && Extends(before, v.log)
            && Recognised(v.recs, here, own - v.first)
  {
    hide CursorAfter, Shows, Extends, Recognised, Tracks, GenBefore;
    var k := |views| - 1;
    assert FaithfulAt(headers, kind, start, cursor, g, views, k);
    GenFront(g, views);
  }

  lemma GenFront(g: nat, views: seq<View>)
    requires views != []
    ensures GenBefore(g, views[..|views| - 1], |views| - 1) == GenBefore(g, views, |views| - 1)
  {
  }

  /** One poll of a run: the cursor moves on to the live file, and the records
      are the stream between its two positions. */
  lemma RotationStep(headers: Headers, kind: Kind, before: Log, cursor: Cursor, own: nat, v: View)
    requires Tracks(before, cursor, own) && Shows(v.log, v.first, v.recs) && Extends(before, v.log)
    requires Recognised(v.recs, cursor, own - v.first)
    ensures var polled := Poll(headers, kind, Some(cursor), v.recs);
            && !polled.gap
            && before.stream <= v.log.stream
            && Reads(Position(before, cursor, own), v.log, polled.cursor, |v.log.starts| - 1, polled.records)
  {
    hide Poll, Locate;
    TracksExtends(before, v.log, cursor, own);
    LocateExactly(v.recs, cursor, own - v.first);
    RotationExact(headers, kind, v.log, v.first, v.recs, cursor, own);
  }

  // ------------------------------------------------------ where it is false

  /** copytruncate while the cursor stands at offset 0, say before an unfinished
      first line: the truncated live file keeps its identity, so it is found
      instead of the saved copy. The bytes of the copy, which come next in the
      stream, are skipped without a gap being counted, and the new cursor lies
      behind them. */
  lemma CopyTruncateLosesAtZero(headers: Headers, kind: Kind, log: Log, first: nat, cursor: Cursor, saved: Rec, live: Rec)
    requires Shows(log, first, [saved, live]) && Tracks(log, cursor, first)
    requires cursor.offset == 0 && saved.data != []
    requires SameFile(live, cursor) && !SameFile(saved, cursor)
    ensures var polled := Poll(headers, kind, Some(cursor), [saved, live]);
            var from, end := Position(log, cursor, first), Position(log, polled.cursor, first + 1);
            && !polled.gap
            && from < from + |saved.data| <= end <= |log.stream|
            && log.stream[from..from + |saved.data|] == saved.data
            && Concat(polled.records) == log.stream[from + |saved.data|..end]
  {
    hide Poll, Locate, Concat, Shows, Tracks, Gen, WellFormed, SameFile;
    var recs := [saved, live];
    ZeroPrefix(log, cursor, first);
    FoundInstead(cursor, saved, live);
    PolledSpan(headers, kind, log, first, recs, cursor, 1);
    SavedInStream(log, first, saved, live);
  }

  lemma FoundInstead(cursor: Cursor, saved: Rec, live: Rec)
    requires cursor.offset == 0 && cursor.sha256 == Sha256([])
    requires SameFile(live, cursor) && !SameFile(saved, cursor)
    ensures Locate([saved, live], cursor) == Some(1)
  {
    LocateAtZero([saved, live], cursor, 1);
    hide Locate;
  }

  lemma SavedInStream(log: Log, first: nat, saved: Rec, live: Rec)
    requires Shows(log, first, [saved, live])
    ensures first + 2 == |log.starts| && log.starts[first] + |saved.data| == log.starts[first + 1] <= |log.stream|
    ensures log.stream[log.starts[first]..log.starts[first + 1]] == saved.data
  {
    assert [saved, live][0].data == Gen(log, first);
  }

  lemma ZeroPrefix(log: Log, cursor: Cursor, g: nat)
    requires Tracks(log, cursor, g) && cursor.offset == 0
    ensures cursor.sha256 == Sha256([])
  {
    assert Gen(log, g)[..0] == [];
  }

  /** The cursor's generation is rotated away altogether while the cursor stands
      at its start: some file is recognised all the same, so no gap is counted,
      and whatever was written between the two starts is in no record. */
  lemma DroppedLosesAtZero(headers: Headers, kind: Kind, log: Log, first: nat, recs: seq<Rec>, cursor: Cursor, g: nat)
    requires Shows(log, first, recs) && Tracks(log, cursor, g)
    requires g < first && cursor.offset == 0
    ensures var polled := Poll(headers, kind, Some(cursor), recs);
            var from, kept, end := Position(log, cursor, g), log.starts[first], Position(log, polled.cursor, |log.starts| - 1);
            && !polled.gap
            && from <= kept <= end <= |log.stream|
            && |Concat(polled.records)| <= end - kept
            && Concat(polled.records) == log.stream[end - |Concat(polled.records)|..end]
            && (from < kept ==> !Reads(from, log, polled.cursor, |log.starts| - 1, polled.records))
  {
    hide *;
    ZeroPrefix(log, cursor, g);
    Shown(log, first, recs, cursor, g);
    var found := SomeAtZero(recs, cursor);
    PolledSpan(headers, kind, log, first, recs, cursor, found);
    StartsAscend(log, g, first, first + found);
    var polled := Poll(headers, kind, Some(cursor), recs);
    SpanIff(log, Position(log, cursor, g), log.starts[first + found] + cursor.offset, polled);
  }

  lemma SomeAtZero(recs: seq<Rec>, cursor: Cursor) returns (found: nat)
    requires recs != [] && cursor.offset == 0 && cursor.sha256 == Sha256([])
    ensures found < |recs| && Locate(recs, cursor) == Some(found)
  {
    assert recs[0].data[..0] == [];
    assert Matches(recs[0], cursor, false);
    found := Locate(recs, cursor).value;
  }

  lemma StartsAscend(log: Log, a: nat, b: nat, c: nat)
    requires WellFormed(log) && a <= b <= c < |log.starts|
    ensures log.starts[a] <= log.starts[b] <= log.starts[c]
  {
  }

  /** With the identity gone as well, the oldest file is read from its start,
      although the cursor stands behind it: its bytes come before the cursor in
      the stream, and the records begin with them once more. */
  lemma NewInodesRepeatAtZero(headers: Headers, kind: Kind, log: Log, first: nat, cursor: Cursor, consumed: Rec, live: Rec)
    requires Shows(log, first, [consumed, live]) && Tracks(log, cursor, first + 1)
    requires cursor.offset == 0
    requires !SameFile(live, cursor) && !SameFile(consumed, cursor)
    ensures var polled := Poll(headers, kind, Some(cursor), [consumed, live]);
            var here, end := Position(log, cursor, first + 1), Position(log, polled.cursor, first + 1);
            && !polled.gap
            && |consumed.data| <= here <= end <= |log.stream|
            && log.stream[here - |consumed.data|..here] == consumed.data
            && Concat(polled.records) == log.stream[here - |consumed.data|..end]
  {
    hide Poll, Locate, Concat, Shows, Tracks, Gen, WellFormed, SameFile;
    ZeroPrefix(log, cursor, first + 1);
    LocateAtZero([consumed, live], cursor, 0);
    PolledSpan(headers, kind, log, first, [consumed, live], cursor, 0);
    SavedInStream(log, first, consumed, live);
  }

  // ------------------------------------------------------------- quiescence

  /** The cursor a poll leaves points into the live file, at its prefix. */
  lemma PolledCursor(headers: Headers, kind: Kind, previous: Option<Cursor>, recs: seq<Rec>)
    requires recs != []
    ensures var cursor, live := Poll(headers, kind, previous, recs).cursor, recs[|recs| - 1];
            cursor.offset <= |live.data| && cursor == CursorAt(live, cursor.offset)
  {
    var pieces, seen := Work(recs, previous), SeenSize(previous);
    hide Work, CutPieces, Reached;
    ReachedWithin(headers, kind, pieces[|pieces| - 1], seen);
  }

  /** At most one complete line is left behind it, and that is a header. */
  lemma PolledRest(headers: Headers, kind: Kind, previous: Option<Cursor>, recs: seq<Rec>)
    requires recs != []
    ensures var cursor, live := Poll(headers, kind, previous, recs).cursor, recs[|recs| - 1];
            && cursor.offset <= |live.data|
            && |Lines(live.data[cursor.offset..], false)| <= (if Grouped(kind) then 1 else 0)
            && (forall line <- Lines(live.data[cursor.offset..], false) :: Header(headers, kind, line))
  {
    hide *;
    var piece := PolledPiece(headers, kind, previous, recs);
    ReachedRest(headers, kind, piece, SeenSize(previous));
  }

  /** The live file is cut last. */
  lemma PolledPiece(headers: Headers, kind: Kind, previous: Option<Cursor>, recs: seq<Rec>) returns (piece: Piece)
    requires recs != []
    ensures piece.rec == recs[|recs| - 1] && piece.offset <= |piece.rec.data| && !piece.rotated
    ensures Poll(headers, kind, previous, recs).cursor.offset == Reached(headers, kind, piece, SeenSize(previous))
  {
    var pieces := Work(recs, previous);
    piece := pieces[|pieces| - 1];
    hide Work, CutPieces, Reached;
  }

  lemma ReachedRest(headers: Headers, kind: Kind, piece: Piece, seen: int)
    requires piece.offset <= |piece.rec.data| && !piece.rotated
    ensures var end := Reached(headers, kind, piece, seen);
            && end <= |piece.rec.data|
            && |Lines(piece.rec.data[end..], false)| <= (if Grouped(kind) then 1 else 0)
            && forall line <- Lines(piece.rec.data[end..], false) :: Header(headers, kind, line)
  {
    hide *;
    ReachedIs(headers, kind, piece, seen);
    CutTiles(headers, kind, piece.rec.data, piece.offset, seen == |piece.rec.data|, piece.rotated);
  }

  lemma ReachedIs(headers: Headers, kind: Kind, piece: Piece, seen: int)
    requires piece.offset <= |piece.rec.data|
    ensures Reached(headers, kind, piece, seen)
         == piece.offset + |Concat(Cut(headers, kind, piece.rec.data, piece.offset, seen == |piece.rec.data|, piece.rotated))|
  {
    hide Concat, Cut;
  }

  /** Polling again over the same files, none of the older ones having the live
      file's identity, takes at most the one header the first poll held back. */
  lemma PollAgain(headers: Headers, kind: Kind, previous: Option<Cursor>, recs: seq<Rec>)
    requires recs != []
    requires var live := recs[|recs| - 1];
             forall i | 0 <= i < |recs| - 1 :: !(recs[i].dev == live.dev && recs[i].inode == live.inode)
    ensures var once := Poll(headers, kind, previous, recs);
            var twice := Poll(headers, kind, Some(once.cursor), recs);
            && !twice.gap
            && |twice.records| <= (if Grouped(kind) then 1 else 0)
            && (forall r <- twice.records :: Header(headers, kind, r))
            && twice.records == Lines(recs[|recs| - 1].data[once.cursor.offset..], false)
            && Lines(recs[|recs| - 1].data[twice.cursor.offset..], false) == []
  {
    hide Poll, Locate, Lines, Header, CursorAt;
    var cursor, live := Poll(headers, kind, previous, recs).cursor, recs[|recs| - 1];
    PolledCursor(headers, kind, previous, recs);
    PolledRest(headers, kind, previous, recs);
    CursorFile(live, cursor.offset);
    LocateExactly(recs, cursor, |recs| - 1);
    QuietPoll(headers, kind, cursor, recs);
  }

  lemma FewLines(headers: Headers, kind: Kind, lines: seq<bytes>)
    requires |lines| <= 1
    ensures GroupLines(headers, kind, lines) == lines
  {
    if lines != [] {
      assert lines[..0] == [];
    }
  }

  lemma QuietCut(headers: Headers, kind: Kind, piece: Piece)
    requires piece.offset <= |piece.rec.data| && !piece.rotated
    requires |Lines(piece.rec.data[piece.offset..], false)| <= 1
    ensures CutPiece(headers, kind, piece, |piece.rec.data|) == Lines(piece.rec.data[piece.offset..], false)
  {
    hide Lines, GroupLines;
    FewLines(headers, kind, Lines(piece.rec.data[piece.offset..], false));
  }

  lemma QuietRest(headers: Headers, kind: Kind, piece: Piece)
    requires piece.offset <= |piece.rec.data| && !piece.rotated
    ensures Lines(piece.rec.data[Reached(headers, kind, piece, |piece.rec.data|)..], false) == []
  {
    hide *;
    ReachedIs(headers, kind, piece, |piece.rec.data|);
    CutTiles(headers, kind, piece.rec.data, piece.offset, true, false);
  }

  /** A poll that resumes in a live file that has not grown takes all its
      complete lines. */
  lemma QuietPoll(headers: Headers, kind: Kind, cursor: Cursor, recs: seq<Rec>)
    requires recs != [] && Locate(recs, cursor) == Some(|recs| - 1)
    requires cursor.sizeSeen == |recs[|recs| - 1].data|
    requires cursor.offset <= |recs[|recs| - 1].data|
    requires |Lines(recs[|recs| - 1].data[cursor.offset..], false)| <= 1
    ensures var polled, data := Poll(headers, kind, Some(cursor), recs), recs[|recs| - 1].data;
            && !polled.gap
            && polled.records == Lines(data[cursor.offset..], false)
            && polled.cursor.offset <= |data|
            && Lines(data[polled.cursor.offset..], false) == []
  {
    WorkFound(headers, kind, recs, cursor, |recs| - 1);
    hide Poll, Locate, CutPiece, CutPieces, Reached, Lines;
    var live := recs[|recs| - 1];
    var piece := Piece(live, cursor.offset, false);
    assert recs[|recs| - 1..] == [live];
    assert PiecesFrom([live], cursor.offset) == [piece];
    OnePiece(headers, kind, piece, cursor.sizeSeen);
    QuietCut(headers, kind, piece);
    QuietRest(headers, kind, piece);
  }

  /** And a third poll takes nothing and leaves the cursor where it was. */
  lemma Quiescent(headers: Headers, kind: Kind, previous: Option<Cursor>, recs: seq<Rec>)
    requires recs != []
    requires var live := recs[|recs| - 1];
             forall i | 0 <= i < |recs| - 1 :: !(recs[i].dev == live.dev && recs[i].inode == live.inode)
    ensures var once := Poll(headers, kind, previous, recs);
            var twice := Poll(headers, kind, Some(once.cursor), recs);
            Poll(headers, kind, Some(twice.cursor), recs) == Polled([], twice.cursor, false)
  {
    hide Poll, Locate, Lines, Header, CursorAt;
    var once := Poll(headers, kind, previous, recs);
    var twice := Poll(headers, kind, Some(once.cursor), recs);
    PollAgain(headers, kind, previous, recs);
    PolledCursor(headers, kind, Some(once.cursor), recs);
    CursorFile(recs[|recs| - 1], twice.cursor.offset);
    LocateExactly(recs, twice.cursor, |recs| - 1);
    QuietPoll(headers, kind, twice.cursor, recs);
    NothingNew(headers, kind, twice.cursor, recs);
  }

  lemma CursorFile(rec: Rec, end: nat)
    requires end <= |rec.data|
    ensures var cursor := CursorAt(rec, end);
            && cursor.dev == rec.dev && cursor.inode == rec.inode && cursor.offset == end && cursor.sizeSeen == |rec.data|
            && MatchesPrefix(rec, cursor)
  {
  }

  lemma NothingNew(headers: Headers, kind: Kind, cursor: Cursor, recs: seq<Rec>)
    requires recs != [] && Locate(recs, cursor) == Some(|recs| - 1)
    requires var live := recs[|recs| - 1];
             && cursor.offset <= |live.data|
             && Lines(live.data[cursor.offset..], false) == []
             && cursor == CursorAt(live, cursor.offset)
    ensures Poll(headers, kind, Some(cursor), recs).cursor == cursor
  {
    WorkFound(headers, kind, recs, cursor, |recs| - 1);
    hide Poll, Locate;
    var piece := Piece(recs[|recs| - 1], cursor.offset, false);
    assert recs[|recs| - 1..] == [recs[|recs| - 1]];
    assert PiecesFrom([recs[|recs| - 1]], cursor.offset) == [piece];
    assert CutPiece(headers, kind, piece, cursor.sizeSeen) == [];
  }
}
