/** Turning a snapshot into a durable outbox. */
module Prepare {
  import opened Basics
  import opened Sources
  import opened Json
  import opened Records
  import opened States
  import opened Rendering
  import opened Rotation
  import Decimal

  const BATCH_BUDGET := 128 * 1024
  const BATCH_START := 32
  const BOOTSTRAP_RECORDS := 50

  /** One record to classify and perhaps send. */
  datatype Task = Task(kind: Kind, raw: bytes, bootstrap: bool)

  /** The variables prepare updates while it goes through the records. */
  datatype Acc = Acc(
    lastNs: nat, sent: nat, normal: map<NormalKey, nat>,
    batches: seq<Batch>, batch: Batch, batchSize: nat)

  // ---------------------------------------------------------------- tasks

  function Previous(state: State, kind: Kind): Option<Cursor> {
    if kind in state.cursors then Some(state.cursors[kind]) else None
  }

  /** The first poll of a kind sends only its last records. */
  function Capped(records: seq<bytes>, bootstrap: bool): seq<bytes> {
    if bootstrap && |records| > BOOTSTRAP_RECORDS then records[|records| - BOOTSTRAP_RECORDS..] else records
  }

  function AsTasks(kind: Kind, records: seq<bytes>, bootstrap: bool): (tasks: seq<Task>)
    ensures |tasks| == |records|
  {
    seq(|records|, i requires 0 <= i < |records| => Task(kind, records[i], bootstrap))
  }

  function PollKind(rules: Rules, state: State, snapshot: Snapshot, kind: Kind): Polled
    requires KindOk(snapshot, kind)
  {
    Poll(rules.headers, kind, Previous(state, kind), Chronological(snapshot, kind))
  }

  function KindTasks(rules: Rules, state: State, snapshot: Snapshot, kind: Kind): seq<Task>
    requires KindOk(snapshot, kind)
  {
    var bootstrap := Previous(state, kind).None?;
    AsTasks(kind, Capped(PollKind(rules, state, snapshot, kind).records, bootstrap), bootstrap)
  }

  function Tasks(rules: Rules, state: State, snapshot: Snapshot, kinds: seq<Kind>): seq<Task>
    requires forall kind <- kinds :: KindOk(snapshot, kind)
  {
    if kinds == [] then []
    else
      Tasks(rules, state, snapshot, kinds[..|kinds| - 1]) + KindTasks(rules, state, snapshot, kinds[|kinds| - 1])
  }

  function Cursors(rules: Rules, state: State, snapshot: Snapshot, kinds: seq<Kind>): map<Kind, Cursor>
    requires forall kind <- kinds :: KindOk(snapshot, kind)
  {
    if kinds == [] then state.cursors
    else
      var kind := kinds[|kinds| - 1];
      Cursors(rules, state, snapshot, kinds[..|kinds| - 1])[kind := PollKind(rules, state, snapshot, kind).cursor]
  }

  function Gaps(rules: Rules, state: State, snapshot: Snapshot, kinds: seq<Kind>): nat
    requires forall kind <- kinds :: KindOk(snapshot, kind)
  {
    if kinds == [] then state.gaps
    else
      Gaps(rules, state, snapshot, kinds[..|kinds| - 1])
      + if PollKind(rules, state, snapshot, kinds[|kinds| - 1]).gap then 1 else 0
  }

  // ------------------------------------------------------------- emission

  /** The name of the normal pattern a record matches, if filtering is on. */
  function NormalName(rules: Rules, filter: bool, task: Task): Option<string> {
    var text := Message(rules, task.raw);
    var level := if task.kind == Kernel then rules.severity(task.kind, text) else Unknown;
    if !filter then None
    else
      var name := rules.normal(task.kind, text, level);
      if name.Some? && name.value != "" then name else None
  }

  function Count(normal: map<NormalKey, nat>, key: NormalKey): nat {
    if key in normal then normal[key] else 0
  }

  function StreamSize(stream: Stream): nat {
    Dumped(StreamJson(stream), DEFAULT) + 2
  }

  /** Append a stream to the open batch, closing it first when it would overflow. */
  function Push(acc: Acc, stream: Stream): Acc {
    var size := StreamSize(stream);
    var full := acc.batchSize + size > BATCH_BUDGET;
    acc.(batches := if full then acc.batches + [acc.batch] else acc.batches,
         batch := (if full then [] else acc.batch) + [stream],
         batchSize := (if full then BATCH_START else acc.batchSize) + size,
         sent := acc.sent + 1)
  }

  function NextNs(now: int, last: nat): nat {
    Max(now, last + 1)
  }

  function Emit(rules: Rules, filter: bool, now: int, acc: Acc, task: Task): Outcome<Acc> {
    match NormalName(rules, filter, task)
    case Some(name) =>
      var key := NormalKey(task.kind, name);
      Returned(acc.(normal := acc.normal[key := Count(acc.normal, key) + 1]))
    case None =>
      var ns := NextNs(now, acc.lastNs);
      match Render(rules, task.kind, task.raw, task.bootstrap, ns)
      case Returned((level, line)) => Returned(Push(acc.(lastNs := ns), Stream(task.kind, level, ns, line)))
      case Raised => Raised
      case Diverged => Diverged
  }

  function EmitAll(rules: Rules, filter: bool, now: int, acc: Acc, tasks: seq<Task>): Outcome<Acc> {
    if tasks == [] then Returned(acc)
    else
      match EmitAll(rules, filter, now, acc, tasks[..|tasks| - 1])
      case Returned(before) => Emit(rules, filter, now, before, tasks[|tasks| - 1])
      case Raised => Raised
      case Diverged => Diverged
  }

  function Start(state: State): Acc {
    Acc(state.lastNs, state.sent, state.normal, [], [], BATCH_START)
  }

  /** All batches, the open one included unless it is empty. */
  function Closed(acc: Acc): seq<Batch> {
    if acc.batch == [] then acc.batches else acc.batches + [acc.batch]
  }

  function NextState(rules: Rules, state: State, snapshot: Snapshot, now: int, acc: Acc): State
    requires SnapshotOk(snapshot)
  {
    State(Cursors(rules, state, snapshot, KINDS), acc.lastNs, now as real / 1000000000.0, acc.sent,
          Gaps(rules, state, snapshot, KINDS), acc.normal, None)
  }

  function Finish(rules: Rules, state: State, batches: seq<Batch>, next: State): Outcome<State> {
    var out := state.(pending := Some(Outbox(batches, next)));
    if |batches| > MAX_BATCHES || !Valid(out) || Dumped(StateJson(rules, out), DEFAULT) > MAX_STATE then Raised else Returned(out)
  }

  /** prepare: the state with an outbox, or the failure. */
  function Prepared(rules: Rules, filter: bool, state: State, snapshot: Snapshot, now: int): (r: Outcome<State>)
    requires SnapshotOk(snapshot)
    ensures r.Returned? ==> r.value.pending.Some?
  {
    if !Valid(state) then Raised
    else if state.pending.Some? then Returned(state)
    else
      match EmitAll(rules, filter, now, Start(state), Tasks(rules, state, snapshot, KINDS))
      case Returned(acc) => Finish(rules, state, Closed(acc), NextState(rules, state, snapshot, now, acc))
      case Raised => Raised
      case Diverged => Diverged
  }

  // --------------------------------------------------------------- method

  lemma EmitSnoc(rules: Rules, filter: bool, now: int, acc: Acc, tasks: seq<Task>, task: Task)
    ensures EmitAll(rules, filter, now, acc, tasks + [task])
         == match EmitAll(rules, filter, now, acc, tasks)
            case Returned(before) => Emit(rules, filter, now, before, task)
            case Raised => Raised
            case Diverged => Diverged
  {
    assert (tasks + [task])[..|tasks|] == tasks;
  }

  /** Once a record fails, the rest is never reached. */
  lemma {:induction false} EmitFails(rules: Rules, filter: bool, now: int, acc: Acc, tasks: seq<Task>, more: seq<Task>)
    requires !EmitAll(rules, filter, now, acc, tasks).Returned?
    ensures EmitAll(rules, filter, now, acc, tasks + more) == EmitAll(rules, filter, now, acc, tasks)
  {
    hide EmitAll;
    if more == [] {
      assert tasks + more == tasks;
    } else {
      var front := more[..|more| - 1];
      EmitFails(rules, filter, now, acc, tasks, front);
      EmitSnoc(rules, filter, now, acc, tasks + front, more[|more| - 1]);
      assert tasks + more == tasks + front + [more[|more| - 1]];
    }
  }

  /** The body of the loop over the records of one kind. */
  method EmitTask(rules: Rules, filter: bool, now: int, acc: Acc, kind: Kind, raw: bytes, bootstrap: bool)
    returns (r: Outcome<Acc>)
    ensures r == Emit(rules, filter, now, acc, Task(kind, raw, bootstrap))
  {
    hide Message, Render, Dumped, StreamJson;
    var text := Message(rules, raw);
    var level := if kind == Kernel then rules.severity(kind, text) else Unknown;
    var name := if filter then rules.normal(kind, text, level) else None;
    if name.Some? && name.value != "" {
      var key := NormalKey(kind, name.value);
      return Returned(acc.(normal := acc.normal[key := Count(acc.normal, key) + 1]));
    }
    var lastNs: nat := Max(now, acc.lastNs + 1);
    var rendered := RenderEntry(rules, kind, raw, bootstrap, lastNs);
    match rendered
    case Raised =>
      return Raised;
    case Diverged =>
      return Diverged;
    case Returned((severity, line)) =>
      var stream := Stream(kind, severity, lastNs, line);
      var batches, batch, batchSize := acc.batches, acc.batch, acc.batchSize;
      var size := Dumped(StreamJson(stream), DEFAULT) + 2;
      if batchSize + size > BATCH_BUDGET {
        batches := batches + [batch];
        batch, batchSize := [], BATCH_START;
      }
      batch := batch + [stream];
      batchSize := batchSize + size;
      return Returned(Acc(lastNs, acc.sent + 1, acc.normal, batches, batch, batchSize));
  }

  function Raws(records: seq<Line>): (raws: seq<bytes>)
    ensures |raws| == |records|
  {
    seq(|records|, i requires 0 <= i < |records| => records[i].raw)
  }

  /** The loop over the records of one file. */
  method EmitRecords(rules: Rules, filter: bool, now: int, start: Acc, kind: Kind, records: seq<Line>, bootstrap: bool)
    returns (r: Outcome<Acc>)
    ensures r == EmitAll(rules, filter, now, start, AsTasks(kind, Raws(records), bootstrap))
  {
    hide EmitAll, Emit;
    ghost var tasks := AsTasks(kind, Raws(records), bootstrap);
    r := Returned(start);
    EmitNone(rules, filter, now, start);
    for i := 0 to |records|
      invariant r.Returned? && r == EmitAll(rules, filter, now, start, tasks[..i])
    {
      EmitSnoc(rules, filter, now, start, tasks[..i], tasks[i]);
      assert tasks[..i + 1] == tasks[..i] + [tasks[i]];
      r := EmitTask(rules, filter, now, r.value, kind, records[i].raw, bootstrap);
      if !r.Returned? {
        EmitFails(rules, filter, now, start, tasks[..i + 1], tasks[i + 1..]);
        assert tasks[..i + 1] + tasks[i + 1..] == tasks;
        return;
      }
    }
    assert tasks[..|records|] == tasks;
  }

  lemma AsTasksAppend(kind: Kind, a: seq<bytes>, b: seq<bytes>, bootstrap: bool)
    ensures AsTasks(kind, a + b, bootstrap) == AsTasks(kind, a, bootstrap) + AsTasks(kind, b, bootstrap)
  {
  }

  lemma {:induction false} CutPiecesSnoc(headers: Headers, kind: Kind, pieces: seq<Piece>, piece: Piece, seen: int)
    requires piece.offset <= |piece.rec.data| && forall p <- pieces :: p.offset <= |p.rec.data|
    ensures CutPieces(headers, kind, pieces + [piece], seen)
         == CutPieces(headers, kind, pieces, seen) + CutPiece(headers, kind, piece, seen)
  {
    hide CutPiece;
    if pieces == [] {
      assert pieces + [piece] == [piece];
      OnePiece(headers, kind, piece, seen);
    } else {
      assert (pieces + [piece])[1..] == pieces[1..] + [piece];
      CutPiecesSnoc(headers, kind, pieces[1..], piece, seen);
    }
  }

  /** What the first i files contribute; only the first poll of a kind is capped. */
  ghost function TakenFrom(headers: Headers, kind: Kind, pieces: seq<Piece>, seen: int, bootstrap: bool, i: nat): seq<bytes>
    requires i <= |pieces| && forall p <- pieces :: p.offset <= |p.rec.data|
  {
    if i == 0 then []
    else TakenFrom(headers, kind, pieces, seen, bootstrap, i - 1) + Capped(CutPiece(headers, kind, pieces[i - 1], seen), bootstrap)
  }

  lemma {:induction false} TakenPrefix(headers: Headers, kind: Kind, pieces: seq<Piece>, seen: int, i: nat)
    requires i <= |pieces| && forall p <- pieces :: p.offset <= |p.rec.data|
    ensures TakenFrom(headers, kind, pieces, seen, false, i) == CutPieces(headers, kind, pieces[..i], seen)
  {
    hide CutPiece;
    if i > 0 {
      TakenPrefix(headers, kind, pieces, seen, i - 1);
      assert pieces[..i] == pieces[..i - 1] + [pieces[i - 1]];
      CutPiecesSnoc(headers, kind, pieces[..i - 1], pieces[i - 1], seen);
    }
  }

  lemma TakenAll(headers: Headers, kind: Kind, pieces: seq<Piece>, seen: int, bootstrap: bool)
    requires forall p <- pieces :: p.offset <= |p.rec.data|
    requires bootstrap ==> |pieces| == 1
    ensures TakenFrom(headers, kind, pieces, seen, bootstrap, |pieces|)
         == Capped(CutPieces(headers, kind, pieces, seen), bootstrap)
  {
    if bootstrap {
      hide CutPiece, CutPieces, Capped;
      OnePiece(headers, kind, pieces[0], seen);
      assert pieces == [pieces[0]];
      assert TakenFrom(headers, kind, pieces, seen, true, 0) == [];
    } else {
      TakenPrefix(headers, kind, pieces, seen, |pieces|);
      assert pieces[..|pieces|] == pieces;
    }
  }

  /** One file: cut it, cap it on the first poll, and emit its records. */
  method EmitPiece(rules: Rules, filter: bool, now: int, start: Acc, kind: Kind, piece: Piece, seen: int, bootstrap: bool)
    returns (r: Outcome<Acc>, end: nat)
    requires piece.offset <= |piece.rec.data|
    ensures r == EmitAll(rules, filter, now, start,
                         AsTasks(kind, Capped(CutPiece(rules.headers, kind, piece, seen), bootstrap), bootstrap))
    ensures end == Reached(rules.headers, kind, piece, seen)
  {
    hide EmitAll, Cut, EndOf;
    var records := CompletedRecords(rules.headers, kind, piece.rec.data, piece.offset, seen, piece.rotated);
    ghost var cut := CutPiece(rules.headers, kind, piece, seen);
    end := if records != [] then records[|records| - 1].end else piece.offset;
    if records != [] {
      EndOfLast(cut, piece.offset);
    }
    assert Raws(records) == cut;
    if bootstrap && |records| > BOOTSTRAP_RECORDS {
      records := records[|records| - BOOTSTRAP_RECORDS..];
      assert Raws(records) == cut[|cut| - BOOTSTRAP_RECORDS..];
    }
    r := EmitRecords(rules, filter, now, start, kind, records, bootstrap);
  }

  lemma NextPiece(rules: Rules, filter: bool, now: int, start: Acc, kind: Kind, pieces: seq<Piece>, seen: int,
                  bootstrap: bool, i: nat, mid: Acc)
    requires i < |pieces| && forall p <- pieces :: p.offset <= |p.rec.data|
    requires EmitAll(rules, filter, now, start, AsTasks(kind, TakenFrom(rules.headers, kind, pieces, seen, bootstrap, i), bootstrap))
          == Returned(mid)
    ensures EmitAll(rules, filter, now, start, AsTasks(kind, TakenFrom(rules.headers, kind, pieces, seen, bootstrap, i + 1), bootstrap))
         == EmitAll(rules, filter, now, mid,
                    AsTasks(kind, Capped(CutPiece(rules.headers, kind, pieces[i], seen), bootstrap), bootstrap))
  {
    hide EmitAll, CutPiece, Capped;
    var a := TakenFrom(rules.headers, kind, pieces, seen, bootstrap, i);
    var b := Capped(CutPiece(rules.headers, kind, pieces[i], seen), bootstrap);
    AsTasksAppend(kind, a, b, bootstrap);
    EmitAppend(rules, filter, now, start, AsTasks(kind, a, bootstrap), AsTasks(kind, b, bootstrap));
  }

  lemma {:induction false} TakenGrows(headers: Headers, kind: Kind, pieces: seq<Piece>, seen: int, bootstrap: bool, i: nat, j: nat)
    requires i <= j <= |pieces| && forall p <- pieces :: p.offset <= |p.rec.data|
    ensures TakenFrom(headers, kind, pieces, seen, bootstrap, i) <= TakenFrom(headers, kind, pieces, seen, bootstrap, j)
  {
    hide CutPiece, Capped;
    if i < j {
      TakenGrows(headers, kind, pieces, seen, bootstrap, i, j - 1);
    }
  }

  lemma FailedPiece(rules: Rules, filter: bool, now: int, start: Acc, kind: Kind, pieces: seq<Piece>, seen: int,
                    bootstrap: bool, i: nat)
    requires i <= |pieces| && forall p <- pieces :: p.offset <= |p.rec.data|
    requires !EmitAll(rules, filter, now, start,
                      AsTasks(kind, TakenFrom(rules.headers, kind, pieces, seen, bootstrap, i), bootstrap)).Returned?
    ensures EmitAll(rules, filter, now, start, AsTasks(kind, TakenFrom(rules.headers, kind, pieces, seen, bootstrap, |pieces|), bootstrap))
         == EmitAll(rules, filter, now, start, AsTasks(kind, TakenFrom(rules.headers, kind, pieces, seen, bootstrap, i), bootstrap))
  {
    hide EmitAll, TakenFrom;
    var a := TakenFrom(rules.headers, kind, pieces, seen, bootstrap, i);
    var b := TakenFrom(rules.headers, kind, pieces, seen, bootstrap, |pieces|);
    TakenGrows(rules.headers, kind, pieces, seen, bootstrap, i, |pieces|);
    assert b == a + b[|a|..];
    AsTasksAppend(kind, a, b[|a|..], bootstrap);
    EmitFails(rules, filter, now, start, AsTasks(kind, a, bootstrap), AsTasks(kind, b[|a|..], bootstrap));
  }

  /** One kind: find the cursor's file, list the files to read, and go through
      them; the live file, which is last, yields the new cursor. */
  method EmitKind(rules: Rules, filter: bool, now: int, start: Acc, state: State, snapshot: Snapshot, kind: Kind)
    returns (r: Outcome<Acc>, cursor: Cursor, gap: bool)
    requires KindOk(snapshot, kind)
    ensures r == EmitAll(rules, filter, now, start, KindTasks(rules, state, snapshot, kind))
    ensures r.Returned? ==> cursor == PollKind(rules, state, snapshot, kind).cursor
    ensures r.Returned? ==> gap == PollKind(rules, state, snapshot, kind).gap
  {
    hide EmitAll, CutPiece, CutPieces, Reached, PiecesFrom, Chronological, Capped, AsTasks;
    var previous := Previous(state, kind);
    var recs := Chronological(snapshot, kind);
    var live := recs[|recs| - 1];
    gap := false;
    var pieces := [Piece(live, 0, false)];
    if previous.Some? {
      var found := Locate(recs, previous.value);
      if found.None? {
        gap := true;
      } else {
        pieces := PiecesFrom(recs[found.value..], previous.value.offset);
      }
    }
    assert pieces == Work(recs, previous);
    var seen := if previous.Some? then previous.value.sizeSeen else -1;
    var bootstrap := previous.None?;
    TakenAll(rules.headers, kind, pieces, seen, bootstrap);
    cursor := CursorAt(live, 0);
    r := Returned(start);
    NothingTaken(rules, filter, now, start, kind, pieces, seen, bootstrap);
    for i := 0 to |pieces|
      invariant r.Returned?
      invariant r == EmitAll(rules, filter, now, start,
                             AsTasks(kind, TakenFrom(rules.headers, kind, pieces, seen, bootstrap, i), bootstrap))
      invariant i == |pieces| ==> cursor == CursorAt(live, Reached(rules.headers, kind, pieces[i - 1], seen))
    {
      NextPiece(rules, filter, now, start, kind, pieces, seen, bootstrap, i, r.value);
      var end;
      r, end := EmitPiece(rules, filter, now, r.value, kind, pieces[i], seen, bootstrap);
      if !r.Returned? {
        FailedPiece(rules, filter, now, start, kind, pieces, seen, bootstrap, i + 1);
        return;
      }
      if i == |pieces| - 1 {
        cursor := CursorAt(live, end);
      }
    }
  }

  lemma NothingTaken(rules: Rules, filter: bool, now: int, start: Acc, kind: Kind, pieces: seq<Piece>, seen: int, bootstrap: bool)
    requires forall p <- pieces :: p.offset <= |p.rec.data|
    ensures EmitAll(rules, filter, now, start, AsTasks(kind, TakenFrom(rules.headers, kind, pieces, seen, bootstrap, 0), bootstrap))
         == Returned(start)
  {
    hide EmitAll;
    EmitNone(rules, filter, now, start);
    assert AsTasks(kind, [], bootstrap) == [];
  }

  lemma NextKind(rules: Rules, filter: bool, now: int, start: Acc, state: State, snapshot: Snapshot, kinds: seq<Kind>, i: nat)
    requires i < |kinds| && forall kind <- kinds :: KindOk(snapshot, kind)
    requires EmitAll(rules, filter, now, start, Tasks(rules, state, snapshot, kinds[..i])).Returned?
    ensures var mid := EmitAll(rules, filter, now, start, Tasks(rules, state, snapshot, kinds[..i])).value;
            EmitAll(rules, filter, now, start, Tasks(rules, state, snapshot, kinds[..i + 1]))
            == EmitAll(rules, filter, now, mid, KindTasks(rules, state, snapshot, kinds[i]))
    ensures Cursors(rules, state, snapshot, kinds[..i + 1])
         == Cursors(rules, state, snapshot, kinds[..i])[kinds[i] := PollKind(rules, state, snapshot, kinds[i]).cursor]
    ensures Gaps(rules, state, snapshot, kinds[..i + 1])
         == Gaps(rules, state, snapshot, kinds[..i]) + if PollKind(rules, state, snapshot, kinds[i]).gap then 1 else 0
  {
    hide EmitAll, KindTasks, PollKind, KindOk;
    assert kinds[..i + 1][..i] == kinds[..i];
    EmitAppend(rules, filter, now, start, Tasks(rules, state, snapshot, kinds[..i]), KindTasks(rules, state, snapshot, kinds[i]));
  }

  lemma {:induction false} TasksGrow(rules: Rules, state: State, snapshot: Snapshot, kinds: seq<Kind>, i: nat, j: nat)
    requires i <= j <= |kinds| && forall kind <- kinds :: KindOk(snapshot, kind)
    ensures Tasks(rules, state, snapshot, kinds[..i]) <= Tasks(rules, state, snapshot, kinds[..j])
  {
    hide KindTasks, KindOk;
    if i < j {
      TasksGrow(rules, state, snapshot, kinds, i, j - 1);
      assert kinds[..j][..j - 1] == kinds[..j - 1];
    }
  }

  lemma FailedKind(rules: Rules, filter: bool, now: int, start: Acc, state: State, snapshot: Snapshot, kinds: seq<Kind>, i: nat)
    requires i <= |kinds| && forall kind <- kinds :: KindOk(snapshot, kind)
    requires !EmitAll(rules, filter, now, start, Tasks(rules, state, snapshot, kinds[..i])).Returned?
    ensures EmitAll(rules, filter, now, start, Tasks(rules, state, snapshot, kinds))
         == EmitAll(rules, filter, now, start, Tasks(rules, state, snapshot, kinds[..i]))
  {
    hide EmitAll, Tasks, KindOk;
    var a, b := Tasks(rules, state, snapshot, kinds[..i]), Tasks(rules, state, snapshot, kinds);
    TasksGrow(rules, state, snapshot, kinds, i, |kinds|);
    assert kinds[..|kinds|] == kinds;
    assert b == a + b[|a|..];
    EmitFails(rules, filter, now, start, a, b[|a|..]);
  }

  /** The loop over the kinds, updating the successor state in place. */
  method EmitKinds(rules: Rules, filter: bool, now: int, start: Acc, state: State, snapshot: Snapshot, kinds: seq<Kind>)
    returns (r: Outcome<Acc>, cursors: map<Kind, Cursor>, gaps: nat)
    requires forall kind <- kinds :: KindOk(snapshot, kind)
    ensures r == EmitAll(rules, filter, now, start, Tasks(rules, state, snapshot, kinds))
    ensures r.Returned? ==> cursors == Cursors(rules, state, snapshot, kinds)
    ensures r.Returned? ==> gaps == Gaps(rules, state, snapshot, kinds)
  {
    hide EmitAll, KindTasks, PollKind, KindOk;
    r, cursors, gaps := Returned(start), state.cursors, state.gaps;
    EmitNone(rules, filter, now, start);
    for i := 0 to |kinds|
      invariant r.Returned? && r == EmitAll(rules, filter, now, start, Tasks(rules, state, snapshot, kinds[..i]))
      invariant cursors == Cursors(rules, state, snapshot, kinds[..i])
      invariant gaps == Gaps(rules, state, snapshot, kinds[..i])
    {
      NextKind(rules, filter, now, start, state, snapshot, kinds, i);
      var cursor, gap;
      r, cursor, gap := EmitKind(rules, filter, now, r.value, state, snapshot, kinds[i]);
      if !r.Returned? {
        FailedKind(rules, filter, now, start, state, snapshot, kinds, i + 1);
        return;
      }
      cursors := cursors[kinds[i] := cursor];
      gaps := gaps + if gap then 1 else 0;
    }
    assert kinds[..|kinds|] == kinds;
  }

  method PrepareOutbox(rules: Rules, filter: bool, state: State, snapshot: Snapshot, now: int) returns (r: Outcome<State>)
    requires SnapshotOk(snapshot)
    ensures r == Prepared(rules, filter, state, snapshot, now)
  {
    hide EmitAll, Tasks, Cursors, Gaps, Valid, KINDS, Closed;
    if !Valid(state) {
      return Raised;
    }
    if state.pending.Some? {
      return Returned(state);
    }
    var acc, cursors, gaps := EmitKinds(rules, filter, now, Start(state), state, snapshot, KINDS);
    match acc
    case Raised =>
      return Raised;
    case Diverged =>
      return Diverged;
    case Returned(a) =>
      var batches := Closed(a);
      if |batches| > MAX_BATCHES {
        return Raised;
      }
      var next := State(cursors, a.lastNs, now as real / 1000000000.0, a.sent, gaps, a.normal, None);
      var out := state.(pending := Some(Outbox(batches, next)));
      if !Valid(out) {
        return Raised;
      }
      if Dumped(StateJson(rules, out), DEFAULT) > MAX_STATE {
        return Raised;
      }
      return Returned(out);
  }

  lemma EmitNone(rules: Rules, filter: bool, now: int, acc: Acc)
    ensures EmitAll(rules, filter, now, acc, []) == Returned(acc)
  {
  }

  lemma {:induction false} EmitAppend(rules: Rules, filter: bool, now: int, acc: Acc, a: seq<Task>, b: seq<Task>)
    requires EmitAll(rules, filter, now, acc, a).Returned?
    ensures EmitAll(rules, filter, now, acc, a + b)
         == EmitAll(rules, filter, now, EmitAll(rules, filter, now, acc, a).value, b)
  {
    hide Emit, EmitAll;
    var mid := EmitAll(rules, filter, now, acc, a).value;
    if b == [] {
      assert a + b == a;
      EmitNone(rules, filter, now, mid);
    } else {
      var front, last := b[..|b| - 1], b[|b| - 1];
      EmitAppend(rules, filter, now, acc, a, front);
      EmitSnoc(rules, filter, now, acc, a + front, last);
      EmitSnoc(rules, filter, now, mid, front, last);
      assert a + b == a + front + [last] && b == front + [last];
    }
  }
}
