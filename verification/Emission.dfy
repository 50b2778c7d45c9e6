/** What one outbox holds: which records, in which order, at which times. */
module Emission {
  import opened Basics
  import opened Sources
  import opened Json
  import opened Records
  import opened States
  import opened Rendering
  import opened Rotation
  import opened Prepare
  import opened Batches

  /** The records that are not known to be normal, in order. */
  function Kept(rules: Rules, filter: bool, tasks: seq<Task>): seq<Task> {
    if tasks == [] then []
    else
      var last := tasks[|tasks| - 1];
      Kept(rules, filter, tasks[..|tasks| - 1]) + (if NormalName(rules, filter, last).None? then [last] else [])
  }

  /** How many records match the pattern behind a counter. */
  function Matching(rules: Rules, filter: bool, tasks: seq<Task>, key: NormalKey): nat {
    if tasks == [] then 0
    else
      var last := tasks[|tasks| - 1];
      Matching(rules, filter, tasks[..|tasks| - 1], key)
      + if last.kind == key.kind && NormalName(rules, filter, last) == Some(key.pattern) then 1 else 0
  }

  /** A stream that carries a record at a given time. */
  ghost predicate Carries(rules: Rules, stream: Stream, task: Task, ns: nat) {
    && stream.kind == task.kind
    && stream.ns == ns
    && Render(rules, task.kind, task.raw, task.bootstrap, ns) == Returned((stream.level, stream.line))
  }

  /** The streams carry these records one for one, at consecutive nanoseconds
      that start now, or right after the last time used. */
  ghost predicate CarriesAll(rules: Rules, streams: seq<Stream>, tasks: seq<Task>, now: int, last: nat) {
    && |streams| == |tasks|
    && forall k | 0 <= k < |streams| :: Carries(rules, streams[k], tasks[k], NextNs(now, last) + k)
  }

  /** Everything an accumulator has put into batches. */
  function Sent(acc: Acc): seq<Stream> {
    Concat(acc.batches) + acc.batch
  }

  function LastNs(now: int, last: nat, n: nat): nat {
    if n == 0 then last else NextNs(now, last) + n - 1
  }

  /** The whole account of an emission that started at `start`. */
  ghost predicate Account(rules: Rules, filter: bool, now: int, start: Acc, tasks: seq<Task>, acc: Acc, streams: seq<Stream>) {
    var kept := Kept(rules, filter, tasks);
    && Sent(acc) == Sent(start) + streams
    && CarriesAll(rules, streams, kept, now, start.lastNs)
    && acc.sent == start.sent + |kept|
    && acc.lastNs == LastNs(now, start.lastNs, |kept|)
    && forall key :: Count(acc.normal, key) == Count(start.normal, key) + Matching(rules, filter, tasks, key)
  }

  lemma PushSent(acc: Acc, stream: Stream)
    ensures Sent(Push(acc, stream)) == Sent(acc) + [stream]
    ensures Push(acc, stream).lastNs == acc.lastNs && Push(acc, stream).normal == acc.normal
    ensures Push(acc, stream).sent == acc.sent + 1
  {
    hide StreamSize;
    ConcatSnoc(acc.batches, acc.batch);
    assert Concat(acc.batches) + (acc.batch + [stream]) == Concat(acc.batches) + acc.batch + [stream];
  }

  lemma KeptSnoc(rules: Rules, filter: bool, tasks: seq<Task>, task: Task)
    ensures Kept(rules, filter, tasks + [task])
         == Kept(rules, filter, tasks) + (if NormalName(rules, filter, task).None? then [task] else [])
    ensures forall key :: Matching(rules, filter, tasks + [task], key)
                       == Matching(rules, filter, tasks, key)
                          + if task.kind == key.kind && NormalName(rules, filter, task) == Some(key.pattern) then 1 else 0
  {
    hide NormalName;
    assert (tasks + [task])[..|tasks|] == tasks;
  }

  lemma AccountNormal(rules: Rules, filter: bool, now: int, start: Acc, tasks: seq<Task>, acc: Acc, streams: seq<Stream>, task: Task)
    requires Account(rules, filter, now, start, tasks, acc, streams)
    requires NormalName(rules, filter, task).Some?
    ensures var r := Emit(rules, filter, now, acc, task);
            r.Returned? && Account(rules, filter, now, start, tasks + [task], r.value, streams)
  {
    hide NormalName, Render, Kept, Matching;
    KeptSnoc(rules, filter, tasks, task);
    assert Kept(rules, filter, tasks) + [] == Kept(rules, filter, tasks);
  }

  lemma AccountKept(rules: Rules, filter: bool, now: int, start: Acc, tasks: seq<Task>, acc: Acc, streams: seq<Stream>, task: Task)
    requires Account(rules, filter, now, start, tasks, acc, streams)
    requires NormalName(rules, filter, task).None? && Emit(rules, filter, now, acc, task).Returned?
    ensures var (level, line) := Render(rules, task.kind, task.raw, task.bootstrap, NextNs(now, acc.lastNs)).value;
            Account(rules, filter, now, start, tasks + [task], Emit(rules, filter, now, acc, task).value,
                    streams + [Stream(task.kind, level, NextNs(now, acc.lastNs), line)])
  {
    hide NormalName, Render, Kept, Matching, Push, Concat;
    KeptSnoc(rules, filter, tasks, task);
    var ns := NextNs(now, acc.lastNs);
    var (level, line) := Render(rules, task.kind, task.raw, task.bootstrap, ns).value;
    var stream := Stream(task.kind, level, ns, line);
    PushSent(acc.(lastNs := ns), stream);
    assert ns == NextNs(now, start.lastNs) + |streams|;
    assert Sent(start) + (streams + [stream]) == Sent(start) + streams + [stream];
  }

  lemma {:induction false} EmitAccount(rules: Rules, filter: bool, now: int, start: Acc, tasks: seq<Task>)
    returns (streams: seq<Stream>)
    requires EmitAll(rules, filter, now, start, tasks).Returned?
    ensures Account(rules, filter, now, start, tasks, EmitAll(rules, filter, now, start, tasks).value, streams)
  {
    hide *;
    if tasks == [] {
      streams := [];
      EmitNone(rules, filter, now, start);
      AccountNone(rules, filter, now, start);
    } else {
      var front, task := tasks[..|tasks| - 1], tasks[|tasks| - 1];
      assert tasks == front + [task];
      EmitSnoc(rules, filter, now, start, front, task);
      streams := EmitAccount(rules, filter, now, start, front);
      var acc := EmitAll(rules, filter, now, start, front).value;
      if NormalName(rules, filter, task).Some? {
        AccountNormal(rules, filter, now, start, front, acc, streams, task);
      } else {
        EmitRenders(rules, filter, now, acc, task);
        AccountKept(rules, filter, now, start, front, acc, streams, task);
        var ns := NextNs(now, acc.lastNs);
        var (level, line) := Render(rules, task.kind, task.raw, task.bootstrap, ns).value;
        streams := streams + [Stream(task.kind, level, ns, line)];
      }
    }
  }

  lemma AccountNone(rules: Rules, filter: bool, now: int, start: Acc)
    ensures Account(rules, filter, now, start, [], start, [])
  {
    hide Concat;
    assert Sent(start) + [] == Sent(start);
  }

  lemma EmitRenders(rules: Rules, filter: bool, now: int, acc: Acc, task: Task)
    requires NormalName(rules, filter, task).None? && Emit(rules, filter, now, acc, task).Returned?
    ensures Render(rules, task.kind, task.raw, task.bootstrap, NextNs(now, acc.lastNs)).Returned?
  {
    hide NormalName, Render;
  }

  // -------------------------------------------------------------- totals

  /** The sum of all counters. */
  ghost function Total(normal: map<NormalKey, nat>): nat {
    if normal == map[] then 0
    else
      var key :| key in normal;
      normal[key] + Total(normal - {key})
  }

  lemma {:induction false} TotalWithout(normal: map<NormalKey, nat>, key: NormalKey)
    requires key in normal
    ensures Total(normal) == normal[key] + Total(normal - {key})
    decreases |normal|
  {
    var other :| other in normal && Total(normal) == normal[other] + Total(normal - {other});
    if other != key {
      TotalWithout(normal - {other}, key);
      TotalWithout(normal - {key}, other);
      assert normal - {other} - {key} == normal - {key} - {other};
    }
  }

  lemma TotalIncrement(normal: map<NormalKey, nat>, key: NormalKey)
    ensures Total(normal[key := Count(normal, key) + 1]) == Total(normal) + 1
  {
    var after := normal[key := Count(normal, key) + 1];
    TotalWithout(after, key);
    if key in normal {
      TotalWithout(normal, key);
      assert after - {key} == normal - {key};
    } else {
      assert after - {key} == normal;
    }
  }

  /** Each record is either sent or counted, never both and never neither. */
  lemma {:induction false} EmitConserves(rules: Rules, filter: bool, now: int, start: Acc, tasks: seq<Task>)
    requires EmitAll(rules, filter, now, start, tasks).Returned?
    ensures var acc := EmitAll(rules, filter, now, start, tasks).value;
            acc.sent + Total(acc.normal) == start.sent + Total(start.normal) + |tasks|
  {
    if tasks != [] {
      var front, task := tasks[..|tasks| - 1], tasks[|tasks| - 1];
      EmitConserves(rules, filter, now, start, front);
      hide NormalName, Render, Push, Total;
      var acc := EmitAll(rules, filter, now, start, front).value;
      match NormalName(rules, filter, task)
      case Some(name) => TotalIncrement(acc.normal, NormalKey(task.kind, name));
      case None =>
        var ns := NextNs(now, acc.lastNs);
        var (level, line) := Render(rules, task.kind, task.raw, task.bootstrap, ns).value;
        PushSent(acc.(lastNs := ns), Stream(task.kind, level, ns, line));
    }
  }

  // ------------------------------------------------------------- outboxes

  function Flat(outbox: Outbox): seq<Stream> {
    Concat(outbox.batches)
  }

  /** A successful prepare on a state without an outbox. */
  ghost predicate PreparedBy(rules: Rules, filter: bool, state: State, snapshot: Snapshot, now: int, outbox: Outbox) {
    && SnapshotOk(snapshot)
    && state.pending.None?
    && Prepared(rules, filter, state, snapshot, now) == Returned(state.(pending := Some(outbox)))
  }

  lemma ClosedSent(acc: Acc)
    ensures Concat(Closed(acc)) == Sent(acc)
  {
    if acc.batch == [] {
      assert Concat(acc.batches) + [] == Concat(acc.batches);
    } else {
      ConcatSnoc(acc.batches, acc.batch);
    }
  }

  /** Where an outbox comes from. */
  lemma Unpack(rules: Rules, filter: bool, state: State, snapshot: Snapshot, now: int, outbox: Outbox) returns (acc: Acc)
    requires PreparedBy(rules, filter, state, snapshot, now, outbox)
    ensures EmitAll(rules, filter, now, Start(state), Tasks(rules, state, snapshot, KINDS)) == Returned(acc)
    ensures outbox == Outbox(Closed(acc), NextState(rules, state, snapshot, now, acc))
    ensures Valid(state) && Valid(state.(pending := Some(outbox)))
  {
    hide EmitAll, Tasks, Valid, Closed, NextState, KINDS;
    var r := EmitAll(rules, filter, now, Start(state), Tasks(rules, state, snapshot, KINDS));
    acc := r.value;
    assert state.(pending := Some(outbox)).pending.value == outbox;
  }

  /** An outbox carries exactly the records that are not normal, in the order
      they were cut, the k-th at max(now, last + 1) + k nanoseconds; `sent` grows
      by their number and each counter by the number of records it stands for. */
  lemma OutboxAccount(rules: Rules, filter: bool, state: State, snapshot: Snapshot, now: int, outbox: Outbox)
    requires PreparedBy(rules, filter, state, snapshot, now, outbox)
    ensures var tasks := Tasks(rules, state, snapshot, KINDS);
            var kept := Kept(rules, filter, tasks);
            && CarriesAll(rules, Flat(outbox), kept, now, state.lastNs)
            && outbox.next.sent == state.sent + |kept|
            && outbox.next.lastNs == LastNs(now, state.lastNs, |kept|)
            && (forall key :: Count(outbox.next.normal, key) == Count(state.normal, key) + Matching(rules, filter, tasks, key))
  {
    hide EmitAll, Tasks, Valid, Closed, KINDS, Prepared, CarriesAll, Kept, Matching, Cursors, Gaps;
    var acc := Unpack(rules, filter, state, snapshot, now, outbox);
    var tasks := Tasks(rules, state, snapshot, KINDS);
    var streams := EmitAccount(rules, filter, now, Start(state), tasks);
    ClosedSent(acc);
    assert Sent(Start(state)) + streams == streams;
  }

  /** Conservation per poll: what `sent` and the counters gain together is the
      number of records cut, and `sent` gains the number of streams. */
  lemma OutboxConserves(rules: Rules, filter: bool, state: State, snapshot: Snapshot, now: int, outbox: Outbox)
    requires PreparedBy(rules, filter, state, snapshot, now, outbox)
    ensures outbox.next.sent - state.sent == |Flat(outbox)|
    ensures outbox.next.sent - state.sent + Total(outbox.next.normal) - Total(state.normal)
         == |Tasks(rules, state, snapshot, KINDS)|
  {
    hide EmitAll, Tasks, Valid, Closed, KINDS, Prepared, Total, Kept, Cursors, Gaps, Carries;
    OutboxAccount(rules, filter, state, snapshot, now, outbox);
    var acc := Unpack(rules, filter, state, snapshot, now, outbox);
    EmitConserves(rules, filter, now, Start(state), Tasks(rules, state, snapshot, KINDS));
  }

  // ------------------------------------------------- when prepare succeeds

  /** A record can be rendered: the year is representable, and truncation ends. */
  predicate Renders(rules: Rules, task: Task, ns: nat) {
    && ns < END_OF_TIME
    && var full := Full(rules, task.kind, task.raw, task.bootstrap, ns);
       Fits(full) || Fits(Smallest(full))
  }

  lemma RendersIff(rules: Rules, task: Task, ns: nat)
    ensures Render(rules, task.kind, task.raw, task.bootstrap, ns).Returned? <==> Renders(rules, task, ns)
  {
    hide Full, Fits, Smallest, Shrink;
    TruncationEnds(Full(rules, task.kind, task.raw, task.bootstrap, ns));
  }

  /** All records that are not normal can be rendered at the times they get. */
  ghost predicate AllRender(rules: Rules, kept: seq<Task>, now: int, last: nat) {
    forall k | 0 <= k < |kept| :: Renders(rules, kept[k], NextNs(now, last) + k)
  }

  lemma AllRenderSnoc(rules: Rules, kept: seq<Task>, task: Task, now: int, last: nat)
    ensures AllRender(rules, kept + [task], now, last)
       <==> AllRender(rules, kept, now, last) && Renders(rules, task, NextNs(now, last) + |kept|)
  {
    hide Renders, NextNs;
    assert forall k | 0 <= k < |kept| :: (kept + [task])[k] == kept[k];
    assert (kept + [task])[|kept|] == task;
  }

  lemma EmitEnds(rules: Rules, filter: bool, now: int, acc: Acc, task: Task)
    ensures Emit(rules, filter, now, acc, task).Returned?
       <==> NormalName(rules, filter, task).Some? || Renders(rules, task, NextNs(now, acc.lastNs))
  {
    hide NormalName, Render, Renders, Push;
    RendersIff(rules, task, NextNs(now, acc.lastNs));
  }

  lemma AccountLast(rules: Rules, filter: bool, now: int, start: Acc, tasks: seq<Task>, acc: Acc, streams: seq<Stream>)
    requires Account(rules, filter, now, start, tasks, acc, streams)
    ensures NextNs(now, acc.lastNs) == NextNs(now, start.lastNs) + |Kept(rules, filter, tasks)|
  {
    hide Kept, CarriesAll, Matching;
  }

  /** The loop over the records gets through exactly if all of them render. */
  lemma {:induction false} EmitAllEnds(rules: Rules, filter: bool, now: int, start: Acc, tasks: seq<Task>)
    ensures EmitAll(rules, filter, now, start, tasks).Returned?
       <==> AllRender(rules, Kept(rules, filter, tasks), now, start.lastNs)
  {
    hide *;
    if tasks == [] {
      EmitNone(rules, filter, now, start);
      NothingKept(rules, filter, now, start.lastNs);
    } else {
      var front, task := tasks[..|tasks| - 1], tasks[|tasks| - 1];
      var kept := Kept(rules, filter, front);
      assert tasks == front + [task];
      EmitSnoc(rules, filter, now, start, front, task);
      KeptSnoc(rules, filter, front, task);
      EmitAllEnds(rules, filter, now, start, front);
      AllRenderSnoc(rules, kept, task, now, start.lastNs);
      assert kept + [] == kept;
      if EmitAll(rules, filter, now, start, front).Returned? {
        var acc := EmitAll(rules, filter, now, start, front).value;
        var streams := EmitAccount(rules, filter, now, start, front);
        AccountLast(rules, filter, now, start, front, acc, streams);
        EmitEnds(rules, filter, now, acc, task);
      }
    }
  }

  lemma NothingKept(rules: Rules, filter: bool, now: int, last: nat)
    ensures AllRender(rules, Kept(rules, filter, []), now, last)
  {
  }

  // -------------------------------------------------------------- cursors

  lemma {:induction false} CursorsOf(rules: Rules, state: State, snapshot: Snapshot, kinds: seq<Kind>, kind: Kind)
    requires forall k <- kinds :: KindOk(snapshot, k)
    requires kind in kinds
    ensures kind in Cursors(rules, state, snapshot, kinds)
    ensures Cursors(rules, state, snapshot, kinds)[kind] == PollKind(rules, state, snapshot, kind).cursor
  {
    hide PollKind, KindOk;
    var last := kinds[|kinds| - 1];
    if kind != last {
      assert kind in kinds[..|kinds| - 1];
      CursorsOf(rules, state, snapshot, kinds[..|kinds| - 1], kind);
    }
  }

  lemma NextCursors(rules: Rules, filter: bool, state: State, snapshot: Snapshot, now: int, outbox: Outbox)
    requires PreparedBy(rules, filter, state, snapshot, now, outbox)
    ensures forall kind: Kind :: KindOk(snapshot, kind)
    ensures outbox.next.cursors == Cursors(rules, state, snapshot, KINDS)
    ensures outbox.next.gaps == Gaps(rules, state, snapshot, KINDS)
  {
    var acc := Unpack(rules, filter, state, snapshot, now, outbox);
    hide EmitAll, Tasks, Valid, Closed, KINDS, Prepared, Cursors, Gaps, KindOk;
  }

  lemma KindCursor(rules: Rules, state: State, snapshot: Snapshot, kind: Kind)
    requires KindOk(snapshot, kind)
    ensures var live, cursor := snapshot[Slot(kind, Current)].value, PollKind(rules, state, snapshot, kind).cursor;
            cursor.offset <= |live.data| <= MAX_FILE && cursor == CursorAt(live, cursor.offset)
  {
    hide Poll, Chronological;
    LiveRec(snapshot, kind);
    PolledCursor(rules.headers, kind, Previous(state, kind), Chronological(snapshot, kind));
  }

  lemma LiveThere(snapshot: Snapshot, kind: Kind)
    requires KindOk(snapshot, kind)
    ensures Slot(kind, Current) in snapshot && snapshot[Slot(kind, Current)].Some?
  {
    assert Current in Gens(kind);
  }

  lemma CursorFieldsAt(live: Rec, cursor: Cursor)
    requires cursor.offset <= |live.data| && cursor == CursorAt(live, cursor.offset)
    ensures cursor.dev == live.dev && cursor.inode == live.inode && cursor.sizeSeen == |live.data|
    ensures cursor.sha256 == Sha256(live.data[..cursor.offset])
  {
  }

  /** Every successful prepare leaves, for each kind, a cursor inside the live
      file whose digest is that of the bytes before it. */
  lemma CursorInvariant(rules: Rules, filter: bool, state: State, snapshot: Snapshot, now: int, outbox: Outbox, kind: Kind)
    requires PreparedBy(rules, filter, state, snapshot, now, outbox)
    ensures KindOk(snapshot, kind)
    ensures var live := snapshot[Slot(kind, Current)].value;
            && kind in outbox.next.cursors
            && outbox.next.cursors[kind].offset <= |live.data| <= MAX_FILE
            && outbox.next.cursors[kind].dev == live.dev && outbox.next.cursors[kind].inode == live.inode
            && outbox.next.cursors[kind].sha256 == Sha256(live.data[..outbox.next.cursors[kind].offset])
            && outbox.next.cursors[kind].sizeSeen == |live.data|
            && outbox.next.cursors[kind] == PollKind(rules, state, snapshot, kind).cursor
  {
    hide *;
    NextCursors(rules, filter, state, snapshot, now, outbox);
    EveryKindListed(kind);
    CursorsOf(rules, state, snapshot, KINDS, kind);
    KindCursor(rules, state, snapshot, kind);
    LiveThere(snapshot, kind);
    CursorFieldsAt(snapshot[Slot(kind, Current)].value, PollKind(rules, state, snapshot, kind).cursor);
  }

  lemma LiveRec(snapshot: Snapshot, kind: Kind)
    requires KindOk(snapshot, kind)
    ensures var recs := Chronological(snapshot, kind);
            && recs != []
            && recs[|recs| - 1] == snapshot[Slot(kind, Current)].value
            && |recs[|recs| - 1].data| <= MAX_FILE
  {
    var recs := Chronological(snapshot, kind);
    assert recs[|recs| - 1] in recs;
  }

  lemma KindCursorValid(rules: Rules, state: State, snapshot: Snapshot, kind: Kind)
    requires KindOk(snapshot, kind)
    ensures ValidCursor(PollKind(rules, state, snapshot, kind).cursor)
  {
    hide Poll, Chronological, KindOk;
    LiveRec(snapshot, kind);
    PolledCursor(rules.headers, kind, Previous(state, kind), Chronological(snapshot, kind));
  }

  lemma {:induction false} CursorsValid(rules: Rules, state: State, snapshot: Snapshot, kinds: seq<Kind>)
    requires forall kind <- kinds :: KindOk(snapshot, kind)
    requires ValidCursors(state.cursors)
    ensures ValidCursors(Cursors(rules, state, snapshot, kinds))
  {
    hide PollKind, KindOk, ValidCursor;
    if kinds != [] {
      CursorsValid(rules, state, snapshot, kinds[..|kinds| - 1]);
      KindCursorValid(rules, state, snapshot, kinds[|kinds| - 1]);
    }
  }

  lemma StateCursorsValid(state: State)
    requires Valid(state)
    ensures ValidCursors(state.cursors)
  {
  }

  lemma BatchesValid(acc: Acc)
    requires AccOk(acc)
    ensures forall batch <- Closed(acc) :: ValidBatch(batch)
  {
    ClosedPacked(acc);
    hide *;
    forall batch <- Closed(acc)
      ensures ValidBatch(batch)
    {
      PackedFits(batch);
    }
  }

  lemma ValidOut(state: State, batches: seq<Batch>, next: State)
    requires Valid(state) && |batches| <= MAX_BATCHES && next.pending.None?
    requires forall batch <- batches :: ValidBatch(batch)
    requires ValidCursors(next.cursors)
    ensures Valid(state.(pending := Some(Outbox(batches, next))))
       <==> next.lastSuccess >= 0.0 && |next.normal| <= MAX_NORMAL && forall key <- next.normal :: PatternName(key.pattern)
  {
    hide ValidBatch, PatternName, ValidCursors;
  }

  /** Why prepare's own validation can fail: never over a cursor or a batch, only
      over the clock and the names and number of the normal counters. */
  lemma ValidationExact(rules: Rules, filter: bool, state: State, snapshot: Snapshot, now: int, acc: Acc)
    requires SnapshotOk(snapshot) && Valid(state) && state.pending.None?
    requires EmitAll(rules, filter, now, Start(state), Tasks(rules, state, snapshot, KINDS)) == Returned(acc)
    requires |Closed(acc)| <= MAX_BATCHES
    ensures Valid(state.(pending := Some(Outbox(Closed(acc), NextState(rules, state, snapshot, now, acc)))))
       <==> now >= 0 && |acc.normal| <= MAX_NORMAL && forall key <- acc.normal :: PatternName(key.pattern)
  {
    hide EmitAll, Tasks, Closed, KINDS, Cursors, Gaps, PatternName, ValidBatch, ValidCursors, AccOk, Start, Valid, KindOk;
    StartOk(state);
    EmitAllOk(rules, filter, now, Start(state), Tasks(rules, state, snapshot, KINDS));
    BatchesValid(acc);
    StateCursorsValid(state);
    CursorsValid(rules, state, snapshot, KINDS);
    var next := NextState(rules, state, snapshot, now, acc);
    assert next.lastSuccess >= 0.0 <==> now >= 0;
    ValidOut(state, Closed(acc), next);
  }

  // ------------------------------------------------------------ quiescence

  /** No older generation has the identity of its live file. */
  ghost predicate DistinctFiles(snapshot: Snapshot, kind: Kind)
    requires KindOk(snapshot, kind)
  {
    var recs := Chronological(snapshot, kind);
    var live := recs[|recs| - 1];
    forall i | 0 <= i < |recs| - 1 :: !(recs[i].dev == live.dev && recs[i].inode == live.inode)
  }

  /** A state whose cursor for this kind was left by a poll of this snapshot. */
  ghost predicate JustPolled(rules: Rules, before: State, state: State, snapshot: Snapshot, kind: Kind)
    requires KindOk(snapshot, kind)
  {
    Previous(state, kind) == Some(PollKind(rules, before, snapshot, kind).cursor)
  }

  /** What prepare returns if it returns. */
  function PreparedOut(rules: Rules, filter: bool, state: State, snapshot: Snapshot, now: int, acc: Acc): State
    requires SnapshotOk(snapshot)
  {
    state.(pending := Some(Outbox(Closed(acc), NextState(rules, state, snapshot, now, acc))))
  }

  /** prepare succeeds exactly if every record that is not normal can be rendered
      at its time, the batches and the whole state are within their limits, the
      clock is not before 1970, and the counters are few and well named. It then
      returns the state with the outbox added. */
  lemma PrepareSucceeds(rules: Rules, filter: bool, state: State, snapshot: Snapshot, now: int)
    requires SnapshotOk(snapshot) && Valid(state) && state.pending.None?
    ensures var tasks := Tasks(rules, state, snapshot, KINDS);
            AllRender(rules, Kept(rules, filter, tasks), now, state.lastNs)
            <==> EmitAll(rules, filter, now, Start(state), tasks).Returned?
    ensures Prepared(rules, filter, state, snapshot, now).Returned? <==>
              var tasks := Tasks(rules, state, snapshot, KINDS);
              && AllRender(rules, Kept(rules, filter, tasks), now, state.lastNs)
              && var acc := EmitAll(rules, filter, now, Start(state), tasks).value;
                 && |Closed(acc)| <= 512 && now >= 0
                 && |acc.normal| <= 256 && (forall key <- acc.normal :: PatternName(key.pattern))
                 && Dumped(StateJson(rules, PreparedOut(rules, filter, state, snapshot, now, acc)), DEFAULT) <= 64 * 1024 * 1024
    ensures Prepared(rules, filter, state, snapshot, now).Returned? ==>
              var acc := EmitAll(rules, filter, now, Start(state), Tasks(rules, state, snapshot, KINDS)).value;
              Prepared(rules, filter, state, snapshot, now) == Returned(PreparedOut(rules, filter, state, snapshot, now, acc))
  {
    hide EmitAll, Tasks, Valid, Kept, AllRender, NextState, Closed, KINDS, KindOk, PatternName;
    var tasks := Tasks(rules, state, snapshot, KINDS);
    EmitAllEnds(rules, filter, now, Start(state), tasks);
    if EmitAll(rules, filter, now, Start(state), tasks).Returned? {
      var acc := EmitAll(rules, filter, now, Start(state), tasks).value;
      if |Closed(acc)| <= MAX_BATCHES {
        ValidationExact(rules, filter, state, snapshot, now, acc);
      }
    }
  }

  /** Preparing checks the size in the style of json.dumps, saving and loading in
      the compact one. What passed the first check passes the others: the state
      with the outbox, and the successor that is saved once the outbox is sent. */
  lemma PreparedSaves(rules: Rules, filter: bool, state: State, snapshot: Snapshot, now: int, outbox: Outbox)
    requires PreparedBy(rules, filter, state, snapshot, now, outbox)
    ensures Saveable(rules, state.(pending := Some(outbox))) && Saveable(rules, outbox.next)
  {
    var out := state.(pending := Some(outbox));
    assert out.pending == Some(outbox);
    PreparedChecked(rules, filter, state, snapshot, now, outbox);
    hide *;
    Narrower(StateJson(rules, out));
    IsSaveable(rules, out);
    NextSaves(rules, out);
  }

  lemma PreparedChecked(rules: Rules, filter: bool, state: State, snapshot: Snapshot, now: int, outbox: Outbox)
    requires PreparedBy(rules, filter, state, snapshot, now, outbox)
    ensures var out := state.(pending := Some(outbox));
            Valid(out) && Dumped(StateJson(rules, out), DEFAULT) <= MAX_STATE
  {
    hide EmitAll, Tasks, Valid, Closed, NextState, KINDS, Dumped, StateJson;
    var acc := Unpack(rules, filter, state, snapshot, now, outbox);
  }

  lemma IsSaveable(rules: Rules, state: State)
    requires Valid(state) && Dumped(StateJson(rules, state), COMPACT) <= MAX_STATE
    ensures Saveable(rules, state)
  {
    hide Valid, Dumped, StateJson;
  }

  lemma Narrower(j: Json)
    ensures Dumped(j, COMPACT) <= Dumped(j, DEFAULT)
  {
    assert ","[1..] == ":"[1..] == "" && ", "[1..] == ": "[1..] == " " && " "[1..] == "";
    NarrowerStyle(j, COMPACT, DEFAULT);
  }

  /** Preparing again on the same snapshot takes at most the held-back header. */
  lemma QuietKind(rules: Rules, before: State, state: State, snapshot: Snapshot, kind: Kind)
    requires KindOk(snapshot, kind) && DistinctFiles(snapshot, kind)
    requires JustPolled(rules, before, state, snapshot, kind)
    ensures |KindTasks(rules, state, snapshot, kind)| <= (if Grouped(kind) then 1 else 0)
    ensures forall task <- KindTasks(rules, state, snapshot, kind) :: Header(rules.headers, kind, task.raw)
    ensures !PollKind(rules, state, snapshot, kind).gap
  {
    hide Poll, Chronological;
    PollAgain(rules.headers, kind, Previous(before, kind), Chronological(snapshot, kind));
  }

  /** And once more takes nothing and moves nothing. */
  lemma SilentKind(rules: Rules, first: State, second: State, third: State, snapshot: Snapshot, kind: Kind)
    requires KindOk(snapshot, kind) && DistinctFiles(snapshot, kind)
    requires JustPolled(rules, first, second, snapshot, kind) && JustPolled(rules, second, third, snapshot, kind)
    ensures KindTasks(rules, third, snapshot, kind) == []
    ensures PollKind(rules, third, snapshot, kind) == Polled([], third.cursors[kind], false)
  {
    hide Poll, Chronological;
    Quiescent(rules.headers, kind, Previous(first, kind), Chronological(snapshot, kind));
  }

  lemma {:induction false} NoTasks(rules: Rules, state: State, snapshot: Snapshot, kinds: seq<Kind>)
    requires forall kind <- kinds :: KindOk(snapshot, kind)
    requires forall kind <- kinds :: KindTasks(rules, state, snapshot, kind) == []
    requires forall kind <- kinds ::
               kind in state.cursors && PollKind(rules, state, snapshot, kind) == Polled([], state.cursors[kind], false)
    ensures Tasks(rules, state, snapshot, kinds) == []
    ensures Gaps(rules, state, snapshot, kinds) == state.gaps
    ensures Cursors(rules, state, snapshot, kinds) == state.cursors
  {
    hide KindTasks, PollKind, KindOk;
    if kinds != [] {
      NoTasks(rules, state, snapshot, kinds[..|kinds| - 1]);
      assert kinds[|kinds| - 1] in kinds;
    }
  }

  /** Three polls of the same files, each committed: the third outbox is empty
      and changes nothing but the time of the last success. */
  lemma Quiescence(rules: Rules, filter: bool, first: State, snapshot: Snapshot, a: Outbox, b: Outbox, c: Outbox,
                   t1: int, t2: int, t3: int)
    requires PreparedBy(rules, filter, first, snapshot, t1, a)
    requires PreparedBy(rules, filter, a.next, snapshot, t2, b)
    requires PreparedBy(rules, filter, b.next, snapshot, t3, c)
    requires forall kind: Kind :: DistinctFiles(snapshot, kind)
    ensures c.batches == []
    ensures c.next == b.next.(lastSuccess := c.next.lastSuccess)
    ensures b.next.gaps == a.next.gaps
  {
    hide EmitAll, KindTasks, PollKind, KindOk, Valid, Tasks, Gaps, Cursors, KINDS, Chronological, DistinctFiles;
    forall kind: Kind
      ensures JustPolled(rules, first, a.next, snapshot, kind) && JustPolled(rules, a.next, b.next, snapshot, kind)
    {
      CursorInvariant(rules, filter, first, snapshot, t1, a, kind);
      CursorInvariant(rules, filter, a.next, snapshot, t2, b, kind);
    }
    forall kind: Kind
      ensures KindTasks(rules, b.next, snapshot, kind) == []
      ensures kind in b.next.cursors
      ensures PollKind(rules, b.next, snapshot, kind) == Polled([], b.next.cursors[kind], false)
      ensures !PollKind(rules, a.next, snapshot, kind).gap
    {
      CursorInvariant(rules, filter, a.next, snapshot, t2, b, kind);
      SilentKind(rules, first, a.next, b.next, snapshot, kind);
      QuietKind(rules, first, a.next, snapshot, kind);
    }
    NoTasks(rules, b.next, snapshot, KINDS);
    NoGaps(rules, a.next, snapshot, KINDS);
    var acc := Unpack(rules, filter, b.next, snapshot, t3, c);
    var _ := Unpack(rules, filter, a.next, snapshot, t2, b);
    EmitNone(rules, filter, t3, Start(b.next));
  }

  lemma {:induction false} NoGaps(rules: Rules, state: State, snapshot: Snapshot, kinds: seq<Kind>)
    requires forall kind <- kinds :: KindOk(snapshot, kind) && !PollKind(rules, state, snapshot, kind).gap
    ensures Gaps(rules, state, snapshot, kinds) == state.gaps
  {
    hide PollKind, KindOk;
    if kinds != [] {
      NoGaps(rules, state, snapshot, kinds[..|kinds| - 1]);
    }
  }
}
