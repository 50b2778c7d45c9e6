/** Why an outbox is never too big to send. */
module Batches {
  import opened Basics
  import opened Sources
  import opened Json
  import opened States
  import opened Rendering
  import opened Prepare
  import Decimal

  // -------------------------------------------------------- stream bounds

  lemma StrBound(s: string)
    ensures Size(Quote(s, true)) <= 6 * Size(s) + 2
    ensures Size(Quote(s, true)) <= 24 * |s| + 2
  {
    hide *;
    EscapeSizes(s);
    QuoteSizes(s, true);
    SizeAtLeastLength(s);
  }

  lemma Separators()
    ensures Size(DEFAULT.comma) == Size(DEFAULT.colon) == 2
    ensures Size(COMPACT.comma) == Size(COMPACT.colon) == 1
    ensures Size("[") == Size("]") == Size("{") == Size("}") == 1
  {
    AsciiSize(", ");
    AsciiSize(": ");
    AsciiSize(",");
    AsciiSize(":");
    AsciiSize("[");
    AsciiSize("]");
    AsciiSize("{");
    AsciiSize("}");
  }

  lemma ArrSize(items: seq<Json>)
    ensures Dumped(Arr(items), DEFAULT) == Size(Items(items, DEFAULT)) + 2
  {
    Separators();
    Bracketed("[", Items(items, DEFAULT), "]");
    hide Size, Items;
  }

  lemma ObjSize(fields: seq<Field>)
    ensures Dumped(Obj(fields), DEFAULT) == Size(Fields(fields, DEFAULT)) + 2
  {
    Separators();
    Bracketed("{", Fields(fields, DEFAULT), "}");
    hide Size, Fields;
  }

  /** A short label with a short value. */
  ghost predicate Short(field: Field) {
    |field.name| <= 12 && field.value.Str? && |field.value.s| <= 12
  }

  lemma {:induction false} ShortFields(fields: seq<Field>)
    requires forall field <- fields :: Short(field)
    ensures Size(Fields(fields, DEFAULT)) <= 600 * |fields|
  {
    if fields == [] {
      assert Fields(fields, DEFAULT) == "";
    } else {
      hide Size, Fields, Quote;
      var first := fields[0];
      assert Short(first);
      StrBound(first.name);
      StrBound(first.value.s);
      assert Dumped(first.value, DEFAULT) == Size(Quote(first.value.s, true));
      ShortFields(fields[1..]);
      Separators();
      FieldsSize(fields, DEFAULT);
    }
  }

  lemma ShortLabels(stream: Stream)
    ensures |Labels(stream)| == 5 && forall field <- Labels(stream) :: Short(field)
  {
    assert |Name(stream.kind)| <= 12;
    assert |LevelName(stream.level)| <= 8;
  }

  lemma PairSize(a: Json, b: Json)
    ensures Dumped(Arr([a, b]), DEFAULT) == Dumped(a, DEFAULT) + Dumped(b, DEFAULT) + 4
  {
    hide Size, Text, Items;
    ArrSize([a, b]);
    Separators();
    ItemsSize([a, b], DEFAULT);
    assert [a, b][1..] == [b];
    ItemsSize([b], DEFAULT);
    assert [b][1..] == [];
    NoItems();
  }

  lemma NoItems()
    ensures Size(Items([], DEFAULT)) == 0
  {
  }

  lemma NoFields()
    ensures Size(Fields([], DEFAULT)) == 0
  {
  }

  lemma SingletonSize(a: Json)
    ensures Dumped(Arr([a]), DEFAULT) == Dumped(a, DEFAULT) + 2
  {
    hide Size, Text, Items;
    ArrSize([a]);
    ItemsSize([a], DEFAULT);
    assert [a][1..] == [];
    NoItems();
  }

  lemma TwoFieldsSize(a: Field, b: Field)
    ensures Dumped(Obj([a, b]), DEFAULT)
         == Size(Quote(a.name, true)) + Dumped(a.value, DEFAULT) + Size(Quote(b.name, true)) + Dumped(b.value, DEFAULT) + 8
  {
    hide Size, Text, Fields, Quote;
    ObjSize([a, b]);
    Separators();
    FieldsSize([a, b], DEFAULT);
    assert [a, b][1..] == [b];
    FieldsSize([b], DEFAULT);
    assert [b][1..] == [];
    NoFields();
  }

  const STREAM_LIMIT := 6 * LINE_LIMIT + 5000

  /** A stream whose line is within the limit stays below 128 KiB even when
      every byte of the line is escaped. */
  lemma StreamBound(stream: Stream)
    requires Size(stream.line) <= LINE_LIMIT && stream.ns < END_OF_TIME
    ensures StreamSize(stream) <= STREAM_LIMIT
  {
    hide Size, Text, Fields, Items, Quote, Labels, Decimal.Print;
    var ns := Decimal.Print(stream.ns);
    assert |ns| <= 21 by {
      assert Decimal.Pow10(6) == 1000000;
      assert Decimal.Pow10(12) == 1000000000000;
      assert Decimal.Pow10(18) == 1000000000000000000;
      assert Decimal.Pow10(21) == 1000000000000000000000;
      Decimal.PrintLength(stream.ns, 21);
    }
    StrBound(ns);
    StrBound(stream.line);
    StrBound("stream");
    StrBound("values");
    ShortLabels(stream);
    ShortFields(Labels(stream));
    ObjSize(Labels(stream));
    PairSize(Str(ns), Str(stream.line));
    SingletonSize(Arr([Str(ns), Str(stream.line)]));
    StrSize(ns);
    StrSize(stream.line);
    TwoFieldsSize(Field("stream", Obj(Labels(stream))), Field("values", Arr([Arr([Str(ns), Str(stream.line)])])));
  }

  lemma StrSize(s: string)
    ensures Dumped(Str(s), DEFAULT) == Size(Quote(s, true))
  {
    hide Size, Quote;
  }

  // ---------------------------------------------------------- batch bounds

  /** What the running size has added up for a batch. */
  function Load(batch: Batch): nat {
    if batch == [] then BATCH_START else Load(batch[..|batch| - 1]) + StreamSize(batch[|batch| - 1])
  }

  ghost predicate Packed(batch: Batch) {
    batch != [] && Load(batch) <= BATCH_BUDGET
  }

  /** The next stream would not have fitted in. */
  ghost predicate Closes(batch: Batch, next: Batch) {
    next != [] && Load(batch) + Dumped(StreamJson(next[0]), DEFAULT) + 2 > 131072
  }

  /** Every batch but the last was closed because it was full. */
  ghost predicate Filled(batches: seq<Batch>) {
    forall i, j | 0 <= i && j == i + 1 < |batches| :: Closes(batches[i], batches[j])
  }

  ghost predicate AccOk(acc: Acc) {
    && acc.batchSize == Load(acc.batch) <= BATCH_BUDGET
    && (forall batch <- acc.batches :: Packed(batch))
    && Filled(acc.batches + [acc.batch])
  }

  lemma FilledSnoc(batches: seq<Batch>, last: Batch, next: Batch)
    requires Filled(batches + [last]) && Closes(last, next)
    ensures Filled(batches + [last] + [next])
  {
    hide Closes;
    var all := batches + [last] + [next];
    forall i, j | 0 <= i && j == i + 1 < |all|
      ensures Closes(all[i], all[j])
    {
      if j < |batches| + 1 {
        assert Closes((batches + [last])[i], (batches + [last])[j]);
      }
    }
  }

  lemma FilledGrows(batches: seq<Batch>, last: Batch, stream: Stream)
    requires Filled(batches + [last])
    ensures Filled(batches + [last + [stream]])
  {
    hide Load, StreamJson;
    var before, after := batches + [last], batches + [last + [stream]];
    forall i, j | 0 <= i && j == i + 1 < |after|
      ensures Closes(after[i], after[j])
    {
      assert Closes(before[i], before[j]);
    }
  }

  lemma LoadSnoc(batch: Batch, stream: Stream)
    ensures Load(batch + [stream]) == Load(batch) + StreamSize(stream)
    ensures Load([]) == BATCH_START
  {
    hide StreamSize;
    assert (batch + [stream])[..|batch|] == batch;
  }

  lemma PushOk(acc: Acc, stream: Stream)
    requires AccOk(acc) && StreamSize(stream) <= STREAM_LIMIT
    ensures AccOk(Push(acc, stream))
    ensures Push(acc, stream).batch != []
  {
    LoadSnoc(acc.batch, stream);
    LoadSnoc([], stream);
    StreamSizeIs(stream);
    hide StreamSize, Filled;
    var after := Push(acc, stream);
    assert [] + [stream] == [stream];
    if acc.batchSize + StreamSize(stream) > BATCH_BUDGET {
      assert acc.batch != [] && Packed(acc.batch);
      assert after.batches == acc.batches + [acc.batch] && after.batch == [stream];
      FilledSnoc(acc.batches, acc.batch, [stream]);
    } else {
      assert after.batches == acc.batches && after.batch == acc.batch + [stream];
      FilledGrows(acc.batches, acc.batch, stream);
    }
  }

  lemma StreamSizeIs(stream: Stream)
    ensures StreamSize(stream) == Dumped(StreamJson(stream), DEFAULT) + 2
  {
    hide StreamJson;
  }

  lemma EmitOk(rules: Rules, filter: bool, now: int, acc: Acc, task: Task)
    requires AccOk(acc) && Emit(rules, filter, now, acc, task).Returned?
    ensures AccOk(Emit(rules, filter, now, acc, task).value)
  {
    hide AccOk, Render, NormalName, Push, StreamSize;
    if NormalName(rules, filter, task).None? {
      var ns := NextNs(now, acc.lastNs);
      RenderedFits(rules, task.kind, task.raw, task.bootstrap, ns);
      var (level, line) := Render(rules, task.kind, task.raw, task.bootstrap, ns).value;
      var stream := Stream(task.kind, level, ns, line);
      StreamBound(stream);
      AccOkLast(acc, ns);
      PushOk(acc.(lastNs := ns), stream);
    } else {
      AccOkNormal(acc, Emit(rules, filter, now, acc, task).value.normal);
    }
  }

  lemma AccOkLast(acc: Acc, ns: nat)
    requires AccOk(acc)
    ensures AccOk(acc.(lastNs := ns))
  {
  }

  lemma AccOkNormal(acc: Acc, normal: map<NormalKey, nat>)
    requires AccOk(acc)
    ensures AccOk(acc.(normal := normal))
  {
  }

  lemma {:induction false} EmitAllOk(rules: Rules, filter: bool, now: int, acc: Acc, tasks: seq<Task>)
    requires AccOk(acc) && EmitAll(rules, filter, now, acc, tasks).Returned?
    ensures AccOk(EmitAll(rules, filter, now, acc, tasks).value)
  {
    hide AccOk, Emit;
    if tasks != [] {
      var front := tasks[..|tasks| - 1];
      EmitAllOk(rules, filter, now, acc, front);
      EmitOk(rules, filter, now, EmitAll(rules, filter, now, acc, front).value, tasks[|tasks| - 1]);
    }
  }

  lemma {:induction false} ItemsAppend(items: seq<Json>, last: Json)
    ensures Size(Items(items + [last], DEFAULT))
         == Size(Items(items, DEFAULT)) + (if items == [] then 0 else 2) + Dumped(last, DEFAULT)
  {
    hide Size, Text, Items;
    Separators();
    NoItems();
    if items == [] {
      assert items + [last] == [last];
      ItemsSize([last], DEFAULT);
      assert [last][1..] == [];
    } else {
      assert (items + [last])[1..] == items[1..] + [last];
      ItemsSize(items + [last], DEFAULT);
      ItemsSize(items, DEFAULT);
      ItemsAppend(items[1..], last);
    }
  }

  /** The running size is never below the real length of the list of streams. */
  lemma {:induction false} LoadCovers(batch: Batch)
    ensures Size(Items(StreamsJson(batch), DEFAULT)) + BATCH_START + (if batch == [] then 0 else 2) <= Load(batch)
  {
    hide Size, Items, StreamJson;
    if batch == [] {
      assert StreamsJson(batch) == [];
      NoItems();
    } else {
      var front, last := batch[..|batch| - 1], batch[|batch| - 1];
      assert StreamsJson(batch) == StreamsJson(front) + [StreamJson(last)];
      ItemsAppend(StreamsJson(front), StreamJson(last));
      assert StreamsJson(front) == [] <==> front == [];
      LoadCovers(front);
    }
  }

  lemma OneFieldSize(a: Field)
    ensures Dumped(Obj([a]), DEFAULT) == Size(Quote(a.name, true)) + Dumped(a.value, DEFAULT) + 4
  {
    hide Size, Text, Fields, Quote;
    ObjSize([a]);
    Separators();
    FieldsSize([a], DEFAULT);
    assert [a][1..] == [];
    NoFields();
  }

  lemma QuotedStreams()
    ensures Size(Quote("streams", true)) == 9
  {
    hide Size;
    Plain("streams");
    AsciiSize("streams");
    QuoteSizes("streams", true);
  }

  /** A packed batch passes the length check of validate_state, and its compact
      form passes the one in push, with half of the limit to spare. */
  lemma PackedFits(batch: Batch)
    requires Packed(batch)
    ensures Dumped(BatchJson(batch), DEFAULT) < Load(batch) <= BATCH_BUDGET
    ensures ValidBatch(batch)
    ensures Dumped(BatchJson(batch), COMPACT) <= MAX_BATCH_BYTES
  {
    assert BatchJson(batch) == Obj([Field("streams", Arr(StreamsJson(batch)))]);
    assert Packed(batch);
    assert batch != [] && Load(batch) <= BATCH_BUDGET;
    assert ValidBatch(batch) <==> Dumped(BatchJson(batch), DEFAULT) <= MAX_BATCH_BYTES;
    hide Size, Text, Items, Fields, Quote, Load, Packed, BatchJson, ValidBatch;
    LoadCovers(batch);
    ArrSize(StreamsJson(batch));
    OneFieldSize(Field("streams", Arr(StreamsJson(batch))));
    QuotedStreams();
    Separators();
    NarrowerStyle(BatchJson(batch), COMPACT, DEFAULT);
  }

  // ------------------------------------------------------- whole outboxes

  lemma StartOk(state: State)
    ensures AccOk(Start(state))
  {
  }

  lemma ClosedPacked(acc: Acc)
    requires AccOk(acc)
    ensures (forall batch <- Closed(acc) :: Packed(batch)) && Filled(Closed(acc))
  {
    hide Load, StreamJson;
    if acc.batch == [] {
      FilledFront(acc.batches, acc.batch);
    }
  }

  lemma FilledFront(batches: seq<Batch>, last: Batch)
    requires Filled(batches + [last])
    ensures Filled(batches)
  {
    hide Closes;
    forall i, j | 0 <= i && j == i + 1 < |batches|
      ensures Closes(batches[i], batches[j])
    {
      assert Closes((batches + [last])[i], (batches + [last])[j]);
    }
  }

  /** Every batch of a prepared outbox holds something, its JSON is within the
      limits of both checks that follow, and it was closed only because the next
      stream would not have fitted in. */
  lemma OutboxSendable(rules: Rules, filter: bool, state: State, snapshot: Snapshot, now: int)
    requires SnapshotOk(snapshot) && state.pending.None?
    requires Prepared(rules, filter, state, snapshot, now).Returned?
    ensures var out := Prepared(rules, filter, state, snapshot, now).value;
            && out.pending.Some?
            && forall batch <- out.pending.value.batches ::
                 && batch != []
                 && Dumped(BatchJson(batch), DEFAULT) < 131072
                 && Dumped(BatchJson(batch), COMPACT) <= 262144
    ensures Filled(Prepared(rules, filter, state, snapshot, now).value.pending.value.batches)
  {
    var tasks := Tasks(rules, state, snapshot, KINDS);
    StartOk(state);
    hide EmitAll, Tasks, AccOk, Valid, BatchJson, Closed, NextState, KINDS, Filled;
    var acc := EmitAll(rules, filter, now, Start(state), tasks).value;
    EmitAllOk(rules, filter, now, Start(state), tasks);
    ClosedPacked(acc);
    var out := Prepared(rules, filter, state, snapshot, now).value;
    assert out.pending.value.batches == Closed(acc);
    forall batch <- Closed(acc)
      ensures batch != [] && Dumped(BatchJson(batch), DEFAULT) < BATCH_BUDGET
      ensures Dumped(BatchJson(batch), COMPACT) <= MAX_BATCH_BYTES
    {
      PackedFits(batch);
    }
  }
}
