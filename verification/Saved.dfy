/** What the JSON of a stream and of a state says: different ones are never
    written alike. */
module Saved {
  import opened Basics
  import opened Sources
  import opened Json
  import opened States
  import Rendering
  import JsonReader
  import Decimal

  lemma LevelsDiffer(a: Level, b: Level)
    requires LevelName(a) == LevelName(b)
    ensures a == b
  {
  }

  lemma PrintOnce(a: nat, b: nat)
    requires Decimal.Print(a) == Decimal.Print(b)
    ensures a == b
  {
    Decimal.PrintValue(a);
    Decimal.PrintValue(b);
  }

  // -------------------------------------------------------------- streams

  /** The first field of this name. */
  function Look(fields: seq<Field>, name: string): Option<Json> {
    if fields == [] then None
    else if fields[0].name == name then Some(fields[0].value)
    else Look(fields[1..], name)
  }

  /** The labels are those that validate_state asks for, and say kind and level. */
  lemma LabelsValid(stream: Stream)
    ensures var labels := Labels(stream);
            && Look(labels, "source") == Some(Str("qnap-filelog"))
            && Look(labels, "environment") == Some(Str("production"))
            && Look(labels, "log_kind") == Some(Str(Name(stream.kind)))
            && Look(labels, "level") == Some(Str(LevelName(stream.level)))
  {
    hide Name, LevelName;
    NamesApart();
    LookAt(Labels(stream), 0);
    LookAt(Labels(stream), 1);
    LookAt(Labels(stream), 3);
    LookAt(Labels(stream), 4);
  }

  lemma {:induction false} LookAt(fields: seq<Field>, i: nat)
    requires i < |fields| && forall k | 0 <= k < i :: fields[k].name != fields[i].name
    ensures Look(fields, fields[i].name) == Some(fields[i].value)
  {
    if i > 0 {
      LookAt(fields[1..], i - 1);
    }
  }

  lemma NamesApart()
    ensures "environment" != "source" && "environment" != "log_kind" && "environment" != "level"
    ensures "source" != "log_kind" && "source" != "level" && "service_name" != "log_kind" && "service_name" != "level"
    ensures "log_kind" != "level"
  {
    assert |"environment"| == 11 && |"source"| == 6 && |"log_kind"| == 8 && |"level"| == 5 && |"service_name"| == 12;
  }

  /** A cursor has the fields that validate_state asks for, each with its value. */
  lemma CursorSays(rules: Rules, cursor: Cursor)
    ensures var fields := CursorJson(rules, cursor).fields;
            && Look(fields, "dev") == Some(Num(Decimal.Print(cursor.dev)))
            && Look(fields, "inode") == Some(Num(Decimal.Print(cursor.inode)))
            && Look(fields, "offset") == Some(Num(Decimal.Print(cursor.offset)))
            && Look(fields, "sha256") == Some(Str(rules.hex(cursor.sha256)))
            && Look(fields, "size_seen") == Some(Num(Decimal.Print(cursor.sizeSeen)))
  {
    hide Decimal.Print;
    var fields := CursorJson(rules, cursor).fields;
    assert "dev"[0] == 'd' && "inode"[0] == 'i' && "offset"[0] == 'o' && |"sha256"| == 6 && |"size_seen"| == 9 && "sha256"[0] == 's';
    assert "size_seen"[0] == 's';
    LookAt(fields, 0);
    LookAt(fields, 1);
    LookAt(fields, 2);
    LookAt(fields, 3);
    LookAt(fields, 4);
  }

  /** So has a state. */
  lemma StateSays(rules: Rules, state: State)
    ensures var fields := StateFields(rules, state);
            && Look(fields, "version") == Some(Num("1"))
            && Look(fields, "cursors") == Some(Obj(CursorFields(rules, state.cursors, KINDS)))
            && Look(fields, "last_ns") == Some(Num(Decimal.Print(state.lastNs)))
            && Look(fields, "last_success") == Some(Num(rules.float(state.lastSuccess)))
            && Look(fields, "sent") == Some(Num(Decimal.Print(state.sent)))
            && Look(fields, "gaps") == Some(Num(Decimal.Print(state.gaps)))
            && Look(fields, "normal") == Some(Obj(NormalFields(state.normal, rules.keys(state.normal))))
            && Look(fields, "pending") == Some(PendingJson(rules, state.pending))
  {
    hide Decimal.Print, CursorFields, NormalFields, PendingJson, KINDS, Look;
    FieldNames();
    forall i | 0 <= i < 8
      ensures Look(StateFields(rules, state), StateFields(rules, state)[i].name) == Some(StateFields(rules, state)[i].value)
    {
      LookAt(StateFields(rules, state), i);
    }
    var fields := StateFields(rules, state);
    assert fields[0].name == "version" && fields[1].name == "cursors" && fields[2].name == "last_ns" && fields[3].name == "last_success";
    assert fields[4].name == "sent" && fields[5].name == "gaps" && fields[6].name == "normal" && fields[7].name == "pending";
  }

  lemma FieldNames()
    ensures var names := ["version", "cursors", "last_ns", "last_success", "sent", "gaps", "normal", "pending"];
            forall i, j | 0 <= i < j < |names| :: names[i] != names[j]
  {
    assert "version"[0] == 'v' && "cursors"[0] == 'c' && "last_ns"[0] == 'l' && |"last_ns"| == 7 && |"last_success"| == 12;
    assert "last_success"[0] == 'l' && "sent"[0] == 's' && "gaps"[0] == 'g' && "normal"[0] == 'n' && "pending"[0] == 'p';
  }

  /** Different streams have different documents. */
  lemma StreamOnce(a: Stream, b: Stream)
    requires StreamJson(a) == StreamJson(b)
    ensures a == b
  {
    hide Name, LevelName;
    var x, y := StreamJson(a), StreamJson(b);
    assert x.fields[0].value.fields[3].value == Str(Name(a.kind)) && y.fields[0].value.fields[3].value == Str(Name(b.kind));
    assert x.fields[0].value.fields[4].value == Str(LevelName(a.level)) && y.fields[0].value.fields[4].value == Str(LevelName(b.level));
    assert x.fields[1].value.items[0].items == [Str(Decimal.Print(a.ns)), Str(a.line)];
    assert y.fields[1].value.items[0].items == [Str(Decimal.Print(b.ns)), Str(b.line)];
    assert x.fields[1].value.items[0].items[0] == Str(Decimal.Print(a.ns)) && y.fields[1].value.items[0].items[0] == Str(Decimal.Print(b.ns));
    assert x.fields[1].value.items[0].items[1] == Str(a.line) && y.fields[1].value.items[0].items[1] == Str(b.line);
    NamesDiffer(a.kind, b.kind);
    LevelsDiffer(a.level, b.level);
    PrintOnce(a.ns, b.ns);
  }

  lemma BatchOnce(a: Batch, b: Batch)
    requires BatchJson(a) == BatchJson(b)
    ensures a == b
  {
    hide StreamJson;
    var x, y := StreamsJson(a), StreamsJson(b);
    assert BatchJson(a).fields[0].value == Arr(x) && BatchJson(b).fields[0].value == Arr(y);
    assert |a| == |x| && |b| == |y| && x == y;
    forall i | 0 <= i < |a|
      ensures a[i] == b[i]
    {
      assert StreamJson(a[i]) == x[i] == y[i] == StreamJson(b[i]);
      StreamOnce(a[i], b[i]);
    }
  }

  lemma BatchesOnce(a: seq<Batch>, b: seq<Batch>)
    requires BatchesJson(a) == BatchesJson(b)
    ensures a == b
  {
    hide BatchJson;
    var x, y := BatchesJson(a), BatchesJson(b);
    assert |a| == |x| && |b| == |y|;
    forall i | 0 <= i < |a|
      ensures a[i] == b[i]
    {
      assert BatchJson(a[i]) == x[i] == y[i] == BatchJson(b[i]);
      BatchOnce(a[i], b[i]);
    }
  }

  // --------------------------------------------------------------- states

  /** Digests and floating point numbers are written so that different ones differ,
      and a dictionary lists each of its keys once. */
  ghost predicate Faithful(rules: Rules) {
    && (forall a, b | rules.hex(a) == rules.hex(b) :: a == b)
    && (forall x: real, y: real | rules.float(x) == rules.float(y) :: x == y)
    && (forall x: real :: IsNumber(rules.float(x)))
    && forall m: map<NormalKey, nat> :: Lists(rules.keys(m), m)
  }

  ghost predicate IsNumber(text: string) {
    text != "" && forall i | 0 <= i < |text| :: JsonReader.NumberChar(text[i])
  }

  ghost predicate Lists(keys: seq<NormalKey>, m: map<NormalKey, nat>) {
    (forall key <- keys :: key in m) && (forall key <- m :: key in keys) && forall i, j | 0 <= i < j < |keys| :: keys[i] != keys[j]
  }

  lemma CursorOnce(rules: Rules, a: Cursor, b: Cursor)
    requires Faithful(rules) && CursorJson(rules, a) == CursorJson(rules, b)
    ensures a == b
  {
    var x, y := CursorJson(rules, a).fields, CursorJson(rules, b).fields;
    assert x[0] == y[0] && x[1] == y[1] && x[2] == y[2] && x[3] == y[3] && x[4] == y[4];
    PrintOnce(a.dev, b.dev);
    PrintOnce(a.inode, b.inode);
    PrintOnce(a.offset, b.offset);
    PrintOnce(a.sizeSeen, b.sizeSeen);
    hide Lists, IsNumber;
  }

  /** Every field of the list is of one of these kinds. */
  lemma {:induction false} CursorNames(rules: Rules, cursors: map<Kind, Cursor>, kinds: seq<Kind>, kind: Kind)
    requires kind !in kinds
    ensures forall f <- CursorFields(rules, cursors, kinds) :: f.name != Name(kind)
  {
    hide Name, CursorJson;
    if kinds != [] {
      assert kinds[0] in kinds && forall k <- kinds[1..] :: k in kinds;
      CursorNames(rules, cursors, kinds[1..], kind);
      if Name(kinds[0]) == Name(kind) {
        NamesDiffer(kinds[0], kind);
      }
    }
  }

  lemma {:induction false} CursorsOnce(rules: Rules, a: map<Kind, Cursor>, b: map<Kind, Cursor>, kinds: seq<Kind>)
    requires Faithful(rules) && CursorFields(rules, a, kinds) == CursorFields(rules, b, kinds)
    requires forall i, j | 0 <= i < j < |kinds| :: kinds[i] != kinds[j]
    ensures forall kind <- kinds :: (kind in a <==> kind in b) && (kind in a ==> a[kind] == b[kind])
  {
    hide *;
    if kinds != [] {
      var kind, others := kinds[0], kinds[1..];
      assert kinds == [kind] + others;
      CursorsCons(rules, a, kind, others);
      CursorsCons(rules, b, kind, others);
      CursorNames(rules, a, others, kind);
      CursorNames(rules, b, others, kind);
      SameHead(rules, a, b, kind, CursorFields(rules, a, others), CursorFields(rules, b, others));
      CursorsOnce(rules, a, b, others);
    }
  }

  lemma CursorsCons(rules: Rules, cursors: map<Kind, Cursor>, kind: Kind, others: seq<Kind>)
    ensures CursorFields(rules, cursors, [kind] + others)
         == (if kind in cursors then [Field(Name(kind), CursorJson(rules, cursors[kind]))] else [])
            + CursorFields(rules, cursors, others)
  {
    hide Name, CursorJson;
    assert ([kind] + others)[1..] == others;
  }

  lemma SameHead(rules: Rules, a: map<Kind, Cursor>, b: map<Kind, Cursor>, kind: Kind, x: seq<Field>, y: seq<Field>)
    requires Faithful(rules)
    requires (forall f <- x :: f.name != Name(kind)) && (forall f <- y :: f.name != Name(kind))
    requires (if kind in a then [Field(Name(kind), CursorJson(rules, a[kind]))] else []) + x
          == (if kind in b then [Field(Name(kind), CursorJson(rules, b[kind]))] else []) + y
    ensures (kind in a <==> kind in b) && (kind in a ==> a[kind] == b[kind]) && x == y
  {
    hide Faithful, Name, CursorJson;
    HasName(rules, a, kind, x);
    HasName(rules, b, kind, y);
    if kind in a && kind in b {
      var f, g := Field(Name(kind), CursorJson(rules, a[kind])), Field(Name(kind), CursorJson(rules, b[kind]));
      assert ([f] + x)[0] == f && ([f] + x)[1..] == x;
      assert ([g] + y)[0] == g && ([g] + y)[1..] == y;
      CursorOnce(rules, a[kind], b[kind]);
    } else {
      assert [] + x == x && [] + y == y;
    }
  }

  lemma HasName(rules: Rules, cursors: map<Kind, Cursor>, kind: Kind, rest: seq<Field>)
    requires forall f <- rest :: f.name != Name(kind)
    ensures (exists f <- (if kind in cursors then [Field(Name(kind), CursorJson(rules, cursors[kind]))] else []) + rest :: f.name == Name(kind))
       <==> kind in cursors
  {
    hide Name, CursorJson;
    if kind in cursors {
      var f := Field(Name(kind), CursorJson(rules, cursors[kind]));
      assert f in [f] + rest;
    } else {
      assert [] + rest == rest;
    }
  }

  function KeyText(key: NormalKey): string {
    Name(key.kind) + "/" + key.pattern
  }

  lemma NoSlash(kind: Kind)
    ensures '/' !in Name(kind)
  {
  }

  lemma KeyOnce(a: NormalKey, b: NormalKey)
    requires KeyText(a) == KeyText(b)
    ensures a == b
  {
    NoSlash(a.kind);
    NoSlash(b.kind);
    hide Name;
    SlashPlace(Name(a.kind), a.pattern, Name(b.kind), b.pattern);
    NamesDiffer(a.kind, b.kind);
  }

  lemma SlashPlace(a: string, x: string, b: string, y: string)
    requires a + "/" + x == b + "/" + y && '/' !in a && '/' !in b
    ensures a == b && x == y
  {
    var s := a + "/" + x;
    assert s[|a|] == '/' && (b + "/" + y)[|b|] == '/';
    assert forall i | 0 <= i < |a| :: s[i] == a[i] && a[i] in a;
    assert forall i | 0 <= i < |b| :: (b + "/" + y)[i] == b[i] && b[i] in b;
    assert |a| == |b|;
    assert s[..|a|] == a && (b + "/" + y)[..|b|] == b;
    assert s[|a| + 1..] == x && (b + "/" + y)[|b| + 1..] == y;
  }

  lemma {:induction false} NormalFieldsAt(normal: map<NormalKey, nat>, keys: seq<NormalKey>)
    requires forall key <- keys :: key in normal
    ensures |NormalFields(normal, keys)| == |keys|
    ensures forall i | 0 <= i < |keys| ::
              keys[i] in normal && NormalFields(normal, keys)[i] == Field(KeyText(keys[i]), Num(Decimal.Print(normal[keys[i]])))
  {
    hide Name, Decimal.Print;
    if keys != [] {
      assert keys[0] in keys && forall key <- keys[1..] :: key in keys;
      NormalFieldsAt(normal, keys[1..]);
    }
  }

  lemma NormalsOnce(rules: Rules, a: map<NormalKey, nat>, b: map<NormalKey, nat>)
    requires Faithful(rules) && NormalFields(a, rules.keys(a)) == NormalFields(b, rules.keys(b))
    ensures a == b
  {
    hide Decimal.Print, KeyText, IsNumber, NormalFields;
    var x, y := rules.keys(a), rules.keys(b);
    assert Lists(x, a) && Lists(y, b);
    NormalFieldsAt(a, x);
    NormalFieldsAt(b, y);
    forall i | 0 <= i < |x|
      ensures x[i] == y[i] && a[x[i]] == b[x[i]]
    {
      KeyOnce(x[i], y[i]);
      PrintOnce(a[x[i]], b[y[i]]);
    }
    assert x == y;
    forall key <- a
      ensures key in b && a[key] == b[key]
    {
      var i :| 0 <= i < |x| && x[i] == key;
    }
    assert a.Keys == b.Keys;
  }

  lemma KindsOnce()
    ensures forall i, j | 0 <= i < j < |KINDS| :: KINDS[i] != KINDS[j]
  {
  }

  /** Different states have different documents. */
  lemma {:induction false} StateOnce(rules: Rules, a: State, b: State)
    requires Faithful(rules) && StateFields(rules, a) == StateFields(rules, b)
    ensures a == b
    decreases a
  {
    hide *;
    FieldsAlike(rules, a, b);
    KindsOnce();
    CursorsOnce(rules, a.cursors, b.cursors, KINDS);
    AllKinds(a.cursors, b.cursors);
    NormalsOnce(rules, a.normal, b.normal);
    PrintOnce(a.lastNs, b.lastNs);
    PrintOnce(a.sent, b.sent);
    PrintOnce(a.gaps, b.gaps);
    FloatOnce(rules, a.lastSuccess, b.lastSuccess);
    PendingAlike(rules, a.pending, b.pending);
    if a.pending.Some? {
      BatchesOnce(a.pending.value.batches, b.pending.value.batches);
      StateOnce(rules, a.pending.value.next, b.pending.value.next);
    }
  }

  lemma FieldsAlike(rules: Rules, a: State, b: State)
    requires StateFields(rules, a) == StateFields(rules, b)
    ensures CursorFields(rules, a.cursors, KINDS) == CursorFields(rules, b.cursors, KINDS)
    ensures NormalFields(a.normal, rules.keys(a.normal)) == NormalFields(b.normal, rules.keys(b.normal))
    ensures Decimal.Print(a.lastNs) == Decimal.Print(b.lastNs) && Decimal.Print(a.sent) == Decimal.Print(b.sent)
    ensures Decimal.Print(a.gaps) == Decimal.Print(b.gaps) && rules.float(a.lastSuccess) == rules.float(b.lastSuccess)
    ensures PendingJson(rules, a.pending) == PendingJson(rules, b.pending)
  {
    hide CursorFields, NormalFields, Decimal.Print, PendingJson, KINDS;
    var x, y := StateFields(rules, a), StateFields(rules, b);
    assert x[1] == y[1] && x[2] == y[2] && x[3] == y[3] && x[4] == y[4] && x[5] == y[5] && x[6] == y[6] && x[7] == y[7];
  }

  lemma AllKinds(a: map<Kind, Cursor>, b: map<Kind, Cursor>)
    requires forall kind <- KINDS :: (kind in a <==> kind in b) && (kind in a ==> a[kind] == b[kind])
    ensures a == b
  {
    forall kind: Kind
      ensures kind in a <==> kind in b
      ensures kind in a ==> a[kind] == b[kind]
    {
      EveryKindListed(kind);
    }
    hide KINDS;
    assert a.Keys == b.Keys;
  }

  lemma FloatOnce(rules: Rules, x: real, y: real)
    requires Faithful(rules) && rules.float(x) == rules.float(y)
    ensures x == y
  {
    hide Lists, IsNumber;
  }

  lemma PendingAlike(rules: Rules, a: Option<Outbox>, b: Option<Outbox>)
    requires PendingJson(rules, a) == PendingJson(rules, b)
    ensures a.Some? <==> b.Some?
    ensures a.Some? ==> BatchesJson(a.value.batches) == BatchesJson(b.value.batches)
                        && StateFields(rules, a.value.next) == StateFields(rules, b.value.next)
  {
    hide BatchesJson, StateFields;
    if a.Some? && b.Some? {
      var x, y := PendingJson(rules, a), PendingJson(rules, b);
      assert x.fields[0] == y.fields[0] && x.fields[1] == y.fields[1];
    }
  }

  // ------------------------------------------------------------- the text

  lemma PrintsNumber(n: nat)
    ensures IsNumber(Decimal.Print(n))
  {
    assert Decimal.Numeral(Decimal.Print(n));
    forall i | 0 <= i < |Decimal.Print(n)|
      ensures JsonReader.NumberChar(Decimal.Print(n)[i])
    {
      assert Decimal.Digit(Decimal.Print(n)[i]);
    }
    hide Decimal.Print;
  }

  lemma NumIs(text: string)
    ensures JsonReader.Numbers(Num(text)) <==> IsNumber(text)
  {
  }

  lemma WithinCons(field: Field, rest: seq<Field>)
    ensures JsonReader.NumbersWithin([field] + rest) <==> JsonReader.Numbers(field.value) && JsonReader.NumbersWithin(rest)
    ensures JsonReader.NumbersWithin([])
  {
    assert ([field] + rest)[1..] == rest;
    hide JsonReader.Numbers;
  }

  lemma {:induction false} AllWithin(fields: seq<Field>)
    requires forall i | 0 <= i < |fields| :: JsonReader.Numbers(fields[i].value)
    ensures JsonReader.NumbersWithin(fields)
  {
    hide JsonReader.Numbers;
    if fields != [] {
      AllWithin(fields[1..]);
    }
  }

  lemma {:induction false} AllIn(items: seq<Json>)
    requires forall i | 0 <= i < |items| :: JsonReader.Numbers(items[i])
    ensures JsonReader.NumbersIn(items)
  {
    hide JsonReader.Numbers;
    if items != [] {
      AllIn(items[1..]);
    }
  }

  lemma ObjIs(fields: seq<Field>, items: seq<Json>)
    ensures JsonReader.Numbers(Obj(fields)) <==> JsonReader.NumbersWithin(fields)
    ensures JsonReader.Numbers(Arr(items)) <==> JsonReader.NumbersIn(items)
  {
    hide JsonReader.NumbersWithin, JsonReader.NumbersIn;
  }

  lemma StrIs(s: string)
    ensures JsonReader.Numbers(Str(s)) && JsonReader.Numbers(Null)
  {
  }

  lemma StreamNumbers(stream: Stream)
    ensures JsonReader.Numbers(StreamJson(stream))
  {
    hide JsonReader.Numbers, JsonReader.NumbersIn, JsonReader.NumbersWithin, Name, LevelName, Decimal.Print;
    forall s: string
      ensures JsonReader.Numbers(Str(s))
    {
      StrIs(s);
    }
    AllWithin(Labels(stream));
    ObjIs(Labels(stream), []);
    var values := [Str(Decimal.Print(stream.ns)), Str(stream.line)];
    AllIn(values);
    ObjIs([], values);
    AllIn([Arr(values)]);
    ObjIs([], [Arr(values)]);
    AllWithin(StreamJson(stream).fields);
    ObjIs(StreamJson(stream).fields, []);
  }

  lemma BatchNumbers(batch: Batch)
    ensures JsonReader.Numbers(BatchJson(batch))
  {
    hide JsonReader.Numbers, JsonReader.NumbersIn, JsonReader.NumbersWithin, StreamJson;
    forall i | 0 <= i < |batch|
      ensures JsonReader.Numbers(StreamsJson(batch)[i])
    {
      StreamNumbers(batch[i]);
    }
    AllIn(StreamsJson(batch));
    ObjIs([], StreamsJson(batch));
    AllWithin(BatchJson(batch).fields);
    ObjIs(BatchJson(batch).fields, []);
  }

  lemma CursorNumbers(rules: Rules, cursor: Cursor)
    ensures JsonReader.Numbers(CursorJson(rules, cursor))
  {
    hide JsonReader.Numbers, JsonReader.NumbersWithin, Decimal.Print, IsNumber;
    PrintsNumber(cursor.dev);
    PrintsNumber(cursor.inode);
    PrintsNumber(cursor.offset);
    PrintsNumber(cursor.sizeSeen);
    NumIs(Decimal.Print(cursor.dev));
    NumIs(Decimal.Print(cursor.inode));
    NumIs(Decimal.Print(cursor.offset));
    NumIs(Decimal.Print(cursor.sizeSeen));
    StrIs(rules.hex(cursor.sha256));
    AllWithin(CursorJson(rules, cursor).fields);
    ObjIs(CursorJson(rules, cursor).fields, []);
  }

  lemma {:induction false} CursorsNumbers(rules: Rules, cursors: map<Kind, Cursor>, kinds: seq<Kind>)
    ensures JsonReader.NumbersWithin(CursorFields(rules, cursors, kinds))
  {
    hide JsonReader.Numbers, JsonReader.NumbersWithin, Name, CursorJson;
    if kinds == [] {
      WithinCons(Field("", Null), []);
    } else {
      var rest := CursorFields(rules, cursors, kinds[1..]);
      CursorsNumbers(rules, cursors, kinds[1..]);
      if kinds[0] in cursors {
        CursorNumbers(rules, cursors[kinds[0]]);
        WithinCons(Field(Name(kinds[0]), CursorJson(rules, cursors[kinds[0]])), rest);
      } else {
        assert [] + rest == rest;
      }
    }
  }

  lemma {:induction false} NormalNumbers(normal: map<NormalKey, nat>, keys: seq<NormalKey>)
    ensures JsonReader.NumbersWithin(NormalFields(normal, keys))
  {
    hide JsonReader.Numbers, JsonReader.NumbersWithin, Name, Decimal.Print, IsNumber;
    if keys == [] {
      WithinCons(Field("", Null), []);
    } else {
      var rest := NormalFields(normal, keys[1..]);
      NormalNumbers(normal, keys[1..]);
      if keys[0] in normal {
        var text := Decimal.Print(normal[keys[0]]);
        PrintsNumber(normal[keys[0]]);
        NumIs(text);
        WithinCons(Field(Name(keys[0].kind) + "/" + keys[0].pattern, Num(text)), rest);
      } else {
        assert [] + rest == rest;
      }
    }
  }

  lemma {:induction false} StateNumbers(rules: Rules, state: State)
    requires Faithful(rules)
    ensures JsonReader.Numbers(StateJson(rules, state))
    decreases state
  {
    hide *;
    if state.pending.Some? {
      var Outbox(batches, next) := state.pending.value;
      StateNumbers(rules, next);
      OutboxNumbers(rules, state.pending, batches, next);
    } else {
      NoOutboxNumbers(rules);
    }
    assert state.pending.None? ==> state.pending == None;
    FieldNumbers(rules, state);
  }

  lemma NoOutboxNumbers(rules: Rules)
    ensures JsonReader.Numbers(PendingJson(rules, None))
  {
  }

  lemma OutboxNumbers(rules: Rules, pending: Option<Outbox>, batches: seq<Batch>, next: State)
    requires pending == Some(Outbox(batches, next)) && JsonReader.Numbers(StateJson(rules, next))
    ensures JsonReader.Numbers(PendingJson(rules, pending))
  {
    hide JsonReader.Numbers, JsonReader.NumbersIn, JsonReader.NumbersWithin, BatchJson, StateFields;
    forall i | 0 <= i < |batches|
      ensures JsonReader.Numbers(BatchesJson(batches)[i])
    {
      BatchNumbers(batches[i]);
    }
    AllIn(BatchesJson(batches));
    ObjIs([], BatchesJson(batches));
    AllWithin(PendingJson(rules, pending).fields);
    ObjIs(PendingJson(rules, pending).fields, []);
  }

  lemma FloatNumber(rules: Rules, x: real)
    requires Faithful(rules)
    ensures IsNumber(rules.float(x))
  {
    hide Lists, IsNumber;
  }

  lemma OneIsNumber()
    ensures IsNumber("1")
  {
  }

  lemma FieldNumbers(rules: Rules, state: State)
    requires Faithful(rules) && JsonReader.Numbers(PendingJson(rules, state.pending))
    ensures JsonReader.Numbers(StateJson(rules, state))
  {
    OneIsNumber();
    FloatNumber(rules, state.lastSuccess);
    hide JsonReader.Numbers, JsonReader.NumbersIn, JsonReader.NumbersWithin, PendingJson, Decimal.Print, IsNumber, CursorFields,
      NormalFields, Faithful, KINDS;
    PrintsNumber(state.lastNs);
    PrintsNumber(state.sent);
    PrintsNumber(state.gaps);
    NumIs("1");
    NumIs(Decimal.Print(state.lastNs));
    NumIs(Decimal.Print(state.sent));
    NumIs(Decimal.Print(state.gaps));
    NumIs(rules.float(state.lastSuccess));
    CursorsNumbers(rules, state.cursors, KINDS);
    NormalNumbers(state.normal, rules.keys(state.normal));
    ObjIs(CursorFields(rules, state.cursors, KINDS), []);
    ObjIs(NormalFields(state.normal, rules.keys(state.normal)), []);
    AllWithin(StateFields(rules, state));
    ObjIs(StateFields(rules, state), []);
  }

  /** A state file determines its state: two states are never written as the same
      text, and the text is that of the state's document. */
  lemma StateTextOnce(rules: Rules, a: State, b: State)
    requires Faithful(rules) && Text(StateJson(rules, a), COMPACT) == Text(StateJson(rules, b), COMPACT)
    ensures a == b
    ensures JsonReader.ReadValue(Text(StateJson(rules, a), COMPACT)) == Some((StateJson(rules, a), ""))
  {
    hide *;
    StateNumbers(rules, a);
    StateNumbers(rules, b);
    CompactOk();
    JsonReader.TextOnce(StateJson(rules, a), StateJson(rules, b), COMPACT);
    JsonReader.TextRead(StateJson(rules, a), COMPACT, "");
    assert Text(StateJson(rules, a), COMPACT) + "" == Text(StateJson(rules, a), COMPACT);
    SameFields(rules, a, b);
    StateOnce(rules, a, b);
  }

  lemma CompactOk()
    ensures JsonReader.Separated(COMPACT) && JsonReader.Ends("")
  {
  }

  lemma SameFields(rules: Rules, a: State, b: State)
    requires StateJson(rules, a) == StateJson(rules, b)
    ensures StateFields(rules, a) == StateFields(rules, b)
  {
    hide StateFields;
  }

  /** What is pushed to Loki determines the batch. */
  lemma BatchTextOnce(a: Batch, b: Batch)
    requires Text(BatchJson(a), COMPACT) == Text(BatchJson(b), COMPACT)
    ensures a == b
  {
    hide *;
    BatchNumbers(a);
    BatchNumbers(b);
    CompactOk();
    JsonReader.TextOnce(BatchJson(a), BatchJson(b), COMPACT);
    BatchOnce(a, b);
  }

  /** A line that is sent is read back as the object it was made from. */
  lemma LineRead(text: string, n: nat, file: string, bootstrap: bool, observed: string, stamp: Option<string>)
    ensures var document := Rendering.Document(text, n, file, bootstrap, observed, stamp);
            JsonReader.ReadValue(Text(document, COMPACT)) == Some((document, ""))
  {
    hide JsonReader.Numbers, JsonReader.NumbersIn, JsonReader.NumbersWithin, JsonReader.ReadValue, Text, Rendering.HalfLength;
    var document := Rendering.Document(text, n, file, bootstrap, observed, stamp);
    forall s: string, b: bool
      ensures JsonReader.Numbers(Str(s)) && JsonReader.Numbers(Bool(b)) && JsonReader.Numbers(Null)
    {
      StrIs(s);
      BoolIs(b);
    }
    AllWithin(document.fields);
    ObjIs(document.fields, []);
    CompactOk();
    JsonReader.TextRead(document, COMPACT, "");
    assert Text(document, COMPACT) + "" == Text(document, COMPACT);
  }

  lemma BoolIs(b: bool)
    ensures JsonReader.Numbers(Bool(b))
  {
  }
}
