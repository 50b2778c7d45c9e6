/** The snapshot framing: a magic line, one header per slot followed by that
    many payload bytes, and an END line. */
module Framing {
  import opened Basics
  import opened Sources
  import opened Records
  import Decimal
  import Texts

  const MAX_SNAPSHOT := 24 * 1024 * 1024 + 16384
  const WINDOW := 256
  const SPACE: byte := 32

  function Ascii(s: string): bytes {
    seq(|s|, i requires 0 <= i < |s| => if s[i] as int < 128 then s[i] as int else 63)
  }

  function Chars(field: bytes): string {
    seq(|field|, i requires 0 <= i < |field| => field[i] as char)
  }

  const MAGIC := Ascii("NASLOG1\n")
  const END := Ascii("END\n")

  datatype Header = Absent | File(dev: nat, inode: nat, size: nat, mtime: nat)

  predicate Number(field: bytes) {
    |field| <= 18 && Decimal.Numeral(Chars(field))
  }

  /** The header line of a slot, without its newline. */
  function ParseHeader(slot: Slot, line: bytes): Option<Header> {
    Interpret(slot, Split(line, SPACE))
  }

  function Interpret(slot: Slot, fields: seq<bytes>): Option<Header> {
    var kind, gen := Ascii(Name(slot.kind)), Ascii(GenName(slot.gen));
    if fields == [Ascii("M"), kind, gen] then
      if slot.gen == Current then None else Some(Absent)
    else if |fields| != 7 || fields[..3] != [Ascii("F"), kind, gen] || !(forall k | 3 <= k < 7 :: Number(fields[k])) then None
    else Some(File(Decimal.Value(Chars(fields[3])), Decimal.Value(Chars(fields[4])),
                   Decimal.Value(Chars(fields[5])), Decimal.Value(Chars(fields[6]))))
  }

  /** The bytes in which the next header has to end. */
  function Window(data: bytes, pos: nat): bytes
    requires pos <= |data|
  {
    data[pos..Min(pos + WINDOW, |data|)]
  }

  /** What follows a header: the payload, if any, and the next position. */
  function Body(data: bytes, body: nat, header: Option<Header>): (r: Option<(Option<Rec>, nat)>)
    requires body <= |data|
    ensures r.Some? ==> body <= r.value.1 <= |data|
  {
    match header
    case None => None
    case Some(Absent) => Some((None, body))
    case Some(File(dev, inode, size, mtime)) =>
      if size > MAX_FILE || body + size > |data| then None
      else Some((Some(Rec(dev, inode, mtime, data[body..body + size])), body + size))
  }

  /** One slot: what it holds and where the next header starts. */
  function ParseSlot(data: bytes, pos: nat, slot: Slot): (r: Option<(Option<Rec>, nat)>)
    requires pos <= |data|
    ensures r.Some? ==> pos < r.value.1 <= |data|
  {
    var window := Window(data, pos);
    var i := Find(window, NEWLINE);
    if i == |window| then None else Body(data, pos + i + 1, ParseHeader(slot, window[..i]))
  }

  function ParseSlots(data: bytes, pos: nat, slots: seq<Slot>, records: Snapshot): Option<Snapshot>
    requires pos <= |data|
    decreases |slots|
  {
    if slots == [] then if data[pos..] == END then Some(records) else None
    else
      match ParseSlot(data, pos, slots[0])
      case None => None
      case Some((rec, next)) => ParseSlots(data, next, slots[1..], records[slots[0] := rec])
  }

  function Parse(data: bytes): Option<Snapshot> {
    if |data| > MAX_SNAPSHOT || !(MAGIC <= data) then None
    else ParseSlots(data, |MAGIC|, SLOTS, map[])
  }

  /** parse_snapshot, each exception as None. */
  method ParseSnapshot(data: bytes) returns (r: Option<Snapshot>)
    ensures r == Parse(data)
  {
    if |data| > MAX_SNAPSHOT || !(MAGIC <= data) {
      return None;
    }
    r := ParseBody(data, |MAGIC|, SLOTS);
  }

  /** The loop over the slots and the check of the trailer. */
  method ParseBody(data: bytes, start: nat, slots: seq<Slot>) returns (r: Option<Snapshot>)
    requires start <= |data|
    ensures r == ParseSlots(data, start, slots, map[])
  {
    hide ParseHeader, ParseSlots, END, MAX_FILE;
    var pos, records: Snapshot := start, map[];
    assert slots[0..] == slots;
    for n := 0 to |slots|
      invariant 0 <= pos <= |data|
      invariant ParseSlots(data, start, slots, map[]) == ParseSlots(data, pos, slots[n..], records)
    {
      var slot := slots[n];
      TakeSlot(data, pos, slots, n, records);
      var window := Window(data, pos);
      var i := Find(window, NEWLINE);
      if i == |window| {
        return None;
      }
      var header := ParseHeader(slot, window[..i]);
      pos := pos + i + 1;
      match header
      case None =>
        return None;
      case Some(Absent) =>
        records := records[slot := None];
      case Some(File(dev, inode, size, mtime)) =>
        if size > MAX_FILE || pos + size > |data| {
          return None;
        }
        records := records[slot := Some(Rec(dev, inode, mtime, data[pos..pos + size]))];
        pos := pos + size;
    }
    NoSlots(data, pos, slots, records);
    if data[pos..] != END {
      return None;
    }
    return Some(records);
  }

  lemma TakeSlot(data: bytes, pos: nat, slots: seq<Slot>, n: nat, records: Snapshot)
    requires pos <= |data| && n < |slots|
    ensures ParseSlots(data, pos, slots[n..], records)
         == match ParseSlot(data, pos, slots[n])
            case None => None
            case Some((rec, next)) => ParseSlots(data, next, slots[n + 1..], records[slots[n] := rec])
  {
    hide ParseSlot;
    assert slots[n..][1..] == slots[n + 1..];
  }

  lemma NoSlots(data: bytes, pos: nat, slots: seq<Slot>, records: Snapshot)
    requires pos <= |data|
    ensures ParseSlots(data, pos, slots[|slots|..], records) == if data[pos..] == END then Some(records) else None
  {
  }

  // ------------------------------------------------------------- printing

  function Join(fields: seq<bytes>): bytes
    requires fields != []
  {
    if |fields| == 1 then fields[0] else fields[0] + [SPACE] + Join(fields[1..])
  }

  function HeaderFields(slot: Slot, rec: Option<Rec>): (fields: seq<bytes>)
    ensures fields != []
  {
    var kind, gen := Ascii(Name(slot.kind)), Ascii(GenName(slot.gen));
    match rec
    case None => [Ascii("M"), kind, gen]
    case Some(Rec(dev, inode, mtime, data)) =>
      [Ascii("F"), kind, gen, Ascii(Decimal.Print(dev)), Ascii(Decimal.Print(inode)),
       Ascii(Decimal.Print(|data|)), Ascii(Decimal.Print(mtime))]
  }

  function PrintSlot(slot: Slot, rec: Option<Rec>): bytes {
    Join(HeaderFields(slot, rec)) + [NEWLINE] + Payload(rec)
  }

  function PrintSlots(slots: seq<Slot>, records: Snapshot): bytes
    requires forall slot <- slots :: slot in records
  {
    if slots == [] then END
    else
      assert forall slot <- slots[1..] :: slot in slots;
      PrintSlot(slots[0], records[slots[0]]) + PrintSlots(slots[1..], records)
  }

  /** The form the NAS side prints. */
  function PrintSnapshot(records: Snapshot): bytes
    requires forall slot <- SLOTS :: slot in records
  {
    MAGIC + PrintSlots(SLOTS, records)
  }

  const FIELD_LIMIT: nat := 1000000000000000000

  /** Within the limits of the format; payload bytes are unrestricted. */
  predicate Printable(slot: Slot, rec: Option<Rec>) {
    match rec
    case None => slot.gen != Current
    case Some(Rec(dev, inode, mtime, data)) =>
      dev < FIELD_LIMIT && inode < FIELD_LIMIT && mtime < FIELD_LIMIT && |data| <= MAX_FILE
  }

  ghost predicate Plain(field: bytes) {
    SPACE !in field && NEWLINE !in field
  }

  lemma {:induction false} FindAt(a: bytes, b: byte, rest: bytes)
    requires b !in a
    ensures Find(a + [b] + rest, b) == |a|
  {
    if a != [] {
      assert (a + [b] + rest)[1..] == a[1..] + [b] + rest;
      assert a == [a[0]] + a[1..];
      FindAt(a[1..], b, rest);
    }
  }

  lemma {:induction false} FindNone(a: bytes, b: byte)
    requires b !in a
    ensures Find(a, b) == |a|
  {
    if a != [] {
      FindNone(a[1..], b);
    }
  }

  /** Splitting undoes joining when no field holds the separator. */
  lemma SplitFirst(first: bytes, rest: bytes)
    requires SPACE !in first
    ensures Split(first + [SPACE] + rest, SPACE) == [first] + Split(rest, SPACE)
  {
    hide Find;
    FindAt(first, SPACE, rest);
    var joined := first + [SPACE] + rest;
    assert joined[..|first|] == first;
    assert joined[|first| + 1..] == rest;
  }

  lemma {:induction false} SplitJoin(fields: seq<bytes>)
    requires fields != [] && forall k | 0 <= k < |fields| :: SPACE !in fields[k]
    ensures Split(Join(fields), SPACE) == fields
  {
    if |fields| == 1 {
      FindNone(fields[0], SPACE);
    } else {
      var first, others := fields[0], fields[1..];
      assert SPACE !in first;
      SplitJoin(others);
      SplitFirst(first, Join(others));
      assert Join(fields) == first + [SPACE] + Join(others);
      assert fields == [first] + others;
    }
  }

  lemma {:induction false} JoinPlain(fields: seq<bytes>, limit: nat)
    requires fields != [] && forall k | 0 <= k < |fields| :: NEWLINE !in fields[k] && |fields[k]| <= limit
    ensures NEWLINE !in Join(fields)
    ensures |Join(fields)| < |fields| * (limit + 1)
  {
    if |fields| > 1 {
      JoinPlain(fields[1..], limit);
    }
  }

  lemma CharsAscii(s: string)
    requires forall i | 0 <= i < |s| :: s[i] as int < 128
    ensures Chars(Ascii(s)) == s
  {
  }

  lemma NumberField(n: nat)
    requires n < FIELD_LIMIT
    ensures var field := Ascii(Decimal.Print(n));
            Number(field) && Decimal.Value(Chars(field)) == n && Plain(field)
  {
    CharsAscii(Decimal.Print(n));
    Decimal.PrintValue(n);
    Powers();
    Decimal.PrintLength(n, 18);
  }

  lemma Powers()
    ensures Decimal.Pow10(18) == FIELD_LIMIT
  {
    assert Decimal.Pow10(6) == 1000000;
    assert Decimal.Pow10(12) == 1000000000000;
  }

  lemma Names(slot: Slot)
    ensures Plain(Ascii(Name(slot.kind))) && |Name(slot.kind)| <= 12
    ensures Plain(Ascii(GenName(slot.gen))) && |GenName(slot.gen)| <= 7
  {
  }

  lemma HeaderPlain(slot: Slot, rec: Option<Rec>)
    requires Printable(slot, rec)
    ensures var fields := HeaderFields(slot, rec);
            && (forall k | 0 <= k < |fields| :: Plain(fields[k]) && |fields[k]| <= 18)
            && (rec.Some? ==> forall k | 3 <= k < 7 :: Number(fields[k]))
  {
    Names(slot);
    if rec.Some? {
      NumberField(rec.value.dev);
      NumberField(rec.value.inode);
      NumberField(|rec.value.data|);
      NumberField(rec.value.mtime);
    }
  }

  function HeaderOf(rec: Option<Rec>): Header {
    if rec.None? then Absent else File(rec.value.dev, rec.value.inode, |rec.value.data|, rec.value.mtime)
  }

  lemma HeaderLine(data: bytes, pos: nat, line: bytes, rest: bytes)
    requires pos <= |data| && data[pos..] == line + [NEWLINE] + rest
    requires NEWLINE !in line && |line| < WINDOW
    ensures var window := Window(data, pos);
            Find(window, NEWLINE) == |line| < |window| && window[..|line|] == line
  {
    var window := Window(data, pos);
    assert window == data[pos..][..|window|];
    var end := window[|line| + 1..];
    assert window == line + [NEWLINE] + end;
    FindAt(line, NEWLINE, end);
  }

  /** The payload of a slot, as it follows the header line. */
  function Payload(rec: Option<Rec>): bytes {
    if rec.Some? then rec.value.data else []
  }

  lemma BodyRoundTrip(data: bytes, body: nat, rec: Option<Rec>, after: bytes)
    requires rec.Some? ==> |rec.value.data| <= MAX_FILE
    requires body <= |data| && data[body..] == Payload(rec) + after
    ensures Body(data, body, Some(HeaderOf(rec))) == Some((rec, body + |Payload(rec)|))
  {
    var payload := Payload(rec);
    assert data[body..body + |payload|] == data[body..][..|payload|];
  }

  lemma SlotRoundTrip(data: bytes, pos: nat, slot: Slot, rec: Option<Rec>, line: bytes, after: bytes)
    requires rec.Some? ==> |rec.value.data| <= MAX_FILE
    requires NEWLINE !in line && |line| < WINDOW && ParseHeader(slot, line) == Some(HeaderOf(rec))
    requires pos <= |data| && data[pos..] == line + [NEWLINE] + (Payload(rec) + after)
    ensures ParseSlot(data, pos, slot) == Some((rec, pos + |line| + 1 + |Payload(rec)|))
  {
    hide Find, ParseHeader, Payload, Body, Window;
    HeaderLine(data, pos, line, Payload(rec) + after);
    var body := pos + |line| + 1;
    AfterLine(data, pos, line, Payload(rec) + after);
    BodyRoundTrip(data, body, rec, after);
  }

  lemma AfterLine(data: bytes, pos: nat, line: bytes, rest: bytes)
    requires pos <= |data| && data[pos..] == line + [NEWLINE] + rest
    ensures pos + |line| + 1 <= |data| && data[pos + |line| + 1..] == rest
  {
    assert data[pos + |line| + 1..] == data[pos..][|line| + 1..];
  }

  function Collect(slots: seq<Slot>, records: Snapshot, done: Snapshot): Snapshot
    requires forall slot <- slots :: slot in records
  {
    if slots == [] then done
    else
      assert forall slot <- slots[1..] :: slot in slots;
      Collect(slots[1..], records, done[slots[0] := records[slots[0]]])
  }

  lemma {:induction false} CollectAll(slots: seq<Slot>, records: Snapshot, done: Snapshot)
    requires forall slot <- slots :: slot in records
    requires forall slot <- done :: slot in records && done[slot] == records[slot]
    requires forall slot <- records :: slot in done || slot in slots
    ensures Collect(slots, records, done) == records
  {
    if slots != [] {
      assert forall slot <- slots[1..] :: slot in slots;
      assert slots == [slots[0]] + slots[1..];
      CollectAll(slots[1..], records, done[slots[0] := records[slots[0]]]);
    } else {
      assert done.Keys == records.Keys;
    }
  }

  // ------------------------------------------------------- no early accept

  lemma SlotPrefix(short: bytes, long: bytes, pos: nat, slot: Slot)
    requires short <= long && pos <= |short|
    requires ParseSlot(short, pos, slot).Some?
    ensures ParseSlot(long, pos, slot) == ParseSlot(short, pos, slot)
  {
    hide Find, ParseHeader, Window, Body;
    WindowPrefix(short, long, pos);
    var window := Window(short, pos);
    var i := Find(window, NEWLINE);
    BodyPrefix(short, long, pos + i + 1, ParseHeader(slot, window[..i]));
  }

  lemma WindowPrefix(short: bytes, long: bytes, pos: nat)
    requires short <= long && pos <= |short| && Find(Window(short, pos), NEWLINE) < |Window(short, pos)|
    ensures var a, b := Window(short, pos), Window(long, pos);
            var i := Find(a, NEWLINE);
            && Find(b, NEWLINE) == i < |a| <= |b| && a[..i] == b[..i] && pos + i + 1 <= |short|
  {
    hide Find;
    var a, b := Window(short, pos), Window(long, pos);
    assert a <= b;
    FindPrefix(a, b[|a|..], NEWLINE);
    assert b == a + b[|a|..];
  }

  lemma BodyPrefix(short: bytes, long: bytes, body: nat, header: Option<Header>)
    requires short <= long && body <= |short| && Body(short, body, header).Some?
    ensures Body(long, body, header) == Body(short, body, header)
  {
    match header
    case None =>
    case Some(Absent) =>
    case Some(File(_, _, size, _)) =>
      assert short[body..body + size] == long[body..body + size];
  }

  lemma {:induction false} SlotsPrefix(short: bytes, long: bytes, pos: nat, slots: seq<Slot>, a: Snapshot, b: Snapshot)
    requires short <= long && pos <= |short|
    requires ParseSlots(short, pos, slots, a).Some? && ParseSlots(long, pos, slots, b).Some?
    ensures short == long
    decreases |slots|
  {
    if slots == [] {
      assert short[pos..] == END && long[pos..] == END;
      assert |short| == |long|;
    } else {
      SlotPrefix(short, long, pos, slots[0]);
      var (rec, next) := ParseSlot(short, pos, slots[0]).value;
      SlotsPrefix(short, long, next, slots[1..], a[slots[0] := rec], b[slots[0] := rec]);
    }
  }

  /** No proper prefix of an accepted snapshot is accepted, so a cut transfer
      is never taken for a whole one. */
  lemma NoEarlyAccept(short: bytes, long: bytes)
    requires short <= long && short != long
    requires Parse(long).Some?
    ensures Parse(short).None?
  {
    if Parse(short).Some? {
      SlotsPrefix(short, long, |MAGIC|, SLOTS, map[], map[]);
    }
  }

  // ------------------------------------------------------ accepted content

  ghost predicate Sound(slot: Slot, rec: Option<Rec>) {
    && (slot.gen == Current ==> rec.Some?)
    && (rec.Some? ==> |rec.value.data| <= MAX_FILE)
  }

  lemma SlotSound(data: bytes, pos: nat, slot: Slot)
    requires pos <= |data| && ParseSlot(data, pos, slot).Some?
    ensures Sound(slot, ParseSlot(data, pos, slot).value.0)
  {
    hide Find;
  }

  lemma {:induction false} SlotsContent(data: bytes, pos: nat, slots: seq<Slot>, done: Snapshot)
    requires pos <= |data|
    requires ParseSlots(data, pos, slots, done).Some?
    requires forall slot <- done :: Sound(slot, done[slot])
    ensures var r := ParseSlots(data, pos, slots, done).value;
            && done.Keys <= r.Keys
            && (forall slot <- slots :: slot in r)
            && (forall slot <- r :: Sound(slot, r[slot]))
    decreases |slots|
  {
    hide ParseSlot, Sound;
    if slots != [] {
      SlotSound(data, pos, slots[0]);
      var (rec, next) := ParseSlot(data, pos, slots[0]).value;
      SlotsContent(data, next, slots[1..], done[slots[0] := rec]);
      assert slots == [slots[0]] + slots[1..];
    }
  }

  lemma {:induction false} SlotsListed(kinds: seq<Kind>, kind: Kind, gen: Gen)
    requires kind in kinds && gen in Gens(kind)
    ensures Slot(kind, gen) in SlotsOfKinds(kinds)
  {
    if kind == kinds[0] {
      SlotsOfListed(kind, Gens(kind), gen);
    } else {
      assert kind in kinds[1..];
      SlotsListed(kinds[1..], kind, gen);
    }
  }

  lemma {:induction false} SlotsOfListed(kind: Kind, gens: seq<Gen>, gen: Gen)
    requires gen in gens
    ensures Slot(kind, gen) in SlotsOf(kind, gens)
  {
    if gen != gens[0] {
      assert gen in gens[1..];
      SlotsOfListed(kind, gens[1..], gen);
    }
  }

  lemma BodyIsOk(data: bytes, pos: nat, kinds: seq<Kind>)
    requires pos <= |data| && ParseSlots(data, pos, SlotsOfKinds(kinds), map[]).Some?
    requires forall kind: Kind :: kind in kinds
    ensures SnapshotOk(ParseSlots(data, pos, SlotsOfKinds(kinds), map[]).value)
  {
    hide ParseSlots;
    var r := ParseSlots(data, pos, SlotsOfKinds(kinds), map[]).value;
    SlotsContent(data, pos, SlotsOfKinds(kinds), map[]);
    forall kind: Kind
      ensures KindOk(r, kind)
    {
      forall gen <- Gens(kind)
        ensures Slot(kind, gen) in r && Sound(Slot(kind, gen), r[Slot(kind, gen)])
      {
        SlotsListed(kinds, kind, gen);
      }
      assert Gens(kind)[0] == Current;
    }
  }

  /** An accepted snapshot has every slot, every live file, and no file over
      the limit. */
  lemma ParsedIsOk(data: bytes)
    requires Parse(data).Some?
    ensures SnapshotOk(Parse(data).value)
  {
    forall kind: Kind
      ensures kind in KINDS
    {
      EveryKindListed(kind);
    }
    BodyIsOk(data, |MAGIC|, KINDS);
  }

  // ------------------------------------------------ exactly what is accepted

  /** One to eighteen digits for this number. */
  ghost predicate Figures(text: string, n: nat) {
    Decimal.Numeral(text) && |text| <= 18 && Decimal.Value(text) == n
  }

  /** A header line that says what the slot holds: that there is no such file,
      which the live one must be, or its identity, size and time. */
  ghost predicate Says(slot: Slot, rec: Option<Rec>, line: bytes) {
    match rec
    case None => slot.gen != Current && line == Ascii(Texts.Spaced(["M", Name(slot.kind), GenName(slot.gen)]))
    case Some(Rec(dev, inode, mtime, data)) =>
      && |data| <= 2 * 1024 * 1024
      && exists a, b, c, d :: Figures(a, dev) && Figures(b, inode) && Figures(c, |data|) && Figures(d, mtime)
           && line == Ascii(Texts.Spaced(["F", Name(slot.kind), GenName(slot.gen), a, b, c, d]))
  }

  ghost predicate Headed(slots: seq<Slot>, records: Snapshot, lines: seq<bytes>) {
    && |lines| == |slots|
    && forall i | 0 <= i < |slots| ::
         slots[i] in records && Says(slots[i], records[slots[i]], lines[i]) && |lines[i]| < 256
  }

  /** The header lines, each with its newline and the bytes of its file, and the
      trailer. */
  ghost function Laid(slots: seq<Slot>, records: Snapshot, lines: seq<bytes>): bytes
    requires |lines| == |slots| && forall slot <- slots :: slot in records
  {
    if slots == [] then Ascii("END\n")
    else
      assert forall slot <- slots[1..] :: slot in slots;
      lines[0] + [10] + (if records[slots[0]].Some? then records[slots[0]].value.data else [])
      + Laid(slots[1..], records, lines[1..])
  }

  lemma {:induction false} JoinSpaced(words: seq<string>, fields: seq<bytes>)
    requires words != [] && |fields| == |words| && forall i | 0 <= i < |words| :: fields[i] == Ascii(words[i])
    ensures Ascii(Texts.Spaced(words)) == Join(fields)
  {
    if |words| > 1 {
      JoinSpaced(words[1..], fields[1..]);
      var rest := Texts.Spaced(words[1..]);
      assert Texts.Spaced(words) == words[0] + " " + rest;
      AsciiAppend(words[0] + " ", rest);
      AsciiAppend(words[0], " ");
      assert Ascii(" ") == [SPACE];
    }
  }

  lemma AsciiAppend(s: string, t: string)
    ensures Ascii(s + t) == Ascii(s) + Ascii(t)
  {
  }

  lemma SplitHere(data: bytes, b: byte)
    ensures var i := Find(data, b);
            i < |data| ==> data == data[..i] + [b] + data[i + 1..]
  {
  }

  lemma {:induction false} JoinSplit(line: bytes)
    ensures Join(Split(line, SPACE)) == line
  {
    hide Find;
    SplitHere(line, SPACE);
    var i := Find(line, SPACE);
    if i < |line| {
      JoinSplit(line[i + 1..]);
      var parts := Split(line[i + 1..], SPACE);
      assert ([line[..i]] + parts)[1..] == parts;
    }
  }

  lemma FiguresField(text: string, n: nat)
    requires Figures(text, n)
    ensures var field := Ascii(text);
            Number(field) && Decimal.Value(Chars(field)) == n && Plain(field) && |field| <= 18
  {
    CharsAscii(text);
  }

  lemma FieldFigures(field: bytes)
    requires Number(field)
    ensures Figures(Chars(field), Decimal.Value(Chars(field))) && Ascii(Chars(field)) == field
  {
    assert forall i | 0 <= i < |field| :: Decimal.Digit(Chars(field)[i]);
  }

  /** Splitting a joined header gives its fields back. */
  lemma HeaderParts(slot: Slot, words: seq<string>, fields: seq<bytes>, line: bytes)
    requires words != [] && |fields| == |words| && forall i | 0 <= i < |words| :: fields[i] == Ascii(words[i])
    requires (forall i | 0 <= i < |fields| :: Plain(fields[i]) && |fields[i]| <= 18)
    requires line == Ascii(Texts.Spaced(words))
    ensures Split(line, SPACE) == fields && NEWLINE !in line
  {
    JoinSpaced(words, fields);
    SplitJoin(fields);
    JoinPlain(fields, 18);
  }

  lemma MarkPlain()
    ensures Plain(Ascii("M")) && Plain(Ascii("F"))
  {
  }

  lemma SaysParsed(slot: Slot, rec: Option<Rec>, line: bytes)
    requires Says(slot, rec, line)
    ensures ParseHeader(slot, line) == Some(HeaderOf(rec)) && NEWLINE !in line
    ensures rec.Some? ==> |rec.value.data| <= MAX_FILE
  {
    Names(slot);
    MarkPlain();
    match rec
    case None =>
      var words := ["M", Name(slot.kind), GenName(slot.gen)];
      hide Ascii, Name, GenName, Plain, Split;
      AsciiSizes("M", slot);
      HeaderParts(slot, words, [Ascii("M"), Ascii(Name(slot.kind)), Ascii(GenName(slot.gen))], line);
    case Some(Rec(dev, inode, mtime, data)) =>
      SaysFile(slot, rec, line);
  }

  lemma AsciiSizes(mark: string, slot: Slot)
    requires |mark| == 1
    ensures |Ascii(mark)| <= 18 && |Ascii(Name(slot.kind))| <= 18 && |Ascii(GenName(slot.gen))| <= 18
  {
    Names(slot);
    hide Name, GenName;
  }

  lemma SaysFile(slot: Slot, rec: Option<Rec>, line: bytes)
    requires rec.Some? && Says(slot, rec, line)
    ensures ParseHeader(slot, line) == Some(HeaderOf(rec)) && NEWLINE !in line && |rec.value.data| <= MAX_FILE
  {
    hide Ascii, Name, GenName, Plain, Split, Interpret, Figures;
    var Rec(dev, inode, mtime, data) := rec.value;
    var a, b, c, d :| Figures(a, dev) && Figures(b, inode) && Figures(c, |data|) && Figures(d, mtime)
                      && line == Ascii(Texts.Spaced(["F", Name(slot.kind), GenName(slot.gen), a, b, c, d]));
    Names(slot);
    MarkPlain();
    AsciiSizes("F", slot);
    FiguresField(a, dev);
    FiguresField(b, inode);
    FiguresField(c, |data|);
    FiguresField(d, mtime);
    var fields := [Ascii("F"), Ascii(Name(slot.kind)), Ascii(GenName(slot.gen)), Ascii(a), Ascii(b), Ascii(c), Ascii(d)];
    HeaderParts(slot, ["F", Name(slot.kind), GenName(slot.gen), a, b, c, d], fields, line);
    FileFields(slot, fields, HeaderOf(rec));
  }

  lemma FileFields(slot: Slot, fields: seq<bytes>, header: Header)
    requires |fields| == 7 && fields[0] == Ascii("F") && fields[1] == Ascii(Name(slot.kind)) && fields[2] == Ascii(GenName(slot.gen))
    requires header.File? && Number(fields[3]) && Number(fields[4]) && Number(fields[5]) && Number(fields[6])
    requires Decimal.Value(Chars(fields[3])) == header.dev && Decimal.Value(Chars(fields[4])) == header.inode
    requires Decimal.Value(Chars(fields[5])) == header.size && Decimal.Value(Chars(fields[6])) == header.mtime
    ensures Interpret(slot, fields) == Some(header)
  {
    hide Ascii, Name, GenName, Number, Chars, Decimal.Value;
    assert fields[..3] == [Ascii("F"), Ascii(Name(slot.kind)), Ascii(GenName(slot.gen))];
  }

  /** What an accepted header says. */
  lemma ParsedSays(slot: Slot, rec: Option<Rec>, line: bytes)
    requires ParseHeader(slot, line) == Some(HeaderOf(rec)) && (rec.Some? ==> |rec.value.data| <= MAX_FILE)
    ensures Says(slot, rec, line)
  {
    hide Ascii, Name, GenName, Number, Chars, Decimal.Value, Split, Join, Figures;
    var fields := Split(line, SPACE);
    JoinSplit(line);
    match rec
    case None =>
      JoinSpaced(["M", Name(slot.kind), GenName(slot.gen)], fields);
    case Some(Rec(dev, inode, mtime, data)) =>
      assert Number(fields[3]) && Number(fields[4]) && Number(fields[5]) && Number(fields[6]);
      FieldFigures(fields[3]);
      FieldFigures(fields[4]);
      FieldFigures(fields[5]);
      FieldFigures(fields[6]);
      assert fields[..3][0] == Ascii("F") && fields[..3][1] == Ascii(Name(slot.kind)) && fields[..3][2] == Ascii(GenName(slot.gen));
      var a, b, c, d := Chars(fields[3]), Chars(fields[4]), Chars(fields[5]), Chars(fields[6]);
      JoinSpaced(["F", Name(slot.kind), GenName(slot.gen), a, b, c, d], fields);
      assert Figures(a, dev) && Figures(b, inode) && Figures(c, |data|) && Figures(d, mtime);
  }

  /** One slot that is accepted: its line, its bytes, and what follows. */
  lemma SlotParsed(data: bytes, pos: nat, slot: Slot) returns (line: bytes)
    requires pos <= |data| && ParseSlot(data, pos, slot).Some?
    ensures var (rec, next) := ParseSlot(data, pos, slot).value;
            && Says(slot, rec, line) && |line| < WINDOW
            && data[pos..] == line + [NEWLINE] + Payload(rec) + data[next..]
  {
    hide Ascii, Says, ParseHeader, Find;
    var window := Window(data, pos);
    var i := Find(window, NEWLINE);
    line := window[..i];
    WindowHit(data, pos);
    var header := ParseHeader(slot, line);
    var (rec, next) := ParseSlot(data, pos, slot).value;
    var body := pos + i + 1;
    assert header == Some(HeaderOf(rec)) && (rec.Some? ==> |rec.value.data| <= MAX_FILE);
    ParsedSays(slot, rec, line);
    assert data[body..] == Payload(rec) + data[next..];
    assert line + [NEWLINE] + data[body..] == line + [NEWLINE] + Payload(rec) + data[next..];
  }

  lemma WindowHit(data: bytes, pos: nat)
    requires pos <= |data| && Find(Window(data, pos), NEWLINE) < |Window(data, pos)|
    ensures var i := Find(Window(data, pos), NEWLINE);
            && pos + i + 1 <= |data| && i < WINDOW
            && data[pos..] == Window(data, pos)[..i] + [NEWLINE] + data[pos + i + 1..]
  {
    hide Find;
    var window := Window(data, pos);
    var i := Find(window, NEWLINE);
    FindHit(window, NEWLINE);
    assert window[i] == data[pos + i];
    assert data[pos..] == data[pos..pos + i] + [data[pos + i]] + data[pos + i + 1..];
  }

  ghost predicate Distinct(slots: seq<Slot>) {
    forall i, j | 0 <= i < j < |slots| :: slots[i] != slots[j]
  }

  /** What an accepted body is, and what it is read as. */
  lemma {:induction false} BodyParsed(data: bytes, pos: nat, slots: seq<Slot>, done: Snapshot) returns (lines: seq<bytes>)
    requires pos <= |data| && Distinct(slots) && ParseSlots(data, pos, slots, done).Some?
    requires forall slot <- slots :: slot !in done
    ensures var r := ParseSlots(data, pos, slots, done).value;
            && r.Keys == done.Keys + (set slot | slot in slots)
            && (forall slot <- done :: r[slot] == done[slot])
            && Headed(slots, r, lines) && data[pos..] == Laid(slots, r, lines)
    decreases |slots|
  {
    hide ParseSlot, Says, Ascii;
    if slots == [] {
      lines := [];
    } else {
      var slot, others := slots[0], slots[1..];
      var line := SlotParsed(data, pos, slot);
      var (rec, next) := ParseSlot(data, pos, slot).value;
      var more := BodyParsed(data, next, others, done[slot := rec]);
      lines := [line] + more;
      HeadedCons(slots, ParseSlots(data, pos, slots, done).value, line, more);
      LaidCons(slots, ParseSlots(data, pos, slots, done).value, line, more);
    }
  }

  lemma HeadedCons(slots: seq<Slot>, records: Snapshot, line: bytes, more: seq<bytes>)
    requires slots != [] && slots[0] in records && Says(slots[0], records[slots[0]], line) && |line| < 256
    requires Headed(slots[1..], records, more)
    ensures Headed(slots, records, [line] + more) && forall slot <- slots :: slot in records
  {
    hide Says;
    var lines := [line] + more;
    forall i | 0 <= i < |slots|
      ensures slots[i] in records && Says(slots[i], records[slots[i]], lines[i]) && |lines[i]| < 256
    {
      if i > 0 {
        assert slots[i] == slots[1..][i - 1] && lines[i] == more[i - 1];
      }
    }
  }

  lemma LaidCons(slots: seq<Slot>, records: Snapshot, line: bytes, more: seq<bytes>)
    requires slots != [] && |more| == |slots| - 1 && forall slot <- slots :: slot in records
    ensures Laid(slots, records, [line] + more) == line + [NEWLINE] + Payload(records[slots[0]]) + Laid(slots[1..], records, more)
  {
    assert ([line] + more)[1..] == more;
  }

  /** A body laid out like that is accepted. */
  lemma {:induction false} BodyAccepted(data: bytes, pos: nat, slots: seq<Slot>, records: Snapshot, done: Snapshot, lines: seq<bytes>)
    requires Headed(slots, records, lines) && forall slot <- slots :: slot in records
    requires pos <= |data| && data[pos..] == Laid(slots, records, lines)
    ensures ParseSlots(data, pos, slots, done) == Some(Collect(slots, records, done))
    decreases |slots|
  {
    hide ParseSlot, Says, ParseHeader, Ascii;
    if slots != [] {
      var slot, others := slots[0], slots[1..];
      var rec, line, more := records[slot], lines[0], lines[1..];
      assert lines == [line] + more;
      SaysParsed(slot, rec, line);
      LaidCons(slots, records, line, more);
      var after := Laid(others, records, more);
      assert data[pos..] == line + [NEWLINE] + (Payload(rec) + after);
      SlotRoundTrip(data, pos, slot, rec, line, after);
      var next := pos + |line| + 1 + |Payload(rec)|;
      assert data[next..] == data[pos..][next - pos..] == after;
      HeadedTail(slots, records, lines);
      BodyAccepted(data, next, others, records, done[slot := rec], more);
    }
  }

  lemma HeadedTail(slots: seq<Slot>, records: Snapshot, lines: seq<bytes>)
    requires Headed(slots, records, lines) && slots != []
    ensures Headed(slots[1..], records, lines[1..]) && forall slot <- slots[1..] :: slot in records
  {
    hide Says;
  }

  lemma KindSlots(kind: Kind)
    ensures Distinct(SlotsOf(kind, Gens(kind))) && forall slot <- SlotsOf(kind, Gens(kind)) :: slot.kind == kind
  {
    assert [One, Two][1..] == [Two] && [Two][1..] == [] && [Old][1..] == [];
    assert [Current, One, Two][1..] == [One, Two] && [Current, Old][1..] == [Old] && [Current][1..] == [];
    assert SlotsOf(kind, [Two]) == [Slot(kind, Two)];
    assert SlotsOf(kind, [One, Two]) == [Slot(kind, One), Slot(kind, Two)];
    assert SlotsOf(kind, [Old]) == [Slot(kind, Old)];
  }

  lemma {:induction false} SlotsDistinct(kinds: seq<Kind>)
    requires forall i, j | 0 <= i < j < |kinds| :: kinds[i] != kinds[j]
    ensures Distinct(SlotsOfKinds(kinds)) && forall slot <- SlotsOfKinds(kinds) :: slot.kind in kinds
  {
    hide Gens, SlotsOf;
    if kinds != [] {
      KindSlots(kinds[0]);
      SlotsDistinct(kinds[1..]);
      var a, b := SlotsOf(kinds[0], Gens(kinds[0])), SlotsOfKinds(kinds[1..]);
      forall i, j | 0 <= i < j < |a + b|
        ensures (a + b)[i] != (a + b)[j]
      {
        if i < |a| <= j {
          assert a[i] in a && b[j - |a|] in b;
        }
      }
    }
  }

  lemma AllDistinct()
    ensures Distinct(SLOTS)
  {
    SlotsDistinct(KINDS);
  }

  /** Exactly which bytes are accepted, and what they are read as: within the
      limit, the magic line, then for each slot in its order a header line that
      names this slot and says what the result holds for it, followed by just
      that many bytes, and the trailer with nothing after it. */
  lemma AcceptedSnapshot(data: bytes, records: Snapshot)
    ensures Parse(data) == Some(records) <==>
              && |data| <= 24 * 1024 * 1024 + 16384
              && records.Keys == (set slot | slot in SLOTS)
              && exists lines :: Headed(SLOTS, records, lines) && data == Ascii("NASLOG1\n") + Laid(SLOTS, records, lines)
  {
    hide *;
    ParseIs(data);
    forall lines | Headed(SLOTS, records, lines)
      ensures |lines| == |SLOTS| && forall slot <- SLOTS :: slot in records
    {
      HeadedSlots(SLOTS, records, lines);
    }
    if Parse(data) == Some(records) {
      AllDistinct();
      var lines := BodyParsed(data, |MAGIC|, SLOTS, map[]);
      assert data == MAGIC + data[|MAGIC|..];
      assert Headed(SLOTS, records, lines) && data == MAGIC + Laid(SLOTS, records, lines);
    }
    if lines :| |data| <= MAX_SNAPSHOT && records.Keys == (set slot | slot in SLOTS)
                && Headed(SLOTS, records, lines) && data == MAGIC + Laid(SLOTS, records, lines) {
      assert data[|MAGIC|..] == Laid(SLOTS, records, lines);
      BodyAccepted(data, |MAGIC|, SLOTS, records, map[], lines);
      CollectAll(SLOTS, records, map[]);
    }
  }

  lemma HeadedSlots(slots: seq<Slot>, records: Snapshot, lines: seq<bytes>)
    requires Headed(slots, records, lines)
    ensures |lines| == |slots| && forall slot <- slots :: slot in records
  {
    hide Says;
  }

  lemma ParseIs(data: bytes)
    ensures Parse(data) == if |data| > MAX_SNAPSHOT || !(MAGIC <= data) then None else ParseSlots(data, |MAGIC|, SLOTS, map[])
    ensures MAGIC == Ascii("NASLOG1\n") && MAX_SNAPSHOT == 24 * 1024 * 1024 + 16384
  {
    hide ParseSlots, Ascii;
  }

  // ------------------------------------------------------------ round trip

  lemma PrintFigures(n: nat)
    requires n < FIELD_LIMIT
    ensures Figures(Decimal.Print(n), n)
  {
    Decimal.PrintValue(n);
    Powers();
    Decimal.PrintLength(n, 18);
  }

  /** A printed header says what it was printed for. */
  lemma PrintedSays(slot: Slot, rec: Option<Rec>)
    requires Printable(slot, rec)
    ensures var line := Join(HeaderFields(slot, rec)); Says(slot, rec, line) && |line| < 256
  {
    HeaderPlain(slot, rec);
    assert |HeaderFields(slot, rec)| <= 7;
    hide Ascii, Name, GenName, Figures, Decimal.Print, Join, Plain, Number;
    JoinPlain(HeaderFields(slot, rec), 18);
    match rec
    case None =>
      JoinSpaced(["M", Name(slot.kind), GenName(slot.gen)], HeaderFields(slot, rec));
    case Some(Rec(dev, inode, mtime, data)) =>
      PrintFigures(dev);
      PrintFigures(inode);
      PrintFigures(|data|);
      PrintFigures(mtime);
      var a, b, c, d := Decimal.Print(dev), Decimal.Print(inode), Decimal.Print(|data|), Decimal.Print(mtime);
      JoinSpaced(["F", Name(slot.kind), GenName(slot.gen), a, b, c, d], HeaderFields(slot, rec));
      assert Figures(a, dev) && Figures(b, inode) && Figures(c, |data|) && Figures(d, mtime);
  }

  lemma {:induction false} PrintedLaid(slots: seq<Slot>, records: Snapshot) returns (lines: seq<bytes>)
    requires forall slot <- slots :: slot in records && Printable(slot, records[slot])
    ensures Headed(slots, records, lines) && PrintSlots(slots, records) == Laid(slots, records, lines)
  {
    hide HeaderFields, Join, Printable, Says, Ascii;
    if slots == [] {
      lines := [];
    } else {
      var slot, others := slots[0], slots[1..];
      assert slot in slots && forall s <- others :: s in slots;
      var more := PrintedLaid(others, records);
      PrintedSays(slot, records[slot]);
      var line := Join(HeaderFields(slot, records[slot]));
      lines := [line] + more;
      HeadedCons(slots, records, line, more);
      LaidCons(slots, records, line, more);
    }
  }

  /** The framing is unambiguous: whatever the payload bytes are, headers or END
      lines among them, parsing a printed snapshot restores it. */
  lemma SnapshotRoundTrip(records: Snapshot)
    requires forall slot <- SLOTS :: slot in records && Printable(slot, records[slot])
    requires records.Keys == set slot | slot in SLOTS
    requires |PrintSnapshot(records)| <= MAX_SNAPSHOT
    ensures Parse(PrintSnapshot(records)) == Some(records)
  {
    hide *;
    ParseIs(PrintSnapshot(records));
    var lines := PrintedLaid(SLOTS, records);
    HeadedSlots(SLOTS, records, lines);
    PrintSnapshotIs(records);
    AcceptedSnapshot(PrintSnapshot(records), records);
  }

  lemma PrintSnapshotIs(records: Snapshot)
    requires forall slot <- SLOTS :: slot in records
    ensures PrintSnapshot(records) == Ascii("NASLOG1\n") + PrintSlots(SLOTS, records)
  {
    hide Ascii, PrintSlots;
  }
}
