/** The durable state of the log collector and the check it has to pass. */
module States {
  import opened Basics
  import opened Sources
  import opened Json
  import opened Records
  import Decimal

  const MAX_STATE := 64 * 1024 * 1024
  const MAX_BATCHES := 512
  const MAX_BATCH_BYTES := 262144
  const MAX_NORMAL := 256

  /** SHA-256, taken to be injective: a digest stands for what was hashed. */
  datatype Digest = Sha256(preimage: bytes)

  datatype Cursor = Cursor(dev: nat, inode: nat, offset: nat, sha256: Digest, sizeSeen: nat)

  datatype Level = Emerg | Alert | Critical | Error | Warn | Info | Debug | Unknown

  datatype NormalKey = NormalKey(kind: Kind, pattern: string)

  /** One labelled log line with its timestamp in nanoseconds. */
  datatype Stream = Stream(kind: Kind, level: Level, ns: nat, line: string)

  type Batch = seq<Stream>

  /** Batches to deliver, and the state that holds once all were delivered. */
  datatype Outbox = Outbox(batches: seq<Batch>, next: State)

  datatype State = State(
    cursors: map<Kind, Cursor>,
    lastNs: nat,
    lastSuccess: real,
    sent: nat,
    gaps: nat,
    normal: map<NormalKey, nat>,
    pending: Option<Outbox>)

  const INITIAL := State(map[], 0, 0.0, 0, 0, map[], None)

  /** What the collector gets from its environment and its regular expressions. */
  datatype Rules = Rules(
    headers: Headers,
    decode: bytes -> string,                          // bytes.decode('utf-8', 'replace')
    decimal: char -> bool,                            // the characters \d matches
    severity: (Kind, string) -> Level,
    normal: (Kind, string, Level) -> Option<string>,  // normal_pattern
    isoformat: nat -> string,                         // of an in-range time in nanoseconds
    hex: Digest -> string,                            // hexdigest
    float: real -> string,                            // the number json.dumps writes
    keys: map<NormalKey, nat> -> seq<NormalKey>)      // the keys of a dictionary, in its order

  function LevelName(level: Level): string {
    match level
    case Emerg => "emerg"
    case Alert => "alert"
    case Critical => "critical"
    case Error => "error"
    case Warn => "warn"
    case Info => "info"
    case Debug => "debug"
    case Unknown => "unknown"
  }

  function Labels(stream: Stream): seq<Field> {
    [Field("environment", Str("production")), Field("source", Str("qnap-filelog")),
     Field("service_name", Str("qnap-nas")), Field("log_kind", Str(Name(stream.kind))),
     Field("level", Str(LevelName(stream.level)))]
  }

  function StreamJson(stream: Stream): Json {
    Obj([Field("stream", Obj(Labels(stream))),
         Field("values", Arr([Arr([Str(Decimal.Print(stream.ns)), Str(stream.line)])]))])
  }

  function StreamsJson(batch: Batch): seq<Json> {
    seq(|batch|, i requires 0 <= i < |batch| => StreamJson(batch[i]))
  }

  function BatchJson(batch: Batch): Json {
    Obj([Field("streams", Arr(StreamsJson(batch)))])
  }

  function CursorJson(rules: Rules, cursor: Cursor): Json {
    Obj([Field("dev", Num(Decimal.Print(cursor.dev))), Field("inode", Num(Decimal.Print(cursor.inode))),
         Field("offset", Num(Decimal.Print(cursor.offset))), Field("sha256", Str(rules.hex(cursor.sha256))),
         Field("size_seen", Num(Decimal.Print(cursor.sizeSeen)))])
  }

  function CursorFields(rules: Rules, cursors: map<Kind, Cursor>, kinds: seq<Kind>): seq<Field> {
    if kinds == [] then []
    else (if kinds[0] in cursors then [Field(Name(kinds[0]), CursorJson(rules, cursors[kinds[0]]))] else [])
         + CursorFields(rules, cursors, kinds[1..])
  }

  function NormalFields(normal: map<NormalKey, nat>, keys: seq<NormalKey>): seq<Field> {
    if keys == [] then []
    else (if keys[0] in normal
          then [Field(Name(keys[0].kind) + "/" + keys[0].pattern, Num(Decimal.Print(normal[keys[0]])))] else [])
         + NormalFields(normal, keys[1..])
  }

  function BatchesJson(batches: seq<Batch>): seq<Json> {
    seq(|batches|, i requires 0 <= i < |batches| => BatchJson(batches[i]))
  }

  function StateFields(rules: Rules, state: State): seq<Field> {
    [Field("version", Num("1")), Field("cursors", Obj(CursorFields(rules, state.cursors, KINDS))),
     Field("last_ns", Num(Decimal.Print(state.lastNs))), Field("last_success", Num(rules.float(state.lastSuccess))),
     Field("sent", Num(Decimal.Print(state.sent))), Field("gaps", Num(Decimal.Print(state.gaps))),
     Field("normal", Obj(NormalFields(state.normal, rules.keys(state.normal)))),
     Field("pending", PendingJson(rules, state.pending))]
  }

  function PendingJson(rules: Rules, pending: Option<Outbox>): Json {
    match pending
    case None => Null
    case Some(outbox) =>
      Obj([Field("batches", Arr(BatchesJson(outbox.batches))), Field("next", Obj(StateFields(rules, outbox.next)))])
  }

  /** The document a state file holds. */
  function StateJson(rules: Rules, state: State): Json {
    Obj(StateFields(rules, state))
  }

  /** [a-z_]+ */
  predicate PatternName(s: string) {
    s != "" && forall i | 0 <= i < |s| :: 'a' <= s[i] <= 'z' || s[i] == '_'
  }

  predicate ValidCursor(cursor: Cursor) {
    cursor.offset <= MAX_FILE && cursor.sizeSeen <= MAX_FILE
  }

  predicate ValidCursors(cursors: map<Kind, Cursor>) {
    forall kind | kind in cursors :: ValidCursor(cursors[kind])
  }

  predicate ValidBatch(batch: Batch) {
    Dumped(BatchJson(batch), DEFAULT) <= MAX_BATCH_BYTES
  }

  /** Everything validate_state checks besides pending. */
  predicate ValidBase(state: State) {
    && state.lastSuccess >= 0.0
    && ValidCursors(state.cursors)
    && |state.normal| <= MAX_NORMAL
    && (forall key <- state.normal :: PatternName(key.pattern))
  }

  /** validate_state; the checks of JSON types are the Dafny types here. */
  predicate Valid(state: State) {
    && ValidBase(state)
    && (state.pending.Some? ==>
          var outbox := state.pending.value;
          && |outbox.batches| <= MAX_BATCHES
          && outbox.next.pending.None?
          && ValidBase(outbox.next)
          && (forall batch <- outbox.batches :: ValidBatch(batch)))
  }

  /** What atomic_save demands of a state, and load_state of the file it is in. */
  predicate Saveable(rules: Rules, state: State) {
    Valid(state) && Dumped(StateJson(rules, state), COMPACT) <= 64 * 1024 * 1024
  }

  lemma PendingWithin(rules: Rules, pending: Option<Outbox>, style: Style)
    requires pending.Some?
    ensures Dumped(StateJson(rules, pending.value.next), style) <= Dumped(PendingJson(rules, pending), style)
  {
    hide Dumped, StateFields, BatchesJson;
    var outbox := pending.value;
    ValueWithin([Field("batches", Arr(BatchesJson(outbox.batches))), Field("next", Obj(StateFields(rules, outbox.next)))], 1, style);
  }

  lemma StateWithin(rules: Rules, state: State, style: Style)
    ensures Dumped(PendingJson(rules, state.pending), style) <= Dumped(StateJson(rules, state), style)
  {
    hide Dumped, PendingJson, CursorFields, NormalFields;
    ValueWithin(StateFields(rules, state), 7, style);
  }

  /** If a state with an outbox can be saved, so can the outbox's successor. */
  lemma NextSaves(rules: Rules, state: State)
    requires Saveable(rules, state) && state.pending.Some?
    ensures Saveable(rules, state.pending.value.next)
  {
    hide Dumped, ValidBase, ValidBatch, StateJson;
    StateWithin(rules, state, COMPACT);
    PendingWithin(rules, state.pending, COMPACT);
  }

  /** Exactly which states pass without an outbox. */
  lemma ValidBaseIff(state: State)
    ensures ValidBase(state) <==>
              && state.lastSuccess >= 0.0
              && (forall kind <- state.cursors ::
                    state.cursors[kind].offset <= 2 * 1024 * 1024 && state.cursors[kind].sizeSeen <= 2 * 1024 * 1024)
              && |state.normal| <= 256
              && forall key <- state.normal ::
                   |key.pattern| > 0 && forall i | 0 <= i < |key.pattern| :: 'a' <= key.pattern[i] <= 'z' || key.pattern[i] == '_'
  {
  }

  /** And with one: few batches, each within the limit, and a successor that
      passes and has none. */
  lemma ValidIff(state: State)
    ensures Valid(state) <==>
              && ValidBase(state)
              && (state.pending.Some? ==>
                    var Outbox(batches, next) := state.pending.value;
                    && |batches| <= 512 && next.pending.None? && ValidBase(next)
                    && forall batch <- batches :: Dumped(BatchJson(batch), DEFAULT) <= 262144)
  {
    hide ValidBase, Dumped, BatchJson;
  }
}
