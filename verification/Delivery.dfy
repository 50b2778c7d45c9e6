/** What holds over every run of the log collector. */
module Delivery {
  import opened Basics
  import opened Sources
  import opened States
  import opened Prepare
  import opened Emission
  import opened Collector

  datatype Event = Polls(c: Conditions) | Restart

  function Step(rules: Rules, filter: bool, w: World, e: Event): World {
    match e
    case Polls(c) => AfterPoll(rules, filter, w, c)
    case Restart => Restarted(w)
  }

  function Run(rules: Rules, filter: bool, w: World, events: seq<Event>): World {
    if events == [] then w
    else Step(rules, filter, Run(rules, filter, w, events[..|events| - 1]), events[|events| - 1])
  }

  // -------------------------------------------------------- the outbox line

  /** An outbox prepared on this state from some snapshot at some time. */
  ghost predicate Follows(rules: Rules, filter: bool, base: State, outbox: Outbox) {
    exists snapshot: Snapshot, now: int :: PreparedBy(rules, filter, base, snapshot, now, outbox)
  }

  /** The acknowledged state after the first i outboxes of a line. */
  function BaseAt(origin: State, line: seq<Outbox>, i: nat): State
    requires i <= |line|
  {
    if i == 0 then origin else line[i - 1].next
  }

  /** Each outbox was prepared on the state the one before it leads to. */
  ghost predicate Linear(rules: Rules, filter: bool, origin: State, line: seq<Outbox>) {
    && origin.pending.None?
    && forall i | 0 <= i < |line| :: Follows(rules, filter, BaseAt(origin, line, i), line[i])
  }

  /** The streams of a line of outboxes, in order. */
  function Entries(line: seq<Outbox>): seq<Stream> {
    if line == [] then [] else Entries(line[..|line| - 1]) + Flat(line[|line| - 1])
  }

  ghost predicate Ascending(streams: seq<Stream>) {
    forall i, j | 0 <= i < j < |streams| :: streams[i].ns < streams[j].ns
  }

  lemma CarriedTimes(rules: Rules, streams: seq<Stream>, tasks: seq<Task>, now: int, last: nat)
    requires CarriesAll(rules, streams, tasks, now, last)
    ensures Ascending(streams)
    ensures forall s <- streams :: last < s.ns <= LastNs(now, last, |tasks|)
    ensures last <= LastNs(now, last, |tasks|)
  {
    forall k | 0 <= k < |streams|
      ensures streams[k].ns == NextNs(now, last) + k
    {
      assert Carries(rules, streams[k], tasks[k], NextNs(now, last) + k);
    }
  }

  /** What one outbox adds to the state it was prepared on. */
  ghost predicate Extension(base: State, outbox: Outbox) {
    && Ascending(Flat(outbox))
    && (forall s <- Flat(outbox) :: base.lastNs < s.ns <= outbox.next.lastNs)
    && base.lastNs <= outbox.next.lastNs
    && outbox.next.sent == base.sent + |Flat(outbox)|
    && outbox.next.pending.None? && base.pending.None?
  }

  lemma AccountExtends(rules: Rules, base: State, outbox: Outbox, kept: seq<Task>, now: int)
    requires CarriesAll(rules, Flat(outbox), kept, now, base.lastNs)
    requires outbox.next.sent == base.sent + |kept| && outbox.next.lastNs == LastNs(now, base.lastNs, |kept|)
    requires base.pending.None? && outbox.next.pending.None?
    ensures Extension(base, outbox)
  {
    hide Flat, Ascending, Carries;
    CarriedTimes(rules, Flat(outbox), kept, now, base.lastNs);
  }

  lemma PreparedExtends(rules: Rules, filter: bool, base: State, snapshot: Snapshot, now: int, outbox: Outbox)
    requires PreparedBy(rules, filter, base, snapshot, now, outbox)
    ensures Extension(base, outbox)
  {
    OutboxAccount(rules, filter, base, snapshot, now, outbox);
    NextNotPending(rules, filter, base, snapshot, now, outbox);
    hide Kept, Tasks, Flat, Matching, Prepared, KINDS, CarriesAll, Extension, LastNs;
    AccountExtends(rules, base, outbox, Kept(rules, filter, Tasks(rules, base, snapshot, KINDS)), now);
  }

  lemma NextNotPending(rules: Rules, filter: bool, base: State, snapshot: Snapshot, now: int, outbox: Outbox)
    requires PreparedBy(rules, filter, base, snapshot, now, outbox)
    ensures outbox.next.pending.None?
  {
    var acc := Unpack(rules, filter, base, snapshot, now, outbox);
    hide EmitAll, Tasks, Closed, Valid, Prepared, Cursors, Gaps;
  }

  lemma FollowsExtends(rules: Rules, filter: bool, base: State, outbox: Outbox)
    requires Follows(rules, filter, base, outbox)
    ensures Extension(base, outbox)
  {
    hide PreparedBy, Extension;
    var snapshot: Snapshot, now: int :| PreparedBy(rules, filter, base, snapshot, now, outbox);
    PreparedExtends(rules, filter, base, snapshot, now, outbox);
  }

  lemma EntriesSnoc(line: seq<Outbox>, outbox: Outbox)
    ensures Entries(line + [outbox]) == Entries(line) + Flat(outbox)
  {
    hide Flat;
    assert (line + [outbox])[..|line|] == line;
  }

  lemma LinearFront(rules: Rules, filter: bool, origin: State, line: seq<Outbox>)
    requires Linear(rules, filter, origin, line) && line != []
    ensures Linear(rules, filter, origin, line[..|line| - 1])
    ensures Follows(rules, filter, BaseAt(origin, line[..|line| - 1], |line| - 1), line[|line| - 1])
  {
    hide Follows;
    var front := line[..|line| - 1];
    assert forall i | 0 <= i < |front| :: BaseAt(origin, front, i) == BaseAt(origin, line, i);
  }

  lemma LinearSnoc(rules: Rules, filter: bool, origin: State, line: seq<Outbox>, outbox: Outbox)
    requires Linear(rules, filter, origin, line)
    requires Follows(rules, filter, BaseAt(origin, line, |line|), outbox)
    ensures Linear(rules, filter, origin, line + [outbox])
  {
    hide Follows;
    var grown := line + [outbox];
    assert forall i | 0 <= i < |grown| :: BaseAt(origin, grown, i) == BaseAt(origin, line, i);
  }

  lemma AscendingAppend(a: seq<Stream>, b: seq<Stream>, bound: nat)
    requires Ascending(a) && Ascending(b)
    requires forall s <- a :: s.ns <= bound
    requires forall s <- b :: bound < s.ns
    ensures Ascending(a + b)
  {
  }

  /** Timestamps strictly increase along the line, whatever the clock does, and
      `sent` counts the entries. */
  ghost predicate LineFacts(origin: State, line: seq<Outbox>) {
    var base := BaseAt(origin, line, |line|);
    && Ascending(Entries(line))
    && (forall s <- Entries(line) :: origin.lastNs < s.ns <= base.lastNs)
    && origin.lastNs <= base.lastNs
    && base.sent == origin.sent + |Entries(line)|
    && base.pending.None?
  }

  lemma LineFactsSnoc(origin: State, line: seq<Outbox>, outbox: Outbox)
    requires LineFacts(origin, line) && Extension(BaseAt(origin, line, |line|), outbox)
    ensures LineFacts(origin, line + [outbox])
  {
    hide Flat, Entries, Ascending;
    EntriesSnoc(line, outbox);
    AscendingAppend(Entries(line), Flat(outbox), BaseAt(origin, line, |line|).lastNs);
  }

  lemma {:induction false} LineAscends(rules: Rules, filter: bool, origin: State, line: seq<Outbox>)
    requires Linear(rules, filter, origin, line)
    ensures LineFacts(origin, line)
  {
    if line == [] {
      hide Follows;
    } else {
      hide *;
      var front, last := line[..|line| - 1], line[|line| - 1];
      LinearFront(rules, filter, origin, line);
      LineAscends(rules, filter, origin, front);
      FollowsExtends(rules, filter, BaseAt(origin, front, |front|), last);
      LineFactsSnoc(origin, front, last);
      assert line == front + [last];
    }
  }

  // ------------------------------------------------------- replays removed

  /** What is left of a log when every entry that is not newer than all entries
      before it is dropped. */
  function Fresh(log: seq<Stream>): seq<Stream> {
    if log == [] then []
    else
      var before, last := Fresh(log[..|log| - 1]), log[|log| - 1];
      if before == [] || before[|before| - 1].ns < last.ns then before + [last] else before
  }

  lemma FreshSnoc(log: seq<Stream>, s: Stream)
    ensures var before := Fresh(log);
            Fresh(log + [s]) == if before == [] || before[|before| - 1].ns < s.ns then before + [s] else before
  {
    assert (log + [s])[..|log|] == log;
  }

  lemma {:induction false} FreshWithin(log: seq<Stream>)
    ensures forall s <- Fresh(log) :: s in log
  {
    if log != [] {
      FreshWithin(log[..|log| - 1]);
    }
  }

  /** Replaying a stretch of an ascending line that begins no later than what
      was reached adds nothing but what is new. */
  lemma {:induction false} Replay(entries: seq<Stream>, log: seq<Stream>, reached: nat, x: nat, n: nat)
    requires Ascending(entries)
    requires reached <= |entries| && Fresh(log) == entries[..reached]
    requires x <= reached && x + n <= |entries|
    ensures Fresh(log + entries[x..x + n]) == entries[..Max(reached, x + n)]
  {
    hide Fresh, Ascending;
    if n == 0 {
      assert log + entries[x..x] == log;
    } else {
      SliceSnoc(log, entries, x, x + n - 1);
      Replay(entries, log, reached, x, n - 1);
      ReplayOne(entries, log + entries[x..x + n - 1], Max(reached, x + n - 1), x + n - 1);
    }
  }

  lemma SliceSnoc(log: seq<Stream>, entries: seq<Stream>, x: nat, y: nat)
    requires x <= y < |entries|
    ensures log + entries[x..y + 1] == log + entries[x..y] + [entries[y]]
  {
    assert entries[x..y + 1] == entries[x..y] + [entries[y]];
  }

  lemma ReplayOne(entries: seq<Stream>, log: seq<Stream>, reached: nat, y: nat)
    requires Ascending(entries)
    requires y <= reached <= |entries| && y < |entries| && Fresh(log) == entries[..reached]
    ensures Fresh(log + [entries[y]]) == entries[..Max(reached, y + 1)]
  {
    FreshSnoc(log, entries[y]);
    hide Fresh;
    if y == reached {
      assert entries[..y] + [entries[y]] == entries[..y + 1];
      assert y > 0 ==> entries[y - 1].ns < entries[y].ns;
    } else {
      assert entries[..reached][reached - 1] == entries[reached - 1];
    }
  }

  // --------------------------------------------------------------- tracking

  /** What an outbox was prepared from, and in which step of the run; None if
      before it. */
  datatype Source = Source(poll: Option<nat>, snapshot: Snapshot, now: int)

  /** A world together with its history: the line of all outboxes ever taken up
      for sending and what they were prepared from, the source of the outbox
      last put into the file, how many of the line the state file and the
      memory acknowledge, and the number of steps taken. */
  datatype Track = Track(
    w: World, line: seq<Outbox>, sources: seq<Source>, waiting: Option<Source>, onDisk: nat, inMemory: nat, steps: nat)

  function Stripped(state: State): State {
    state.(pending := None)
  }

  /** An outbox over the first i of the line: the next one, or one not yet sent. */
  ghost predicate OutboxOk(rules: Rules, filter: bool, origin: State, line: seq<Outbox>, i: nat, outbox: Outbox) {
    || (i == |line| && Follows(rules, filter, BaseAt(origin, line, i), outbox))
    || (i + 1 == |line| && line[i] == outbox)
  }

  ghost predicate FileOk(rules: Rules, filter: bool, origin: State, t: Track) {
    match t.w.file
    case Missing => origin == INITIAL && t.line == [] && t.onDisk == 0
    case Unreadable => false
    case Holds(state) =>
      && t.onDisk <= |t.line|
      && Stripped(state) == BaseAt(origin, t.line, t.onDisk)
      && match state.pending
         case None => t.onDisk == |t.line|
         case Some(outbox) => OutboxOk(rules, filter, origin, t.line, t.onDisk, outbox)
  }

  /** If memory holds an outbox, the file holds it or what it leads to. If it
      holds none, it is as far as the file, and an outbox in the file was never
      sent. */
  ghost predicate MemoryOk(origin: State, t: Track) {
    t.w.memory.Some? ==>
      var state := t.w.memory.value;
      && t.inMemory <= |t.line|
      && Stripped(state) == BaseAt(origin, t.line, t.inMemory)
      && match state.pending
         case None => t.inMemory == t.onDisk == |t.line|
         case Some(outbox) =>
           && t.inMemory + 1 == |t.line|
           && t.line[t.inMemory] == outbox
           && t.w.file.Holds?
           && (if t.onDisk == t.inMemory then t.w.file.state.pending == Some(outbox)
               else t.onDisk == |t.line| && t.w.file.state == outbox.next)
  }

  ghost predicate MadeFrom(rules: Rules, filter: bool, base: State, source: Source, outbox: Outbox) {
    PreparedBy(rules, filter, base, source.snapshot, source.now, outbox)
  }

  /** The file holds an outbox that is not in the line. */
  predicate Waits(t: Track) {
    t.w.file.Holds? && t.w.file.state.pending.Some? && t.onDisk == |t.line|
  }

  /** Every outbox of the line was prepared from its source, on the state the
      one before it leads to; so was one that waits in the file. */
  ghost predicate SourcesOk(rules: Rules, filter: bool, origin: State, t: Track) {
    && |t.sources| == |t.line|
    && (forall i | 0 <= i < |t.line| :: MadeFrom(rules, filter, BaseAt(origin, t.line, i), t.sources[i], t.line[i]))
    && (Waits(t) ==>
          t.waiting.Some? && MadeFrom(rules, filter, BaseAt(origin, t.line, |t.line|), t.waiting.value, t.w.file.state.pending.value))
  }

  function Acked(t: Track): nat {
    if t.w.memory.Some? then Max(t.onDisk, t.inMemory) else t.onDisk
  }

  /** Loki has every acknowledged entry, and nothing but entries of the line;
      without replays it has a prefix of the line, in order. */
  ghost predicate LogOk(t: Track) {
    && Acked(t) <= |t.line|
    && Fresh(t.w.accepted) <= Entries(t.line)
    && |Entries(t.line[..Acked(t)])| <= |Fresh(t.w.accepted)|
    && forall s <- t.w.accepted :: s in Entries(t.line)
  }

  ghost predicate Inv(rules: Rules, filter: bool, origin: State, t: Track) {
    && Linear(rules, filter, origin, t.line)
    && FileOk(rules, filter, origin, t)
    && MemoryOk(origin, t)
    && LogOk(t)
    && SourcesOk(rules, filter, origin, t)
  }

  function TrackLoad(t: Track, c: Conditions): Track {
    var (w, status) := Loaded(t.w, c);
    if t.w.memory.Some? || status != Goes then t.(w := w)
    else
      var pending := w.memory.value.pending;
      var taken := pending.Some? && t.onDisk == |t.line|;
      t.(w := w, inMemory := t.onDisk,
         line := if taken then t.line + [pending.value] else t.line,
         sources := if taken && t.waiting.Some? then t.sources + [t.waiting.value] else t.sources)
  }

  function TrackArm(rules: Rules, filter: bool, t: Track, c: Conditions): Track
    requires t.w.memory.Some?
  {
    var (w, status) := Armed(rules, filter, t.w, c);
    if t.w.memory.value.pending.Some? || Fetch(c).None? then t.(w := w)
    else
      var source := Source(Some(t.steps), Fetch(c).value, c.now);
      var u := t.(w := w, waiting := if w.file == t.w.file then t.waiting else Some(source));
      if status == Goes then u.(waiting := Some(source), line := t.line + [w.memory.value.pending.value], sources := t.sources + [source])
      else u
  }

  function TrackSend(t: Track, c: Conditions): Track
    requires t.w.memory.Some? && t.w.memory.value.pending.Some?
  {
    t.(w := Sending(t.w, c).0)
  }

  function TrackCommit(t: Track, c: Conditions): Track
    requires t.w.memory.Some? && t.w.memory.value.pending.Some?
  {
    var (w, status) := Committed(t.w, c);
    var written := Valid(t.w.memory.value.pending.value.next) && c.saveNext != FailsBefore;
    t.(w := w, onDisk := if written then t.inMemory + 1 else t.onDisk,
       inMemory := if status == Goes then t.inMemory + 1 else t.inMemory)
  }

  function TrackSettle(t: Track, status: Status): Track {
    if status == Fails then t.(w := Failed(t.w)) else t
  }

  function TrackPoll(rules: Rules, filter: bool, t: Track, c: Conditions): Track {
    var t1, s1 := TrackLoad(t, c), Loaded(t.w, c).1;
    if s1 != Goes then TrackSettle(t1, s1)
    else
      var t2, s2 := TrackArm(rules, filter, t1, c), Armed(rules, filter, t1.w, c).1;
      if s2 != Goes then TrackSettle(t2, s2)
      else
        var t3, s3 := TrackSend(t2, c), Sending(t2.w, c).1;
        if s3 != Goes then TrackSettle(t3, s3) else TrackSettle(TrackCommit(t3, c), Committed(t3.w, c).1)
  }

  function TrackStep(rules: Rules, filter: bool, t: Track, e: Event): Track {
    var after := match e
      case Polls(c) => TrackPoll(rules, filter, t, c)
      case Restart => t.(w := Restarted(t.w));
    after.(steps := t.steps + 1)
  }

  function TrackRun(rules: Rules, filter: bool, t: Track, events: seq<Event>): Track {
    if events == [] then t
    else TrackStep(rules, filter, TrackRun(rules, filter, t, events[..|events| - 1]), events[|events| - 1])
  }

  // ----------------------------------------------------------- preservation

  lemma {:induction false} EntriesPrefix(line: seq<Outbox>, i: nat)
    requires i <= |line|
    ensures Entries(line[..i]) <= Entries(line)
  {
    hide Flat;
    if i < |line| {
      var front := line[..|line| - 1];
      EntriesPrefix(front, i);
      assert front[..i] == line[..i];
    } else {
      assert line[..i] == line;
    }
  }

  lemma LogGrows(t: Track, outbox: Outbox)
    requires LogOk(t)
    ensures LogOk(t.(line := t.line + [outbox]))
  {
    hide Fresh, Flat, Entries;
    EntriesSnoc(t.line, outbox);
    assert (t.line + [outbox])[..Acked(t)] == t.line[..Acked(t)];
  }

  /** Only the acknowledgements and the accepted log matter for LogOk. */
  lemma LogSame(t: Track, u: Track)
    requires LogOk(t) && u.line == t.line && u.w.accepted == t.w.accepted && Acked(u) <= Acked(t)
    ensures LogOk(u)
  {
    hide Fresh, Entries;
    var short, long := t.line[..Acked(u)], t.line[..Acked(t)];
    EntriesPrefix(long, Acked(u));
    assert long[..Acked(u)] == short;
  }

  lemma SourcesSame(rules: Rules, filter: bool, origin: State, t: Track, u: Track)
    requires SourcesOk(rules, filter, origin, t) && u.line == t.line && u.sources == t.sources
    requires Waits(u) ==> Waits(t) && u.waiting == t.waiting && u.w.file == t.w.file
    ensures SourcesOk(rules, filter, origin, u)
  {
    hide MadeFrom;
  }

  lemma SourcesWait(rules: Rules, filter: bool, origin: State, t: Track, u: Track)
    requires SourcesOk(rules, filter, origin, t) && u.line == t.line && u.sources == t.sources
    requires Waits(u) ==>
               u.waiting.Some?
               && MadeFrom(rules, filter, BaseAt(origin, u.line, |u.line|), u.waiting.value, u.w.file.state.pending.value)
    ensures SourcesOk(rules, filter, origin, u)
  {
    hide MadeFrom;
  }

  lemma SourcesGrow(rules: Rules, filter: bool, origin: State, t: Track, u: Track, source: Source, outbox: Outbox)
    requires SourcesOk(rules, filter, origin, t) && MadeFrom(rules, filter, BaseAt(origin, t.line, |t.line|), source, outbox)
    requires u.line == t.line + [outbox] && u.sources == t.sources + [source] && !Waits(u)
    ensures SourcesOk(rules, filter, origin, u)
  {
    hide MadeFrom;
    BaseGrows(origin, t.line, outbox);
  }

  lemma LoadKeeps(rules: Rules, filter: bool, origin: State, t: Track, c: Conditions)
    requires Inv(rules, filter, origin, t)
    ensures Inv(rules, filter, origin, TrackLoad(t, c))
    ensures TrackLoad(t, c).w == Loaded(t.w, c).0
  {
    hide *;
    LoadIs(t, c);
    if t.w.memory.Some? || Load(t.w.file, c.readable).None? {
      NoLoadKeeps(rules, filter, origin, t, TrackLoad(t, c));
    } else {
      ReadKeeps(rules, filter, origin, t, TrackLoad(t, c), Load(t.w.file, c.readable).value);
    }
  }

  /** The three ways a load can go. */
  lemma LoadIs(t: Track, c: Conditions)
    ensures var u, state := TrackLoad(t, c), Load(t.w.file, c.readable);
            && u.w == Loaded(t.w, c).0
            && if t.w.memory.Some? then u == t.(w := t.w.(stateValid := true))
               else if state.None? then u == t
               else u == AfterRead(t, state.value) && (t.w.file == Holds(state.value) || (t.w.file.Missing? && state.value == INITIAL))
  {
    hide Valid;
  }

  /** A state was read into the empty memory. */
  function AfterRead(t: Track, state: State): Track {
    var taken := Taken(t, state);
    t.(w := t.w.(memory := Some(state), stateValid := true), inMemory := t.onDisk,
       line := if taken then t.line + [state.pending.value] else t.line,
       sources := if taken && t.waiting.Some? then t.sources + [t.waiting.value] else t.sources)
  }

  lemma NoLoadKeeps(rules: Rules, filter: bool, origin: State, t: Track, u: Track)
    requires Inv(rules, filter, origin, t)
    requires u == t.(w := u.w) && u.w == t.w.(stateValid := u.w.stateValid)
    ensures Inv(rules, filter, origin, u)
  {
    hide Linear, LogOk, SourcesOk, OutboxOk;
    LogSame(t, u);
    SourcesSame(rules, filter, origin, t, u);
  }

  lemma ReadKeeps(rules: Rules, filter: bool, origin: State, t: Track, u: Track, state: State)
    requires Inv(rules, filter, origin, t) && t.w.memory.None? && u == AfterRead(t, state)
    requires t.w.file == Holds(state) || (t.w.file.Missing? && state == INITIAL)
    ensures Inv(rules, filter, origin, u)
  {
    hide *;
    if Taken(t, state) {
      TakenKeeps(rules, filter, origin, t, u, state);
    } else {
      ReadAgainKeeps(rules, filter, origin, t, u, state);
    }
  }

  /** An outbox is read that is not in the line yet. */
  predicate Taken(t: Track, state: State) {
    state.pending.Some? && t.onDisk == |t.line|
  }

  lemma TakenKeeps(rules: Rules, filter: bool, origin: State, t: Track, u: Track, state: State)
    requires Inv(rules, filter, origin, t) && t.w.memory.None? && u == AfterRead(t, state) && Taken(t, state)
    requires t.w.file == Holds(state) || (t.w.file.Missing? && state == INITIAL)
    ensures Inv(rules, filter, origin, u)
  {
    hide Linear, LogOk, SourcesOk, Follows, FileOk, MemoryOk;
    var v := t.(w := u.w, inMemory := t.onDisk);
    LogSame(t, v);
    LogGrows(v, state.pending.value);
    WaitingSource(rules, filter, origin, t);
    LogWhole(v.(line := u.line), u);
    TakenFacts(rules, filter, origin, t, u, state);
    LinearSnoc(rules, filter, origin, t.line, state.pending.value);
    SourcesGrow(rules, filter, origin, t, u, t.waiting.value, state.pending.value);
  }

  lemma TakenFacts(rules: Rules, filter: bool, origin: State, t: Track, u: Track, state: State)
    requires FileOk(rules, filter, origin, t) && Taken(t, state) && t.waiting.Some?
    requires u == AfterRead(t, state) && (t.w.file == Holds(state) || (t.w.file.Missing? && state == INITIAL))
    ensures Follows(rules, filter, BaseAt(origin, t.line, |t.line|), state.pending.value)
    ensures FileOk(rules, filter, origin, u) && MemoryOk(origin, u)
  {
    hide Follows;
    BaseGrows(origin, t.line, state.pending.value);
  }

  lemma ReadAgainKeeps(rules: Rules, filter: bool, origin: State, t: Track, u: Track, state: State)
    requires Inv(rules, filter, origin, t) && t.w.memory.None? && u == AfterRead(t, state) && !Taken(t, state)
    requires t.w.file == Holds(state) || (t.w.file.Missing? && state == INITIAL)
    ensures Inv(rules, filter, origin, u)
  {
    hide Linear, LogOk, SourcesOk, Follows;
    LogSame(t, u);
    SourcesSame(rules, filter, origin, t, u);
  }

  lemma WaitingSource(rules: Rules, filter: bool, origin: State, t: Track)
    requires SourcesOk(rules, filter, origin, t) && Waits(t)
    ensures t.waiting.Some?
    ensures MadeFrom(rules, filter, BaseAt(origin, t.line, |t.line|), t.waiting.value, t.w.file.state.pending.value)
  {
    hide MadeFrom;
  }

  lemma BaseGrows(origin: State, line: seq<Outbox>, outbox: Outbox)
    ensures forall i | 0 <= i <= |line| :: BaseAt(origin, line + [outbox], i) == BaseAt(origin, line, i)
  {
  }

  lemma PreparedFollows(rules: Rules, filter: bool, base: State, snapshot: Snapshot, now: int)
    requires SnapshotOk(snapshot) && base.pending.None?
    requires Prepared(rules, filter, base, snapshot, now).Returned?
    ensures var out := Prepared(rules, filter, base, snapshot, now).value;
            && out.pending.Some?
            && Stripped(out) == base
            && Follows(rules, filter, base, out.pending.value)
            && forall p :: MadeFrom(rules, filter, base, Source(p, snapshot, now), out.pending.value)
  {
    var out := Prepared(rules, filter, base, snapshot, now).value;
    hide EmitAll, Tasks, Valid, Closed, NextState, KINDS;
    assert out == base.(pending := Some(out.pending.value));
    assert PreparedBy(rules, filter, base, snapshot, now, out.pending.value);
  }

  lemma ArmKeeps(rules: Rules, filter: bool, origin: State, t: Track, c: Conditions)
    requires Inv(rules, filter, origin, t) && t.w.memory.Some?
    ensures Inv(rules, filter, origin, TrackArm(rules, filter, t, c))
    ensures TrackArm(rules, filter, t, c).w == Armed(rules, filter, t.w, c).0
  {
    hide Follows, Linear, Valid, Prepared, LogOk, Fetch, SourcesOk;
    var base, u := t.w.memory.value, TrackArm(rules, filter, t, c);
    if base.pending.Some? || Fetch(c).None? {
      LogSame(t, u);
      SourcesSame(rules, filter, origin, t, u);
    } else {
      FetchOk(c);
      var r := Prepared(rules, filter, base, Fetch(c).value, c.now);
      if r.Returned? {
        ArmedReturned(rules, filter, t, c);
        PreparedFollows(rules, filter, base, Fetch(c).value, c.now);
        var (file, ok) := AtomicSave(t.w.file, r.value, c.saveOutbox);
        var outbox, source := r.value.pending.value, Source(Some(t.steps), Fetch(c).value, c.now);
        BaseIsMemory(rules, filter, origin, t);
        if ok {
          var v := t.(w := t.w.(file := file, memory := Some(r.value)));
          LogSame(t, v);
          LogGrows(v, outbox);
          LogWhole(v.(line := t.line + [outbox]), u);
          LinearSnoc(rules, filter, origin, t.line, outbox);
          BaseGrows(origin, t.line, outbox);
          SourcesGrow(rules, filter, origin, t, u, source, outbox);
        } else {
          LogSame(t, u);
          SourcesWait(rules, filter, origin, t, u) by {
            if u.w.file == t.w.file && Waits(t) {
              WaitingSource(rules, filter, origin, t);
            }
          }
        }
      } else {
        LogSame(t, u);
        SourcesSame(rules, filter, origin, t, u);
      }
    }
  }

  /** What arming does once prepare has returned. */
  lemma ArmedReturned(rules: Rules, filter: bool, t: Track, c: Conditions)
    requires t.w.memory.Some? && t.w.memory.value.pending.None? && Fetch(c).Some? && SnapshotOk(Fetch(c).value)
    requires Prepared(rules, filter, t.w.memory.value, Fetch(c).value, c.now).Returned?
    ensures var out := Prepared(rules, filter, t.w.memory.value, Fetch(c).value, c.now).value;
            var (file, ok) := AtomicSave(t.w.file, out, c.saveOutbox);
            Armed(rules, filter, t.w, c) == if ok then (t.w.(file := file, memory := Some(out)), Goes) else (t.w.(file := file), Fails)
  {
    hide Prepared, Fetch, Valid;
  }

  lemma BaseIsMemory(rules: Rules, filter: bool, origin: State, t: Track)
    requires Inv(rules, filter, origin, t) && t.w.memory.Some? && t.w.memory.value.pending.None?
    ensures BaseAt(origin, t.line, |t.line|) == t.w.memory.value
    ensures t.inMemory == t.onDisk == |t.line|
  {
    hide Linear, LogOk, SourcesOk, FileOk;
  }

  lemma LogWhole(t: Track, u: Track)
    requires LogOk(t) && u.line == t.line && u.w == t.w && u.onDisk == t.onDisk && u.inMemory == t.inMemory
    ensures LogOk(u)
  {
    hide Fresh, Entries;
  }

  lemma FetchOk(c: Conditions)
    ensures Fetch(c).Some? ==> SnapshotOk(Fetch(c).value)
  {
  }

  lemma {:induction false} ConcatPrefix(batches: seq<Batch>, n: nat)
    requires n <= |batches|
    ensures Concat(batches[..n]) <= Concat(batches)
  {
    assert batches == batches[..n] + batches[n..];
    ConcatAppend(batches[..n], batches[n..]);
  }

  /** Sending any first part of the last outbox of the line, again or for the
      first time. */
  lemma LogSends(t: Track, front: seq<Outbox>, outbox: Outbox, sent: seq<Stream>)
    requires LogOk(t) && t.line == front + [outbox] && Ascending(Entries(t.line))
    requires |front| <= Acked(t) && sent <= Flat(outbox)
    ensures LogOk(t.(w := t.w.(accepted := t.w.accepted + sent)))
    ensures sent == Flat(outbox) ==> Fresh(t.w.accepted + sent) == Entries(t.line)
  {
    hide Flat, Fresh, Entries, Ascending;
    EntriesSnoc(front, outbox);
    var entries, x, reached := Entries(t.line), |Entries(front)|, |Fresh(t.w.accepted)|;
    assert entries[x..x + |sent|] == sent;
    EntriesPrefix(t.line[..Acked(t)], |front|);
    assert t.line[..Acked(t)][..|front|] == front;
    Replay(entries, t.w.accepted, reached, x, |sent|);
    if sent == Flat(outbox) {
      assert entries[..|entries|] == entries;
    }
    forall s <- sent
      ensures s in entries
    {
    }
  }

  lemma SendKeeps(rules: Rules, filter: bool, origin: State, t: Track, c: Conditions)
    requires Inv(rules, filter, origin, t) && t.w.memory.Some? && t.w.memory.value.pending.Some?
    ensures Inv(rules, filter, origin, TrackSend(t, c))
    ensures Sending(t.w, c).1 == Goes ==> Fresh(TrackSend(t, c).w.accepted) == Entries(t.line)
  {
    hide Follows, Delivered, Concat, Fresh, Entries, Linear, Ascending, LogOk, SourcesOk;
    SourcesSame(rules, filter, origin, t, TrackSend(t, c));
    var outbox := t.w.memory.value.pending.value;
    var (n, done) := Delivered(outbox.batches, c.sends);
    DeliveryBounds(outbox.batches, c.sends);
    var sent := Concat(outbox.batches[..n]);
    ConcatPrefix(outbox.batches, n);
    var front := t.line[..t.inMemory];
    assert t.line == front + [outbox];
    LineAscends(rules, filter, origin, t.line);
    LogSends(t, front, outbox, sent);
    LogSame(t.(w := t.w.(accepted := t.w.accepted + sent)), TrackSend(t, c));
    if done {
      assert outbox.batches[..n] == outbox.batches;
    }
  }

  lemma DeliveryBounds(batches: seq<Batch>, sends: seq<Send>)
    ensures Delivered(batches, sends).0 <= |batches|
    ensures Delivered(batches, sends).1 ==> Delivered(batches, sends).0 == |batches|
  {
  }

  lemma CommitKeeps(rules: Rules, filter: bool, origin: State, t: Track, c: Conditions)
    requires Inv(rules, filter, origin, t) && t.w.memory.Some? && t.w.memory.value.pending.Some?
    requires Fresh(t.w.accepted) == Entries(t.line)
    ensures Inv(rules, filter, origin, TrackCommit(t, c))
    ensures TrackCommit(t, c).w == Committed(t.w, c).0
  {
    hide Follows, Valid, Fresh, Entries, Linear, OutboxOk, SourcesOk;
    var outbox := t.w.memory.value.pending.value;
    var u := TrackCommit(t, c);
    LineAscends(rules, filter, origin, t.line);
    assert BaseAt(origin, t.line, t.inMemory + 1) == outbox.next;
    assert Stripped(outbox.next) == outbox.next;
    EntriesPrefix(t.line, Acked(u));
    SourcesSame(rules, filter, origin, t, u);
  }

  lemma SettleKeeps(rules: Rules, filter: bool, origin: State, t: Track, status: Status)
    requires Inv(rules, filter, origin, t)
    ensures Inv(rules, filter, origin, TrackSettle(t, status))
    ensures TrackSettle(t, status).w == Settle((t.w, status))
  {
    hide Linear, LogOk, OutboxOk, SourcesOk;
    LogSame(t, TrackSettle(t, status));
    SourcesSame(rules, filter, origin, t, TrackSettle(t, status));
  }

  lemma RestartKeeps(rules: Rules, filter: bool, origin: State, t: Track)
    requires Inv(rules, filter, origin, t)
    ensures Inv(rules, filter, origin, t.(w := Restarted(t.w)))
  {
    hide Linear, LogOk, OutboxOk, SourcesOk;
    LogSame(t, t.(w := Restarted(t.w)));
    SourcesSame(rules, filter, origin, t, t.(w := Restarted(t.w)));
  }

  lemma CountKeeps(rules: Rules, filter: bool, origin: State, t: Track, steps: nat)
    requires Inv(rules, filter, origin, t)
    ensures Inv(rules, filter, origin, t.(steps := steps))
  {
    hide Linear, LogOk, OutboxOk, SourcesOk;
    LogSame(t, t.(steps := steps));
    SourcesSame(rules, filter, origin, t, t.(steps := steps));
  }

  lemma LoadStatus(t: Track, c: Conditions)
    ensures Loaded(t.w, c).1 == Goes ==> TrackLoad(t, c).w.memory.Some?
  {
    hide Valid;
  }

  lemma ArmStatus(rules: Rules, filter: bool, t: Track, c: Conditions)
    requires t.w.memory.Some?
    ensures Armed(rules, filter, t.w, c).1 == Goes ==>
              var memory := TrackArm(rules, filter, t, c).w.memory;
              memory.Some? && memory.value.pending.Some?
  {
    hide Prepared, Fetch, AtomicSave;
    ArmedSome(rules, filter, t.w, c);
  }

  lemma SendStatus(t: Track, c: Conditions)
    requires t.w.memory.Some? && t.w.memory.value.pending.Some?
    ensures TrackSend(t, c).w.memory == t.w.memory
    ensures TrackSend(t, c).w == Sending(t.w, c).0
    ensures TrackSend(t, c).line == t.line
  {
  }

  lemma PollKeeps(rules: Rules, filter: bool, origin: State, t: Track, c: Conditions)
    requires Inv(rules, filter, origin, t)
    ensures Inv(rules, filter, origin, TrackPoll(rules, filter, t, c))
    ensures TrackPoll(rules, filter, t, c).w == AfterPoll(rules, filter, t.w, c)
  {
    hide Inv, TrackLoad, TrackArm, TrackSend, TrackCommit, TrackSettle, Loaded, Armed, Sending, Committed, Settle, Fresh, Entries;
    var t1, s1 := TrackLoad(t, c), Loaded(t.w, c).1;
    LoadKeeps(rules, filter, origin, t, c);
    LoadStatus(t, c);
    if s1 != Goes {
      SettleKeeps(rules, filter, origin, t1, s1);
    } else {
      var t2, s2 := TrackArm(rules, filter, t1, c), Armed(rules, filter, t1.w, c).1;
      ArmKeeps(rules, filter, origin, t1, c);
      ArmStatus(rules, filter, t1, c);
      if s2 != Goes {
        SettleKeeps(rules, filter, origin, t2, s2);
      } else {
        var t3, s3 := TrackSend(t2, c), Sending(t2.w, c).1;
        SendKeeps(rules, filter, origin, t2, c);
        SendStatus(t2, c);
        if s3 != Goes {
          SettleKeeps(rules, filter, origin, t3, s3);
        } else {
          CommitKeeps(rules, filter, origin, t3, c);
          SettleKeeps(rules, filter, origin, TrackCommit(t3, c), Committed(t3.w, c).1);
        }
      }
    }
  }

  lemma {:induction false} RunKeeps(rules: Rules, filter: bool, origin: State, t: Track, events: seq<Event>)
    requires Inv(rules, filter, origin, t)
    ensures Inv(rules, filter, origin, TrackRun(rules, filter, t, events))
    ensures TrackRun(rules, filter, t, events).w == Run(rules, filter, t.w, events)
  {
    hide Inv, TrackPoll, AfterPoll, Restarted;
    if events != [] {
      var front, e := events[..|events| - 1], events[|events| - 1];
      RunKeeps(rules, filter, origin, t, front);
      var before := TrackRun(rules, filter, t, front);
      match e
      case Polls(c) =>
        PollKeeps(rules, filter, origin, before, c);
        CountKeeps(rules, filter, origin, TrackPoll(rules, filter, before, c), before.steps + 1);
      case Restart =>
        RestartKeeps(rules, filter, origin, before);
        CountKeeps(rules, filter, origin, before.(w := Restarted(before.w)), before.steps + 1);
    }
  }
}
