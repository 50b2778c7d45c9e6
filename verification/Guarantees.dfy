/** The main results about the log pipeline, over every run. */
module Guarantees {
  import opened Basics
  import opened Sources
  import opened Records
  import opened States
  import opened Rendering
  import opened Rotation
  import opened Prepare
  import opened Emission
  import opened Collector
  import opened Delivery
  import opened Contents

  function Fresh0(file: Stored): World {
    World(file, [], None, false, false, 0, 0)
  }

  /** The state the run starts from: none yet, or one on disk, which may hold an
      outbox that was prepared on it from the source that waits. */
  ghost predicate StartsFrom(rules: Rules, filter: bool, origin: State, file: Stored, waiting: Option<Source>) {
    && (waiting.Some? ==> waiting.value.poll.None?)
    && match file
       case Missing => origin == INITIAL
       case Unreadable => false
       case Holds(state) =>
         && origin == Stripped(state)
         && (state.pending.Some? ==> waiting.Some? && MadeFrom(rules, filter, origin, waiting.value, state.pending.value))
  }

  /** The history of a run. */
  function Tracked(rules: Rules, filter: bool, file: Stored, waiting: Option<Source>, events: seq<Event>): Track {
    TrackRun(rules, filter, Track(Fresh0(file), [], [], waiting, 0, 0, 0), events)
  }

  /** The history of every run satisfies the invariant, and names for each outbox
      the poll that fetched what it was prepared from, in order. */
  lemma History(rules: Rules, filter: bool, origin: State, file: Stored, waiting: Option<Source>, events: seq<Event>)
    requires StartsFrom(rules, filter, origin, file, waiting)
    ensures var t := Tracked(rules, filter, file, waiting, events);
            && Inv(rules, filter, origin, t)
            && t.w == Run(rules, filter, Fresh0(file), events)
            && Provenance(events, t, |events|)
  {
    hide *;
    var start := Track(Fresh0(file), [], [], waiting, 0, 0, 0);
    StartOk(rules, filter, origin, file, waiting);
    RunKeeps(rules, filter, origin, start, events);
    RunProvenance(rules, filter, origin, start, events);
    TrackedIs(rules, filter, file, waiting, events);
  }

  lemma TrackedIs(rules: Rules, filter: bool, file: Stored, waiting: Option<Source>, events: seq<Event>)
    ensures Tracked(rules, filter, file, waiting, events)
         == TrackRun(rules, filter, Track(Fresh0(file), [], [], waiting, 0, 0, 0), events)
  {
    hide TrackRun;
  }

  lemma StartOk(rules: Rules, filter: bool, origin: State, file: Stored, waiting: Option<Source>)
    requires StartsFrom(rules, filter, origin, file, waiting)
    ensures var start := Track(Fresh0(file), [], [], waiting, 0, 0, 0);
            Inv(rules, filter, origin, start) && Provenance([], start, 0)
  {
    hide PreparedBy;
    if file.Holds? && file.state.pending.Some? {
      assert PreparedBy(rules, filter, origin, waiting.value.snapshot, waiting.value.now, file.state.pending.value);
    }
  }

  // ---------------------------------------------------------- provenance

  /** The source is what one poll of the run has fetched, at its time. */
  ghost predicate FetchedIn(events: seq<Event>, s: Source) {
    s.poll.Some? ==>
      var k := s.poll.value;
      k < |events| && events[k].Polls? && Fetch(events[k].c) == Some(s.snapshot) && s.now == events[k].c.now
  }

  ghost predicate SourceOk(events: seq<Event>, s: Source, bound: nat) {
    FetchedIn(events, s) && (s.poll.Some? ==> s.poll.value < bound)
  }

  /** Each source is of a later poll than the one before; only the first can be
      older than the run. */
  ghost predicate Ordered(sources: seq<Source>) {
    forall i, j | 0 <= i < j < |sources| :: Earlier(sources[i], sources[j])
  }

  predicate Earlier(a: Source, b: Source) {
    b.poll.Some? && (a.poll.Some? ==> a.poll.value < b.poll.value)
  }

  ghost predicate Provenance(events: seq<Event>, t: Track, bound: nat) {
    && (forall s <- t.sources :: SourceOk(events, s, bound))
    && (t.waiting.Some? ==> SourceOk(events, t.waiting.value, bound))
    && Ordered(t.sources)
    && (Waits(t) && t.waiting.Some? ==> Ordered(t.sources + [t.waiting.value]))
  }

  lemma OrderedSnoc(events: seq<Event>, sources: seq<Source>, s: Source, bound: nat)
    requires Ordered(sources) && forall x <- sources :: SourceOk(events, x, bound)
    requires s.poll.Some? && s.poll.value >= bound
    ensures Ordered(sources + [s])
  {
    hide FetchedIn;
    var grown := sources + [s];
    forall i, j | 0 <= i < j < |grown|
      ensures Earlier(grown[i], grown[j])
    {
      assert grown[i] == sources[i] && SourceOk(events, sources[i], bound);
      assert j < |sources| ==> grown[j] == sources[j];
    }
  }

  lemma ProvenanceSame(events: seq<Event>, t: Track, u: Track, bound: nat)
    requires Provenance(events, t, bound) && u.sources == t.sources && u.waiting == t.waiting
    requires Waits(u) ==> Waits(t)
    ensures Provenance(events, u, bound)
  {
    hide SourceOk, Ordered, Waits;
  }

  lemma ProvenanceGrows(events: seq<Event>, more: seq<Event>, t: Track, bound: nat, wider: nat)
    requires Provenance(events, t, bound) && bound <= wider
    ensures Provenance(events + more, t, wider)
  {
    hide Ordered, Waits;
    forall s: Source | SourceOk(events, s, bound)
      ensures SourceOk(events + more, s, wider)
    {
    }
  }

  lemma LoadProvenance(events: seq<Event>, t: Track, c: Conditions, bound: nat)
    requires Provenance(events, t, bound)
    ensures Provenance(events, TrackLoad(t, c), bound)
  {
    hide SourceOk, Ordered, TrackLoad, Loaded;
    LoadIs(t, c);
  }

  lemma ArmProvenance(rules: Rules, filter: bool, events: seq<Event>, t: Track, c: Conditions)
    requires Provenance(events, t, t.steps) && t.w.memory.Some? && t.onDisk <= |t.line|
    requires t.steps < |events| && events[t.steps] == Polls(c)
    ensures Provenance(events, TrackArm(rules, filter, t, c), t.steps + 1)
  {
    hide *;
    ProvenanceGrows(events, [], t, t.steps, t.steps + 1);
    assert events + [] == events;
    if t.w.memory.value.pending.None? && Fetch(c).Some? {
      var source := Source(Some(t.steps), Fetch(c).value, c.now);
      ThisPoll(events, t.steps, c);
      OneMoreSource(events, t, source);
      ArmIs(rules, filter, t, c);
      Admitted(events, t, TrackArm(rules, filter, t, c), source);
    } else {
      ArmIdle(rules, filter, t, c);
    }
  }

  /** What arming adds to the history. */
  lemma ArmIs(rules: Rules, filter: bool, t: Track, c: Conditions)
    requires t.w.memory.Some? && t.w.memory.value.pending.None? && Fetch(c).Some? && t.onDisk <= |t.line|
    ensures var u, source := TrackArm(rules, filter, t, c), Source(Some(t.steps), Fetch(c).value, c.now);
            || (u.sources == t.sources + [source] && u.waiting == Some(source) && !Waits(u))
            || (u.sources == t.sources && u.waiting == Some(source))
            || (u.sources == t.sources && u.waiting == t.waiting && (Waits(u) ==> Waits(t)))
  {
    hide Armed, Fetch;
  }

  lemma OneMoreSource(events: seq<Event>, t: Track, source: Source)
    requires Provenance(events, t, t.steps) && source.poll == Some(t.steps)
    ensures Ordered(t.sources + [source])
  {
    hide Waits, Ordered, FetchedIn;
    OrderedSnoc(events, t.sources, source, t.steps);
  }

  lemma Admitted(events: seq<Event>, t: Track, u: Track, source: Source)
    requires Provenance(events, t, t.steps + 1) && SourceOk(events, source, t.steps + 1)
    requires Ordered(t.sources + [source])
    requires || (u.sources == t.sources + [source] && u.waiting == Some(source) && !Waits(u))
             || (u.sources == t.sources && u.waiting == Some(source))
             || (u.sources == t.sources && u.waiting == t.waiting && (Waits(u) ==> Waits(t)))
    ensures Provenance(events, u, t.steps + 1)
  {
    hide SourceOk, Ordered, Waits;
  }

  lemma ThisPoll(events: seq<Event>, k: nat, c: Conditions)
    requires k < |events| && events[k] == Polls(c) && Fetch(c).Some?
    ensures SourceOk(events, Source(Some(k), Fetch(c).value, c.now), k + 1)
  {
    hide Fetch;
  }

  lemma ArmIdle(rules: Rules, filter: bool, t: Track, c: Conditions)
    requires t.w.memory.Some? && (t.w.memory.value.pending.Some? || Fetch(c).None?)
    ensures TrackArm(rules, filter, t, c) == t
  {
    hide Fetch, Prepared;
  }

  lemma NextNone(rules: Rules, filter: bool, origin: State, t: Track)
    requires Inv(rules, filter, origin, t) && t.w.memory.Some? && t.w.memory.value.pending.Some?
    ensures t.w.memory.value.pending.value.next.pending.None?
  {
    hide *;
    HeldFacts(rules, filter, origin, t);
    InvLinear(rules, filter, origin, t);
    LineAscends(rules, filter, origin, t.line);
    LineEnds(origin, t.line);
    BaseIs(origin, t.line, t.inMemory);
  }

  lemma InvLinear(rules: Rules, filter: bool, origin: State, t: Track)
    requires Inv(rules, filter, origin, t)
    ensures Linear(rules, filter, origin, t.line)
  {
    hide Linear, LogOk, FileOk, MemoryOk, SourcesOk;
  }

  lemma LineEnds(origin: State, line: seq<Outbox>)
    requires LineFacts(origin, line)
    ensures BaseAt(origin, line, |line|).pending.None?
  {
    hide Ascending, Entries, BaseAt;
  }

  lemma CommitProvenance(rules: Rules, filter: bool, origin: State, events: seq<Event>, t: Track, c: Conditions, bound: nat)
    requires Inv(rules, filter, origin, t) && t.w.memory.Some? && t.w.memory.value.pending.Some?
    requires Provenance(events, t, bound)
    ensures Provenance(events, TrackCommit(t, c), bound)
  {
    NextNone(rules, filter, origin, t);
    hide Inv, Provenance, Valid;
    ProvenanceSame(events, t, TrackCommit(t, c), bound);
  }

  lemma PollProvenance(rules: Rules, filter: bool, origin: State, t: Track, c: Conditions, events: seq<Event>)
    requires Inv(rules, filter, origin, t) && Provenance(events, t, t.steps)
    requires t.steps < |events| && events[t.steps] == Polls(c)
    ensures Provenance(events, TrackPoll(rules, filter, t, c), t.steps + 1)
  {
    hide Inv, Provenance, TrackLoad, TrackArm, TrackSend, TrackCommit, TrackSettle, Loaded, Armed, Sending, Committed, Fresh, Entries;
    var t1, s1, bound := TrackLoad(t, c), Loaded(t.w, c).1, t.steps + 1;
    LoadProvenance(events, t, c, t.steps);
    LoadKeeps(rules, filter, origin, t, c);
    LoadStatus(t, c);
    LoadSteps(t, c);
    if s1 != Goes {
      ProvenanceGrows(events, [], t1, t.steps, bound);
      assert events + [] == events;
      SettleSame(t1, s1);
      ProvenanceSame(events, t1, TrackSettle(t1, s1), bound);
    } else {
      var t2, s2 := TrackArm(rules, filter, t1, c), Armed(rules, filter, t1.w, c).1;
      DiskWithin(rules, filter, origin, t1);
      ArmProvenance(rules, filter, events, t1, c);
      ArmKeeps(rules, filter, origin, t1, c);
      ArmStatus(rules, filter, t1, c);
      if s2 != Goes {
        SettleSame(t2, s2);
        ProvenanceSame(events, t2, TrackSettle(t2, s2), bound);
      } else {
        var t3, s3 := TrackSend(t2, c), Sending(t2.w, c).1;
        SendKeeps(rules, filter, origin, t2, c);
        SendStatus(t2, c);
        SendSame(t2, c);
        ProvenanceSame(events, t2, t3, bound);
        if s3 != Goes {
          SettleSame(t3, s3);
          ProvenanceSame(events, t3, TrackSettle(t3, s3), bound);
        } else {
          var t4, s4 := TrackCommit(t3, c), Committed(t3.w, c).1;
          CommitProvenance(rules, filter, origin, events, t3, c, bound);
          SettleSame(t4, s4);
          ProvenanceSame(events, t4, TrackSettle(t4, s4), bound);
        }
      }
    }
  }

  lemma DiskWithin(rules: Rules, filter: bool, origin: State, t: Track)
    requires Inv(rules, filter, origin, t)
    ensures t.onDisk <= |t.line|
  {
    hide Linear, FileOk, MemoryOk, SourcesOk, Entries, Fresh;
  }

  lemma LoadSteps(t: Track, c: Conditions)
    ensures TrackLoad(t, c).steps == t.steps
  {
    LoadIs(t, c);
  }

  lemma SettleSame(t: Track, status: Status)
    ensures var u := TrackSettle(t, status); u.sources == t.sources && u.waiting == t.waiting && (Waits(u) ==> Waits(t))
  {
  }

  lemma SendSame(t: Track, c: Conditions)
    requires t.w.memory.Some? && t.w.memory.value.pending.Some?
    ensures var u := TrackSend(t, c); u.sources == t.sources && u.waiting == t.waiting && (Waits(u) ==> Waits(t))
  {
  }

  lemma {:induction false} RunProvenance(rules: Rules, filter: bool, origin: State, t: Track, events: seq<Event>)
    requires Inv(rules, filter, origin, t) && Provenance([], t, 0) && t.steps == 0
    ensures Provenance(events, TrackRun(rules, filter, t, events), |events|)
    ensures TrackRun(rules, filter, t, events).steps == |events|
  {
    hide Inv, Provenance, TrackPoll, Waits;
    if events != [] {
      var front, e := events[..|events| - 1], events[|events| - 1];
      var before := TrackRun(rules, filter, t, front);
      RunProvenance(rules, filter, origin, t, front);
      RunKeeps(rules, filter, origin, t, front);
      assert events == front + [e];
      ProvenanceGrows(front, [e], before, |front|, |front|);
      if e.Polls? {
        PollProvenance(rules, filter, origin, before, e.c, events);
        Unwaited(TrackPoll(rules, filter, before, e.c), before.steps + 1);
        ProvenanceSame(events, TrackPoll(rules, filter, before, e.c), TrackRun(rules, filter, t, events), |events|);
      } else {
        Unwaited(before.(w := Restarted(before.w)), before.steps + 1);
        RestartWaits(before);
        ProvenanceGrows(events, [], before, |front|, |events|);
        assert events + [] == events;
        ProvenanceSame(events, before, TrackRun(rules, filter, t, events), |events|);
      }
    }
  }

  lemma Unwaited(t: Track, steps: nat)
    ensures Waits(t.(steps := steps)) == Waits(t)
  {
  }

  lemma RestartWaits(t: Track)
    ensures Waits(t.(w := Restarted(t.w))) == Waits(t)
  {
  }

  // ------------------------------------------------------- at least once

  /** At least once, in order: without replays Loki has accepted exactly a
      prefix of the line of outboxes, in ascending time order; that prefix covers
      everything the state file or the memory acknowledges; and Loki has
      accepted nothing else. */
  lemma AtLeastOnce(rules: Rules, filter: bool, origin: State, t: Track)
    requires Inv(rules, filter, origin, t)
    ensures forall s <- Entries(t.line[..Acked(t)]) :: s in t.w.accepted
    ensures forall s <- t.w.accepted :: s in Entries(t.line)
    ensures Ascending(Entries(t.line))
    ensures exists k: nat :: k <= |Entries(t.line)| && |Entries(t.line[..Acked(t)])| <= k
                             && Fresh(t.w.accepted) == Entries(t.line)[..k]
  {
    hide *;
    InvFacts(rules, filter, origin, t);
    EntriesPrefix(t.line, Acked(t));
    FreshWithin(t.w.accepted);
    LongerPrefix(Entries(t.line[..Acked(t)]), Fresh(t.w.accepted), Entries(t.line));
  }

  lemma InvFacts(rules: Rules, filter: bool, origin: State, t: Track)
    requires Inv(rules, filter, origin, t)
    ensures Acked(t) <= |t.line| && Ascending(Entries(t.line))
    ensures Fresh(t.w.accepted) <= Entries(t.line)
    ensures |Entries(t.line[..Acked(t)])| <= |Fresh(t.w.accepted)|
    ensures forall s <- t.w.accepted :: s in Entries(t.line)
  {
    LineAscends(rules, filter, origin, t.line);
    hide Entries, Fresh, Ascending, Linear, FileOk, MemoryOk, SourcesOk, Acked;
  }

  /** Of two prefixes the longer one contains the shorter. */
  lemma LongerPrefix(a: seq<Stream>, b: seq<Stream>, all: seq<Stream>)
    requires a <= all && b <= all && |a| <= |b|
    ensures b == all[..|b|] && forall s <- a :: s in b
  {
    forall s <- a
      ensures s in b
    {
      var i :| 0 <= i < |a| && a[i] == s;
      assert b[i] == all[i] == s;
    }
  }

  function Times(streams: seq<Stream>): set<nat> {
    set s <- streams :: s.ns
  }

  lemma {:induction false} DistinctTimes(streams: seq<Stream>)
    requires Ascending(streams)
    ensures |Times(streams)| == |streams|
  {
    if streams != [] {
      var front, last := streams[..|streams| - 1], streams[|streams| - 1];
      DistinctTimes(front);
      assert streams == front + [last];
      assert Times(streams) == Times(front) + {last.ns};
      assert last.ns !in Times(front);
    }
  }

  lemma {:induction false} LinearPrefix(rules: Rules, filter: bool, origin: State, line: seq<Outbox>, i: nat)
    requires Linear(rules, filter, origin, line) && i <= |line|
    ensures Linear(rules, filter, origin, line[..i])
    ensures BaseAt(origin, line[..i], i) == BaseAt(origin, line, i)
  {
    hide Follows;
    assert forall j | 0 <= j < i :: BaseAt(origin, line[..i], j) == BaseAt(origin, line, j);
  }

  lemma PrefixFacts(rules: Rules, filter: bool, origin: State, line: seq<Outbox>, i: nat)
    requires Linear(rules, filter, origin, line) && i <= |line|
    ensures BaseAt(origin, line, i).sent == origin.sent + |Entries(line[..i])|
    ensures Ascending(Entries(line[..i]))
  {
    LinearPrefix(rules, filter, origin, line, i);
    LineAscends(rules, filter, origin, line[..i]);
    hide Linear, Entries, Ascending;
  }

  /** `sent` on disk grows by the number of distinct entries acknowledged there,
      however often their batches were sent again. */
  lemma SentCountsOnce(rules: Rules, filter: bool, origin: State, t: Track)
    requires Inv(rules, filter, origin, t) && t.w.file.Holds?
    ensures var acked := Entries(t.line[..t.onDisk]);
            && t.w.file.state.sent == origin.sent + |acked|
            && |acked| == |Times(acked)|
            && (forall s <- acked :: s in t.w.accepted)
  {
    hide *;
    DiskFacts(rules, filter, origin, t);
    PrefixFacts(rules, filter, origin, t.line, t.onDisk);
    DistinctTimes(Entries(t.line[..t.onDisk]));
    AtLeastOnce(rules, filter, origin, t);
    EntriesPrefix(t.line[..Acked(t)], t.onDisk);
    assert t.line[..Acked(t)][..t.onDisk] == t.line[..t.onDisk];
    LongerPrefix(Entries(t.line[..t.onDisk]), Entries(t.line[..Acked(t)]), Entries(t.line[..Acked(t)]));
  }

  lemma DiskFacts(rules: Rules, filter: bool, origin: State, t: Track)
    requires Inv(rules, filter, origin, t) && t.w.file.Holds?
    ensures Linear(rules, filter, origin, t.line) && t.onDisk <= Acked(t) <= |t.line|
    ensures var state, base := t.w.file.state, BaseAt(origin, t.line, t.onDisk);
            state.sent == base.sent && state.cursors == base.cursors
  {
    hide Linear, Entries, Fresh, OutboxOk, SourcesOk;
    assert Stripped(t.w.file.state).sent == t.w.file.state.sent && Stripped(t.w.file.state).cursors == t.w.file.state.cursors;
  }

  /** In every history, an outbox in memory has a successor that passes validation
      and the size limits of saving and loading: none of these can keep an outbox
      that was sent from being acknowledged. */
  lemma CommitSaves(rules: Rules, filter: bool, origin: State, t: Track)
    requires Inv(rules, filter, origin, t) && t.w.memory.Some? && t.w.memory.value.pending.Some?
    ensures Saveable(rules, t.w.memory.value) && Saveable(rules, t.w.memory.value.pending.value.next)
    ensures forall save: Save, file: Stored ::
              AtomicSave(file, t.w.memory.value.pending.value.next, save)
              == if save == FailsBefore then (file, false) else (Holds(t.w.memory.value.pending.value.next), save == Succeeds)
  {
    hide *;
    HeldFacts(rules, filter, origin, t);
    var i, outbox := t.inMemory, t.w.memory.value.pending.value;
    HeldSource(rules, filter, origin, t, i);
    var base := BaseAt(origin, t.line, i);
    MadeIs(rules, filter, base, t.sources[i], outbox);
    PreparedSaves(rules, filter, base, t.sources[i].snapshot, t.sources[i].now, outbox);
    Unstripped(t.w.memory.value, base, outbox);
    SaveableSaves(rules, outbox.next);
  }

  lemma HeldSource(rules: Rules, filter: bool, origin: State, t: Track, i: nat)
    requires Inv(rules, filter, origin, t) && i < |t.line|
    ensures |t.sources| == |t.line| && MadeFrom(rules, filter, BaseAt(origin, t.line, i), t.sources[i], t.line[i])
  {
    hide Linear, LogOk, FileOk, MemoryOk, MadeFrom;
  }

  lemma Unstripped(state: State, base: State, outbox: Outbox)
    requires Stripped(state) == base && state.pending == Some(outbox)
    ensures state == base.(pending := Some(outbox))
  {
  }

  lemma SaveableSaves(rules: Rules, state: State)
    requires Saveable(rules, state)
    ensures forall save: Save, file: Stored ::
              AtomicSave(file, state, save) == if save == FailsBefore then (file, false) else (Holds(state), save == Succeeds)
  {
    hide Valid, StateJson;
  }

  /** A batch is sent only after an outbox that holds it was saved, and two
      outboxes are never sent over one acknowledged state. */
  lemma SavedBeforeSent(rules: Rules, filter: bool, origin: State, t: Track, c: Conditions)
    requires Inv(rules, filter, origin, t)
    requires AfterPoll(rules, filter, t.w, c).accepted != t.w.accepted
    ensures Loaded(t.w, c).1 == Goes && Armed(rules, filter, TrackLoad(t, c).w, c).1 == Goes
    ensures var sending := TrackArm(rules, filter, TrackLoad(t, c), c);
            var outbox := sending.line[|sending.line| - 1];
            && sending.line != [] && t.line <= sending.line
            && sending.w.memory.Some? && sending.w.memory.value.pending == Some(outbox)
            && sending.w.file.Holds?
            && (sending.w.file.state.pending == Some(outbox) || sending.w.file.state == outbox.next)
            && AfterPoll(rules, filter, t.w, c).accepted <= t.w.accepted + Flat(outbox)
  {
    hide Inv, Armed, Valid, Concat, Delivered, Follows;
    LoadKeeps(rules, filter, origin, t, c);
    LoadStatus(t, c);
    LoadQuiet(t, c);
    var t1 := TrackLoad(t, c);
    if Loaded(t.w, c).1 == Goes {
      ArmKeeps(rules, filter, origin, t1, c);
      ArmStatus(rules, filter, t1, c);
      ArmQuiet(rules, filter, t1, c);
      if Armed(rules, filter, t1.w, c).1 == Goes {
        SendingHeld(rules, filter, origin, TrackArm(rules, filter, t1, c), c);
      }
    }
  }

  lemma LoadQuiet(t: Track, c: Conditions)
    ensures Loaded(t.w, c).0.accepted == t.w.accepted
    ensures TrackLoad(t, c).w == Loaded(t.w, c).0
    ensures t.line <= TrackLoad(t, c).line
  {
    hide Valid;
  }

  lemma ArmQuiet(rules: Rules, filter: bool, t: Track, c: Conditions)
    requires t.w.memory.Some?
    ensures Armed(rules, filter, t.w, c).0.accepted == t.w.accepted
    ensures TrackArm(rules, filter, t, c).w == Armed(rules, filter, t.w, c).0
    ensures t.line <= TrackArm(rules, filter, t, c).line
  {
    hide Prepared, Fetch, AtomicSave;
    ArmedSome(rules, filter, t.w, c);
  }

  lemma SendingHeld(rules: Rules, filter: bool, origin: State, t: Track, c: Conditions)
    requires Inv(rules, filter, origin, t) && t.w.memory.Some? && t.w.memory.value.pending.Some?
    ensures t.line != [] && t.w.memory.value.pending == Some(t.line[|t.line| - 1])
    ensures t.w.file.Holds?
    ensures var outbox := t.line[|t.line| - 1];
            && (t.w.file.state.pending == Some(outbox) || t.w.file.state == outbox.next)
            && Sending(t.w, c).0.accepted <= t.w.accepted + Flat(outbox)
            && Committed(Sending(t.w, c).0, c).0.accepted == Sending(t.w, c).0.accepted
  {
    hide Follows, Linear, LogOk, FileOk, SourcesOk, Concat, Delivered, Valid;
    var outbox := t.w.memory.value.pending.value;
    var n := Delivered(outbox.batches, c.sends).0;
    DeliveryBounds(outbox.batches, c.sends);
    ConcatPrefix(outbox.batches, n);
  }

  /** The line a poll sends from, if it gets that far. */
  function SendingLine(rules: Rules, filter: bool, t: Track, c: Conditions): seq<Outbox> {
    var loaded := TrackLoad(t, c);
    if loaded.w.memory.Some? then TrackArm(rules, filter, loaded, c).line else loaded.line
  }

  lemma PollGrows(rules: Rules, filter: bool, t: Track, c: Conditions)
    ensures t.line <= SendingLine(rules, filter, t, c) <= TrackPoll(rules, filter, t, c).line
  {
    hide *;
    var loaded := TrackLoad(t, c);
    LoadQuiet(t, c);
    LoadStatus(t, c);
    LoadedGoes(t, c);
    if loaded.w.memory.Some? {
      ArmQuiet(rules, filter, loaded, c);
      ArmStatus(rules, filter, loaded, c);
      ArmFailsQuietly(rules, filter, loaded, c);
    }
    SendingLineIs(rules, filter, t, c);
    PollLine(rules, filter, t, c);
  }

  lemma LoadedGoes(t: Track, c: Conditions)
    ensures Loaded(t.w, c).1 != Goes ==> TrackLoad(t, c).w.memory.None?
  {
    hide Valid;
  }

  lemma SendingLineIs(rules: Rules, filter: bool, t: Track, c: Conditions)
    ensures var loaded := TrackLoad(t, c);
            SendingLine(rules, filter, t, c) == if loaded.w.memory.Some? then TrackArm(rules, filter, loaded, c).line else loaded.line
  {
    hide TrackLoad, TrackArm;
  }

  /** The line of a poll ends as it was when the poll began to send. */
  lemma PollLine(rules: Rules, filter: bool, t: Track, c: Conditions)
    ensures var loaded := TrackLoad(t, c);
            TrackPoll(rules, filter, t, c).line
            == if Loaded(t.w, c).1 == Goes then TrackArm(rules, filter, loaded, c).line else loaded.line
  {
    hide TrackLoad, TrackArm, Loaded, Armed, Sending, Committed, Failed;
    LoadStatus(t, c);
    if Loaded(t.w, c).1 == Goes {
      ArmStatus(rules, filter, TrackLoad(t, c), c);
    }
  }

  lemma ArmFailsQuietly(rules: Rules, filter: bool, t: Track, c: Conditions)
    requires t.w.memory.Some?
    ensures Armed(rules, filter, t.w, c).1 != Goes ==> TrackArm(rules, filter, t, c).line == t.line
  {
    hide Armed;
  }

  lemma {:induction false} LineGrows(rules: Rules, filter: bool, t: Track, events: seq<Event>)
    ensures t.line <= TrackRun(rules, filter, t, events).line
  {
    hide TrackPoll;
    if events != [] {
      var front, e := events[..|events| - 1], events[|events| - 1];
      LineGrows(rules, filter, t, front);
      if e.Polls? {
        PollGrows(rules, filter, TrackRun(rules, filter, t, front), e.c);
      }
    }
  }

  /** The history when a poll starts to send. */
  function AtSending(rules: Rules, filter: bool, t: Track, c: Conditions): Track {
    var loaded := TrackLoad(t, c);
    if loaded.w.memory.Some? then TrackArm(rules, filter, loaded, c) else loaded
  }

  lemma SendingFacts(rules: Rules, filter: bool, origin: State, t: Track, c: Conditions)
    requires Inv(rules, filter, origin, t)
    requires AfterPoll(rules, filter, t.w, c).accepted != t.w.accepted
    ensures var a := AtSending(rules, filter, t, c);
            && a.line == SendingLine(rules, filter, t, c) && |a.line| == a.inMemory + 1
            && a.w.memory.Some? && a.w.memory.value.pending == Some(a.line[a.inMemory])
            && Stripped(a.w.memory.value) == BaseAt(origin, a.line, a.inMemory)
  {
    hide Inv, Armed, Valid, AfterPoll, TrackLoad, TrackArm, Loaded;
    SavedBeforeSent(rules, filter, origin, t, c);
    LoadKeeps(rules, filter, origin, t, c);
    LoadStatus(t, c);
    ArmKeeps(rules, filter, origin, TrackLoad(t, c), c);
    HeldFacts(rules, filter, origin, AtSending(rules, filter, t, c));
  }

  lemma HeldFacts(rules: Rules, filter: bool, origin: State, t: Track)
    requires Inv(rules, filter, origin, t) && t.w.memory.Some? && t.w.memory.value.pending.Some?
    ensures |t.line| == t.inMemory + 1 && t.w.memory.value.pending == Some(t.line[t.inMemory])
    ensures Stripped(t.w.memory.value) == BaseAt(origin, t.line, t.inMemory)
  {
    hide Linear, LogOk, FileOk, SourcesOk;
  }

  /** Two outboxes are never sent over one acknowledged state. Of two polls of a
      run that both send something, the later one sends the outbox of the earlier
      one again, over the same state, or one over a state that acknowledges it. */
  lemma OneOutboxPerState(rules: Rules, filter: bool, origin: State, t: Track, c: Conditions, events: seq<Event>, later: Conditions)
    requires Inv(rules, filter, origin, t)
    requires AfterPoll(rules, filter, t.w, c).accepted != t.w.accepted
    requires var u := TrackRun(rules, filter, TrackPoll(rules, filter, t, c), events);
             AfterPoll(rules, filter, u.w, later).accepted != u.w.accepted
    ensures var u := TrackRun(rules, filter, TrackPoll(rules, filter, t, c), events);
            var a, b := AtSending(rules, filter, t, c), AtSending(rules, filter, u, later);
            && u.w == Run(rules, filter, AfterPoll(rules, filter, t.w, c), events)
            && a.w.memory.Some? && a.w.memory.value.pending.Some? && b.w.memory.Some? && b.w.memory.value.pending.Some?
            && (|| b.w.memory == a.w.memory
                || (a.inMemory < b.inMemory < |b.line| && b.line[a.inMemory] == a.w.memory.value.pending.value
                    && Stripped(b.w.memory.value) == BaseAt(origin, b.line, b.inMemory)))
  {
    hide *;
    var after := TrackPoll(rules, filter, t, c);
    var u := TrackRun(rules, filter, after, events);
    PollKeeps(rules, filter, origin, t, c);
    RunKeeps(rules, filter, origin, after, events);
    SendingFacts(rules, filter, origin, t, c);
    SendingFacts(rules, filter, origin, u, later);
    PollGrows(rules, filter, t, c);
    LineGrows(rules, filter, after, events);
    PollGrows(rules, filter, u, later);
    var a, b := AtSending(rules, filter, t, c), AtSending(rules, filter, u, later);
    assert a.line <= b.line;
    if a.inMemory == b.inMemory {
      assert a.line == b.line;
      SameState(a.w.memory.value, b.w.memory.value);
    } else {
      assert b.line[a.inMemory] == a.line[a.inMemory];
    }
  }

  lemma SameState(a: State, b: State)
    requires Stripped(a) == Stripped(b) && a.pending == b.pending
    ensures a == b
  {
  }

  /** A state file that cannot be read, or holds no valid state, is never
      overwritten, and nothing is sent while it is there. */
  lemma {:induction false} UnreadableKept(rules: Rules, filter: bool, w: World, events: seq<Event>)
    requires w.file == Unreadable || (w.file.Holds? && !Valid(w.file.state))
    requires w.memory.None?
    ensures var after := Run(rules, filter, w, events);
            after.file == w.file && after.memory.None? && after.accepted == w.accepted
  {
    hide Armed, Sending, Committed, Valid;
    if events != [] {
      UnreadableKept(rules, filter, w, events[..|events| - 1]);
    }
  }

  // -------------------------------------------------------- end to end

  /** The streams carry these records one for one, in order. */
  ghost predicate Carriers(rules: Rules, streams: seq<Stream>, tasks: seq<Task>) {
    && |streams| == |tasks|
    && forall k | 0 <= k < |streams| :: Carries(rules, streams[k], tasks[k], streams[k].ns)
  }

  lemma CarriedAll(rules: Rules, streams: seq<Stream>, tasks: seq<Task>, now: int, last: nat)
    requires CarriesAll(rules, streams, tasks, now, last)
    ensures Carriers(rules, streams, tasks)
  {
    hide Carries, NextNs;
    forall k | 0 <= k < |streams|
      ensures Carries(rules, streams[k], tasks[k], streams[k].ns)
    {
      assert Carries(rules, streams[k], tasks[k], NextNs(now, last) + k);
      CarriesTime(rules, streams[k], tasks[k], NextNs(now, last) + k);
    }
  }

  lemma CarriesTime(rules: Rules, s: Stream, task: Task, ns: nat)
    requires Carries(rules, s, task, ns)
    ensures s.ns == ns && s.kind == task.kind
  {
    hide Render;
  }

  lemma CarriersAppend(rules: Rules, a: seq<Stream>, x: seq<Task>, b: seq<Stream>, y: seq<Task>)
    requires Carriers(rules, a, x) && Carriers(rules, b, y)
    ensures Carriers(rules, a + b, x + y)
  {
    hide Carries;
  }

  /** The streams of one kind, in order. */
  function OfKind(streams: seq<Stream>, kind: Kind): seq<Stream> {
    if streams == [] then []
    else
      var last := streams[|streams| - 1];
      OfKind(streams[..|streams| - 1], kind) + if last.kind == kind then [last] else []
  }

  /** The records of one kind, in order. */
  function TasksOfKind(tasks: seq<Task>, kind: Kind): seq<Task> {
    if tasks == [] then []
    else
      var last := tasks[|tasks| - 1];
      TasksOfKind(tasks[..|tasks| - 1], kind) + if last.kind == kind then [last] else []
  }

  lemma OfKindSnoc(streams: seq<Stream>, last: Stream, kind: Kind)
    ensures OfKind(streams + [last], kind) == OfKind(streams, kind) + if last.kind == kind then [last] else []
  {
    assert (streams + [last])[..|streams|] == streams;
  }

  lemma TasksOfKindSnoc(tasks: seq<Task>, last: Task, kind: Kind)
    ensures TasksOfKind(tasks + [last], kind) == TasksOfKind(tasks, kind) + if last.kind == kind then [last] else []
  {
    assert (tasks + [last])[..|tasks|] == tasks;
  }

  lemma {:induction false} OfKindAppend(a: seq<Stream>, b: seq<Stream>, kind: Kind)
    ensures OfKind(a + b, kind) == OfKind(a, kind) + OfKind(b, kind)
  {
    if b == [] {
      assert a + b == a;
    } else {
      assert (a + b)[..|a + b| - 1] == a + b[..|b| - 1];
      OfKindAppend(a, b[..|b| - 1], kind);
    }
  }

  lemma {:induction false} TasksOfKindAppend(a: seq<Task>, b: seq<Task>, kind: Kind)
    ensures TasksOfKind(a + b, kind) == TasksOfKind(a, kind) + TasksOfKind(b, kind)
  {
    if b == [] {
      assert a + b == a;
    } else {
      assert (a + b)[..|a + b| - 1] == a + b[..|b| - 1];
      TasksOfKindAppend(a, b[..|b| - 1], kind);
    }
  }

  lemma {:induction false} KeptAppend(rules: Rules, filter: bool, a: seq<Task>, b: seq<Task>)
    ensures Kept(rules, filter, a + b) == Kept(rules, filter, a) + Kept(rules, filter, b)
  {
    hide NormalName;
    if b == [] {
      assert a + b == a;
    } else {
      assert (a + b)[..|a + b| - 1] == a + b[..|b| - 1];
      KeptAppend(rules, filter, a, b[..|b| - 1]);
    }
  }

  /** What carries some records carries those of one kind. */
  lemma {:induction false} CarriersOfKind(rules: Rules, streams: seq<Stream>, tasks: seq<Task>, kind: Kind)
    requires Carriers(rules, streams, tasks)
    ensures Carriers(rules, OfKind(streams, kind), TasksOfKind(tasks, kind))
  {
    hide Carries;
    if streams != [] {
      var n := |streams| - 1;
      CarriersOfKind(rules, streams[..n], tasks[..n], kind);
      CarriesTime(rules, streams[n], tasks[n], streams[n].ns);
      if streams[n].kind == kind {
        CarriersAppend(rules, OfKind(streams[..n], kind), TasksOfKind(tasks[..n], kind), [streams[n]], [tasks[n]]);
      }
    }
  }

  lemma NoneOfKind(rules: Rules, filter: bool, kind: Kind)
    ensures Kept(rules, filter, []) == [] && TasksOfKind([], kind) == []
  {
  }

  lemma {:induction false} KeptOfKind(rules: Rules, filter: bool, tasks: seq<Task>, kind: Kind)
    ensures TasksOfKind(Kept(rules, filter, tasks), kind) == Kept(rules, filter, TasksOfKind(tasks, kind))
  {
    hide *;
    if tasks == [] {
      NoneOfKind(rules, filter, kind);
    } else {
      var front, last := tasks[..|tasks| - 1], tasks[|tasks| - 1];
      KeptOfKind(rules, filter, front, kind);
      assert tasks == front + [last];
      KeptSnoc(rules, filter, front, last);
      TasksOfKindSnoc(front, last, kind);
      KeptSnoc(rules, filter, TasksOfKind(front, kind), last);
      TasksOfKindSnoc(Kept(rules, filter, front), last, kind);
      assert Kept(rules, filter, front) + [] == Kept(rules, filter, front);
      assert TasksOfKind(front, kind) + [] == TasksOfKind(front, kind);
      assert Kept(rules, filter, TasksOfKind(front, kind)) + [] == Kept(rules, filter, TasksOfKind(front, kind));
    }
  }

  lemma {:induction false} OneKind(tasks: seq<Task>, own: Kind, kind: Kind)
    requires forall task <- tasks :: task.kind == own
    ensures TasksOfKind(tasks, kind) == if own == kind then tasks else []
  {
    if tasks != [] {
      hide *;
      var front, last := tasks[..|tasks| - 1], tasks[|tasks| - 1];
      assert tasks == front + [last];
      assert last in tasks;
      OneKind(front, own, kind);
      TasksOfKindSnoc(front, last, kind);
    }
  }

  /** Each kind's records stand together in the list of all records. */
  lemma {:induction false} TasksAbout(rules: Rules, state: State, snapshot: Snapshot, kinds: seq<Kind>, kind: Kind)
    requires forall k <- kinds :: KindOk(snapshot, k)
    requires forall i, j | 0 <= i < j < |kinds| :: kinds[i] != kinds[j]
    requires KindOk(snapshot, kind)
    ensures TasksOfKind(Tasks(rules, state, snapshot, kinds), kind)
         == if kind in kinds then KindTasks(rules, state, snapshot, kind) else []
  {
    hide *;
    if kinds == [] {
      NoKinds(rules, state, snapshot);
      OneKind([], kind, kind);
    } else {
      var front, last := kinds[..|kinds| - 1], kinds[|kinds| - 1];
      TasksFrom(rules, state, snapshot, kinds);
      TasksAbout(rules, state, snapshot, front, kind);
      TasksOfKindAppend(Tasks(rules, state, snapshot, front), KindTasks(rules, state, snapshot, last), kind);
      KindTasksKind(rules, state, snapshot, last);
      OneKind(KindTasks(rules, state, snapshot, last), last, kind);
      assert kinds == front + [last];
    }
  }

  /** The streams of one kind in an outbox carry the records cut from that kind
      that are not normal, one for one. */
  lemma OutboxOfKind(rules: Rules, filter: bool, base: State, source: Source, outbox: Outbox, kind: Kind)
    requires MadeFrom(rules, filter, base, source, outbox)
    ensures KindOk(source.snapshot, kind)
    ensures Carriers(rules, OfKind(Flat(outbox), kind), Kept(rules, filter, KindTasks(rules, base, source.snapshot, kind)))
  {
    hide *;
    MadeIs(rules, filter, base, source, outbox);
    var tasks := Tasks(rules, base, source.snapshot, KINDS);
    OutboxAccount(rules, filter, base, source.snapshot, source.now, outbox);
    CarriedAll(rules, Flat(outbox), Kept(rules, filter, tasks), source.now, base.lastNs);
    CarriersOfKind(rules, Flat(outbox), Kept(rules, filter, tasks), kind);
    KeptOfKind(rules, filter, tasks, kind);
    EveryKindListed(kind);
    DistinctKinds();
    TasksAbout(rules, base, source.snapshot, KINDS, kind);
  }

  lemma MadeIs(rules: Rules, filter: bool, base: State, source: Source, outbox: Outbox)
    requires MadeFrom(rules, filter, base, source, outbox)
    ensures PreparedBy(rules, filter, base, source.snapshot, source.now, outbox)
    ensures SnapshotOk(source.snapshot) && forall kind: Kind :: KindOk(source.snapshot, kind)
  {
    hide KindOk, Prepared;
  }

  lemma PrefixMembers<T>(a: seq<T>, b: seq<T>, c: seq<T>)
    requires a + b <= c
    ensures forall x <- b :: x in c
  {
    forall x <- b
      ensures x in c
    {
      var i :| 0 <= i < |b| && b[i] == x;
      assert c[|a| + i] == (a + b)[|a| + i] == x;
    }
  }

  lemma FlatWithin(line: seq<Outbox>, n: nat, i: nat)
    requires i < n <= |line|
    ensures forall s <- Flat(line[i]) :: s in Entries(line[..n])
  {
    hide Flat, Entries;
    EntriesPrefix(line[..n], i + 1);
    assert line[..n][..i + 1] == line[..i] + [line[i]];
    EntriesSnoc(line[..i], line[i]);
    assert Entries(line[..i]) + Flat(line[i]) <= Entries(line[..n]);
    PrefixMembers(Entries(line[..i]), Flat(line[i]), Entries(line[..n]));
  }

  lemma SourceAt(rules: Rules, filter: bool, origin: State, t: Track, i: nat)
    requires Inv(rules, filter, origin, t) && i < Acked(t)
    ensures Acked(t) <= |t.line| == |t.sources|
    ensures MadeFrom(rules, filter, BaseAt(origin, t.line, i), t.sources[i], t.line[i])
  {
    hide Linear, FileOk, MemoryOk, MadeFrom, Entries, Fresh, Acked;
  }

  /** No run loses a record or sends it twice under two times. Each outbox that
      the state file or the memory acknowledges was prepared from the snapshot
      that some poll of the run has fetched; the records cut from it that count
      under no name have one stream each that tells of them, in order and at
      consecutive nanoseconds, and Loki has accepted all of them. */
  lemma RecordsHandled(rules: Rules, filter: bool, origin: State, file: Stored, waiting: Option<Source>, events: seq<Event>, i: nat)
    requires StartsFrom(rules, filter, origin, file, waiting)
    requires i < Acked(Tracked(rules, filter, file, waiting, events))
    ensures var t := Tracked(rules, filter, file, waiting, events);
            && i < |t.sources| && i < |t.line| && FetchedIn(events, t.sources[i])
            && SnapshotOk(t.sources[i].snapshot)
            && var base := BaseAt(origin, t.line, i);
               var tasks := Tasks(rules, base, t.sources[i].snapshot, KINDS);
               && (exists at :: Accounts(rules, filter, tasks, Flat(t.line[i]), FirstNs(t.sources[i].now, base.lastNs), at))
               && forall s <- Flat(t.line[i]) :: s in Run(rules, filter, Fresh0(file), events).accepted
  {
    hide *;
    History(rules, filter, origin, file, waiting, events);
    var t := Tracked(rules, filter, file, waiting, events);
    SourceAt(rules, filter, origin, t, i);
    SourceFetched(events, t, i);
    MadeIs(rules, filter, BaseAt(origin, t.line, i), t.sources[i], t.line[i]);
    var at := OutboxFiltered(rules, filter, BaseAt(origin, t.line, i), t.sources[i].snapshot, t.sources[i].now, t.line[i]);
    AtLeastOnce(rules, filter, origin, t);
    FlatWithin(t.line, Acked(t), i);
  }

  lemma SourceFetched(events: seq<Event>, t: Track, i: nat)
    requires Provenance(events, t, |events|) && i < |t.sources|
    ensures FetchedIn(events, t.sources[i])
  {
    hide FetchedIn, Ordered, Waits;
    assert t.sources[i] in t.sources;
  }

  /** The views of one log that the outboxes from one on were cut from. */
  ghost predicate Viewed(sources: seq<Source>, from: nat, kind: Kind, views: seq<View>) {
    && from + |views| <= |sources|
    && forall i, k | 0 <= i < |views| && k == from + i ::
         KindOk(sources[k].snapshot, kind) && views[i].recs == Chronological(sources[k].snapshot, kind)
  }

  lemma ChainStep(rules: Rules, filter: bool, base: State, source: Source, outbox: Outbox, kind: Kind)
    requires MadeFrom(rules, filter, base, source, outbox)
    ensures KindOk(source.snapshot, kind)
    ensures kind in outbox.next.cursors && outbox.next.cursors[kind] == PollKind(rules, base, source.snapshot, kind).cursor
  {
    hide PreparedBy, PollKind, KindOk;
    CursorInvariant(rules, filter, base, source.snapshot, source.now, outbox, kind);
  }

  lemma ViewedStep(rules: Rules, base: State, sources: seq<Source>, from: nat, kind: Kind, views: seq<View>, n: nat)
    requires Viewed(sources, from, kind, views) && n < |views| && kind in base.cursors
    requires views[n].recs != []
    ensures from + n < |sources| && KindOk(sources[from + n].snapshot, kind)
    ensures PollKind(rules, base, sources[from + n].snapshot, kind)
         == Poll(rules.headers, kind, Some(base.cursors[kind]), views[n].recs)
  {
    hide Poll, Chronological, KindOk;
  }

  lemma NoPolls(headers: Headers, kind: Kind, cursor: Cursor, views: seq<View>)
    requires forall v <- views :: v.recs != []
    ensures CursorAfter(headers, kind, cursor, views[..0]) == cursor && RecordsOf(headers, kind, cursor, views[..0]) == []
  {
  }

  lemma LastPoll(headers: Headers, kind: Kind, cursor: Cursor, views: seq<View>, n: nat)
    requires n < |views| && forall v <- views :: v.recs != []
    ensures var polled := Poll(headers, kind, Some(CursorAfter(headers, kind, cursor, views[..n])), views[n].recs);
            && CursorAfter(headers, kind, cursor, views[..n + 1]) == polled.cursor
            && RecordsOf(headers, kind, cursor, views[..n + 1])
            == RecordsOf(headers, kind, cursor, views[..n]) + polled.records
  {
    hide Poll;
    assert views[..n + 1][..n] == views[..n];
  }

  /** The streams of one kind in some stretch of the line carry these records,
      but for those that are normal, one for one. */
  ghost predicate Sends(rules: Rules, filter: bool, stretch: seq<Outbox>, kind: Kind, records: seq<bytes>) {
    Carriers(rules, OfKind(Entries(stretch), kind), Kept(rules, filter, AsTasks(kind, records, false)))
  }

  lemma NothingSent(rules: Rules, filter: bool, kind: Kind)
    ensures Sends(rules, filter, [], kind, [])
  {
  }

  lemma SendsSnoc(rules: Rules, filter: bool, stretch: seq<Outbox>, outbox: Outbox, kind: Kind, records: seq<bytes>, more: seq<bytes>)
    requires Sends(rules, filter, stretch, kind, records)
    requires Carriers(rules, OfKind(Flat(outbox), kind), Kept(rules, filter, AsTasks(kind, more, false)))
    ensures Sends(rules, filter, stretch + [outbox], kind, records + more)
  {
    hide Carriers, OfKind, Entries, Flat, Kept, AsTasks;
    EntriesSnoc(stretch, outbox);
    OfKindAppend(Entries(stretch), Flat(outbox), kind);
    AsTasksAppend(kind, records, more, false);
    KeptAppend(rules, filter, AsTasks(kind, records, false), AsTasks(kind, more, false));
    CarriersAppend(rules, OfKind(Entries(stretch), kind), Kept(rules, filter, AsTasks(kind, records, false)),
                   OfKind(Flat(outbox), kind), Kept(rules, filter, AsTasks(kind, more, false)));
  }

  /** With a cursor to go on from, no record is left out. */
  lemma UncappedTasks(rules: Rules, state: State, snapshot: Snapshot, kind: Kind)
    requires KindOk(snapshot, kind) && kind in state.cursors
    ensures KindTasks(rules, state, snapshot, kind) == AsTasks(kind, PollKind(rules, state, snapshot, kind).records, false)
  {
    hide PollKind, KindOk;
  }

  /** The cursors of the acknowledged states are those of a run of polls. */
  lemma {:induction false} CursorsChain(rules: Rules, filter: bool, origin: State, t: Track, from: nat, kind: Kind, views: seq<View>, n: nat)
    requires Inv(rules, filter, origin, t) && Viewed(t.sources, from, kind, views)
    requires n <= |views| && from + n <= Acked(t) <= |t.line|
    requires kind in BaseAt(origin, t.line, from).cursors
    requires forall v <- views :: v.recs != []
    ensures kind in BaseAt(origin, t.line, from + n).cursors
    ensures CursorAfter(rules.headers, kind, BaseAt(origin, t.line, from).cursors[kind], views[..n])
         == BaseAt(origin, t.line, from + n).cursors[kind]
  {
    hide *;
    var first := BaseAt(origin, t.line, from).cursors[kind];
    if n == 0 {
      NoPolls(rules.headers, kind, first, views);
    } else {
      var k := from + n - 1;
      CursorsChain(rules, filter, origin, t, from, kind, views, n - 1);
      SourceAt(rules, filter, origin, t, k);
      ChainStep(rules, filter, BaseAt(origin, t.line, k), t.sources[k], t.line[k], kind);
      ViewedStep(rules, BaseAt(origin, t.line, k), t.sources, from, kind, views, n - 1);
      LastPoll(rules.headers, kind, first, views, n - 1);
      BaseIs(origin, t.line, k);
    }
  }

  lemma BaseIs(origin: State, line: seq<Outbox>, i: nat)
    requires i < |line|
    ensures BaseAt(origin, line, i + 1) == line[i].next
  {
  }

  lemma {:induction false} RunSends(rules: Rules, filter: bool, origin: State, t: Track, from: nat, kind: Kind,
                                    views: seq<View>, n: nat)
    requires Inv(rules, filter, origin, t) && Viewed(t.sources, from, kind, views)
    requires n <= |views| && from + n <= Acked(t) <= |t.line|
    requires kind in BaseAt(origin, t.line, from).cursors
    requires forall v <- views :: v.recs != []
    ensures Sends(rules, filter, t.line[from..from + n], kind,
                  RecordsOf(rules.headers, kind, BaseAt(origin, t.line, from).cursors[kind], views[..n]))
  {
    hide *;
    var first := BaseAt(origin, t.line, from).cursors[kind];
    if n == 0 {
      NoPolls(rules.headers, kind, first, views);
      NothingSent(rules, filter, kind);
      assert t.line[from..from] == [];
    } else {
      var k := from + n - 1;
      var base := BaseAt(origin, t.line, k);
      RunSends(rules, filter, origin, t, from, kind, views, n - 1);
      CursorsChain(rules, filter, origin, t, from, kind, views, n - 1);
      ViewedStep(rules, base, t.sources, from, kind, views, n - 1);
      SourceAt(rules, filter, origin, t, k);
      OutboxOfKind(rules, filter, base, t.sources[k], t.line[k], kind);
      UncappedTasks(rules, base, t.sources[k].snapshot, kind);
      LastPoll(rules.headers, kind, first, views, n - 1);
      SendsSnoc(rules, filter, t.line[from..k], t.line[k], kind,
                RecordsOf(rules.headers, kind, first, views[..n - 1]),
                PollKind(rules, base, t.sources[k].snapshot, kind).records);
      assert t.line[from..k] + [t.line[k]] == t.line[from..k + 1];
    }
  }

  // ------------------------------------------- a stretch of the line

  lemma {:induction false} EntriesAppend(a: seq<Outbox>, b: seq<Outbox>)
    ensures Entries(a + b) == Entries(a) + Entries(b)
  {
    hide Flat;
    if b == [] {
      assert a + b == a;
    } else {
      assert (a + b)[..|a + b| - 1] == a + b[..|b| - 1];
      EntriesAppend(a, b[..|b| - 1]);
    }
  }

  lemma {:induction false} OfKindAscends(streams: seq<Stream>, kind: Kind)
    requires Ascending(streams)
    ensures Ascending(OfKind(streams, kind))
    ensures forall s <- OfKind(streams, kind) :: s in streams
  {
    if streams != [] {
      var front, last := streams[..|streams| - 1], streams[|streams| - 1];
      assert streams == front + [last];
      AscendingFront(front, last);
      OfKindAscends(front, kind);
      hide *;
      OfKindSnoc(front, last, kind);
      assert OfKind(front, kind) + [] == OfKind(front, kind);
      AscendingSnoc(OfKind(front, kind), last);
    }
  }

  lemma AscendingFront(front: seq<Stream>, last: Stream)
    requires Ascending(front + [last])
    ensures Ascending(front) && forall s <- front :: s.ns < last.ns
  {
    var all := front + [last];
    assert forall i | 0 <= i < |front| :: front[i] == all[i] && all[i].ns < all[|front|].ns;
  }

  lemma AscendingSnoc(front: seq<Stream>, last: Stream)
    requires Ascending(front) && forall s <- front :: s.ns < last.ns
    ensures Ascending(front + [last])
  {
  }

  lemma AscendingSuffix(a: seq<Stream>, b: seq<Stream>, all: seq<Stream>)
    requires a + b <= all && Ascending(all)
    ensures Ascending(b)
  {
    forall i, j | 0 <= i < j < |b|
      ensures b[i].ns < b[j].ns
    {
      assert b[i] == (a + b)[|a| + i] == all[|a| + i] && b[j] == (a + b)[|a| + j] == all[|a| + j];
    }
  }

  /** The streams of one kind in a stretch of the line are part of what comes up
      to its end, and their times ascend. */
  lemma StretchOfKind(line: seq<Outbox>, from: nat, to: nat, kind: Kind)
    requires from <= to <= |line| && Ascending(Entries(line))
    ensures Ascending(OfKind(Entries(line[from..to]), kind))
    ensures forall s <- OfKind(Entries(line[from..to]), kind) :: s in Entries(line[..to])
  {
    hide *;
    EntriesPrefix(line, to);
    assert line[..to] == line[..from] + line[from..to];
    EntriesAppend(line[..from], line[from..to]);
    AscendingSuffix(Entries(line[..from]), Entries(line[from..to]), Entries(line));
    OfKindAscends(Entries(line[from..to]), kind);
    PrefixMembers(Entries(line[..from]), Entries(line[from..to]), Entries(line[..to]));
  }

  /** From the log file to Loki, for every run. Let the state file acknowledge the
      first outboxes of the run's history, and take any of them to begin with, or
      the state the run began with. Whatever failed or crashed on the way, and
      however the log was rotated meanwhile: the bytes between the cursor at the
      beginning and the cursor in the file are, without loss or repetition, the
      records cut from what the polls of the run have fetched. The streams of this
      kind in the outboxes acknowledged since tell of the records that count under
      no name, one for one and in order; their times ascend, so that no two are
      the same; and Loki has accepted every one. */
  lemma FromFileToLoki(rules: Rules, filter: bool, origin: State, file: Stored, waiting: Option<Source>, events: seq<Event>,
                       from: nat, kind: Kind, start: Log, g: nat, views: seq<View>)
    requires StartsFrom(rules, filter, origin, file, waiting)
    requires Run(rules, filter, Fresh0(file), events).file.Holds?
    requires var t := Tracked(rules, filter, file, waiting, events);
             && from + |views| == t.onDisk <= |t.line| && Viewed(t.sources, from, kind, views)
             && kind in BaseAt(origin, t.line, from).cursors
             && Faithful(rules.headers, kind, start, BaseAt(origin, t.line, from).cursors[kind], g, views)
    ensures var t, w := Tracked(rules, filter, file, waiting, events), Run(rules, filter, Fresh0(file), events);
            var first := BaseAt(origin, t.line, from).cursors[kind];
            var records := RecordsOf(rules.headers, kind, first, views);
            var streams := OfKind(Entries(t.line[from..t.onDisk]), kind);
            && kind in w.file.state.cursors
            && Reads(Position(start, first, g), LastLog(start, views), w.file.state.cursors[kind], GenBefore(g, views, |views|), records)
            && (exists at :: Conveys(rules, filter, kind, records, streams, at))
            && Ascending(streams) && (forall s <- streams :: s in w.accepted)
            && Ordered(t.sources) && forall s <- t.sources :: FetchedIn(events, s)
  {
    hide *;
    History(rules, filter, origin, file, waiting, events);
    var t := Tracked(rules, filter, file, waiting, events);
    var first := BaseAt(origin, t.line, from).cursors[kind];
    FaithfulBasics(rules.headers, kind, start, first, g, views);
    RotationRun(rules.headers, kind, start, first, g, views);
    ExactReads(rules.headers, kind, start, first, g, views);
    assert views[..|views|] == views;
    DiskFacts(rules, filter, origin, t);
    CursorsChain(rules, filter, origin, t, from, kind, views, |views|);
    RunSends(rules, filter, origin, t, from, kind, views, |views|);
    var at := SendsConveys(rules, filter, t.line[from..t.onDisk], kind, RecordsOf(rules.headers, kind, first, views));
    StretchAccepted(rules, filter, origin, t, from, kind);
    ProvenanceFacts(events, t);
  }

  lemma SendsConveys(rules: Rules, filter: bool, stretch: seq<Outbox>, kind: Kind, records: seq<bytes>) returns (at: seq<nat>)
    requires Sends(rules, filter, stretch, kind, records)
    ensures Conveys(rules, filter, kind, records, OfKind(Entries(stretch), kind), at)
  {
    hide OfKind, Entries, Selected, Conveys, Kept, Reports, AsTasks, Carries;
    var streams, kept := OfKind(Entries(stretch), kind), Kept(rules, filter, AsTasks(kind, records, false));
    at := KeptSelected(rules, filter, AsTasks(kind, records, false));
    forall k | 0 <= k < |streams|
      ensures Reports(rules, streams[k], kept[k], streams[k].ns)
    {
      CarriesReports(rules, streams[k], kept[k], streams[k].ns);
    }
    ConveysFrom(rules, filter, kind, records, streams, kept, at);
  }

  /** Loki has accepted every stream of a stretch that the file acknowledges. */
  lemma StretchAccepted(rules: Rules, filter: bool, origin: State, t: Track, from: nat, kind: Kind)
    requires Inv(rules, filter, origin, t) && from <= t.onDisk <= Acked(t) <= |t.line|
    ensures Ascending(OfKind(Entries(t.line[from..t.onDisk]), kind))
    ensures forall s <- OfKind(Entries(t.line[from..t.onDisk]), kind) :: s in t.w.accepted
  {
    hide *;
    AtLeastOnce(rules, filter, origin, t);
    StretchOfKind(t.line, from, t.onDisk, kind);
    EntriesPrefix(t.line[..Acked(t)], t.onDisk);
    assert t.line[..Acked(t)][..t.onDisk] == t.line[..t.onDisk];
    LongerPrefix(Entries(t.line[..t.onDisk]), Entries(t.line[..Acked(t)]), Entries(t.line[..Acked(t)]));
  }

  lemma ProvenanceFacts(events: seq<Event>, t: Track)
    requires Provenance(events, t, |events|)
    ensures Ordered(t.sources) && forall s <- t.sources :: FetchedIn(events, s)
  {
    hide FetchedIn, Ordered, Waits;
  }

  /** After the first outbox every kind has a cursor to begin with. */
  lemma EveryCursor(rules: Rules, filter: bool, origin: State, t: Track, from: nat, kind: Kind)
    requires Inv(rules, filter, origin, t) && 0 < from <= Acked(t)
    ensures from <= |t.line| && kind in BaseAt(origin, t.line, from).cursors
  {
    hide *;
    SourceAt(rules, filter, origin, t, from - 1);
    ChainStep(rules, filter, BaseAt(origin, t.line, from - 1), t.sources[from - 1], t.line[from - 1], kind);
    BaseIs(origin, t.line, from - 1);
  }
}
