/** What an outbox holds and what its successor says, without reference to the
    functions that compute them. */
module Contents {
  import opened Basics
  import opened Sources
  import opened Records
  import opened States
  import opened Rendering
  import opened Rotation
  import opened Prepare
  import opened Emission

  /** A record counts under a name: filtering is on, and the patterns give this
      name for its text, its own severity being known for the kernel only. */
  ghost predicate CountsAs(rules: Rules, filter: bool, kind: Kind, raw: bytes, name: string) {
    filter && name != ""
    && exists text :: Without(rules.decode(raw), text)
         && rules.normal(kind, text, if kind == Kernel then rules.severity(kind, text) else Unknown) == Some(name)
  }

  /** It counts under none, so that it has to be sent. */
  ghost predicate Unusual(rules: Rules, filter: bool, kind: Kind, raw: bytes) {
    forall name :: !CountsAs(rules, filter, kind, raw, name)
  }

  lemma CountsIff(rules: Rules, filter: bool, task: Task, name: string)
    ensures NormalName(rules, filter, task) == Some(name) <==> CountsAs(rules, filter, task.kind, task.raw, name)
  {
    var text := Message(rules, task.raw);
    StripEndIs(rules.decode(task.raw));
    forall other | Without(rules.decode(task.raw), other)
      ensures other == text
    {
      WithoutUnique(rules.decode(task.raw), other, text);
    }
    hide Without, StripEnd;
  }

  lemma UnusualIff(rules: Rules, filter: bool, task: Task)
    ensures NormalName(rules, filter, task).None? <==> Unusual(rules, filter, task.kind, task.raw)
  {
    forall name
      ensures NormalName(rules, filter, task) == Some(name) <==> CountsAs(rules, filter, task.kind, task.raw, name)
    {
      CountsIff(rules, filter, task, name);
    }
    hide NormalName, CountsAs;
    if NormalName(rules, filter, task).Some? {
      assert CountsAs(rules, filter, task.kind, task.raw, NormalName(rules, filter, task).value);
    }
  }

  lemma NothingCounts(rules: Rules, kind: Kind, raw: bytes)
    ensures Unusual(rules, false, kind, raw)
  {
  }

  /** Ascending positions. */
  ghost predicate Rising(at: seq<nat>) {
    forall i, j | 0 <= i < j < |at| :: at[i] < at[j]
  }

  /** These are the records to be sent, and where they stand. */
  ghost predicate Selected(rules: Rules, filter: bool, tasks: seq<Task>, kept: seq<Task>, at: seq<nat>) {
    && |at| == |kept| && Rising(at)
    && (forall k | 0 <= k < |at| :: at[k] < |tasks| && kept[k] == tasks[at[k]])
    && forall i: nat | i < |tasks| :: i in at <==> Unusual(rules, filter, tasks[i].kind, tasks[i].raw)
  }

  lemma SelectedSnoc(rules: Rules, filter: bool, front: seq<Task>, last: Task, kept: seq<Task>, at: seq<nat>)
    requires Selected(rules, filter, front, kept, at)
    ensures if Unusual(rules, filter, last.kind, last.raw)
            then Selected(rules, filter, front + [last], kept + [last], at + [|front|])
            else Selected(rules, filter, front + [last], kept, at)
  {
    hide Unusual;
    var tasks := front + [last];
    assert forall i | 0 <= i < |front| :: tasks[i] == front[i];
    assert forall p <- at :: p < |front|;
    assert |front| !in at;
  }

  lemma {:induction false} KeptSelected(rules: Rules, filter: bool, tasks: seq<Task>) returns (at: seq<nat>)
    ensures Selected(rules, filter, tasks, Kept(rules, filter, tasks), at)
  {
    hide Unusual, NormalName;
    if tasks == [] {
      at := [];
    } else {
      var front, last := tasks[..|tasks| - 1], tasks[|tasks| - 1];
      assert tasks == front + [last];
      at := KeptSelected(rules, filter, front);
      UnusualIff(rules, filter, last);
      SelectedSnoc(rules, filter, front, last, Kept(rules, filter, front), at);
      if Unusual(rules, filter, last.kind, last.raw) {
        at := at + [|front|];
      } else {
        assert Kept(rules, filter, front) + [] == Kept(rules, filter, front);
      }
    }
  }

  ghost predicate CountsFor(rules: Rules, filter: bool, task: Task, key: NormalKey) {
    task.kind == key.kind && CountsAs(rules, filter, task.kind, task.raw, key.pattern)
  }

  /** Where the records stand that count under a name. */
  ghost function Counted(rules: Rules, filter: bool, tasks: seq<Task>, key: NormalKey): set<nat> {
    set i: nat | i < |tasks| && CountsFor(rules, filter, tasks[i], key)
  }

  lemma {:induction false} MatchingCounted(rules: Rules, filter: bool, tasks: seq<Task>, key: NormalKey)
    ensures Matching(rules, filter, tasks, key) == |Counted(rules, filter, tasks, key)|
  {
    hide *;
    if tasks == [] {
      NothingMatches(rules, filter, key);
    } else {
      var front, last := tasks[..|tasks| - 1], tasks[|tasks| - 1];
      assert tasks == front + [last];
      MatchingCounted(rules, filter, front, key);
      CountsIff(rules, filter, last, key.pattern);
      KeptSnoc(rules, filter, front, last);
      CountedSnoc(rules, filter, front, last, key);
      CountsForIs(rules, filter, last, key);
    }
  }

  lemma CountsForIs(rules: Rules, filter: bool, task: Task, key: NormalKey)
    ensures CountsFor(rules, filter, task, key) <==> task.kind == key.kind && CountsAs(rules, filter, task.kind, task.raw, key.pattern)
  {
    hide CountsAs;
  }

  lemma NothingMatches(rules: Rules, filter: bool, key: NormalKey)
    ensures Matching(rules, filter, [], key) == 0 && Counted(rules, filter, [], key) == {}
  {
  }

  lemma CountedSnoc(rules: Rules, filter: bool, front: seq<Task>, last: Task, key: NormalKey)
    ensures |Counted(rules, filter, front + [last], key)|
         == |Counted(rules, filter, front, key)| + if CountsFor(rules, filter, last, key) then 1 else 0
  {
    hide CountsFor;
    var tasks, n := front + [last], |front|;
    var before, after := Counted(rules, filter, front, key), Counted(rules, filter, tasks, key);
    forall i: nat
      ensures i in after <==> i in before || (i == n && CountsFor(rules, filter, last, key))
    {
      if i < n {
        assert tasks[i] == front[i];
      }
    }
    if CountsFor(rules, filter, last, key) {
      assert after == before + {n};
    } else {
      assert after == before;
    }
  }

  /** The first time an outbox uses: now, or right after the last one used. */
  function FirstNs(now: int, last: nat): nat {
    if now > last then now else last + 1
  }

  /** A stream that tells of a record at some time. */
  ghost predicate Reports(rules: Rules, stream: Stream, task: Task, ns: nat) {
    && stream.kind == task.kind && stream.ns == ns
    && Tells(rules, task.kind, task.raw, task.bootstrap, ns, stream.level, stream.line)
  }

  lemma CarriesReports(rules: Rules, stream: Stream, task: Task, ns: nat)
    ensures Carries(rules, stream, task, ns) <==> Reports(rules, stream, task, ns)
  {
    RenderIff(rules, task.kind, task.raw, task.bootstrap, ns, stream.level, stream.line);
    hide Render, Tells;
  }

  /** There is one stream for each record that counts under no name, in order, at
      consecutive nanoseconds; the positions say which. */
  ghost predicate Accounts(rules: Rules, filter: bool, tasks: seq<Task>, streams: seq<Stream>, first: nat, at: seq<nat>) {
    && |at| == |streams| && Rising(at)
    && (forall k | 0 <= k < |at| :: at[k] < |tasks| && Reports(rules, streams[k], tasks[at[k]], first + k))
    && (forall i: nat | i < |tasks| :: i in at <==> Unusual(rules, filter, tasks[i].kind, tasks[i].raw))
  }

  lemma AccountsIs(rules: Rules, filter: bool, tasks: seq<Task>, streams: seq<Stream>, first: nat, at: seq<nat>)
    ensures Accounts(rules, filter, tasks, streams, first, at) <==>
              && |at| == |streams| && Rising(at)
              && (forall k | 0 <= k < |at| :: at[k] < |tasks| && Reports(rules, streams[k], tasks[at[k]], first + k))
              && (forall i: nat | i < |tasks| :: i in at <==> Unusual(rules, filter, tasks[i].kind, tasks[i].raw))
  {
    hide Rising, Reports, Unusual;
  }

  /** Which streams an outbox holds and how its counters grow: one stream for each
      record cut that counts under no name, in order, at consecutive nanoseconds;
      and each counter grows by the number of records that count under its name. */
  lemma OutboxFiltered(rules: Rules, filter: bool, state: State, snapshot: Snapshot, now: int, outbox: Outbox)
      returns (at: seq<nat>)
    requires PreparedBy(rules, filter, state, snapshot, now, outbox)
    ensures var tasks, streams := Tasks(rules, state, snapshot, KINDS), Flat(outbox);
            && Accounts(rules, filter, tasks, streams, FirstNs(now, state.lastNs), at)
            && (forall key :: Count(outbox.next.normal, key) == Count(state.normal, key) + |Counted(rules, filter, tasks, key)|)
  {
    hide *;
    OutboxAccount(rules, filter, state, snapshot, now, outbox);
    PreparedOk(rules, filter, state, snapshot, now, outbox);
    var tasks, streams := Tasks(rules, state, snapshot, KINDS), Flat(outbox);
    at := KeptSelected(rules, filter, tasks);
    var kept := Kept(rules, filter, tasks);
    SelectedIs(rules, filter, tasks, kept, at);
    CarriesSize(rules, streams, kept, now, state.lastNs);
    forall k | 0 <= k < |at|
      ensures Reports(rules, streams[k], tasks[at[k]], FirstNs(now, state.lastNs) + k)
    {
      CarriesAt(rules, streams, kept, now, state.lastNs, k);
      CarriesReports(rules, streams[k], kept[k], FirstNs(now, state.lastNs) + k);
    }
    AccountsIs(rules, filter, tasks, streams, FirstNs(now, state.lastNs), at);
    forall key: NormalKey
      ensures Count(outbox.next.normal, key) == Count(state.normal, key) + |Counted(rules, filter, tasks, key)|
    {
      MatchingCounted(rules, filter, tasks, key);
    }
  }

  lemma PreparedOk(rules: Rules, filter: bool, state: State, snapshot: Snapshot, now: int, outbox: Outbox)
    requires PreparedBy(rules, filter, state, snapshot, now, outbox)
    ensures SnapshotOk(snapshot) && state.pending.None? && forall kind: Kind :: KindOk(snapshot, kind)
  {
    hide KindOk, Prepared;
  }

  lemma SelectedIs(rules: Rules, filter: bool, tasks: seq<Task>, kept: seq<Task>, at: seq<nat>)
    requires Selected(rules, filter, tasks, kept, at)
    ensures |at| == |kept| && Rising(at)
    ensures forall k | 0 <= k < |at| :: at[k] < |tasks| && kept[k] == tasks[at[k]]
    ensures forall i: nat | i < |tasks| :: i in at <==> Unusual(rules, filter, tasks[i].kind, tasks[i].raw)
  {
    hide Unusual, Rising;
  }

  lemma CarriesSize(rules: Rules, streams: seq<Stream>, tasks: seq<Task>, now: int, last: nat)
    requires CarriesAll(rules, streams, tasks, now, last)
    ensures |streams| == |tasks|
  {
    hide Carries;
  }

  lemma CarriesAt(rules: Rules, streams: seq<Stream>, tasks: seq<Task>, now: int, last: nat, k: nat)
    requires CarriesAll(rules, streams, tasks, now, last) && k < |tasks|
    ensures |streams| == |tasks| && Carries(rules, streams[k], tasks[k], FirstNs(now, last) + k)
  {
    hide Carries;
  }

  /** The streams tell of the records of one kind that count under no name, one for
      one and in order; the positions say which. */
  ghost predicate Conveys(rules: Rules, filter: bool, kind: Kind, records: seq<bytes>, streams: seq<Stream>, at: seq<nat>) {
    && |at| == |streams| && Rising(at)
    && (forall k | 0 <= k < |at| ::
          at[k] < |records| && Reports(rules, streams[k], Task(kind, records[at[k]], false), streams[k].ns))
    && (forall i: nat | i < |records| :: i in at <==> Unusual(rules, filter, kind, records[i]))
  }

  lemma ConveysFrom(rules: Rules, filter: bool, kind: Kind, records: seq<bytes>, streams: seq<Stream>, kept: seq<Task>, at: seq<nat>)
    requires Selected(rules, filter, AsTasks(kind, records, false), kept, at) && |streams| == |kept|
    requires forall k | 0 <= k < |streams| :: Reports(rules, streams[k], kept[k], streams[k].ns)
    ensures Conveys(rules, filter, kind, records, streams, at)
  {
    hide Rising, Reports, Unusual;
    var tasks := AsTasks(kind, records, false);
    forall i: nat | i < |records|
      ensures i in at <==> Unusual(rules, filter, kind, records[i])
    {
      assert tasks[i] == Task(kind, records[i], false);
    }
  }

  /** With filtering off every record cut is sent, and no counter changes. */
  lemma UnfilteredSendsAll(rules: Rules, state: State, snapshot: Snapshot, now: int, outbox: Outbox)
    requires PreparedBy(rules, false, state, snapshot, now, outbox)
    ensures var tasks, streams := Tasks(rules, state, snapshot, KINDS), Flat(outbox);
            && |streams| == |tasks|
            && (forall k | 0 <= k < |tasks| :: Reports(rules, streams[k], tasks[k], FirstNs(now, state.lastNs) + k))
            && (forall key :: Count(outbox.next.normal, key) == Count(state.normal, key))
  {
    hide *;
    PreparedOk(rules, false, state, snapshot, now, outbox);
    var at := OutboxFiltered(rules, false, state, snapshot, now, outbox);
    var tasks := Tasks(rules, state, snapshot, KINDS);
    AccountsIs(rules, false, tasks, Flat(outbox), FirstNs(now, state.lastNs), at);
    forall i: nat | i < |tasks|
      ensures i in at
    {
      NothingCounts(rules, tasks[i].kind, tasks[i].raw);
    }
    AllPositions(at, |tasks|);
    forall key: NormalKey
      ensures Counted(rules, false, tasks, key) == {}
    {
      NoneCounted(rules, tasks, key);
    }
  }

  lemma NoneCounted(rules: Rules, tasks: seq<Task>, key: NormalKey)
    ensures Counted(rules, false, tasks, key) == {}
  {
  }

  lemma LargestLast(at: seq<nat>, j: nat)
    requires Rising(at) && j < |at| && forall k | 0 <= k < |at| :: at[k] <= at[j]
    ensures j == |at| - 1
  {
    assert at[|at| - 1] <= at[j];
  }

  /** Ascending positions that are all positions. */
  lemma {:induction false} AllPositions(at: seq<nat>, n: nat)
    requires Rising(at) && (forall k | 0 <= k < |at| :: at[k] < n) && forall i: nat | i < n :: i in at
    ensures |at| == n && forall k | 0 <= k < n :: at[k] == k
  {
    assert |at| > 0 ==> at[0] < n;
    if n > 0 {
      var top: nat, m := n - 1, |at| - 1;
      assert top in at;
      var j :| 0 <= j < |at| && at[j] == top;
      LargestLast(at, j);
      forall i: nat | i < n - 1
        ensures i in at[..m]
      {
        assert i in at;
        var k :| 0 <= k < |at| && at[k] == i;
        assert at[..m][k] == i;
      }
      AllPositions(at[..m], n - 1);
      assert at == at[..m] + [at[m]];
    }
  }

  // ------------------------------------------------- which records are cut

  ghost function FileOf(snapshot: Snapshot, kind: Kind, gen: Gen): seq<Rec> {
    if Slot(kind, gen) in snapshot && snapshot[Slot(kind, gen)].Some? then [snapshot[Slot(kind, gen)].value] else []
  }

  /** The generations that are there, oldest first. */
  lemma ChronologicalIs(snapshot: Snapshot, kind: Kind)
    requires KindOk(snapshot, kind)
    ensures Chronological(snapshot, kind)
         == (if kind in {Kernel, Samba} then FileOf(snapshot, kind, Two) + FileOf(snapshot, kind, One)
             else if kind in {StorageUtil, Iscsi} then [] else FileOf(snapshot, kind, Old))
            + FileOf(snapshot, kind, Current)
  {
    ChronologicalPresent(snapshot, kind);
    hide Present, FileOf, KindOk, Chronological;
    if kind in {Kernel, Samba} {
      ThreeGens(snapshot, kind, Two, One);
    } else if kind in {StorageUtil, Iscsi} {
      OneGen(snapshot, kind);
      assert [] + FileOf(snapshot, kind, Current) == FileOf(snapshot, kind, Current);
    } else {
      TwoGens(snapshot, kind, Old);
    }
  }

  lemma OneGen(snapshot: Snapshot, kind: Kind)
    requires forall gen <- [Current] :: Slot(kind, gen) in snapshot
    ensures Present(snapshot, kind, [Current]) == FileOf(snapshot, kind, Current)
  {
    hide FileOf, Present;
    assert Current in [Current];
    PresentNone(snapshot, kind);
    PresentCons(snapshot, kind, Current, []);
    assert [Current] + [] == [Current];
  }

  lemma TwoGens(snapshot: Snapshot, kind: Kind, a: Gen)
    requires forall gen <- [Current, a] :: Slot(kind, gen) in snapshot
    ensures Present(snapshot, kind, [Current, a]) == FileOf(snapshot, kind, a) + FileOf(snapshot, kind, Current)
  {
    hide FileOf, Present;
    assert Current in [Current, a] && a in [Current, a];
    PresentNone(snapshot, kind);
    PresentCons(snapshot, kind, a, []);
    PresentCons(snapshot, kind, Current, [a]);
    assert [a] + [] == [a] && [Current] + [a] == [Current, a];
  }

  lemma ThreeGens(snapshot: Snapshot, kind: Kind, a: Gen, b: Gen)
    requires forall gen <- [Current, b, a] :: Slot(kind, gen) in snapshot
    ensures Present(snapshot, kind, [Current, b, a])
         == FileOf(snapshot, kind, a) + FileOf(snapshot, kind, b) + FileOf(snapshot, kind, Current)
  {
    hide *;
    assert Current in [Current, b, a] && a in [Current, b, a] && b in [Current, b, a];
    TwoOlder(snapshot, kind, a, b);
    PresentCons(snapshot, kind, Current, [b, a]);
    assert [Current] + [b, a] == [Current, b, a];
  }

  lemma TwoOlder(snapshot: Snapshot, kind: Kind, a: Gen, b: Gen)
    requires Slot(kind, a) in snapshot && Slot(kind, b) in snapshot
    ensures forall gen <- [b, a] :: Slot(kind, gen) in snapshot
    ensures Present(snapshot, kind, [b, a]) == FileOf(snapshot, kind, a) + FileOf(snapshot, kind, b)
  {
    hide *;
    PresentNone(snapshot, kind);
    PresentCons(snapshot, kind, a, []);
    assert [a] + [] == [a];
    PresentCons(snapshot, kind, b, [a]);
    assert [b] + [a] == [b, a];
  }

  lemma ChronologicalPresent(snapshot: Snapshot, kind: Kind)
    requires KindOk(snapshot, kind)
    ensures forall gen <- Gens(kind) :: Slot(kind, gen) in snapshot
    ensures Current in Gens(kind) && Chronological(snapshot, kind) == Present(snapshot, kind, Gens(kind))
  {
    hide Present;
    assert Gens(kind)[0] == Current;
  }

  lemma PresentNone(snapshot: Snapshot, kind: Kind)
    ensures Present(snapshot, kind, []) == []
  {
  }

  lemma PresentCons(snapshot: Snapshot, kind: Kind, gen: Gen, older: seq<Gen>)
    requires Slot(kind, gen) in snapshot && forall g <- older :: Slot(kind, g) in snapshot
    ensures forall g <- [gen] + older :: Slot(kind, g) in snapshot
    ensures Present(snapshot, kind, [gen] + older) == Present(snapshot, kind, older) + FileOf(snapshot, kind, gen)
  {
    assert ([gen] + older)[1..] == older;
    assert Present(snapshot, kind, older) + [] == Present(snapshot, kind, older);
  }

  /** The first poll of a kind cuts only the live file, from its start, and sends
      no more than the last fifty records, marked as such. It counts no gap. */
  lemma FirstPoll(rules: Rules, state: State, snapshot: Snapshot, kind: Kind)
    requires KindOk(snapshot, kind) && kind !in state.cursors
    ensures snapshot[Slot(kind, Current)].Some?
    ensures var live, tasks := snapshot[Slot(kind, Current)].value, KindTasks(rules, state, snapshot, kind);
            var records := Cut(rules.headers, kind, live.data, 0, false, false);
            && |tasks| == (if |records| < 50 then |records| else 50)
            && (forall i | 0 <= i < |tasks| :: tasks[i] == Task(kind, records[|records| - |tasks| + i], true))
            && PollKind(rules, state, snapshot, kind).cursor.offset == |Concat(records)|
            && !PollKind(rules, state, snapshot, kind).gap
  {
    hide Cut, Chronological, KindOk;
    LiveThere(snapshot, kind);
    LiveRec(snapshot, kind);
    var live := Piece(snapshot[Slot(kind, Current)].value, 0, false);
    assert Work(Chronological(snapshot, kind), None) == [live];
    OnePiece(rules.headers, kind, live, -1);
  }

  /** Every later poll sends all records it cuts. */
  lemma LaterPoll(rules: Rules, state: State, snapshot: Snapshot, kind: Kind)
    requires KindOk(snapshot, kind) && kind in state.cursors
    ensures var tasks := KindTasks(rules, state, snapshot, kind);
            var polled := Poll(rules.headers, kind, Some(state.cursors[kind]), Chronological(snapshot, kind));
            && |tasks| == |polled.records|
            && forall i | 0 <= i < |tasks| :: tasks[i] == Task(kind, polled.records[i], false)
  {
    hide Poll, Chronological, KindOk;
  }

  function Rank(kind: Kind): nat {
    match kind
    case Kernel => 0
    case Samba => 1
    case Smbd => 2
    case Nmbd => 3
    case Winbindd => 4
    case Storage => 5
    case Hal => 6
    case HalDaemon => 7
    case Sdmd => 8
    case StorageUtil => 9
    case Iscsi => 10
  }

  /** The records are taken up kind after kind. */
  lemma KindsInOrder(rules: Rules, state: State, snapshot: Snapshot)
    requires SnapshotOk(snapshot)
    ensures var tasks := Tasks(rules, state, snapshot, KINDS);
            forall i, j | 0 <= i < j < |tasks| :: Rank(tasks[i].kind) <= Rank(tasks[j].kind)
  {
    hide Tasks, KindOk;
    RankedKinds();
    RankedTasks(rules, state, snapshot, KINDS);
  }

  lemma RankedKinds()
    ensures forall i | 0 <= i < |KINDS| :: Rank(KINDS[i]) == i
  {
  }

  lemma {:induction false} RankedTasks(rules: Rules, state: State, snapshot: Snapshot, kinds: seq<Kind>)
    requires (forall kind <- kinds :: KindOk(snapshot, kind)) && forall i | 0 <= i < |kinds| :: Rank(kinds[i]) == i
    ensures var tasks := Tasks(rules, state, snapshot, kinds);
            && (forall i | 0 <= i < |tasks| :: Rank(tasks[i].kind) < |kinds|)
            && forall i, j | 0 <= i < j < |tasks| :: Rank(tasks[i].kind) <= Rank(tasks[j].kind)
  {
    hide *;
    if kinds == [] {
      NoKinds(rules, state, snapshot);
    } else {
      var front, last := kinds[..|kinds| - 1], kinds[|kinds| - 1];
      TasksFrom(rules, state, snapshot, kinds);
      RankedTasks(rules, state, snapshot, front);
      KindTasksKind(rules, state, snapshot, last);
      assert forall i | 0 <= i < |KindTasks(rules, state, snapshot, last)| ::
          KindTasks(rules, state, snapshot, last)[i] in KindTasks(rules, state, snapshot, last);
    }
  }

  lemma TasksFrom(rules: Rules, state: State, snapshot: Snapshot, kinds: seq<Kind>)
    requires kinds != [] && forall k <- kinds :: KindOk(snapshot, k)
    ensures var front, last := kinds[..|kinds| - 1], kinds[|kinds| - 1];
            && (forall k <- front :: KindOk(snapshot, k)) && KindOk(snapshot, last)
            && Tasks(rules, state, snapshot, kinds) == Tasks(rules, state, snapshot, front) + KindTasks(rules, state, snapshot, last)
  {
    hide KindOk, KindTasks;
    var last := kinds[|kinds| - 1];
    assert last in kinds;
  }

  lemma KindTasksKind(rules: Rules, state: State, snapshot: Snapshot, kind: Kind)
    requires KindOk(snapshot, kind)
    ensures forall task <- KindTasks(rules, state, snapshot, kind) :: task.kind == kind
  {
    hide KindOk, PollKind, Capped;
  }

  lemma NoKinds(rules: Rules, state: State, snapshot: Snapshot)
    ensures Tasks(rules, state, snapshot, []) == []
  {
  }

  // ---------------------------------------------------------- the successor

  /** No file of this kind begins with what its cursor has consumed. */
  ghost predicate Lost(state: State, snapshot: Snapshot, kind: Kind)
    requires KindOk(snapshot, kind)
  {
    kind in state.cursors
    && forall rec <- Chronological(snapshot, kind) ::
         !(|rec.data| >= state.cursors[kind].offset && Sha256(rec.data[..state.cursors[kind].offset]) == state.cursors[kind].sha256)
  }

  lemma LostIff(rules: Rules, state: State, snapshot: Snapshot, kind: Kind)
    requires KindOk(snapshot, kind)
    ensures PollKind(rules, state, snapshot, kind).gap <==> Lost(state, snapshot, kind)
  {
    hide Chronological, KindOk, CutPieces, Reached;
    if kind in state.cursors {
      var recs, cursor := Chronological(snapshot, kind), state.cursors[kind];
      LiveRec(snapshot, kind);
      LocateNone(rules.headers, kind, cursor, recs);
      hide Poll;
      if forall rec <- recs :: !MatchesPrefix(rec, cursor) {
        assert forall j | 0 <= j < |recs| :: recs[j] in recs;
      }
    }
  }

  ghost function LostKinds(state: State, snapshot: Snapshot, kinds: seq<Kind>): set<Kind>
    requires forall kind <- kinds :: KindOk(snapshot, kind)
  {
    set kind <- kinds | Lost(state, snapshot, kind)
  }

  lemma {:induction false} GapsCounted(rules: Rules, state: State, snapshot: Snapshot, kinds: seq<Kind>)
    requires (forall kind <- kinds :: KindOk(snapshot, kind)) && forall i, j | 0 <= i < j < |kinds| :: kinds[i] != kinds[j]
    ensures Gaps(rules, state, snapshot, kinds) == state.gaps + |LostKinds(state, snapshot, kinds)|
  {
    hide *;
    if kinds == [] {
      NoGapsYet(rules, state, snapshot);
    } else {
      GapsLast(rules, state, snapshot, kinds);
      var front, last := kinds[..|kinds| - 1], kinds[|kinds| - 1];
      assert kinds == front + [last];
      GapsCounted(rules, state, snapshot, front);
      LostIff(rules, state, snapshot, last);
      LostSnoc(state, snapshot, front, last);
    }
  }

  lemma NoGapsYet(rules: Rules, state: State, snapshot: Snapshot)
    ensures Gaps(rules, state, snapshot, []) == state.gaps && LostKinds(state, snapshot, []) == {}
  {
  }

  lemma GapsLast(rules: Rules, state: State, snapshot: Snapshot, kinds: seq<Kind>)
    requires kinds != [] && forall kind <- kinds :: KindOk(snapshot, kind)
    ensures KindOk(snapshot, kinds[|kinds| - 1]) && forall kind <- kinds[..|kinds| - 1] :: KindOk(snapshot, kind)
    ensures Gaps(rules, state, snapshot, kinds)
         == Gaps(rules, state, snapshot, kinds[..|kinds| - 1])
            + if PollKind(rules, state, snapshot, kinds[|kinds| - 1]).gap then 1 else 0
  {
    hide KindOk, PollKind;
    assert kinds[|kinds| - 1] in kinds;
  }

  lemma LostSnoc(state: State, snapshot: Snapshot, front: seq<Kind>, last: Kind)
    requires (forall kind <- front + [last] :: KindOk(snapshot, kind)) && last !in front
    ensures (forall kind <- front :: KindOk(snapshot, kind)) && KindOk(snapshot, last)
    ensures |LostKinds(state, snapshot, front + [last])|
         == |LostKinds(state, snapshot, front)| + if Lost(state, snapshot, last) then 1 else 0
  {
    hide KindOk, Lost;
    assert last in front + [last] && forall kind <- front :: kind in front + [last];
    assert LostKinds(state, snapshot, front + [last])
        == LostKinds(state, snapshot, front) + if Lost(state, snapshot, last) then {last} else {};
  }

  /** What else the successor of a state says: a gap more for every kind whose
      cursor is lost, and the time. */
  lemma OutboxNext(rules: Rules, filter: bool, state: State, snapshot: Snapshot, now: int, outbox: Outbox)
    requires PreparedBy(rules, filter, state, snapshot, now, outbox)
    ensures forall kind <- KINDS :: KindOk(snapshot, kind)
    ensures outbox.next.gaps == state.gaps + |LostKinds(state, snapshot, KINDS)|
    ensures outbox.next.lastSuccess * 1000000000.0 == now as real && outbox.next.pending.None?
  {
    hide *;
    PreparedOk(rules, filter, state, snapshot, now, outbox);
    NextCursors(rules, filter, state, snapshot, now, outbox);
    NextTime(rules, filter, state, snapshot, now, outbox);
    DistinctKinds();
    GapsCounted(rules, state, snapshot, KINDS);
  }

  lemma NextTime(rules: Rules, filter: bool, state: State, snapshot: Snapshot, now: int, outbox: Outbox)
    requires PreparedBy(rules, filter, state, snapshot, now, outbox)
    ensures outbox.next.lastSuccess * 1000000000.0 == now as real && outbox.next.pending.None?
  {
    var acc := Unpack(rules, filter, state, snapshot, now, outbox);
    hide EmitAll, Tasks, Valid, Closed, KINDS, Prepared, Cursors, Gaps;
  }

  lemma DistinctKinds()
    ensures forall i, j | 0 <= i < j < |KINDS| :: KINDS[i] != KINDS[j]
  {
  }
}
