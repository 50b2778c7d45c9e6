/** Durable SMART counters: the poll, and what they count over every run. */
module SmartCounters {
  import opened Basics
  import opened SmartSnapshot
  import Texts

  /** A disk in the state: its last sample and its counters. */
  datatype Disk = Disk(sample: Sample, increments: map<int, int>)

  datatype State = State(lastSuccess: real, disks: map<nat, Disk>)

  predicate IsInteger(value: int) {
    0 <= value <= LARGEST
  }

  predicate ValuesOk(values: map<int, int>) {
    values.Keys == FAULT_ATTRIBUTES && forall a <- values :: IsInteger(values[a])
  }

  predicate DiskOk(disk: Disk) {
    && Hex64(disk.sample.id)
    && IsInteger(disk.sample.temperature) && disk.sample.temperature <= 150
    && ValuesOk(disk.sample.raw) && ValuesOk(disk.increments)
  }

  /** validate_state. */
  predicate Valid(state: State) {
    && state.lastSuccess >= 0.0
    && state.disks.Keys == BAYS
    && (forall b <- state.disks :: DiskOk(state.disks[b]))
    && forall a, b | a in state.disks && b in state.disks && a != b :: state.disks[a].sample.id != state.disks[b].sample.id
  }

  // -------------------------------------------------------------- advance

  /** The counters of a disk after a sample: they go on if it is the disk that
      was in the bay before, and start at zero otherwise. */
  function Counted(before: Option<Disk>, sample: Sample): map<int, int>
    requires before.Some? ==> sample.raw.Keys <= before.value.sample.raw.Keys * before.value.increments.Keys
  {
    map a | a in sample.raw ::
      if before.Some? && before.value.sample.id == sample.id
      then before.value.increments[a] + Max(0, sample.raw[a] - before.value.sample.raw[a])
      else 0
  }

  /** The lookups in advance succeed. */
  predicate Aligned(previous: Option<State>, samples: Snapshot) {
    previous.Some? ==>
      && samples.Keys <= previous.value.disks.Keys
      && forall b <- samples ::
           samples[b].raw.Keys <= previous.value.disks[b].sample.raw.Keys * previous.value.disks[b].increments.Keys
  }

  function Before(previous: Option<State>, bay: nat): Option<Disk>
    requires previous.Some? ==> bay in previous.value.disks
  {
    if previous.Some? then Some(previous.value.disks[bay]) else None
  }

  function Disks(previous: Option<State>, samples: Snapshot): map<nat, Disk>
    requires Aligned(previous, samples)
  {
    map b | b in samples :: Disk(samples[b], Counted(Before(previous, b), samples[b]))
  }

  /** advance: a state, or an exception. */
  function Advance(previous: Option<State>, samples: Snapshot, now: real): Option<State> {
    if !Aligned(previous, samples) then None
    else
      var next := State(now, Disks(previous, samples));
      if Valid(next) then Some(next) else None
  }

  // ----------------------------------------------------------------- poll

  /** The state file. */
  datatype Stored = Missing | Unreadable | Holds(state: State)

  /** How a save ends: before the rename, after it, or well. */
  datatype Save = FailsBefore | FailsAfter | Succeeds

  /** What one poll meets: can the file be read, what the reader returns, the
      clock, and how the save ends. */
  datatype Conditions = Conditions(readable: bool, samples: Option<Snapshot>, now: real, save: Save)

  datatype World = World(file: Stored, memory: Option<State>, success: bool, stateValid: bool)

  /** load_state: no state yet, a state, or an exception. */
  function Load(file: Stored, readable: bool): Option<Option<State>> {
    if !readable then None
    else
      match file
      case Missing => Some(None)
      case Unreadable => None
      case Holds(state) => if Valid(state) then Some(Some(state)) else None
  }

  function AfterSave(file: Stored, state: State, save: Save): (Stored, bool) {
    if !Valid(state) || save == FailsBefore then (file, false) else (Holds(state), save == Succeeds)
  }

  /** After the state was read again. Metrics may be exported here. */
  function AfterLoad(w: World, c: Conditions): World {
    var previous := Load(w.file, c.readable);
    if previous.None? then w.(success := false, stateValid := false)
    else w.(memory := previous.value, stateValid := true)
  }

  /** The state a poll comes to, if it gets that far. */
  function Candidate(w: World, c: Conditions): Option<State> {
    var previous := Load(w.file, c.readable);
    if previous.None? || c.samples.None? then None else Advance(previous.value, c.samples.value, c.now)
  }

  /** After the rename of the save, if it comes to that, and before the fields are
      assigned. The save does not hold the lock: metrics may be exported here. */
  function AfterRename(w: World, c: Conditions): World {
    var candidate := Candidate(w, c);
    if candidate.None? then AfterLoad(w, c) else AfterLoad(w, c).(file := AfterSave(w.file, candidate.value, c.save).0)
  }

  /** poll_once. */
  function AfterPoll(w: World, c: Conditions): World {
    var loaded, candidate := AfterLoad(w, c), Candidate(w, c);
    if Load(w.file, c.readable).None? then loaded
    else if candidate.None? then loaded.(success := false)
    else
      var (file, ok) := AfterSave(w.file, candidate.value, c.save);
      if ok then World(file, candidate, true, true)
      else loaded.(file := file, success := false, stateValid := false)
  }

  /** The state whose counters the metrics show. */
  function Exported(w: World): Option<State> {
    if w.success then w.memory else None
  }

  // -------------------------------------------------------------- classes

  class StateFile {
    var content: Stored

    constructor (content: Stored)
      ensures this.content == content
    {
      this.content := content;
    }

    method Read(readable: bool) returns (r: Option<Option<State>>)
      ensures r == Load(content, readable)
    {
      if !readable || content.Unreadable? {
        return None;
      }
      if content.Missing? {
        return Some(None);
      }
      if !Valid(content.state) {
        return None;
      }
      return Some(Some(content.state));
    }

    method Write(state: State, save: Save) returns (ok: bool)
      modifies this
      ensures (content, ok) == AfterSave(old(content), state, save)
    {
      if !Valid(state) || save == FailsBefore {
        return false;
      }
      content := Holds(state);
      return save == Succeeds;
    }
  }

  class SmartCollector {
    const file: StateFile
    var state: Option<State>
    var success: bool
    var stateValid: bool

    constructor (file: StateFile)
      ensures this.file == file && Now() == World(file.content, None, false, false)
    {
      this.file := file;
      state, success, stateValid := None, false, false;
    }

    ghost function Now(): World
      reads this, file
    {
      World(file.content, state, success, stateValid)
    }

    /** One poll, and what others can see in the middle of it: after the load, and
        after the rename. */
    method PollOnce(c: Conditions) returns (ghost loaded: World, ghost renamed: World)
      modifies this, file
      ensures loaded == AfterLoad(old(Now()), c)
      ensures renamed == AfterRename(old(Now()), c)
      ensures Now() == AfterPoll(old(Now()), c)
    {
      hide Valid, Advance;
      var previous := file.Read(c.readable);
      if previous.None? {
        success, stateValid := false, false;
        loaded, renamed := Now(), Now();
        return;
      }
      state, stateValid := previous.value, true;
      loaded, renamed := Now(), Now();
      if c.samples.None? {
        success := false;
        return;
      }
      var candidate := Advance(previous.value, c.samples.value, c.now);
      if candidate.None? {
        success := false;
        return;
      }
      var saved := file.Write(candidate.value, c.save);
      renamed := Now();
      if !saved {
        success, stateValid := false, false;
        return;
      }
      state, success, stateValid := candidate, true, true;
    }

    /** The gate in metrics. */
    method Export() returns (r: Option<State>)
      ensures r == Exported(Now())
    {
      if !success || state.None? {
        return None;
      }
      return state;
    }
  }

  // ------------------------------------------------------------------ runs

  datatype Event = Polls(c: Conditions) | Restart

  function Step(w: World, e: Event): World {
    match e
    case Polls(c) => AfterPoll(w, c)
    case Restart => World(w.file, None, false, false)
  }

  function Run(w: World, events: seq<Event>): World {
    if events == [] then w else Step(Run(w, events[..|events| - 1]), events[|events| - 1])
  }

  function Start(file: Stored): World {
    World(file, None, false, false)
  }

  /** What a step puts into the file. A save that fails after the rename has
      put it there too. */
  function Replaced(w: World, e: Event): Option<State> {
    match e
    case Restart => None
    case Polls(c) => if c.save == FailsBefore then None else Candidate(w, c)
  }

  /** Every state the file has held, oldest first. */
  function Durable(file: Stored, events: seq<Event>): seq<State> {
    if events == [] then (if file.Holds? then [file.state] else [])
    else
      var front := events[..|events| - 1];
      var put := Replaced(Run(Start(file), front), events[|events| - 1]);
      Durable(file, front) + if put.Some? then [put.value] else []
  }

  lemma AdvanceValid(previous: Option<State>, samples: Snapshot, now: real)
    ensures var r := Advance(previous, samples, now); r.Some? ==> Valid(r.value)
  {
    hide Valid;
  }

  lemma StepReplaces(w: World, e: Event)
    ensures Step(w, e).file == if Replaced(w, e).Some? then Holds(Replaced(w, e).value) else w.file
  {
    hide Valid, Advance, BAYS, FAULT_ATTRIBUTES;
    if e.Polls? {
      var previous := Load(w.file, e.c.readable);
      if previous.Some? && e.c.samples.Some? {
        AdvanceValid(previous.value, e.c.samples.value, e.c.now);
      }
    }
  }

  /** The file holds the newest of the durable states. */
  lemma {:induction false} FileIsNewest(file: Stored, events: seq<Event>)
    ensures var durable, now := Durable(file, events), Run(Start(file), events).file;
            if durable == [] then now == file && !file.Holds? else now == Holds(durable[|durable| - 1])
  {
    if events != [] {
      hide Step, Replaced;
      var front := events[..|events| - 1];
      FileIsNewest(file, front);
      StepReplaces(Run(Start(file), front), events[|events| - 1]);
    }
  }

  // ----------------------------------------------------- from state to state

  /** The disk in a bay, and what was read and counted for one attribute. */
  function Id(state: State, bay: nat): string {
    if bay in state.disks then state.disks[bay].sample.id else ""
  }

  function Raw(state: State, bay: nat, x: int): int {
    if bay in state.disks && x in state.disks[bay].sample.raw then state.disks[bay].sample.raw[x] else 0
  }

  function Counter(state: State, bay: nat, x: int): int {
    if bay in state.disks && x in state.disks[bay].increments then state.disks[bay].increments[x] else 0
  }

  /** What one more durable sample adds to a counter. */
  ghost predicate LinkAt(a: State, b: State, bay: nat, x: int) {
    Counter(b, bay, x)
    == if Id(a, bay) == Id(b, bay) then Counter(a, bay, x) + Max(0, Raw(b, bay, x) - Raw(a, bay, x)) else 0
  }

  ghost predicate Link(a: State, b: State) {
    forall bay, x | bay in BAYS && x in FAULT_ATTRIBUTES :: LinkAt(a, b, bay, x)
  }

  ghost predicate Linked(states: seq<State>) {
    forall i, j | 0 <= i && j == i + 1 < |states| :: Link(states[i], states[j])
  }

  /** A first state: nothing has been counted. */
  ghost predicate Zero(state: State) {
    forall bay, x | bay in BAYS && x in FAULT_ATTRIBUTES :: Counter(state, bay, x) == 0
  }

  lemma ValidAt(state: State, bay: nat, x: int)
    requires Valid(state) && bay in BAYS && x in FAULT_ATTRIBUTES
    ensures state.disks.Keys == BAYS && bay in state.disks
    ensures x in state.disks[bay].sample.raw && x in state.disks[bay].increments
  {
    hide BAYS, FAULT_ATTRIBUTES, Hex64, IsInteger;
    assert DiskOk(state.disks[bay]);
  }

  /** What advance puts into a bay. */
  lemma AdvanceAt(previous: Option<State>, samples: Snapshot, now: real, bay: nat, x: int)
    requires Advance(previous, samples, now).Some? && bay in BAYS && x in FAULT_ATTRIBUTES
    requires previous.Some? ==> Valid(previous.value)
    ensures var next := Advance(previous, samples, now).value;
            if previous.Some? then LinkAt(previous.value, next, bay, x) else Counter(next, bay, x) == 0
  {
    hide Valid, BAYS, FAULT_ATTRIBUTES;
    AdvanceValid(previous, samples, now);
    var next := Advance(previous, samples, now).value;
    ValidAt(next, bay, x);
    if previous.Some? {
      ValidAt(previous.value, bay, x);
    }
    assert next.disks[bay] == Disk(samples[bay], Counted(Before(previous, bay), samples[bay]));
  }

  lemma ReplacedLinks(w: World, e: Event)
    requires Replaced(w, e).Some?
    ensures !w.file.Unreadable?
    ensures var put := Replaced(w, e).value;
            if w.file.Holds? then Link(w.file.state, put) else Zero(put)
  {
    hide Valid, Advance, LinkAt, Counter, BAYS, FAULT_ATTRIBUTES;
    var samples, now := e.c.samples.value, e.c.now;
    var previous := if w.file.Holds? then Some(w.file.state) else None;
    forall bay, x | bay in BAYS && x in FAULT_ATTRIBUTES
      ensures var put := Replaced(w, e).value;
              if w.file.Holds? then LinkAt(w.file.state, put, bay, x) else Counter(put, bay, x) == 0
    {
      AdvanceAt(previous, samples, now, bay, x);
    }
  }

  lemma LinkedSnoc(states: seq<State>, next: State)
    requires Linked(states) && (states != [] ==> Link(states[|states| - 1], next))
    ensures Linked(states + [next])
  {
    hide Link;
  }

  /** The durable states of every run are linked, and the first one counts
      nothing unless the run found it in the file. */
  lemma {:induction false} DurableLinked(file: Stored, events: seq<Event>)
    ensures var durable := Durable(file, events);
            && Linked(durable)
            && (durable != [] && !file.Holds? ==> Zero(durable[0]))
            && (file.Holds? ==> durable != [] && durable[0] == file.state)
  {
    if events == [] {
      hide Link, Zero;
    } else {
      hide Linked, Link, Zero, Replaced, Step, Run;
      var front, e := events[..|events| - 1], events[|events| - 1];
      DurableLinked(file, front);
      FileIsNewest(file, front);
      var w := Run(Start(file), front);
      if Replaced(w, e).Some? {
        ReplacedLinks(w, e);
        LinkedSnoc(Durable(file, front), Replaced(w, e).value);
      }
    }
  }

  // --------------------------------------------------------------- counting

  /** The sum of all rises. */
  function Rises(values: seq<int>): nat {
    if |values| < 2 then 0
    else Rises(values[..|values| - 1]) + Max(0, values[|values| - 1] - values[|values| - 2])
  }

  function Raws(states: seq<State>, bay: nat, x: int): seq<int> {
    seq(|states|, i requires 0 <= i < |states| => Raw(states[i], bay, x))
  }

  /** The same disk is in the bay throughout. */
  ghost predicate Stays(states: seq<State>, bay: nat) {
    forall s <- states :: Id(s, bay) == Id(states[0], bay)
  }

  /** While a disk stays in its bay, its counter grows by the sum of the rises
      between the durable samples. */
  lemma {:induction false} CountsOnce(states: seq<State>, bay: nat, x: int)
    requires bay in BAYS && x in FAULT_ATTRIBUTES
    requires states != [] && Linked(states) && Stays(states, bay)
    ensures Counter(states[|states| - 1], bay, x) == Counter(states[0], bay, x) + Rises(Raws(states, bay, x))
  {
    hide *;
    var n := |states| - 1;
    if n > 0 {
      FrontStays(states, bay);
      CountsOnce(states[..n], bay, x);
      LastRise(states, bay, x);
      LinkedAt(states, n, bay, x);
    } else {
      OneSample(states, bay, x);
    }
  }

  lemma OneSample(states: seq<State>, bay: nat, x: int)
    requires |states| == 1
    ensures Rises(Raws(states, bay, x)) == 0
  {
  }

  lemma FrontStays(states: seq<State>, bay: nat)
    requires |states| > 1 && Linked(states) && Stays(states, bay)
    ensures Linked(states[..|states| - 1]) && Stays(states[..|states| - 1], bay)
    ensures Id(states[|states| - 2], bay) == Id(states[|states| - 1], bay)
  {
    hide Id, Link;
  }

  lemma LinkedAt(states: seq<State>, n: nat, bay: nat, x: int)
    requires Linked(states) && 0 < n < |states| && bay in BAYS && x in FAULT_ATTRIBUTES
    requires Id(states[n - 1], bay) == Id(states[n], bay)
    ensures Counter(states[n], bay, x)
         == Counter(states[n - 1], bay, x) + Max(0, Raw(states[n], bay, x) - Raw(states[n - 1], bay, x))
  {
    hide BAYS, FAULT_ATTRIBUTES, Counter, Id, Raw, Max;
    assert Link(states[n - 1], states[n]);
    assert LinkAt(states[n - 1], states[n], bay, x);
  }

  lemma LastRise(states: seq<State>, bay: nat, x: int)
    requires |states| > 1
    ensures var n := |states| - 1;
            Rises(Raws(states, bay, x))
            == Rises(Raws(states[..n], bay, x)) + Max(0, Raw(states[n], bay, x) - Raw(states[n - 1], bay, x))
  {
    hide Raw, Max;
    assert Raws(states, bay, x)[..|states| - 1] == Raws(states[..|states| - 1], bay, x);
  }

  /** The first of the durable states since which the disk in the bay has not
      changed. */
  function Arrived(states: seq<State>, bay: nat): (i: nat)
    requires states != []
    ensures i < |states|
  {
    if |states| == 1 || Id(states[|states| - 2], bay) != Id(states[|states| - 1], bay) then |states| - 1
    else Arrived(states[..|states| - 1], bay)
  }

  lemma {:induction false} ArrivedStays(states: seq<State>, bay: nat)
    requires states != []
    ensures var i := Arrived(states, bay);
            && Stays(states[i..], bay)
            && (i > 0 ==> Id(states[i - 1], bay) != Id(states[i], bay))
  {
    hide Id, Stays;
    var n := |states| - 1;
    if n > 0 && Id(states[n - 1], bay) == Id(states[n], bay) {
      ArrivedStays(states[..n], bay);
      var i := Arrived(states, bay);
      assert states[i..] == states[..n][i..] + [states[n]];
      StaysSnoc(states[..n][i..], states[n], bay);
    } else {
      assert states[n..] == [states[n]];
      StaysOne(states[n], bay);
    }
  }

  lemma StaysOne(state: State, bay: nat)
    ensures Stays([state], bay)
  {
  }

  lemma StaysSnoc(states: seq<State>, next: State, bay: nat)
    requires states != [] && Stays(states, bay) && Id(states[|states| - 1], bay) == Id(next, bay)
    ensures Stays(states + [next], bay)
  {
    hide Id;
    assert states[|states| - 1] in states;
  }

  lemma {:induction false} LinkedSlice(states: seq<State>, i: nat, j: nat)
    requires Linked(states) && i <= j <= |states|
    ensures Linked(states[i..j])
  {
    hide Link;
    var slice := states[i..j];
    forall k, l | 0 <= k && l == k + 1 < |slice|
      ensures Link(slice[k], slice[l])
    {
      assert slice[k] == states[i + k] && slice[l] == states[i + l];
    }
  }

  /** Every durable change is counted once, on every run: what the file counts
      for the disk in a bay is the sum of the rises along the samples that
      reached the file since the disk came into the bay. A disk that was there
      when the run began keeps what it had. */
  lemma IncrementsCountOnce(file: Stored, events: seq<Event>, bay: nat, x: int)
    requires bay in BAYS && x in FAULT_ATTRIBUTES && Durable(file, events) != []
    ensures var durable := Durable(file, events);
            var first := Arrived(durable, bay);
            && Run(Start(file), events).file == Holds(durable[|durable| - 1])
            && (first > 0 ==> Id(durable[first - 1], bay) != Id(durable[first], bay))
            && Stays(durable[first..], bay)
            && Counter(durable[|durable| - 1], bay, x)
            == Rises(Raws(durable[first..], bay, x)) + if first == 0 && file.Holds? then Counter(file.state, bay, x) else 0
  {
    hide Run, Durable, Link, LinkAt, Counter, Id, Raw, Raws, Rises, Stays, BAYS, FAULT_ATTRIBUTES;
    var durable := Durable(file, events);
    var first := Arrived(durable, bay);
    FileIsNewest(file, events);
    DurableLinked(file, events);
    ArrivedStays(durable, bay);
    LinkedSlice(durable, first, |durable|);
    assert durable[first..|durable|] == durable[first..];
    CountsOnce(durable[first..], bay, x);
    if first > 0 {
      assert Link(durable[first - 1], durable[first]);
      Arrival(durable[first - 1], durable[first], bay, x);
    }
  }

  lemma Arrival(a: State, b: State, bay: nat, x: int)
    requires bay in BAYS && x in FAULT_ATTRIBUTES && Link(a, b)
    requires Id(a, bay) != Id(b, bay)
    ensures Counter(b, bay, x) == 0
  {
    hide BAYS, FAULT_ATTRIBUTES, Counter, Id;
    assert LinkAt(a, b, bay, x);
  }

  // ---------------------------------------------------------------- exports

  /** Where a poll stands: not running, past the load, or past the rename. */
  datatype Stage = Idle | Read(c: Conditions) | Renamed(c: Conditions)

  /** A time at which metrics are taken: after some events, and perhaps in the
      middle of a poll. */
  datatype Moment = Moment(events: seq<Event>, stage: Stage)

  function At(file: Stored, m: Moment): World {
    var w := Run(Start(file), m.events);
    match m.stage
    case Idle => w
    case Read(c) => AfterLoad(w, c)
    case Renamed(c) => AfterRename(w, c)
  }

  /** Metrics show only durable states: the one the file held when the running
      poll began, if there is one. The file still holds it, unless the poll has
      just replaced it by its successor. */
  lemma ExportedIsDurable(file: Stored, m: Moment)
    requires Exported(At(file, m)).Some?
    ensures var shown, durable := Exported(At(file, m)).value, Durable(file, m.events);
            && durable != [] && shown == durable[|durable| - 1]
            && (|| At(file, m).file == Holds(shown)
                || (m.stage.Renamed? && m.stage.c.save != FailsBefore
                    && At(file, m).file.Holds? && Link(shown, At(file, m).file.state)
                    && Durable(file, m.events + [Polls(m.stage.c)]) == durable + [At(file, m).file.state]))
  {
    hide Run, Durable, Link;
    FileIsNewest(file, m.events);
    match m.stage
    case Idle =>
      LastStep(file, m.events);
    case Read(c) =>
      LoadShows(Run(Start(file), m.events), c);
    case Renamed(c) =>
      RenameShows(Run(Start(file), m.events), c);
      DurableSnoc(file, m.events, Polls(c));
  }

  lemma LoadShows(w: World, c: Conditions)
    ensures Exported(AfterLoad(w, c)).Some? ==> AfterLoad(w, c).file == w.file == Holds(Exported(AfterLoad(w, c)).value)
  {
    hide Valid;
  }

  lemma RenameShows(w: World, c: Conditions)
    requires Exported(AfterRename(w, c)).Some?
    ensures w.file == Holds(Exported(AfterRename(w, c)).value)
    ensures var after := AfterRename(w, c);
            if Replaced(w, Polls(c)).None? then after.file == w.file
            else after.file == Holds(Replaced(w, Polls(c)).value) && Link(w.file.state, after.file.state) && c.save != FailsBefore
  {
    hide Advance, Link;
    LoadShows(w, c);
    if Replaced(w, Polls(c)).Some? {
      ReplacedLinks(w, Polls(c));
      CandidateValid(w, c);
    }
  }

  lemma CandidateValid(w: World, c: Conditions)
    requires Candidate(w, c).Some?
    ensures Valid(Candidate(w, c).value)
  {
    AdvanceValid(Load(w.file, c.readable).value, c.samples.value, c.now);
    hide Valid, Advance;
  }

  lemma DurableSnoc(file: Stored, events: seq<Event>, e: Event)
    ensures var put := Replaced(Run(Start(file), events), e);
            Durable(file, events + [e]) == Durable(file, events) + if put.Some? then [put.value] else []
  {
    hide Run, Replaced;
    assert (events + [e])[..|events|] == events;
  }

  lemma LastStep(file: Stored, events: seq<Event>)
    ensures var w := Run(Start(file), events);
            Exported(w).Some? ==> w.file == Holds(Exported(w).value)
  {
    hide Advance, Valid, BAYS, FAULT_ATTRIBUTES;
  }

  lemma {:induction false} DurableGrows(file: Stored, events: seq<Event>, more: seq<Event>)
    ensures Durable(file, events) <= Durable(file, events + more)
  {
    if more == [] {
      assert events + more == events;
    } else {
      hide Run, Replaced;
      var front := more[..|more| - 1];
      DurableGrows(file, events, front);
      assert (events + more)[..|events + more| - 1] == events + front;
    }
  }

  lemma {:induction false} ArrivedBounds(states: seq<State>, bay: nat, i: nat)
    requires i < |states|
    ensures Stays(states[i..], bay) <==> Arrived(states, bay) <= i
  {
    hide Id;
    ArrivedStays(states, bay);
    var first := Arrived(states, bay);
    if first <= i {
      forall s <- states[i..]
        ensures Id(s, bay) == Id(states[i], bay)
      {
        var k :| 0 <= k < |states[i..]| && states[i..][k] == s;
        assert states[first..][i - first + k] == s && states[first..][i - first] == states[i];
      }
    } else {
      assert states[i..][first - 1 - i] == states[first - 1] && states[i..][first - i] == states[first];
    }
  }

  /** Two exported values of a counter, an earlier and a later one. If the disk
      stayed in its bay in every durable state between them, the later value is
      the earlier one plus all rises between. If it did not, the later value is
      only what was counted since the disk in the bay arrived: this is where
      a disk that was taken out and put back loses its count. The later value is
      not smaller exactly if the disk stayed, or has made up for it since. */
  lemma ExportsCompare(file: Stored, early: Moment, late: Moment, bay: nat, x: int)
    requires bay in BAYS && x in FAULT_ATTRIBUTES
    requires early.events <= late.events
    requires Exported(At(file, early)).Some? && Exported(At(file, late)).Some?
    ensures var durable, i := Durable(file, late.events), |Durable(file, early.events)| - 1;
            var a, b := Exported(At(file, early)).value, Exported(At(file, late)).value;
            && 0 <= i < |durable| && durable[i] == a
            && Counter(b, bay, x)
            == if Stays(durable[i..], bay) then Counter(a, bay, x) + Rises(Raws(durable[i..], bay, x))
               else Rises(Raws(durable[Arrived(durable, bay)..], bay, x))
    ensures var durable, i := Durable(file, late.events), |Durable(file, early.events)| - 1;
            Counter(Exported(At(file, late)).value, bay, x) >= Counter(Exported(At(file, early)).value, bay, x)
            <==> Stays(durable[i..], bay)
                 || Rises(Raws(durable[Arrived(durable, bay)..], bay, x)) >= Counter(Exported(At(file, early)).value, bay, x)
  {
    hide At, Run, Durable, Link, Exported, Counter, Id, Raw, Raws, Rises, Stays, BAYS, FAULT_ATTRIBUTES;
    ExportedIsDurable(file, early);
    ExportedIsDurable(file, late);
    assert early.events + late.events[|early.events|..] == late.events;
    DurableGrows(file, early.events, late.events[|early.events|..]);
    var durable, i := Durable(file, late.events), |Durable(file, early.events)| - 1;
    ArrivedBounds(durable, bay, i);
    if Stays(durable[i..], bay) {
      DurableLinked(file, late.events);
      LinkedSlice(durable, i, |durable|);
      assert durable[i..|durable|] == durable[i..];
      CountsOnce(durable[i..], bay, x);
    } else {
      IncrementsCountOnce(file, late.events, bay, x);
    }
  }

  lemma {:induction false} UnreadableKept(w: World, events: seq<Event>)
    requires w.file.Unreadable? || (w.file.Holds? && !Valid(w.file.state))
    ensures Run(w, events).file == w.file
  {
    hide Valid, Advance, BAYS, FAULT_ATTRIBUTES;
    if events != [] {
      UnreadableKept(w, events[..|events| - 1]);
    }
  }

  // -------------------------------------------------------- missed samples

  ghost predicate Ascends(positions: seq<nat>, bound: nat) {
    && (forall i, j | 0 <= i < j < |positions| :: positions[i] < positions[j])
    && forall i | 0 <= i < |positions| :: positions[i] < bound
  }

  function Pick(values: seq<int>, positions: seq<nat>): seq<int>
    requires forall i | 0 <= i < |positions| :: positions[i] < |values|
  {
    seq(|positions|, i requires 0 <= i < |positions| => values[positions[i]])
  }

  /** A rise between two samples is at most the rises on the way. */
  lemma {:induction false} RiseBetween(values: seq<int>, i: nat)
    requires i < |values|
    ensures Rises(values) >= Rises(values[..i + 1]) + Max(0, values[|values| - 1] - values[i])
  {
    if i < |values| - 1 {
      var front := values[..|values| - 1];
      RiseBetween(front, i);
      assert front[..i + 1] == values[..i + 1];
    } else {
      assert values[..i + 1] == values;
    }
  }

  /** Missed samples never make a counter too large. */
  lemma {:induction false} MissedSamples(values: seq<int>, positions: seq<nat>)
    requires Ascends(positions, |values|)
    ensures Rises(Pick(values, positions)) <= Rises(values)
  {
    hide Rises;
    if |positions| <= 1 {
      FewRises(Pick(values, positions));
    } else {
      var n := |positions| - 1;
      var front, last, at := positions[..n], positions[n], positions[n - 1];
      var upTo := values[..at + 1];
      AscendsFront(positions, |values|);
      MissedSamples(upTo, front);
      PickLast(values, positions);
      RiseBetween(values[..last + 1], at);
      assert values[..last + 1][..at + 1] == upTo;
      RiseBetween(values, last);
    }
  }

  lemma FewRises(values: seq<int>)
    requires |values| <= 1
    ensures Rises(values) == 0
  {
  }

  lemma AscendsFront(positions: seq<nat>, bound: nat)
    requires Ascends(positions, bound) && |positions| > 1
    ensures var n := |positions| - 1;
            Ascends(positions[..n], positions[n - 1] + 1) && positions[n - 1] < positions[n]
  {
  }

  lemma PickLast(values: seq<int>, positions: seq<nat>)
    requires Ascends(positions, |values|) && |positions| > 1
    ensures var n := |positions| - 1;
            && Ascends(positions[..n], positions[n - 1] + 1)
            && Rises(Pick(values, positions))
            == Rises(Pick(values[..positions[n - 1] + 1], positions[..n])) + Max(0, values[positions[n]] - values[positions[n - 1]])
  {
    var n := |positions| - 1;
    AscendsFront(positions, |values|);
    assert Pick(values[..positions[n - 1] + 1], positions[..n]) == Pick(values, positions)[..n];
  }

  /** Nor too small, if the values only grow. */
  lemma {:induction false} SteadyRises(values: seq<int>)
    requires values != [] && forall i, j | 0 <= i <= j < |values| :: values[i] <= values[j]
    ensures Rises(values) == values[|values| - 1] - values[0]
  {
    if |values| > 1 {
      SteadyRises(values[..|values| - 1]);
    }
  }

  lemma MissedSteadySamples(values: seq<int>, positions: seq<nat>)
    requires Ascends(positions, |values|) && positions != []
    requires positions[0] == 0 && positions[|positions| - 1] == |values| - 1
    requires forall i, j | 0 <= i <= j < |values| :: values[i] <= values[j]
    ensures Rises(Pick(values, positions)) == Rises(values) == values[|values| - 1] - values[0]
  {
    SteadyRises(values);
    SteadyRises(Pick(values, positions));
  }

  function SampleRaw(samples: Snapshot, bay: nat, x: int): int {
    if bay in samples && x in samples[bay].raw then samples[bay].raw[x] else 0
  }

  /** The value that one step reads. It is read even if it is then lost. */
  function SeenAt(w: World, e: Event, bay: nat, x: int): seq<int> {
    match e
    case Restart => []
    case Polls(c) =>
      if Load(w.file, c.readable).None? || c.samples.None? then [] else [SampleRaw(c.samples.value, bay, x)]
  }

  function Seen(file: Stored, events: seq<Event>, bay: nat, x: int): seq<int> {
    if events == [] then []
    else
      var front := events[..|events| - 1];
      Seen(file, front, bay, x) + SeenAt(Run(Start(file), front), events[|events| - 1], bay, x)
  }

  lemma ReplacedSeen(w: World, e: Event, bay: nat, x: int)
    requires Replaced(w, e).Some?
    ensures SeenAt(w, e, bay, x) == [Raw(Replaced(w, e).value, bay, x)]
  {
    hide Valid, BAYS, FAULT_ATTRIBUTES;
  }

  lemma PickSnoc(values: seq<int>, positions: seq<nat>, more: seq<int>)
    requires Ascends(positions, |values|)
    ensures Ascends(positions, |values + more|)
    ensures Pick(values + more, positions) == Pick(values, positions)
    ensures more != [] ==> Ascends(positions + [|values|], |values + more|)
                           && Pick(values + more, positions + [|values|]) == Pick(values, positions) + [more[0]]
  {
  }

  /** All values there were to count from: the one found in the file, if any, and
      those that were read. */
  function SeenFrom(file: Stored, events: seq<Event>, bay: nat, x: int): seq<int> {
    (if file.Holds? then [Raw(file.state, bay, x)] else []) + Seen(file, events, bay, x)
  }

  /** The samples that reach the file are some of these, in order. */
  lemma {:induction false} DurableSeen(file: Stored, events: seq<Event>, bay: nat, x: int) returns (positions: seq<nat>)
    ensures Ascends(positions, |SeenFrom(file, events, bay, x)|)
    ensures Pick(SeenFrom(file, events, bay, x), positions) == Raws(Durable(file, events), bay, x)
  {
    hide *;
    if events == [] {
      positions := if file.Holds? then [0] else [];
      SeenFirst(file, bay, x);
    } else {
      var front, e := events[..|events| - 1], events[|events| - 1];
      var w, seen := Run(Start(file), front), SeenFrom(file, front, bay, x);
      assert events == front + [e];
      positions := DurableSeen(file, front, bay, x);
      PickSnoc(seen, positions, SeenAt(w, e, bay, x));
      SeenSnoc(file, front, e, bay, x);
      DurableSnoc(file, front, e);
      if Replaced(w, e).Some? {
        ReplacedSeen(w, e, bay, x);
        RawsSnoc(Durable(file, front), Replaced(w, e).value, bay, x);
        positions := positions + [|seen|];
      } else {
        assert Durable(file, front) + [] == Durable(file, front);
      }
    }
  }

  lemma SeenFirst(file: Stored, bay: nat, x: int)
    ensures var seen, positions := SeenFrom(file, [], bay, x), if file.Holds? then [0] else [];
            Ascends(positions, |seen|) && Pick(seen, positions) == Raws(Durable(file, []), bay, x)
  {
    hide Raw;
  }

  lemma SeenSnoc(file: Stored, events: seq<Event>, e: Event, bay: nat, x: int)
    ensures SeenFrom(file, events + [e], bay, x)
         == SeenFrom(file, events, bay, x) + SeenAt(Run(Start(file), events), e, bay, x)
  {
    hide Run, SeenAt, Raw;
    assert (events + [e])[..|events|] == events;
  }

  lemma RawsSnoc(states: seq<State>, next: State, bay: nat, x: int)
    ensures Raws(states + [next], bay, x) == Raws(states, bay, x) + [Raw(next, bay, x)]
  {
    hide Raw;
  }

  lemma SuffixRises(values: seq<int>, i: nat)
    requires i <= |values|
    ensures Rises(values[i..]) <= Rises(values)
  {
    hide Rises;
    var positions: seq<nat> := seq(|values| - i, k requires 0 <= k < |values| - i => i + k);
    MissedSamples(values, positions);
    assert Pick(values, positions) == values[i..];
  }

  /** What the file counted when the run began. */
  function Base(file: Stored, bay: nat, x: int): int {
    if file.Holds? then Counter(file.state, bay, x) else 0
  }

  /** No run counts more than what it found and the rises along all values there
      were, whatever was lost, failed or restarted. */
  lemma NeverOvercounts(file: Stored, events: seq<Event>, bay: nat, x: int)
    requires bay in BAYS && x in FAULT_ATTRIBUTES && Durable(file, events) != []
    ensures var durable := Durable(file, events);
            Counter(durable[|durable| - 1], bay, x) <= Max(0, Base(file, bay, x)) + Rises(SeenFrom(file, events, bay, x))
  {
    hide Run, Durable, Seen, SeenFrom, Counter, Raw, Rises, BAYS, FAULT_ATTRIBUTES;
    var durable := Durable(file, events);
    var first := Arrived(durable, bay);
    IncrementsCountOnce(file, events, bay, x);
    var positions := DurableSeen(file, events, bay, x);
    MissedSamples(SeenFrom(file, events, bay, x), positions);
    SuffixRises(Raws(durable, bay, x), first);
    assert Raws(durable[first..], bay, x) == Raws(durable, bay, x)[first..];
  }

  /** Samples lost on the way cost nothing, if the values only grow and the disk
      stays: the counter is what was found, and the last durable value less the
      first. */
  lemma NothingMissed(file: Stored, events: seq<Event>, bay: nat, x: int)
    requires bay in BAYS && x in FAULT_ATTRIBUTES && Durable(file, events) != []
    requires Stays(Durable(file, events), bay)
    requires var seen := SeenFrom(file, events, bay, x); forall i, j | 0 <= i <= j < |seen| :: seen[i] <= seen[j]
    ensures var durable := Durable(file, events);
            Counter(durable[|durable| - 1], bay, x)
            == Base(file, bay, x) + Raw(durable[|durable| - 1], bay, x) - Raw(durable[0], bay, x)
  {
    hide Run, Durable, SeenFrom, Counter, Raw, Rises, Zero, Stays, Link, BAYS, FAULT_ATTRIBUTES;
    var durable := Durable(file, events);
    DurableLinked(file, events);
    CountsOnce(durable, bay, x);
    var positions := DurableSeen(file, events, bay, x);
    forall i, j | 0 <= i <= j < |durable|
      ensures Raws(durable, bay, x)[i] <= Raws(durable, bay, x)[j]
    {
      assert Pick(SeenFrom(file, events, bay, x), positions)[i] <= Pick(SeenFrom(file, events, bay, x), positions)[j];
    }
    SteadyRises(Raws(durable, bay, x));
    if !file.Holds? {
      ZeroAt(durable[0], bay, x);
    }
  }

  lemma ZeroAt(state: State, bay: nat, x: int)
    requires Zero(state) && bay in BAYS && x in FAULT_ATTRIBUTES
    ensures Counter(state, bay, x) == 0
  {
    hide BAYS, FAULT_ATTRIBUTES, Counter;
  }

  // ------------------------------------------------- taken out and put back

  function Named(n: nat): string
    requires n < 16
  {
    seq(64, _ => if n < 10 then '0' + n as char else 'a' + (n - 10) as char)
  }

  /** Four disks, the first of them variable, with one value for every attribute. */
  function Uniform(first: nat, raw: int): Snapshot
    requires first < 16
  {
    map b: nat | b in BAYS :: Sample(Named(if b == 1 then first else b), true, 30, map x: int | x in FAULT_ATTRIBUTES :: raw)
  }

  predicate Low(state: State, bound: int) {
    Valid(state) && forall b, x | b in state.disks && x in state.disks[b].increments :: state.disks[b].increments[x] <= bound
  }

  lemma NamedDiffer(m: nat, n: nat)
    requires m < 16 && n < 16
    ensures Hex64(Named(m)) && (m != n ==> Named(m) != Named(n))
  {
    assert Named(m)[0] == Named(n)[0] ==> m == n;
  }

  /** What is needed of a disk that is counted on. */
  ghost predicate LowDisk(disk: Disk, bound: int) {
    DiskOk(disk) && forall x <- disk.increments :: disk.increments[x] <= bound
  }

  ghost predicate Plain(sample: Sample, raw: int) {
    && Hex64(sample.id) && 0 <= sample.temperature <= 150
    && sample.raw.Keys == FAULT_ATTRIBUTES && forall x <- sample.raw :: sample.raw[x] == raw
  }

  lemma PlainDisk(before: Option<Disk>, sample: Sample, raw: int, bound: nat)
    requires Plain(sample, raw) && 0 <= raw <= 100 && bound <= 1000
    requires before.Some? ==> LowDisk(before.value, bound)
    ensures before.Some? ==> sample.raw.Keys <= before.value.sample.raw.Keys * before.value.increments.Keys
    ensures LowDisk(Disk(sample, Counted(before, sample)), bound + raw)
  {
    hide Hex64, FAULT_ATTRIBUTES;
    if before.Some? {
      assert forall x <- before.value.sample.raw :: IsInteger(before.value.sample.raw[x]);
      assert forall x <- before.value.increments :: IsInteger(before.value.increments[x]);
    }
  }

  lemma UniformPlain(first: nat, raw: int, bay: nat)
    requires 10 <= first < 16 && bay in BAYS
    ensures bay in Uniform(first, raw) && Plain(Uniform(first, raw)[bay], raw)
    ensures Uniform(first, raw)[bay].id == Named(if bay == 1 then first else bay)
  {
    hide Named, Hex64, FAULT_ATTRIBUTES;
    NamedDiffer(if bay == 1 then first else bay, 0);
  }

  lemma LowAt(state: State, bound: int, bay: nat)
    requires Low(state, bound) && bay in BAYS
    ensures bay in state.disks && LowDisk(state.disks[bay], bound)
  {
    hide BAYS, DiskOk;
  }

  lemma LowFrom(state: State, bound: int)
    requires state.lastSuccess == 0.0 && state.disks.Keys == BAYS
    requires forall b <- state.disks :: LowDisk(state.disks[b], bound)
    requires forall a, b | a in state.disks && b in state.disks && a != b :: state.disks[a].sample.id != state.disks[b].sample.id
    ensures Low(state, bound)
  {
    hide BAYS, DiskOk;
    assert forall b <- state.disks :: DiskOk(state.disks[b]);
  }

  lemma UniformAdvances(previous: Option<State>, first: nat, raw: int, bound: nat)
    requires 10 <= first < 16 && 0 <= raw <= 100 && bound <= 1000
    requires previous.Some? ==> Low(previous.value, bound)
    ensures var next := Advance(previous, Uniform(first, raw), 0.0);
            && next.Some? && Low(next.value, bound + raw)
            && Id(next.value, 1) == Named(first) && Raw(next.value, 1, 5) == raw
  {
    hide Named, Valid, Low, LowDisk, DiskOk, Plain, Uniform, Counted, Id, Raw, BAYS, FAULT_ATTRIBUTES;
    var samples := Uniform(first, raw);
    UniformKeys(first, raw);
    if previous.Some? {
      LowKeys(previous.value, bound);
    }
    forall b | b in BAYS
      ensures previous.Some? ==> samples[b].raw.Keys <= previous.value.disks[b].sample.raw.Keys * previous.value.disks[b].increments.Keys
      ensures LowDisk(Disk(samples[b], Counted(Before(previous, b), samples[b])), bound + raw)
    {
      UniformPlain(first, raw, b);
      if previous.Some? {
        LowAt(previous.value, bound, b);
      }
      PlainDisk(Before(previous, b), samples[b], raw, bound);
    }
    var next := State(0.0, Disks(previous, samples));
    forall a, b | a in BAYS && b in BAYS && a != b
      ensures samples[a].id != samples[b].id
    {
      UniformDiffers(first, raw, a, b);
    }
    LowFrom(next, bound + raw);
    LowKeys(next, bound + raw);
    UniformFirst(next, first, raw);
  }

  lemma UniformFirst(next: State, first: nat, raw: int)
    requires 10 <= first < 16 && 1 in next.disks && next.disks[1].sample == Uniform(first, raw)[1]
    ensures Id(next, 1) == Named(first) && Raw(next, 1, 5) == raw
  {
    hide Named, Hex64;
    UniformPlain(first, raw, 1);
  }

  lemma UniformKeys(first: nat, raw: int)
    requires first < 16
    ensures Uniform(first, raw).Keys == BAYS && 1 in BAYS
  {
    hide Named;
  }

  lemma LowKeys(state: State, bound: int)
    requires Low(state, bound)
    ensures Valid(state) && state.disks.Keys == BAYS
  {
    hide BAYS, DiskOk;
  }

  lemma UniformDiffers(first: nat, raw: int, a: nat, b: nat)
    requires 10 <= first < 16 && a in BAYS && b in BAYS && a != b
    ensures Uniform(first, raw)[a].id != Uniform(first, raw)[b].id
  {
    hide Named, Hex64, FAULT_ATTRIBUTES;
    NamedDiffer(if a == 1 then first else a, if b == 1 then first else b);
  }

  function Good(first: nat, raw: int): Event
    requires first < 16
  {
    Polls(Conditions(true, Some(Uniform(first, raw)), 0.0, Succeeds))
  }

  lemma GoodPoll(w: World, first: nat, raw: int, bound: nat)
    requires 10 <= first < 16 && 0 <= raw <= 100 && bound <= 1000
    requires w.file.Missing? || (w.file.Holds? && Low(w.file.state, bound))
    ensures var after := Step(w, Good(first, raw));
            && after.file.Holds? && Exported(after) == Some(after.file.state)
            && Low(after.file.state, bound + raw)
            && Id(after.file.state, 1) == Named(first) && Raw(after.file.state, 1, 5) == raw
            && if w.file.Holds? then LinkAt(w.file.state, after.file.state, 1, 5) else Counter(after.file.state, 1, 5) == 0
  {
    hide Advance, Valid, Uniform, Id, Raw, Counter, LinkAt, Named, BAYS, FAULT_ATTRIBUTES;
    var previous := if w.file.Holds? then Some(w.file.state) else None;
    UniformAdvances(previous, first, raw, bound);
    AdvanceValid(previous, Uniform(first, raw), 0.0);
    InBounds();
    AdvanceAt(previous, Uniform(first, raw), 0.0, 1, 5);
  }

  lemma InBounds()
    ensures 1 in BAYS && 5 in FAULT_ATTRIBUTES
  {
  }

  /** A disk is read at 0 and at 5, is replaced for one poll, and comes back. */
  function TakenOut(): seq<Event> {
    [Good(10, 0), Good(10, 5), Good(11, 0), Good(10, 5)]
  }

  /** The counter exported under the same bay, disk and attribute goes from 5 back
      to 0: it is monotone only while the disk stays. */
  lemma PutBackRestarts()
    ensures var early, late := Moment(TakenOut()[..2], Idle), Moment(TakenOut(), Idle);
            && Exported(At(Missing, early)).Some? && Exported(At(Missing, late)).Some?
            && var a, b := Exported(At(Missing, early)).value, Exported(At(Missing, late)).value;
            && Id(a, 1) == Id(b, 1) == Named(10)
            && Counter(a, 1, 5) == 5 && Counter(b, 1, 5) == 0
  {
    hide Step, Good, Low, Id, Raw, Counter, Named, Valid;
    var events, w0 := TakenOut(), Start(Missing);
    var w1 := Step(w0, Good(10, 0));
    var w2 := Step(w1, Good(10, 5));
    var w3 := Step(w2, Good(11, 0));
    GoodPoll(w0, 10, 0, 0);
    GoodPoll(w1, 10, 5, 0);
    GoodPoll(w2, 11, 0, 5);
    GoodPoll(w3, 10, 5, 5);
    NamedDiffer(10, 11);
    RunSnoc(w0, [], Good(10, 0));
    RunSnoc(w0, events[..1], Good(10, 5));
    RunSnoc(w0, events[..2], Good(11, 0));
    RunSnoc(w0, events[..3], Good(10, 5));
    assert events[..1] == [] + [Good(10, 0)] && events[..2] == events[..1] + [Good(10, 5)];
    assert events[..3] == events[..2] + [Good(11, 0)] && events == events[..3] + [Good(10, 5)];
  }

  lemma RunSnoc(w: World, events: seq<Event>, e: Event)
    ensures Run(w, events + [e]) == Step(Run(w, events), e)
  {
    assert (events + [e])[..|events|] == events;
  }

  // ------------------------------------------------ how one poll can end

  /** Numbers for just the fault attributes, each an integer of 53 bits. */
  ghost predicate FaultValues(values: map<int, int>) {
    && values.Keys == {5, 10, 184, 187, 188, 191, 197, 198, 199}
    && forall a <- values :: 0 <= values[a] <= 9007199254740991
  }

  ghost predicate SoundDisk(disk: Disk) {
    && |disk.sample.id| == 64
    && (forall i | 0 <= i < 64 :: '0' <= disk.sample.id[i] <= '9' || 'a' <= disk.sample.id[i] <= 'f')
    && 0 <= disk.sample.temperature <= 150
    && FaultValues(disk.sample.raw) && FaultValues(disk.increments)
  }

  lemma DiskIff(disk: Disk)
    ensures DiskOk(disk) <==> SoundDisk(disk)
  {
    ValuesIff(disk.sample.raw);
    ValuesIff(disk.increments);
    hide ValuesOk, FaultValues;
  }

  /** Exactly which states are valid. */
  lemma ValidIff(state: State)
    ensures Valid(state) <==>
              && state.lastSuccess >= 0.0 && state.disks.Keys == {1, 2, 3, 4}
              && (forall b <- state.disks :: SoundDisk(state.disks[b]))
              && forall a, b | a in state.disks && b in state.disks && a != b ::
                   state.disks[a].sample.id != state.disks[b].sample.id
  {
    forall b <- state.disks
      ensures DiskOk(state.disks[b]) <==> SoundDisk(state.disks[b])
    {
      DiskIff(state.disks[b]);
    }
    hide DiskOk, SoundDisk;
  }

  lemma ValuesIff(values: map<int, int>)
    ensures ValuesOk(values) <==> FaultValues(values)
  {
  }

  /** A counter after a sample: what it was and the rise of the value if the disk
      in the bay is the same, and otherwise zero. */
  function NewCount(previous: Option<State>, bay: nat, sample: Sample, a: int): int
    requires a in sample.raw
  {
    if previous.Some? && Id(previous.value, bay) == sample.id then
      Counter(previous.value, bay, a)
      + if sample.raw[a] > Raw(previous.value, bay, a) then sample.raw[a] - Raw(previous.value, bay, a) else 0
    else 0
  }

  /** The disk keeps the sample as it was read, and carries every counter on. */
  ghost predicate CarriesOn(previous: Option<State>, bay: nat, sample: Sample, disk: Disk) {
    && disk.sample == sample && disk.increments.Keys == sample.raw.Keys
    && forall a <- sample.raw :: disk.increments[a] == NewCount(previous, bay, sample, a)
  }

  /** The state that a poll has to come to. */
  ghost predicate Follows(previous: Option<State>, samples: Snapshot, now: real, next: State) {
    && next.lastSuccess == now && next.disks.Keys == samples.Keys
    && forall b <- samples :: CarriesOn(previous, b, samples[b], next.disks[b])
  }

  lemma CountedIs(previous: Option<State>, bay: nat, sample: Sample, disk: Disk)
    requires previous.Some? ==>
               bay in previous.value.disks
               && sample.raw.Keys <= previous.value.disks[bay].sample.raw.Keys * previous.value.disks[bay].increments.Keys
    ensures disk == Disk(sample, Counted(Before(previous, bay), sample)) <==> CarriesOn(previous, bay, sample, disk)
  {
    var counted := Counted(Before(previous, bay), sample);
    assert counted.Keys == sample.raw.Keys;
    assert forall a <- sample.raw :: counted[a] == NewCount(previous, bay, sample, a);
    hide NewCount, Counted;
    if CarriesOn(previous, bay, sample, disk) {
      forall a <- disk.increments
        ensures disk.increments[a] == counted[a]
      {
      }
      assert disk.increments == counted;
    }
  }

  lemma DisksFollow(previous: Option<State>, samples: Snapshot, now: real, next: State)
    requires Aligned(previous, samples)
    ensures Follows(previous, samples, now, next) <==> next == State(now, Disks(previous, samples))
  {
    var disks := Disks(previous, samples);
    forall b <- samples
      ensures disks[b] == Disk(samples[b], Counted(Before(previous, b), samples[b]))
      ensures b in next.disks ==> (next.disks[b] == disks[b] <==> CarriesOn(previous, b, samples[b], next.disks[b]))
    {
      if b in next.disks {
        CountedIs(previous, b, samples[b], next.disks[b]);
      }
    }
    hide CarriesOn, Counted;
    if Follows(previous, samples, now, next) {
      assert next.disks == disks;
    }
  }

  /** Exactly what a poll comes to from the state read and the samples: the state
      that follows, if it is valid. */
  lemma AdvanceIff(previous: Option<State>, samples: Snapshot, now: real, next: State)
    requires Aligned(previous, samples)
    ensures Advance(previous, samples, now) == Some(next) <==> Follows(previous, samples, now, next) && Valid(next)
  {
    DisksFollow(previous, samples, now, next);
    hide Follows, Disks, Valid, Aligned;
  }

  /** What load_state gives: no state yet, or a valid one. */
  ghost predicate ReadsFrom(w: World, c: Conditions, previous: Option<State>) {
    c.readable && ((w.file.Missing? && previous.None?) || (previous.Some? && w.file == Holds(previous.value) && Valid(previous.value)))
  }

  lemma LoadReads(w: World, c: Conditions, previous: Option<State>)
    ensures ReadsFrom(w, c, previous) <==> Load(w.file, c.readable) == Some(previous)
  {
    hide Valid;
  }

  /** A poll that cannot read the file leaves all but the two flags. */
  lemma PollCannotRead(w: World, c: Conditions)
    requires forall previous :: !ReadsFrom(w, c, previous)
    ensures AfterPoll(w, c) == w.(success := false, stateValid := false)
  {
    if Load(w.file, c.readable).Some? {
      LoadReads(w, c, Load(w.file, c.readable).value);
    }
    hide Valid, Advance, ReadsFrom;
  }

  /** A poll without samples, or that comes to no state, has read the file. */
  lemma PollCannotAdvance(w: World, c: Conditions, previous: Option<State>)
    requires ReadsFrom(w, c, previous) && (c.samples.Some? ==> Advance(previous, c.samples.value, c.now).None?)
    ensures AfterPoll(w, c) == World(w.file, previous, false, true)
  {
    LoadReads(w, c, previous);
    hide Valid, Advance, ReadsFrom, Load;
  }

  /** A poll that comes to a state succeeds exactly if the state is saved well, and
      then the file and the memory hold it. */
  lemma PollSaves(w: World, c: Conditions, previous: Option<State>, next: State)
    requires ReadsFrom(w, c, previous) && c.samples.Some? && Advance(previous, c.samples.value, c.now) == Some(next)
    ensures AfterPoll(w, c)
         == match c.save
            case Succeeds => World(Holds(next), Some(next), true, true)
            case FailsAfter => World(Holds(next), previous, false, false)
            case FailsBefore => World(w.file, previous, false, false)
  {
    hide *;
    LoadReads(w, c, previous);
    AdvanceValid(previous, c.samples.value, c.now);
    CandidateIs(w, c, previous);
    PollIs(w, c, previous, next);
  }

  lemma CandidateIs(w: World, c: Conditions, previous: Option<State>)
    requires Load(w.file, c.readable) == Some(previous) && c.samples.Some?
    ensures Candidate(w, c) == Advance(previous, c.samples.value, c.now)
  {
    hide Load, Advance;
  }

  lemma PollIs(w: World, c: Conditions, previous: Option<State>, next: State)
    requires Load(w.file, c.readable) == Some(previous) && Candidate(w, c) == Some(next) && Valid(next)
    ensures AfterPoll(w, c)
         == match c.save
            case Succeeds => World(Holds(next), Some(next), true, true)
            case FailsAfter => World(Holds(next), previous, false, false)
            case FailsBefore => World(w.file, previous, false, false)
  {
    hide Load, Candidate, Valid;
  }

  /** What parse_snapshot accepts. */
  ghost predicate SamplesOk(samples: Snapshot) {
    && samples.Keys == BAYS && DistinctIds(samples)
    && forall b <- samples :: Hex64(samples[b].id) && 0 <= samples[b].temperature <= 150 && FaultValues(samples[b].raw)
  }

  lemma ReportedInRange(s: Section, a: int, raw: int)
    requires SectionOk(s) && Reports(s.rows, a, raw)
    ensures 0 <= raw <= 9007199254740991
  {
    hide Hex64;
    var row :| row in s.rows && row.Row? && row.attribute == a && row.raw == raw;
    var i :| 0 <= i < |s.rows| && s.rows[i] == row;
    assert RowOk(s.rows[i], map[]);
  }

  lemma ReportedOnce(s: Section, a: int, x: int, y: int)
    requires SectionOk(s) && Reports(s.rows, a, x) && Reports(s.rows, a, y)
    ensures x == y
  {
    hide Hex64;
    var row :| row in s.rows && row.Row? && row.attribute == a && row.raw == x;
    var other :| other in s.rows && other.Row? && other.attribute == a && other.raw == y;
    var i :| 0 <= i < |s.rows| && s.rows[i] == row;
    var j :| 0 <= j < |s.rows| && s.rows[j] == other;
    assert i == j;
  }

  lemma DescribedOk(s: Section, sample: Sample)
    requires SectionOk(s) && Describes(s, sample)
    ensures Hex64(sample.id) && 0 <= sample.temperature <= 150 && FaultValues(sample.raw)
  {
    hide Hex64, Reports, RowsOk, RowHealthy;
    var raw :| 0 <= raw <= 150 && Reports(s.rows, TEMPERATURE, raw);
    ReportedOnce(s, TEMPERATURE, raw, sample.temperature);
    forall a <- sample.raw
      ensures 0 <= sample.raw[a] <= 9007199254740991
    {
      ReportedInRange(s, a, sample.raw[a]);
    }
  }

  lemma ParsedIs(data: bytes)
    requires ParsedData(data).Some?
    ensures IsAscii(data)
    ensures var lines := ClassifyAll(Texts.BareLines(Decode(data)));
            && Parsed(lines) == ParsedData(data)
            && Parsed(lines).value.Keys == BAYS && DistinctIds(Parsed(lines).value)
  {
    hide Sections, ClassifyAll, Texts.BareLines, Decode, DistinctIds;
  }

  lemma AddedOk(sections: seq<Section>, samples: Snapshot)
    requires WellFormed(sections) && Adds(map[], sections, samples)
    ensures forall b <- samples :: Hex64(samples[b].id) && 0 <= samples[b].temperature <= 150 && FaultValues(samples[b].raw)
  {
    hide SectionOk, Describes, Hex64, FaultValues;
    forall b <- samples
      ensures Hex64(samples[b].id) && 0 <= samples[b].temperature <= 150 && FaultValues(samples[b].raw)
    {
      var s: Section :| s in sections && s.bay == b;
      DescribedOk(s, samples[b]);
    }
  }

  /** The samples of an accepted snapshot are sound. */
  lemma ParsedSamples(data: bytes)
    requires ParsedData(data).Some?
    ensures SamplesOk(ParsedData(data).value)
  {
    hide *;
    ParsedIs(data);
    var lines := ClassifyAll(Texts.BareLines(Decode(data)));
    AcceptedText(lines);
    var sections :| WellFormed(sections) && lines == Print(sections);
    SectionsOk(sections);
    ReadsText(sections);
    AddedOk(sections, ParsedData(data).value);
    SoundSamples(ParsedData(data).value);
  }

  lemma SectionsOk(sections: seq<Section>)
    requires WellFormed(sections)
    ensures forall s <- sections :: SectionOk(s)
    ensures forall i, j | 0 <= i < j < |sections| :: sections[i].bay != sections[j].bay
  {
    hide SectionOk;
  }

  lemma SoundSamples(samples: Snapshot)
    requires samples.Keys == BAYS && DistinctIds(samples)
    requires forall b <- samples :: Hex64(samples[b].id) && 0 <= samples[b].temperature <= 150 && FaultValues(samples[b].raw)
    ensures SamplesOk(samples)
  {
    hide Hex64, FaultValues, DistinctIds, BAYS;
  }

  lemma AlignedSamples(previous: Option<State>, samples: Snapshot)
    requires (previous.Some? ==> Valid(previous.value)) && SamplesOk(samples)
    ensures Aligned(previous, samples)
  {
    if previous.Some? {
      forall b <- samples
        ensures b in previous.value.disks
                && samples[b].raw.Keys <= previous.value.disks[b].sample.raw.Keys * previous.value.disks[b].increments.Keys
      {
        assert DiskOk(previous.value.disks[b]);
      }
    }
  }

  lemma CountIsNatural(previous: Option<State>, bay: nat, sample: Sample, a: int)
    requires (previous.Some? ==> Valid(previous.value)) && a in sample.raw
    ensures NewCount(previous, bay, sample, a) >= 0
  {
    if previous.Some? && bay in previous.value.disks {
      assert DiskOk(previous.value.disks[bay]);
    }
  }

  lemma NextDisk(previous: Option<State>, bay: nat, sample: Sample, disk: Disk)
    requires (previous.Some? ==> Valid(previous.value)) && CarriesOn(previous, bay, sample, disk)
    requires Hex64(sample.id) && 0 <= sample.temperature <= 150 && FaultValues(sample.raw)
    ensures DiskOk(disk) <==> forall a <- sample.raw :: NewCount(previous, bay, sample, a) <= 9007199254740991
  {
    forall a <- sample.raw
      ensures NewCount(previous, bay, sample, a) >= 0
    {
      CountIsNatural(previous, bay, sample, a);
    }
    DiskIff(disk);
    hide Valid, NewCount;
  }

  /** From no state or a valid one, and four sound samples, a poll comes to a state
      exactly if no counter grows beyond 53 bits. */
  lemma AdvanceSucceeds(previous: Option<State>, samples: Snapshot, now: real)
    requires (previous.Some? ==> Valid(previous.value)) && now >= 0.0 && SamplesOk(samples)
    ensures Advance(previous, samples, now).Some? <==>
              forall b <- samples, a <- samples[b].raw :: NewCount(previous, b, samples[b], a) <= 9007199254740991
  {
    hide Valid, Disks, CarriesOn, NewCount, DiskOk, BAYS, FaultValues, Hex64, Aligned;
    AlignedSamples(previous, samples);
    var next := State(now, Disks(previous, samples));
    DisksFollow(previous, samples, now, next);
    forall b <- samples
      ensures DiskOk(next.disks[b]) <==> forall a <- samples[b].raw :: NewCount(previous, b, samples[b], a) <= 9007199254740991
      ensures next.disks[b].sample == samples[b]
    {
      assert CarriesOn(previous, b, samples[b], next.disks[b]);
      NextDisk(previous, b, samples[b], next.disks[b]);
      CarriedSample(previous, b, samples[b], next.disks[b]);
    }
    ValidDisks(next);
    assert forall a, b | a in next.disks && b in next.disks && a != b :: next.disks[a].sample.id != next.disks[b].sample.id;
  }

  lemma CarriedSample(previous: Option<State>, bay: nat, sample: Sample, disk: Disk)
    requires CarriesOn(previous, bay, sample, disk)
    ensures disk.sample == sample
  {
    hide NewCount;
  }

  lemma ValidDisks(state: State)
    ensures Valid(state) <==>
              && state.lastSuccess >= 0.0 && state.disks.Keys == BAYS && (forall b <- state.disks :: DiskOk(state.disks[b]))
              && forall a, b | a in state.disks && b in state.disks && a != b :: state.disks[a].sample.id != state.disks[b].sample.id
  {
    hide DiskOk, BAYS;
  }

  // ------------------------------------------------- where samples come from

  /** The disks of a state as the samples of one poll, at its time. */
  ghost predicate SampledBy(events: seq<Event>, state: State, k: nat) {
    && k < |events| && events[k].Polls? && events[k].c.samples.Some?
    && state.lastSuccess == events[k].c.now
    && state.disks.Keys == events[k].c.samples.value.Keys
    && forall b <- state.disks :: state.disks[b].sample == events[k].c.samples.value[b]
  }

  lemma ReplacedSampled(events: seq<Event>, w: World, e: Event)
    requires Replaced(w, e).Some?
    ensures SampledBy(events + [e], Replaced(w, e).value, |events|)
  {
    var previous, next := Load(w.file, e.c.readable).value, Replaced(w, e).value;
    assert (events + [e])[|events|] == e;
    AdvanceIff(previous, e.c.samples.value, e.c.now, next);
    hide Valid, Advance, Disks, Load;
  }

  /** Every durable state but one the run began with holds, for each bay, the disk,
      health, temperature and values that one poll of the run has read, in the
      order of the polls. What the metrics show is such a state. */
  lemma {:induction false} DurableSampled(file: Stored, events: seq<Event>) returns (polls: seq<nat>)
    ensures var durable, first := Durable(file, events), if file.Holds? then 1 else 0;
            && |durable| == first + |polls|
            && (forall i | 0 <= i < |polls| :: SampledBy(events, durable[first + i], polls[i]))
            && forall i, j | 0 <= i < j < |polls| :: polls[i] < polls[j]
  {
    hide Run, Replaced;
    if events == [] {
      polls := [];
    } else {
      var front, e := events[..|events| - 1], events[|events| - 1];
      assert events == front + [e];
      polls := DurableSampled(file, front);
      SampledMore(front, e);
      var w := Run(Start(file), front);
      assert forall i | 0 <= i < |polls| :: polls[i] < |front|;
      if Replaced(w, e).Some? {
        ReplacedSampled(front, w, e);
        polls := polls + [|front|];
      }
    }
  }

  lemma SampledMore(events: seq<Event>, e: Event)
    ensures forall state, k: nat | SampledBy(events, state, k) :: k < |events| && SampledBy(events + [e], state, k)
  {
    forall state, k: nat | SampledBy(events, state, k)
      ensures SampledBy(events + [e], state, k)
    {
      assert (events + [e])[k] == events[k];
    }
  }
}
