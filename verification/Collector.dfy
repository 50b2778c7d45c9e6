/** The poll loop of the log collector: load, prepare, save, send, commit. */
module Collector {
  import opened Basics
  import opened Sources
  import opened States
  import opened Framing
  import opened Prepare

  /** The state file. `Unreadable` stands for anything load_state rejects. */
  datatype Stored = Missing | Unreadable | Holds(state: State)

  /** How a save ends: before the rename, after it, or well. */
  datatype Save = FailsBefore | FailsAfter | Succeeds

  /** How sending one batch ends; an accepted batch may still raise here. */
  datatype Send = Rejected | Accepted | AcceptedThenRaised

  /** What one poll meets. Batches beyond `sends` count as rejected, which
      covers the delivery budget running out. */
  datatype Conditions = Conditions(
    readable: bool, fetched: Option<bytes>, now: int, saveOutbox: Save, sends: seq<Send>, saveNext: Save)

  /** The state file, what Loki has accepted, and the collector's own fields. */
  datatype World = World(
    file: Stored, accepted: seq<Stream>, memory: Option<State>,
    success: bool, stateValid: bool, pushFailures: nat, collectionFailures: nat)

  datatype Status = Goes | Fails | Hangs

  function Load(file: Stored, readable: bool): Option<State> {
    if !readable then None
    else
      match file
      case Missing => Some(INITIAL)
      case Unreadable => None
      case Holds(state) => if Valid(state) then Some(state) else None
  }

  /** atomic_save: what the file holds afterwards, and whether it raised. */
  function AtomicSave(file: Stored, state: State, save: Save): (Stored, bool) {
    if !Valid(state) || save == FailsBefore then (file, false) else (Holds(state), save == Succeeds)
  }

  function Fetch(c: Conditions): (r: Option<Snapshot>)
    ensures r.Some? ==> SnapshotOk(r.value)
  {
    if c.fetched.None? then None
    else
      var r := Parse(c.fetched.value);
      if r.None? then None
      else
        ParsedIsOk(c.fetched.value);
        r
  }

  /** The handler of every exception in a poll. */
  function Failed(w: World): World {
    w.(success := false, collectionFailures := w.collectionFailures + 1, stateValid := w.stateValid && w.memory.Some?)
  }

  /** Have a state in memory. */
  function Loaded(w: World, c: Conditions): (r: (World, Status))
    ensures r.1 == Goes ==> r.0.memory.Some?
  {
    if w.memory.Some? then (w.(stateValid := true), Goes)
    else
      var state := Load(w.file, c.readable);
      if state.None? then (w, Fails) else (w.(memory := state, stateValid := true), Goes)
  }

  /** Have an outbox in memory that the file held when it got there. */
  function Armed(rules: Rules, filter: bool, w: World, c: Conditions): (r: (World, Status))
    requires w.memory.Some?
    ensures r.1 == Goes ==> r.0.memory.Some? && r.0.memory.value.pending.Some?
  {
    if w.memory.value.pending.Some? then (w, Goes)
    else
      var snapshot := Fetch(c);
      if snapshot.None? then (w, Fails)
      else
        match Prepared(rules, filter, w.memory.value, snapshot.value, c.now)
        case Raised => (w, Fails)
        case Diverged => (w, Hangs)
        case Returned(candidate) =>
          var (file, ok) := AtomicSave(w.file, candidate, c.saveOutbox);
          if ok then (w.(file := file, memory := Some(candidate)), Goes) else (w.(file := file), Fails)
  }

  /** How many batches arrive, and whether the loop gets through. */
  function Delivered(batches: seq<Batch>, sends: seq<Send>): (r: (nat, bool))
    ensures r.0 <= |batches|
    ensures r.1 ==> r.0 == |batches|
    decreases |batches|
  {
    if batches == [] then (0, true)
    else if sends == [] || sends[0] == Rejected then (0, false)
    else if sends[0] == AcceptedThenRaised then (1, false)
    else
      var (n, done) := Delivered(batches[1..], sends[1..]);
      (n + 1, done)
  }

  function Sending(w: World, c: Conditions): (r: (World, Status))
    requires w.memory.Some? && w.memory.value.pending.Some?
    ensures r.0.memory == w.memory
  {
    var batches := w.memory.value.pending.value.batches;
    var (n, done) := Delivered(batches, c.sends);
    var after := w.(accepted := w.accepted + Concat(batches[..n]));
    if done then (after, Goes) else (after.(pushFailures := w.pushFailures + 1), Fails)
  }

  /** Save the successor state, and only then use it. */
  function Committed(w: World, c: Conditions): (World, Status)
    requires w.memory.Some? && w.memory.value.pending.Some?
  {
    var next := w.memory.value.pending.value.next;
    var (file, ok) := AtomicSave(w.file, next, c.saveNext);
    if ok then (w.(file := file, memory := Some(next), success := true), Goes) else (w.(file := file), Fails)
  }

  function Settle(r: (World, Status)): World {
    if r.1 == Fails then Failed(r.0) else r.0
  }

  /** poll_once. A poll that hangs leaves the world where it stands. */
  function AfterPoll(rules: Rules, filter: bool, w: World, c: Conditions): World {
    var (w1, s1) := Loaded(w, c);
    if s1 != Goes then Settle((w1, s1))
    else
      var (w2, s2) := Armed(rules, filter, w1, c);
      if s2 != Goes then Settle((w2, s2))
      else
        var (w3, s3) := Sending(w2, c);
        if s3 != Goes then Settle((w3, s3)) else Settle(Committed(w3, c))
  }

  /** A crash loses the memory. It may come at any point of a poll: whatever a
      poll has done by then, another poll that fails right there has done too. */
  function Restarted(w: World): World {
    w.(memory := None, success := false, stateValid := false, pushFailures := 0, collectionFailures := 0)
  }

  /** After a restart only the file and what Loki has are as they were: the world
      is that of a new collector. */
  lemma RestartForgets(w: World)
    ensures Restarted(w) == World(w.file, w.accepted, None, false, false, 0, 0)
  {
  }

  // -------------------------------------------------------------- objects

  class StateFile {
    var content: Stored

    constructor (content: Stored)
      ensures this.content == content
    {
      this.content := content;
    }

    method Read(readable: bool) returns (r: Option<State>)
      ensures r == Load(content, readable)
    {
      if !readable {
        return None;
      }
      match content
      case Missing =>
        return Some(INITIAL);
      case Unreadable =>
        return None;
      case Holds(state) =>
        return if Valid(state) then Some(state) else None;
    }

    method Write(state: State, save: Save) returns (ok: bool)
      modifies this
      ensures (content, ok) == AtomicSave(old(content), state, save)
    {
      if !Valid(state) {
        return false;
      }
      if save == FailsBefore {
        return false;
      }
      content := Holds(state);
      return save == Succeeds;
    }
  }

  class Loki {
    var accepted: seq<Stream>

    constructor ()
      ensures accepted == []
    {
      accepted := [];
    }

    method Push(batch: Batch, send: Send) returns (ok: bool)
      modifies this
      ensures accepted == old(accepted) + (if send == Rejected then [] else batch)
      ensures ok <==> send == Accepted
    {
      if send != Rejected {
        accepted := accepted + batch;
      }
      return send == Accepted;
    }
  }

  class LogCollector {
    const rules: Rules
    const filterNormal: bool
    const file: StateFile
    const loki: Loki
    var state: Option<State>
    var success: bool
    var stateValid: bool
    var pushFailures: nat
    var collectionFailures: nat

    constructor (rules: Rules, filterNormal: bool, file: StateFile, loki: Loki)
      ensures this.rules == rules && this.filterNormal == filterNormal && this.file == file && this.loki == loki
      ensures Now() == World(file.content, loki.accepted, None, false, false, 0, 0)
    {
      this.rules := rules;
      this.filterNormal := filterNormal;
      this.file := file;
      this.loki := loki;
      state, success, stateValid, pushFailures, collectionFailures := None, false, false, 0, 0;
    }

    ghost function Now(): World
      reads this, file, loki
    {
      World(file.content, loki.accepted, state, success, stateValid, pushFailures, collectionFailures)
    }

    /** The except branch. */
    method Fail()
      modifies this
      ensures Now() == Failed(old(Now()))
    {
      success := false;
      collectionFailures := collectionFailures + 1;
      if state.None? {
        stateValid := false;
      }
    }

    /** The loop over the batches of the outbox. */
    method SendBatches(batches: seq<Batch>, sends: seq<Send>) returns (ok: bool)
      modifies this`pushFailures, loki
      ensures ok == Delivered(batches, sends).1
      ensures loki.accepted == old(loki.accepted) + Concat(batches[..Delivered(batches, sends).0])
      ensures pushFailures == old(pushFailures) + if ok then 0 else 1
    {
      assert Concat(batches[..0]) == [];
      for i := 0 to |batches|
        invariant i <= |sends| && pushFailures == old(pushFailures)
        invariant loki.accepted == old(loki.accepted) + Concat(batches[..i])
        invariant Delivered(batches, sends).0 == i + Delivered(batches[i..], sends[i..]).0
        invariant Delivered(batches, sends).1 == Delivered(batches[i..], sends[i..]).1
      {
        DeliveryStep(batches, sends, i);
        if i == |sends| {
          pushFailures := pushFailures + 1;
          return false;
        }
        var sent := loki.Push(batches[i], sends[i]);
        if !sent {
          pushFailures := pushFailures + 1;
          return false;
        }
      }
      assert batches[..|batches|] == batches;
      return true;
    }

    /** Read the state file unless a state is in memory. */
    method LoadState(c: Conditions) returns (status: Status)
      modifies this`state, this`stateValid
      ensures (Now(), status) == Loaded(old(Now()), c)
    {
      hide Load;
      if state.None? {
        state := file.Read(c.readable);
        if state.None? {
          return Fails;
        }
      }
      stateValid := true;
      return Goes;
    }

    /** The fetch over SSH and the parsing of what came back. */
    method FetchSnapshot(c: Conditions) returns (r: Option<Snapshot>)
      ensures r == Fetch(c)
      ensures r.Some? ==> SnapshotOk(r.value)
    {
      hide Parse, SnapshotOk;
      if c.fetched.None? {
        return None;
      }
      r := ParseSnapshot(c.fetched.value);
      if r.Some? {
        ParsedIsOk(c.fetched.value);
      }
    }

    /** Prepare and save an outbox unless one is pending; use it only once saved. */
    method ArmOutbox(c: Conditions) returns (status: Status)
      requires state.Some?
      modifies this`state, file
      ensures (Now(), status) == Armed(rules, filterNormal, old(Now()), c)
    {
      hide Prepared, Fetch, AtomicSave;
      if state.value.pending.Some? {
        return Goes;
      }
      var snapshot := FetchSnapshot(c);
      if snapshot.None? {
        return Fails;
      }
      var candidate := PrepareOutbox(rules, filterNormal, state.value, snapshot.value, c.now);
      match candidate
      case Raised =>
        return Fails;
      case Diverged =>
        return Hangs;
      case Returned(out) =>
        var saved := file.Write(out, c.saveOutbox);
        if !saved {
          return Fails;
        }
        state := Some(out);
        return Goes;
    }

    method SendOutbox(c: Conditions) returns (status: Status)
      requires state.Some? && state.value.pending.Some?
      modifies this`pushFailures, loki
      ensures (Now(), status) == Sending(old(Now()), c)
    {
      hide Delivered, Concat;
      var sent := SendBatches(state.value.pending.value.batches, c.sends);
      return if sent then Goes else Fails;
    }

    method Commit(c: Conditions) returns (status: Status)
      requires state.Some? && state.value.pending.Some?
      modifies this`state, this`success, file
      ensures (Now(), status) == Committed(old(Now()), c)
    {
      var committed := state.value.pending.value.next;
      var saved := file.Write(committed, c.saveNext);
      if !saved {
        return Fails;
      }
      state, success := Some(committed), true;
      return Goes;
    }

    method PollOnce(c: Conditions) returns (status: Status)
      modifies this, file, loki
      ensures Now() == AfterPoll(rules, filterNormal, old(Now()), c)
      ensures status == Hangs <==> Hanging(rules, filterNormal, old(Now()), c)
    {
      hide Loaded, Armed, Sending, Committed, Failed;
      LoadedSome(Now(), c);
      status := LoadState(c);
      if status == Goes {
        ArmedSome(rules, filterNormal, Now(), c);
        status := ArmOutbox(c);
        if status == Goes {
          SendingStatus(Now(), c);
          status := SendOutbox(c);
          if status == Goes {
            status := Commit(c);
          }
        }
      }
      if status == Fails {
        Fail();
      }
    }
  }

  /** A poll hangs exactly when preparing does: then nothing but the load has
      happened. */
  predicate Hanging(rules: Rules, filter: bool, w: World, c: Conditions) {
    var (loaded, status) := Loaded(w, c);
    status == Goes && Armed(rules, filter, loaded, c).1 == Hangs
  }

  lemma LoadedSome(w: World, c: Conditions)
    ensures Loaded(w, c).1 == Goes ==> Loaded(w, c).0.memory.Some?
    ensures Loaded(w, c).1 != Hangs
  {
  }

  lemma ArmedSome(rules: Rules, filter: bool, w: World, c: Conditions)
    requires w.memory.Some?
    ensures Armed(rules, filter, w, c).1 == Goes ==>
              var memory := Armed(rules, filter, w, c).0.memory;
              memory.Some? && memory.value.pending.Some?
  {
    hide Prepared;
  }

  lemma SendingStatus(w: World, c: Conditions)
    requires w.memory.Some? && w.memory.value.pending.Some?
    ensures Sending(w, c).1 != Hangs && Sending(w, c).0.memory == w.memory
    ensures forall after: World | after.memory == w.memory :: Committed(after, c).1 != Hangs
  {
  }

  lemma DeliveryStep(batches: seq<Batch>, sends: seq<Send>, i: nat)
    requires i < |batches| && i <= |sends|
    ensures Concat(batches[..i + 1]) == Concat(batches[..i]) + batches[i]
    ensures i == |sends| ==> Delivered(batches[i..], sends[i..]) == (0, false)
    ensures i < |sends| ==>
              var (n, done) := Delivered(batches[i + 1..], sends[i + 1..]);
              Delivered(batches[i..], sends[i..])
              == if sends[i] == Rejected then (0, false)
                 else if sends[i] == AcceptedThenRaised then (1, false)
                 else (n + 1, done)
  {
    assert batches[..i + 1] == batches[..i] + [batches[i]];
    ConcatSnoc(batches[..i], batches[i]);
    assert batches[i..][1..] == batches[i + 1..];
    if i < |sends| {
      assert sends[i..][1..] == sends[i + 1..];
    }
  }

  // ------------------------------------------------ how one poll can end

  /** The state a poll works on: the one in memory, or else what can be read. */
  ghost predicate StartsOn(w: World, c: Conditions, state: State) {
    if w.memory.Some? then state == w.memory.value
    else c.readable && ((w.file == Missing && state == State(map[], 0, 0.0, 0, 0, map[], None)) || (w.file == Holds(state) && Valid(state)))
  }

  /** What was fetched, if it is a snapshot. */
  ghost predicate Fetches(c: Conditions, snapshot: Snapshot) {
    c.fetched.Some? && Parse(c.fetched.value) == Some(snapshot) && SnapshotOk(snapshot)
  }

  /** Preparing on this state comes back with that one. */
  ghost predicate Prepares(rules: Rules, filter: bool, c: Conditions, state: State, out: State) {
    state.pending.None?
    && exists snapshot :: Fetches(c, snapshot) && Prepared(rules, filter, state, snapshot, c.now) == Returned(out)
  }

  /** Working on this state, the poll begins to send what the held one holds: that
      is the state itself, or it has just been prepared and saved. */
  ghost predicate Readies(rules: Rules, filter: bool, w: World, c: Conditions, state: State, held: State, ready: World) {
    if state.pending.Some? then held == state && ready == w.(memory := Some(held), stateValid := true)
    else
      && Prepares(rules, filter, c, state, held) && Valid(held) && c.saveOutbox == Succeeds
      && ready == w.(file := Holds(held), memory := Some(held), stateValid := true)
  }

  /** The world in which the poll begins to send what this state holds. */
  ghost predicate Sends(rules: Rules, filter: bool, w: World, c: Conditions, held: State, ready: World) {
    held.pending.Some? && exists state :: StartsOn(w, c, state) && Readies(rules, filter, w, c, state, held, ready)
  }

  /** The first k batches are accepted, and the next one, if any, is not. */
  ghost predicate Arrive(batches: seq<Batch>, sends: seq<Send>, k: nat) {
    && k <= |batches| && k <= |sends| && (forall i | 0 <= i < k :: sends[i] == Accepted)
    && (k < |batches| ==> k == |sends| || sends[k] != Accepted)
  }

  /** What Loki has of the batches when sending stops after k of them. */
  ghost function Arrived(batches: seq<Batch>, sends: seq<Send>, k: nat): seq<Stream>
    requires k <= |batches|
  {
    Concat(batches[..k]) + if k < |batches| && k < |sends| && sends[k] == AcceptedThenRaised then batches[k] else []
  }

  lemma {:induction false} Delivers(batches: seq<Batch>, sends: seq<Send>, k: nat)
    requires Arrive(batches, sends, k)
    ensures var (n, done) := Delivered(batches, sends);
            && (done <==> k == |batches|)
            && n == (if k < |batches| && k < |sends| && sends[k] == AcceptedThenRaised then k + 1 else k)
  {
    if k > 0 {
      assert forall i | 0 <= i < k - 1 :: sends[1..][i] == sends[i + 1];
      Delivers(batches[1..], sends[1..], k - 1);
    }
  }

  lemma ArrivedIs(batches: seq<Batch>, sends: seq<Send>, k: nat)
    requires Arrive(batches, sends, k)
    ensures Delivered(batches, sends).0 <= |batches|
    ensures Concat(batches[..Delivered(batches, sends).0]) == Arrived(batches, sends, k)
  {
    Delivers(batches, sends, k);
    hide Delivered;
    if k < |batches| && k < |sends| && sends[k] == AcceptedThenRaised {
      assert batches[..k + 1] == batches[..k] + [batches[k]];
      ConcatSnoc(batches[..k], batches[k]);
    }
  }

  lemma LoadsOn(w: World, c: Conditions, state: State)
    ensures StartsOn(w, c, state) <==> Loaded(w, c) == (w.(memory := Some(state), stateValid := true), Goes)
  {
    hide Valid;
  }

  lemma FetchesIs(c: Conditions, snapshot: Snapshot)
    ensures Fetches(c, snapshot) <==> Fetch(c) == Some(snapshot)
  {
    hide Parse, SnapshotOk;
    if c.fetched.Some? && Parse(c.fetched.value).Some? {
      ParsedIsOk(c.fetched.value);
    }
  }

  /** The world in which sending begins. */
  lemma SendsFrom(rules: Rules, filter: bool, w: World, c: Conditions, held: State, ready: World)
    requires Sends(rules, filter, w, c, held, ready)
    ensures ready.memory == Some(held) && ready.pushFailures == w.pushFailures && ready.collectionFailures == w.collectionFailures
    ensures ready.accepted == w.accepted && ready.stateValid
    ensures AfterPoll(rules, filter, w, c)
         == var (w3, s3) := Sending(ready, c); if s3 != Goes then Settle((w3, s3)) else Settle(Committed(w3, c))
  {
    hide Sending, Committed, Valid, Prepared, Fetch, Loaded, Parse, SnapshotOk, Settle, StartsOn;
    var state :| StartsOn(w, c, state) && Readies(rules, filter, w, c, state, held, ready);
    LoadsOn(w, c, state);
    if state.pending.None? {
      var snapshot :| Fetches(c, snapshot) && Prepared(rules, filter, state, snapshot, c.now) == Returned(held);
      FetchesIs(c, snapshot);
    }
  }

  /** A poll with an outbox to send acknowledges it exactly if every batch is
      accepted and the successor can be saved and is: then the file and the memory
      hold the successor, Loki has every batch, and no failure is counted. */
  lemma PollCommits(rules: Rules, filter: bool, w: World, c: Conditions, held: State, ready: World)
    requires Sends(rules, filter, w, c, held, ready)
    ensures held.pending.Some?
    ensures var Outbox(batches, next) := held.pending.value;
            AfterPoll(rules, filter, w, c)
            == ready.(file := Holds(next), memory := Some(next), success := true, accepted := w.accepted + Concat(batches))
            <==> |batches| <= |c.sends| && (forall i | 0 <= i < |batches| :: c.sends[i] == Accepted)
                 && Valid(next) && c.saveNext == Succeeds
  {
    SendsFrom(rules, filter, w, c, held, ready);
    var k := SomeArrive(held.pending.value.batches, c.sends);
    ArriveAll(held.pending.value.batches, c.sends, k);
    if k == |held.pending.value.batches| {
      PollSentAll(rules, filter, w, c, held, ready);
    } else {
      PollStops(rules, filter, w, c, held, ready, k);
    }
    hide Sends, AfterPoll, Valid, Arrive, Concat;
  }

  lemma ArriveAll(batches: seq<Batch>, sends: seq<Send>, k: nat)
    requires Arrive(batches, sends, k)
    ensures k == |batches| <==> |batches| <= |sends| && forall i | 0 <= i < |batches| :: sends[i] == Accepted
  {
  }

  lemma SomeArrive(batches: seq<Batch>, sends: seq<Send>) returns (k: nat)
    ensures Arrive(batches, sends, k)
  {
    k := 0;
    while k < |batches| && k < |sends| && sends[k] == Accepted
      invariant k <= |batches| && k <= |sends| && forall i | 0 <= i < k :: sends[i] == Accepted
    {
      k := k + 1;
    }
  }

  /** When all batches are accepted, only saving the successor can fail. */
  lemma PollSentAll(rules: Rules, filter: bool, w: World, c: Conditions, held: State, ready: World)
    requires Sends(rules, filter, w, c, held, ready)
    requires var batches := held.pending.value.batches; Arrive(batches, c.sends, |batches|)
    ensures var Outbox(batches, next) := held.pending.value;
            var sent := ready.(accepted := w.accepted + Concat(batches));
            AfterPoll(rules, filter, w, c)
            == if Valid(next) && c.saveNext == Succeeds
               then sent.(file := Holds(next), memory := Some(next), success := true)
               else sent.(file := if Valid(next) && c.saveNext == FailsAfter then Holds(next) else ready.file,
                          success := false, collectionFailures := w.collectionFailures + 1)
  {
    SendsFrom(rules, filter, w, c, held, ready);
    var batches := held.pending.value.batches;
    Delivers(batches, c.sends, |batches|);
    assert batches[..|batches|] == batches;
    hide Sends, AfterPoll, Valid, Delivered, Arrive, Concat;
  }

  /** When some batch is not accepted, sending stops there: exactly one push
      failure is counted, and neither file nor memory acknowledges anything. */
  lemma PollStops(rules: Rules, filter: bool, w: World, c: Conditions, held: State, ready: World, k: nat)
    requires Sends(rules, filter, w, c, held, ready)
    requires var batches := held.pending.value.batches; k < |batches| && Arrive(batches, c.sends, k)
    ensures AfterPoll(rules, filter, w, c)
         == ready.(accepted := w.accepted + Arrived(held.pending.value.batches, c.sends, k), success := false,
                   pushFailures := w.pushFailures + 1, collectionFailures := w.collectionFailures + 1)
  {
    SendsFrom(rules, filter, w, c, held, ready);
    var batches := held.pending.value.batches;
    Delivers(batches, c.sends, k);
    ArrivedIs(batches, c.sends, k);
    hide Sends, AfterPoll, Delivered, Arrive, Concat, Arrived, Committed;
  }

  /** With nothing to work on, only the failure is counted. */
  lemma PollCannotLoad(rules: Rules, filter: bool, w: World, c: Conditions)
    requires w.memory.None? && forall state :: !StartsOn(w, c, state)
    ensures AfterPoll(rules, filter, w, c)
         == w.(success := false, stateValid := false, collectionFailures := w.collectionFailures + 1)
  {
    hide Armed, Sending, Committed, Valid;
    if w.file.Holds? {
      assert !StartsOn(w, c, w.file.state);
    }
    assert !StartsOn(w, c, INITIAL);
  }

  /** Without an outbox, and without a snapshot or when preparing raises, the state
      is kept in memory and the failure is counted. */
  lemma PollCannotPrepare(rules: Rules, filter: bool, w: World, c: Conditions, state: State)
    requires StartsOn(w, c, state) && state.pending.None?
    requires forall snapshot | Fetches(c, snapshot) :: Prepared(rules, filter, state, snapshot, c.now).Raised?
    ensures AfterPoll(rules, filter, w, c)
         == w.(memory := Some(state), stateValid := true, success := false, collectionFailures := w.collectionFailures + 1)
  {
    LoadsOn(w, c, state);
    if Fetch(c).Some? {
      FetchesIs(c, Fetch(c).value);
    }
    hide Loaded, Sending, Committed, Valid, Prepared, Fetch, Fetches, StartsOn;
  }

  /** What was prepared is not used unless it was saved well. */
  lemma PollCannotSave(rules: Rules, filter: bool, w: World, c: Conditions, state: State, out: State)
    requires StartsOn(w, c, state) && Prepares(rules, filter, c, state, out)
    requires !Valid(out) || c.saveOutbox != Succeeds
    ensures AfterPoll(rules, filter, w, c)
         == w.(file := if Valid(out) && c.saveOutbox == FailsAfter then Holds(out) else w.file,
               memory := Some(state), stateValid := true, success := false, collectionFailures := w.collectionFailures + 1)
  {
    LoadsOn(w, c, state);
    hide Loaded, Sending, Committed, Valid, Prepared, Fetch, Parse, SnapshotOk, StartsOn;
    var snapshot :| Fetches(c, snapshot) && Prepared(rules, filter, state, snapshot, c.now) == Returned(out);
    FetchesIs(c, snapshot);
  }

  /** A poll in which preparing never comes back stands there for ever. */
  lemma PollHangs(rules: Rules, filter: bool, w: World, c: Conditions, state: State, snapshot: Snapshot)
    requires StartsOn(w, c, state) && state.pending.None? && Fetches(c, snapshot)
    requires Prepared(rules, filter, state, snapshot, c.now).Diverged?
    ensures AfterPoll(rules, filter, w, c) == w.(memory := Some(state), stateValid := true)
    ensures Hanging(rules, filter, w, c)
  {
    LoadsOn(w, c, state);
    FetchesIs(c, snapshot);
    hide Loaded, Sending, Committed, Valid, Prepared, Fetch, Fetches, StartsOn;
  }
}
