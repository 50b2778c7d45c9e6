/** The fixed log sources, their retained generations and the decoded snapshot. */
module Sources {
  import opened Basics

  const MAX_FILE := 2 * 1024 * 1024

  datatype Kind =
    | Kernel | Samba | Smbd | Nmbd | Winbindd | Storage | Hal | HalDaemon | Sdmd | StorageUtil | Iscsi

  datatype Gen = Current | One | Two | Old

  datatype Slot = Slot(kind: Kind, gen: Gen)

  /** One retained file: identity, modification time and contents. */
  datatype Rec = Rec(dev: nat, inode: nat, mtime: nat, data: bytes)

  type Snapshot = map<Slot, Option<Rec>>

  const KINDS := [Kernel, Samba, Smbd, Nmbd, Winbindd, Storage, Hal, HalDaemon, Sdmd, StorageUtil, Iscsi]

  lemma EveryKindListed(kind: Kind)
    ensures kind in KINDS
  {
    match kind
    case Kernel => assert KINDS[0] == kind;
    case Samba => assert KINDS[1] == kind;
    case Smbd => assert KINDS[2] == kind;
    case Nmbd => assert KINDS[3] == kind;
    case Winbindd => assert KINDS[4] == kind;
    case Storage => assert KINDS[5] == kind;
    case Hal => assert KINDS[6] == kind;
    case HalDaemon => assert KINDS[7] == kind;
    case Sdmd => assert KINDS[8] == kind;
    case StorageUtil => assert KINDS[9] == kind;
    case Iscsi => assert KINDS[10] == kind;
  }

  function Name(kind: Kind): string {
    match kind
    case Kernel => "kernel"
    case Samba => "samba"
    case Smbd => "smbd"
    case Nmbd => "nmbd"
    case Winbindd => "winbindd"
    case Storage => "storage"
    case Hal => "hal"
    case HalDaemon => "hal_daemon"
    case Sdmd => "sdmd"
    case StorageUtil => "storage_util"
    case Iscsi => "iscsi"
  }

  function File(kind: Kind): string {
    match kind
    case Kernel => "/mnt/HDA_ROOT/.logs/kmsg"
    case Samba => "/usr/local/samba/var/log.samba"
    case Smbd => "/usr/local/samba/var/log.smbd"
    case Nmbd => "/var/log/log.nmbd"
    case Winbindd => "/usr/local/samba/var/log.winbindd-idmap"
    case Storage => "/var/log/storage_lib.log"
    case Hal => "/var/log/hal_lib.log"
    case HalDaemon => "/var/log/hal_daemon.log"
    case Sdmd => "/var/log/SDMD.log"
    case StorageUtil => "/var/log/storage_util.log"
    case Iscsi => "/var/log/iscsi_util.log"
  }

  /** No two sources have the same name, or are in the same file. */
  lemma NamesDiffer(a: Kind, b: Kind)
    requires Name(a) == Name(b) || File(a) == File(b)
    ensures a == b
  {
  }

  function GenName(gen: Gen): string {
    match gen
    case Current => "current"
    case One => "1"
    case Two => "2"
    case Old => "old"
  }

  /** Retained generations, newest first. */
  function Gens(kind: Kind): (gens: seq<Gen>)
    ensures gens != [] && gens[0] == Current
    ensures Current !in gens[1..]
  {
    if kind == Kernel || kind == Samba then [Current, One, Two]
    else if kind == StorageUtil || kind == Iscsi then [Current]
    else [Current, Old]
  }

  function SlotsOf(kind: Kind, gens: seq<Gen>): seq<Slot> {
    if gens == [] then [] else [Slot(kind, gens[0])] + SlotsOf(kind, gens[1..])
  }

  function SlotsOfKinds(kinds: seq<Kind>): seq<Slot> {
    if kinds == [] then [] else SlotsOf(kinds[0], Gens(kinds[0])) + SlotsOfKinds(kinds[1..])
  }

  /** Every (kind, generation) pair in the order the snapshot lists them. */
  const SLOTS := SlotsOfKinds(KINDS)

  /** What a decoded snapshot guarantees for one kind. */
  ghost predicate KindOk(snapshot: Snapshot, kind: Kind) {
    && (forall gen <- Gens(kind) :: Slot(kind, gen) in snapshot)
    && snapshot[Slot(kind, Current)].Some?
    && (forall gen <- Gens(kind) ::
          var rec := snapshot[Slot(kind, gen)];
          rec.Some? ==> |rec.value.data| <= MAX_FILE)
  }

  ghost predicate SnapshotOk(snapshot: Snapshot) {
    forall kind: Kind :: KindOk(snapshot, kind)
  }

  /** The generations present, oldest first. */
  function Present(snapshot: Snapshot, kind: Kind, gens: seq<Gen>): (recs: seq<Rec>)
    requires forall gen <- gens :: Slot(kind, gen) in snapshot
    ensures |recs| <= |gens|
  {
    if gens == [] then []
    else
      assert forall gen <- gens[1..] :: gen in gens;
      var older := Present(snapshot, kind, gens[1..]);
      var rec := snapshot[Slot(kind, gens[0])];
      if rec.Some? then older + [rec.value] else older
  }

  function Chronological(snapshot: Snapshot, kind: Kind): (recs: seq<Rec>)
    requires KindOk(snapshot, kind)
    ensures recs != [] && recs[|recs| - 1] == snapshot[Slot(kind, Current)].value
    ensures forall rec <- recs :: |rec.data| <= MAX_FILE
  {
    var recs := Present(snapshot, kind, Gens(kind));
    PresentSizes(snapshot, kind, Gens(kind));
    recs
  }

  lemma {:induction false} PresentSizes(snapshot: Snapshot, kind: Kind, gens: seq<Gen>)
    requires forall gen <- gens :: Slot(kind, gen) in snapshot
    requires forall gen <- gens ::
               var rec := snapshot[Slot(kind, gen)];
               rec.Some? ==> |rec.value.data| <= MAX_FILE
    ensures var recs := Present(snapshot, kind, gens);
            forall rec <- recs :: |rec.data| <= MAX_FILE
  {
    if gens != [] {
      assert forall gen <- gens[1..] :: gen in gens;
      PresentSizes(snapshot, kind, gens[1..]);
      assert gens[0] in gens;
    }
  }
}
