/** Publishing an encrypted backup: every step can fail. */
module Backup {
  import opened Basics
  import opened Texts
  import opened Mounts

  const PERSISTENT := {"ext4", "xfs", "btrfs", "zfs", "nfs", "nfs4"}

  /** What the caller expects of the two mounts. */
  datatype Expected = Expected(
    sourceFstype: string, sourceName: string, destinationFstype: string, destinationName: string, distinct: bool)

  /** What a validation finds: the four paths resolved, the text of mountinfo,
      and whether both directories are on one device. A failed call is None. */
  datatype View = View(
    dataDir: Option<Path>, sourceMount: Option<Path>, destination: Option<Path>, destinationMount: Option<Path>,
    table: Option<string>, sameDevice: Option<bool>)

  predicate Resolved(v: View) {
    v.dataDir.Some? && v.sourceMount.Some? && v.destination.Some? && v.destinationMount.Some?
  }

  /** validate_mounts */
  predicate Validated(e: Expected, v: View) {
    && Resolved(v)
    && v.dataDir == v.sourceMount
    && Contains(v.destinationMount.value, v.destination.value)
    && v.destinationMount.value != ["/"]
    && e.sourceFstype in PERSISTENT && e.destinationFstype in PERSISTENT
    && e.destinationName != "" && e.sourceName != ""
    && v.table.Some? && Table(v.table.value).Some?
    && var mounts := Table(v.table.value).value;
       && Effective(v.dataDir.value, mounts) == Some(Mount(v.sourceMount.value, e.sourceFstype, e.sourceName))
       && Effective(v.destination.value, mounts) == Some(Mount(v.destinationMount.value, e.destinationFstype, e.destinationName))
       && (e.distinct ==> v.sameDevice == Some(false))
  }

  /** A path is on this mount: the record is there, is above the path, and no
      mount hides it. */
  ghost predicate IsOn(path: Path, table: string, mount: Mount) {
    && Table(table).Some?
    && exists k: nat :: Governs(path, Table(table).value, k) && Table(table).value[k] == mount
  }

  lemma EffectiveIsOn(path: Path, table: string, mount: Mount)
    requires Table(table).Some?
    ensures Effective(path, Table(table).value) == Some(mount) <==> IsOn(path, table, mount)
  {
    hide Table, Effective, Contains;
    var mounts := Table(table).value;
    if Effective(path, mounts) == Some(mount) {
      var k := EffectiveFound(path, mounts);
      assert Governs(path, mounts, k);
    }
    if k: nat :| k < |mounts| && Governs(path, mounts, k) && mounts[k] == mount {
      EffectiveGoverns(path, mounts, k);
    }
  }

  /** Both directories are where they should be. */
  ghost predicate InPlace(e: Expected, v: View) {
    && v.dataDir.Some? && v.sourceMount.Some? && v.destination.Some? && v.destinationMount.Some? && v.table.Some?
    && v.dataDir == v.sourceMount
    && IsOn(v.dataDir.value, v.table.value, Mount(v.dataDir.value, e.sourceFstype, e.sourceName))
    && IsOn(v.destination.value, v.table.value, Mount(v.destinationMount.value, e.destinationFstype, e.destinationName))
    && v.destinationMount.value != ["/"]
    && e.sourceFstype in {"ext4", "xfs", "btrfs", "zfs", "nfs", "nfs4"}
    && e.destinationFstype in {"ext4", "xfs", "btrfs", "zfs", "nfs", "nfs4"}
    && e.sourceName != "" && e.destinationName != ""
    && (e.distinct ==> v.sameDevice == Some(false))
  }

  /** A validation passes exactly if the data directory is itself the expected
      mount, the destination is on the expected one, which is not the root, and
      the other checks on names, types and devices hold. */
  lemma ValidatedIff(e: Expected, v: View)
    ensures Validated(e, v) <==> InPlace(e, v)
  {
    hide Table, Effective;
    if Resolved(v) && v.table.Some? && Table(v.table.value).Some? {
      EffectiveIsOn(v.dataDir.value, v.table.value, Mount(v.dataDir.value, e.sourceFstype, e.sourceName));
      EffectiveIsOn(v.destination.value, v.table.value, Mount(v.destinationMount.value, e.destinationFstype, e.destinationName));
    }
  }

  // ---------------------------------------------------------- the steps

  /** A file in the destination: one being written, or a finished archive. */
  datatype Content = Writing | Sealed(database: bytes, token: bytes)

  /** How every step ends. Steps that return something return None when they
      fail. */
  datatype Conditions = Conditions(
    directoriesOk: bool, first: View, filesOk: bool, ageFound: bool, tokenBefore: Option<bytes>,
    staged: bool, copied: Option<bytes>, integrityOk: bool, tokenAfter: Option<bytes>, hashed: bool, second: View,
    partial: Option<string>, started: bool, fed: bool, exitedWell: bool, synced: bool, third: View, renamed: bool,
    cleaned: bool, unlinked: bool)

  predicate RecipientOk(recipient: string) {
    "age1" <= recipient && forall c <- recipient :: !IsSpace(c)
  }

  /** What a backup must have gone through to be published. */
  predicate Published(e: Expected, recipient: string, c: Conditions) {
    && RecipientOk(recipient) && c.directoriesOk && c.filesOk && c.ageFound
    && Validated(e, c.first) && Validated(e, c.second) && Validated(e, c.third)
    && c.tokenBefore.Some? && c.tokenBefore.value != [] && c.tokenAfter == c.tokenBefore
    && c.staged && c.copied.Some? && c.integrityOk && c.hashed
    && c.partial.Some? && c.started && c.fed && c.exitedWell && c.synced && c.renamed
  }

  /** It got as far as creating the partial file. */
  predicate Created(e: Expected, recipient: string, c: Conditions) {
    && RecipientOk(recipient) && c.directoriesOk && c.filesOk && c.ageFound
    && Validated(e, c.first) && Validated(e, c.second)
    && c.tokenBefore.Some? && c.tokenBefore.value != [] && c.tokenAfter == c.tokenBefore
    && c.staged && c.copied.Some? && c.integrityOk && c.hashed && c.partial.Some?
  }

  predicate Encrypted(c: Conditions) {
    c.started && c.fed && c.exitedWell
  }

  /** The files of the destination afterwards. */
  function AfterRun(files: map<string, Content>, e: Expected, recipient: string, name: string, c: Conditions): map<string, Content> {
    if Published(e, recipient, c) then files[name := Sealed(c.copied.value, c.tokenBefore.value)]
    else if Created(e, recipient, c) && !c.unlinked then
      files[c.partial.value := if Encrypted(c) then Sealed(c.copied.value, c.tokenBefore.value) else Writing]
    else files
  }

  /** What is returned: the name, or None for an exception. The staging directory
      is cleaned up after the rename. */
  function Finished(e: Expected, recipient: string, name: string, c: Conditions): Option<string> {
    if Published(e, recipient, c) && c.cleaned then Some(name) else None
  }

  class Destination {
    var files: map<string, Content>

    constructor (files: map<string, Content>)
      ensures this.files == files
    {
      this.files := files;
    }

    /** The encryption into the open partial file. */
    method Encrypt(partial: string, database: bytes, token: bytes, c: Conditions) returns (ok: bool)
      requires partial in files
      modifies this
      ensures ok <==> Encrypted(c) && c.synced
      ensures files == old(files)[partial := if Encrypted(c) then Sealed(database, token) else old(files)[partial]]
      ensures partial in files
    {
      if !c.started || !c.fed {
        return false;
      }
      if !c.exitedWell {
        return false;
      }
      files := files[partial := Sealed(database, token)];
      return c.synced;
    }

    /** The body of the try block. It leaves the name of a partial file that is
        still there. */
    method Attempt(e: Expected, name: string, token: bytes, c: Conditions) returns (partial: Option<string>, ok: bool)
      requires c.partial.Some? ==> c.partial.value !in files && c.partial.value != name
      modifies this
      ensures var created := c.staged && c.copied.Some? && c.integrityOk && c.tokenAfter == Some(token) && c.hashed
                             && Validated(e, c.second) && c.partial.Some?;
              var whole := created && Encrypted(c) && c.synced && Validated(e, c.third) && c.renamed;
              && partial == (if created && !whole then c.partial else None)
              && (ok <==> whole && c.cleaned)
              && (whole ==> files == old(files)[name := Sealed(c.copied.value, token)])
              && (created && !whole ==>
                    files == old(files)[c.partial.value := if Encrypted(c) then Sealed(c.copied.value, token) else Writing])
              && (!created ==> files == old(files))
    {
      hide Validated;
      partial, ok := None, false;
      if !c.staged || c.copied.None? || !c.integrityOk {
        return;
      }
      if c.tokenAfter != Some(token) {
        return;
      }
      if !c.hashed || !Validated(e, c.second) || c.partial.None? {
        return;
      }
      partial := c.partial;
      files := files[partial.value := Writing];
      var encrypted := Encrypt(partial.value, c.copied.value, token, c);
      if !encrypted || !Validated(e, c.third) || !c.renamed {
        return;
      }
      files := (files - {partial.value})[name := files[partial.value]];
      partial := None;
      ok := c.cleaned;
    }

    /** backup. It returns the name if everything went well. */
    method Run(e: Expected, recipient: string, name: string, c: Conditions) returns (finished: Option<string>)
      requires c.partial.Some? ==> c.partial.value !in files && c.partial.value != name
      modifies this
      ensures files == AfterRun(old(files), e, recipient, name, c)
      ensures finished == Finished(e, recipient, name, c)
    {
      hide Validated, RecipientOk;
      if !RecipientOk(recipient) || !c.directoriesOk || !Validated(e, c.first) {
        return None;
      }
      if !c.filesOk || !c.ageFound || c.tokenBefore.None? || c.tokenBefore.value == [] {
        return None;
      }
      var partial, ok := Attempt(e, name, c.tokenBefore.value, c);
      if partial.Some? && c.unlinked {
        files := files - {partial.value};
      }
      return if ok then Some(name) else None;
    }
  }

  /** Everything that comes before the partial file has gone well. */
  ghost predicate Prepared(e: Expected, recipient: string, c: Conditions) {
    && "age1" <= recipient && (forall i | 0 <= i < |recipient| :: !IsSpace(recipient[i]))
    && c.directoriesOk && InPlace(e, c.first) && c.filesOk && c.ageFound
    && c.tokenBefore.Some? && c.tokenBefore.value != [] && c.staged && c.copied.Some? && c.integrityOk
    && c.tokenAfter == c.tokenBefore && c.hashed && InPlace(e, c.second) && c.partial.Some?
  }

  /** All or nothing, in terms of the files. The final name is there afterwards,
      where it was not before, exactly if everything up to the rename has gone well:
      at three times both directories were in place, the snapshot was sound, the
      token had not changed, and the encryption succeeded. It then holds the
      database and the token read before it. If it is not there, nothing has
      changed, but for the partial file if it was created and unlinking it fails.
      The name is returned exactly if the file is there and the staging directory
      could be cleaned up. */
  lemma AllOrNothing(files: map<string, Content>, e: Expected, recipient: string, name: string, c: Conditions)
    requires name !in files && (c.partial.Some? ==> c.partial.value !in files && c.partial.value != name)
    ensures var after := AfterRun(files, e, recipient, name, c);
            && (name in after <==>
                  Prepared(e, recipient, c) && c.started && c.fed && c.exitedWell && c.synced && InPlace(e, c.third) && c.renamed)
            && (name in after ==> after == files[name := Sealed(c.copied.value, c.tokenBefore.value)])
            && (name !in after ==>
                  after == if Prepared(e, recipient, c) && !c.unlinked
                           then files[c.partial.value := if c.started && c.fed && c.exitedWell
                                                         then Sealed(c.copied.value, c.tokenBefore.value) else Writing]
                           else files)
            && Finished(e, recipient, name, c) == (if name in after && c.cleaned then Some(name) else None)
  {
    ValidatedIff(e, c.first);
    ValidatedIff(e, c.second);
    ValidatedIff(e, c.third);
    assert forall i | 0 <= i < |recipient| :: recipient[i] in recipient;
    hide Validated, InPlace, IsSpace;
  }

  // ------------------------------------------- published, but not returned

  /** A table with two disks in it, and a validation that finds it. */
  function TwoMounts(): seq<Line> {
    [PlainLine("/", "/a"), PlainLine("/", "/b")]
  }

  function BothThere(): View {
    View(Some(PathOf("/a")), Some(PathOf("/a")), Some(PathOf("/b")), Some(PathOf("/b")),
         Some(PrintTable(TwoMounts(), Kernel)), Some(false))
  }

  function TwoDisks(): Expected {
    Expected("ext4", "/dev/sda1", "ext4", "/dev/sda1", true)
  }

  /** Everything goes well but the clean-up of the staging directory. */
  function CleanupFails(): Conditions {
    Conditions(true, BothThere(), true, true, Some([0]), true, Some([1]), true, Some([0]), true, BothThere(),
               Some("partial"), true, true, true, true, BothThere(), true, false, true)
  }

  lemma TwoMountsRead()
    ensures Table(PrintTable(TwoMounts(), Kernel))
         == Some([Mount(PathOf("/a"), "ext4", "/dev/sda1"), Mount(PathOf("/b"), "ext4", "/dev/sda1")])
  {
    hide LineOk, AllClean, PrintTable, Separating, PathOf, Clean, PlainLine, Table;
    var a, b := PlainLine("/", "/a"), PlainLine("/", "/b");
    PathsClean();
    PlainLineOk("/", "/a");
    PlainLineOk("/", "/b");
    PlainLineClean("/", "/a");
    PlainLineClean("/", "/b");
    CleanTable([a, b], Kernel);
    PlainIs("/", "/a");
    PlainIs("/", "/b");
    assert Means([a, b]) == [Mount(PathOf("/a"), "ext4", "/dev/sda1"), Mount(PathOf("/b"), "ext4", "/dev/sda1")];
  }

  lemma PathsClean()
    ensures Clean("/", Kernel) && Clean("/a", Kernel) && Clean("/b", Kernel)
  {
  }

  lemma TwoPaths()
    ensures PathOf("/a") == ["/", "a"] && PathOf("/b") == ["/", "b"]
  {
    assert "/a"[1..] == "a" && "a"[1..] == "" && "" + ['a'] == "a";
    assert "/b"[1..] == "b" && "b"[1..] == "" && "" + ['b'] == "b";
  }

  lemma BothValid()
    ensures Validated(TwoDisks(), BothThere())
  {
    TwoMountsRead();
    TwoPaths();
    hide PathOf, Table, PrintTable, Effective;
    var mounts := Table(PrintTable(TwoMounts(), Kernel)).value;
    assert !(["/", "a"] <= ["/", "b"]) by { assert ["/", "a"][1] != ["/", "b"][1]; }
    assert !(["/", "b"] <= ["/", "a"]) by { assert ["/", "a"][1] != ["/", "b"][1]; }
    EffectiveGoverns(PathOf("/a"), mounts, 0);
    EffectiveGoverns(PathOf("/b"), mounts, 1);
  }

  /** A backup that publishes its archive and reports an error all the same. */
  lemma PublishedUnreported(files: map<string, Content>, name: string)
    ensures Published(TwoDisks(), "age1", CleanupFails())
    ensures AfterRun(files, TwoDisks(), "age1", name, CleanupFails()) == files[name := Sealed([1], [0])]
    ensures Finished(TwoDisks(), "age1", name, CleanupFails()) == None
  {
    hide BothThere, TwoDisks, RecipientOk, Validated;
    BothValid();
    SomeRecipient();
  }

  lemma SomeRecipient()
    ensures RecipientOk("age1")
  {
  }
}
