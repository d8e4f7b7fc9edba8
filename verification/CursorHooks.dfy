/**
 Installing and removing a managed entry in a user's hook configuration: step by step on the disk, with a snapshot of
 every file first and a rollback when a step fails.
 */
module CursorHooks {
  import opened Wrappers

  // ---------------------------------------------------------------- the configuration

  /** An entry of the hook list: the user's own, or one that runs the managed command, in its exact form or changed. */
  datatype Entry = User(value: string) | Canonical | Drifted(value: string)

  predicate IsManaged(e: Entry) { !e.User? }

  /** The other fields are kept as they are; an absent list is `None`. */
  datatype Config = Config(otherFields: map<string, string>, otherHooks: map<string, string>, beforeShell: Option<seq<Entry>>)

  const EMPTY_CONFIG := Config(map[], map[], None)

  function EntriesOf(c: Config): seq<Entry> { if c.beforeShell.Some? then c.beforeShell.value else [] }

  function ManagedEntries(entries: seq<Entry>): seq<Entry> {
    if entries == [] then []
    else
      var last := entries[|entries| - 1];
      ManagedEntries(entries[..|entries| - 1]) + if IsManaged(last) then [last] else []
  }

  function UserEntries(entries: seq<Entry>): seq<Entry> {
    if entries == [] then []
    else
      var last := entries[|entries| - 1];
      UserEntries(entries[..|entries| - 1]) + if IsManaged(last) then [] else [last]
  }

  /** The first managed entry becomes canonical, and the others go. */
  function Unified(entries: seq<Entry>): seq<Entry> {
    if entries == [] then []
    else
      var earlier, last := entries[..|entries| - 1], entries[|entries| - 1];
      Unified(earlier) + if !IsManaged(last) then [last] else if ManagedEntries(earlier) == [] then [Canonical] else []
  }

  function WithCanonical(entries: seq<Entry>): seq<Entry> {
    Unified(entries) + if ManagedEntries(entries) == [] then [Canonical] else []
  }

  function WithCanonicalEntry(c: Config): Config { c.(beforeShell := Some(WithCanonical(EntriesOf(c)))) }

  function WithoutManagedEntries(c: Config): Config {
    var kept := UserEntries(EntriesOf(c));
    c.(beforeShell := if kept == [] then None else Some(kept))
  }

  method InsertCanonicalEntry(entries: seq<Entry>) returns (next: seq<Entry>)
    ensures next == WithCanonical(entries)
  {
    next := [];
    var inserted := false;
    for i := 0 to |entries|
      invariant next == Unified(entries[..i]) && inserted == (ManagedEntries(entries[..i]) != [])
    {
      assert entries[..i + 1][..i] == entries[..i];
      if IsManaged(entries[i]) {
        if !inserted {
          next := next + [Canonical];
          inserted := true;
        }
      } else {
        next := next + [entries[i]];
      }
    }
    assert entries[..|entries|] == entries;
    if !inserted { next := next + [Canonical]; }
  }

  lemma {:induction false} UnifiedIs(entries: seq<Entry>)
    ensures UserEntries(Unified(entries)) == UserEntries(entries)
    ensures ManagedEntries(Unified(entries)) == if ManagedEntries(entries) == [] then [] else [Canonical]
  {
    if entries != [] {
      var earlier, last := entries[..|entries| - 1], entries[|entries| - 1];
      UnifiedIs(earlier);
      var u := Unified(earlier);
      assert (u + [last])[..|u|] == u && (u + [Canonical])[..|u|] == u && u + [] == u;
    }
  }

  /** The user's entries keep their values and order, and there is exactly one managed entry, in its exact form. */
  lemma CanonicalEntryIsAdded(entries: seq<Entry>)
    ensures UserEntries(WithCanonical(entries)) == UserEntries(entries)
    ensures ManagedEntries(WithCanonical(entries)) == [Canonical]
  {
    UnifiedIs(entries);
    var u := Unified(entries);
    assert (u + [Canonical])[..|u|] == u && u + [] == u;
  }

  lemma {:induction false} NothingToUnify(entries: seq<Entry>)
    requires ManagedEntries(entries) == [] || ManagedEntries(entries) == [Canonical]
    ensures Unified(entries) == entries
  {
    if entries != [] {
      var earlier, last := entries[..|entries| - 1], entries[|entries| - 1];
      assert entries == earlier + [last];
      if IsManaged(last) {
        assert ManagedEntries(entries)[|ManagedEntries(earlier)|] == last;
        assert |ManagedEntries(earlier)| == 0;
      } else {
        assert ManagedEntries(entries) == ManagedEntries(earlier);
      }
      NothingToUnify(earlier);
    }
  }

  lemma CanonicalIsIdempotent(entries: seq<Entry>)
    ensures WithCanonical(WithCanonical(entries)) == WithCanonical(entries)
  {
    CanonicalEntryIsAdded(entries);
    NothingToUnify(WithCanonical(entries));
  }

  lemma {:induction false} AllUsers(entries: seq<Entry>)
    requires ManagedEntries(entries) == []
    ensures UserEntries(entries) == entries
  {
    if entries != [] {
      assert entries == entries[..|entries| - 1] + [entries[|entries| - 1]];
      AllUsers(entries[..|entries| - 1]);
    }
  }

  /** Adding the managed entry and taking it out again gives the configuration back, but for an empty list. */
  lemma AddThenTakeOut(c: Config)
    requires ManagedEntries(EntriesOf(c)) == []
    ensures WithoutManagedEntries(WithCanonicalEntry(c)) == c.(beforeShell := if EntriesOf(c) == [] then None else c.beforeShell)
  {
    CanonicalEntryIsAdded(EntriesOf(c));
    AllUsers(EntriesOf(c));
  }

  // ---------------------------------------------------------------- the disk

  datatype Path = ConfigFile | HookFile | InstallFile

  datatype Dir = CursorDir | ManagedDir

  /** The bits of a file's mode: the permissions of its owner, its group and others, and three more. */
  type Mode = bv12

  const PERMISSIONS: Mode := 0x1FF

  datatype File = File(bytes: string, mode: Mode)

  /** `occupied` are the directories that hold files of others. */
  datatype Disk = Disk(files: map<Path, File>, dirs: set<Dir>, occupied: set<Dir>)

  function DirOf(p: Path): Dir { if p.ConfigFile? then CursorDir else ManagedDir }

  ghost predicate WellFormed(d: Disk) {
    && (forall p :: p in d.files ==> DirOf(p) in d.dirs)
    && (ManagedDir in d.dirs ==> CursorDir in d.dirs)
    && d.occupied <= d.dirs
  }

  predicate IsEmptyDir(d: Disk, dir: Dir) {
    dir !in d.occupied && (dir.CursorDir? ==> ManagedDir !in d.dirs && ConfigFile !in d.files)
    && (dir.ManagedDir? ==> HookFile !in d.files && InstallFile !in d.files)
  }

  const DEFAULT_MODE: Mode := 0x1A4

  /** The mode of a file created with a requested one: only permissions are requested, and the process masks them. */
  function Created(mode: Mode, umask: Mode): Mode { mode & PERMISSIONS & !umask }

  /** A file with this mode keeps it when it is written anew. */
  predicate Survives(mode: Mode, umask: Mode) { (mode & !PERMISSIONS) == 0 && (mode & umask) == 0 }

  lemma CreatedIsSame(mode: Mode, umask: Mode)
    ensures Created(mode, umask) == mode <==> Survives(mode, umask)
    ensures Created(Created(mode, umask), umask) == Created(mode, umask) == Created(mode & PERMISSIONS, umask)
  {
  }

  function FileAt(d: Disk, p: Path): Option<File> { if p in d.files then Some(d.files[p]) else None }

  function ModeFor(d: Disk, p: Path): Mode { if p in d.files then d.files[p].mode else DEFAULT_MODE }

  /** A file is written only if its bytes change; it is then created anew, with its mode requested. */
  function Put(d: Disk, p: Path, bytes: string, umask: Mode): Disk {
    if p in d.files && d.files[p].bytes == bytes then d else d.(files := d.files[p := File(bytes, Created(ModeFor(d, p), umask))])
  }

  /** Every file created anew, with its own bytes, and its mode requested. */
  function Rewritten(d: Disk, umask: Mode): Disk {
    d.(files := map p | p in d.files :: File(d.files[p].bytes, Created(d.files[p].mode, umask)))
  }

  /** Files, bytes and directories are the same; the modes are, exactly if each one survives. */
  lemma RewrittenKeeps(d: Disk, umask: Mode)
    ensures var next := Rewritten(d, umask);
      && next.dirs == d.dirs && next.occupied == d.occupied && next.files.Keys == d.files.Keys
      && (forall p :: p in d.files ==> next.files[p].bytes == d.files[p].bytes)
      && (next == d <==> forall p :: p in d.files ==> Survives(d.files[p].mode, umask))
  {
    var next := Rewritten(d, umask);
    forall p | p in d.files ensures next.files[p] == d.files[p] <==> Survives(d.files[p].mode, umask) {
      CreatedIsSame(d.files[p].mode, umask);
    }
    if forall p :: p in d.files ==> Survives(d.files[p].mode, umask) { assert next.files == d.files; }
  }

  function Without(d: Disk, p: Path): Disk { d.(files := d.files - {p}) }

  datatype Record = Record(hookHash: string, entryHash: string, cursorDirCreated: bool, managedDirCreated: bool, configCreated: bool)

  /** How values are written and read, and digests. */
  datatype Codec = Codec(
    encodeConfig: Config -> string, parseConfig: string -> Option<Config>,
    encodeRecord: Record -> string, parseRecord: string -> Option<Record>,
    hash: string -> string, hashEntry: Entry -> string)

  predicate ReadFrom(k: Codec, text: string, c: Config) { k.parseConfig(text) == Some(c) }

  /** The configuration came from a text, or stands for an absent file. */
  ghost predicate CanBeRead(k: Codec, c: Config) { c == EMPTY_CONFIG || exists text :: ReadFrom(k, text, c) }

  /** What install and remove write can be read: changed configurations that were read, and records with digests. */
  ghost predicate Faithful(k: Codec) {
    && (forall c :: CanBeRead(k, c) ==> ReadFrom(k, k.encodeConfig(WithCanonicalEntry(c)), WithCanonicalEntry(c)))
    && (forall c :: CanBeRead(k, c) ==> ReadFrom(k, k.encodeConfig(WithoutManagedEntries(c)), WithoutManagedEntries(c)))
    && (forall bundle, e, x, y, z :: RecordReads(k, Record(k.hash(bundle), k.hashEntry(e), x, y, z)))
  }

  predicate RecordReads(k: Codec, r: Record) { k.parseRecord(k.encodeRecord(r)) == Some(r) }

  /** `None` is the exception. */
  function ReadConfig(k: Codec, d: Disk): Option<Config> {
    if ConfigFile !in d.files then Some(EMPTY_CONFIG) else k.parseConfig(d.files[ConfigFile].bytes)
  }

  /** `None` is the exception, `Some(None)` no record. */
  function ReadRecord(k: Codec, d: Disk): Option<Option<Record>> {
    if InstallFile !in d.files then Some(None)
    else match k.parseRecord(d.files[InstallFile].bytes) case None => None case Some(r) => Some(Some(r))
  }

  predicate ManagedFileIsSafe(k: Codec, d: Disk, record: Option<Record>) {
    HookFile in d.files ==> record.Some? && k.hash(d.files[HookFile].bytes) == record.value.hookHash
  }

  predicate ManagedEntryIsSafe(k: Codec, c: Config, record: Option<Record>) {
    var managed := ManagedEntries(EntriesOf(c));
    if record.None? then managed == [] else |managed| == 1 && k.hashEntry(managed[0]) == record.value.entryHash
  }

  /** Nothing stands in the way of a change: no exception is raised before the first write. */
  predicate IsSafe(k: Codec, d: Disk) {
    && ReadConfig(k, d).Some? && ReadRecord(k, d).Some?
    && ManagedFileIsSafe(k, d, ReadRecord(k, d).value)
    && ManagedEntryIsSafe(k, ReadConfig(k, d).value, ReadRecord(k, d).value)
  }

  function NextRecord(k: Codec, d: Disk, bundle: string): Record
    requires IsSafe(k, d)
  {
    var old_ := ReadRecord(k, d).value;
    Record(k.hash(bundle), k.hashEntry(Canonical),
           if old_.Some? then old_.value.cursorDirCreated else CursorDir !in d.dirs,
           if old_.Some? then old_.value.managedDirCreated else ManagedDir !in d.dirs,
           if old_.Some? then old_.value.configCreated else ConfigFile !in d.files)
  }

  function Installed(k: Codec, d: Disk, bundle: string, umask: Mode): Disk
    requires IsSafe(k, d)
  {
    var withDirs := d.(dirs := d.dirs + {CursorDir, ManagedDir});
    Put(Put(Put(withDirs, HookFile, bundle, umask), InstallFile, k.encodeRecord(NextRecord(k, d, bundle)), umask),
        ConfigFile, k.encodeConfig(WithCanonicalEntry(ReadConfig(k, d).value)), umask)
  }

  datatype Status = Missing | Conflict | Stale | Healthy

  function StatusOf(k: Codec, d: Disk, bundle: string): Status {
    var config, record := ReadConfig(k, d), ReadRecord(k, d);
    if config.None? || record.None? then Conflict
    else
      var managed := ManagedEntries(EntriesOf(config.value));
      if record.value.None? && HookFile !in d.files && managed == [] then Missing
      else if !IsSafe(k, d) then Conflict
      else if record.value.None? || HookFile !in d.files || |managed| != 1 || managed[0] != Canonical then Stale
      else if record.value.value.hookHash != k.hash(bundle) then Stale
      else Healthy
  }

  predicate CanDeleteCreatedConfig(c: Config) { c.otherFields == map[] && c.otherHooks == map[] && c.beforeShell.None? }

  /** The configuration after a removal, which takes the file away if an install created it and nothing is left in it. */
  function RemovedConfig(k: Codec, d: Disk, umask: Mode): Disk
    requires IsSafe(k, d) && ReadRecord(k, d).value.Some?
  {
    var next := WithoutManagedEntries(ReadConfig(k, d).value);
    if ReadRecord(k, d).value.value.configCreated && CanDeleteCreatedConfig(next) then Without(d, ConfigFile)
    else if ConfigFile in d.files then Put(d, ConfigFile, k.encodeConfig(next), umask) else d
  }

  /** The files after a removal. */
  function RemovedFiles(k: Codec, d: Disk, umask: Mode): Disk
    requires IsSafe(k, d) && ReadRecord(k, d).value.Some?
  {
    Without(Without(RemovedConfig(k, d, umask), HookFile), InstallFile)
  }

  function WithoutDir(d: Disk, dir: Dir): Disk { if dir in d.dirs && IsEmptyDir(d, dir) then d.(dirs := d.dirs - {dir}) else d }

  /** The disk after a removal: created directories go too, unless something is in them. */
  function Removed(k: Codec, d: Disk, umask: Mode): Disk
    requires IsSafe(k, d) && ReadRecord(k, d).value.Some?
  {
    WithoutCreatedDirs(RemovedFiles(k, d, umask), ReadRecord(k, d).value.value)
  }

  function WithoutCreatedDirs(files: Disk, record: Record): Disk {
    var managed := if record.managedDirCreated then WithoutDir(files, ManagedDir) else files;
    if record.cursorDirCreated then WithoutDir(managed, CursorDir) else managed
  }

  // ---------------------------------------------------------------- what install and remove achieve

  lemma ConfigCanBeRead(k: Codec, d: Disk)
    requires ReadConfig(k, d).Some?
    ensures CanBeRead(k, ReadConfig(k, d).value)
  {
    if ConfigFile in d.files { assert ReadFrom(k, d.files[ConfigFile].bytes, ReadConfig(k, d).value); }
  }

  lemma InstalledReads(k: Codec, d: Disk, bundle: string, umask: Mode)
    requires Faithful(k) && IsSafe(k, d)
    ensures var next := Installed(k, d, bundle, umask);
      && ReadConfig(k, next) == Some(WithCanonicalEntry(ReadConfig(k, d).value))
      && ReadRecord(k, next) == Some(Some(NextRecord(k, d, bundle)))
      && HookFile in next.files && next.files[HookFile].bytes == bundle
      && IsSafe(k, next)
  {
    var config, record := ReadConfig(k, d).value, NextRecord(k, d, bundle);
    ConfigCanBeRead(k, d);
    assert ReadFrom(k, k.encodeConfig(WithCanonicalEntry(config)), WithCanonicalEntry(config));
    assert RecordReads(k, Record(k.hash(bundle), k.hashEntry(Canonical), record.cursorDirCreated, record.managedDirCreated, record.configCreated));
    InstalledHolds(k, d, bundle, umask);
    CanonicalEntryIsAdded(EntriesOf(config));
  }

  /** An install makes the status healthy. */
  lemma InstallIsHealthy(k: Codec, d: Disk, bundle: string, umask: Mode)
    requires Faithful(k) && IsSafe(k, d)
    ensures StatusOf(k, Installed(k, d, bundle, umask), bundle) == Healthy
  {
    InstalledReads(k, d, bundle, umask);
    CanonicalEntryIsAdded(EntriesOf(ReadConfig(k, d).value));
  }

  /** What the three files hold after an install. */
  predicate HoldsInstall(d: Disk, hook: string, record: string, config: string) {
    && HookFile in d.files && d.files[HookFile].bytes == hook
    && InstallFile in d.files && d.files[InstallFile].bytes == record
    && ConfigFile in d.files && d.files[ConfigFile].bytes == config
    && CursorDir in d.dirs && ManagedDir in d.dirs
  }

  lemma InstalledHolds(k: Codec, d: Disk, bundle: string, umask: Mode)
    requires IsSafe(k, d)
    ensures HoldsInstall(Installed(k, d, bundle, umask), bundle, k.encodeRecord(NextRecord(k, d, bundle)),
                         k.encodeConfig(WithCanonicalEntry(ReadConfig(k, d).value)))
  {
  }

  lemma NothingToWrite(k: Codec, d: Disk, bundle: string, umask: Mode, record: Record, config: Config)
    requires IsSafe(k, d) && NextRecord(k, d, bundle) == record && WithCanonicalEntry(ReadConfig(k, d).value) == config
    requires HoldsInstall(d, bundle, k.encodeRecord(record), k.encodeConfig(config))
    ensures Installed(k, d, bundle, umask) == d
  {
    assert d.dirs + {CursorDir, ManagedDir} == d.dirs;
  }

  lemma SameRecordAgain(k: Codec, d: Disk, next: Disk, bundle: string)
    requires IsSafe(k, d) && IsSafe(k, next) && ReadRecord(k, next) == Some(Some(NextRecord(k, d, bundle)))
    ensures NextRecord(k, next, bundle) == NextRecord(k, d, bundle)
  {
  }

  lemma SameConfigAgain(c: Config)
    ensures WithCanonicalEntry(WithCanonicalEntry(c)) == WithCanonicalEntry(c)
  {
    CanonicalIsIdempotent(EntriesOf(c));
  }

  /** Installing twice changes nothing more. */
  lemma InstallIsIdempotent(k: Codec, d: Disk, bundle: string, umask: Mode)
    requires Faithful(k) && IsSafe(k, d)
    ensures IsSafe(k, Installed(k, d, bundle, umask))
    ensures Installed(k, Installed(k, d, bundle, umask), bundle, umask) == Installed(k, d, bundle, umask)
  {
    var next, record, config := Installed(k, d, bundle, umask), NextRecord(k, d, bundle), WithCanonicalEntry(ReadConfig(k, d).value);
    InstalledReads(k, d, bundle, umask);
    InstalledHolds(k, d, bundle, umask);
    SameRecordAgain(k, d, next, bundle);
    SameConfigAgain(ReadConfig(k, d).value);
    NothingToWrite(k, next, bundle, umask, record, config);
  }

  /** The disk without any trace of an installation. */
  predicate IsClean(k: Codec, d: Disk) {
    IsSafe(k, d) && ReadRecord(k, d).value.None?
  }

  /** The configuration of before, but for an empty hook list. */
  function WithoutEmptyList(c: Config): Config { c.(beforeShell := if EntriesOf(c) == [] then None else c.beforeShell) }

  /**
   Install and then remove on a clean disk: directories as before, no managed file, a created configuration is gone, and
   an existing one has its value back, but for an empty hook list. It was created anew, so its mode is back exactly if it
   survives that.
   */
  lemma RemoveUndoesInstall(k: Codec, d: Disk, bundle: string, umask: Mode)
    requires Faithful(k) && WellFormed(d) && IsClean(k, d)
    ensures var next := Installed(k, d, bundle, umask);
      && IsSafe(k, next) && ReadRecord(k, next).value.Some?
      && var after := Removed(k, next, umask);
         && after.dirs == d.dirs && after.occupied == d.occupied
         && after.files.Keys == d.files.Keys
         && (ConfigFile in d.files ==>
               && ReadConfig(k, after) == Some(WithoutEmptyList(ReadConfig(k, d).value))
               && after.files[ConfigFile].mode == Created(d.files[ConfigFile].mode, umask)
               && (after.files[ConfigFile].mode == d.files[ConfigFile].mode <==> Survives(d.files[ConfigFile].mode, umask)))
  {
    var next := Installed(k, d, bundle, umask);
    InstallAdds(k, d, bundle, umask);
    InstalledMode(k, d, bundle, umask);
    RemovedLeaves(k, d, next, umask);
    CreatedDirsGo(RemovedFiles(k, next, umask), d, ReadRecord(k, next).value.value);
    SameConfigFile(k, RemovedFiles(k, next, umask), Removed(k, next, umask));
    if ConfigFile in d.files { CreatedIsSame(d.files[ConfigFile].mode, umask); }
  }

  lemma SameConfigFile(k: Codec, a: Disk, b: Disk)
    requires a.files == b.files
    ensures ReadConfig(k, a) == ReadConfig(k, b)
  {
  }

  lemma InstallAdds(k: Codec, d: Disk, bundle: string, umask: Mode)
    requires Faithful(k) && WellFormed(d) && IsClean(k, d)
    ensures Adds(k, d, Installed(k, d, bundle, umask))
    ensures var record := ReadRecord(k, Installed(k, d, bundle, umask)).value.value;
      record.cursorDirCreated == (CursorDir !in d.dirs) && record.managedDirCreated == (ManagedDir !in d.dirs)
  {
    InstalledReads(k, d, bundle, umask);
    InstalledHolds(k, d, bundle, umask);
  }

  /** On a clean disk an existing configuration changes, and so it is written. */
  lemma InstalledMode(k: Codec, d: Disk, bundle: string, umask: Mode)
    requires Faithful(k) && IsClean(k, d)
    ensures var next := Installed(k, d, bundle, umask);
      && next.dirs == d.dirs + {CursorDir, ManagedDir} && next.occupied == d.occupied
      && (ConfigFile in d.files ==> next.files[ConfigFile].mode == Created(d.files[ConfigFile].mode, umask))
  {
    if ConfigFile in d.files { ConfigChanges(k, d); }
  }

  lemma ConfigChanges(k: Codec, d: Disk)
    requires Faithful(k) && IsClean(k, d) && ConfigFile in d.files
    ensures d.files[ConfigFile].bytes != k.encodeConfig(WithCanonicalEntry(ReadConfig(k, d).value))
  {
    var c := ReadConfig(k, d).value;
    ConfigCanBeRead(k, d);
    CanonicalEntryIsAdded(EntriesOf(c));
    assert ReadFrom(k, k.encodeConfig(WithCanonicalEntry(c)), WithCanonicalEntry(c));
    assert WithCanonicalEntry(c) != c;
  }

  /** What was added to the configuration of `d` is taken out of that of `next` again. */
  predicate Adds(k: Codec, d: Disk, next: Disk) {
    && IsSafe(k, d) && IsSafe(k, next) && ReadRecord(k, next).value.Some? && ManagedEntries(EntriesOf(ReadConfig(k, d).value)) == []
    && ConfigFile in next.files && ReadConfig(k, next).value == WithCanonicalEntry(ReadConfig(k, d).value)
    && ReadRecord(k, next).value.value.configCreated == (ConfigFile !in d.files)
    && HookFile !in d.files && InstallFile !in d.files
  }

  lemma RemovedConfigReads(k: Codec, d: Disk, next: Disk, umask: Mode)
    requires Faithful(k) && Adds(k, d, next)
    ensures var after, c := RemovedConfig(k, next, umask), ReadConfig(k, d).value;
      && after.dirs == next.dirs && after.occupied == next.occupied
      && (ConfigFile in after.files <==> ConfigFile in d.files)
      && (ConfigFile in d.files ==> after.files[ConfigFile].bytes == k.encodeConfig(WithoutEmptyList(c)))
      && (ConfigFile in d.files ==> ReadFrom(k, k.encodeConfig(WithoutEmptyList(c)), WithoutEmptyList(c)))
  {
    var c := ReadConfig(k, d).value;
    AddThenTakeOut(c);
    ConfigCanBeRead(k, next);
    assert ReadFrom(k, k.encodeConfig(WithoutManagedEntries(WithCanonicalEntry(c))), WithoutManagedEntries(WithCanonicalEntry(c)));
    RemovedConfigIs(k, next, umask, WithoutEmptyList(c));
  }

  lemma RemovedConfigIs(k: Codec, next: Disk, umask: Mode, back: Config)
    requires IsSafe(k, next) && ReadRecord(k, next).value.Some? && ConfigFile in next.files
    requires WithoutManagedEntries(ReadConfig(k, next).value) == back
    ensures var after := RemovedConfig(k, next, umask);
      && after.dirs == next.dirs && after.occupied == next.occupied
      && if ReadRecord(k, next).value.value.configCreated && CanDeleteCreatedConfig(back) then ConfigFile !in after.files
         else ConfigFile in after.files && after.files[ConfigFile].bytes == k.encodeConfig(back)
  {
  }

  /** What is left of an install by the steps of a removal: the configuration, if it was there before. */
  lemma RemovedLeaves(k: Codec, d: Disk, next: Disk, umask: Mode)
    requires Faithful(k) && Adds(k, d, next)
    ensures RemovedFiles(k, next, umask).files.Keys == d.files.Keys
    ensures RemovedFiles(k, next, umask).dirs == next.dirs && RemovedFiles(k, next, umask).occupied == next.occupied
    ensures ConfigFile in d.files ==>
              && ReadConfig(k, RemovedFiles(k, next, umask)) == Some(WithoutEmptyList(ReadConfig(k, d).value))
              && (next.files[ConfigFile].mode == Created(d.files[ConfigFile].mode, umask) ==>
                    RemovedFiles(k, next, umask).files[ConfigFile].mode == Created(d.files[ConfigFile].mode, umask))
  {
    RemovedConfigReads(k, d, next, umask);
    var after := RemovedFiles(k, next, umask);
    forall p: Path ensures p in after.files <==> p in d.files {
      match p
      case ConfigFile =>
      case HookFile =>
      case InstallFile =>
    }
    if ConfigFile in d.files { CreatedIsSame(d.files[ConfigFile].mode, umask); }
  }

  /** A configuration that its group may write, under the usual mask: the file is written anew, and the group may not any more. */
  lemma GroupWriteIsLost(k: Codec, d: Disk, bundle: string)
    requires Faithful(k) && IsClean(k, d) && ConfigFile in d.files && d.files[ConfigFile].mode == 0x1B4
    ensures Installed(k, d, bundle, 0x12).files[ConfigFile].mode == 0x1A4
    ensures Rewritten(d, 0x12).files[ConfigFile].mode == 0x1A4 && Rewritten(d, 0x12) != d
  {
    InstalledMode(k, d, bundle, 0x12);
  }

  lemma CreatedDirsGo(files: Disk, d: Disk, record: Record)
    requires WellFormed(d) && HookFile !in d.files && InstallFile !in d.files
    requires files.files.Keys == d.files.Keys && files.occupied == d.occupied && files.dirs == d.dirs + {CursorDir, ManagedDir}
    requires record.cursorDirCreated == (CursorDir !in d.dirs) && record.managedDirCreated == (ManagedDir !in d.dirs)
    ensures WithoutCreatedDirs(files, record).files == files.files
    ensures WithoutCreatedDirs(files, record).dirs == d.dirs && WithoutCreatedDirs(files, record).occupied == d.occupied
  {
    assert ManagedDir !in d.dirs ==> IsEmptyDir(files, ManagedDir);
    assert ConfigFile in d.files ==> CursorDir in d.dirs;
  }

  // ---------------------------------------------------------------- step by step, with rollback

  datatype Outcome = Conflicting | Absent | Succeeded | Failed(restored: bool)

  /** The bytes and permissions of a file, or that there is none. */
  datatype Snapshot = Snapshot(path: Path, file: Option<File>)

  function SnapshotOf(d: Disk, p: Path): Snapshot {
    Snapshot(p, if p in d.files then Some(File(d.files[p].bytes, d.files[p].mode & PERMISSIONS)) else None)
  }

  function SnapshotsOf(d: Disk): seq<Snapshot> { [SnapshotOf(d, ConfigFile), SnapshotOf(d, HookFile), SnapshotOf(d, InstallFile)] }

  /** The file was put back: created anew with the bytes and permissions of the snapshot, or removed. */
  predicate Restored(d: Disk, s: Snapshot, umask: Mode) {
    FileAt(d, s.path) == if s.file.None? then None else Some(File(s.file.value.bytes, Created(s.file.value.mode, umask)))
  }

  function DirSet(dirs: seq<Dir>): set<Dir> { set dir | dir in dirs }

  /** The directories that were created since, the inner one first. */
  ghost predicate CreatedSince(before: Disk, now: Disk, created: seq<Dir>) {
    && (created == [] || created == [ManagedDir] || created == [ManagedDir, CursorDir] || (created == [CursorDir] && ManagedDir !in now.dirs))
    && (forall dir :: dir in created ==> dir !in before.dirs)
    && now.dirs == before.dirs + DirSet(created) && now.occupied == before.occupied
  }

  /** How many of the coming operations fail. */
  function Faulty(faults: seq<bool>): nat { if faults == [] then 0 else (if faults[0] then 1 else 0) + Faulty(faults[1..]) }

  /** The disk, the process's mask, and which of the coming operations fail; when the list runs out, all succeed. */
  class Workspace {
    const codec: Codec
    const umask: Mode
    var disk: Disk
    var faults: seq<bool>

    constructor (codec: Codec, umask: Mode, disk: Disk, faults: seq<bool>)
      ensures this.codec == codec && this.umask == umask && this.disk == disk && this.faults == faults
    {
      this.codec, this.umask, this.disk, this.faults := codec, umask, disk, faults;
    }

    /** Of the operations so far, at least this many have failed. */
    twostate predicate Cost(failures: nat)
      reads this
    {
      Faulty(faults) + failures <= Faulty(old(faults))
    }

    method Fails() returns (failed: bool)
      modifies this`faults
      ensures Cost(if failed then 1 else 0)
    {
      if faults == [] { return false; }
      failed := faults[0];
      faults := faults[1..];
    }

    method MakeDir(dir: Dir) returns (ok: bool)
      modifies this
      ensures disk == if ok then old(disk).(dirs := old(disk).dirs + {dir}) else old(disk)
      ensures Cost(if ok then 0 else 1)
    {
      var failed := Fails();
      if failed { return false; }
      disk := disk.(dirs := disk.dirs + {dir});
      return true;
    }

    /** Creates a temporary file and renames it: the file changes as a whole or not at all, and its mode is masked. */
    method AtomicWrite(path: Path, bytes: string, mode: Mode) returns (ok: bool)
      modifies this
      ensures disk == if ok then old(disk).(files := old(disk).files[path := File(bytes, Created(mode, umask))]) else old(disk)
      ensures Cost(if ok then 0 else 1)
    {
      var failed := Fails();
      if failed { return false; }
      disk := disk.(files := disk.files[path := File(bytes, Created(mode, umask))]);
      return true;
    }

    method WriteIfChanged(path: Path, bytes: string) returns (ok: bool)
      modifies this
      ensures disk == if ok then Put(old(disk), path, bytes, umask) else old(disk)
      ensures Cost(if ok then 0 else 1)
    {
      if path in disk.files && disk.files[path].bytes == bytes { return true; }
      ok := AtomicWrite(path, bytes, ModeFor(disk, path));
    }

    method UnlinkIfPresent(path: Path) returns (ok: bool)
      modifies this
      ensures disk == if ok then Without(old(disk), path) else old(disk)
      ensures Cost(if ok then 0 else 1)
    {
      if path !in disk.files {
        assert disk.files - {path} == disk.files;
        return true;
      }
      var failed := Fails();
      if failed { return false; }
      disk := Without(disk, path);
      return true;
    }

    /** A directory that is not empty cannot be removed. */
    method RemoveDirIfPresent(dir: Dir) returns (ok: bool)
      modifies this
      ensures disk == if ok then WithoutDir(old(disk), dir) else old(disk)
      ensures ok ==> dir !in disk.dirs || (dir in old(disk).dirs && !IsEmptyDir(old(disk), dir))
      ensures Cost(if ok then 0 else 1)
    {
      if dir !in disk.dirs { return true; }
      var failed := Fails();
      if failed { return false; }
      disk := WithoutDir(disk, dir);
      return true;
    }

    /** Puts one file back, and changes no other. */
    method RestoreSnapshot(s: Snapshot) returns (ok: bool)
      modifies this
      ensures disk.occupied == old(disk).occupied && disk.dirs == old(disk).dirs
      ensures forall p :: p != s.path ==> FileAt(disk, p) == FileAt(old(disk), p)
      ensures ok ==> Restored(disk, s, umask)
      ensures Cost(if ok then 0 else 1)
    {
      if s.file.Some? {
        ok := AtomicWrite(s.path, s.file.value.bytes, s.file.value.mode);
      } else {
        ok := UnlinkIfPresent(s.path);
      }
    }

    method RestoreAll(files: seq<Snapshot>) returns (all: bool)
      requires forall i, j :: 0 <= i < j < |files| ==> files[i].path != files[j].path
      modifies this
      ensures disk.occupied == old(disk).occupied && disk.dirs == old(disk).dirs
      ensures all ==> forall i :: 0 <= i < |files| ==> Restored(disk, files[i], umask)
      ensures Cost(if all then 0 else 1)
    {
      all := true;
      for k := |files| downto 0
        invariant disk.occupied == old(disk).occupied && disk.dirs == old(disk).dirs
        invariant all ==> forall i :: k <= i < |files| ==> Restored(disk, files[i], umask)
        invariant Cost(if all then 0 else 1)
      {
        var ok := RestoreSnapshot(files[k]);
        all := all && ok;
      }
    }

    /** Removes the created directories, the inner one first; they are empty once the files are put back. */
    method RemoveDirs(ghost before: Disk, created: seq<Dir>) returns (all: bool)
      requires WellFormed(before) && CreatedSince(before, disk, created)
      modifies this
      ensures disk.files == old(disk).files && disk.occupied == before.occupied
      ensures all && old(disk).files.Keys == before.files.Keys ==> disk.dirs == before.dirs
      ensures Cost(if all then 0 else 1)
    {
      all := true;
      ghost var now := disk;
      for k := 0 to |created|
        invariant disk.files == now.files && disk.occupied == now.occupied
        invariant all && now.files.Keys == before.files.Keys ==> disk.dirs == now.dirs - DirSet(created[..k])
        invariant Cost(if all then 0 else 1)
      {
        assert created[..k + 1] == created[..k] + [created[k]];
        assert k > 0 ==> created[..k] == [ManagedDir];
        if all && now.files.Keys == before.files.Keys { CreatedIsEmpty(before, now, created, k, disk); }
        var ok := RemoveDirIfPresent(created[k]);
        all := all && ok;
      }
      assert created[..|created|] == created;
      assert before.dirs + DirSet(created) - DirSet(created) == before.dirs;
    }

    /**
     Puts back all it can; unless a restoring operation fails, files, their bytes and directories are as before, and every
     file was created anew.
     */
    method Rollback(ghost before: Disk, files: seq<Snapshot>, created: seq<Dir>) returns (all: bool)
      requires WellFormed(before) && CreatedSince(before, disk, created) && files == SnapshotsOf(before)
      modifies this
      ensures disk.occupied == before.occupied && (all ==> disk == Rewritten(before, umask))
      ensures Cost(if all then 0 else 1)
    {
      all := RestoreAll(files);
      if all { AllRestored(before, disk, umask); }
      var removed := RemoveDirs(before, created);
      all := all && removed;
    }

    method MakeDirs() returns (ok: bool, created: seq<Dir>)
      requires WellFormed(disk)
      modifies this
      ensures disk.files == old(disk).files && CreatedSince(old(disk), disk, created)
      ensures ok ==> disk.dirs == old(disk).dirs + {CursorDir, ManagedDir}
      ensures Cost(if ok then 0 else 1)
    {
      created := [];
      assert DirSet([CursorDir]) == {CursorDir} && DirSet([ManagedDir]) == {ManagedDir};
      assert DirSet([ManagedDir, CursorDir]) == {ManagedDir, CursorDir};
      if CursorDir !in disk.dirs {
        ok := MakeDir(CursorDir);
        if !ok { return; }
        created := [CursorDir] + created;
      }
      if ManagedDir !in disk.dirs {
        ok := MakeDir(ManagedDir);
        if !ok { return; }
        created := [ManagedDir] + created;
      }
      ok := true;
    }

    /** The three files, the configuration last. */
    method WriteFiles(hook: string, record: string, config: string) returns (ok: bool)
      modifies this
      ensures disk.dirs == old(disk).dirs && disk.occupied == old(disk).occupied
      ensures ok ==> disk == Put(Put(Put(old(disk), HookFile, hook, umask), InstallFile, record, umask), ConfigFile, config, umask)
      ensures Cost(if ok then 0 else 1)
    {
      ok := WriteIfChanged(HookFile, hook);
      if ok { ok := WriteIfChanged(InstallFile, record); }
      if ok { ok := WriteIfChanged(ConfigFile, config); }
    }

    /**
     Installs, or leaves the disk as it was: a conflict changes nothing, and a failed step is rolled back, so that files,
     their bytes and directories are as before unless another operation fails as well.
     */
    method Install(bundle: string) returns (r: Outcome)
      requires WellFormed(disk)
      modifies this
      ensures r.Conflicting? <==> !IsSafe(codec, old(disk))
      ensures r.Conflicting? ==> disk == old(disk)
      ensures r.Succeeded? ==> disk == Installed(codec, old(disk), bundle, umask)
      ensures r == Failed(true) ==> disk == Rewritten(old(disk), umask)
      ensures !r.Absent?
      ensures r.Failed? ==> Cost(if r.restored then 1 else 2)
    {
      if !IsSafe(codec, disk) { return Conflicting; }
      var record := NextRecord(codec, disk, bundle);
      var config := ReadConfig(codec, disk).value;
      var entries := InsertCanonicalEntry(EntriesOf(config));
      var next := config.(beforeShell := Some(entries));
      var snapshots := SnapshotsOf(disk);
      var ok, created := MakeDirs();
      if ok { ok := WriteFiles(bundle, codec.encodeRecord(record), codec.encodeConfig(next)); }
      if ok { return Succeeded; }
      var restored := Rollback(old(disk), snapshots, created);
      return Failed(restored);
    }

    /** Changes or removes the configuration, and removes the other two files. */
    method RemoveFiles(next: Config, configCreated: bool) returns (ok: bool)
      requires IsSafe(codec, disk) && ReadRecord(codec, disk).value.Some?
      requires next == WithoutManagedEntries(ReadConfig(codec, disk).value)
      requires configCreated == ReadRecord(codec, disk).value.value.configCreated
      modifies this
      ensures disk.dirs == old(disk).dirs && disk.occupied == old(disk).occupied
      ensures ok ==> disk == RemovedFiles(codec, old(disk), umask)
      ensures Cost(if ok then 0 else 1)
    {
      ok := true;
      if configCreated && CanDeleteCreatedConfig(next) {
        ok := UnlinkIfPresent(ConfigFile);
      } else if ConfigFile in disk.files {
        ok := WriteIfChanged(ConfigFile, codec.encodeConfig(next));
      }
      if ok { ok := UnlinkIfPresent(HookFile); }
      if ok { ok := UnlinkIfPresent(InstallFile); }
    }

    /** A directory that an install created is removed if it is empty; that it cannot be removed is no failure. */
    method RemoveCreatedDirs(record: Record)
      modifies this
      ensures disk.files == old(disk).files && disk.dirs <= old(disk).dirs
      ensures Faulty(old(faults)) == 0 ==> disk == WithoutCreatedDirs(old(disk), record)
      ensures Cost(0)
    {
      if record.managedDirCreated { var gone := RemoveDirIfPresent(ManagedDir); }
      if record.cursorDirCreated { var gone := RemoveDirIfPresent(CursorDir); }
    }

    /** Removes what was installed; a failed step is rolled back likewise. */
    method Remove() returns (r: Outcome)
      requires WellFormed(disk)
      modifies this
      ensures r.Conflicting? || r.Absent? ==> disk == old(disk)
      ensures r.Absent? ==> ReadRecord(codec, disk) == Some(None) && HookFile !in disk.files
      ensures r.Succeeded? ==> IsSafe(codec, old(disk)) && ReadRecord(codec, old(disk)).value.Some?
      ensures r.Succeeded? ==> disk.files == Removed(codec, old(disk), umask).files && disk.dirs <= old(disk).dirs
      ensures r.Succeeded? && Faulty(old(faults)) == 0 ==> disk == Removed(codec, old(disk), umask)
      ensures r == Failed(true) ==> disk == Rewritten(old(disk), umask)
      ensures r.Failed? ==> Cost(if r.restored then 1 else 2)
    {
      var config, record := ReadConfig(codec, disk), ReadRecord(codec, disk);
      if config.None? || record.None? { return Conflicting; }
      if record.value.None? {
        return if HookFile !in disk.files && ManagedEntries(EntriesOf(config.value)) == [] then Absent else Conflicting;
      }
      if !IsSafe(codec, disk) { return Conflicting; }
      var next := WithoutManagedEntries(config.value);
      var snapshots := SnapshotsOf(disk);
      var ok := RemoveFiles(next, record.value.value.configCreated);
      if !ok {
        assert DirSet([]) == {};
        var restored := Rollback(old(disk), snapshots, []);
        return Failed(restored);
      }
      RemoveCreatedDirs(record.value.value);
      return Succeeded;
    }
  }

  /** With the files put back, a directory that was created since holds nothing. */
  lemma CreatedIsEmpty(before: Disk, now: Disk, created: seq<Dir>, k: nat, d: Disk)
    requires WellFormed(before) && CreatedSince(before, now, created) && k < |created| && now.files.Keys == before.files.Keys
    requires d.files == now.files && d.occupied == now.occupied && d.dirs == now.dirs - DirSet(created[..k])
    ensures IsEmptyDir(d, created[k])
  {
    assert k > 0 ==> created[..k] == [ManagedDir] && created[k] == CursorDir;
    assert DirOf(ConfigFile) == CursorDir && DirOf(HookFile) == ManagedDir && DirOf(InstallFile) == ManagedDir;
    assert created[k] !in before.dirs;
  }

  /** With the snapshots of all three files put back, every file was created anew, and there is no other. */
  lemma AllRestored(before: Disk, after: Disk, umask: Mode)
    requires forall i :: 0 <= i < 3 ==> Restored(after, SnapshotsOf(before)[i], umask)
    ensures after.files == Rewritten(before, umask).files
  {
    var snapshots := SnapshotsOf(before);
    forall p: Path ensures FileAt(after, p) == FileAt(Rewritten(before, umask), p) {
      match p
      case ConfigFile => assert Restored(after, snapshots[0], umask); OneRestored(before, after, p, umask);
      case HookFile => assert Restored(after, snapshots[1], umask); OneRestored(before, after, p, umask);
      case InstallFile => assert Restored(after, snapshots[2], umask); OneRestored(before, after, p, umask);
    }
    SameFiles(after, Rewritten(before, umask));
  }

  lemma OneRestored(before: Disk, after: Disk, p: Path, umask: Mode)
    requires Restored(after, SnapshotOf(before, p), umask)
    ensures FileAt(after, p) == FileAt(Rewritten(before, umask), p)
  {
    if p in before.files { CreatedIsSame(before.files[p].mode, umask); }
  }

  lemma SameFiles(a: Disk, b: Disk)
    requires forall p :: FileAt(a, p) == FileAt(b, p)
    ensures a.files == b.files
  {
    forall p: Path ensures p in a.files <==> p in b.files {
      assert FileAt(a, p).Some? <==> p in a.files;
      assert FileAt(b, p).Some? <==> p in b.files;
    }
    forall p | p in a.files ensures a.files[p] == b.files[p] {
      assert FileAt(a, p) == FileAt(b, p);
    }
  }
}
