/** What whole runs of registry operations keep: every registered path holds the bytes its hash names, or nothing. */
module RegistryTheorems {
  import opened Wrappers
  import opened Registry
  import opened RegistryRollback
  import opened RegistryRuns
  import ToolNames

  // ---------------------------------------------------------------- runs

  datatype State = State(disk: Disk, orbs: seq<InstalledOrb>, orbsDir: Path)

  datatype Action =
    | ImportZip(source: Path, copyIn: bool, copyBreaks: Option<Option<nat>>)
    | RemoveOrb(id: string, stuck: bool)
    | MigrateLibrary(oldDirs: seq<Path>, newDir: Path, faults: nat -> Faults)
    | DeleteLibrary(dirs: seq<Path>, refuses: nat -> bool)
    | SetOrbsDir(dir: Path)
    | PutFile(path: Path, bytes: Bytes)

  function Updated<T>(s: State, m: Outcome<T>): State {
    State(m.disk, m.orbs, s.orbsDir)
  }

  function Step(s: State, a: Action, z: Zips): State
    requires forall b :: |z.sha(b)| == 64
  {
    match a
    case ImportZip(source, copyIn, copyBreaks) => Updated(s, Import(s.disk, s.orbs, s.orbsDir, source, copyIn, copyBreaks, z))
    case RemoveOrb(id, stuck) => Updated(s, Remove(s.disk, s.orbs, id, stuck))
    case MigrateLibrary(oldDirs, newDir, faults) => Updated(s, Migrate(s.disk, s.orbs, oldDirs, newDir, faults))
    case DeleteLibrary(dirs, refuses) => Updated(s, Delete(s.disk, s.orbs, dirs, refuses))
    case SetOrbsDir(dir) => s.(orbsDir := dir)
    case PutFile(path, bytes) => if path in s.disk.dirs then s else s.(disk := s.disk.(files := s.disk.files[path := bytes]))
  }

  function Exec(s: State, actions: seq<Action>, z: Zips): State
    requires forall b :: |z.sha(b)| == 64
    decreases |actions|
  {
    if actions == [] then s else Exec(Step(s, actions[0], z), actions[1..], z)
  }

  // ---------------------------------------------------------------- the invariant

  /** The file is named by the hash of its ZIP. */
  predicate Named(o: InstalledOrb) {
    o.zipPath != [] && o.zipPath[|o.zipPath| - 1] == FileName(o.zipSha256)
  }

  ghost predicate Holds(d: Disk, o: InstalledOrb, z: Zips) {
    o.zipPath in d.files ==> z.sha(d.files[o.zipPath]) == o.zipSha256
  }

  ghost predicate Sound(d: Disk, orbs: seq<InstalledOrb>, z: Zips) {
    IsDisk(d) && ShasDistinct(orbs) && forall o :: o in orbs ==> Named(o) && Holds(d, o, z)
  }

  predicate Complete(d: Disk, orbs: seq<InstalledOrb>) {
    forall o :: o in orbs ==> o.zipPath in d.files
  }

  predicate Registered(orbs: seq<InstalledOrb>, p: Path) {
    exists i :: 0 <= i < |orbs| && orbs[i].zipPath == p
  }

  /** The file an import would register or store, if the source is there and valid. */
  ghost predicate Imports(s: State, source: Path, z: Zips) {
    source in s.disk.files && z.validate(s.disk.files[source]).Some?
  }

  /** A copying import gets as far as opening the stored file for writing. */
  ghost predicate Writes(s: State, source: Path, z: Zips) {
    && Imports(s, source, z) && CreateDirAll(s.disk, s.orbsDir).Ok?
    && Target(s.orbsDir, z.sha(s.disk.files[source])) !in CreateDirAll(s.disk, s.orbsDir).value.dirs
  }

  /** When an import does no harm: a file registered where it lies is named by its hash; a copy is not of a file onto
      itself and does not break off over a registered file, unless what is left there has the right hash all the same. */
  ghost predicate ImportSafe(s: State, source: Path, copyIn: bool, copyBreaks: Option<Option<nat>>, z: Zips) {
    if copyIn then
      Writes(s, source, z) ==>
        var sha := z.sha(s.disk.files[source]);
        match copyBreaks
        case None => source != Target(s.orbsDir, sha) || z.sha([]) == sha
        case Some(None) => true
        case Some(Some(n)) => !Registered(s.orbs, Target(s.orbsDir, sha)) || z.sha(Part(Read(s.disk, source, Target(s.orbsDir, sha)), n)) == sha
    else Imports(s, source, z) ==> source != [] && source[|source| - 1] == FileName(z.sha(s.disk.files[source]))
  }

  /** Imports are safe, and others write on a registered path only what it should hold. */
  ghost predicate Careful(s: State, a: Action, z: Zips) {
    match a
    case ImportZip(source, copyIn, copyBreaks) => ImportSafe(s, source, copyIn, copyBreaks, z)
    case PutFile(path, bytes) => path in s.disk.dirs || forall o :: o in s.orbs && o.zipPath == path ==> z.sha(bytes) == o.zipSha256
    case _ => true
  }

  /** Every undo of a migration that fails works, and a library deletion that fails does so at the first file. */
  ghost predicate Gentle(s: State, a: Action) {
    match a
    case MigrateLibrary(oldDirs, newDir, faults) => UndosWork(s.disk, s.orbs, oldDirs, newDir, faults)
    case DeleteLibrary(dirs, refuses) => Delete(s.disk, s.orbs, dirs, refuses).result.Err? ==> refuses(0)
    case _ => true
  }

  // ---------------------------------------------------------------- hash-named files do not clash

  lemma SamePathSameOrb(orbs: seq<InstalledOrb>, targets: seq<Path>, newDir: Path, a: nat, b: nat)
    requires ShasDistinct(orbs) && a < |orbs| && b < |orbs| && Named(orbs[a]) && Named(orbs[b])
    requires Repathed(orbs[a], targets, newDir).zipPath == Repathed(orbs[b], targets, newDir).zipPath || orbs[a].zipPath == orbs[b].zipPath
    ensures a == b
  {
    RepathedIsNamed(orbs[a], targets, newDir);
    RepathedIsNamed(orbs[b], targets, newDir);
    FileNameInjectiveOn(orbs[a].zipSha256, orbs[b].zipSha256);
  }

  /** A migrated file keeps its name. */
  lemma RepathedIsNamed(o: InstalledOrb, targets: seq<Path>, newDir: Path)
    requires Named(o)
    ensures Named(Repathed(o, targets, newDir)) && Repathed(o, targets, newDir).zipSha256 == o.zipSha256
  {}

  lemma FileNameInjectiveOn(a: string, b: string)
    ensures FileName(a) == FileName(b) <==> a == b
  {
    if FileName(a) == FileName(b) {
      FileNameInjective(a, b);
    }
  }

  predicate AllNamed(orbs: seq<InstalledOrb>) {
    forall i :: 0 <= i < |orbs| ==> Named(orbs[i])
  }

  lemma {:induction false} TargetsDiffer(orbs: seq<InstalledOrb>, oldDirs: seq<Path>, newDir: Path)
    requires ShasDistinct(orbs) && AllNamed(orbs)
    ensures AllDiffer(Targets(orbs, oldDirs, newDir))
  {
    if orbs != [] {
      var n := |orbs| - 1;
      TargetsDiffer(orbs[..n], oldDirs, newDir);
      TargetsAre(orbs[..n], oldDirs, newDir);
      var before := Targets(orbs[..n], oldDirs, newDir);
      var path := orbs[n].zipPath;
      if path in before {
        var i :| 0 <= i < n && orbs[..n][i].zipPath == path;
        SamePathSameOrb(orbs, [], newDir, i, n);
      }
    }
  }

  lemma TargetOrb(orbs: seq<InstalledOrb>, oldDirs: seq<Path>, newDir: Path, i: nat) returns (a: nat)
    requires i < |Targets(orbs, oldDirs, newDir)|
    ensures a < |orbs| && orbs[a].zipPath == Targets(orbs, oldDirs, newDir)[i]
  {
    TargetsAre(orbs, oldDirs, newDir);
    assert Targets(orbs, oldDirs, newDir)[i] in Targets(orbs, oldDirs, newDir);
    a :| 0 <= a < |orbs| && orbs[a].zipPath == Targets(orbs, oldDirs, newDir)[i];
  }

  lemma HashNamesDestsDiffer(orbs: seq<InstalledOrb>, oldDirs: seq<Path>, newDir: Path)
    requires ShasDistinct(orbs) && AllNamed(orbs)
    ensures DestsDiffer(Targets(orbs, oldDirs, newDir), newDir)
  {
    var targets := Targets(orbs, oldDirs, newDir);
    TargetsDiffer(orbs, oldDirs, newDir);
    forall i, j | 0 <= i < j < |targets| ensures Dest(newDir, targets[i]) != Dest(newDir, targets[j]) {
      var a := TargetOrb(orbs, oldDirs, newDir, i);
      var b := TargetOrb(orbs, oldDirs, newDir, j);
      if Dest(newDir, targets[i]) == Dest(newDir, targets[j]) {
        SamePathSameOrb(orbs, targets, newDir, a, b);
      }
    }
  }

  lemma HashNamesNotAtDest(orbs: seq<InstalledOrb>, oldDirs: seq<Path>, newDir: Path, a: nat)
    requires ShasDistinct(orbs) && AllNamed(orbs) && a < |orbs|
    ensures !IsDest(orbs[a].zipPath, Targets(orbs, oldDirs, newDir), newDir)
  {
    var targets := Targets(orbs, oldDirs, newDir);
    TargetsAre(orbs, oldDirs, newDir);
    if IsDest(orbs[a].zipPath, targets, newDir) {
      var i :| 0 <= i < |targets| && orbs[a].zipPath == Dest(newDir, targets[i]);
      DestApart(targets, newDir, targets[i]);
      var b := TargetOrb(orbs, oldDirs, newDir, i);
      SamePathSameOrb(orbs, targets, newDir, a, b);
    }
  }

  /** Files named by distinct hashes never clash in a migration, however far it gets. */
  lemma HashNamesDoNotClash(d: Disk, orbs: seq<InstalledOrb>, oldDirs: seq<Path>, newDir: Path, r: nat)
    requires ShasDistinct(orbs) && AllNamed(orbs) && r <= |Targets(orbs, oldDirs, newDir)|
    ensures NoClash(orbs, Targets(orbs, oldDirs, newDir)[..r], newDir)
    ensures ClashesAgree(d, orbs, Targets(orbs, oldDirs, newDir), newDir)
  {
    var targets := Targets(orbs, oldDirs, newDir);
    HashNamesDestsDiffer(orbs, oldDirs, newDir);
    forall a | 0 <= a < |orbs| ensures Apart(targets[..r], newDir, orbs[a].zipPath) {
      HashNamesNotAtDest(orbs, oldDirs, newDir, a);
    }
    forall i, j | 0 <= i < |orbs| && 0 <= j < |orbs| && Repathed(orbs[i], targets, newDir).zipPath == Repathed(orbs[j], targets, newDir).zipPath
      ensures Get(d, orbs[i].zipPath) == Get(d, orbs[j].zipPath)
    {
      SamePathSameOrb(orbs, targets, newDir, i, j);
    }
  }

  // ---------------------------------------------------------------- every operation keeps it

  /** Entry by entry, the disk afterwards holds what it held, or nothing. */
  predicate SameOrGone(d: Disk, d': Disk, orbs: seq<InstalledOrb>) {
    forall o :: o in orbs ==> Get(d', o.zipPath) == Get(d, o.zipPath) || Get(d', o.zipPath) == None
  }

  lemma SameOrGoneSound(d: Disk, d': Disk, orbs: seq<InstalledOrb>, orbs': seq<InstalledOrb>, z: Zips)
    requires Sound(d, orbs, z) && IsDisk(d') && SameOrGone(d, d', orbs)
    requires ShasDistinct(orbs') && forall o :: o in orbs' ==> o in orbs
    ensures Sound(d', orbs', z)
  {}

  /** An import leaves every registered path right if and only if it is safe. It never leaves a registered path empty,
      and when it succeeds its ZIP is registered. */
  lemma ImportKeepsIff(s: State, source: Path, copyIn: bool, copyBreaks: Option<Option<nat>>, z: Zips)
    requires IsZips(z) && Sound(s.disk, s.orbs, z)
    ensures var m := Import(s.disk, s.orbs, s.orbsDir, source, copyIn, copyBreaks, z);
            && (Sound(m.disk, m.orbs, z) <==> ImportSafe(s, source, copyIn, copyBreaks, z))
            && (Complete(s.disk, s.orbs) ==> Complete(m.disk, m.orbs))
            && (m.result.Ok? ==> Registered(m.orbs, m.result.value)
                                 && Get(m.disk, m.result.value) == if copyIn && source == m.result.value then Some([]) else Get(s.disk, source))
  {
    if !copyIn {
      if Imports(s, source, z) {
        RegisteredKeepsIff(s, source, z);
      }
    } else if Imports(s, source, z) && CreateDirAll(s.disk, s.orbsDir).Ok? {
      CreatedIsDisk(s.disk, s.orbsDir);
      if Writes(s, source, z) {
        var d1 := CreateDirAll(s.disk, s.orbsDir).value;
        match copyBreaks
        case None => CopiedKeepsIff(s, d1, source, z);
        case Some(None) =>
        case Some(Some(n)) => BrokenCopyKeepsIff(s, d1, source, Part(Read(d1, source, Target(s.orbsDir, z.sha(s.disk.files[source]))), n), z);
      }
    }
  }

  /** The list with the imported entry, and the other entries as they were. */
  lemma UpsertedAre(s: State, o: InstalledOrb, z: Zips)
    requires Sound(s.disk, s.orbs, z)
    ensures var orbs' := Upsert(s.orbs, o);
            && ShasDistinct(orbs') && o in orbs' && Registered(orbs', o.zipPath)
            && forall e :: e in orbs' && e != o ==> e in s.orbs && e.zipSha256 != o.zipSha256
  {
    UpsertKeeps(s.orbs, o, o);
    var orbs' := Upsert(s.orbs, o);
    var i :| 0 <= i < |orbs'| && orbs'[i] == o;
    forall e | e in orbs' && e != o ensures e in s.orbs && e.zipSha256 != o.zipSha256 {
      UpsertKeeps(s.orbs, o, e);
    }
  }

  lemma RegisteredKeepsIff(s: State, source: Path, z: Zips)
    requires IsZips(z) && Sound(s.disk, s.orbs, z) && Imports(s, source, z)
    ensures var bytes := s.disk.files[source]; var orbs' := Upsert(s.orbs, Entry(z, bytes, z.validate(bytes).value, source));
            && (Sound(s.disk, orbs', z) <==> source != [] && source[|source| - 1] == FileName(z.sha(bytes)))
            && (Complete(s.disk, s.orbs) ==> Complete(s.disk, orbs')) && Registered(orbs', source)
  {
    var bytes := s.disk.files[source];
    var o := Entry(z, bytes, z.validate(bytes).value, source);
    UpsertedAre(s, o, z);
    assert Holds(s.disk, o, z);
  }

  lemma CopiedKeepsIff(s: State, d1: Disk, source: Path, z: Zips)
    requires IsZips(z) && Sound(s.disk, s.orbs, z) && IsDisk(d1) && d1.files == s.disk.files && Imports(s, source, z)
    requires Target(s.orbsDir, z.sha(s.disk.files[source])) !in d1.dirs
    ensures var bytes := s.disk.files[source]; var target := Target(s.orbsDir, z.sha(bytes));
            var d2, orbs' := Copied(d1, source, target), Upsert(s.orbs, Entry(z, bytes, z.validate(bytes).value, target));
            && (Sound(d2, orbs', z) <==> source != target || z.sha([]) == z.sha(bytes))
            && (Complete(s.disk, s.orbs) ==> Complete(d2, orbs')) && Registered(orbs', target)
  {
    var bytes := s.disk.files[source];
    var target := Target(s.orbsDir, z.sha(bytes));
    var o := Entry(z, bytes, z.validate(bytes).value, target);
    var d2, orbs' := Copied(d1, source, target), Upsert(s.orbs, o);
    UpsertedAre(s, o, z);
    forall e | e in orbs' && e != o ensures Named(e) && Holds(d2, e, z) && (e.zipPath in s.disk.files ==> e.zipPath in d2.files) {
      FileNameInjectiveOn(e.zipSha256, z.sha(bytes));
    }
    assert Named(o) && (Holds(d2, o, z) <==> source != target || z.sha([]) == z.sha(bytes));
  }

  lemma BrokenCopyKeepsIff(s: State, d1: Disk, source: Path, part: Bytes, z: Zips)
    requires Sound(s.disk, s.orbs, z) && IsDisk(d1) && d1.files == s.disk.files && Imports(s, source, z)
    requires Target(s.orbsDir, z.sha(s.disk.files[source])) !in d1.dirs
    ensures var sha := z.sha(s.disk.files[source]); var target := Target(s.orbsDir, sha);
            var d2 := d1.(files := d1.files[target := part]);
            && (Sound(d2, s.orbs, z) <==> !Registered(s.orbs, target) || z.sha(part) == sha)
            && (Complete(s.disk, s.orbs) ==> Complete(d2, s.orbs))
  {
    var sha := z.sha(s.disk.files[source]);
    var target := Target(s.orbsDir, sha);
    forall o | o in s.orbs && o.zipPath == target ensures o.zipSha256 == sha && Registered(s.orbs, target) {
      FileNameInjectiveOn(o.zipSha256, sha);
      var i :| 0 <= i < |s.orbs| && s.orbs[i] == o;
    }
  }

  /** The entry of a ZIP: named and found by the hash of its bytes, with the slug and display name of its manifest. */
  predicate IsEntryOf(o: InstalledOrb, sha: string, report: Report, path: Path)
    requires |sha| >= 16
  {
    && o.zipSha256 == sha && o.zipPath == path && o.id == sha[..16] && o.slug == ToolNames.Slugify(report.name)
    && o.displayName == match report.displayName case Some(name) => name case None => report.name
  }

  /** After an import exactly one entry has the hash of the source's bytes, and it says what the ZIP says. */
  lemma ImportedEntry(s: State, source: Path, copyIn: bool, z: Zips, e: InstalledOrb)
    requires IsZips(z) && ShasDistinct(s.orbs)
    requires Import(s.disk, s.orbs, s.orbsDir, source, copyIn, None, z).result.Ok?
    ensures var m := Import(s.disk, s.orbs, s.orbsDir, source, copyIn, None, z);
            var sha := z.sha(s.disk.files[source]);
            && ShasDistinct(m.orbs)
            && m.result.value == (if copyIn then s.orbsDir + [sha + ".orb.zip"] else source)
            && (exists o :: o in m.orbs && o.zipSha256 == sha)
            && (e in m.orbs && e.zipSha256 == sha ==> IsEntryOf(e, sha, z.validate(s.disk.files[source]).value, m.result.value))
  {
    var m := Import(s.disk, s.orbs, s.orbsDir, source, copyIn, None, z);
    var o := Entry(z, s.disk.files[source], z.validate(s.disk.files[source]).value, m.result.value);
    UpsertKeeps(s.orbs, o, o);
    UpsertKeeps(s.orbs, o, e);
  }

  /** Removing by the first 16 characters of the hash undoes an import: that entry goes with its file, if no other Orb
      has this id, and all others stay. */
  lemma ImportThenRemove(s: State, source: Path, copyIn: bool, z: Zips, e: InstalledOrb)
    requires IsZips(z) && ShasDistinct(s.orbs)
    requires Import(s.disk, s.orbs, s.orbsDir, source, copyIn, None, z).result.Ok?
    requires forall o :: o in s.orbs && o.zipSha256 != z.sha(s.disk.files[source]) ==> o.id != z.sha(s.disk.files[source])[..16]
    ensures var m := Import(s.disk, s.orbs, s.orbsDir, source, copyIn, None, z);
            var sha := z.sha(s.disk.files[source]);
            var n := Remove(m.disk, m.orbs, sha[..16], false);
            && n.result.Ok? && n.result.value.zipSha256 == sha && n.result.value.zipPath == m.result.value
            && Get(n.disk, m.result.value) == None
            && (e in n.orbs <==> e in s.orbs && e.zipSha256 != sha)
  {
    var m := Import(s.disk, s.orbs, s.orbsDir, source, copyIn, None, z);
    var sha := z.sha(s.disk.files[source]);
    var o := Entry(z, s.disk.files[source], z.validate(s.disk.files[source]).value, m.result.value);
    UpsertKeeps(s.orbs, o, o);
    ImportExactly(s.disk, s.orbs, s.orbsDir, source, copyIn, None, z, o, []);
    ImportExactly(s.disk, s.orbs, s.orbsDir, source, copyIn, None, z, e, []);
    forall x | x in m.orbs && x != o ensures x.id != o.id {
      ImportExactly(s.disk, s.orbs, s.orbsDir, source, copyIn, None, z, x, []);
    }
    OneWithId(m.disk, m.orbs, o, e);
  }

  /** An id that one entry has takes out this entry. */
  lemma OneWithId(d: Disk, orbs: seq<InstalledOrb>, o: InstalledOrb, e: InstalledOrb)
    requires ShasDistinct(orbs) && o in orbs && o.zipPath in d.files
    requires forall x :: x in orbs && x != o ==> x.id != o.id
    ensures var n := Remove(d, orbs, o.id, false);
            n.result == Ok(o) && Get(n.disk, o.zipPath) == None && (e in n.orbs <==> e in orbs && e != o)
  {
    var i := FindId(orbs, o.id);
    assert i < |orbs| && orbs[i] == o;
    var rest := orbs[..i] + orbs[i + 1..];
    if e in orbs && e != o {
      var j :| 0 <= j < |orbs| && orbs[j] == e;
      assert rest[if j < i then j else j - 1] == e;
    }
  }

  lemma RemoveKeeps(d: Disk, orbs: seq<InstalledOrb>, id: string, stuck: bool, z: Zips)
    requires Sound(d, orbs, z)
    ensures var m := Remove(d, orbs, id, stuck);
            && Sound(m.disk, m.orbs, z)
            && (Complete(d, orbs) ==> Complete(m.disk, m.orbs))
            && (m.result.Ok? ==> Get(m.disk, m.result.value.zipPath) == None && !Registered(m.orbs, m.result.value.zipPath))
  {
    var i := FindId(orbs, id);
    if Remove(d, orbs, id, stuck).result.Ok? {
      RemovedKeeps(d, orbs, i, z);
    }
  }

  lemma RemovedKeeps(d: Disk, orbs: seq<InstalledOrb>, i: nat, z: Zips)
    requires Sound(d, orbs, z) && i < |orbs|
    ensures var rest, d' := orbs[..i] + orbs[i + 1..], d.(files := d.files - {orbs[i].zipPath});
            && ShasDistinct(rest)
            && (forall o :: o in rest ==> o in orbs && Get(d', o.zipPath) == Get(d, o.zipPath))
            && !Registered(rest, orbs[i].zipPath)
  {
    var rest := orbs[..i] + orbs[i + 1..];
    forall j | 0 <= j < |rest| ensures rest[j] in orbs && rest[j].zipPath != orbs[i].zipPath {
      var k := if j < i then j else j + 1;
      assert rest[j] == orbs[k];
      if orbs[k].zipPath == orbs[i].zipPath {
        SamePathSameOrb(orbs, [], [], k, i);
      }
    }
  }

  lemma DeleteKeeps(d: Disk, orbs: seq<InstalledOrb>, dirs: seq<Path>, refuses: nat -> bool, z: Zips)
    requires Sound(d, orbs, z)
    ensures var m := Delete(d, orbs, dirs, refuses);
            && Sound(m.disk, m.orbs, z)
            && (Complete(d, orbs) ==> (Complete(m.disk, m.orbs) <==> (m.result.Err? ==> refuses(0))))
  {
    var m := Delete(d, orbs, dirs, refuses);
    var paths := PathsUnder(orbs, dirs);
    var (d1, ok) := DeleteFiles(d, paths, refuses);
    DeleteFilesEffect(d, paths, refuses);
    RetainedAre(orbs, dirs);
    RemoveDirsKeepsFiles(d1, dirs);
    assert SameOrGone(d, m.disk, orbs);
    DeletedIsDisk(d, d1, paths, refuses);
    SameOrGoneSound(d, m.disk, orbs, m.orbs, z);
    if !ok && Complete(d, orbs) {
      FailedDeletionKeepsIff(d, orbs, dirs, refuses);
    } else if Complete(d, orbs) {
      forall o | o in m.orbs ensures o.zipPath in m.disk.files {
        DeleteExactly(d, orbs, dirs, refuses, o);
      }
    }
  }

  lemma DeletedIsDisk(d: Disk, d1: Disk, paths: seq<Path>, refuses: nat -> bool)
    requires IsDisk(d) && d1 == DeleteFiles(d, paths, refuses).0
    ensures IsDisk(d1)
  {
    DeleteFilesEffect(d, paths, refuses);
    forall p | p in d1.files ensures p in d.files {
      assert Get(d1, p) == Get(d, p);
    }
  }

  lemma MigrateKeeps(d: Disk, orbs: seq<InstalledOrb>, oldDirs: seq<Path>, newDir: Path, faults: nat -> Faults, z: Zips)
    requires Sound(d, orbs, z)
    ensures var m := Migrate(d, orbs, oldDirs, newDir, faults);
            && Sound(m.disk, m.orbs, z)
            && (Complete(d, orbs) ==> (Complete(m.disk, m.orbs) <==> UndosWork(d, orbs, oldDirs, newDir, faults)))
            && (UndosWork(d, orbs, oldDirs, newDir, faults) ==> Kept(d, orbs, m.disk, m.orbs))
  {
    HashNamesDoNotClash(d, orbs, oldDirs, newDir, 0);
    if Migrate(d, orbs, oldDirs, newDir, faults).result.Ok? {
      MigratedKeeps(d, orbs, oldDirs, newDir, faults, z);
    } else {
      FailedMigrationKeeps(d, orbs, oldDirs, newDir, faults, z);
    }
  }

  /** The migration succeeds, or undoes every move it made. */
  predicate UndosWork(d: Disk, orbs: seq<InstalledOrb>, oldDirs: seq<Path>, newDir: Path, faults: nat -> Faults) {
    Migrate(d, orbs, oldDirs, newDir, faults).result.Err? && Starts(d, orbs, oldDirs, newDir) ==>
      forall i :: 0 <= i < Moves(d, orbs, oldDirs, newDir, faults).completed ==> !faults(i).noRollback
  }

  lemma MigrateIsDisk(d: Disk, orbs: seq<InstalledOrb>, oldDirs: seq<Path>, newDir: Path, faults: nat -> Faults)
    requires IsDisk(d)
    ensures IsDisk(Migrate(d, orbs, oldDirs, newDir, faults).disk)
  {
    var targets := Targets(orbs, oldDirs, newDir);
    if AllPresent(d, targets) && CreateDirAll(d, newDir).Ok? {
      CreatedIsDisk(d, newDir);
      TargetsAre(orbs, oldDirs, newDir);
      var d1 := CreateDirAll(d, newDir).value;
      MoveAllDirs(d1, targets, newDir, faults);
      var p := MoveAll(d1, targets, newDir, faults);
      RemoveDirsKeepsFiles(p.disk, oldDirs);
      RollBackIsDisk(p.disk, targets, newDir, faults, p.completed);
    }
  }

  lemma {:induction false} RollBackIsDisk(d: Disk, targets: seq<Path>, newDir: Path, faults: nat -> Faults, n: nat)
    requires IsDisk(d) && n <= |targets|
    ensures IsDisk(RollBack(d, targets, newDir, faults, n))
    decreases n
  {
    if n > 0 {
      RollBackIsDisk(Undo(d, targets[n - 1], newDir, faults(n - 1)), targets, newDir, faults, n - 1);
    }
  }

  lemma RepathedAreDistinct(orbs: seq<InstalledOrb>, targets: seq<Path>, newDir: Path)
    requires ShasDistinct(orbs)
    ensures ShasDistinct(Repath(orbs, targets, newDir))
  {}

  lemma MigratedKeeps(d: Disk, orbs: seq<InstalledOrb>, oldDirs: seq<Path>, newDir: Path, faults: nat -> Faults, z: Zips)
    requires Sound(d, orbs, z) && Migrate(d, orbs, oldDirs, newDir, faults).result.Ok?
    requires ClashesAgree(d, orbs, Targets(orbs, oldDirs, newDir), newDir)
    ensures var m := Migrate(d, orbs, oldDirs, newDir, faults);
            Sound(m.disk, m.orbs, z) && Kept(d, orbs, m.disk, m.orbs) && (Complete(d, orbs) ==> Complete(m.disk, m.orbs))
  {
    var m := Migrate(d, orbs, oldDirs, newDir, faults);
    MigrateIsDisk(d, orbs, oldDirs, newDir, faults);
    MigrationKeepsIff(d, orbs, oldDirs, newDir, faults);
    RepathedAreDistinct(orbs, Targets(orbs, oldDirs, newDir), newDir);
    forall o | o in m.orbs ensures Named(o) && Holds(m.disk, o, z) && (Complete(d, orbs) ==> o.zipPath in m.disk.files) {
      var a :| 0 <= a < |m.orbs| && m.orbs[a] == o;
      assert orbs[a] in orbs;
      RepathedIsNamed(orbs[a], Targets(orbs, oldDirs, newDir), newDir);
      HoldsMoves(d, m.disk, orbs[a], o, z);
    }
  }

  lemma HoldsMoves(d: Disk, d': Disk, o: InstalledOrb, o': InstalledOrb, z: Zips)
    requires Holds(d, o, z) && o'.zipSha256 == o.zipSha256 && Get(d', o'.zipPath) == Get(d, o.zipPath)
    ensures Holds(d', o', z) && (o.zipPath in d.files ==> o'.zipPath in d'.files)
  {}

  lemma FailedMigrationKeeps(d: Disk, orbs: seq<InstalledOrb>, oldDirs: seq<Path>, newDir: Path, faults: nat -> Faults, z: Zips)
    requires Sound(d, orbs, z) && Migrate(d, orbs, oldDirs, newDir, faults).result.Err?
    ensures var m := Migrate(d, orbs, oldDirs, newDir, faults);
            && Sound(m.disk, m.orbs, z)
            && (Complete(d, orbs) ==> (Complete(m.disk, m.orbs) <==> UndosWork(d, orbs, oldDirs, newDir, faults)))
            && (UndosWork(d, orbs, oldDirs, newDir, faults) ==> Kept(d, orbs, m.disk, m.orbs))
  {
    var m := Migrate(d, orbs, oldDirs, newDir, faults);
    MigrateIsDisk(d, orbs, oldDirs, newDir, faults);
    forall a | 0 <= a < |orbs|
      ensures var path := orbs[a].zipPath; Get(m.disk, path) == if Stranded(d, orbs, oldDirs, newDir, faults, path) then None else Get(d, path)
    {
      if Starts(d, orbs, oldDirs, newDir) {
        HashNamesDoNotClash(d, orbs, oldDirs, newDir, |Reached(d, orbs, oldDirs, newDir)|);
      }
      FailureRestoresIff(d, orbs, oldDirs, newDir, faults, a);
    }
    SameOrGoneByIndex(d, m.disk, orbs);
    SameOrGoneSound(d, m.disk, orbs, orbs, z);
    if !UndosWork(d, orbs, oldDirs, newDir, faults) {
      var i :| 0 <= i < Moves(d, orbs, oldDirs, newDir, faults).completed && faults(i).noRollback;
      var a := ReachedOrb(d, orbs, oldDirs, newDir, i);
      assert Stranded(d, orbs, oldDirs, newDir, faults, orbs[a].zipPath) && orbs[a] in orbs;
    } else {
      forall o | o in orbs ensures Get(m.disk, o.zipPath) == Get(d, o.zipPath) {
        var a :| 0 <= a < |orbs| && orbs[a] == o;
      }
    }
  }

  lemma SameOrGoneByIndex(d: Disk, d': Disk, orbs: seq<InstalledOrb>)
    requires forall a :: 0 <= a < |orbs| ==> Get(d', orbs[a].zipPath) == Get(d, orbs[a].zipPath) || Get(d', orbs[a].zipPath) == None
    ensures SameOrGone(d, d', orbs)
  {}

  // ---------------------------------------------------------------- runs

  /** Whatever the operation and its faults, registered paths stay right if and only if the step is careful; and then
      they all stay filled if and only if it is gentle. */
  lemma StepKeepsIff(s: State, a: Action, z: Zips)
    requires IsZips(z) && Sound(s.disk, s.orbs, z)
    ensures var t := Step(s, a, z);
            && (Sound(t.disk, t.orbs, z) <==> Careful(s, a, z))
            && (Complete(s.disk, s.orbs) ==> (Complete(t.disk, t.orbs) <==> Gentle(s, a)))
  {
    match a
    case ImportZip(source, copyIn, copyBreaks) => ImportKeepsIff(s, source, copyIn, copyBreaks, z);
    case RemoveOrb(id, stuck) => RemoveKeeps(s.disk, s.orbs, id, stuck, z);
    case MigrateLibrary(oldDirs, newDir, faults) => MigrateKeeps(s.disk, s.orbs, oldDirs, newDir, faults, z);
    case DeleteLibrary(dirs, refuses) => DeleteKeeps(s.disk, s.orbs, dirs, refuses, z);
    case SetOrbsDir(_) =>
    case PutFile(path, bytes) => if path !in s.disk.dirs { PutKeepsIff(s, path, bytes, z); }
  }

  lemma PutKeepsIff(s: State, path: Path, bytes: Bytes, z: Zips)
    requires Sound(s.disk, s.orbs, z) && path !in s.disk.dirs
    ensures var d := s.disk.(files := s.disk.files[path := bytes]);
            && (Sound(d, s.orbs, z) <==> forall o :: o in s.orbs && o.zipPath == path ==> z.sha(bytes) == o.zipSha256)
            && (Complete(s.disk, s.orbs) ==> Complete(d, s.orbs))
  {
    var d := s.disk.(files := s.disk.files[path := bytes]);
    forall o | o in s.orbs ensures Holds(d, o, z) <==> (o.zipPath == path ==> z.sha(bytes) == o.zipSha256) {}
  }

  ghost predicate AllCareful(s: State, actions: seq<Action>, z: Zips)
    requires IsZips(z)
    decreases |actions|
  {
    actions == [] || (Careful(s, actions[0], z) && AllCareful(Step(s, actions[0], z), actions[1..], z))
  }

  ghost predicate AllGentle(s: State, actions: seq<Action>, z: Zips)
    requires IsZips(z)
    decreases |actions|
  {
    actions == [] || (Gentle(s, actions[0]) && AllGentle(Step(s, actions[0], z), actions[1..], z))
  }

  /** In every state of the run a registered path holds the bytes its hash names, or nothing. */
  ghost predicate AlwaysSound(s: State, actions: seq<Action>, z: Zips)
    requires IsZips(z)
    decreases |actions|
  {
    Sound(s.disk, s.orbs, z) && (actions == [] || AlwaysSound(Step(s, actions[0], z), actions[1..], z))
  }

  /** In every state of the run each registered path holds the bytes its hash names. */
  ghost predicate AlwaysWhole(s: State, actions: seq<Action>, z: Zips)
    requires IsZips(z)
    decreases |actions|
  {
    && Sound(s.disk, s.orbs, z) && Complete(s.disk, s.orbs)
    && (actions == [] || AlwaysWhole(Step(s, actions[0], z), actions[1..], z))
  }

  /** Over runs with arbitrary faults: nothing registered ever holds wrong bytes if and only if every step is careful. */
  lemma {:induction false} RunIsSoundIff(s: State, actions: seq<Action>, z: Zips)
    requires IsZips(z) && Sound(s.disk, s.orbs, z)
    ensures AlwaysSound(s, actions, z) <==> AllCareful(s, actions, z)
    ensures AllCareful(s, actions, z) ==> Sound(Exec(s, actions, z).disk, Exec(s, actions, z).orbs, z)
    decreases |actions|
  {
    if actions != [] {
      var t := Step(s, actions[0], z);
      StepKeepsIff(s, actions[0], z);
      if Sound(t.disk, t.orbs, z) {
        RunIsSoundIff(t, actions[1..], z);
      }
    }
  }

  /** And every registered path always holds its bytes if and only if every step is gentle as well. */
  lemma {:induction false} RunIsWholeIff(s: State, actions: seq<Action>, z: Zips)
    requires IsZips(z) && Sound(s.disk, s.orbs, z) && Complete(s.disk, s.orbs)
    ensures AlwaysWhole(s, actions, z) <==> AllCareful(s, actions, z) && AllGentle(s, actions, z)
    ensures AllCareful(s, actions, z) && AllGentle(s, actions, z) ==>
              var t := Exec(s, actions, z);
              forall o :: o in t.orbs ==> o.zipPath in t.disk.files && z.sha(t.disk.files[o.zipPath]) == o.zipSha256
    decreases |actions|
  {
    if actions != [] {
      var t := Step(s, actions[0], z);
      StepKeepsIff(s, actions[0], z);
      if Sound(t.disk, t.orbs, z) && Complete(t.disk, t.orbs) {
        RunIsWholeIff(t, actions[1..], z);
      }
    }
  }

  // ---------------------------------------------------------------- where the conditions are needed

  /** Two files of one name in two old directories: the migration succeeds and one of them is lost. */
  lemma SameNameLosesOne(one: Bytes, two: Bytes, faults: nat -> Faults)
    requires one != two && forall n :: !faults(n).staleStays && !faults(n).noRename
    ensures var d := Disk(map[["a", "x"] := one, ["b", "x"] := two], {});
            var orbs := [InstalledOrb("1", "1", "1", ["a", "x"], "1"), InstalledOrb("2", "2", "2", ["b", "x"], "2")];
            var m := Migrate(d, orbs, [["a"], ["b"]], ["new"], faults);
            m.result.Ok? && !Kept(d, orbs, m.disk, m.orbs)
  {
    var d := Disk(map[["a", "x"] := one, ["b", "x"] := two], {});
    var orbs := [InstalledOrb("1", "1", "1", ["a", "x"], "1"), InstalledOrb("2", "2", "2", ["b", "x"], "2")];
    var oldDirs, newDir: Path := [["a"], ["b"]], ["new"];
    assert Under(orbs[0].zipPath, oldDirs[0]) && Under(orbs[1].zipPath, oldDirs[1]);
    assert |"a"| == |"b"| == 1 && orbs[0].zipPath[0] == "a" && orbs[1].zipPath[0] == "b" && newDir[0] == "new";
    TwoTargets(orbs, oldDirs, newDir);
    assert PrefixesOf(newDir) == {[], newDir};
    TwoMoves(CreateDirAll(d, newDir).value, ["a", "x"], ["b", "x"], newDir, faults);
    MigrationKeepsIff(d, orbs, oldDirs, newDir, faults);
    OnePlaceDisagrees(d, orbs, [["a", "x"], ["b", "x"]], newDir);
  }

  lemma OnePlaceDisagrees(d: Disk, orbs: seq<InstalledOrb>, targets: seq<Path>, newDir: Path)
    requires |orbs| == 2 && orbs[0].zipPath in targets && orbs[1].zipPath in targets
    requires Dest(newDir, orbs[0].zipPath) == Dest(newDir, orbs[1].zipPath) && Get(d, orbs[0].zipPath) != Get(d, orbs[1].zipPath)
    ensures !ClashesAgree(d, orbs, targets, newDir)
  {
    assert Repathed(orbs[0], targets, newDir).zipPath == Repathed(orbs[1], targets, newDir).zipPath;
  }

  lemma TwoTargets(orbs: seq<InstalledOrb>, oldDirs: seq<Path>, newDir: Path)
    requires |orbs| == 2 && Migrates(orbs[0].zipPath, oldDirs, newDir) && Migrates(orbs[1].zipPath, oldDirs, newDir)
    ensures Targets(orbs, oldDirs, newDir) == [orbs[0].zipPath, orbs[1].zipPath]
  {
    assert orbs[..1][..0] == [];
    assert Targets(orbs[..1], oldDirs, newDir) == [orbs[0].zipPath];
  }

  lemma TwoMoves(d: Disk, a: Path, b: Path, newDir: Path, faults: nat -> Faults)
    requires a != [] && b != [] && a != b && a in d.files && b in d.files && !Under(a, newDir) && !Under(b, newDir)
    requires Dest(newDir, a) == Dest(newDir, b) && Dest(newDir, a) !in d.dirs && Dest(newDir, a) !in d.files
    requires forall n :: !faults(n).staleStays && !faults(n).noRename
    ensures MoveAll(d, [a, b], newDir, faults).ok
  {
    var t: seq<Path> := [a, b];
    assert t[..1] == [a] && [a][..0] == [];
    var dest := Dest(newDir, a);
    assert a != dest && b != dest;
    var d1 := d.(files := (d.files - {a})[dest := d.files[a]]);
    assert MoveOne(d, a, newDir, faults(0)) == (d1, true);
    assert MoveAll(d, [a], newDir, faults) == Progress(d1, 1, true);
    assert MoveOne(d1, b, newDir, faults(1)).1;
  }

  /** One path registered twice: the second move clears the destination and then finds no source, so the migration
      fails and no rollback can bring the file back. */
  lemma RegisteredTwiceLosesIt(bytes: Bytes, faults: nat -> Faults)
    requires forall n :: faults(n) == Faults(false, false, None, false, false)
    ensures var d := Disk(map[["a", "x"] := bytes], {});
            var orbs := [InstalledOrb("1", "1", "1", ["a", "x"], "1"), InstalledOrb("2", "2", "2", ["a", "x"], "2")];
            var m := Migrate(d, orbs, [["a"]], ["new"], faults);
            m.result.Err? && Get(m.disk, ["a", "x"]) == None && Get(m.disk, ["new", "x"]) == None
  {
    var d := Disk(map[["a", "x"] := bytes], {});
    var orbs := [InstalledOrb("1", "1", "1", ["a", "x"], "1"), InstalledOrb("2", "2", "2", ["a", "x"], "2")];
    var a, newDir: Path := ["a", "x"], ["new"];
    var oldDirs: seq<Path> := [["a"]];
    assert Under(a, oldDirs[0]) && |"a"| == 1 && a[0] == "a" && newDir[0] == "new";
    TwoTargets(orbs, oldDirs, newDir);
    assert PrefixesOf(newDir) == {[], newDir};
    SameMoves(CreateDirAll(d, newDir).value, a, newDir, faults);
  }

  lemma SameMoves(d: Disk, a: Path, newDir: Path, faults: nat -> Faults)
    requires a != [] && !Under(a, newDir) && d.files.Keys == {a} && Dest(newDir, a) !in d.dirs
    requires forall n :: faults(n) == Faults(false, false, None, false, false)
    ensures var p := MoveAll(d, [a, a], newDir, faults);
            !p.ok && p.completed == 1 && RollBack(p.disk, [a, a], newDir, faults, 1).files == map[]
  {
    var t: seq<Path> := [a, a];
    assert t[..1] == [a] && [a][..0] == [];
    var dest := Dest(newDir, a);
    assert a != dest;
    var d1 := d.(files := map[dest := d.files[a]]);
    assert (d.files - {a})[dest := d.files[a]] == d1.files;
    assert MoveOne(d, a, newDir, faults(0)) == (d1, true);
    assert MoveAll(d, [a], newDir, faults) == Progress(d1, 1, true);
    assert d1.files - {dest} == map[];
    assert MoveOne(d1, a, newDir, faults(1)) == (d.(files := map[]), false);
    var p := MoveAll(d, t, newDir, faults);
    assert RollBack(p.disk, t, newDir, faults, 1) == RollBack(Undo(p.disk, a, newDir, faults(0)), t, newDir, faults, 0);
  }

  /** A re-import whose copy stops part way leaves the entry right only if the part has the hash, too. */
  lemma BrokenReimportKeepsIff(s: State, source: Path, n: nat, z: Zips, o: InstalledOrb)
    requires IsZips(z) && source in s.disk.files && z.validate(s.disk.files[source]).Some?
    requires o in s.orbs && o.zipPath == Target(s.orbsDir, z.sha(s.disk.files[source]))
    requires CreateDirAll(s.disk, s.orbsDir).Ok? && o.zipPath !in CreateDirAll(s.disk, s.orbsDir).value.dirs
    ensures var m := Import(s.disk, s.orbs, s.orbsDir, source, true, Some(Some(n)), z);
            m.result.Err? && o in m.orbs && (Holds(m.disk, o, z) <==> z.sha(Part(Read(s.disk, source, o.zipPath), n)) == o.zipSha256)
  {}

  /** Importing a stored ZIP from where it lies: it reports success, and the ZIP is gone. */
  lemma SelfImportEmptiesIt(s: State, source: Path, z: Zips)
    requires IsZips(z) && Sound(s.disk, s.orbs, z) && Writes(s, source, z) && source == Target(s.orbsDir, z.sha(s.disk.files[source]))
    ensures var m := Import(s.disk, s.orbs, s.orbsDir, source, true, None, z);
            && m.result == Ok(source) && Get(m.disk, source) == Some([]) && Registered(m.orbs, source)
            && (Sound(m.disk, m.orbs, z) <==> z.sha([]) == z.sha(s.disk.files[source]))
  {
    ImportKeepsIff(s, source, true, None, z);
  }

  /** A library deletion that stops half way leaves entries without files, unless it stopped at the first. */
  lemma FailedDeletionKeepsIff(d: Disk, orbs: seq<InstalledOrb>, dirs: seq<Path>, refuses: nat -> bool)
    requires Complete(d, orbs) && Delete(d, orbs, dirs, refuses).result.Err?
    ensures var m := Delete(d, orbs, dirs, refuses); m.orbs == orbs && (Complete(m.disk, m.orbs) <==> refuses(0))
  {
    var paths := PathsUnder(orbs, dirs);
    PathsAreRegistered(orbs, dirs);
    var i :| 0 <= i < |orbs| && orbs[i].zipPath == paths[0];
    assert orbs[i] in orbs;
    FirstDecides(d, paths, refuses);
  }

  lemma {:induction false} PathsAreRegistered(orbs: seq<InstalledOrb>, dirs: seq<Path>)
    ensures forall j :: 0 <= j < |PathsUnder(orbs, dirs)| ==> Registered(orbs, PathsUnder(orbs, dirs)[j])
  {
    if orbs != [] {
      var n := |orbs| - 1;
      PathsAreRegistered(orbs[..n], dirs);
      forall p | Registered(orbs[..n], p) ensures Registered(orbs, p) {
        var i :| 0 <= i < n && orbs[..n][i].zipPath == p;
        assert orbs[i].zipPath == p;
      }
      assert Registered(orbs, orbs[n].zipPath);
    }
  }

  lemma {:induction false} FirstDecides(d: Disk, paths: seq<Path>, refuses: nat -> bool)
    requires paths != [] && paths[0] in d.files
    ensures if refuses(0) then DeleteFiles(d, paths, refuses) == (d, false) else Get(DeleteFiles(d, paths, refuses).0, paths[0]) == None
  {
    var init := paths[..|paths| - 1];
    if |paths| > 1 {
      FirstDecides(d, init, refuses);
    } else {
      assert init == [];
    }
  }
}
