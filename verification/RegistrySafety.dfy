/** Which calls keep every registered ZIP whatever goes wrong in them: conditions a caller can check before the call. */
module RegistrySafety {
  import opened Wrappers
  import opened Registry
  import opened RegistryRollback
  import opened RegistryRuns
  import opened RegistryTheorems

  // ---------------------------------------------------------------- deletion

  /** However a library deletion fails, every entry's path holds what it held. */
  ghost predicate DeletionSafe(d: Disk, orbs: seq<InstalledOrb>, dirs: seq<Path>) {
    forall refuses: nat -> bool :: Delete(d, orbs, dirs, refuses).result.Err? ==>
      Kept(d, orbs, Delete(d, orbs, dirs, refuses).disk, orbs)
  }

  /** At most one of the paths is a file. */
  predicate OneFile(d: Disk, paths: seq<Path>) {
    forall i, j :: 0 <= i < |paths| && 0 <= j < |paths| && paths[i] in d.files && paths[j] in d.files ==> paths[i] == paths[j]
  }

  /** That is so if and only if there is at most one file to delete. */
  lemma DeletionSafeIff(d: Disk, orbs: seq<InstalledOrb>, dirs: seq<Path>)
    ensures DeletionSafe(d, orbs, dirs) <==> OneFile(d, PathsUnder(orbs, dirs))
  {
    var paths := PathsUnder(orbs, dirs);
    if OneFile(d, paths) {
      forall refuses: nat -> bool | Delete(d, orbs, dirs, refuses).result.Err?
        ensures Kept(d, orbs, Delete(d, orbs, dirs, refuses).disk, orbs)
      {
        OneDeletes(d, paths, refuses);
      }
    } else {
      var i, j := FirstTwo(d, paths);
      var refuses := AllBut(paths, paths[i]);
      RefusedFails(d, paths, refuses, j);
      FirstGoes(d, paths, refuses, i);
      PathsAreRegistered(orbs, dirs);
      var a :| 0 <= a < |orbs| && orbs[a].zipPath == paths[i];
      assert !Kept(d, orbs, Delete(d, orbs, dirs, refuses).disk, orbs);
    }
  }

  /** The file system refuses to delete any file but this one. */
  function AllBut(paths: seq<Path>, path: Path): nat -> bool {
    (n: nat) => n < |paths| ==> paths[n] != path
  }

  lemma FirstFile(d: Disk, paths: seq<Path>) returns (i: nat)
    requires exists k :: 0 <= k < |paths| && paths[k] in d.files
    ensures i < |paths| && paths[i] in d.files && forall k :: 0 <= k < i ==> paths[k] !in d.files
  {
    i := 0;
    while paths[i] !in d.files
      invariant i < |paths| && forall k :: 0 <= k < i ==> paths[k] !in d.files
      decreases |paths| - i
    {
      i := i + 1;
    }
  }

  /** The first file and another one. */
  lemma FirstTwo(d: Disk, paths: seq<Path>) returns (i: nat, j: nat)
    requires !OneFile(d, paths)
    ensures i < |paths| && j < |paths| && paths[i] in d.files && paths[j] in d.files && paths[i] != paths[j]
    ensures forall k :: 0 <= k < i ==> paths[k] !in d.files
  {
    i := FirstFile(d, paths);
    if forall k :: 0 <= k < |paths| && paths[k] in d.files ==> paths[k] == paths[i] {
      assert OneFile(d, paths);
    }
    j :| 0 <= j < |paths| && paths[j] in d.files && paths[j] != paths[i];
  }

  lemma {:induction false} RefusedStay(d: Disk, paths: seq<Path>, refuses: nat -> bool, q: Path)
    requires forall k :: 0 <= k < |paths| && paths[k] == q ==> refuses(k)
    ensures Get(DeleteFiles(d, paths, refuses).0, q) == Get(d, q)
  {
    if paths != [] {
      RefusedStay(d, paths[..|paths| - 1], refuses, q);
    }
  }

  lemma {:induction false} RefusedFails(d: Disk, paths: seq<Path>, refuses: nat -> bool, j: nat)
    requires j < |paths| && paths[j] in d.files && forall k :: 0 <= k < |paths| && paths[k] == paths[j] ==> refuses(k)
    ensures !DeleteFiles(d, paths, refuses).1
  {
    var init := paths[..|paths| - 1];
    RefusedStay(d, init, refuses, paths[j]);
    if j < |init| {
      RefusedFails(d, init, refuses, j);
    }
  }

  lemma {:induction false} NothingToDelete(d: Disk, paths: seq<Path>, refuses: nat -> bool)
    requires forall k :: 0 <= k < |paths| ==> paths[k] !in d.files
    ensures DeleteFiles(d, paths, refuses) == (d, true)
  {
    if paths != [] {
      NothingToDelete(d, paths[..|paths| - 1], refuses);
    }
  }

  lemma {:induction false} FirstGoes(d: Disk, paths: seq<Path>, refuses: nat -> bool, i: nat)
    requires i < |paths| && paths[i] in d.files && forall k :: 0 <= k < i ==> paths[k] !in d.files
    ensures if refuses(i) then DeleteFiles(d, paths, refuses) == (d, false) else Get(DeleteFiles(d, paths, refuses).0, paths[i]) == None
  {
    var init := paths[..|paths| - 1];
    if i < |init| {
      FirstGoes(d, init, refuses, i);
    } else {
      NothingToDelete(d, init, refuses);
    }
  }

  /** One file is deleted, or the deletion fails before it has done anything. */
  lemma {:induction false} OneDeletes(d: Disk, paths: seq<Path>, refuses: nat -> bool)
    requires OneFile(d, paths)
    ensures DeleteFiles(d, paths, refuses).1 || DeleteFiles(d, paths, refuses).0 == d
  {
    if paths != [] {
      var n := |paths| - 1;
      OneDeletes(d, paths[..n], refuses);
      if paths[n] in d.files && exists k :: 0 <= k < n && paths[k] in d.files {
        var i := FirstFile(d, paths[..n]);
        FirstGoes(d, paths[..n], refuses, i);
        assert paths[i] == paths[n];
      } else if paths[n] in d.files {
        NothingToDelete(d, paths[..n], refuses);
      } else {
        DeleteFilesEffect(d, paths[..n], refuses);
        assert Get(d, paths[n]) == None;
      }
    }
  }

  // ---------------------------------------------------------------- any call, any fault

  /** An operation as its caller sees it, before anything goes wrong. */
  datatype Call =
    | ImportCall(source: Path, copyIn: bool)
    | RemoveCall(id: string)
    | MigrateCall(oldDirs: seq<Path>, newDir: Path)
    | DeleteCall(dirs: seq<Path>)
    | SetOrbsDirCall(dir: Path)
    | PutCall(path: Path, bytes: Bytes)

  function CallOf(a: Action): Call {
    match a
    case ImportZip(source, copyIn, _) => ImportCall(source, copyIn)
    case RemoveOrb(id, _) => RemoveCall(id)
    case MigrateLibrary(oldDirs, newDir, _) => MigrateCall(oldDirs, newDir)
    case DeleteLibrary(dirs, _) => DeleteCall(dirs)
    case SetOrbsDir(dir) => SetOrbsDirCall(dir)
    case PutFile(path, bytes) => PutCall(path, bytes)
  }

  /** Every registered path holds the bytes its hash names. */
  ghost predicate Whole(s: State, z: Zips) {
    Sound(s.disk, s.orbs, z) && Complete(s.disk, s.orbs)
  }

  ghost predicate KeepsWhole(s: State, c: Call, z: Zips)
    requires IsZips(z)
  {
    forall a: Action :: CallOf(a) == c ==> Whole(Step(s, a, z), z)
  }

  /** An import does not copy a stored ZIP onto itself or over a registered one, unless nothing it may leave there is wrong. */
  ghost predicate SafeImport(s: State, source: Path, copyIn: bool, z: Zips) {
    if copyIn then
      Writes(s, source, z) ==>
        var sha := z.sha(s.disk.files[source]);
        var target := Target(s.orbsDir, sha);
        && (source != target || z.sha([]) == sha)
        && (!Registered(s.orbs, target) || forall n: nat :: z.sha(Part(Read(s.disk, source, target), n)) == sha)
    else ImportSafe(s, source, false, None, z)
  }

  /** What a caller can check before the call: at most one file to move or to delete, or none that could be moved. */
  ghost predicate SafeCall(s: State, c: Call, z: Zips) {
    match c
    case ImportCall(source, copyIn) => SafeImport(s, source, copyIn, z)
    case MigrateCall(oldDirs, newDir) => Starts(s.disk, s.orbs, oldDirs, newDir) ==> !MayStrand(s.disk, s.orbs, oldDirs, newDir)
    case DeleteCall(dirs) => OneFile(s.disk, PathsUnder(s.orbs, dirs))
    case PutCall(path, bytes) => Careful(s, PutFile(path, bytes), z)
    case _ => true
  }

  /** A call keeps every registered ZIP, whatever goes wrong in it, if and only if it is a safe one. */
  lemma KeepsWholeIff(s: State, c: Call, z: Zips)
    requires IsZips(z) && Whole(s, z)
    ensures KeepsWhole(s, c, z) <==> SafeCall(s, c, z)
  {
    match c
    case ImportCall(source, copyIn) => ImportKeepsWholeIff(s, source, copyIn, z);
    case MigrateCall(oldDirs, newDir) => MigrateKeepsWholeIff(s, oldDirs, newDir, z);
    case DeleteCall(dirs) => DeleteKeepsWholeIff(s, dirs, z);
    case RemoveCall(id) =>
      forall a: Action | CallOf(a) == c ensures Whole(Step(s, a, z), z) { StepKeepsIff(s, a, z); }
    case SetOrbsDirCall(dir) =>
      forall a: Action | CallOf(a) == c ensures Whole(Step(s, a, z), z) { StepKeepsIff(s, a, z); }
    case PutCall(path, bytes) =>
      StepKeepsIff(s, PutFile(path, bytes), z);
      forall a: Action | CallOf(a) == c ensures a == PutFile(path, bytes) {}
      assert CallOf(PutFile(path, bytes)) == c;
  }

  lemma ImportKeepsWholeIff(s: State, source: Path, copyIn: bool, z: Zips)
    requires IsZips(z) && Whole(s, z)
    ensures KeepsWhole(s, ImportCall(source, copyIn), z) <==> SafeImport(s, source, copyIn, z)
  {
    var c := ImportCall(source, copyIn);
    if SafeImport(s, source, copyIn, z) {
      forall a: Action | CallOf(a) == c ensures Whole(Step(s, a, z), z) {
        StepKeepsIff(s, a, z);
      }
    } else {
      var a := ImportZip(source, copyIn, None);
      StepKeepsIff(s, a, z);
      assert CallOf(a) == c;
      if Careful(s, a, z) {
        var target := Target(s.orbsDir, z.sha(s.disk.files[source]));
        var n: nat :| z.sha(Part(Read(s.disk, source, target), n)) != z.sha(s.disk.files[source]);
        var b := ImportZip(source, copyIn, Some(Some(n)));
        StepKeepsIff(s, b, z);
        assert CallOf(b) == c;
      }
    }
  }

  lemma MigrateKeepsWholeIff(s: State, oldDirs: seq<Path>, newDir: Path, z: Zips)
    requires IsZips(z) && Whole(s, z)
    ensures KeepsWhole(s, MigrateCall(oldDirs, newDir), z) <==> SafeCall(s, MigrateCall(oldDirs, newDir), z)
  {
    var c := MigrateCall(oldDirs, newDir);
    MigrationSafeIff(s.disk, s.orbs, oldDirs, newDir);
    if Starts(s.disk, s.orbs, oldDirs, newDir) {
      HashNamesDoNotClash(s.disk, s.orbs, oldDirs, newDir, |Reached(s.disk, s.orbs, oldDirs, newDir)|);
    }
    if SafeCall(s, c, z) {
      forall a: Action | CallOf(a) == c ensures Whole(Step(s, a, z), z) {
        SafeMigrationIsWhole(s, oldDirs, newDir, a.faults, z);
      }
    } else {
      UnsafeMigrationIsNot(s, oldDirs, newDir, z);
    }
  }

  lemma UnsafeMigrationIsNot(s: State, oldDirs: seq<Path>, newDir: Path, z: Zips)
    requires IsZips(z) && Whole(s, z) && !MigrationSafe(s.disk, s.orbs, oldDirs, newDir)
    ensures !KeepsWhole(s, MigrateCall(oldDirs, newDir), z)
  {
    var faults: nat -> Faults :| Migrate(s.disk, s.orbs, oldDirs, newDir, faults).result.Err?
      && !Kept(s.disk, s.orbs, Migrate(s.disk, s.orbs, oldDirs, newDir, faults).disk, s.orbs);
    MigrateKeeps(s.disk, s.orbs, oldDirs, newDir, faults, z);
    assert CallOf(MigrateLibrary(oldDirs, newDir, faults)) == MigrateCall(oldDirs, newDir);
    assert !Whole(Step(s, MigrateLibrary(oldDirs, newDir, faults), z), z);
  }

  lemma SafeMigrationIsWhole(s: State, oldDirs: seq<Path>, newDir: Path, faults: nat -> Faults, z: Zips)
    requires IsZips(z) && Whole(s, z) && MigrationSafe(s.disk, s.orbs, oldDirs, newDir)
    ensures Whole(Step(s, MigrateLibrary(oldDirs, newDir, faults), z), z)
  {
    MigrateKeeps(s.disk, s.orbs, oldDirs, newDir, faults, z);
    if Migrate(s.disk, s.orbs, oldDirs, newDir, faults).result.Err? {
      KeptIsComplete(s.disk, s.orbs, Migrate(s.disk, s.orbs, oldDirs, newDir, faults).disk);
    }
  }

  lemma KeptIsComplete(d: Disk, orbs: seq<InstalledOrb>, d': Disk)
    requires Complete(d, orbs) && Kept(d, orbs, d', orbs)
    ensures Complete(d', orbs)
  {
    forall o | o in orbs ensures o.zipPath in d'.files {
      var a :| 0 <= a < |orbs| && orbs[a] == o;
      assert Get(d', orbs[a].zipPath) == Get(d, orbs[a].zipPath);
    }
  }

  lemma DeleteKeepsWholeIff(s: State, dirs: seq<Path>, z: Zips)
    requires IsZips(z) && Whole(s, z)
    ensures KeepsWhole(s, DeleteCall(dirs), z) <==> SafeCall(s, DeleteCall(dirs), z)
  {
    var c := DeleteCall(dirs);
    DeletionSafeIff(s.disk, s.orbs, dirs);
    if SafeCall(s, c, z) {
      forall a: Action | CallOf(a) == c ensures Whole(Step(s, a, z), z) {
        DeleteKeeps(s.disk, s.orbs, dirs, a.refuses, z);
        if Delete(s.disk, s.orbs, dirs, a.refuses).result.Err? {
          KeptIsComplete(s.disk, s.orbs, Delete(s.disk, s.orbs, dirs, a.refuses).disk);
        }
      }
    } else {
      var refuses: nat -> bool :| Delete(s.disk, s.orbs, dirs, refuses).result.Err?
        && !Kept(s.disk, s.orbs, Delete(s.disk, s.orbs, dirs, refuses).disk, s.orbs);
      NotKeptIsIncomplete(s.disk, s.orbs, dirs, refuses);
      assert CallOf(DeleteLibrary(dirs, refuses)) == c;
      assert !Whole(Step(s, DeleteLibrary(dirs, refuses), z), z);
    }
  }

  lemma NotKeptIsIncomplete(d: Disk, orbs: seq<InstalledOrb>, dirs: seq<Path>, refuses: nat -> bool)
    requires Complete(d, orbs) && Delete(d, orbs, dirs, refuses).result.Err?
    requires !Kept(d, orbs, Delete(d, orbs, dirs, refuses).disk, orbs)
    ensures !Complete(Delete(d, orbs, dirs, refuses).disk, orbs)
  {
    DeleteFilesEffect(d, PathsUnder(orbs, dirs), refuses);
    var d' := Delete(d, orbs, dirs, refuses).disk;
    var a :| 0 <= a < |orbs| && Get(d', orbs[a].zipPath) != Get(d, orbs[a].zipPath);
    assert orbs[a] in orbs && Get(d', orbs[a].zipPath) == None;
  }

  // ---------------------------------------------------------------- any run, any faults

  /** Whatever goes wrong in these calls, every state on the way is whole. */
  ghost predicate WholeWhatever(s: State, calls: seq<Call>, z: Zips)
    requires IsZips(z)
    decreases |calls|
  {
    Whole(s, z) && (calls != [] ==> forall a: Action :: CallOf(a) == calls[0] ==> WholeWhatever(Step(s, a, z), calls[1..], z))
  }

  /** Whatever went wrong before, each call is safe when it is made. */
  ghost predicate SafeWhatever(s: State, calls: seq<Call>, z: Zips)
    requires IsZips(z)
    decreases |calls|
  {
    calls != [] ==>
      SafeCall(s, calls[0], z) && forall a: Action :: CallOf(a) == calls[0] ==> SafeWhatever(Step(s, a, z), calls[1..], z)
  }

  lemma {:induction false} WholeWhateverIff(s: State, calls: seq<Call>, z: Zips)
    requires IsZips(z) && Whole(s, z)
    ensures WholeWhatever(s, calls, z) <==> SafeWhatever(s, calls, z)
    decreases |calls|
  {
    if calls != [] {
      KeepsWholeIff(s, calls[0], z);
      if SafeCall(s, calls[0], z) {
        forall a: Action | CallOf(a) == calls[0]
          ensures WholeWhatever(Step(s, a, z), calls[1..], z) <==> SafeWhatever(Step(s, a, z), calls[1..], z)
        {
          WholeWhateverIff(Step(s, a, z), calls[1..], z);
        }
      } else {
        var a: Action :| CallOf(a) == calls[0] && !Whole(Step(s, a, z), z);
        assert !WholeWhatever(Step(s, a, z), calls[1..], z);
      }
    }
  }

  // ---------------------------------------------------------------- the old directories

  /** A successful migration removes an old directory that held nothing but what it moved, and leaves one that held more. */
  lemma MigrationClearsOldDir(d: Disk, orbs: seq<InstalledOrb>, oldDirs: seq<Path>, newDir: Path, faults: nat -> Faults, p: Path)
    requires Migrate(d, orbs, oldDirs, newDir, faults).result.Ok? && p in d.dirs && !Under(newDir, p)
    ensures var m := Migrate(d, orbs, oldDirs, newDir, faults);
            var targets := Targets(orbs, oldDirs, newDir);
            && (p in oldDirs && (forall q :: q in d.files && p < q ==> q in targets) && (forall q :: q in d.dirs ==> !(p < q)) ==> p !in m.disk.dirs)
            && (p !in oldDirs || (exists q :: q in d.files && p < q && q !in targets) ==> p in m.disk.dirs)
  {
    var targets := Targets(orbs, oldDirs, newDir);
    var d1 := CreateDirAll(d, newDir).value;
    var moved := MoveAll(d1, targets, newDir, faults).disk;
    TargetsAre(orbs, oldDirs, newDir);
    MoveAllDirs(d1, targets, newDir, faults);
    RemovedDirsAre(moved, oldDirs, p);
    RemoveDirsKeepsFiles(moved, oldDirs);
    CreatedAreAbove(newDir);
    forall q | p < q
      ensures q !in PrefixesOf(newDir) && !IsDest(q, targets, newDir)
      ensures q in moved.files <==> q in d.files && q !in targets
    {
      FilesBelow(d1, targets, newDir, faults, p, q);
    }
  }

  lemma {:induction false} CreatedAreAbove(dir: Path)
    ensures forall q :: q in PrefixesOf(dir) ==> q <= dir
  {
    if dir != [] {
      CreatedAreAbove(dir[..|dir| - 1]);
    }
  }

  /** Below a directory that the new one is not under, the moves only take files away. */
  lemma FilesBelow(d: Disk, targets: seq<Path>, newDir: Path, faults: nat -> Faults, p: Path, q: Path)
    requires NoneUnder(targets, newDir) && MoveAll(d, targets, newDir, faults).ok && !Under(newDir, p) && p < q
    ensures q !in PrefixesOf(newDir) && !IsDest(q, targets, newDir)
    ensures q in MoveAll(d, targets, newDir, faults).disk.files <==> q in d.files && q !in targets
  {
    var moved := MoveAll(d, targets, newDir, faults).disk;
    CreatedAreAbove(newDir);
    forall i | 0 <= i < |targets| ensures q != Dest(newDir, targets[i]) {
      assert Dest(newDir, targets[i])[..|newDir|] == newDir;
    }
    if q in targets {
      var i :| 0 <= i < |targets| && targets[i] == q;
      MoveAllEmpties(d, targets, newDir, faults, i);
    } else {
      MoveAllFrame(d, targets, newDir, faults, q);
    }
    assert q in moved.files <==> Get(moved, q).Some?;
    assert q in d.files <==> Get(d, q).Some?;
  }

  // ---------------------------------------------------------------- when the list cannot be saved

  /** All went well but the final save: the old list stands over the new disk. That keeps every entry only if nothing moved. */
  lemma UnsavedMigrationKeepsIff(d: Disk, orbs: seq<InstalledOrb>, oldDirs: seq<Path>, newDir: Path, faults: nat -> Faults)
    requires Migrate(d, orbs, oldDirs, newDir, faults).result.Ok?
    ensures Kept(d, orbs, Migrate(d, orbs, oldDirs, newDir, faults).disk, orbs) <==> Targets(orbs, oldDirs, newDir) == []
  {
    var d1, targets := CreateDirAll(d, newDir).value, Targets(orbs, oldDirs, newDir);
    RemoveDirsKeepsFiles(MoveAll(d1, targets, newDir, faults).disk, oldDirs);
    if targets != [] {
      TargetsAre(orbs, oldDirs, newDir);
      MoveAllEmpties(d1, targets, newDir, faults, 0);
      var a := TargetOrb(orbs, oldDirs, newDir, 0);
      assert targets[0] in d.files && Get(Migrate(d, orbs, oldDirs, newDir, faults).disk, orbs[a].zipPath) == None;
    }
  }

  /** The same of a deletion: only if there was no file to delete. */
  lemma UnsavedDeletionKeepsIff(d: Disk, orbs: seq<InstalledOrb>, dirs: seq<Path>, refuses: nat -> bool)
    requires Delete(d, orbs, dirs, refuses).result.Ok?
    ensures Kept(d, orbs, Delete(d, orbs, dirs, refuses).disk, orbs) <==> forall p :: p in PathsUnder(orbs, dirs) ==> p !in d.files
  {
    var paths := PathsUnder(orbs, dirs);
    DeleteFilesEffect(d, paths, refuses);
    RemoveDirsKeepsFiles(DeleteFiles(d, paths, refuses).0, dirs);
    if i :| 0 <= i < |paths| && paths[i] in d.files {
      PathsAreRegistered(orbs, dirs);
      var a :| 0 <= a < |orbs| && orbs[a].zipPath == paths[i];
      assert Get(Delete(d, orbs, dirs, refuses).disk, orbs[a].zipPath) == None;
    }
  }

  /** And of a removal. */
  lemma UnsavedRemovalKeepsIff(d: Disk, orbs: seq<InstalledOrb>, id: string, stuck: bool)
    requires Remove(d, orbs, id, stuck).result.Ok?
    ensures Kept(d, orbs, Remove(d, orbs, id, stuck).disk, orbs) <==> Remove(d, orbs, id, stuck).result.value.zipPath !in d.files
  {
    var i, d' := FindId(orbs, id), Remove(d, orbs, id, stuck).disk;
    assert Get(d', orbs[i].zipPath) == None;
    forall a | 0 <= a < |orbs| ensures orbs[a].zipPath != orbs[i].zipPath ==> Get(d', orbs[a].zipPath) == Get(d, orbs[a].zipPath) {}
  }

  /** An import whose entry is not saved changes no registered path, but the one it copied over. */
  lemma UnsavedImportKeepsIff(s: State, source: Path, copyIn: bool, z: Zips)
    requires IsZips(z) && ShasDistinct(s.orbs)
    requires Import(s.disk, s.orbs, s.orbsDir, source, copyIn, None, z).result.Ok?
    ensures var m := Import(s.disk, s.orbs, s.orbsDir, source, copyIn, None, z);
            var target := m.result.value;
            Kept(s.disk, s.orbs, m.disk, s.orbs) <==>
              !copyIn || !Registered(s.orbs, target) || Get(s.disk, target) == Some(Read(s.disk, source, target))
  {}
}
