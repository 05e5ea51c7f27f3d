/** The registry store as an object over a disk, its methods with the source's loops, each equal to its function. */
module RegistryStores {
  import opened Wrappers
  import opened Prefixes
  import opened Registry
  import opened RegistryRollback
  import opened RegistryRuns

  class RegistryStore {
    const rootDir: Path
    var disk: Disk
    var orbs: seq<InstalledOrb>
    var orbsDirOverride: Option<Path>

    constructor (root: Path, d: Disk)
      ensures rootDir == root && disk == d && orbs == [] && OrbsDir() == root + ["Orbs"]
    {
      rootDir := root;
      disk := d;
      orbs := [];
      orbsDirOverride := None;
    }

    function OrbsDir(): Path
      reads this
    {
      if orbsDirOverride.Some? then orbsDirOverride.value else rootDir + ["Orbs"]
    }

    method SetOrbsDir(dir: Path)
      modifies this`orbsDirOverride
      ensures OrbsDir() == dir
    {
      orbsDirOverride := Some(dir);
    }

    method AnyMissing(targets: seq<Path>) returns (missing: bool)
      ensures missing <==> !AllPresent(disk, targets)
    {
      for i := 0 to |targets|
        invariant forall j :: 0 <= j < i ==> targets[j] in disk.files
      {
        if targets[i] !in disk.files {
          return true;
        }
      }
      missing := false;
    }

    /** The moving loop: stops at the first file that cannot be moved. */
    method MoveFiles(targets: seq<Path>, newDir: Path, faults: nat -> Faults) returns (completed: nat)
      modifies this`disk
      ensures MoveAll(old(disk), targets, newDir, faults) == Progress(disk, completed, completed == |targets|)
    {
      completed := 0;
      while completed < |targets|
        invariant completed <= |targets|
        invariant MoveAll(old(disk), targets[..completed], newDir, faults) == Progress(disk, completed, true)
        decreases |targets| - completed
      {
        assert targets[..completed + 1][..completed] == targets[..completed];
        var (d, ok) := MoveOne(disk, targets[completed], newDir, faults(completed));
        disk := d;
        if !ok {
          FailureStays(old(disk), targets, newDir, faults, completed + 1);
          TakeAll(targets);
          return;
        }
        completed := completed + 1;
      }
      TakeAll(targets);
    }

    /** The rollback loop, over the completed moves in reverse. */
    method UndoMoves(targets: seq<Path>, newDir: Path, faults: nat -> Faults, completed: nat)
      requires completed <= |targets|
      modifies this`disk
      ensures disk == RollBack(old(disk), targets, newDir, faults, completed)
    {
      var n: nat := completed;
      while n > 0
        invariant n <= completed
        invariant RollBack(disk, targets, newDir, faults, n) == RollBack(old(disk), targets, newDir, faults, completed)
      {
        disk := Undo(disk, targets[n - 1], newDir, faults(n - 1));
        n := n - 1;
      }
    }

    /** The nested loop over completed moves and entries. */
    method RewritePaths(targets: seq<Path>, newDir: Path)
      requires NoneUnder(targets, newDir)
      modifies this`orbs
      ensures orbs == Repath(old(orbs), targets, newDir)
    {
      for i := 0 to |targets|
        invariant orbs == Repath(old(orbs), targets[..i], newDir)
      {
        ghost var before := orbs;
        for j := 0 to |orbs|
          invariant |orbs| == |before|
          invariant forall k :: 0 <= k < j ==> orbs[k] == if before[k].zipPath == targets[i] then before[k].(zipPath := Dest(newDir, targets[i])) else before[k]
          invariant forall k :: j <= k < |before| ==> orbs[k] == before[k]
        {
          if orbs[j].zipPath == targets[i] {
            orbs := orbs[j := orbs[j].(zipPath := Dest(newDir, targets[i]))];
          }
        }
        TakeNext(targets, i);
        forall k | 0 <= k < |orbs| ensures orbs[k] == Repathed(old(orbs)[k], targets[..i + 1], newDir) {
          RepathNext(old(orbs)[k], targets, newDir, i);
        }
      }
      TakeAll(targets);
      assert orbs == Repath(old(orbs), targets, newDir);
    }

    method RemoveOldDirs(oldDirs: seq<Path>)
      modifies this`disk
      ensures disk == RemoveDirs(old(disk), oldDirs)
    {
      for i := 0 to |oldDirs|
        invariant disk == RemoveDirs(old(disk), oldDirs[..i])
      {
        assert oldDirs[..i + 1][..i] == oldDirs[..i];
        disk := RemoveDir(disk, oldDirs[i]);
      }
      TakeAll(oldDirs);
    }

    method MigrateOrbs(oldDirs: seq<Path>, newDir: Path, faults: nat -> Faults) returns (r: Result<nat, Failure>)
      modifies this`disk, this`orbs
      ensures Outcome(disk, orbs, r) == Migrate(old(disk), old(orbs), oldDirs, newDir, faults)
    {
      var targets := Targets(orbs, oldDirs, newDir);
      TargetsAre(orbs, oldDirs, newDir);
      var missing := AnyMissing(targets);
      if missing {
        return Err(MissingZip);
      }
      var created := CreateDirAll(disk, newDir);
      if created.Err? {
        return Err(CannotCreateDir);
      }
      disk := created.value;
      var completed := MoveFiles(targets, newDir, faults);
      if completed < |targets| {
        UndoMoves(targets, newDir, faults, completed);
        return Err(MoveFailed);
      }
      RewritePaths(targets, newDir);
      RemoveOldDirs(oldDirs);
      r := Ok(|targets|);
    }

    /** The deleting loop: passes over missing files, stops at the first that cannot be deleted. */
    method DeleteListed(paths: seq<Path>, refuses: nat -> bool) returns (ok: bool)
      modifies this`disk
      ensures (disk, ok) == DeleteFiles(old(disk), paths, refuses)
    {
      ok := true;
      for i := 0 to |paths|
        invariant (disk, true) == DeleteFiles(old(disk), paths[..i], refuses)
      {
        assert paths[..i + 1][..i] == paths[..i];
        if paths[i] in disk.files {
          if refuses(i) {
            DeletionStays(old(disk), paths, refuses, i + 1);
            TakeAll(paths);
            return false;
          }
          disk := disk.(files := disk.files - {paths[i]});
        }
      }
      TakeAll(paths);
    }

    method DeleteOrbs(oldDirs: seq<Path>, refuses: nat -> bool) returns (r: Result<nat, Failure>)
      modifies this`disk, this`orbs
      ensures Outcome(disk, orbs, r) == Delete(old(disk), old(orbs), oldDirs, refuses)
    {
      var paths := PathsUnder(orbs, oldDirs);
      var ok := DeleteListed(paths, refuses);
      if !ok {
        return Err(DeleteFailed);
      }
      orbs := Retained(orbs, oldDirs);
      RemoveOldDirs(oldDirs);
      r := Ok(|paths|);
    }

    method RemoveOrb(id: string, stuck: bool) returns (r: Result<InstalledOrb, Failure>)
      modifies this`disk, this`orbs
      ensures Outcome(disk, orbs, r) == Remove(old(disk), old(orbs), id, stuck)
    {
      var i := FindId(orbs, id);
      if i == |orbs| {
        return Err(NotInstalled);
      }
      var orb := orbs[i];
      if Exists(disk, orb.zipPath) {
        var removed := RemoveFile(disk, orb.zipPath);
        if stuck || removed.Err? {
          return Err(DeleteFailed);
        }
        disk := removed.value;
      }
      orbs := orbs[..i] + orbs[i + 1..];
      r := Ok(orb);
    }

    method ImportZip(source: Path, copyIn: bool, copyBreaks: Option<Option<nat>>, z: Zips) returns (r: Result<Path, Failure>)
      requires forall b :: |z.sha(b)| == 64
      modifies this`disk, this`orbs
      ensures Outcome(disk, orbs, r) == Import(old(disk), old(orbs), old(OrbsDir()), source, copyIn, copyBreaks, z)
    {
      if source !in disk.files {
        return Err(ReadFailed);
      }
      var bytes := disk.files[source];
      var report := z.validate(bytes);
      if report.None? {
        return Err(InvalidZip);
      }
      var stored := source;
      if copyIn {
        stored := Target(OrbsDir(), z.sha(bytes));
        var created := CreateDirAll(disk, OrbsDir());
        if created.Err? {
          return Err(CannotCreateDir);
        }
        disk := created.value;
        if stored in disk.dirs {
          return Err(CopyFailed);
        }
        if copyBreaks.Some? {
          if copyBreaks.value.Some? {
            disk := disk.(files := disk.files[stored := Part(Read(disk, source, stored), copyBreaks.value.value)]);
          }
          return Err(CopyFailed);
        }
        disk := Copied(disk, source, stored);
      }
      orbs := Upsert(orbs, Entry(z, bytes, report.value, stored));
      r := Ok(stored);
    }
  }

  lemma {:induction false} DeletionStays(d: Disk, paths: seq<Path>, refuses: nat -> bool, n: nat)
    requires n <= |paths| && !DeleteFiles(d, paths[..n], refuses).1
    ensures DeleteFiles(d, paths, refuses) == DeleteFiles(d, paths[..n], refuses)
    decreases |paths|
  {
    if n == |paths| {
      TakeAll(paths);
    } else {
      var init := paths[..|paths| - 1];
      assert init[..n] == paths[..n];
      DeletionStays(d, init, refuses, n);
    }
  }

  /** One more completed move rewrites exactly the entries with its source path. */
  lemma RepathNext(o: InstalledOrb, targets: seq<Path>, newDir: Path, i: nat)
    requires NoneUnder(targets, newDir) && i < |targets|
    ensures var before := Repathed(o, targets[..i], newDir);
            Repathed(o, targets[..i + 1], newDir) == if before.zipPath == targets[i] then before.(zipPath := Dest(newDir, targets[i])) else before
  {}
}
