/** The Orb registry over a disk: migration with rollback, import, removal and deletion, as functions on values. */
module Registry {
  import opened Wrappers

  /** An absolute path, as its components. */
  type Path = seq<string>

  type Bytes = seq<bv8>

  datatype Disk = Disk(files: map<Path, Bytes>, dirs: set<Path>)

  /**
   What the file system may do wrong while one file is moved, and while that move is undone. A copy that breaks off has
   not opened its destination, or has written that many bytes.
   */
  datatype Faults = Faults(staleStays: bool, noRename: bool, copyBreaks: Option<Option<nat>>, sourceStays: bool, noRollback: bool)

  datatype InstalledOrb = InstalledOrb(id: string, slug: string, displayName: string, zipPath: Path, zipSha256: string)

  datatype Failure = MissingZip | CannotCreateDir | MoveFailed | DeleteFailed | NotInstalled | InvalidZip | CopyFailed | ReadFailed

  // ---------------------------------------------------------------- the disk

  predicate IsDisk(d: Disk) {
    d.files.Keys !! d.dirs
  }

  function Get(d: Disk, p: Path): Option<Bytes> {
    if p in d.files then Some(d.files[p]) else None
  }

  predicate Exists(d: Disk, p: Path) {
    p in d.files || p in d.dirs
  }

  predicate Under(p: Path, dir: Path) {
    dir <= p
  }

  function RemoveFile(d: Disk, p: Path): Result<Disk, ()> {
    if p in d.files then Ok(d.(files := d.files - {p})) else Err(())
  }

  /** Replaces a file at the destination, not a directory. */
  function Rename(d: Disk, src: Path, dest: Path): Result<Disk, ()> {
    if src !in d.files || dest in d.dirs then Err(()) else Ok(d.(files := (d.files - {src})[dest := d.files[src]]))
  }

  function PrefixesOf(dir: Path): set<Path> {
    if dir == [] then {[]} else PrefixesOf(dir[..|dir| - 1]) + {dir}
  }

  function CreateDirAll(d: Disk, dir: Path): Result<Disk, ()> {
    if PrefixesOf(dir) !! d.files.Keys then Ok(d.(dirs := d.dirs + PrefixesOf(dir))) else Err(())
  }

  /** Nothing may be below a directory that is removed; failures are ignored. */
  function RemoveDir(d: Disk, dir: Path): Disk {
    if (exists p :: p in d.files && dir < p) || (exists p :: p in d.dirs && dir < p) then d else d.(dirs := d.dirs - {dir})
  }

  function RemoveDirs(d: Disk, dirs: seq<Path>): Disk {
    if dirs == [] then d else RemoveDir(RemoveDirs(d, dirs[..|dirs| - 1]), dirs[|dirs| - 1])
  }

  lemma {:induction false} RemoveDirsKeepsFiles(d: Disk, dirs: seq<Path>)
    ensures RemoveDirs(d, dirs).files == d.files && RemoveDirs(d, dirs).dirs <= d.dirs
  {
    if dirs != [] {
      RemoveDirsKeepsFiles(d, dirs[..|dirs| - 1]);
    }
  }

  /** A path is under a directory if it continues it, component by component. */
  lemma UnderIff(p: Path, dir: Path)
    ensures Under(p, dir) <==> exists rest: Path :: p == dir + rest
  {
    if Under(p, dir) {
      assert p == dir + p[|dir|..];
    }
  }

  predicate IsEmptyDir(d: Disk, dir: Path) {
    (forall p :: p in d.files ==> !(dir < p)) && (forall p :: p in d.dirs ==> !(dir < p))
  }

  /** Of the old directories those that are empty go, and no other: what goes is empty then, and what is empty goes. */
  lemma {:induction false} RemovedDirsAre(d: Disk, dirs: seq<Path>, p: Path)
    requires p in d.dirs
    ensures p !in RemoveDirs(d, dirs).dirs ==> p in dirs && IsEmptyDir(RemoveDirs(d, dirs), p)
    ensures p in dirs && IsEmptyDir(d, p) ==> p !in RemoveDirs(d, dirs).dirs
  {
    if dirs != [] {
      var n := |dirs| - 1;
      RemovedDirsAre(d, dirs[..n], p);
      RemoveDirsKeepsFiles(d, dirs[..n]);
      RemoveDirsKeepsFiles(d, dirs);
      assert p in dirs ==> p in dirs[..n] || p == dirs[n];
    }
  }

  // ---------------------------------------------------------------- moving one file

  /** What a copy has written when it breaks off. */
  function Part(bytes: Bytes, n: nat): (r: Bytes)
    ensures r <= bytes && (n <= |bytes| ==> |r| == n) && (n >= |bytes| ==> r == bytes)
  {
    bytes[..if n < |bytes| then n else |bytes|]
  }

  /** Rename, or copy and remove where renaming fails. */
  function MoveFile(d: Disk, src: Path, dest: Path, f: Faults): (Disk, bool) {
    if !f.noRename && Rename(d, src, dest).Ok? then (Rename(d, src, dest).value, true)
    else if src !in d.files || dest in d.dirs then (d, false)
    else if f.copyBreaks.Some? then (if f.copyBreaks.value.Some? then d.(files := d.files[dest := Part(d.files[src], f.copyBreaks.value.value)]) else d, false)
    else
      var copied := d.(files := d.files[dest := d.files[src]]);
      if f.sourceStays then (copied, false) else (copied.(files := copied.files - {src}), true)
  }

  function Dest(newDir: Path, src: Path): Path {
    newDir + [if src == [] then "" else src[|src| - 1]]
  }

  /** One turn of the migration loop: clear the destination, then move. */
  function MoveOne(d: Disk, src: Path, newDir: Path, f: Faults): (Disk, bool) {
    var dest := Dest(newDir, src);
    if src == [] then (d, false)
    else if !Exists(d, dest) then MoveFile(d, src, dest, f)
    else if f.staleStays || RemoveFile(d, dest).Err? then (d, false)
    else MoveFile(RemoveFile(d, dest).value, src, dest, f)
  }

  lemma MoveOneEffect(d: Disk, src: Path, newDir: Path, f: Faults)
    requires !Under(src, newDir)
    ensures var (d', ok) := MoveOne(d, src, newDir, f); var dest := Dest(newDir, src);
            && d'.dirs == d.dirs
            && (forall q :: q != src && q != dest ==> Get(d', q) == Get(d, q))
            && (ok ==> src in d.files && dest !in d.dirs && Get(d', src) == None && Get(d', dest) == Get(d, src))
            && (!ok ==> Get(d', src) == Get(d, src))
            && (IsDisk(d) ==> IsDisk(d'))
  {}

  /** A file is moved if it is there with a name, its place can be cleared, and it can be renamed, or copied and then removed. */
  lemma MoveOneIff(d: Disk, src: Path, newDir: Path, f: Faults)
    requires IsDisk(d) && !Under(src, newDir)
    ensures var dest := Dest(newDir, src);
            MoveOne(d, src, newDir, f).1 <==>
              && src != [] && src in d.files && dest !in d.dirs && (dest in d.files ==> !f.staleStays)
              && (!f.noRename || (f.copyBreaks.None? && !f.sourceStays))
  {}

  /** What a move that fails leaves at its destination: what was there, nothing, what the copy wrote, or a whole copy. */
  lemma FailedMoveLeaves(d: Disk, src: Path, newDir: Path, f: Faults)
    requires IsDisk(d) && !Under(src, newDir) && src != [] && src in d.files && !MoveOne(d, src, newDir, f).1
    ensures var dest := Dest(newDir, src);
            Get(MoveOne(d, src, newDir, f).0, dest) ==
              if dest in d.dirs || (dest in d.files && f.staleStays) then Get(d, dest)
              else if f.copyBreaks.None? then Get(d, src)
              else if f.copyBreaks.value.None? then None
              else Some(Part(d.files[src], f.copyBreaks.value.value))
  {}

  // ---------------------------------------------------------------- the migration

  /** How far the moves got, the disk as it then is, and whether all went well. */
  datatype Progress = Progress(disk: Disk, completed: nat, ok: bool)

  function MoveAll(d: Disk, targets: seq<Path>, newDir: Path, faults: nat -> Faults): (p: Progress)
    ensures p.completed <= |targets| && (p.ok <==> p.completed == |targets|)
  {
    if targets == [] then Progress(d, 0, true)
    else
      var n := |targets| - 1;
      var p := MoveAll(d, targets[..n], newDir, faults);
      if !p.ok then p
      else
        var (d', ok) := MoveOne(p.disk, targets[n], newDir, faults(n));
        Progress(d', if ok then n + 1 else n, ok)
  }

  function Undo(d: Disk, src: Path, newDir: Path, f: Faults): Disk {
    if !f.noRollback && Rename(d, Dest(newDir, src), src).Ok? then Rename(d, Dest(newDir, src), src).value else d
  }

  /** Undoes the first n moves, the last one first. */
  function RollBack(d: Disk, targets: seq<Path>, newDir: Path, faults: nat -> Faults, n: nat): Disk
    requires n <= |targets|
    decreases n
  {
    if n == 0 then d else RollBack(Undo(d, targets[n - 1], newDir, faults(n - 1)), targets, newDir, faults, n - 1)
  }

  predicate UnderAny(p: Path, dirs: seq<Path>) {
    exists i :: 0 <= i < |dirs| && Under(p, dirs[i])
  }

  predicate Migrates(p: Path, oldDirs: seq<Path>, newDir: Path) {
    UnderAny(p, oldDirs) && !Under(p, newDir)
  }

  function Targets(orbs: seq<InstalledOrb>, oldDirs: seq<Path>, newDir: Path): seq<Path> {
    if orbs == [] then []
    else
      var n := |orbs| - 1;
      Targets(orbs[..n], oldDirs, newDir) + (if Migrates(orbs[n].zipPath, oldDirs, newDir) then [orbs[n].zipPath] else [])
  }

  function Repathed(orb: InstalledOrb, targets: seq<Path>, newDir: Path): InstalledOrb {
    if orb.zipPath in targets then orb.(zipPath := Dest(newDir, orb.zipPath)) else orb
  }

  function Repath(orbs: seq<InstalledOrb>, targets: seq<Path>, newDir: Path): (r: seq<InstalledOrb>)
    ensures |r| == |orbs| && forall i :: 0 <= i < |orbs| ==> r[i] == Repathed(orbs[i], targets, newDir)
  {
    seq(|orbs|, i requires 0 <= i < |orbs| => Repathed(orbs[i], targets, newDir))
  }

  /** Disk and registry after a call, and what it returned. */
  datatype Outcome<T> = Outcome(disk: Disk, orbs: seq<InstalledOrb>, result: Result<T, Failure>)

  predicate AllPresent(d: Disk, targets: seq<Path>) {
    forall i :: 0 <= i < |targets| ==> targets[i] in d.files
  }

  function Migrate(d: Disk, orbs: seq<InstalledOrb>, oldDirs: seq<Path>, newDir: Path, faults: nat -> Faults): Outcome<nat> {
    var targets := Targets(orbs, oldDirs, newDir);
    if !AllPresent(d, targets) then Outcome(d, orbs, Err(MissingZip))
    else if CreateDirAll(d, newDir).Err? then Outcome(d, orbs, Err(CannotCreateDir))
    else
      var p := MoveAll(CreateDirAll(d, newDir).value, targets, newDir, faults);
      if p.ok then Outcome(RemoveDirs(p.disk, oldDirs), Repath(orbs, targets, newDir), Ok(|targets|))
      else Outcome(RollBack(p.disk, targets, newDir, faults, p.completed), orbs, Err(MoveFailed))
  }

  // ---------------------------------------------------------------- what the targets are

  predicate NoneUnder(targets: seq<Path>, newDir: Path) {
    forall i :: 0 <= i < |targets| ==> !Under(targets[i], newDir)
  }

  lemma {:induction false} TargetsAre(orbs: seq<InstalledOrb>, oldDirs: seq<Path>, newDir: Path)
    ensures NoneUnder(Targets(orbs, oldDirs, newDir), newDir)
    ensures forall i :: 0 <= i < |orbs| ==> (orbs[i].zipPath in Targets(orbs, oldDirs, newDir) <==> Migrates(orbs[i].zipPath, oldDirs, newDir))
    ensures forall p :: p in Targets(orbs, oldDirs, newDir) ==> Migrates(p, oldDirs, newDir) && exists i :: 0 <= i < |orbs| && orbs[i].zipPath == p
  {
    if orbs != [] {
      var n := |orbs| - 1;
      TargetsAre(orbs[..n], oldDirs, newDir);
      var before := Targets(orbs[..n], oldDirs, newDir);
      forall p | p in Targets(orbs, oldDirs, newDir) ensures Migrates(p, oldDirs, newDir) && exists i :: 0 <= i < |orbs| && orbs[i].zipPath == p {
        if p in before {
          var i :| 0 <= i < n && orbs[..n][i].zipPath == p;
          assert orbs[i].zipPath == p;
        } else {
          assert orbs[n].zipPath == p;
        }
      }
      forall i | 0 <= i < |orbs| ensures orbs[i].zipPath in Targets(orbs, oldDirs, newDir) <==> Migrates(orbs[i].zipPath, oldDirs, newDir) {
        if i < n {
          assert orbs[..n][i] == orbs[i];
        }
      }
    }
  }

  // ---------------------------------------------------------------- success

  /** Targets that go where this one goes hold the same bytes. */
  predicate Agrees(d: Disk, targets: seq<Path>, newDir: Path, path: Path) {
    forall j :: 0 <= j < |targets| && Dest(newDir, targets[j]) == Dest(newDir, path) ==> Get(d, targets[j]) == Get(d, path)
  }

  predicate IsDest(p: Path, targets: seq<Path>, newDir: Path) {
    exists i :: 0 <= i < |targets| && p == Dest(newDir, targets[i])
  }

  lemma DestApart(targets: seq<Path>, newDir: Path, src: Path)
    requires NoneUnder(targets, newDir)
    ensures Dest(newDir, src) !in targets
  {}

  /** The moves make and remove no directory, and put no file where one is. */
  lemma {:induction false} MoveAllDirs(d: Disk, targets: seq<Path>, newDir: Path, faults: nat -> Faults)
    requires NoneUnder(targets, newDir)
    ensures var p := MoveAll(d, targets, newDir, faults); p.disk.dirs == d.dirs && (IsDisk(d) ==> IsDisk(p.disk))
  {
    if targets != [] {
      var n := |targets| - 1;
      MoveAllDirs(d, targets[..n], newDir, faults);
      MoveOneEffect(MoveAll(d, targets[..n], newDir, faults).disk, targets[n], newDir, faults(n));
    }
  }

  /** The moves change nothing but the targets and their destinations. */
  lemma {:induction false} MoveAllFrame(d: Disk, targets: seq<Path>, newDir: Path, faults: nat -> Faults, q: Path)
    requires NoneUnder(targets, newDir) && q !in targets && !IsDest(q, targets, newDir)
    ensures Get(MoveAll(d, targets, newDir, faults).disk, q) == Get(d, q)
  {
    if targets != [] {
      var n := |targets| - 1;
      assert IsDest(q, targets[..n], newDir) ==> IsDest(q, targets, newDir);
      MoveAllFrame(d, targets[..n], newDir, faults, q);
      MoveOneEffect(MoveAll(d, targets[..n], newDir, faults).disk, targets[n], newDir, faults(n));
    }
  }

  /** Every source moved is gone. */
  lemma {:induction false} MoveAllEmpties(d: Disk, targets: seq<Path>, newDir: Path, faults: nat -> Faults, i: nat)
    requires NoneUnder(targets, newDir) && i < MoveAll(d, targets, newDir, faults).completed
    ensures Get(MoveAll(d, targets, newDir, faults).disk, targets[i]) == None
  {
    var n := |targets| - 1;
    var before := MoveAll(d, targets[..n], newDir, faults);
    MoveOneEffect(before.disk, targets[n], newDir, faults(n));
    DestApart(targets, newDir, targets[n]);
    if i < before.completed {
      MoveAllEmpties(d, targets[..n], newDir, faults, i);
    }
  }

  predicate AllDiffer(paths: seq<Path>) {
    forall i, j :: 0 <= i < j < |paths| ==> paths[i] != paths[j]
  }

  /** A file that was moved is not there to be moved again, so a run that succeeds has no target twice. */
  lemma {:induction false} MoveAllDistinct(d: Disk, targets: seq<Path>, newDir: Path, faults: nat -> Faults)
    requires NoneUnder(targets, newDir) && MoveAll(d, targets, newDir, faults).ok
    ensures AllDiffer(targets)
  {
    if targets != [] {
      var n := |targets| - 1;
      MoveAllDistinct(d, targets[..n], newDir, faults);
      MoveOneEffect(MoveAll(d, targets[..n], newDir, faults).disk, targets[n], newDir, faults(n));
      forall i | 0 <= i < n ensures targets[i] != targets[n] {
        MoveAllEmpties(d, targets[..n], newDir, faults, i);
      }
    }
  }

  lemma LastArrives(d: Disk, targets: seq<Path>, newDir: Path, faults: nat -> Faults)
    requires NoneUnder(targets, newDir) && MoveAll(d, targets, newDir, faults).ok && targets != []
    ensures var n := |targets| - 1; Get(MoveAll(d, targets, newDir, faults).disk, Dest(newDir, targets[n])) == Get(d, targets[n])
  {
    var n := |targets| - 1;
    MoveOneEffect(MoveAll(d, targets[..n], newDir, faults).disk, targets[n], newDir, faults(n));
    LastUntouched(d, targets, newDir, faults);
  }

  /** The last move leaves alone what is neither its source nor its destination. */
  lemma LastFrame(d: Disk, targets: seq<Path>, newDir: Path, faults: nat -> Faults, q: Path)
    requires NoneUnder(targets, newDir) && MoveAll(d, targets, newDir, faults).ok && targets != []
    requires var n := |targets| - 1; q != targets[n] && q != Dest(newDir, targets[n])
    ensures Get(MoveAll(d, targets, newDir, faults).disk, q) == Get(MoveAll(d, targets[..|targets| - 1], newDir, faults).disk, q)
  {
    var n := |targets| - 1;
    MoveOneEffect(MoveAll(d, targets[..n], newDir, faults).disk, targets[n], newDir, faults(n));
  }

  /** Each destination holds what its source held. */
  lemma {:induction false} MoveAllArrives(d: Disk, targets: seq<Path>, newDir: Path, faults: nat -> Faults, i: nat)
    requires NoneUnder(targets, newDir) && MoveAll(d, targets, newDir, faults).ok
    requires i < |targets| && Agrees(d, targets, newDir, targets[i])
    ensures Get(MoveAll(d, targets, newDir, faults).disk, Dest(newDir, targets[i])) == Get(d, targets[i])
  {
    var n := |targets| - 1;
    if Dest(newDir, targets[n]) == Dest(newDir, targets[i]) {
      LastArrives(d, targets, newDir, faults);
    } else {
      DestApart(targets, newDir, targets[i]);
      LastFrame(d, targets, newDir, faults, Dest(newDir, targets[i]));
      assert targets[..n][i] == targets[i];
      MoveAllArrives(d, targets[..n], newDir, faults, i);
    }
  }

  /** Before its turn the last target still holds what it held. */
  lemma LastUntouched(d: Disk, targets: seq<Path>, newDir: Path, faults: nat -> Faults)
    requires NoneUnder(targets, newDir) && MoveAll(d, targets, newDir, faults).ok && targets != []
    ensures var n := |targets| - 1; Get(MoveAll(d, targets[..n], newDir, faults).disk, targets[n]) == Get(d, targets[n])
  {
    var n := |targets| - 1;
    MoveAllDistinct(d, targets, newDir, faults);
    assert !IsDest(targets[n], targets[..n], newDir) by {
      forall i | 0 <= i < n ensures targets[n] != Dest(newDir, targets[..n][i]) {
        DestApart(targets, newDir, targets[i]);
      }
    }
    MoveAllFrame(d, targets[..n], newDir, faults, targets[n]);
  }

  /** Entries that end up at the same path held the same bytes. */
  predicate ClashesAgree(d: Disk, orbs: seq<InstalledOrb>, targets: seq<Path>, newDir: Path) {
    forall i, j :: 0 <= i < |orbs| && 0 <= j < |orbs| && Repathed(orbs[i], targets, newDir).zipPath == Repathed(orbs[j], targets, newDir).zipPath ==>
      Get(d, orbs[i].zipPath) == Get(d, orbs[j].zipPath)
  }

  predicate Kept(d: Disk, orbs: seq<InstalledOrb>, d': Disk, orbs': seq<InstalledOrb>) {
    |orbs'| == |orbs| && forall i :: 0 <= i < |orbs| ==> Get(d', orbs'[i].zipPath) == Get(d, orbs[i].zipPath)
  }

  lemma TargetsAgree(d: Disk, orbs: seq<InstalledOrb>, oldDirs: seq<Path>, newDir: Path, i: nat)
    requires ClashesAgree(d, orbs, Targets(orbs, oldDirs, newDir), newDir) && i < |Targets(orbs, oldDirs, newDir)|
    ensures Agrees(d, Targets(orbs, oldDirs, newDir), newDir, Targets(orbs, oldDirs, newDir)[i])
  {
    var targets := Targets(orbs, oldDirs, newDir);
    TargetsAre(orbs, oldDirs, newDir);
    assert targets[i] in targets;
    var a :| 0 <= a < |orbs| && orbs[a].zipPath == targets[i];
    forall j | 0 <= j < |targets| && Dest(newDir, targets[i]) == Dest(newDir, targets[j]) ensures Get(d, targets[i]) == Get(d, targets[j]) {
      assert targets[j] in targets;
      var b :| 0 <= b < |orbs| && orbs[b].zipPath == targets[j];
      assert Repathed(orbs[a], targets, newDir).zipPath == Repathed(orbs[b], targets, newDir).zipPath;
    }
  }

  /** One entry after a successful migration without clashes. */
  lemma EntryKept(d: Disk, orbs: seq<InstalledOrb>, oldDirs: seq<Path>, newDir: Path, faults: nat -> Faults, a: nat)
    requires Migrate(d, orbs, oldDirs, newDir, faults).result.Ok? && a < |orbs|
    requires ClashesAgree(d, orbs, Targets(orbs, oldDirs, newDir), newDir)
    ensures var m := Migrate(d, orbs, oldDirs, newDir, faults); Get(m.disk, m.orbs[a].zipPath) == Get(d, orbs[a].zipPath)
  {
    var targets := Targets(orbs, oldDirs, newDir);
    var d1 := CreateDirAll(d, newDir).value;
    var p := MoveAll(d1, targets, newDir, faults);
    TargetsAre(orbs, oldDirs, newDir);
    RemoveDirsKeepsFiles(p.disk, oldDirs);
    var path := orbs[a].zipPath;
    if path in targets {
      var i :| 0 <= i < |targets| && targets[i] == path;
      TargetsAgree(d, orbs, oldDirs, newDir, i);
      MoveAllArrives(d1, targets, newDir, faults, i);
    } else if IsDest(path, targets, newDir) {
      var i :| 0 <= i < |targets| && path == Dest(newDir, targets[i]);
      TargetsAgree(d, orbs, oldDirs, newDir, i);
      MoveAllArrives(d1, targets, newDir, faults, i);
      assert targets[i] in targets;
      var b :| 0 <= b < |orbs| && orbs[b].zipPath == targets[i];
      assert Repathed(orbs[b], targets, newDir).zipPath == Repathed(orbs[a], targets, newDir).zipPath;
    } else {
      MoveAllFrame(d1, targets, newDir, faults, path);
    }
  }

  /** A successful migration keeps the bytes of every entry exactly when entries that end up at one path held the same bytes. */
  lemma MigrationKeepsIff(d: Disk, orbs: seq<InstalledOrb>, oldDirs: seq<Path>, newDir: Path, faults: nat -> Faults)
    requires Migrate(d, orbs, oldDirs, newDir, faults).result.Ok?
    ensures var m := Migrate(d, orbs, oldDirs, newDir, faults);
            Kept(d, orbs, m.disk, m.orbs) <==> ClashesAgree(d, orbs, Targets(orbs, oldDirs, newDir), newDir)
  {
    if ClashesAgree(d, orbs, Targets(orbs, oldDirs, newDir), newDir) {
      forall a | 0 <= a < |orbs| ensures var m := Migrate(d, orbs, oldDirs, newDir, faults); Get(m.disk, m.orbs[a].zipPath) == Get(d, orbs[a].zipPath) {
        EntryKept(d, orbs, oldDirs, newDir, faults, a);
      }
    }
  }

  /** Where a successful migration leaves each entry: migrated ones directly under the new directory and gone from
      the old place, all others as they were. */
  lemma MigratedEntries(d: Disk, orbs: seq<InstalledOrb>, oldDirs: seq<Path>, newDir: Path, faults: nat -> Faults, a: nat)
    requires Migrate(d, orbs, oldDirs, newDir, faults).result.Ok? && a < |orbs|
    ensures var m := Migrate(d, orbs, oldDirs, newDir, faults); var path := orbs[a].zipPath;
            && |m.orbs| == |orbs| && m.orbs[a] == orbs[a].(zipPath := m.orbs[a].zipPath)
            && (if Migrates(path, oldDirs, newDir)
                then path != [] && m.orbs[a].zipPath == newDir + [path[|path| - 1]] && Get(m.disk, path) == None
                else m.orbs[a] == orbs[a])
  {
    var targets := Targets(orbs, oldDirs, newDir);
    var d1 := CreateDirAll(d, newDir).value;
    TargetsAre(orbs, oldDirs, newDir);
    RemoveDirsKeepsFiles(MoveAll(d1, targets, newDir, faults).disk, oldDirs);
    NoEmptyTarget(d1, targets, newDir, faults);
    if orbs[a].zipPath in targets {
      var i :| 0 <= i < |targets| && targets[i] == orbs[a].zipPath;
      MoveAllEmpties(d1, targets, newDir, faults, i);
    }
  }

  lemma {:induction false} NoEmptyTarget(d: Disk, targets: seq<Path>, newDir: Path, faults: nat -> Faults)
    requires MoveAll(d, targets, newDir, faults).ok
    ensures forall i :: 0 <= i < |targets| ==> targets[i] != []
  {
    if targets != [] {
      NoEmptyTarget(d, targets[..|targets| - 1], newDir, faults);
    }
  }
}
