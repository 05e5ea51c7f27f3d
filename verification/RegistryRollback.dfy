/** What a failed migration leaves behind, and exactly when its rollback can restore everything. */
module RegistryRollback {
  import opened Wrappers
  import opened Prefixes
  import opened Registry

  // ---------------------------------------------------------------- how far a run can get

  /** How many targets come before the first whose destination is a directory: no run gets further. */
  function Reach(d: Disk, targets: seq<Path>, newDir: Path): (r: nat)
    ensures r <= |targets| && forall i :: 0 <= i < r ==> Dest(newDir, targets[i]) !in d.dirs
  {
    if targets == [] then 0
    else
      var n := |targets| - 1;
      var r := Reach(d, targets[..n], newDir);
      if r < n || Dest(newDir, targets[n]) in d.dirs then r else n + 1
  }

  /** Once a move has failed, nothing more is tried. */
  lemma {:induction false} FailureStays(d: Disk, targets: seq<Path>, newDir: Path, faults: nat -> Faults, n: nat)
    requires n <= |targets| && !MoveAll(d, targets[..n], newDir, faults).ok
    ensures MoveAll(d, targets, newDir, faults) == MoveAll(d, targets[..n], newDir, faults)
    decreases |targets|
  {
    if n == |targets| {
      TakeAll(targets);
    } else {
      var init := targets[..|targets| - 1];
      assert init[..n] == targets[..n];
      FailureStays(d, init, newDir, faults, n);
    }
  }

  /** A run over all targets does what a run over those within reach does, except that it then fails. */
  lemma {:induction false} StopsAtReach(d: Disk, targets: seq<Path>, newDir: Path, faults: nat -> Faults)
    requires IsDisk(d) && NoneUnder(targets, newDir)
    ensures var p, q := MoveAll(d, targets, newDir, faults), MoveAll(d, targets[..Reach(d, targets, newDir)], newDir, faults);
            p.disk == q.disk && p.completed == q.completed && (p.ok <==> q.ok && Reach(d, targets, newDir) == |targets|)
  {
    var r := Reach(d, targets, newDir);
    if targets != [] && r < |targets| {
      var n := |targets| - 1;
      StopsAtReach(d, targets[..n], newDir, faults);
      assert targets[..n][..r] == targets[..r];
      if r == n {
        TakeAll(targets[..n]);
        DirStops(d, targets, newDir, faults);
      }
    } else {
      TakeAll(targets);
    }
  }

  /** A destination that is a directory stops the run without a trace. */
  lemma DirStops(d: Disk, targets: seq<Path>, newDir: Path, faults: nat -> Faults)
    requires IsDisk(d) && NoneUnder(targets, newDir) && targets != [] && Dest(newDir, targets[|targets| - 1]) in d.dirs
    ensures var p, q := MoveAll(d, targets, newDir, faults), MoveAll(d, targets[..|targets| - 1], newDir, faults);
            p == Progress(q.disk, q.completed, false)
  {
    MoveAllDirs(d, targets[..|targets| - 1], newDir, faults);
  }

  /** Undoing n moves looks at the first n targets only. */
  lemma {:induction false} RollBackPrefix(d: Disk, targets: seq<Path>, newDir: Path, faults: nat -> Faults, n: nat, k: nat)
    requires n <= k <= |targets|
    ensures RollBack(d, targets, newDir, faults, n) == RollBack(d, targets[..k], newDir, faults, n)
    decreases n
  {
    if n > 0 {
      RollBackPrefix(Undo(d, targets[n - 1], newDir, faults(n - 1)), targets, newDir, faults, n - 1, k);
    }
  }

  // ---------------------------------------------------------------- one file, moved and brought back

  /** No other target goes where target i goes. */
  predicate OwnPlace(targets: seq<Path>, newDir: Path, i: nat)
    requires i < |targets|
  {
    forall j :: 0 <= j < |targets| && j != i ==> Dest(newDir, targets[j]) != Dest(newDir, targets[i])
  }

  /** What a run has moved has arrived. */
  lemma {:induction false} MovedArrived(d: Disk, targets: seq<Path>, newDir: Path, faults: nat -> Faults, i: nat)
    requires NoneUnder(targets, newDir) && i < MoveAll(d, targets, newDir, faults).completed && OwnPlace(targets, newDir, i)
    ensures Get(MoveAll(d, targets, newDir, faults).disk, Dest(newDir, targets[i])) == Get(d, targets[i])
  {
    var n := |targets| - 1;
    var init := targets[..n];
    var before := MoveAll(d, init, newDir, faults);
    DestApart(targets, newDir, targets[i]);
    if i < n {
      assert init[i] == targets[i] && forall j :: 0 <= j < n ==> init[j] == targets[j];
      MovedArrived(d, init, newDir, faults, i);
    } else {
      UnmovedStays(d, init, newDir, faults, targets[n], targets);
    }
    MoveOneEffect(before.disk, targets[n], newDir, faults(n));
  }

  /** What it has not moved is in its place; `all` are all the targets, `targets` those up to some point. */
  lemma {:induction false} UnmovedStays(d: Disk, targets: seq<Path>, newDir: Path, faults: nat -> Faults, path: Path, all: seq<Path>)
    requires NoneUnder(all, newDir) && path in all && targets <= all
    requires forall i :: 0 <= i < MoveAll(d, targets, newDir, faults).completed ==> targets[i] != path
    ensures Get(MoveAll(d, targets, newDir, faults).disk, path) == Get(d, path)
  {
    if targets != [] {
      var n := |targets| - 1;
      UnmovedStays(d, targets[..n], newDir, faults, path, all);
      MoveOneEffect(MoveAll(d, targets[..n], newDir, faults).disk, targets[n], newDir, faults(n));
      DestApart(all, newDir, targets[n]);
    }
  }

  lemma UndoEffect(d: Disk, src: Path, newDir: Path, f: Faults)
    requires !Under(src, newDir)
    ensures var d' := Undo(d, src, newDir, f); var dest := Dest(newDir, src);
            && d'.dirs == d.dirs
            && (forall q :: q != src && q != dest ==> Get(d', q) == Get(d, q))
            && (Get(d, src).None? && src !in d.dirs && Get(d, dest).Some? ==> Get(d', src) == if f.noRollback then None else Get(d, dest))
  {}

  /** Undoing changes nothing but the places moved from and to. */
  lemma {:induction false} RollBackFrame(d: Disk, targets: seq<Path>, newDir: Path, faults: nat -> Faults, n: nat, q: Path)
    requires NoneUnder(targets, newDir) && n <= |targets|
    requires forall i :: 0 <= i < n ==> q != targets[i] && q != Dest(newDir, targets[i])
    ensures Get(RollBack(d, targets, newDir, faults, n), q) == Get(d, q)
    decreases n
  {
    if n > 0 {
      UndoEffect(d, targets[n - 1], newDir, faults(n - 1));
      RollBackFrame(Undo(d, targets[n - 1], newDir, faults(n - 1)), targets, newDir, faults, n - 1, q);
    }
  }

  /** A file is back exactly if its own undo went well, whatever became of the others. */
  lemma {:induction false} RollBackRestores(d: Disk, targets: seq<Path>, newDir: Path, faults: nat -> Faults, n: nat, i: nat)
    requires NoneUnder(targets, newDir) && i < n <= |targets| && OwnPlace(targets, newDir, i)
    requires Get(d, targets[i]).None? && targets[i] !in d.dirs && Get(d, Dest(newDir, targets[i])).Some?
    ensures Get(RollBack(d, targets, newDir, faults, n), targets[i]) == if faults(i).noRollback then None else Get(d, Dest(newDir, targets[i]))
    decreases n
  {
    var src := targets[n - 1];
    var d1 := Undo(d, src, newDir, faults(n - 1));
    UndoEffect(d, src, newDir, faults(n - 1));
    DestApart(targets, newDir, src);
    DestApart(targets, newDir, targets[i]);
    if i == n - 1 {
      forall j | 0 <= j < i ensures src != targets[j] && src != Dest(newDir, targets[j]) {
        DestApart(targets, newDir, targets[j]);
      }
      RollBackFrame(d1, targets, newDir, faults, i, src);
    } else {
      RollBackRestores(d1, targets, newDir, faults, n - 1, i);
    }
  }

  /** A file among those moved before the failure. */
  lemma MovedAndBack(d: Disk, targets: seq<Path>, newDir: Path, faults: nat -> Faults, i: nat)
    requires IsDisk(d) && NoneUnder(targets, newDir) && AllPresent(d, targets)
    requires i < MoveAll(d, targets, newDir, faults).completed && OwnPlace(targets, newDir, i)
    ensures var p := MoveAll(d, targets, newDir, faults);
            Get(RollBack(p.disk, targets, newDir, faults, p.completed), targets[i]) == if faults(i).noRollback then None else Get(d, targets[i])
  {
    var p := MoveAll(d, targets, newDir, faults);
    MoveAllDirs(d, targets, newDir, faults);
    MoveAllEmpties(d, targets, newDir, faults, i);
    MovedArrived(d, targets, newDir, faults, i);
    assert targets[i] in d.files;
    RollBackRestores(p.disk, targets, newDir, faults, p.completed, i);
  }

  /** A file that had not been moved, and is not where another one goes; `all` are targets whether within reach or not. */
  lemma NotMoved(d: Disk, targets: seq<Path>, newDir: Path, faults: nat -> Faults, path: Path)
    requires NoneUnder(targets, newDir) && !IsDest(path, targets, newDir)
    requires forall i :: 0 <= i < MoveAll(d, targets, newDir, faults).completed ==> targets[i] != path
    ensures var p := MoveAll(d, targets, newDir, faults);
            Get(RollBack(p.disk, targets, newDir, faults, p.completed), path) == Get(d, path)
  {
    var p := MoveAll(d, targets, newDir, faults);
    if path in targets {
      UnmovedStays(d, targets, newDir, faults, path, targets);
    } else {
      MoveAllFrame(d, targets, newDir, faults, path);
    }
    RollBackFrame(p.disk, targets, newDir, faults, p.completed, path);
  }

  // ---------------------------------------------------------------- one entry after a failure

  /** The migration gets as far as moving files. */
  predicate Starts(d: Disk, orbs: seq<InstalledOrb>, oldDirs: seq<Path>, newDir: Path) {
    AllPresent(d, Targets(orbs, oldDirs, newDir)) && CreateDirAll(d, newDir).Ok?
  }

  /** The targets a run may get to. */
  function Reached(d: Disk, orbs: seq<InstalledOrb>, oldDirs: seq<Path>, newDir: Path): seq<Path>
    requires Starts(d, orbs, oldDirs, newDir)
  {
    var targets := Targets(orbs, oldDirs, newDir);
    targets[..Reach(CreateDirAll(d, newDir).value, targets, newDir)]
  }

  function Moves(d: Disk, orbs: seq<InstalledOrb>, oldDirs: seq<Path>, newDir: Path, faults: nat -> Faults): Progress
    requires Starts(d, orbs, oldDirs, newDir)
  {
    MoveAll(CreateDirAll(d, newDir).value, Reached(d, orbs, oldDirs, newDir), newDir, faults)
  }

  /** No reached file goes to this path, and if it is reached itself, it goes to a place of its own. */
  predicate Apart(reached: seq<Path>, newDir: Path, path: Path) {
    && !IsDest(path, reached, newDir)
    && forall i :: 0 <= i < |reached| && reached[i] == path ==> OwnPlace(reached, newDir, i)
  }

  /** The file at this path was moved and its undo failed. */
  predicate Stranded(d: Disk, orbs: seq<InstalledOrb>, oldDirs: seq<Path>, newDir: Path, faults: nat -> Faults, path: Path) {
    && Starts(d, orbs, oldDirs, newDir)
    && exists i :: 0 <= i < Moves(d, orbs, oldDirs, newDir, faults).completed
        && Reached(d, orbs, oldDirs, newDir)[i] == path && faults(i).noRollback
  }

  lemma CreatedIsDisk(d: Disk, dir: Path)
    requires IsDisk(d) && CreateDirAll(d, dir).Ok?
    ensures IsDisk(CreateDirAll(d, dir).value)
  {}

  /** A failed migration that got to moving files has rolled back the moves within reach. */
  lemma FailureIsRollBack(d: Disk, orbs: seq<InstalledOrb>, oldDirs: seq<Path>, newDir: Path, faults: nat -> Faults)
    requires IsDisk(d) && Starts(d, orbs, oldDirs, newDir) && Migrate(d, orbs, oldDirs, newDir, faults).result.Err?
    ensures var p := Moves(d, orbs, oldDirs, newDir, faults);
            Migrate(d, orbs, oldDirs, newDir, faults).disk == RollBack(p.disk, Reached(d, orbs, oldDirs, newDir), newDir, faults, p.completed)
  {
    var targets := Targets(orbs, oldDirs, newDir);
    var d1 := CreateDirAll(d, newDir).value;
    TargetsAre(orbs, oldDirs, newDir);
    CreatedIsDisk(d, newDir);
    StopsAtReach(d1, targets, newDir, faults);
    RollBackPrefix(MoveAll(d1, targets, newDir, faults).disk, targets, newDir, faults, MoveAll(d1, targets, newDir, faults).completed, Reach(d1, targets, newDir));
  }

  /** A migration that fails leaves the registry as it was, and an entry that clashes with no other keeps what its path
      held, unless its file was moved and the undo of that move failed: then the path is empty. */
  lemma FailureRestoresIff(d: Disk, orbs: seq<InstalledOrb>, oldDirs: seq<Path>, newDir: Path, faults: nat -> Faults, a: nat)
    requires IsDisk(d) && Migrate(d, orbs, oldDirs, newDir, faults).result.Err? && a < |orbs|
    requires Starts(d, orbs, oldDirs, newDir) ==> Apart(Reached(d, orbs, oldDirs, newDir), newDir, orbs[a].zipPath)
    ensures var m := Migrate(d, orbs, oldDirs, newDir, faults); var path := orbs[a].zipPath;
            && m.orbs == orbs
            && Get(m.disk, path) == (if Stranded(d, orbs, oldDirs, newDir, faults, path) then None else Get(d, path))
            && (Stranded(d, orbs, oldDirs, newDir, faults, path) ==> path in d.files)
  {
    var path := orbs[a].zipPath;
    if Starts(d, orbs, oldDirs, newDir) {
      var d1, reached := CreateDirAll(d, newDir).value, Reached(d, orbs, oldDirs, newDir);
      TargetsAre(orbs, oldDirs, newDir);
      CreatedIsDisk(d, newDir);
      FailureIsRollBack(d, orbs, oldDirs, newDir, faults);
      if i :| 0 <= i < MoveAll(d1, reached, newDir, faults).completed && reached[i] == path {
        MovedAndBack(d1, reached, newDir, faults, i);
      } else {
        NotMoved(d1, reached, newDir, faults, path);
      }
    }
  }

  // ---------------------------------------------------------------- when rollback can restore everything

  /** No entry clashes with a file that moves. */
  predicate NoClash(orbs: seq<InstalledOrb>, reached: seq<Path>, newDir: Path) {
    forall a :: 0 <= a < |orbs| ==> Apart(reached, newDir, orbs[a].zipPath)
  }

  /** However a run fails, if only its undo renames work, every entry's path holds what it held. */
  ghost predicate FailureSafe(d: Disk, orbs: seq<InstalledOrb>, oldDirs: seq<Path>, newDir: Path) {
    forall faults: nat -> Faults :: (forall n :: !faults(n).noRollback) && Migrate(d, orbs, oldDirs, newDir, faults).result.Err? ==>
      Kept(d, orbs, Migrate(d, orbs, oldDirs, newDir, faults).disk, orbs)
  }

  /** Failure is safe if and only if no two reached files go to one place and no entry is where one goes. */
  lemma FailureSafeIff(d: Disk, orbs: seq<InstalledOrb>, oldDirs: seq<Path>, newDir: Path)
    requires IsDisk(d)
    ensures FailureSafe(d, orbs, oldDirs, newDir) <==>
            (Starts(d, orbs, oldDirs, newDir) ==> NoClash(orbs, Reached(d, orbs, oldDirs, newDir), newDir))
  {
    if Starts(d, orbs, oldDirs, newDir) && !NoClash(orbs, Reached(d, orbs, oldDirs, newDir), newDir) {
      ClashIsUnsafe(d, orbs, oldDirs, newDir);
    } else {
      forall faults: nat -> Faults | (forall n :: !faults(n).noRollback) && Migrate(d, orbs, oldDirs, newDir, faults).result.Err?
        ensures Kept(d, orbs, Migrate(d, orbs, oldDirs, newDir, faults).disk, orbs)
      {
        forall a | 0 <= a < |orbs| ensures Get(Migrate(d, orbs, oldDirs, newDir, faults).disk, orbs[a].zipPath) == Get(d, orbs[a].zipPath) {
          FailureRestoresIff(d, orbs, oldDirs, newDir, faults, a);
        }
      }
    }
  }

  // ---------------------------------------------------------------- the runs that lose a file

  /** Everything works but the move of target j, a copy that breaks off. */
  function BreakAt(j: nat, left: Option<nat>): nat -> Faults {
    n => Faults(false, n == j, if n == j then Some(left) else None, false, false)
  }

  predicate DestsDiffer(targets: seq<Path>, newDir: Path) {
    forall i, j :: 0 <= i < j < |targets| ==> Dest(newDir, targets[i]) != Dest(newDir, targets[j])
  }

  /** Files present, directories out of the way: what a run may count on for the targets it reaches. */
  predicate Movable(d: Disk, targets: seq<Path>, newDir: Path) {
    && IsDisk(d) && NoneUnder(targets, newDir) && AllPresent(d, targets) && [] !in d.files
    && forall i :: 0 <= i < |targets| ==> Dest(newDir, targets[i]) !in d.dirs
  }

  lemma FaultlessMove(d: Disk, src: Path, newDir: Path, f: Faults)
    requires IsDisk(d) && src in d.files && src != [] && !Under(src, newDir) && Dest(newDir, src) !in d.dirs
    requires !f.staleStays && !f.noRename
    ensures MoveOne(d, src, newDir, f).1
  {}

  /** Without clashes, and where renaming works, every file is moved. */
  lemma {:induction false} AllMove(d: Disk, targets: seq<Path>, newDir: Path, faults: nat -> Faults)
    requires Movable(d, targets, newDir) && DestsDiffer(targets, newDir)
    requires forall n :: 0 <= n < |targets| ==> !faults(n).staleStays && !faults(n).noRename
    ensures MoveAll(d, targets, newDir, faults).ok
  {
    if targets != [] {
      var n := |targets| - 1;
      MovableInit(d, targets, newDir);
      AllMove(d, targets[..n], newDir, faults);
      MoveAllDirs(d, targets[..n], newDir, faults);
      SourceThere(d, targets, newDir, n, faults);
      assert targets[n] in d.files;
      FaultlessMove(MoveAll(d, targets[..n], newDir, faults).disk, targets[n], newDir, faults(n));
    }
  }

  lemma MovableInit(d: Disk, targets: seq<Path>, newDir: Path)
    requires Movable(d, targets, newDir) && DestsDiffer(targets, newDir) && targets != []
    ensures var n := |targets| - 1;
            && Movable(d, targets[..n], newDir) && DestsDiffer(targets[..n], newDir)
            && !IsDest(Dest(newDir, targets[n]), targets[..n], newDir)
  {}

  /** A copy that breaks off has cleared the destination, and leaves there nothing, or what it has written. */
  lemma BrokenMove(d: Disk, src: Path, newDir: Path, f: Faults)
    requires IsDisk(d) && src != [] && !Under(src, newDir) && Dest(newDir, src) !in d.dirs
    requires f.noRename && !f.staleStays && f.copyBreaks.Some? && (src in d.files || f.copyBreaks.value == None)
    ensures var (d', ok) := MoveOne(d, src, newDir, f);
            !ok && Get(d', Dest(newDir, src)) == if f.copyBreaks.value.None? then None else Some(Part(d.files[src], f.copyBreaks.value.value))
  {}

  lemma SourceThere(d: Disk, targets: seq<Path>, newDir: Path, j: nat, faults: nat -> Faults)
    requires Movable(d, targets, newDir) && j < |targets| && !IsDest(Dest(newDir, targets[j]), targets[..j], newDir)
    ensures Get(MoveAll(d, targets[..j], newDir, faults).disk, targets[j]) == Some(d.files[targets[j]])
  {
    assert targets[j] !in targets[..j];
    UnmovedStays(d, targets[..j], newDir, faults, targets[j], targets);
    assert targets[j] in d.files;
  }

  /** The run up to the break: the moves before it done, the destination of the broken one left as the copy left it. */
  lemma BreaksOff(d: Disk, targets: seq<Path>, newDir: Path, j: nat, left: Option<nat>)
    requires Movable(d, targets, newDir) && j < |targets| && DestsDiffer(targets[..j], newDir)
    requires left.Some? ==> !IsDest(Dest(newDir, targets[j]), targets[..j], newDir)
    ensures var p := MoveAll(d, targets, newDir, BreakAt(j, left));
            && !p.ok && p.completed == j
            && Get(p.disk, Dest(newDir, targets[j])) == if left.None? then None else Some(Part(d.files[targets[j]], left.value))
  {
    var faults, init := BreakAt(j, left), targets[..j];
    assert Movable(d, init, newDir);
    AllMove(d, init, newDir, faults);
    MoveAllDirs(d, init, newDir, faults);
    var before := MoveAll(d, init, newDir, faults).disk;
    if left.Some? {
      SourceThere(d, targets, newDir, j, faults);
    }
    BrokenMove(before, targets[j], newDir, faults(j));
    assert targets[..j + 1][..j] == init;
    FailureStays(d, targets, newDir, faults, j + 1);
  }

  /** A file that is at neither of its places does not come back. */
  lemma {:induction false} RollBackLoses(d: Disk, targets: seq<Path>, newDir: Path, faults: nat -> Faults, n: nat, i: nat)
    requires NoneUnder(targets, newDir) && i < n <= |targets|
    requires forall j :: 0 <= j < n && j != i ==> Dest(newDir, targets[j]) != Dest(newDir, targets[i])
    requires Get(d, targets[i]) == None && Get(d, Dest(newDir, targets[i])) == None
    ensures Get(RollBack(d, targets, newDir, faults, n), targets[i]) == None
    decreases n
  {
    var src := targets[n - 1];
    var d1 := Undo(d, src, newDir, faults(n - 1));
    UndoEffect(d, src, newDir, faults(n - 1));
    DestApart(targets, newDir, src);
    DestApart(targets, newDir, targets[i]);
    if i == n - 1 {
      forall j | 0 <= j < i ensures src != targets[j] && src != Dest(newDir, targets[j]) {
        DestApart(targets, newDir, targets[j]);
      }
      RollBackFrame(d1, targets, newDir, faults, i, src);
    } else {
      RollBackLoses(d1, targets, newDir, faults, n - 1, i);
    }
  }

  lemma DestsDifferNext(targets: seq<Path>, newDir: Path)
    requires targets != [] && DestsDiffer(targets[..|targets| - 1], newDir)
    requires !IsDest(Dest(newDir, targets[|targets| - 1]), targets[..|targets| - 1], newDir)
    ensures DestsDiffer(targets, newDir)
  {
    var n := |targets| - 1;
    forall i | 0 <= i < n ensures Dest(newDir, targets[i]) != Dest(newDir, targets[n]) {
      assert targets[..n][i] == targets[i];
    }
    forall i, j | 0 <= i < j < n ensures Dest(newDir, targets[i]) != Dest(newDir, targets[j]) {
      assert targets[..n][i] == targets[i] && targets[..n][j] == targets[j];
    }
  }

  /** The first two targets that go to one place. */
  lemma {:induction false} FirstClash(targets: seq<Path>, newDir: Path) returns (i: nat, j: nat)
    requires !DestsDiffer(targets, newDir)
    ensures i < j < |targets| && Dest(newDir, targets[i]) == Dest(newDir, targets[j]) && DestsDiffer(targets[..j], newDir)
  {
    var n := |targets| - 1;
    var init := targets[..n];
    if DestsDiffer(init, newDir) {
      if !IsDest(Dest(newDir, targets[n]), init, newDir) {
        DestsDifferNext(targets, newDir);
      }
      var k :| 0 <= k < n && Dest(newDir, targets[n]) == Dest(newDir, init[k]);
      i, j := k, n;
    } else {
      i, j := FirstClash(init, newDir);
      assert init[..j] == targets[..j];
    }
  }

  lemma ClashesOnce(targets: seq<Path>, newDir: Path, i: nat, j: nat)
    requires i < j < |targets| && DestsDiffer(targets[..j], newDir)
    ensures forall k :: 0 <= k < j && k != i ==> Dest(newDir, targets[k]) != Dest(newDir, targets[i])
  {
    assert targets[..j][i] == targets[i];
    forall k | 0 <= k < j && k != i ensures Dest(newDir, targets[k]) != Dest(newDir, targets[i]) {
      assert targets[..j][k] == targets[k];
    }
  }

  /** Two files that go to one place: the copy of the second clears the first away and breaks off. */
  lemma FirstIsLost(d: Disk, targets: seq<Path>, newDir: Path, i: nat, j: nat)
    requires Movable(d, targets, newDir) && i < j < |targets|
    requires Dest(newDir, targets[i]) == Dest(newDir, targets[j]) && DestsDiffer(targets[..j], newDir)
    ensures var p := MoveAll(d, targets, newDir, BreakAt(j, None));
            !p.ok && Get(RollBack(p.disk, targets, newDir, BreakAt(j, None), p.completed), targets[i]) == None
  {
    assert targets[..j][i] == targets[i];
    BreaksOff(d, targets, newDir, j, None);
    MoveAllEmpties(d, targets, newDir, BreakAt(j, None), i);
    ClashesOnce(targets, newDir, i, j);
    RollBackLoses(MoveAll(d, targets, newDir, BreakAt(j, None)).disk, targets, newDir, BreakAt(j, None), j, i);
  }

  /** An entry where a file goes: the copy of that file clears it away, or writes there where nothing was. */
  lemma EntryIsLost(d: Disk, targets: seq<Path>, newDir: Path, j: nat, left: Option<nat>)
    requires Movable(d, targets, newDir) && j < |targets| && DestsDiffer(targets, newDir)
    ensures var p := MoveAll(d, targets, newDir, BreakAt(j, left));
            && !p.ok
            && Get(RollBack(p.disk, targets, newDir, BreakAt(j, left), p.completed), Dest(newDir, targets[j]))
               == if left.None? then None else Some(Part(d.files[targets[j]], left.value))
  {
    assert forall i :: 0 <= i < j ==> targets[..j][i] == targets[i];
    BreaksOff(d, targets, newDir, j, left);
    DestApart(targets, newDir, targets[j]);
    RollBackFrame(MoveAll(d, targets, newDir, BreakAt(j, left)).disk, targets, newDir, BreakAt(j, left), j, Dest(newDir, targets[j]));
  }

  /** Every clash has a failing run that loses an entry's bytes although every undo rename would work. */
  lemma ClashIsUnsafe(d: Disk, orbs: seq<InstalledOrb>, oldDirs: seq<Path>, newDir: Path)
    requires IsDisk(d) && Starts(d, orbs, oldDirs, newDir) && !NoClash(orbs, Reached(d, orbs, oldDirs, newDir), newDir)
    ensures !FailureSafe(d, orbs, oldDirs, newDir)
  {
    var d1, reached := CreateDirAll(d, newDir).value, Reached(d, orbs, oldDirs, newDir);
    ReachedIsMovable(d, orbs, oldDirs, newDir);
    if !DestsDiffer(reached, newDir) {
      var i, j := FirstClash(reached, newDir);
      FirstIsLost(d1, reached, newDir, i, j);
      var a := ReachedOrb(d, orbs, oldDirs, newDir, i);
      LossIsUnsafe(d, orbs, oldDirs, newDir, BreakAt(j, None), a);
    } else {
      var a :| 0 <= a < |orbs| && !Apart(reached, newDir, orbs[a].zipPath);
      var path := orbs[a].zipPath;
      var j :| 0 <= j < |reached| && path == Dest(newDir, reached[j]);
      var left := if path in d.files then None else Some(0);
      EntryIsLost(d1, reached, newDir, j, left);
      LossIsUnsafe(d, orbs, oldDirs, newDir, BreakAt(j, left), a);
    }
  }

  lemma ReachedIsMovable(d: Disk, orbs: seq<InstalledOrb>, oldDirs: seq<Path>, newDir: Path)
    requires IsDisk(d) && Starts(d, orbs, oldDirs, newDir)
    ensures Movable(CreateDirAll(d, newDir).value, Reached(d, orbs, oldDirs, newDir), newDir)
  {
    TargetsAre(orbs, oldDirs, newDir);
    CreatedIsDisk(d, newDir);
    RootIsPrefix(newDir);
  }

  lemma {:induction false} RootIsPrefix(dir: Path)
    ensures [] in PrefixesOf(dir)
  {
    if dir != [] {
      RootIsPrefix(dir[..|dir| - 1]);
    }
  }

  lemma ReachedOrb(d: Disk, orbs: seq<InstalledOrb>, oldDirs: seq<Path>, newDir: Path, i: nat) returns (a: nat)
    requires Starts(d, orbs, oldDirs, newDir) && i < |Reached(d, orbs, oldDirs, newDir)|
    ensures a < |orbs| && orbs[a].zipPath == Reached(d, orbs, oldDirs, newDir)[i]
  {
    var targets := Targets(orbs, oldDirs, newDir);
    TargetsAre(orbs, oldDirs, newDir);
    assert targets[i] in targets;
    a :| 0 <= a < |orbs| && orbs[a].zipPath == targets[i];
  }

  lemma LossIsUnsafe(d: Disk, orbs: seq<InstalledOrb>, oldDirs: seq<Path>, newDir: Path, faults: nat -> Faults, a: nat)
    requires IsDisk(d) && Starts(d, orbs, oldDirs, newDir) && a < |orbs| && forall n :: !faults(n).noRollback
    requires var p, reached := Moves(d, orbs, oldDirs, newDir, faults), Reached(d, orbs, oldDirs, newDir);
             && !p.ok
             && Get(RollBack(p.disk, reached, newDir, faults, p.completed), orbs[a].zipPath) != Get(d, orbs[a].zipPath)
    ensures !FailureSafe(d, orbs, oldDirs, newDir)
  {
    TargetsAre(orbs, oldDirs, newDir);
    CreatedIsDisk(d, newDir);
    StopsAtReach(CreateDirAll(d, newDir).value, Targets(orbs, oldDirs, newDir), newDir, faults);
    FailureIsRollBack(d, orbs, oldDirs, newDir, faults);
    assert !Kept(d, orbs, Migrate(d, orbs, oldDirs, newDir, faults).disk, orbs);
  }

  // ---------------------------------------------------------------- when undos may fail, too

  /** However a run fails, undos included, every entry's path holds what it held. */
  ghost predicate MigrationSafe(d: Disk, orbs: seq<InstalledOrb>, oldDirs: seq<Path>, newDir: Path) {
    forall faults: nat -> Faults :: Migrate(d, orbs, oldDirs, newDir, faults).result.Err? ==>
      Kept(d, orbs, Migrate(d, orbs, oldDirs, newDir, faults).disk, orbs)
  }

  /** A run may fail after it has moved a file: there are two to move, and the first can be. */
  predicate MayStrand(d: Disk, orbs: seq<InstalledOrb>, oldDirs: seq<Path>, newDir: Path)
    requires Starts(d, orbs, oldDirs, newDir)
  {
    |Targets(orbs, oldDirs, newDir)| >= 2 && Reached(d, orbs, oldDirs, newDir) != []
  }

  /** Then every failure is safe if and only if nothing clashes and no run can fail after a move. */
  lemma MigrationSafeIff(d: Disk, orbs: seq<InstalledOrb>, oldDirs: seq<Path>, newDir: Path)
    requires IsDisk(d)
    ensures MigrationSafe(d, orbs, oldDirs, newDir) <==>
            (Starts(d, orbs, oldDirs, newDir) ==>
               NoClash(orbs, Reached(d, orbs, oldDirs, newDir), newDir) && !MayStrand(d, orbs, oldDirs, newDir))
  {
    FailureSafeIff(d, orbs, oldDirs, newDir);
    if Starts(d, orbs, oldDirs, newDir) && !NoClash(orbs, Reached(d, orbs, oldDirs, newDir), newDir) {
      assert !FailureSafe(d, orbs, oldDirs, newDir);
    } else if Starts(d, orbs, oldDirs, newDir) && MayStrand(d, orbs, oldDirs, newDir) {
      FirstIsStranded(d, orbs, oldDirs, newDir);
    } else {
      forall faults: nat -> Faults | Migrate(d, orbs, oldDirs, newDir, faults).result.Err?
        ensures Kept(d, orbs, Migrate(d, orbs, oldDirs, newDir, faults).disk, orbs)
      {
        NoneIsStranded(d, orbs, oldDirs, newDir, faults);
      }
    }
  }

  /** One move, then a copy that does not start, and no undo. */
  function StrandFirst(): nat -> Faults {
    n => Faults(false, n > 0, Some(None), false, true)
  }

  lemma FirstIsStranded(d: Disk, orbs: seq<InstalledOrb>, oldDirs: seq<Path>, newDir: Path)
    requires IsDisk(d) && Starts(d, orbs, oldDirs, newDir) && MayStrand(d, orbs, oldDirs, newDir)
    requires NoClash(orbs, Reached(d, orbs, oldDirs, newDir), newDir)
    ensures !MigrationSafe(d, orbs, oldDirs, newDir)
  {
    var faults := StrandFirst();
    var a := ReachedOrb(d, orbs, oldDirs, newDir, 0);
    OneMoves(d, orbs, oldDirs, newDir);
    FailureRestoresIff(d, orbs, oldDirs, newDir, faults, a);
    assert Stranded(d, orbs, oldDirs, newDir, faults, orbs[a].zipPath);
    assert orbs[a].zipPath == Targets(orbs, oldDirs, newDir)[0];
    assert !Kept(d, orbs, Migrate(d, orbs, oldDirs, newDir, faults).disk, orbs);
  }

  lemma OneMoves(d: Disk, orbs: seq<InstalledOrb>, oldDirs: seq<Path>, newDir: Path)
    requires IsDisk(d) && Starts(d, orbs, oldDirs, newDir) && MayStrand(d, orbs, oldDirs, newDir)
    ensures Migrate(d, orbs, oldDirs, newDir, StrandFirst()).result.Err?
    ensures Moves(d, orbs, oldDirs, newDir, StrandFirst()).completed > 0
  {
    var d1, targets, reached := CreateDirAll(d, newDir).value, Targets(orbs, oldDirs, newDir), Reached(d, orbs, oldDirs, newDir);
    ReachedIsMovable(d, orbs, oldDirs, newDir);
    TargetsAre(orbs, oldDirs, newDir);
    CreatedIsDisk(d, newDir);
    assert Movable(d1, reached[..1], newDir);
    AllMove(d1, reached[..1], newDir, StrandFirst());
    MovesPrefix(d1, reached, newDir, StrandFirst(), 1);
    StopsAtReach(d1, targets, newDir, StrandFirst());
    assert targets[..2][..1] == targets[..1] == reached[..1];
    assert !MoveOne(MoveAll(d1, targets[..1], newDir, StrandFirst()).disk, targets[1], newDir, StrandFirst()(1)).1;
    FailureStays(d1, targets, newDir, StrandFirst(), 2);
  }

  /** What the first targets achieved stays achieved. */
  lemma {:induction false} MovesPrefix(d: Disk, targets: seq<Path>, newDir: Path, faults: nat -> Faults, n: nat)
    requires n <= |targets|
    ensures MoveAll(d, targets, newDir, faults).completed >= MoveAll(d, targets[..n], newDir, faults).completed
    decreases |targets|
  {
    if n == |targets| {
      TakeAll(targets);
    } else {
      var init := targets[..|targets| - 1];
      assert init[..n] == targets[..n];
      MovesPrefix(d, init, newDir, faults, n);
    }
  }

  lemma NoneIsStranded(d: Disk, orbs: seq<InstalledOrb>, oldDirs: seq<Path>, newDir: Path, faults: nat -> Faults)
    requires IsDisk(d) && Migrate(d, orbs, oldDirs, newDir, faults).result.Err?
    requires Starts(d, orbs, oldDirs, newDir) ==>
               NoClash(orbs, Reached(d, orbs, oldDirs, newDir), newDir) && !MayStrand(d, orbs, oldDirs, newDir)
    ensures Kept(d, orbs, Migrate(d, orbs, oldDirs, newDir, faults).disk, orbs)
  {
    if Starts(d, orbs, oldDirs, newDir) {
      TargetsAre(orbs, oldDirs, newDir);
      CreatedIsDisk(d, newDir);
      StopsAtReach(CreateDirAll(d, newDir).value, Targets(orbs, oldDirs, newDir), newDir, faults);
      assert Moves(d, orbs, oldDirs, newDir, faults).completed == 0;
    }
    forall a | 0 <= a < |orbs| ensures Get(Migrate(d, orbs, oldDirs, newDir, faults).disk, orbs[a].zipPath) == Get(d, orbs[a].zipPath) {
      FailureRestoresIff(d, orbs, oldDirs, newDir, faults, a);
    }
  }
}
