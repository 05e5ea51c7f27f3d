/** Import, removal and deletion, the invariant all operations keep over whole runs, and where they fall short of it. */
module RegistryRuns {
  import opened Wrappers
  import opened Registry
  import ToolNames

  /** What validating a ZIP yields besides its hash. */
  datatype Report = Report(name: string, displayName: Option<string>)

  /** Hashing and ZIP validation, which this model does not look into. */
  datatype Zips = Zips(sha: Bytes -> string, validate: Bytes -> Option<Report>)

  ghost predicate IsZips(z: Zips) {
    forall b :: |z.sha(b)| == 64
  }

  const EXTENSION := ".orb.zip"

  function FileName(sha: string): string {
    sha + EXTENSION
  }

  lemma FileNameInjective(a: string, b: string)
    requires FileName(a) == FileName(b)
    ensures a == b
  {
    assert FileName(a)[..|a|] == a && FileName(b)[..|b|] == b;
  }

  // ---------------------------------------------------------------- the list of installed Orbs

  /** Lexicographic by character. */
  predicate NameLeq(a: string, b: string) {
    a == "" || (b != "" && (a[0] < b[0] || (a[0] == b[0] && NameLeq(a[1..], b[1..]))))
  }

  /** One name is not after another if it begins it, or has the smaller character where they first differ. */
  lemma {:induction false} NameLeqIff(a: string, b: string)
    ensures NameLeq(a, b) <==> a <= b || exists i :: 0 <= i < |a| && i < |b| && a[..i] == b[..i] && a[i] < b[i]
  {
    if a != "" && b != "" && a[0] == b[0] {
      NameLeqIff(a[1..], b[1..]);
      if i :| 0 <= i < |a| - 1 && i < |b| - 1 && a[1..][..i] == b[1..][..i] && a[1..][i] < b[1..][i] {
        assert a[..i + 1] == [a[0]] + a[1..][..i] && b[..i + 1] == [b[0]] + b[1..][..i];
        assert a[i + 1] < b[i + 1];
      }
      if i :| 0 <= i < |a| && i < |b| && a[..i] == b[..i] && a[i] < b[i] {
        assert a[1..][..i - 1] == a[..i][1..] && b[1..][..i - 1] == b[..i][1..];
        assert a[1..][i - 1] < b[1..][i - 1];
      }
      assert a <= b <==> a[1..] <= b[1..] by {
        if a[1..] <= b[1..] {
          assert a == [a[0]] + a[1..] && b == [b[0]] + b[1..];
        }
      }
    } else if a != "" && b != "" && a[0] < b[0] {
      assert a[..0] == b[..0];
    }
  }

  lemma {:induction false} NameTotal(a: string, b: string)
    ensures NameLeq(a, b) || NameLeq(b, a)
  {
    if a != "" && b != "" {
      NameTotal(a[1..], b[1..]);
    }
  }

  lemma {:induction false} NameTransitive(a: string, b: string, c: string)
    requires NameLeq(a, b) && NameLeq(b, c)
    ensures NameLeq(a, c)
  {
    if a != "" && a[0] == b[0] == c[0] {
      NameTransitive(a[1..], b[1..], c[1..]);
    }
  }

  function InsertByName(o: InstalledOrb, orbs: seq<InstalledOrb>): seq<InstalledOrb> {
    if orbs == [] then [o]
    else if NameLeq(o.displayName, orbs[0].displayName) then [o] + orbs
    else [orbs[0]] + InsertByName(o, orbs[1..])
  }

  /** The library sort by display name: stable. */
  function SortByName(orbs: seq<InstalledOrb>): seq<InstalledOrb> {
    if orbs == [] then [] else InsertByName(orbs[0], SortByName(orbs[1..]))
  }

  predicate ByName(orbs: seq<InstalledOrb>) {
    forall i, j :: 0 <= i < j < |orbs| ==> NameLeq(orbs[i].displayName, orbs[j].displayName)
  }

  lemma {:induction false} InsertByNameKeeps(o: InstalledOrb, orbs: seq<InstalledOrb>)
    requires ByName(orbs)
    ensures ByName(InsertByName(o, orbs))
  {
    if orbs != [] {
      NameTotal(o.displayName, orbs[0].displayName);
      if NameLeq(o.displayName, orbs[0].displayName) {
        forall j | 0 <= j < |orbs| ensures NameLeq(o.displayName, orbs[j].displayName) {
          if j > 0 {
            NameTransitive(o.displayName, orbs[0].displayName, orbs[j].displayName);
          }
        }
      } else {
        InsertByNameKeeps(o, orbs[1..]);
        InsertMembers(o, orbs[1..]);
        var rest := InsertByName(o, orbs[1..]);
        forall j | 0 <= j < |rest| ensures NameLeq(orbs[0].displayName, rest[j].displayName) {
          assert rest[j] in multiset(rest);
          if rest[j] != o {
            assert rest[j] in multiset(orbs[1..]);
            assert rest[j] in orbs[1..];
          }
        }
      }
    }
  }

  lemma {:induction false} SortByNameKeeps(orbs: seq<InstalledOrb>)
    ensures ByName(SortByName(orbs)) && multiset(SortByName(orbs)) == multiset(orbs)
  {
    if orbs != [] {
      assert orbs == [orbs[0]] + orbs[1..];
      SortByNameKeeps(orbs[1..]);
      InsertByNameKeeps(orbs[0], SortByName(orbs[1..]));
      InsertMembers(orbs[0], SortByName(orbs[1..]));
    }
  }

  /** The first entry with the hash. */
  function FindSha(orbs: seq<InstalledOrb>, sha: string): (i: nat)
    ensures i <= |orbs| && (i < |orbs| ==> orbs[i].zipSha256 == sha) && forall j :: 0 <= j < i ==> orbs[j].zipSha256 != sha
  {
    if orbs == [] || orbs[0].zipSha256 == sha then 0 else FindSha(orbs[1..], sha) + 1
  }

  function FindId(orbs: seq<InstalledOrb>, id: string): (i: nat)
    ensures i <= |orbs| && (i < |orbs| ==> orbs[i].id == id) && forall j :: 0 <= j < i ==> orbs[j].id != id
  {
    if orbs == [] || orbs[0].id == id then 0 else FindId(orbs[1..], id) + 1
  }

  function Upsert(orbs: seq<InstalledOrb>, o: InstalledOrb): seq<InstalledOrb> {
    var i := FindSha(orbs, o.zipSha256);
    if i < |orbs| then orbs[i := o] else SortByName(orbs + [o])
  }

  predicate ShasDistinct(orbs: seq<InstalledOrb>) {
    forall i, j :: 0 <= i < j < |orbs| ==> orbs[i].zipSha256 != orbs[j].zipSha256
  }

  lemma {:induction false} InsertMembers(o: InstalledOrb, orbs: seq<InstalledOrb>)
    ensures multiset(InsertByName(o, orbs)) == multiset(orbs) + multiset{o}
  {
    if orbs != [] {
      assert orbs == [orbs[0]] + orbs[1..];
      InsertMembers(o, orbs[1..]);
    }
  }

  lemma {:induction false} InsertDistinct(o: InstalledOrb, orbs: seq<InstalledOrb>)
    requires ShasDistinct(orbs) && forall i :: 0 <= i < |orbs| ==> orbs[i].zipSha256 != o.zipSha256
    ensures ShasDistinct(InsertByName(o, orbs))
  {
    if orbs != [] && !NameLeq(o.displayName, orbs[0].displayName) {
      InsertDistinct(o, orbs[1..]);
      var rest := InsertByName(o, orbs[1..]);
      InsertMembers(o, orbs[1..]);
      forall j | 0 <= j < |rest| ensures rest[j].zipSha256 != orbs[0].zipSha256 {
        assert rest[j] in multiset(rest);
        assert rest[j] == o || rest[j] in orbs[1..];
      }
    }
  }

  lemma {:induction false} SortDistinct(orbs: seq<InstalledOrb>)
    requires ShasDistinct(orbs)
    ensures ShasDistinct(SortByName(orbs))
  {
    if orbs != [] {
      SortDistinct(orbs[1..]);
      SortByNameKeeps(orbs[1..]);
      var rest := SortByName(orbs[1..]);
      forall i | 0 <= i < |rest| ensures rest[i].zipSha256 != orbs[0].zipSha256 {
        assert rest[i] in multiset(orbs[1..]);
        assert rest[i] in orbs[1..];
      }
      InsertDistinct(orbs[0], rest);
    }
  }

  lemma SortMembers(orbs: seq<InstalledOrb>, e: InstalledOrb)
    ensures e in SortByName(orbs) <==> e in orbs
  {
    SortByNameKeeps(orbs);
    assert e in SortByName(orbs) <==> e in multiset(SortByName(orbs));
    assert e in orbs <==> e in multiset(orbs);
  }

  /** The upserted entry takes the place of the one with its hash, or is added and the list sorted; all others stay. */
  lemma UpsertKeeps(orbs: seq<InstalledOrb>, o: InstalledOrb, e: InstalledOrb)
    requires ShasDistinct(orbs)
    ensures ShasDistinct(Upsert(orbs, o))
    ensures e in Upsert(orbs, o) <==> e == o || (e in orbs && e.zipSha256 != o.zipSha256)
    ensures FindSha(orbs, o.zipSha256) == |orbs| ==> ByName(Upsert(orbs, o))
  {
    var i := FindSha(orbs, o.zipSha256);
    if i < |orbs| {
      if e in orbs && e.zipSha256 != o.zipSha256 {
        var j :| 0 <= j < |orbs| && orbs[j] == e;
        assert orbs[i := o][j] == e;
      }
      assert orbs[i := o][i] == o;
    } else {
      SortDistinct(orbs + [o]);
      SortByNameKeeps(orbs + [o]);
      SortMembers(orbs + [o], e);
      assert (orbs + [o])[|orbs|] == o;
    }
  }

  // ---------------------------------------------------------------- import, removal, deletion

  function Target(orbsDir: Path, sha: string): Path {
    orbsDir + [FileName(sha)]
  }

  /** The entry an import makes. */
  function Entry(z: Zips, bytes: Bytes, report: Report, path: Path): InstalledOrb
    requires |z.sha(bytes)| >= 16
  {
    var sha := z.sha(bytes);
    InstalledOrb(sha[..16], ToolNames.Slugify(report.name), if report.displayName.Some? then report.displayName.value else report.name, path, sha)
  }

  /** What a copy reads once it has opened its target, which truncates it: a file copied onto itself is then empty. */
  function Read(d: Disk, source: Path, target: Path): Bytes
    requires source in d.files
  {
    if source == target then [] else d.files[source]
  }

  function Copied(d: Disk, source: Path, target: Path): Disk
    requires source in d.files
  {
    d.(files := d.files[target := Read(d, source, target)])
  }

  /** `copyBreaks` is a copy that breaks off before it opens its target, or after so many bytes. */
  function Import(d: Disk, orbs: seq<InstalledOrb>, orbsDir: Path, source: Path, copyIn: bool, copyBreaks: Option<Option<nat>>, z: Zips): Outcome<Path>
    requires forall b :: |z.sha(b)| == 64
  {
    if source !in d.files then Outcome(d, orbs, Err(ReadFailed))
    else
      var bytes := d.files[source];
      var report := z.validate(bytes);
      if report.None? then Outcome(d, orbs, Err(InvalidZip))
      else if !copyIn then Outcome(d, Upsert(orbs, Entry(z, bytes, report.value, source)), Ok(source))
      else if CreateDirAll(d, orbsDir).Err? then Outcome(d, orbs, Err(CannotCreateDir))
      else
        var d1, target := CreateDirAll(d, orbsDir).value, Target(orbsDir, z.sha(bytes));
        if target in d1.dirs then Outcome(d1, orbs, Err(CopyFailed))
        else if copyBreaks.Some? then
          Outcome(if copyBreaks.value.Some? then d1.(files := d1.files[target := Part(Read(d1, source, target), copyBreaks.value.value)]) else d1, orbs, Err(CopyFailed))
        else Outcome(Copied(d1, source, target), Upsert(orbs, Entry(z, bytes, report.value, target)), Ok(target))
  }

  function Remove(d: Disk, orbs: seq<InstalledOrb>, id: string, stuck: bool): Outcome<InstalledOrb> {
    var i := FindId(orbs, id);
    if i == |orbs| then Outcome(d, orbs, Err(NotInstalled))
    else if Exists(d, orbs[i].zipPath) && (stuck || RemoveFile(d, orbs[i].zipPath).Err?) then Outcome(d, orbs, Err(DeleteFailed))
    else
      Outcome(if Exists(d, orbs[i].zipPath) then RemoveFile(d, orbs[i].zipPath).value else d, orbs[..i] + orbs[i + 1..], Ok(orbs[i]))
  }

  function PathsUnder(orbs: seq<InstalledOrb>, oldDirs: seq<Path>): seq<Path> {
    if orbs == [] then []
    else
      var n := |orbs| - 1;
      PathsUnder(orbs[..n], oldDirs) + (if UnderAny(orbs[n].zipPath, oldDirs) then [orbs[n].zipPath] else [])
  }

  function Retained(orbs: seq<InstalledOrb>, oldDirs: seq<Path>): seq<InstalledOrb> {
    if orbs == [] then []
    else
      var n := |orbs| - 1;
      Retained(orbs[..n], oldDirs) + (if UnderAny(orbs[n].zipPath, oldDirs) then [] else [orbs[n]])
  }

  /** Deletes the files in order, passing over missing ones; stops at the first that cannot be deleted. */
  function DeleteFiles(d: Disk, paths: seq<Path>, stuck: nat -> bool): (Disk, bool) {
    if paths == [] then (d, true)
    else
      var n := |paths| - 1;
      var (d1, ok) := DeleteFiles(d, paths[..n], stuck);
      if !ok || paths[n] !in d1.files then (d1, ok)
      else if stuck(n) then (d1, false)
      else (d1.(files := d1.files - {paths[n]}), true)
  }

  function Delete(d: Disk, orbs: seq<InstalledOrb>, oldDirs: seq<Path>, stuck: nat -> bool): Outcome<nat> {
    var paths := PathsUnder(orbs, oldDirs);
    var (d1, ok) := DeleteFiles(d, paths, stuck);
    if ok then Outcome(RemoveDirs(d1, oldDirs), Retained(orbs, oldDirs), Ok(|paths|)) else Outcome(d1, orbs, Err(DeleteFailed))
  }

  lemma {:induction false} DeleteFilesEffect(d: Disk, paths: seq<Path>, stuck: nat -> bool)
    ensures var (d', ok) := DeleteFiles(d, paths, stuck);
            && d'.dirs == d.dirs
            && (forall p :: Get(d', p) == Get(d, p) || (p in paths && Get(d', p) == None))
            && (ok ==> forall i :: 0 <= i < |paths| ==> Get(d', paths[i]) == None)
  {
    if paths != [] {
      DeleteFilesEffect(d, paths[..|paths| - 1], stuck);
    }
  }

  lemma {:induction false} RetainedAre(orbs: seq<InstalledOrb>, oldDirs: seq<Path>)
    ensures forall e :: e in Retained(orbs, oldDirs) <==> e in orbs && !UnderAny(e.zipPath, oldDirs)
    ensures ShasDistinct(orbs) ==> ShasDistinct(Retained(orbs, oldDirs))
    ensures forall p :: p in PathsUnder(orbs, oldDirs) ==> UnderAny(p, oldDirs)
    ensures forall e :: e in orbs && UnderAny(e.zipPath, oldDirs) ==> e.zipPath in PathsUnder(orbs, oldDirs)
  {
    if orbs != [] {
      var n := |orbs| - 1;
      RetainedAre(orbs[..n], oldDirs);
      assert orbs == orbs[..n] + [orbs[n]];
      if ShasDistinct(orbs) && !UnderAny(orbs[n].zipPath, oldDirs) {
        var kept := Retained(orbs[..n], oldDirs);
        forall i | 0 <= i < |kept| ensures kept[i].zipSha256 != orbs[n].zipSha256 {
          assert kept[i] in orbs[..n];
        }
      }
    }
  }

  /** A deletion that succeeds drops exactly the entries under the given directories, with their files, and leaves
      every other file; one that fails leaves the list. */
  lemma DeleteExactly(d: Disk, orbs: seq<InstalledOrb>, oldDirs: seq<Path>, stuck: nat -> bool, e: InstalledOrb)
    requires e in orbs
    ensures var m := Delete(d, orbs, oldDirs, stuck);
            if m.result.Err? then m.orbs == orbs
            else
              && (e in m.orbs <==> !UnderAny(e.zipPath, oldDirs))
              && Get(m.disk, e.zipPath) == if UnderAny(e.zipPath, oldDirs) then None else Get(d, e.zipPath)
  {
    var paths := PathsUnder(orbs, oldDirs);
    RetainedAre(orbs, oldDirs);
    DeleteFilesEffect(d, paths, stuck);
    RemoveDirsKeepsFiles(DeleteFiles(d, paths, stuck).0, oldDirs);
    if e.zipPath in paths {
      var i :| 0 <= i < |paths| && paths[i] == e.zipPath;
    }
  }

  /** A removal fails for an unknown id or a file that stays, and then changes nothing; otherwise it takes out one entry
      with the id, with its file, and nothing else. */
  lemma RemoveExactly(d: Disk, orbs: seq<InstalledOrb>, id: string, stuck: bool, p: Path)
    ensures var m := Remove(d, orbs, id, stuck);
            && (m.result == Err(NotInstalled) <==> forall i :: 0 <= i < |orbs| ==> orbs[i].id != id)
            && (m.result.Err? ==> m.disk == d && m.orbs == orbs)
            && (m.result.Ok? ==>
                  var o := m.result.value;
                  && o.id == id && multiset(orbs) == multiset(m.orbs) + multiset{o}
                  && Get(m.disk, p) == if p == o.zipPath then None else Get(d, p))
  {
    var i := FindId(orbs, id);
    if i < |orbs| {
      RemovedMembers(orbs, i);
      assert orbs[i].id == id;
    }
  }

  lemma RemovedMembers(orbs: seq<InstalledOrb>, i: nat)
    requires i < |orbs|
    ensures multiset(orbs) == multiset(orbs[..i] + orbs[i + 1..]) + multiset{orbs[i]}
  {
    assert orbs == orbs[..i] + ([orbs[i]] + orbs[i + 1..]);
  }

  /** An import that fails leaves the list; one that succeeds adds the entry of the source's bytes, or puts it in the
      place of the one with their hash, keeps every other entry, and writes at most the stored file. */
  lemma ImportExactly(d: Disk, orbs: seq<InstalledOrb>, orbsDir: Path, source: Path, copyIn: bool, copyBreaks: Option<Option<nat>>, z: Zips,
                      e: InstalledOrb, p: Path)
    requires IsZips(z) && ShasDistinct(orbs)
    ensures var m := Import(d, orbs, orbsDir, source, copyIn, copyBreaks, z);
            && (m.result.Err? ==> m.orbs == orbs)
            && (m.result.Ok? ==>
                  && source in d.files && z.validate(d.files[source]).Some?
                  && var o := Entry(z, d.files[source], z.validate(d.files[source]).value, m.result.value);
                  && (e in m.orbs <==> e == o || (e in orbs && e.zipSha256 != o.zipSha256))
                  && m.result.value == (if copyIn then Target(orbsDir, o.zipSha256) else source)
                  && (!copyIn || p != m.result.value ==> Get(m.disk, p) == Get(d, p)))
  {
    var m := Import(d, orbs, orbsDir, source, copyIn, copyBreaks, z);
    if m.result.Ok? {
      UpsertKeeps(orbs, Entry(z, d.files[source], z.validate(d.files[source]).value, m.result.value), e);
    }
  }
}
