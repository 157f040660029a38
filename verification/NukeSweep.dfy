/**
 Wiping the store: remove every password file outside `.git`, then every directory that
 this left empty. Directories are tried longest path first, so that a directory is
 looked at only after everything inside it.
 */
module NukeSweep {
  import opened Options
  import opened Text
  import opened PathNames
  import TreeListing

  /** A path below the repository, as its components. */
  type Location = seq<string>

  predicate InGit(p: Location) { p != [] && p[0] == ".git" }

  /** `path.extension() == ".gpg"`: a leading dot does not start an extension. */
  predicate HasGpgExtension(filename: string) {
    var dot := LastIndexOf(filename, '.');
    dot.Some? && dot.value > 0 && filename[dot.value..] == ".gpg"
  }

  predicate IsPassword(p: Location) { p != [] && !InGit(p) && HasGpgExtension(p[|p| - 1]) }

  /** `name` is some other name with ".gpg" after it. */
  ghost predicate EndsInGpg(name: string) { exists stem: string :: stem != "" && name == stem + ".gpg" }

  /** What must go: everything outside `.git` whose name is some other name with ".gpg" after it, whatever dots that has in it. */
  lemma PasswordsExactly(p: Location)
    ensures IsPassword(p) <==> p != [] && p[0] != ".git" && EndsInGpg(p[|p| - 1])
  {
    if p != [] { GpgExtensionExactly(p[|p| - 1]); }
  }

  lemma GpgExtensionExactly(name: string)
    ensures HasGpgExtension(name) <==> EndsInGpg(name)
  {
    var dot := LastIndexOf(name, '.');
    if HasGpgExtension(name) {
      var stem := name[..dot.value];
      assert name == stem + ".gpg";
    }
    if EndsInGpg(name) {
      var stem :| stem != "" && name == stem + ".gpg";
      assert name == stem + ['.'] + "gpg";
      LastIndexOfIs(stem, '.', "gpg");
    }
  }

  predicate Encloses(d: Location, p: Location) { d < p }

  predicate ChildOf(d: Location, p: Location) { p != [] && p[..|p| - 1] == d }

  class Disk {
    var files: set<Location>
    var dirs: set<Location>

    constructor (files: set<Location>, dirs: set<Location>)
      ensures this.files == files && this.dirs == dirs
    {
      this.files, this.dirs := files, dirs;
    }

    /** Everything lies in directories that exist; components are proper names; no path is both. */
    ghost predicate Valid()
      reads this
    {
      WellFormed(files, dirs)
    }

    /** `std::filesystem::remove` on a directory, errors ignored: only an empty one goes. */
    method RemoveDirectory(d: Location)
      modifies this`dirs
      ensures dirs == if HoldsSomething(files, old(dirs), d) then old(dirs) else old(dirs) - {d}
    {
      if !(exists p :: p in files + dirs && ChildOf(d, p)) {
        dirs := dirs - {d};
      }
    }

    method RemoveLocalPasswordEntries()
      requires Valid()
      modifies this
      ensures files == set f | f in old(files) && !IsPassword(f)
      ensures forall f :: f in files <==> f in old(files) && (f == [] || f[0] == ".git" || !EndsInGpg(f[|f| - 1]))
      ensures dirs == set d | d in old(dirs) && (InGit(d) || exists f :: f in files && Encloses(d, f))
    {
      ghost var before := dirs;
      FewerFilesAreWellFormed(files, dirs, set f | f in files && !IsPassword(f));
      files := set f | f in files && !IsPassword(f);
      ghost var kept := files;
      var directories := CollectDirectories(dirs);
      directories := SortLongestFirst(directories);
      for i := 0 to |directories|
        invariant files == kept && dirs == Remaining(kept, before, directories[..i])
      {
        ghost var seen := directories[..i];
        RemoveDirectory(directories[i]);
        SweepStep(files, before, directories, i);
        assert directories[..i + 1] == seen + [directories[i]];
      }
      assert directories[..|directories|] == directories;
      SparedFiles(old(files));
    }
  }

  lemma SparedFiles(files: set<Location>)
    ensures forall f :: f in files && !IsPassword(f) <==> f in files && (f == [] || f[0] == ".git" || !EndsInGpg(f[|f| - 1]))
  {
    hide IsPassword, EndsInGpg;
    forall f ensures IsPassword(f) <==> f != [] && f[0] != ".git" && EndsInGpg(f[|f| - 1]) { PasswordsExactly(f); }
  }

  /** Whatever the walk over the store takes for an entry is wiped: afterwards it finds none. */
  lemma NothingLeftToWalk(disk: TreeListing.Disk)
    ensures forall p :: p in disk.files && TreeListing.Walked(p) ==> IsPassword(p)
    ensures TreeListing.WalkedNames(disk.(files := set f | f in disk.files && !IsPassword(f))) == {}
  {
    forall p | p in disk.files && TreeListing.Walked(p) ensures IsPassword(p) {
      var name := p[|p| - 1];
      assert name == TreeListing.Stem(name) + ".gpg";
      PasswordsExactly(p);
    }
  }

  ghost predicate WellFormed(files: set<Location>, dirs: set<Location>) {
    && (forall p :: p in files + dirs ==> p != [] && Components(p))
    && (forall p, n :: p in files + dirs && 0 < n < |p| ==> p[..n] in dirs)
  }

  lemma FewerFilesAreWellFormed(files: set<Location>, dirs: set<Location>, kept: set<Location>)
    requires WellFormed(files, dirs) && kept <= files
    ensures WellFormed(kept, dirs)
  {
    assert forall p :: p in kept + dirs ==> p in files + dirs;
  }

  ghost predicate HoldsSomething(files: set<Location>, dirs: set<Location>, d: Location) {
    exists p :: p in files + dirs && ChildOf(d, p)
  }

  ghost predicate HoldsFile(files: set<Location>, d: Location) {
    exists f :: f in files && Encloses(d, f)
  }

  /** The directories left once those in `seen` have been tried. */
  ghost function Remaining(files: set<Location>, before: set<Location>, seen: seq<Location>): set<Location> {
    set d | d in before && (d !in seen || HoldsFile(files, d))
  }

  method CollectDirectories(dirs: set<Location>) returns (found: seq<Location>)
    ensures forall d :: d in found <==> d in dirs && !InGit(d)
  {
    found := [];
    var rest := dirs;
    while rest != {}
      invariant rest <= dirs
      invariant forall d :: d in found <==> d in dirs - rest && !InGit(d)
      decreases rest
    {
      var d :| d in rest;
      rest := rest - {d};
      if !InGit(d) {
        found := found + [d];
      }
    }
  }

  function PathLength(p: Location): nat { |Joined(p)| }

  ghost predicate LongestFirst(ds: seq<Location>) {
    forall i, j :: 0 <= i < j < |ds| ==> PathLength(ds[i]) >= PathLength(ds[j])
  }

  function InsertByLength(d: Location, ds: seq<Location>): seq<Location> {
    if ds == [] || PathLength(d) >= PathLength(ds[0]) then [d] + ds else [ds[0]] + InsertByLength(d, ds[1..])
  }

  lemma {:induction false} InsertByLengthFacts(d: Location, ds: seq<Location>)
    ensures forall p :: p in InsertByLength(d, ds) <==> p == d || p in ds
    ensures LongestFirst(ds) ==> LongestFirst(InsertByLength(d, ds))
  {
    if ds != [] && PathLength(d) < PathLength(ds[0]) {
      InsertByLengthFacts(d, ds[1..]);
      assert ds == [ds[0]] + ds[1..];
      if LongestFirst(ds) {
        var rest := InsertByLength(d, ds[1..]);
        forall k | 0 <= k < |rest| ensures PathLength(ds[0]) >= PathLength(rest[k]) { assert rest[k] in rest; }
      }
    }
  }

  /** `std::sort` by the length of the printed path; how it orders equal lengths is not used. */
  method SortLongestFirst(ds: seq<Location>) returns (sorted: seq<Location>)
    ensures forall d :: d in sorted <==> d in ds
    ensures LongestFirst(sorted)
  {
    sorted := [];
    for i := 0 to |ds|
      invariant forall d :: d in sorted <==> d in ds[..i]
      invariant LongestFirst(sorted)
    {
      InsertByLengthFacts(ds[i], sorted);
      sorted := InsertByLength(ds[i], sorted);
      assert ds[..i + 1] == ds[..i] + [ds[i]];
    }
    assert ds[..|ds|] == ds;
  }

  /** A directory inside another has the longer path. */
  lemma InsideIsLonger(d: Location, p: Location)
    requires Components(p) && ChildOf(d, p)
    ensures PathLength(p) > PathLength(d)
  {
    assert p == d + [p[|p| - 1]];
    JoinedSnoc(d, p[|p| - 1]);
  }

  /** When a directory is tried, all directories inside it have been tried before. */
  lemma SweepStep(files: set<Location>, before: set<Location>, directories: seq<Location>, i: nat)
    requires WellFormed(files, before) && i < |directories| && LongestFirst(directories)
    requires forall d :: d in directories <==> d in before && !InGit(d)
    ensures var left := Remaining(files, before, directories[..i]); var d := directories[i];
      Remaining(files, before, directories[..i] + [d]) == if HoldsSomething(files, left, d) then left else left - {d}
  {
    var left := Remaining(files, before, directories[..i]);
    var d := directories[i];
    EmptyMeansNoFile(files, before, directories, i);
  }

  lemma EmptyMeansNoFile(files: set<Location>, before: set<Location>, directories: seq<Location>, i: nat)
    requires WellFormed(files, before) && i < |directories| && LongestFirst(directories)
    requires forall d :: d in directories <==> d in before && !InGit(d)
    ensures var left := Remaining(files, before, directories[..i]); var d := directories[i];
      HoldsSomething(files, left, d) <==> HoldsFile(files, d)
  {
    var left := Remaining(files, before, directories[..i]);
    var d := directories[i];
    assert d in directories;
    assert forall p :: p in left ==> p in files + before;
    assert d in files + before;
    if HoldsSomething(files, left, d) {
      var p :| p in files + left && ChildOf(d, p);
      if p in left {
        ChildWasTried(before, directories, i, p);
        var f :| f in files && Encloses(p, f);
        assert Encloses(d, f);
      } else {
        assert Encloses(d, p);
      }
    }
    if HoldsFile(files, d) {
      var f :| f in files && Encloses(d, f);
      var p := f[..|d| + 1];
      assert ChildOf(d, p);
      if p != f {
        assert p in before && Encloses(p, f);
      }
    }
  }

  lemma ChildWasTried(before: set<Location>, directories: seq<Location>, i: nat, p: Location)
    requires i < |directories| && LongestFirst(directories)
    requires forall d :: d in directories <==> d in before && !InGit(d)
    requires p in before && Components(p) && ChildOf(directories[i], p) && directories[i] != []
    ensures p in directories[..i]
  {
    assert directories[i] in directories;
    assert p[0] == directories[i][0];
    InsideIsLonger(directories[i], p);
    assert p in directories;
    var k :| 0 <= k < |directories| && directories[k] == p;
    assert k < i;
  }
}
