/**
 The store's own checksum. `.syncpss-store.sha256` holds the hash of a manifest: one
 line per file, its path and the digest of its content, in path order. The file itself
 is not listed, so that writing the hash does not change it.
 */
module StoreManifest {
  import opened Options
  import opened Ordering
  import opened Text
  import opened PathNames

  type Path = string
  type Tree = map<Path, string>

  const HASH_FILE: Path := ".syncpss-store.sha256"

  predicate InGitDir(path: Path) { Segments(path) != [] && Segments(path)[0] == ".git" }

  /** The files the manifest lists. Every file of that name is skipped, also one in a subfolder. */
  predicate Counted(path: Path) { !InGitDir(path) && Filename(path) != HASH_FILE }

  function Line(path: Path, digest: string): string { path + "\t" + digest + "\n" }

  function Lines(paths: seq<Path>, digests: map<Path, string>): string
    requires forall p :: p in paths ==> p in digests
  {
    if paths == [] then [] else Line(paths[0], digests[paths[0]]) + Lines(paths[1..], digests)
  }

  /** The manifest as a function of what it records, with no reference to any iteration order. */
  ghost function Manifest(digests: map<Path, string>): string {
    ListingSorts(Components, digests.Keys);
    assert forall p :: p in Listing(Components, digests.Keys) ==> p in Elements(Listing(Components, digests.Keys));
    Lines(Listing(Components, digests.Keys), digests)
  }

  ghost function Digests(sha: string -> string, tree: Tree): map<Path, string> {
    map p | p in tree && Counted(p) :: sha(tree[p])
  }

  ghost function ManifestOf(sha: string -> string, tree: Tree): string { Manifest(Digests(sha, tree)) }

  ghost function StoreHash(sha: string -> string, tree: Tree): string { sha(ManifestOf(sha, tree)) }

  /** What the hash file says for a tree at a version. */
  ghost function HashLine(sha: string -> string, tree: Tree, version: string): string {
    StoreHash(sha, tree) + "  v" + version + "\n"
  }

  // ---------------------------------------------------------------- the scan

  lemma {:induction false} LinesSnoc(paths: seq<Path>, path: Path, digests: map<Path, string>)
    requires path in digests && forall p :: p in paths ==> p in digests
    ensures Lines(paths + [path], digests) == Lines(paths, digests) + Line(path, digests[path])
  {
    if paths == [] {
      assert [path][1..] == [] && [] + [path] == [path];
    } else {
      LinesSnoc(paths[1..], path, digests);
      assert (paths + [path])[1..] == paths[1..] + [path];
    }
  }

  /**
   The directory scan. `found` lists every regular file below the repository in the
   order in which the iterator happens to produce them, the `.git` directory included.
   */
  method ComputeStoreHash(sha: string -> string, found: seq<Path>, content: Tree) returns (hash: string)
    requires Elements(found) == content.Keys
    ensures hash == StoreHash(sha, content)
  {
    var files := CollectFiles(found);
    assert forall p :: p in found <==> p in Elements(found);
    files := SortedFiles(files, sha, content);
    var manifest := PrintManifest(sha, files, content, Digests(sha, content));
    hash := sha(manifest);
  }

  method CollectFiles(found: seq<Path>) returns (files: seq<Path>)
    ensures forall p :: p in files <==> p in found && Counted(p)
  {
    files := [];
    ghost var wanted := Counted;
    for i := 0 to |found|
      invariant files == Kept(found[..i], wanted)
    {
      KeptSnoc(found[..i], found[i], wanted);
      assert found[..i + 1] == found[..i] + [found[i]];
      if Counted(found[i]) {
        files := files + [found[i]];
      }
    }
    assert found[..|found|] == found;
    KeptElements(found, wanted);
  }

  method PrintManifest(sha: string -> string, files: seq<Path>, content: Tree, ghost digests: map<Path, string>)
    returns (manifest: string)
    requires forall p :: p in files ==> p in content && p in digests && digests[p] == sha(content[p])
    ensures manifest == Lines(files, digests)
  {
    manifest := "";
    for i := 0 to |files|
      invariant manifest == Lines(files[..i], digests)
    {
      var path := files[i];
      manifest := manifest + Line(path, sha(content[path]));
      LinesExtend(files, i, digests);
    }
    assert files[..|files|] == files;
  }

  lemma LinesExtend(files: seq<Path>, i: nat, digests: map<Path, string>)
    requires i < |files| && forall p :: p in files ==> p in digests
    ensures Lines(files[..i + 1], digests) == Lines(files[..i], digests) + Line(files[i], digests[files[i]])
  {
    LinesSnoc(files[..i], files[i], digests);
    assert files[..i + 1] == files[..i] + [files[i]];
  }

  method SortedFiles(files: seq<Path>, ghost sha: string -> string, content: Tree) returns (sorted: seq<Path>)
    requires forall p :: p in files <==> p in content && Counted(p)
    ensures sorted == Listing(Components, Digests(sha, content).Keys)
    ensures forall p :: p in sorted <==> p in Digests(sha, content)
  {
    sorted := SortUnique(Components, files);
    ghost var keys := Digests(sha, content).Keys;
    assert Elements(files) == keys;
    SortUniqueSorts(Components, files);
    ListingSorts(Components, keys);
    SortedListIsUnique(Components, sorted, Listing(Components, keys));
    assert forall p :: p in sorted <==> p in Elements(sorted);
  }

  // ---------------------------------------------------------------- what the manifest determines

  lemma HashFileIsNotCounted()
    ensures !Counted(HASH_FILE)
  {
    assert '/' !in HASH_FILE;
  }

  /** Writing the hash file does not change what it is the hash of. */
  lemma WritingHashKeepsIt(sha: string -> string, tree: Tree, text: string)
    ensures StoreHash(sha, tree[HASH_FILE := text]) == StoreHash(sha, tree)
  {
    HashFileIsNotCounted();
    assert Digests(sha, tree[HASH_FILE := text]) == Digests(sha, tree);
  }

  datatype Record = Record(path: Path, digest: string)

  function Records(paths: seq<Path>, digests: map<Path, string>): seq<Record>
    requires forall p :: p in paths ==> p in digests
  {
    if paths == [] then [] else [Record(paths[0], digests[paths[0]])] + Records(paths[1..], digests)
  }

  /** A reader of manifests: lines end at '\n', the path ends at the first tab. */
  function ParseManifest(text: string): seq<Record>
    decreases |text|
  {
    match IndexOf(text, '\n')
    case None => []
    case Some(end) =>
      var line := text[..end];
      match IndexOf(line, '\t')
      case None => []
      case Some(tab) => [Record(line[..tab], line[tab + 1..])] + ParseManifest(text[end + 1..])
  }

  ghost predicate Printable(digests: map<Path, string>) {
    forall p :: p in digests ==> '\t' !in p && '\n' !in p && '\n' !in digests[p]
  }

  lemma ParseLine(path: Path, digest: string, rest: string)
    requires '\t' !in path && '\n' !in path && '\n' !in digest
    ensures ParseManifest(Line(path, digest) + rest) == [Record(path, digest)] + ParseManifest(rest)
  {
    var line := path + ['\t'] + digest;
    IndexOfIs(line, '\n', rest);
    IndexOfIs(path, '\t', digest);
    var text := line + ['\n'] + rest;
    assert text == Line(path, digest) + rest;
    assert text[..|line|] == line && text[|line| + 1..] == rest;
    assert line[..|path|] == path && line[|path| + 1..] == digest;
  }

  lemma {:induction false} ParseUndoesLines(paths: seq<Path>, digests: map<Path, string>)
    requires Printable(digests) && forall p :: p in paths ==> p in digests
    ensures ParseManifest(Lines(paths, digests)) == Records(paths, digests)
  {
    if paths != [] {
      ParseUndoesLines(paths[1..], digests);
      ParseLine(paths[0], digests[paths[0]], Lines(paths[1..], digests));
    }
  }

  lemma {:induction false} RecordsAgree(xs: seq<Path>, a: map<Path, string>, ys: seq<Path>, b: map<Path, string>)
    requires (forall p :: p in xs ==> p in a) && (forall p :: p in ys ==> p in b)
    requires Records(xs, a) == Records(ys, b)
    ensures xs == ys && forall p :: p in xs ==> a[p] == b[p]
  {
    if xs != [] && ys != [] {
      assert Records(xs, a)[0] == Records(ys, b)[0];
      assert Records(xs, a)[1..] == Records(xs[1..], a) && Records(ys, b)[1..] == Records(ys[1..], b);
      RecordsAgree(xs[1..], a, ys[1..], b);
      assert xs == [xs[0]] + xs[1..] && ys == [ys[0]] + ys[1..];
    }
  }

  /** Two manifests are the same text only when they record the same digest for the same paths. */
  lemma ManifestIsInjective(a: map<Path, string>, b: map<Path, string>)
    requires Printable(a) && Printable(b)
    requires Manifest(a) == Manifest(b)
    ensures a == b
  {
    var xs, ys := Listing(Components, a.Keys), Listing(Components, b.Keys);
    ListingSorts(Components, a.Keys);
    ListingSorts(Components, b.Keys);
    assert forall p :: p in xs <==> p in Elements(xs);
    assert forall p :: p in ys <==> p in Elements(ys);
    ParseUndoesLines(xs, a);
    ParseUndoesLines(ys, b);
    RecordsAgree(xs, a, ys, b);
    assert a.Keys == b.Keys;
  }

  // ---------------------------------------------------------------- in which order it lists them

  /** How paths compare: component by component, an enclosing folder before what is in it. */
  predicate PathLess(p: seq<string>, q: seq<string>)
    decreases |p|
  {
    q != [] && (p == [] || Less(Bytes, p[0], q[0]) || (p[0] == q[0] && PathLess(p[1..], q[1..])))
  }

  /** Two names without slashes, each at the end of a path or before a slash. */
  lemma {:induction false} FirstComponents(x: string, restX: string, y: string, restY: string)
    requires '/' !in x && '/' !in y && (restX == "" || restX[0] == '/') && (restY == "" || restY[0] == '/')
    ensures Less(Components, x + restX, y + restY) <==> Less(Bytes, x, y) || (x == y && Less(Components, restX, restY))
  {
    if x == "" || y == "" {
      assert x == "" ==> x + restX == restX;
      assert y == "" ==> y + restY == restY;
    } else {
      assert (x + restX)[1..] == x[1..] + restX && (y + restY)[1..] == y[1..] + restY;
      assert x == y <==> x[0] == y[0] && x[1..] == y[1..] by {
        assert x == [x[0]] + x[1..] && y == [y[0]] + y[1..];
      }
      FirstComponents(x[1..], restX, y[1..], restY);
    }
  }

  function Tail(p: seq<string>): string { if |p| <= 1 then "" else "/" + Joined(p[1..]) }

  lemma TailsCompare(p: seq<string>, q: seq<string>)
    requires p != [] && q != []
    ensures Joined(p) == p[0] + Tail(p) && (Tail(p) == "" || Tail(p)[0] == '/')
    ensures Less(Components, Tail(p), Tail(q)) <==> if |p| > 1 && |q| > 1 then Less(Components, Joined(p[1..]), Joined(q[1..])) else |p| == 1 && |q| > 1
  {
    assert |p| > 1 ==> Tail(p)[1..] == Joined(p[1..]);
    assert |q| > 1 ==> Tail(q)[1..] == Joined(q[1..]);
  }

  /** The order of the printed paths is that of their components. */
  lemma {:induction false} PathsCompareByComponents(p: seq<string>, q: seq<string>)
    requires PathNames.Components(p) && PathNames.Components(q)
    ensures Less(Components, Joined(p), Joined(q)) <==> PathLess(p, q)
    decreases |p|
  {
    if p == [] || q == [] {
      JoinedIsEmpty(p);
      JoinedIsEmpty(q);
    } else {
      TailsCompare(p, q);
      TailsCompare(q, p);
      FirstComponents(p[0], Tail(p), q[0], Tail(q));
      if |p| > 1 && |q| > 1 { PathsCompareByComponents(p[1..], q[1..]); }
      hide Less, Joined, Tail;
    }
  }

  // ---------------------------------------------------------------- which files it covers

  /** Paths as they come from a directory: relative, with single slashes between the components. */
  ghost predicate FromDisk(tree: Tree) { forall p :: p in tree ==> p != "" && CleanPath(p) }

  /** No name and no digest breaks the lines of the manifest. */
  ghost predicate PrintableTree(sha: string -> string, tree: Tree) {
    forall p :: p in tree ==> '\t' !in p && '\n' !in p && '\n' !in sha(tree[p])
  }

  /** The file or its absence is the same on both sides, as far as the digest can tell. */
  ghost predicate SameFile(sha: string -> string, a: Tree, b: Tree, p: Path) {
    (p in a <==> p in b) && (p in a ==> sha(a[p]) == sha(b[p]))
  }

  /** A file at any depth, outside `.git` and not named like the hash file. */
  ghost predicate CoveredAt(folder: seq<string>, leaf: string) {
    PathNames.Components(folder + [leaf]) && (folder + [leaf])[0] != ".git" && leaf != ".syncpss-store.sha256"
  }

  lemma CoveredIsCounted(folder: seq<string>, leaf: string)
    requires PathNames.Components(folder + [leaf])
    ensures Counted(Joined(folder + [leaf])) <==> CoveredAt(folder, leaf)
  {
    assert (folder + [leaf])[|folder|] == leaf;
    assert forall i :: 0 <= i < |folder| ==> folder[i] == (folder + [leaf])[i];
    NameParts(folder, leaf);
  }

  /** A clean path taken apart. */
  lemma DiskPathParts(p: Path) returns (folder: seq<string>, leaf: string)
    requires p != "" && CleanPath(p)
    ensures PathNames.Components(folder + [leaf]) && p == Joined(folder + [leaf])
  {
    SegmentsAreComponents(p);
    var s := Segments(p);
    folder, leaf := s[..|s| - 1], s[|s| - 1];
    assert s == folder + [leaf];
  }

  /** Both trees agree on what the checksum is to cover. */
  ghost predicate SameCover(sha: string -> string, a: Tree, b: Tree) {
    forall folder, leaf :: CoveredAt(folder, leaf) ==> SameFile(sha, a, b, Joined(folder + [leaf]))
  }

  lemma SameCounted(sha: string -> string, a: Tree, b: Tree, p: Path)
    requires p != "" && CleanPath(p) && SameCover(sha, a, b) && Counted(p)
    ensures SameFile(sha, a, b, p)
  {
    hide CleanPath, Counted, Joined, PathNames.Components, CoveredAt, SameFile;
    var folder, leaf := DiskPathParts(p);
    CoveredIsCounted(folder, leaf);
  }

  lemma SameDigestsCover(sha: string -> string, a: Tree, b: Tree)
    requires FromDisk(a) && FromDisk(b) && SameCover(sha, a, b)
    ensures Digests(sha, a) == Digests(sha, b)
  {
    hide SameCover, CleanPath, Counted;
    forall p | (p in a || p in b) && Counted(p) ensures SameFile(sha, a, b, p) { SameCounted(sha, a, b, p); }
    assert Digests(sha, a).Keys == Digests(sha, b).Keys;
  }

  /**
   Which files the checksum covers: two stores have the same manifest exactly if, at every
   path whose first component is not ".git" and whose last one is not the hash file's name,
   whatever folders it lies in, both have the same file or none.
   */
  lemma ManifestCovers(sha: string -> string, a: Tree, b: Tree)
    requires FromDisk(a) && FromDisk(b) && PrintableTree(sha, a) && PrintableTree(sha, b)
    ensures ManifestOf(sha, a) == ManifestOf(sha, b) <==> SameCover(sha, a, b)
  {
    if ManifestOf(sha, a) == ManifestOf(sha, b) {
      ManifestIsInjective(Digests(sha, a), Digests(sha, b));
      forall folder, leaf | CoveredAt(folder, leaf) ensures SameFile(sha, a, b, Joined(folder + [leaf])) {
        CoveredIsCounted(folder, leaf);
        var p := Joined(folder + [leaf]);
        assert p in a <==> p in Digests(sha, a);
        assert p in b <==> p in Digests(sha, b);
      }
    }
    if SameCover(sha, a, b) { SameDigestsCover(sha, a, b); }
  }

  lemma {:induction false} RecordsAt(paths: seq<Path>, digests: map<Path, string>)
    requires forall p :: p in paths ==> p in digests
    ensures |Records(paths, digests)| == |paths|
    ensures forall i :: 0 <= i < |paths| ==> Records(paths, digests)[i] == Record(paths[i], digests[paths[i]])
  {
    if paths != [] { RecordsAt(paths[1..], digests); }
  }

  lemma CleanPathsCompare(p: Path, q: Path)
    requires CleanPath(p) && CleanPath(q)
    ensures Less(Components, p, q) <==> PathLess(Segments(p), Segments(q))
  {
    SegmentsAreComponents(p);
    SegmentsAreComponents(q);
    PathsCompareByComponents(Segments(p), Segments(q));
  }

  lemma ComponentsOfCovered(folder: seq<string>, leaf: string)
    requires CoveredAt(folder, leaf)
    ensures PathNames.Components(folder + [leaf])
  {
  }

  /** The records of a manifest: one for every counted path, in order. */
  lemma ManifestRecords(sha: string -> string, tree: Tree) returns (paths: seq<Path>)
    requires PrintableTree(sha, tree)
    ensures forall p :: p in paths <==> p in tree && Counted(p)
    ensures StrictlySorted(Components, paths)
    ensures var records := ParseManifest(ManifestOf(sha, tree));
      |records| == |paths| && forall i :: 0 <= i < |paths| ==> records[i] == Record(paths[i], sha(tree[paths[i]]))
  {
    var digests := Digests(sha, tree);
    paths := Listing(Components, digests.Keys);
    ListingSorts(Components, digests.Keys);
    assert forall p :: p in paths <==> p in Elements(paths);
    ParseUndoesLines(paths, digests);
    RecordsAt(paths, digests);
  }

  /** The manifest says of every covered file which digest it has, and nothing else. */
  lemma ManifestLists(sha: string -> string, tree: Tree)
    requires FromDisk(tree) && PrintableTree(sha, tree)
    ensures var records := ParseManifest(ManifestOf(sha, tree));
      && (forall folder, leaf :: CoveredAt(folder, leaf) && Joined(folder + [leaf]) in tree ==>
            Record(Joined(folder + [leaf]), sha(tree[Joined(folder + [leaf])])) in records)
      && forall i :: 0 <= i < |records| ==>
           && records[i].path in tree && records[i].digest == sha(tree[records[i].path])
           && exists folder, leaf :: CoveredAt(folder, leaf) && records[i].path == Joined(folder + [leaf])
  {
    hide ParseManifest, ManifestOf, CleanPath, Joined, Counted, CoveredAt, StrictlySorted;
    var paths := ManifestRecords(sha, tree);
    var records := ParseManifest(ManifestOf(sha, tree));
    forall folder, leaf | CoveredAt(folder, leaf) && Joined(folder + [leaf]) in tree
      ensures Record(Joined(folder + [leaf]), sha(tree[Joined(folder + [leaf])])) in records
    {
      ComponentsOfCovered(folder, leaf);
      CoveredIsCounted(folder, leaf);
      assert Joined(folder + [leaf]) in paths;
      var i :| 0 <= i < |paths| && paths[i] == Joined(folder + [leaf]);
      assert records[i] in records;
    }
    forall i | 0 <= i < |records| ensures exists folder, leaf :: CoveredAt(folder, leaf) && records[i].path == Joined(folder + [leaf]) {
      assert paths[i] in paths;
      var folder, leaf := DiskPathParts(paths[i]);
      CoveredIsCounted(folder, leaf);
    }
  }

  /** It lists them in the order of their components, an enclosing folder's file before what lies deeper. */
  lemma ManifestInOrder(sha: string -> string, tree: Tree)
    requires FromDisk(tree) && PrintableTree(sha, tree)
    ensures var records := ParseManifest(ManifestOf(sha, tree));
      forall i, j :: 0 <= i < j < |records| ==> PathLess(Segments(records[i].path), Segments(records[j].path))
  {
    hide ParseManifest, ManifestOf, CleanPath, Counted, PathLess, Segments, Less;
    var paths := ManifestRecords(sha, tree);
    var records := ParseManifest(ManifestOf(sha, tree));
    forall i, j | 0 <= i < j < |records| ensures PathLess(Segments(records[i].path), Segments(records[j].path)) {
      assert paths[i] in paths && paths[j] in paths;
      CleanPathsCompare(paths[i], paths[j]);
    }
  }

  /** No two of these texts have the same digest. */
  ghost predicate NoCollision(sha: string -> string, texts: set<string>) {
    forall x, y :: x in texts && y in texts && sha(x) == sha(y) ==> x == y
  }

  /** Without collisions among the texts at hand, two stores have the same hash exactly if their covered files are the same to the letter. */
  lemma HashCovers(sha: string -> string, a: Tree, b: Tree)
    requires FromDisk(a) && FromDisk(b) && PrintableTree(sha, a) && PrintableTree(sha, b)
    requires NoCollision(sha, a.Values + b.Values + {ManifestOf(sha, a), ManifestOf(sha, b)})
    ensures StoreHash(sha, a) == StoreHash(sha, b) <==>
      forall folder, leaf :: CoveredAt(folder, leaf) ==>
        var p := Joined(folder + [leaf]); (p in a <==> p in b) && (p in a ==> a[p] == b[p])
  {
    ManifestCovers(sha, a, b);
    forall p ensures SameFile(sha, a, b, p) <==> (p in a <==> p in b) && (p in a ==> a[p] == b[p]) {
      if p in a && p in b && sha(a[p]) == sha(b[p]) { assert a[p] in a.Values && b[p] in b.Values; }
    }
  }
}
