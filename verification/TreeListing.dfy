/**
 Listing the entries: the tree that `pass ls` draws is read back line by line with a
 stack of folder names, and only if that finds nothing is the directory walked.
 */
module TreeListing {
  import opened Options
  import opened Ordering
  import opened Text
  import opened PathNames

  type Path = seq<string>

  /** What is on disk below the store's directory, as paths of whole file names. */
  datatype Disk = Disk(folders: set<Path>, files: set<Path>)

  const GPG := ".gpg"

  predicate IsGpg(name: string) { |name| > 4 && name[|name| - 4..] == GPG }

  function Stem(name: string): string
    requires IsGpg(name)
  {
    name[..|name| - 4]
  }

  predicate EntryFile(p: Path) { p != [] && IsGpg(p[|p| - 1]) }

  /** The path of an entry's file without its extension. */
  function EntryPath(p: Path): Path
    requires EntryFile(p)
  {
    p[..|p| - 1] + [Stem(p[|p| - 1])]
  }

  function EntryName(p: Path): string
    requires EntryFile(p)
  {
    Joined(EntryPath(p))
  }

  /** There is something with the entry's file name, a file or a directory. */
  predicate HasEntry(disk: Disk, candidate: Path) {
    candidate != [] &&
    var file := candidate[..|candidate| - 1] + [candidate[|candidate| - 1] + GPG];
    file in disk.files || file in disk.folders
  }

  // ---------------------------------------------------------------- reading the drawn tree

  const BAR := "|   "
  const GAP := "    "
  const FORK := "|-- "
  const CORNER := "`-- "

  predicate Contains(s: string, part: string) {
    part <= s || (s != "" && Contains(s[1..], part))
  }

  predicate LooksLikeTreeLine(line: string) { Contains(line, FORK) || Contains(line, CORNER) }

  function Depth(line: string): nat {
    if |line| >= 4 && (line[..4] == BAR || line[..4] == GAP) then 1 + Depth(line[4..]) else 0
  }

  method TreeDepth(line: string) returns (depth: nat, offset: nat)
    ensures depth == Depth(line) && offset == 4 * depth && offset <= |line|
  {
    depth, offset := 0, 0;
    while offset + 4 <= |line|
      invariant offset == 4 * depth && offset <= |line|
      invariant Depth(line) == depth + Depth(line[offset..])
    {
      var chunk := line[offset..offset + 4];
      assert line[offset..][..4] == chunk && line[offset..][4..] == line[offset + 4..];
      if chunk == BAR || chunk == GAP {
        depth, offset := depth + 1, offset + 4;
      } else {
        break;
      }
    }
  }

  /** `vector::resize`: shortening drops the end, lengthening adds empty names. */
  function Resized(stack: Path, depth: nat): Path {
    if depth <= |stack| then stack[..depth] else stack + seq(depth - |stack|, _ => "")
  }

  datatype Read = Read(stack: Path, found: seq<string>)

  predicate Skipped(line: string) {
    Trim(line) == "" || Trim(line) == "Password Store" || !LooksLikeTreeLine(line) || 4 * Depth(line) + 4 > |line|
  }

  function ReadNode(disk: Disk, stack: Path, depth: nat, name: string): Read {
    var base := Resized(stack, depth);
    var candidate := Filled(base + [name]);
    Read(if candidate in disk.folders then base + [name] else base,
         if HasEntry(disk, candidate) then [Joined(candidate)] else [])
  }

  function ReadLine(disk: Disk, stack: Path, line: string): Read {
    if Skipped(line) then Read(stack, [])
    else ReadNode(disk, stack, Depth(line), Trim(line[4 * Depth(line) + 4..]))
  }

  function ReadLines(disk: Disk, stack: Path, lines: seq<string>): Read
    decreases |lines|
  {
    if lines == [] then Read(stack, [])
    else
      var first := ReadLine(disk, stack, lines[0]);
      var rest := ReadLines(disk, first.stack, lines[1..]);
      Read(rest.stack, first.found + rest.found)
  }

  /** The directory walk: entry files, except below anything at the top whose name begins with ".git". */
  predicate Walked(p: Path) { EntryFile(p) && !(".git" <= p[0]) }

  ghost function WalkedNames(disk: Disk): set<string> {
    set p | p in disk.files && Walked(p) :: EntryName(p)
  }

  ghost function Listed(disk: Disk, listing: string): seq<string> {
    var found := ReadLines(disk, [], LinesOf(listing)).found;
    Listing(Bytes, if found == [] then WalkedNames(disk) else Elements(found))
  }

  method WalkEntries(disk: Disk) returns (entries: seq<string>)
    ensures Elements(entries) == WalkedNames(disk)
  {
    entries := [];
    var todo := disk.files;
    while todo != {}
      invariant todo <= disk.files
      invariant Elements(entries) == set p | p in disk.files && p !in todo && Walked(p) :: EntryName(p)
      decreases todo
    {
      var file :| file in todo;
      todo := todo - {file};
      if Walked(file) {
        ElementsOfSnoc(entries, EntryName(file));
        entries := entries + [EntryName(file)];
      }
    }
  }

  lemma ElementsOfSnoc(xs: seq<string>, x: string)
    ensures Elements(xs + [x]) == Elements(xs) + {x}
  {
  }

  method ReadTreeLine(disk: Disk, stack: Path, line: string) returns (next: Path, found: seq<string>)
    ensures Read(next, found) == ReadLine(disk, stack, line)
  {
    next, found := stack, [];
    var stripped := Trim(line);
    if stripped == "" || stripped == "Password Store" || !LooksLikeTreeLine(line) {
      return;
    }
    var depth, offset := TreeDepth(line);
    if offset + 4 > |line| {
      return;
    }
    var name := Trim(line[offset + 4..]);
    next := Resized(stack, depth);
    var candidate := Filled(next + [name]);
    if candidate in disk.folders {
      next := next + [name];
    }
    if HasEntry(disk, candidate) {
      found := [Joined(candidate)];
    }
  }

  method ReadTree(disk: Disk, listing: string) returns (entries: seq<string>)
    ensures entries == ReadLines(disk, [], LinesOf(listing)).found
  {
    var lines := LinesOf(listing);
    entries := [];
    var stack: Path := [];
    ghost var all := ReadLines(disk, [], lines).found;
    assert entries + all == all && lines[0..] == lines;
    var i := 0;
    while i < |lines|
      invariant 0 <= i <= |lines|
      invariant entries + ReadLines(disk, stack, lines[i..]).found == all
    {
      ReadNext(disk, stack, lines, i, entries);
      hide ReadLine, ReadLines;
      var found;
      stack, found := ReadTreeLine(disk, stack, lines[i]);
      entries := entries + found;
      i := i + 1;
    }
    assert lines[i..] == [];
  }

  lemma ReadNext(disk: Disk, stack: Path, lines: seq<string>, i: nat, before: seq<string>)
    requires i < |lines|
    ensures var first := ReadLine(disk, stack, lines[i]);
      before + ReadLines(disk, stack, lines[i..]).found
        == (before + first.found) + ReadLines(disk, first.stack, lines[i + 1..]).found
      && before + [] == before
  {
    assert lines[i..][1..] == lines[i + 1..];
  }

  /** `listing` is what `pass ls` printed, None when it failed. */
  method ListEntries(disk: Disk, listing: Option<string>) returns (entries: Option<seq<string>>)
    ensures entries == if listing.None? then None else Some(Listed(disk, listing.value))
  {
    if listing.None? {
      return None;
    }
    var found := ReadTree(disk, listing.value);
    if found == [] {
      found := WalkEntries(disk);
    }
    var sorted := SortUnique(Bytes, found);
    ListingSorts(Bytes, Elements(found));
    SortUniqueSorts(Bytes, found);
    SortedListIsUnique(Bytes, sorted, Listing(Bytes, Elements(found)));
    entries := Some(sorted);
  }

  // ---------------------------------------------------------------- which files are entries

  /** An entry's file has the entry's last name and ".gpg" after it. */
  lemma EntryFilesExactly(p: Path)
    ensures EntryFile(p) <==> p != [] && exists stem: string :: stem != "" && p[|p| - 1] == stem + ".gpg"
    ensures forall stem: string :: p != [] && stem != "" && p[|p| - 1] == stem + ".gpg" ==> EntryName(p) == Joined(p[..|p| - 1] + [stem])
  {
    if EntryFile(p) { assert p[|p| - 1] == Stem(p[|p| - 1]) + ".gpg"; }
    forall stem: string | p != [] && stem != "" && p[|p| - 1] == stem + ".gpg"
      ensures EntryFile(p) && EntryName(p) == Joined(p[..|p| - 1] + [stem])
    {
      assert Stem(p[|p| - 1]) == stem;
    }
  }

  /** A file of this folder for an entry of this last name, where the walk looks. */
  ghost predicate WalkedAt(disk: Disk, folder: Path, stem: string) {
    && stem != "" && folder + [stem + ".gpg"] in disk.files
    && !(".git" <= (folder + [stem + ".gpg"])[0])
  }

  /**
   What the walk lists: exactly the names of the files with ".gpg" after a name, at any depth,
   whose path does not begin with ".git".
   */
  lemma WalkIsExact(disk: Disk, name: string)
    ensures name in WalkedNames(disk) <==> exists folder: Path, stem: string :: WalkedAt(disk, folder, stem) && name == Joined(folder + [stem])
  {
    if name in WalkedNames(disk) {
      var p :| p in disk.files && Walked(p) && EntryName(p) == name;
      var folder, stem := p[..|p| - 1], Stem(p[|p| - 1]);
      assert p[|p| - 1] == stem + ".gpg";
      assert p == folder + [stem + ".gpg"];
      assert WalkedAt(disk, folder, stem);
    }
    if folder: Path, stem: string :| WalkedAt(disk, folder, stem) && name == Joined(folder + [stem]) {
      var p := folder + [stem + ".gpg"];
      assert p[|p| - 1] == stem + ".gpg" && p[..|p| - 1] == folder;
      EntryFilesExactly(p);
    }
  }
}
