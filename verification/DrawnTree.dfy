/** Reading a drawn tree gives back the entries that were drawn. */
module DrawnTree {
  import opened Options
  import opened Ordering
  import opened Text
  import opened PathNames
  import opened TreeListing

  datatype Node = File(name: string) | Folder(name: string, kids: seq<Node>)

  // ---------------------------------------------------------------- the tree on disk

  function FilesOf(n: Node, at: Path): set<Path> {
    match n
    case File(name) => {at + [name]}
    case Folder(name, kids) => FilesIn(kids, at + [name])
  }

  function FilesIn(nodes: seq<Node>, at: Path): set<Path> {
    if nodes == [] then {} else FilesOf(nodes[0], at) + FilesIn(nodes[1..], at)
  }

  function FoldersOf(n: Node, at: Path): set<Path> {
    match n
    case File(_) => {}
    case Folder(name, kids) => {at + [name]} + FoldersIn(kids, at + [name])
  }

  function FoldersIn(nodes: seq<Node>, at: Path): set<Path> {
    if nodes == [] then {} else FoldersOf(nodes[0], at) + FoldersIn(nodes[1..], at)
  }

  function DiskOf(nodes: seq<Node>): Disk { Disk(FoldersIn(nodes, []), FilesIn(nodes, [])) }

  predicate Hidden(name: string) { name != "" && name[0] == '.' }

  /** No component begins with a dot. */
  predicate InSight(p: Path) { forall i :: 0 <= i < |p| ==> !Hidden(p[i]) }

  // ---------------------------------------------------------------- drawing it

  /** The extension of encrypted files is taken off every line. */
  function Drawn(n: Node): string { if IsGpg(n.name) then Stem(n.name) else n.name }

  predicate AllHidden(nodes: seq<Node>) { forall i :: 0 <= i < |nodes| ==> Hidden(nodes[i].name) }

  /** `more` says for each folder above whether it has further siblings below it. */
  function Indent(more: seq<bool>): string {
    if more == [] then "" else (if more[0] then BAR else GAP) + Indent(more[1..])
  }

  function Line(n: Node, more: seq<bool>, last: bool): string {
    Indent(more) + (if last then CORNER else FORK) + Drawn(n)
  }

  function DrawNode(n: Node, more: seq<bool>, last: bool): seq<string> {
    [Line(n, more, last)] + if n.Folder? then Draw(n.kids, more + [!last]) else []
  }

  function Draw(nodes: seq<Node>, more: seq<bool>): seq<string> {
    if nodes == [] then []
    else (if Hidden(nodes[0].name) then [] else DrawNode(nodes[0], more, AllHidden(nodes[1..]))) + Draw(nodes[1..], more)
  }

  function Print(lines: seq<string>): string {
    if lines == [] then "" else lines[0] + "\n" + Print(lines[1..])
  }

  function ListingText(nodes: seq<Node>): string { Print(["Password Store"] + Draw(nodes, [])) }

  /** Names that survive a line of text, and no visible directory that looks like an encrypted file. */
  predicate TidyNode(n: Node) {
    Hidden(n.name) ||
    (&& Drawn(n) != "" && Trimmed(Drawn(n)) && '\n' !in n.name
     && (n.Folder? ==> !IsGpg(n.name) && Tidy(n.kids)))
  }

  predicate Tidy(nodes: seq<Node>) { nodes != [] ==> TidyNode(nodes[0]) && Tidy(nodes[1..]) }

  /** Names as a file system has them. */
  predicate RealNode(n: Node) { n.name != "" && '/' !in n.name && (n.Folder? ==> Real(n.kids)) }

  predicate Real(nodes: seq<Node>) { nodes != [] ==> RealNode(nodes[0]) && Real(nodes[1..]) }

  // ---------------------------------------------------------------- one line

  lemma DepthOfConnector(connector: string, name: string)
    requires connector == FORK || connector == CORNER
    ensures Depth(connector + name) == 0 && |connector| == 4 && (connector + name)[4..] == name
  {
    assert (connector + name)[..4] == connector;
  }

  lemma DepthOfChunk(chunk: string, rest: string)
    requires chunk == BAR || chunk == GAP
    ensures Depth(chunk + rest) == 1 + Depth(rest) && |chunk| == 4
  {
    assert (chunk + rest)[..4] == chunk && (chunk + rest)[4..] == rest;
  }

  lemma {:induction false} DepthOfIndent(more: seq<bool>, rest: string)
    requires Depth(rest) == 0
    ensures |Indent(more)| == 4 * |more| && Depth(Indent(more) + rest) == |more|
  {
    if more == [] {
      assert Indent(more) + rest == rest;
    } else {
      var chunk, indent := if more[0] then BAR else GAP, Indent(more[1..]);
      DepthOfIndent(more[1..], rest);
      DepthOfChunk(chunk, indent + rest);
      assert (chunk + indent) + rest == chunk + (indent + rest);
      hide Depth;
    }
  }

  lemma DepthOfLine(more: seq<bool>, connector: string, name: string)
    requires connector == FORK || connector == CORNER
    ensures var line := Indent(more) + connector + name;
      Depth(line) == |more| && |line| == 4 * |more| + 4 + |name| && line[4 * |more| + 4..] == name
  {
    DepthOfConnector(connector, name);
    DepthOfIndent(more, connector + name);
    hide Depth, Indent;
    assert Indent(more) + connector + name == Indent(more) + (connector + name);
  }

  lemma {:induction false} ContainsConnector(before: string, connector: string, after: string)
    ensures Contains(before + connector + after, connector)
  {
    if before == "" {
      assert before + connector + after == connector + after;
    } else {
      ContainsConnector(before[1..], connector, after);
      assert (before + connector + after)[1..] == before[1..] + connector + after;
    }
  }

  lemma {:induction false} TrimStartKeeps(s: string, c: char)
    requires c in s && !IsSpace(c)
    ensures c in TrimStart(s)
  {
    if IsSpace(s[0]) {
      assert s == [s[0]] + s[1..];
      TrimStartKeeps(s[1..], c);
    }
  }

  lemma {:induction false} TrimEndKeeps(s: string, c: char)
    requires c in s && !IsSpace(c)
    ensures c in TrimEnd(s)
  {
    if IsSpace(s[|s| - 1]) {
      assert s == s[..|s| - 1] + [s[|s| - 1]];
      TrimEndKeeps(s[..|s| - 1], c);
    }
  }

  lemma DrawnLineCounts(more: seq<bool>, connector: string, name: string)
    requires connector == FORK || connector == CORNER
    ensures !Skipped(Indent(more) + connector + name)
  {
    var line := Indent(more) + connector + name;
    DepthOfLine(more, connector, name);
    ContainsConnector(Indent(more), connector, name);
    assert connector[1] == '-' && line[|Indent(more)| + 1] == '-';
    TrimStartKeeps(line, '-');
    TrimEndKeeps(TrimStart(line), '-');
    assert '-' !in "Password Store";
  }

  lemma LineIsRead(disk: Disk, stack: Path, n: Node, more: seq<bool>, last: bool)
    requires Trimmed(Drawn(n))
    ensures ReadLine(disk, stack, Line(n, more, last)) == ReadNode(disk, stack, |more|, Drawn(n))
  {
    var connector := if last then CORNER else FORK;
    DrawnLineCounts(more, connector, Drawn(n));
    DepthOfLine(more, connector, Drawn(n));
    TrimFacts(Drawn(n));
  }

  // ---------------------------------------------------------------- one node

  ghost predicate NoEntryFolders(disk: Disk) {
    forall p :: p in disk.folders && InSight(p) && p != [] ==> !IsGpg(p[|p| - 1])
  }

  predicate Visible(p: Path) { EntryFile(p) && InSight(p) }

  ghost function VisibleNames(disk: Disk): set<string> {
    set p | p in disk.files && Visible(p) :: EntryName(p)
  }

  lemma StemOfGpg(name: string)
    requires name != ""
    ensures IsGpg(name + GPG) && Stem(name + GPG) == name
  {
  }

  lemma EntryOfCandidate(at: Path, name: string)
    requires name != ""
    ensures var file := at + [name + GPG]; EntryFile(file) && EntryName(file) == Joined(at + [name])
  {
    StemOfGpg(name);
    var file := at + [name + GPG];
    assert file[..|file| - 1] == at;
  }

  lemma InSightSnoc(at: Path, name: string)
    ensures InSight(at + [name]) <==> InSight(at) && !Hidden(name)
  {
    assert forall i :: 0 <= i < |at| ==> (at + [name])[i] == at[i];
    assert (at + [name])[|at|] == name;
  }

  lemma ComponentsSnoc(at: Path, name: string)
    requires PathNames.Components(at) && name != "" && '/' !in name
    ensures PathNames.Components(at + [name])
  {
  }

  /** What a drawn node adds: at most a visible entry, and its own if it is one; a folder becomes the top of the stack. */
  lemma NodeIsRead(disk: Disk, n: Node, at: Path, stack: Path)
    requires n.name != "" && '/' !in n.name && !Hidden(n.name) && Drawn(n) != ""
    requires PathNames.Components(at) && InSight(at) && at <= stack && NoEntryFolders(disk)
    requires if n.File? then at + [n.name] in disk.files else at + [n.name] in disk.folders && !IsGpg(n.name)
    ensures var r := ReadNode(disk, stack, |at|, Drawn(n));
      && at <= r.stack && (n.Folder? ==> r.stack == at + [n.name])
      && Elements(r.found) <= VisibleNames(disk)
      && (n.File? && IsGpg(n.name) ==> EntryName(at + [n.name]) in r.found)
  {
    hide Resized, Filled, HasEntry, EntryName, IsGpg, Stem;
    var name := Drawn(n);
    DrawnStem(n);
    CandidateIsRead(disk, stack, at, name);
    EntryOfCandidate(at, name);
    CandidateInSight(disk, at, n);
    HasEntrySnoc(disk, at, name);
  }

  lemma DrawnStem(n: Node)
    ensures if IsGpg(n.name) then Drawn(n) + GPG == n.name else Drawn(n) == n.name
    ensures Drawn(n) != "" && !Hidden(n.name) ==> !Hidden(Drawn(n) + GPG)
    ensures '/' !in n.name ==> '/' !in Drawn(n)
  {
  }

  lemma CandidateInSight(disk: Disk, at: Path, n: Node)
    requires InSight(at) && NoEntryFolders(disk) && Drawn(n) != "" && !Hidden(n.name)
    ensures var file := at + [Drawn(n) + GPG];
      file !in disk.folders && (file in disk.files ==> EntryFile(file) && EntryName(file) in VisibleNames(disk))
  {
    var file := at + [Drawn(n) + GPG];
    DrawnStem(n);
    StemOfGpg(Drawn(n));
    InSightSnoc(at, Drawn(n) + GPG);
    assert Visible(file);
  }

  lemma HasEntrySnoc(disk: Disk, at: Path, name: string)
    ensures HasEntry(disk, at + [name]) <==> at + [name + GPG] in disk.files || at + [name + GPG] in disk.folders
  {
    assert (at + [name])[..|at|] == at;
  }

  lemma CandidateIsRead(disk: Disk, stack: Path, at: Path, name: string)
    requires PathNames.Components(at) && at <= stack && name != "" && '/' !in name
    ensures ReadNode(disk, stack, |at|, name)
         == Read(if at + [name] in disk.folders then at + [name] else at,
                 if HasEntry(disk, at + [name]) then [Joined(at + [name])] else [])
  {
    assert Resized(stack, |at|) == at;
    ComponentsSnoc(at, name);
    FilledKeeps(at + [name]);
  }

  // ---------------------------------------------------------------- the whole drawing

  lemma {:induction false} ReadConcat(disk: Disk, stack: Path, a: seq<string>, b: seq<string>)
    ensures var first := ReadLines(disk, stack, a); var second := ReadLines(disk, first.stack, b);
      ReadLines(disk, stack, a + b) == Read(second.stack, first.found + second.found)
    decreases |a|
  {
    hide ReadLine;
    if a == [] {
      assert a + b == b;
    } else {
      ReadConcat(disk, ReadLine(disk, stack, a[0]).stack, a[1..], b);
      assert (a + b)[1..] == a[1..] + b;
    }
  }

  lemma {:induction false} FilesAreBelow(n: Node, at: Path, p: Path)
    requires p in FilesOf(n, at)
    ensures |p| > |at| && p[..|at|] == at && p[|at|] == n.name
    decreases n
  {
    if n.Folder? {
      var m := FilesComeFromNode(n.kids, at + [n.name], p);
      FilesAreBelow(m, at + [n.name], p);
      assert p[..|at|] == p[..|at| + 1][..|at|] && p[|at|] == p[..|at| + 1][|at|];
    }
  }

  lemma {:induction false} FilesComeFromNode(nodes: seq<Node>, at: Path, p: Path) returns (n: Node)
    requires p in FilesIn(nodes, at)
    ensures n in nodes && p in FilesOf(n, at)
  {
    if p in FilesOf(nodes[0], at) {
      n := nodes[0];
    } else {
      n := FilesComeFromNode(nodes[1..], at, p);
    }
  }

  lemma HiddenNodeHidesFiles(n: Node, at: Path)
    requires Hidden(n.name)
    ensures forall p :: p in FilesOf(n, at) ==> !InSight(p)
  {
    forall p | p in FilesOf(n, at) ensures !InSight(p) {
      FilesAreBelow(n, at, p);
      assert Hidden(p[|at|]);
    }
  }

  /** `disk` holds what is drawn, perhaps among other things. */
  ghost predicate OnDisk(disk: Disk, nodes: seq<Node>, at: Path) {
    FilesIn(nodes, at) <= disk.files && FoldersIn(nodes, at) <= disk.folders
  }

  /** Where the reader stands, and what it has found, after some lines drawn at `at`. */
  ghost predicate ReadWell(disk: Disk, files: set<Path>, at: Path, r: Read) {
    && at <= r.stack
    && Elements(r.found) <= VisibleNames(disk)
    && forall p :: p in files && Visible(p) ==> EntryName(p) in r.found
  }

  lemma ReadWellConcat(disk: Disk, f: set<Path>, g: set<Path>, at: Path, a: Read, b: Read)
    requires ReadWell(disk, f, at, a) && ReadWell(disk, g, at, b)
    ensures ReadWell(disk, f + g, at, Read(b.stack, a.found + b.found))
  {
    forall e | e in Elements(a.found + b.found) ensures e in VisibleNames(disk) {
      assert e in Elements(a.found) || e in Elements(b.found);
    }
  }

  lemma {:induction false} DrawnNodeIsRead(disk: Disk, n: Node, at: Path, stack: Path, more: seq<bool>, last: bool)
    requires TidyNode(n) && RealNode(n) && !Hidden(n.name)
    requires PathNames.Components(at) && InSight(at) && at <= stack && |more| == |at| && NoEntryFolders(disk)
    requires FilesOf(n, at) <= disk.files && FoldersOf(n, at) <= disk.folders
    ensures ReadWell(disk, FilesOf(n, at), at, ReadLines(disk, stack, DrawNode(n, more, last)))
    decreases n, 1
  {
    var here := at + [n.name];
    var first := ReadNode(disk, stack, |at|, Drawn(n));
    LineIsRead(disk, stack, n, more, last);
    OneLineRead(disk, stack, Line(n, more, last));
    if n.File? {
      NodeIsRead(disk, n, at, stack);
      assert DrawNode(n, more, last) == [Line(n, more, last)];
    } else {
      assert here in FoldersOf(n, at);
      NodeIsRead(disk, n, at, stack);
      ComponentsSnoc(at, n.name);
      InSightSnoc(at, n.name);
      DrawnTreeIsRead(disk, n.kids, here, here, more + [!last]);
      ReadConcat(disk, stack, [Line(n, more, last)], Draw(n.kids, more + [!last]));
      BelowHere(disk, FilesOf(n, at), at, n.name, first, ReadLines(disk, here, Draw(n.kids, more + [!last])));
    }
  }

  lemma OneLineRead(disk: Disk, stack: Path, line: string)
    ensures ReadLines(disk, stack, [line]) == ReadLine(disk, stack, line)
  {
    var first := ReadLine(disk, stack, line);
    assert ReadLines(disk, first.stack, [line][1..]) == Read(first.stack, []);
    assert first.found + [] == first.found;
  }

  lemma BelowHere(disk: Disk, files: set<Path>, at: Path, name: string, first: Read, rest: Read)
    requires Elements(first.found) <= VisibleNames(disk)
    requires ReadWell(disk, files, at + [name], rest)
    ensures ReadWell(disk, files, at, Read(rest.stack, first.found + rest.found))
  {
    assert at <= at + [name] <= rest.stack;
    forall e | e in Elements(first.found + rest.found) ensures e in VisibleNames(disk) {
      assert e in Elements(first.found) || e in Elements(rest.found);
    }
  }

  lemma {:induction false} DrawnTreeIsRead(disk: Disk, nodes: seq<Node>, at: Path, stack: Path, more: seq<bool>)
    requires Tidy(nodes) && Real(nodes)
    requires PathNames.Components(at) && InSight(at) && at <= stack && |more| == |at| && NoEntryFolders(disk)
    requires OnDisk(disk, nodes, at)
    ensures ReadWell(disk, FilesIn(nodes, at), at, ReadLines(disk, stack, Draw(nodes, more)))
    decreases nodes, 0
  {
    if nodes != [] {
      var n, rest := nodes[0], nodes[1..];
      if Hidden(n.name) {
        HiddenNodeHidesFiles(n, at);
        DrawnTreeIsRead(disk, rest, at, stack, more);
        assert [] + Draw(rest, more) == Draw(rest, more);
      } else {
        var last := AllHidden(rest);
        var a := ReadLines(disk, stack, DrawNode(n, more, last));
        DrawnNodeIsRead(disk, n, at, stack, more, last);
        DrawnTreeIsRead(disk, rest, at, a.stack, more);
        ReadConcat(disk, stack, DrawNode(n, more, last), Draw(rest, more));
        ReadWellConcat(disk, FilesOf(n, at), FilesIn(rest, at), at, a, ReadLines(disk, a.stack, Draw(rest, more)));
      }
    }
  }

  // ---------------------------------------------------------------- the listing as a text

  lemma {:induction false} LinesOfPrint(lines: seq<string>)
    requires forall i :: 0 <= i < |lines| ==> '\n' !in lines[i]
    ensures LinesOf(Print(lines)) == lines
  {
    if lines != [] {
      LinesOfPrint(lines[1..]);
      LinesOfLine(lines[0], Print(lines[1..]));
      assert lines == [lines[0]] + lines[1..];
    }
  }

  ghost predicate SingleLines(lines: seq<string>) { forall i :: 0 <= i < |lines| ==> '\n' !in lines[i] }

  lemma {:induction false} IndentIsOneLine(more: seq<bool>)
    ensures '\n' !in Indent(more)
  {
    if more != [] { IndentIsOneLine(more[1..]); }
  }

  lemma {:induction false} NodeLinesAreSingle(n: Node, more: seq<bool>, last: bool)
    requires TidyNode(n) && !Hidden(n.name)
    ensures SingleLines(DrawNode(n, more, last))
    decreases n, 1
  {
    IndentIsOneLine(more);
    if n.Folder? { DrawnLinesAreSingle(n.kids, more + [!last]); }
  }

  lemma {:induction false} DrawnLinesAreSingle(nodes: seq<Node>, more: seq<bool>)
    requires Tidy(nodes)
    ensures SingleLines(Draw(nodes, more))
    decreases nodes, 0
  {
    if nodes != [] {
      if !Hidden(nodes[0].name) { NodeLinesAreSingle(nodes[0], more, AllHidden(nodes[1..])); }
      DrawnLinesAreSingle(nodes[1..], more);
    }
  }

  lemma HeaderIsSkipped(disk: Disk, lines: seq<string>)
    ensures ReadLines(disk, [], ["Password Store"] + lines) == ReadLines(disk, [], lines)
  {
    var header := "Password Store";
    TrimFacts(header);
    assert Trimmed(header) && Skipped(header);
    assert ([header] + lines)[1..] == lines;
    assert [] + ReadLines(disk, [], lines).found == ReadLines(disk, [], lines).found;
  }

  lemma {:induction false} FoldersAreBelow(n: Node, at: Path, p: Path)
    requires p in FoldersOf(n, at)
    ensures |p| > |at| && p[..|at|] == at && p[|at|] == n.name
    decreases n
  {
    if p != at + [n.name] {
      var m := FoldersComeFromNode(n.kids, at + [n.name], p);
      FoldersAreBelow(m, at + [n.name], p);
      assert p[..|at|] == p[..|at| + 1][..|at|] && p[|at|] == p[..|at| + 1][|at|];
    }
  }

  lemma {:induction false} FoldersComeFromNode(nodes: seq<Node>, at: Path, p: Path) returns (n: Node)
    requires p in FoldersIn(nodes, at)
    ensures n in nodes && p in FoldersOf(n, at) && (Tidy(nodes) ==> TidyNode(n))
  {
    if p in FoldersOf(nodes[0], at) {
      n := nodes[0];
    } else {
      n := FoldersComeFromNode(nodes[1..], at, p);
    }
  }

  lemma {:induction false} VisibleFoldersAreNoEntries(n: Node, at: Path, p: Path)
    requires TidyNode(n) && p in FoldersOf(n, at) && InSight(p)
    ensures p != [] && !IsGpg(p[|p| - 1])
    decreases n
  {
    FoldersAreBelow(n, at, p);
    assert !Hidden(p[|at|]);
    if p != at + [n.name] {
      var m := FoldersComeFromNode(n.kids, at + [n.name], p);
      VisibleFoldersAreNoEntries(m, at + [n.name], p);
    }
  }

  lemma TidyDisk(nodes: seq<Node>)
    requires Tidy(nodes)
    ensures NoEntryFolders(DiskOf(nodes))
  {
    forall p | p in DiskOf(nodes).folders && InSight(p) && p != [] ensures !IsGpg(p[|p| - 1]) {
      var n := FoldersComeFromNode(nodes, [], p);
      VisibleFoldersAreNoEntries(n, [], p);
    }
  }

  lemma ListingLines(disk: Disk, nodes: seq<Node>)
    requires Tidy(nodes)
    ensures ReadLines(disk, [], LinesOf(ListingText(nodes))) == ReadLines(disk, [], Draw(nodes, []))
  {
    var lines := Draw(nodes, []);
    DrawnLinesAreSingle(nodes, []);
    hide Tidy, Draw, ReadLines, LinesOf;
    LinesOfPrint(["Password Store"] + lines);
    HeaderIsSkipped(disk, lines);
  }

  lemma DrawnStoreReadsWell(nodes: seq<Node>)
    requires Tidy(nodes) && Real(nodes)
    ensures var disk := DiskOf(nodes); ReadWell(disk, disk.files, [], ReadLines(disk, [], Draw(nodes, [])))
  {
    TidyDisk(nodes);
    hide Tidy, Real, Draw, ReadLines, NoEntryFolders, ReadWell;
    DrawnTreeIsRead(DiskOf(nodes), nodes, [], [], []);
  }

  /** What the reader finds in the text of a drawn store: exactly the entries no component of which is hidden. */
  lemma DrawnStoreIsRead(nodes: seq<Node>)
    requires Tidy(nodes) && Real(nodes)
    ensures Elements(ReadLines(DiskOf(nodes), [], LinesOf(ListingText(nodes))).found) == VisibleNames(DiskOf(nodes))
  {
    hide ListingText, LinesOf, Tidy, Real, Draw, ReadLines, DiskOf, ReadWell, VisibleNames;
    ListingLines(DiskOf(nodes), nodes);
    DrawnStoreReadsWell(nodes);
    ReadWellIsVisible(DiskOf(nodes), ReadLines(DiskOf(nodes), [], Draw(nodes, [])));
  }

  lemma ReadWellIsVisible(disk: Disk, r: Read)
    requires ReadWell(disk, disk.files, [], r)
    ensures Elements(r.found) == VisibleNames(disk)
  {
    forall e | e in VisibleNames(disk) ensures e in Elements(r.found) {
      var p :| p in disk.files && Visible(p) && EntryName(p) == e;
    }
  }

  /** The listing: the visible entries, sorted and each once, or, when there are none, what the walk finds. */
  lemma ListingIsExact(nodes: seq<Node>)
    requires Tidy(nodes) && Real(nodes)
    ensures var disk := DiskOf(nodes); var visible := VisibleNames(disk);
      Listed(disk, ListingText(nodes)) == Listing(Bytes, if visible == {} then WalkedNames(disk) else visible)
  {
    DrawnStoreIsRead(nodes);
    var found := ReadLines(DiskOf(nodes), [], LinesOf(ListingText(nodes))).found;
    if found != [] { assert found[0] in Elements(found); }
  }

  // ---------------------------------------------------------------- listing against walking

  lemma {:induction false} FilesAreReal(nodes: seq<Node>, at: Path, p: Path)
    requires Real(nodes) && PathNames.Components(at) && p in FilesIn(nodes, at)
    ensures PathNames.Components(p)
    decreases nodes
  {
    if p in FilesOf(nodes[0], at) {
      ComponentsSnoc(at, nodes[0].name);
      if nodes[0].Folder? { FilesAreReal(nodes[0].kids, at + [nodes[0].name], p); }
    } else {
      FilesAreReal(nodes[1..], at, p);
    }
  }

  lemma EntryNamesAreUnique(p: Path, q: Path)
    requires EntryFile(p) && EntryFile(q) && PathNames.Components(p) && PathNames.Components(q) && EntryName(p) == EntryName(q)
    ensures p == q
  {
    SegmentsOfEntry(p);
    SegmentsOfEntry(q);
    hide EntryName, Segments, PathNames.Components;
    FileOfEntryPath(p);
    FileOfEntryPath(q);
  }

  lemma FileOfEntryPath(p: Path)
    requires EntryFile(p)
    ensures var e := EntryPath(p); e != [] && p == e[..|e| - 1] + [e[|e| - 1] + GPG]
  {
    var e, name := EntryPath(p), p[|p| - 1];
    assert name == name[..|name| - 4] + GPG;
    assert p == p[..|p| - 1] + [p[|p| - 1]];
    assert e[..|e| - 1] == p[..|p| - 1];
  }

  lemma SegmentsOfEntry(p: Path)
    requires EntryFile(p) && PathNames.Components(p)
    ensures Segments(EntryName(p)) == EntryPath(p)
  {
    var stem := Stem(p[|p| - 1]);
    assert forall i :: 0 <= i < |stem| ==> stem[i] == p[|p| - 1][i];
    SegmentsOfJoined(EntryPath(p));
  }

  /** The walk finds every visible entry too. */
  lemma VisibleIsWalked(disk: Disk)
    ensures VisibleNames(disk) <= WalkedNames(disk)
  {
    forall p | p in disk.files && Visible(p) ensures EntryName(p) in WalkedNames(disk) {
      assert !Hidden(p[0]) && Walked(p);
    }
  }

  ghost predicate NothingWalkedIsHidden(disk: Disk) {
    forall p :: p in disk.files && Walked(p) ==> InSight(p)
  }

  lemma ListingDeterminesSet(a: set<string>, b: set<string>)
    ensures Listing(Bytes, a) == Listing(Bytes, b) <==> a == b
  {
    ListingSorts(Bytes, a);
    ListingSorts(Bytes, b);
  }

  lemma HiddenDecides(nodes: seq<Node>)
    requires Real(nodes)
    ensures var disk := DiskOf(nodes); VisibleNames(disk) == WalkedNames(disk) <==> NothingWalkedIsHidden(disk)
  {
    var disk := DiskOf(nodes);
    VisibleIsWalked(disk);
    if NothingWalkedIsHidden(disk) {
      forall e | e in WalkedNames(disk) ensures e in VisibleNames(disk) {
        var p :| p in disk.files && Walked(p) && EntryName(p) == e;
        assert Visible(p);
      }
    } else {
      var p :| p in disk.files && Walked(p) && !InSight(p);
      HiddenEntryIsNotVisible(nodes, p);
      assert EntryName(p) in WalkedNames(disk);
    }
  }

  /** Reading the drawing and walking the directories list the same entries exactly if no entry is hidden, or all are. */
  lemma ListingMatchesWalk(nodes: seq<Node>)
    requires Tidy(nodes) && Real(nodes)
    ensures var disk := DiskOf(nodes);
      (Listed(disk, ListingText(nodes)) == Listing(Bytes, WalkedNames(disk)))
      <==> (NothingWalkedIsHidden(disk) || VisibleNames(disk) == {})
  {
    ListingIsExact(nodes);
    HiddenDecides(nodes);
    ListingDeterminesSet(VisibleNames(DiskOf(nodes)), WalkedNames(DiskOf(nodes)));
  }

  lemma HiddenEntryIsNotVisible(nodes: seq<Node>, p: Path)
    requires Real(nodes) && p in DiskOf(nodes).files && EntryFile(p) && !InSight(p)
    ensures EntryName(p) !in VisibleNames(DiskOf(nodes))
  {
    FilesAreReal(nodes, [], p);
    forall q | q in DiskOf(nodes).files && Visible(q) ensures EntryName(q) != EntryName(p) {
      FilesAreReal(nodes, [], q);
      if EntryName(q) == EntryName(p) { EntryNamesAreUnique(p, q); }
    }
  }

  /**
   Why a tidy store has no folder that is named like an entry file: whatever else is in the
   store, it is drawn without its extension, and its line is then read as that of an entry.
   */
  lemma EntryFolderIsListed(disk: Disk, stack: Path, at: Path, stem: string, kids: seq<Node>, more: seq<bool>, last: bool)
    requires PathNames.Components(at) && at <= stack && |more| == |at|
    requires stem != "" && '/' !in stem && Trimmed(stem) && at + [stem + GPG] in disk.folders
    ensures ReadLine(disk, stack, Line(Folder(stem + GPG, kids), more, last)).found == [Joined(at + [stem])]
  {
    var n := Folder(stem + GPG, kids);
    assert n.name[..|n.name| - 4] == stem && n.name[|n.name| - 4..] == GPG;
    assert Drawn(n) == stem;
    hide Drawn, Line, ReadLine, ReadNode, HasEntry, Joined;
    LineIsRead(disk, stack, n, more, last);
    CandidateIsRead(disk, stack, at, stem);
    HasEntrySnoc(disk, at, stem);
  }
}
