/**
 Browsing entries by folder. The list of entry names is all there is; folders, their
 children and the items of each screen are derived from it.
 */
module FolderBrowser {
  import opened Options
  import opened Ordering
  import opened Text
  import opened PathNames
  import opened EntryNames

  // ---------------------------------------------------------------- folders

  function FolderPath(entry: string): seq<string> { Segments(ParentFolder(entry)) }

  ghost function Prefixes(parts: seq<string>, n: nat): set<string>
    requires n <= |parts|
  {
    set k | 0 < k <= n :: Joined(parts[..k])
  }

  lemma OnePrefixMore(parts: seq<string>, k: nat)
    requires k < |parts|
    ensures Prefixes(parts, k + 1) == Prefixes(parts, k) + {Joined(parts[..k + 1])}
  {
  }

  /** The folder of an entry and all folders around it. */
  ghost function FoldersAround(entry: string): set<string> { Prefixes(FolderPath(entry), |FolderPath(entry)|) }

  ghost function KnownFolders(entries: seq<string>): set<string> {
    set i, f | 0 <= i < |entries| && f in FoldersAround(entries[i]) :: f
  }

  method CollectKnownFolders(entries: seq<string>) returns (folders: seq<string>)
    ensures folders == Listing(Bytes, KnownFolders(entries))
  {
    var all: seq<string> := [];
    var i := 0;
    while i < |entries|
      invariant 0 <= i <= |entries|
      invariant Elements(all) == KnownFolders(entries[..i])
    {
      var around := CollectFoldersAround(entries[i]);
      KnownFoldersSnoc(entries, i);
      ElementsOfConcat(all, around);
      all := all + around;
      i := i + 1;
    }
    assert entries[..i] == entries;
    folders := SortedListing(all);
  }

  lemma KnownFoldersSnoc(entries: seq<string>, i: nat)
    requires i < |entries|
    ensures KnownFolders(entries[..i + 1]) == KnownFolders(entries[..i]) + FoldersAround(entries[i])
  {
    assert entries[..i + 1] == entries[..i] + [entries[i]];
    forall f | f in KnownFolders(entries[..i]) + FoldersAround(entries[i]) ensures f in KnownFolders(entries[..i + 1]) {
      if f in FoldersAround(entries[i]) {
        assert entries[..i + 1][i] == entries[i];
      } else {
        var j :| 0 <= j < i && f in FoldersAround(entries[..i][j]);
        assert entries[..i + 1][j] == entries[..i][j];
      }
    }
    forall f | f in KnownFolders(entries[..i + 1]) ensures f in KnownFolders(entries[..i]) + FoldersAround(entries[i]) {
      var j :| 0 <= j < i + 1 && f in FoldersAround(entries[..i + 1][j]);
      if j < i { assert entries[..i][j] == entries[..i + 1][j]; }
    }
  }

  lemma ElementsOfConcat(xs: seq<string>, ys: seq<string>)
    ensures Elements(xs + ys) == Elements(xs) + Elements(ys)
  {
  }

  method CollectFoldersAround(entry: string) returns (folders: seq<string>)
    ensures Elements(folders) == FoldersAround(entry)
  {
    var parts := FolderPath(entry);
    folders := [];
    var current := "";
    var k := 0;
    while k < |parts|
      invariant 0 <= k <= |parts| && current == Joined(parts[..k])
      invariant Elements(folders) == Prefixes(parts, k)
    {
      JoinedSnoc(parts[..k], parts[k]);
      assert parts[..k + 1] == parts[..k] + [parts[k]];
      current := if k == 0 then parts[k] else current + "/" + parts[k];
      OnePrefixMore(parts, k);
      hide Joined, Prefixes;
      ElementsOfConcat(folders, [current]);
      folders := folders + [current];
      k := k + 1;
    }
  }

  method SortedListing(xs: seq<string>) returns (sorted: seq<string>)
    ensures sorted == Listing(Bytes, Elements(xs))
  {
    sorted := SortUnique(Bytes, xs);
    SortUniqueSorts(Bytes, xs);
    ListingSorts(Bytes, Elements(xs));
    SortedListIsUnique(Bytes, sorted, Listing(Bytes, Elements(xs)));
  }

  /** The first name in a path. */
  function Head(path: string): string {
    match IndexOf(path, '/') case None => path case Some(slash) => path[..slash]
  }

  function FolderPrefix(folder: string): string { if folder == "" then "" else folder + "/" }

  predicate HasChild(known: string, folder: string) {
    var prefix := FolderPrefix(folder);
    prefix <= known && |known| > |prefix|
  }

  function ChildOf(known: string, folder: string): string
    requires HasChild(known, folder)
  {
    Head(known[|FolderPrefix(folder)|..])
  }

  ghost function Children(known: set<string>, folder: string): set<string> {
    set f | f in known && HasChild(f, folder) :: ChildOf(f, folder)
  }

  lemma ChildrenOfOneMore(known: set<string>, f: string, folder: string)
    ensures Children(known + Elements([f]), folder)
         == Children(known, folder) + if HasChild(f, folder) then Elements([ChildOf(f, folder)]) else {}
  {
    var more := known + Elements([f]);
    assert forall g :: g in more <==> g in known || g == f;
    forall c | c in Children(known, folder) ensures c in Children(more, folder) {
      var g :| g in known && HasChild(g, folder) && ChildOf(g, folder) == c;
      assert g in more;
    }
  }

  method ChildFoldersOf(known: seq<string>, folder: string) returns (children: seq<string>)
    ensures children == Listing(Bytes, Children(Elements(known), folder))
  {
    var found: seq<string> := [];
    var prefix := FolderPrefix(folder);
    var i := 0;
    while i < |known|
      invariant 0 <= i <= |known|
      invariant Elements(found) == Children(Elements(known[..i]), folder)
    {
      assert known[..i + 1] == known[..i] + [known[i]];
      ElementsOfConcat(known[..i], [known[i]]);
      ChildrenOfOneMore(Elements(known[..i]), known[i], folder);
      if prefix <= known[i] && known[i][|prefix|..] != "" {
        var remainder := known[i][|prefix|..];
        var slash := IndexOf(remainder, '/');
        var child := if slash.None? then remainder else remainder[..slash.value];
        ElementsOfConcat(found, [child]);
        found := found + [child];
      }
      i := i + 1;
    }
    assert known[..i] == known;
    children := SortedListing(found);
  }

  // ---------------------------------------------------------------- the items of a screen

  datatype Item = Item(isFolder: bool, path: string, caption: string)

  predicate ItemLess(a: Item, b: Item) {
    if a.isFolder != b.isFolder then a.isFolder else Less(Bytes, a.caption, b.caption)
  }

  function FolderItem(folder: string, child: string): Item {
    Item(true, if folder == "" then child else folder + "/" + child, child)
  }

  function FolderItems(folder: string, children: seq<string>): seq<Item> {
    if children == [] then [] else FolderItems(folder, children[..|children| - 1]) + [FolderItem(folder, children[|children| - 1])]
  }

  predicate IsAt(entry: string, folder: string) {
    var shown := DescribeEntry(entry).folder;
    (if shown == "/" then "" else shown) == folder
  }

  function EntryItem(entry: string): Item { Item(false, entry, DescribeEntry(entry).leaf) }

  function EntryItems(entries: seq<string>, folder: string): seq<Item> {
    if entries == [] then []
    else
      var last := entries[|entries| - 1];
      EntryItems(entries[..|entries| - 1], folder) + if IsAt(last, folder) then [EntryItem(last)] else []
  }

  function InsertItem(item: Item, items: seq<Item>): seq<Item> {
    if items == [] || !ItemLess(items[0], item) then [item] + items else [items[0]] + InsertItem(item, items[1..])
  }

  function SortItems(items: seq<Item>): seq<Item> {
    if items == [] then [] else InsertItem(items[0], SortItems(items[1..]))
  }

  ghost function Screen(entries: seq<string>, folder: string): seq<Item> {
    SortItems(FolderItems(folder, Listing(Bytes, Children(KnownFolders(entries), folder))) + EntryItems(entries, folder))
  }

  method BuildFolderItems(children: seq<string>, folder: string) returns (items: seq<Item>)
    ensures items == FolderItems(folder, children)
  {
    items := [];
    var i := 0;
    while i < |children|
      invariant 0 <= i <= |children| && items == FolderItems(folder, children[..i])
    {
      assert children[..i + 1][..i] == children[..i];
      items := items + [Item(true, if folder == "" then children[i] else folder + "/" + children[i], children[i])];
      i := i + 1;
    }
    assert children[..i] == children;
  }

  lemma NextEntryItems(entries: seq<string>, i: nat, folder: string)
    requires i < |entries|
    ensures EntryItems(entries[..i + 1], folder)
         == EntryItems(entries[..i], folder) + if IsAt(entries[i], folder) then [EntryItem(entries[i])] else []
  {
    hide IsAt, EntryItem;
    assert entries[..i + 1][..i] == entries[..i];
  }

  method BuildEntryItems(entries: seq<string>, folder: string) returns (items: seq<Item>)
    ensures items == EntryItems(entries, folder)
  {
    items := [];
    var i := 0;
    while i < |entries|
      invariant 0 <= i <= |entries| && items == EntryItems(entries[..i], folder)
    {
      NextEntryItems(entries, i, folder);
      hide EntryItems;
      var model := DescribeEntry(entries[i]);
      var normalized := if model.folder == "/" then "" else model.folder;
      if normalized == folder {
        items := items + [Item(false, entries[i], model.leaf)];
      }
      i := i + 1;
    }
    assert entries[..i] == entries;
  }

  method BuildBrowserItems(entries: seq<string>, folder: string) returns (items: seq<Item>)
    ensures items == Screen(entries, folder)
  {
    var known := CollectKnownFolders(entries);
    ListingSorts(Bytes, KnownFolders(entries));
    var children := ChildFoldersOf(known, folder);
    var folders := BuildFolderItems(children, folder);
    var leaves := BuildEntryItems(entries, folder);
    items := SortItems(folders + leaves);
  }

  // ---------------------------------------------------------------- paths and their text

  lemma {:induction false} JoinedConcat(f: seq<string>, g: seq<string>)
    requires f != [] && g != []
    ensures Joined(f + g) == Joined(f) + "/" + Joined(g)
  {
    assert (f + g)[1..] == f[1..] + g;
    if |f| > 1 {
      JoinedConcat(f[1..], g);
      assert f[0] + "/" + (Joined(f[1..]) + "/" + Joined(g)) == (f[0] + "/" + Joined(f[1..])) + "/" + Joined(g);
    } else {
      assert f[1..] + g == g;
    }
  }

  /** The first slash separates: equal beginnings have equal first names. */
  lemma FirstNameAgrees(a: string, x: string, b: string, y: string)
    requires '/' !in a && '/' !in b && a + "/" + x <= b + "/" + y
    ensures a == b && x <= y
  {
    var p, s := a + "/" + x, b + "/" + y;
    var rest := s[|p|..];
    assert s == a + ['/'] + (x + rest) && s == b + ['/'] + y;
    IndexOfIs(a, '/', x + rest);
    IndexOfIs(b, '/', y);
    assert a == s[..|a|] && b == s[..|a|];
    assert x + rest == s[|a| + 1..] && y == s[|a| + 1..];
  }

  /** One path's text begins with another's and a slash exactly if the folder really encloses it. */
  lemma {:induction false} TextPrefixIsFolder(f: seq<string>, g: seq<string>)
    requires PathNames.Components(f) && PathNames.Components(g) && f != []
    ensures Joined(f) + "/" <= Joined(g) <==> f < g
  {
    if f < g {
      assert g == f + g[|f|..];
      JoinedConcat(f, g[|f|..]);
    } else if Joined(f) + "/" <= Joined(g) {
      assert Joined(g) != [] && g != [];
      NoTextPrefix(f, g);
    }
  }

  lemma {:induction false} NoTextPrefix(f: seq<string>, g: seq<string>)
    requires PathNames.Components(f) && PathNames.Components(g) && f != [] && g != []
    requires Joined(f) + "/" <= Joined(g)
    ensures f < g
  {
    var t := if |f| == 1 then "" else Joined(f[1..]) + "/";
    assert Joined(f) + "/" == f[0] + "/" + t;
    var p := Joined(f) + "/";
    assert p[|p| - 1] == '/' && Joined(g)[|p| - 1] == '/';
    if |g| > 1 {
      FirstNameAgrees(f[0], t, g[0], Joined(g[1..]));
      if |f| > 1 { NoTextPrefix(f[1..], g[1..]); }
      assert f == [f[0]] + f[1..] && g == [g[0]] + g[1..];
    }
  }

  lemma HeadOfJoined(h: seq<string>)
    requires PathNames.Components(h) && h != []
    ensures Head(Joined(h)) == h[0]
  {
    if |h| > 1 {
      IndexOfIs(h[0], '/', Joined(h[1..]));
      assert Joined(h) == h[0] + ['/'] + Joined(h[1..]);
    }
  }

  lemma ChildOfJoined(f: seq<string>, g: seq<string>)
    requires PathNames.Components(f) && PathNames.Components(g) && g != []
    ensures HasChild(Joined(g), Joined(f)) <==> f < g
    ensures f < g ==> ChildOf(Joined(g), Joined(f)) == g[|f|]
  {
    JoinedIsEmpty(f);
    JoinedIsEmpty(g);
    if f == [] {
      HeadOfJoined(g);
      assert Joined(g)[0..] == Joined(g);
    } else {
      TextPrefixIsFolder(f, g);
      if f < g {
        var rest := g[|f|..];
        assert g == f + rest;
        JoinedConcat(f, rest);
        JoinedIsEmpty(rest);
        HeadOfJoined(rest);
        assert Joined(g)[|Joined(f)| + 1..] == Joined(rest);
      }
    }
  }

  // ---------------------------------------------------------------- what a screen shows

  ghost predicate ValidEntries(entries: seq<string>) {
    && (forall i :: 0 <= i < |entries| ==> ValidEntryName(entries[i]))
    && (forall i, j :: 0 <= i < j < |entries| ==> entries[i] != entries[j])
  }

  /** Some entry lies below the folder `f` in its direct subfolder `child`. */
  ghost predicate IsSubfolder(entries: seq<string>, f: seq<string>, child: string) {
    exists e :: e in entries && f + [child] < Segments(e)
  }

  lemma ValidEntryPath(e: string)
    requires ValidEntryName(e)
    ensures PathNames.Components(Segments(e)) && Segments(e) != [] && Joined(Segments(e)) == e
  {
    assert e != "";
    ValidNamesAreClean(e);
    SegmentsAreComponents(e);
    hide Segments, ValidPieces, Pieces;
    JoinedIsEmpty(Segments(e));
  }

  lemma ValidEntryFacts(e: string)
    requires ValidEntryName(e)
    ensures var s := Segments(e);
      && PathNames.Components(s) && s != [] && Joined(s) == e
      && FolderPath(e) == s[..|s| - 1] && ParentFolder(e) == Joined(s[..|s| - 1]) && Filename(e) == s[|s| - 1]
  {
    ValidEntryPath(e);
    hide Segments, Joined, ValidEntryName, ParentFolder, Filename;
    var s := Segments(e);
    var folder, leaf := s[..|s| - 1], s[|s| - 1];
    assert s == folder + [leaf];
    assert PathNames.Components(folder) && leaf != [] && '/' !in leaf;
    hide PathNames.Components;
    NameParts(folder, leaf);
    SegmentsOfJoined(folder);
  }

  lemma FolderIsKnown(entries: seq<string>, e: string, g: seq<string>)
    requires ValidEntries(entries) && e in entries && g != [] && g < Segments(e)
    ensures Joined(g) in KnownFolders(entries)
  {
    var i :| 0 <= i < |entries| && entries[i] == e;
    ValidEntryFacts(e);
    hide Joined, Segments, FolderPath, ValidEntryName;
    assert FolderPath(e)[..|g|] == g;
    assert Joined(g) in FoldersAround(entries[i]);
  }

  lemma KnownFolderEncloses(entries: seq<string>, known: string) returns (e: string, g: seq<string>)
    requires ValidEntries(entries) && known in KnownFolders(entries)
    ensures e in entries && g != [] && g < Segments(e) && known == Joined(g)
  {
    var i :| 0 <= i < |entries| && known in FoldersAround(entries[i]);
    e := entries[i];
    ValidEntryFacts(e);
    hide Joined, Segments, ValidEntryName;
    var k :| 0 < k <= |FolderPath(e)| && known == Joined(FolderPath(e)[..k]);
    g := FolderPath(e)[..k];
  }

  lemma SubfolderIsChild(entries: seq<string>, f: seq<string>, child: string)
    requires ValidEntries(entries) && PathNames.Components(f) && IsSubfolder(entries, f, child)
    ensures child in Children(KnownFolders(entries), Joined(f))
  {
    hide Joined, Segments, HasChild, ChildOf, KnownFolders, ValidEntryName, FolderPath;
    var e :| e in entries && f + [child] < Segments(e);
    var g := f + [child];
    FolderIsKnown(entries, e, g);
    ValidEntryFacts(e);
    assert PathNames.Components(g) by { assert forall k :: 0 <= k < |g| ==> g[k] == Segments(e)[k]; }
    ChildOfJoined(f, g);
    assert f < g && g[|f|] == child;
    assert HasChild(Joined(g), Joined(f)) && ChildOf(Joined(g), Joined(f)) == child;
  }

  lemma ChildIsSubfolder(entries: seq<string>, f: seq<string>, child: string)
    requires ValidEntries(entries) && PathNames.Components(f) && child in Children(KnownFolders(entries), Joined(f))
    ensures IsSubfolder(entries, f, child)
  {
    hide Joined, Segments, HasChild, ChildOf, KnownFolders, ValidEntryName, FolderPath;
    var known :| known in KnownFolders(entries) && HasChild(known, Joined(f)) && ChildOf(known, Joined(f)) == child;
    var e, g := KnownFolderEncloses(entries, known);
    ValidEntryFacts(e);
    assert PathNames.Components(g) by { assert forall k :: 0 <= k < |g| ==> g[k] == Segments(e)[k]; }
    ChildOfJoined(f, g);
    assert g[..|f| + 1] == f + [child];
    assert f + [child] <= g;
  }

  lemma {:induction false} FolderItemsContain(folder: string, children: seq<string>, item: Item)
    ensures item in FolderItems(folder, children) <==> item.isFolder && item.caption in children && item == FolderItem(folder, item.caption)
  {
    if children != [] {
      var n := |children| - 1;
      FolderItemsContain(folder, children[..n], item);
      assert children == children[..n] + [children[n]];
    }
  }

  predicate ShownFor(entry: string, folder: string, item: Item) { IsAt(entry, folder) && item == EntryItem(entry) }

  lemma {:induction false} EntryItemsContain(entries: seq<string>, folder: string, item: Item)
    ensures item in EntryItems(entries, folder) <==> item.path in entries && ShownFor(item.path, folder, item)
  {
    if entries != [] {
      var n := |entries| - 1;
      assert entries == entries[..n] + [entries[n]];
      EntryItemsContain(entries[..n], folder, item);
      hide EntryItems, ShownFor;
      OneEntryMore(entries[..n], entries[n], folder, item);
    }
  }

  lemma OneEntryMore(entries: seq<string>, last: string, folder: string, item: Item)
    ensures item in EntryItems(entries + [last], folder) <==> item in EntryItems(entries, folder) || ShownFor(last, folder, item)
    ensures ShownFor(last, folder, item) ==> item.path == last
  {
    var more := entries + [last];
    assert more[..|more| - 1] == entries;
    hide IsAt, DescribeEntry;
  }

  lemma {:induction false} SortingKeepsItems(items: seq<Item>)
    ensures multiset(SortItems(items)) == multiset(items)
  {
    if items != [] {
      SortingKeepsItems(items[1..]);
      InsertingAddsItem(items[0], SortItems(items[1..]));
      assert items == [items[0]] + items[1..];
    }
  }

  lemma {:induction false} InsertingAddsItem(item: Item, items: seq<Item>)
    ensures multiset(InsertItem(item, items)) == multiset(items) + multiset{item}
  {
    if items != [] && ItemLess(items[0], item) {
      InsertingAddsItem(item, items[1..]);
      assert items == [items[0]] + items[1..];
    }
  }

  /** What the screen of the folder `f` holds. */
  ghost predicate BelongsAt(entries: seq<string>, f: seq<string>, item: Item) {
    if item.isFolder then item.path == Joined(f + [item.caption]) && IsSubfolder(entries, f, item.caption)
    else item.path in entries && Segments(item.path) == f + [item.caption]
  }

  lemma FolderItemPath(f: seq<string>, child: string)
    requires PathNames.Components(f)
    ensures FolderItem(Joined(f), child) == Item(true, Joined(f + [child]), child)
  {
    JoinedIsEmpty(f);
    JoinedSnoc(f, child);
  }

  lemma EntryBelongs(e: string, f: seq<string>, item: Item)
    requires ValidEntryName(e) && PathNames.Components(f) && item.path == e && !item.isFolder
    ensures ShownFor(e, Joined(f), item) <==> Segments(e) == f + [item.caption]
  {
    EntryIsWhere(e, f);
    ValidEntryFacts(e);
    DescribedWhere(e);
    assert item == EntryItem(e) <==> item.caption == Filename(e);
    hide Segments, IsAt, EntryItem, DescribeEntry, Joined, ValidEntryName, FolderPath, Filename, ParentFolder, PathNames.Components;
    EndsWith(Segments(e), f, item.caption);
  }

  lemma EndsWith(s: seq<string>, f: seq<string>, last: string)
    requires s != []
    ensures s == f + [last] <==> s[..|s| - 1] == f && s[|s| - 1] == last
  {
    assert s == s[..|s| - 1] + [s[|s| - 1]];
  }

  lemma EntryIsWhere(e: string, f: seq<string>)
    requires ValidEntryName(e) && PathNames.Components(f)
    ensures var s := Segments(e); s != [] && (IsAt(e, Joined(f)) <==> s[..|s| - 1] == f)
  {
    ValidEntryFacts(e);
    DescribedWhere(e);
    var folder := Segments(e)[..|Segments(e)| - 1];
    JoinedIsEmpty(folder);
    JoinedIsEmpty(f);
    SegmentsOfJoined(folder);
    SegmentsOfJoined(f);
    hide Segments, DescribeEntry, Joined, ValidEntryName, ParentFolder;
  }

  lemma DescribedWhere(e: string)
    ensures var v := DescribeEntry(e);
      v.leaf == Filename(e) && v.folder == if ParentFolder(e) == "" then "/" else ParentFolder(e)
  {
  }

  /** A screen shows exactly the direct subfolders that lead somewhere and the entries of its folder. */
  lemma ScreenIsExact(entries: seq<string>, f: seq<string>, item: Item)
    requires ValidEntries(entries) && PathNames.Components(f)
    ensures item in Screen(entries, Joined(f)) <==> BelongsAt(entries, f, item)
  {
    var folder := Joined(f);
    var children := Listing(Bytes, Children(KnownFolders(entries), folder));
    var folders, leaves := FolderItems(folder, children), EntryItems(entries, folder);
    SortingKeepsItems(folders + leaves);
    assert item in Screen(entries, folder) <==> item in multiset(folders + leaves);
    FolderItemsContain(folder, children, item);
    EntryItemsContain(entries, folder, item);
    if item.isFolder {
      ListingSorts(Bytes, Children(KnownFolders(entries), folder));
      assert item.caption in children <==> item.caption in Elements(children);
      FolderItemPath(f, item.caption);
      if item.caption in children { ChildIsSubfolder(entries, f, item.caption); }
      if IsSubfolder(entries, f, item.caption) { SubfolderIsChild(entries, f, item.caption); }
    } else if item.path in entries {
      EntryBelongs(item.path, f, item);
    }
  }

  // ---------------------------------------------------------------- order and uniqueness

  ghost predicate NoneTwice(items: seq<Item>) { forall i, j :: 0 <= i < j < |items| ==> items[i] != items[j] }

  ghost predicate InOrder(items: seq<Item>) { forall i, j :: 0 <= i < j < |items| ==> !ItemLess(items[j], items[i]) }

  lemma WeakOrderIsTransitive(a: Item, b: Item, c: Item)
    requires !ItemLess(b, a) && !ItemLess(c, b)
    ensures !ItemLess(c, a)
  {
    LessIsTotal(Bytes, a.caption, b.caption);
    LessIsTotal(Bytes, b.caption, c.caption);
    LessIsTotal(Bytes, a.caption, c.caption);
    if Less(Bytes, c.caption, a.caption) && Less(Bytes, a.caption, b.caption) { LessIsTransitive(Bytes, c.caption, a.caption, b.caption); }
  }

  lemma ConsInOrder(head: Item, tail: seq<Item>)
    requires InOrder(tail) && forall x :: x in tail ==> !ItemLess(x, head)
    ensures InOrder([head] + tail)
  {
    var all := [head] + tail;
    forall i, j | 0 <= i < j < |all| ensures !ItemLess(all[j], all[i]) {
      assert all[j] == tail[j - 1] && all[j] in tail;
      if i > 0 { assert all[i] == tail[i - 1]; }
    }
  }

  lemma {:induction false} InsertingKeepsOrder(item: Item, items: seq<Item>)
    requires InOrder(items)
    ensures InOrder(InsertItem(item, items))
  {
    if items != [] && ItemLess(items[0], item) {
      var rest := items[1..];
      InsertingKeepsOrder(item, rest);
      InsertingAddsItem(item, rest);
      forall x | x in InsertItem(item, rest) ensures !ItemLess(x, items[0]) {
        assert x in multiset(InsertItem(item, rest));
        if x == item { LessIsTotal(Bytes, item.caption, items[0].caption); } else { assert x in rest; }
      }
      ConsInOrder(items[0], InsertItem(item, rest));
    } else {
      forall x | x in items ensures !ItemLess(x, item) {
        var k :| 0 <= k < |items| && items[k] == x;
        LessIsTotal(Bytes, x.caption, x.caption);
        WeakOrderIsTransitive(item, items[0], x);
      }
      ConsInOrder(item, items);
    }
  }

  lemma {:induction false} SortingOrders(items: seq<Item>)
    ensures InOrder(SortItems(items))
  {
    if items != [] {
      SortingOrders(items[1..]);
      InsertingKeepsOrder(items[0], SortItems(items[1..]));
    }
  }

  lemma {:induction false} CountOfDistinct(items: seq<Item>, x: Item)
    requires NoneTwice(items)
    ensures multiset(items)[x] <= 1
  {
    if items != [] {
      CountOfDistinct(items[1..], x);
      assert items == [items[0]] + items[1..];
      assert items[0] !in items[1..];
    }
  }

  lemma DistinctByCount(items: seq<Item>)
    requires forall x :: multiset(items)[x] <= 1
    ensures NoneTwice(items)
  {
    forall i, j | 0 <= i < j < |items| ensures items[i] != items[j] {
      var head, tail := items[..j], items[j..];
      assert items == head + tail;
      assert multiset(items)[items[j]] == multiset(head)[items[j]] + multiset(tail)[items[j]];
      assert tail[0] == items[j] && items[j] in multiset(tail);
      assert head[i] == items[i] && items[i] in multiset(head);
    }
  }

  lemma SortingKeepsDistinct(items: seq<Item>)
    requires NoneTwice(items)
    ensures NoneTwice(SortItems(items))
  {
    SortingKeepsItems(items);
    forall x ensures multiset(SortItems(items))[x] <= 1 { CountOfDistinct(items, x); }
    DistinctByCount(SortItems(items));
  }

  lemma {:induction false} FolderItemsAreDistinct(folder: string, children: seq<string>)
    requires StrictlySorted(Bytes, children)
    ensures NoneTwice(FolderItems(folder, children))
  {
    if children != [] {
      var n := |children| - 1;
      FolderItemsAreDistinct(folder, children[..n]);
      forall item | item in FolderItems(folder, children[..n]) ensures item != FolderItem(folder, children[n]) {
        FolderItemsContain(folder, children[..n], item);
        LessIsTotal(Bytes, children[n], children[n]);
      }
      NoneTwiceSnoc(FolderItems(folder, children[..n]), FolderItem(folder, children[n]));
    }
  }

  lemma NoneTwiceSnoc(items: seq<Item>, last: Item)
    requires NoneTwice(items)
    ensures last !in items ==> NoneTwice(items + [last])
  {
  }

  lemma {:induction false} EntryItemsAreDistinct(entries: seq<string>, folder: string)
    requires forall i, j :: 0 <= i < j < |entries| ==> entries[i] != entries[j]
    ensures NoneTwice(EntryItems(entries, folder))
  {
    if entries != [] {
      var n := |entries| - 1;
      EntryItemsAreDistinct(entries[..n], folder);
      hide EntryItems, NoneTwice;
      LastIsNew(entries);
      OneDistinctMore(entries[..n], entries[n], folder);
    }
  }

  lemma LastIsNew(entries: seq<string>)
    requires entries != [] && forall i, j :: 0 <= i < j < |entries| ==> entries[i] != entries[j]
    ensures var n := |entries| - 1; entries == entries[..n] + [entries[n]] && entries[n] !in entries[..n]
  {
  }

  lemma OneDistinctMore(rest: seq<string>, last: string, folder: string)
    requires NoneTwice(EntryItems(rest, folder)) && last !in rest
    ensures NoneTwice(EntryItems(rest + [last], folder))
  {
    var more := rest + [last];
    assert more[..|more| - 1] == rest;
    EntryItemsContain(rest, folder, EntryItem(last));
    NoneTwiceSnoc(EntryItems(rest, folder), EntryItem(last));
    hide IsAt, DescribeEntry, ShownFor, NoneTwice;
  }

  lemma UnsortedIsDistinct(entries: seq<string>, folder: string)
    requires ValidEntries(entries)
    ensures NoneTwice(FolderItems(folder, Listing(Bytes, Children(KnownFolders(entries), folder))) + EntryItems(entries, folder))
  {
    var children := Listing(Bytes, Children(KnownFolders(entries), folder));
    var folders, leaves := FolderItems(folder, children), EntryItems(entries, folder);
    ListingSorts(Bytes, Children(KnownFolders(entries), folder));
    FolderItemsAreDistinct(folder, children);
    EntryItemsAreDistinct(entries, folder);
    forall x | x in folders ensures x.isFolder { FolderItemsContain(folder, children, x); }
    forall x | x in leaves ensures !x.isFolder { EntryItemsContain(entries, folder, x); }
    DistinctConcat(folders, leaves);
  }

  lemma DistinctConcat(a: seq<Item>, b: seq<Item>)
    requires NoneTwice(a) && NoneTwice(b)
    requires (forall x :: x in a ==> x.isFolder) && (forall x :: x in b ==> !x.isFolder)
    ensures NoneTwice(a + b)
  {
    forall i, j | 0 <= i < j < |a + b| ensures (a + b)[i] != (a + b)[j] {
      if i < |a| <= j {
        assert (a + b)[i] in a && (a + b)[j] in b;
      } else if |a| <= i {
        assert (a + b)[i] == b[i - |a|] && (a + b)[j] == b[j - |a|];
      }
    }
  }

  lemma ScreenIsSorted(entries: seq<string>, folder: string)
    requires ValidEntries(entries)
    ensures NoneTwice(Screen(entries, folder)) && InOrder(Screen(entries, folder))
  {
    UnsortedIsDistinct(entries, folder);
    var unsorted := FolderItems(folder, Listing(Bytes, Children(KnownFolders(entries), folder))) + EntryItems(entries, folder);
    hide NoneTwice, InOrder;
    SortingKeepsDistinct(unsorted);
    SortingOrders(unsorted);
  }

  lemma DifferentItemsCompare(entries: seq<string>, f: seq<string>, a: Item, b: Item)
    requires ValidEntries(entries) && BelongsAt(entries, f, a) && BelongsAt(entries, f, b)
    requires a != b && !ItemLess(b, a)
    ensures ItemLess(a, b)
  {
    if a.isFolder == b.isFolder {
      SameCaptionSameItem(entries, f, a, b);
      LessIsTotal(Bytes, a.caption, b.caption);
    }
  }

  /** A screen is strictly ordered: folders before entries, each kind by its caption, nothing twice. */
  lemma ScreenIsOrdered(entries: seq<string>, f: seq<string>)
    requires ValidEntries(entries) && PathNames.Components(f)
    ensures var items := Screen(entries, Joined(f)); forall i, j :: 0 <= i < j < |items| ==> ItemLess(items[i], items[j])
    ensures var items := Screen(entries, Joined(f)); forall i, j :: 0 <= i < j < |items| ==>
      || (items[i].isFolder && !items[j].isFolder)
      || (items[i].isFolder == items[j].isFolder && Less(Bytes, items[i].caption, items[j].caption))
  {
    var items := Screen(entries, Joined(f));
    assert forall a: Item, b: Item :: ItemLess(a, b) ==>
      (a.isFolder && !b.isFolder) || (a.isFolder == b.isFolder && Less(Bytes, a.caption, b.caption));
    ScreenIsSorted(entries, Joined(f));
    hide Screen, ItemLess, BelongsAt, Joined, ValidEntries, PathNames.Components;
    forall i, j | 0 <= i < j < |items| ensures ItemLess(items[i], items[j]) {
      ScreenIsExact(entries, f, items[i]);
      ScreenIsExact(entries, f, items[j]);
      DifferentItemsCompare(entries, f, items[i], items[j]);
    }
  }

  lemma SameCaptionSameItem(entries: seq<string>, f: seq<string>, a: Item, b: Item)
    requires ValidEntries(entries) && BelongsAt(entries, f, a) && BelongsAt(entries, f, b)
    requires a != b && a.isFolder == b.isFolder
    ensures a.caption != b.caption
  {
    if a.caption == b.caption && !a.isFolder {
      ValidEntryPath(a.path);
      ValidEntryPath(b.path);
    }
  }

  // ---------------------------------------------------------------- getting around

  /** An entry is shown on the screen of its own folder, under its last name, and on no other. */
  lemma EntryIsShownOnce(entries: seq<string>, e: string, f: seq<string>, caption: string)
    requires ValidEntries(entries) && e in entries && PathNames.Components(f)
    ensures Item(false, e, caption) in Screen(entries, Joined(f)) <==> Segments(e) == f + [caption]
  {
    ScreenIsExact(entries, f, Item(false, e, caption));
  }

  /** From the root, opening the folder items along its path leads to every entry. */
  lemma EveryEntryIsReachable(entries: seq<string>, e: string, k: nat)
    requires ValidEntries(entries) && e in entries && k < |Segments(e)|
    ensures var s := Segments(e); var screen := Screen(entries, Joined(s[..k]));
      if k + 1 < |s| then Item(true, Joined(s[..k + 1]), s[k]) in screen else Item(false, e, s[k]) in screen
  {
    var s := Segments(e);
    var i :| 0 <= i < |entries| && entries[i] == e;
    ValidEntryPath(e);
    assert s[..k + 1] == s[..k] + [s[k]];
    if k + 1 < |s| {
      assert s[..k] + [s[k]] < s;
      assert IsSubfolder(entries, s[..k], s[k]);
      ScreenIsExact(entries, s[..k], Item(true, Joined(s[..k + 1]), s[k]));
    } else {
      assert s[..k + 1] == s;
      ScreenIsExact(entries, s[..k], Item(false, e, s[k]));
    }
  }

  /** Opening one item after the other, each on the screen of the folder opened before it, the last being the entry. */
  ghost predicate LeadsTo(entries: seq<string>, folder: string, path: seq<Item>, e: string)
    decreases |path|
  {
    && path != [] && path[0] in Screen(entries, folder)
    && if |path| == 1 then !path[0].isFolder && path[0].path == e
       else path[0].isFolder && LeadsTo(entries, path[0].path, path[1..], e)
  }

  /** The folders around an entry from the `k`-th level on, and the entry. */
  function Trail(e: string, k: nat): seq<Item>
    requires k < |Segments(e)|
    decreases |Segments(e)| - k
  {
    var s := Segments(e);
    if k + 1 == |s| then [Item(false, e, s[k])] else [Item(true, Joined(s[..k + 1]), s[k])] + Trail(e, k + 1)
  }

  lemma {:induction false} TrailLeads(entries: seq<string>, e: string, k: nat)
    requires ValidEntries(entries) && e in entries && k < |Segments(e)|
    ensures LeadsTo(entries, Joined(Segments(e)[..k]), Trail(e, k), e)
    decreases |Segments(e)| - k
  {
    hide Screen, Segments, Joined, ValidEntries;
    var s := Segments(e);
    EveryEntryIsReachable(entries, e, k);
    if k + 1 < |s| {
      TrailLeads(entries, e, k + 1);
      assert Trail(e, k)[1..] == Trail(e, k + 1);
    }
  }

  lemma SubfolderIsProper(entries: seq<string>, f: seq<string>, child: string)
    requires ValidEntries(entries) && IsSubfolder(entries, f, child)
    ensures PathNames.Components(f + [child])
  {
    var e :| e in entries && f + [child] < Segments(e);
    SegmentsAreComponents(e);
    hide Segments, ValidEntries;
    var g, s := f + [child], Segments(e);
    forall i | 0 <= i < |g| ensures g[i] != [] && '/' !in g[i] { assert g[i] == s[i]; }
  }

  lemma {:induction false} OnlyTrailLeads(entries: seq<string>, f: seq<string>, path: seq<Item>, e: string)
    requires ValidEntries(entries) && PathNames.Components(f) && LeadsTo(entries, Joined(f), path, e)
    ensures e in entries && f < Segments(e) && path == Trail(e, |f|)
    decreases |path|
  {
    hide Screen, Segments, Joined, ValidEntries, PathNames.Components, IsSubfolder;
    var item := path[0];
    ScreenIsExact(entries, f, item);
    if |path| > 1 {
      SubfolderIsProper(entries, f, item.caption);
      var g := f + [item.caption];
      OnlyTrailLeads(entries, g, path[1..], e);
      assert Segments(e)[..|g|] == g && Segments(e)[|f|] == item.caption;
      assert f < Segments(e);
      assert path == [item] + path[1..];
    }
  }

  /** From the root screen, opening the folders on its path one after the other leads to every entry, and nothing else does. */
  lemma EntryIsReachedExactly(entries: seq<string>, path: seq<Item>, e: string)
    requires ValidEntries(entries)
    ensures LeadsTo(entries, "", path, e) <==> e in entries && Segments(e) != [] && path == Trail(e, 0)
  {
    hide Screen, Segments, ValidEntries;
    assert Joined([]) == "" && Segments(e)[..0] == [];
    if LeadsTo(entries, "", path, e) { OnlyTrailLeads(entries, [], path, e); }
    if e in entries && Segments(e) != [] { TrailLeads(entries, e, 0); }
  }

  /** Every folder shown leads to a screen that shows something, and going back from there returns here. */
  lemma FoldersLeadSomewhere(entries: seq<string>, f: seq<string>, item: Item) returns (below: Item)
    requires ValidEntries(entries) && PathNames.Components(f) && item in Screen(entries, Joined(f)) && item.isFolder
    ensures below in Screen(entries, item.path) && ParentFolder(item.path) == Joined(f)
  {
    ScreenIsExact(entries, f, item);
    assert IsSubfolder(entries, f, item.caption) && item.path == Joined(f + [item.caption]);
    var g := f + [item.caption];
    var e :| e in entries && g < Segments(e);
    below := FolderShows(entries, e, g);
    FolderAbove(entries, e, f, item.caption);
  }

  lemma FolderShows(entries: seq<string>, e: string, g: seq<string>) returns (below: Item)
    requires ValidEntries(entries) && e in entries && g < Segments(e)
    ensures below in Screen(entries, Joined(g))
  {
    hide Screen, Segments, ValidEntries, Joined;
    var s := Segments(e);
    assert s[..|g|] == g;
    EveryEntryIsReachable(entries, e, |g|);
    below := if |g| + 1 < |s| then Item(true, Joined(s[..|g| + 1]), s[|g|]) else Item(false, e, s[|g|]);
  }

  lemma FolderAbove(entries: seq<string>, e: string, f: seq<string>, name: string)
    requires ValidEntries(entries) && e in entries && PathNames.Components(f) && f + [name] < Segments(e)
    ensures ParentFolder(Joined(f + [name])) == Joined(f)
  {
    var i :| 0 <= i < |entries| && entries[i] == e;
    ValidEntryPath(e);
    assert (f + [name])[|f|] == Segments(e)[|f|];
    NameParts(f, name);
  }
}
