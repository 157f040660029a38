/** A run in which the user accepts a review, is told that it was pushed, and cannot sync any more. */
module HollowRun {
  import opened Options
  import opened StoreManifest
  import opened StoreVersion
  import opened GitModel
  import opened SyncProtocol
  import opened SyncWorld
  import opened VersionTags
  import opened LostPush
  import VersionClash

  /**
   One entry, at `path`: `base` when the client last synced, `theirs` on the remote since,
   `ours` in the client's store, and `left` what git leaves in the file it cannot merge.
   */
  datatype Story = Story(path: Path, base: string, ours: string, theirs: string, left: string) {
    predicate Differs() {
      path != HASH_FILE && base != ours && base != theirs && ours != theirs && left != base && left != ours
    }

    function Base(): Commit { Commit([], map[path := base]) }

    function Theirs(): Commit { Commit([0], map[path := theirs]) }

    function Work(): Tree { map[path := ours] }

    /** The client's store as it is committed. */
    ghost function Ours(sha: Hasher): Tree {
      map[path := ours, HASH_FILE := HashLine(sha, Work(), VersionClash.FirstVersion())]
    }

    /** The store with the conflict in it. */
    ghost function Torn(sha: Hasher): Tree { Ours(sha)[path := left] }

    /** The same, as the next sync commits it. */
    ghost function Concluded(sha: Hasher): Tree {
      Torn(sha)[HASH_FILE := HashLine(sha, Torn(sha), VersionClash.FirstVersion())]
    }
  }

  ghost function GraphOf(sha: Hasher, y: Story, n: nat): Graph
    requires 2 <= n <= 4
  {
    var all := [y.Base(), y.Theirs(), Commit([0], y.Ours(sha)), Commit([2, 1], y.Concluded(sha))];
    assert Ordered(all);
    all[..n]
  }

  /** The remote, with `n - 2` of the client's commits in the graph; nobody pushes any more. */
  ghost function Remote(sha: Hasher, y: Story, n: nat): Server
    requires 2 <= n <= 4
  {
    Server(GraphOf(sha, y, n), 1, map[])
  }

  lemma History(sha: Hasher, y: Story, n: nat)
    requires 2 <= n <= 4
    ensures var g := GraphOf(sha, y, n);
      && |g| == n && MergeBase(g, 0, 1) == Some(0) && !Reaches(g, 1, 0)
      && (n > 2 ==> !Reaches(g, 1, 2) && !Reaches(g, 2, 1) && MergeBase(g, 2, 1) == Some(0))
      && (n > 3 ==> Reaches(g, 1, 3) && !Reaches(g, 3, 1) && MergeBase(g, 3, 1) == Some(1))
  {
    var g := GraphOf(sha, y, n);
    assert Reaches(g, 0, 0) && Reaches(g, 1, 1);
    assert g[1].parents[0] == 0 && Reaches(g, 0, 1) && !Reaches(g, 1, 0) && !Reaches(g, 2, 0);
    if n > 2 { assert g[2].parents[0] == 0 && Reaches(g, 0, 2) && !Reaches(g, 1, 2) && !Reaches(g, 2, 1); }
    if n > 3 {
      assert g[3].parents[1] == 1 && Reaches(g, 1, 3);
      if Reaches(g, 3, 1) { ReachesIsEarlier(g, 3, 1); }
    }
  }

  // ---------------------------------------------------------------- the states of the run

  /** The client as it starts: HEAD at the base, `ours` in its store. */
  function Client(y: Story): Repo { Repo(0, 0, None, map[y.path := y.base], map[], y.Work(), map[]) }

  ghost function Committed(sha: Hasher, y: Story): Repo {
    Client(y).(head := 2, origin := 1, index := y.Ours(sha), worktree := y.Ours(sha))
  }

  /** The merge is open, the entry in conflict. */
  ghost function Conflicted(sha: Hasher, y: Story): Repo {
    Committed(sha, y).(mergeHead := Some(1), index := y.Ours(sha) - {y.path}, worktree := y.Torn(sha),
                       unmerged := map[y.path := Sides(Some(y.base), Some(y.ours), Some(y.theirs))])
  }

  ghost function Merged(sha: Hasher, y: Story): Repo {
    Committed(sha, y).(head := 3, index := y.Concluded(sha), worktree := y.Concluded(sha))
  }

  function Fetching(r: Repo, reviewed: bool): Session {
    NewSession(r).(phase := Phase.Fetching, repo := r.(origin := 1), reviewed := reviewed)
  }

  /** A reviewed session that started from `from` and committed `repo`. */
  ghost function Prepared(from: Repo, repo: Repo, phase: Phase): Session {
    Fetching(from, true).(phase := phase, repo := repo, version := VersionClash.FirstVersion(), staged := Some(repo.head),
                          prepared := if phase == Tracking then from.head else repo.head)
  }

  ghost function WorldOf(sha: Hasher, y: Story, n: nat, ss: Session): World
    requires 2 <= n <= 4
  {
    World(Remote(sha, y, n), [ss], {1})
  }

  // ---------------------------------------------------------------- the steps

  ghost predicate Leads(sha: Hasher, a: World, moves: seq<Move>, b: World) {
    WorldHolds(a) && WorldHolds(b) && Run(sha, a, moves) == b
  }

  lemma LeadsOn(sha: Hasher, a: World, first: seq<Move>, b: World, second: seq<Move>, c: World)
    requires Leads(sha, a, first, b) && Leads(sha, b, second, c)
    ensures Leads(sha, a, first + second, c)
  {
    hide WorldHolds, Run;
    VersionClash.RunConcat(sha, a, first, second);
  }

  lemma LeadsEnds(sha: Hasher, a: World, moves: seq<Move>, b: World)
    requires Leads(sha, a, moves, b)
    ensures WorldHolds(b)
  {
    hide WorldHolds, Run;
  }

  lemma LeadsOn4(sha: Hasher, a: World, ab: seq<Move>, b: World, bc: seq<Move>, c: World, cd: seq<Move>, d: World, de: seq<Move>, e: World)
    requires Leads(sha, a, ab, b) && Leads(sha, b, bc, c) && Leads(sha, c, cd, d) && Leads(sha, d, de, e)
    ensures Leads(sha, a, ab + bc + cd + de, e)
  {
    hide Leads;
    LeadsOn(sha, a, ab, b, bc, c);
    LeadsOn(sha, a, ab + bc, c, cd, d);
    LeadsOn(sha, a, ab + bc + cd, d, de, e);
  }

  lemma Steps(sha: Hasher, y: Story, n: nat, ss: Session, input: Input, m: nat, next: Session)
    requires 2 <= n <= 4 && 2 <= m <= 4 && WorldHolds(WorldOf(sha, y, n, ss)) && ss.repo.Valid(GraphOf(sha, y, n))
    requires Step(sha, Remote(sha, y, n), ss, input) == (Remote(sha, y, m), next)
    ensures Leads(sha, WorldOf(sha, y, n, ss), [Advance(0, input)], WorldOf(sha, y, m, next))
  {
    var w, move := WorldOf(sha, y, n, ss), Advance(0, input);
    hide Step, WorldHolds, GraphOf;
    NextHolds(sha, w, move);
    assert Next(sha, w, move) == WorldOf(sha, y, m, next);
    VersionClash.RunOn(sha, w, move, []);
    assert [move] + [] == [move];
  }

  /** The tip is where it was, and there are no tags: what a preview and a fetch do. */
  lemma PreviewIs(sha: Hasher, y: Story, n: nat, r: Repo, reviewed: bool)
    requires 2 <= n <= 4 && r.Valid(GraphOf(sha, y, n)) && r.tags == map[] && Previews(GraphOf(sha, y, n), r, reviewed)
    ensures var s := Remote(sha, y, n);
      && PreviewStep(s, NewSession(r)) == Fetching(r, reviewed)
      && FetchStep(s, Fetching(r, reviewed)) == Fetching(r, reviewed).(phase := Staging)
  {
    var s := Remote(sha, y, n);
    assert Fetched(s, r) == r.(origin := 1) && Fetched(s, r.(origin := 1)) == r.(origin := 1);
    hide BuildPreview, GraphOf;
  }

  /** What the preview of a client finds, after its fetch. */
  ghost predicate Previews(g: Graph, r: Repo, reviewed: bool)
    requires r.Valid(g) && 2 <= |g|
  {
    var p := BuildPreview(g, r.(origin := 1), true); p.Some? && (reviewed <==> p.value.local * p.value.remote != {})
  }

  /** Any sync of this run up to its commit stage. */
  lemma PreviewAndFetch(sha: Hasher, y: Story, n: nat, r: Repo, reviewed: bool)
    requires 2 <= n <= 4 && r.Valid(GraphOf(sha, y, n)) && r.tags == map[] && WorldHolds(WorldOf(sha, y, n, NewSession(r)))
    requires Previews(GraphOf(sha, y, n), r, reviewed)
    ensures Leads(sha, WorldOf(sha, y, n, NewSession(r)), [Advance(0, Accept), Advance(0, Accept)],
                  WorldOf(sha, y, n, Fetching(r, reviewed).(phase := Staging)))
  {
    var fetching := Fetching(r, reviewed);
    PreviewIs(sha, y, n, r, reviewed);
    hide Reaches, PreviewStep, FetchStep, GraphOf, Previews;
    Steps(sha, y, n, NewSession(r), Accept, n, fetching);
    Steps(sha, y, n, fetching, Accept, n, fetching.(phase := Staging));
    LeadsOn(sha, WorldOf(sha, y, n, NewSession(r)), [Advance(0, Accept)], WorldOf(sha, y, n, fetching),
            [Advance(0, Accept)], WorldOf(sha, y, n, fetching.(phase := Staging)));
  }

  lemma Overlap(g: Graph, r: Repo, base: nat, p: Path)
    requires r.Valid(g) && MergeBase(g, r.head, r.origin) == Some(base)
    requires p in r.worktree && (p in r.index || p in r.unmerged)
    requires Get(g[base].tree, p) != Some(r.worktree[p]) && Get(g[base].tree, p) != Get(g[r.origin].tree, p)
    requires p in g[base].tree
    ensures BuildPreview(g, r, true).Some?
    ensures BuildPreview(g, r, true).value.local * BuildPreview(g, r, true).value.remote != {}
  {
    hide Reaches, MergeBase;
    assert Get(TrackedWorktree(r), p) == Some(r.worktree[p]);
    var preview := BuildPreview(g, r, true).value;
    assert p in preview.local * preview.remote;
  }

  lemma FirstPreview(sha: Hasher, y: Story)
    requires y.Differs()
    ensures Client(y).Valid(GraphOf(sha, y, 2))
    ensures Previews(GraphOf(sha, y, 2), Client(y), true)
  {
    History(sha, y, 2);
    hide Reaches, MergeBase;
    Overlap(GraphOf(sha, y, 2), Client(y).(origin := 1), 0, y.path);
  }

  lemma FirstStage(sha: Hasher, y: Story)
    requires y.Differs()
    ensures var r := Client(y).(origin := 1);
      && r.Valid(GraphOf(sha, y, 2))
      && StageAndCommit(sha, Remote(sha, y, 2), r) == Staged(Remote(sha, y, 3), Committed(sha, y), VersionClash.FirstVersion())
  {
    var r, version := Client(y).(origin := 1), VersionClash.FirstVersion();
    assert r.worktree[y.path] != r.index[y.path];
    assert !r.Clean(GraphOf(sha, y, 2)) && r.tags.Keys == {};
    var added := AddAll(WriteHash(sha, r, version));
    assert added == r.(index := y.Ours(sha), worktree := y.Ours(sha));
    assert HASH_FILE in added.index && HASH_FILE !in added.HeadTree(GraphOf(sha, y, 2));
    assert [r.head] + [] == [0];
    assert GraphOf(sha, y, 2) + [Commit([0], y.Ours(sha))] == GraphOf(sha, y, 3);
  }

  lemma FirstMerge(sha: Hasher, y: Story)
    requires y.Differs()
    ensures Committed(sha, y).Valid(GraphOf(sha, y, 3))
    ensures StartMerge(GraphOf(sha, y, 3), Committed(sha, y), map[y.path := y.left]) == Some(Conflicted(sha, y))
  {
    History(sha, y, 3);
    MergeLeaves(sha, y);
    hide Reaches, MergeBase, MergeInto, Conflicted;
  }

  lemma MergeLeaves(sha: Hasher, y: Story)
    requires y.Differs()
    ensures Committed(sha, y).Valid(GraphOf(sha, y, 3))
    ensures MergeInto(GraphOf(sha, y, 3), Committed(sha, y), 0, 1, map[y.path := y.left]) == Conflicted(sha, y)
  {
    var g, r, left := GraphOf(sha, y, 3), Committed(sha, y), map[y.path := y.left];
    assert g[0].tree == y.Base().tree && g[1].tree == y.Theirs().tree && r.HeadTree(g) == y.Ours(sha) && r.Valid(g);
    TornMerge(sha, y);
    hide ConflictsOf, MergedTree, GraphOf;
    TornFile(sha, y);
  }

  lemma TornFile(sha: Hasher, y: Story)
    requires y.Differs()
    ensures var left := map[y.path := y.left];
      (y.Ours(sha) - {y.path}) + (map p | p in left && p in Conflicted(sha, y).unmerged :: left[p]) == y.Torn(sha)
  {
  }

  lemma TornMerge(sha: Hasher, y: Story)
    requires y.Differs()
    ensures var b, o, t := y.Base().tree, y.Ours(sha), y.Theirs().tree;
      && ConflictsOf(b, o, t) == map[y.path := Sides(Some(y.base), Some(y.ours), Some(y.theirs))]
      && MergedTree(b, o, t) == o - {y.path}
  {
    OneConflict(y.path, y.base, y.ours, y.theirs, HASH_FILE, y.Ours(sha)[HASH_FILE]);
  }

  /** Three versions of one file, and a file that only our side has. */
  lemma OneConflict(p: Path, base: string, ours: string, theirs: string, q: Path, own: string)
    requires p != q && base != ours && base != theirs && ours != theirs
    ensures var b, o, t := map[p := base], map[p := ours, q := own], map[p := theirs];
      ConflictsOf(b, o, t) == map[p := Sides(Some(base), Some(ours), Some(theirs))] && MergedTree(b, o, t) == o - {p}
  {
    var b, o, t := map[p := base], map[p := ours, q := own], map[p := theirs];
    assert SidesAt(b, o, t, p) == Sides(Some(base), Some(ours), Some(theirs));
    assert SidesAt(b, o, t, q) == Sides(None, Some(own), None);
    assert forall x :: x in o.Keys + t.Keys <==> x == p || x == q;
    assert ConflictsOf(b, o, t) == map[p := SidesAt(b, o, t, p)] by { hide SidesAt, MergedTree; }
    assert MergedTree(b, o, t) == map[q := own] by { hide SidesAt, ConflictsOf; }
    assert o - {p} == map[q := own];
  }

  lemma SecondPreview(sha: Hasher, y: Story)
    requires y.Differs()
    ensures Conflicted(sha, y).Valid(GraphOf(sha, y, 3))
    ensures Previews(GraphOf(sha, y, 3), Conflicted(sha, y), true)
  {
    History(sha, y, 3);
    hide Reaches, MergeBase;
    assert y.path in Conflicted(sha, y).unmerged;
    Overlap(GraphOf(sha, y, 3), Conflicted(sha, y), 0, y.path);
  }

  /** `add -A` and a commit: the open merge is concluded with what git left in the file. */
  lemma SecondStage(sha: Hasher, y: Story)
    requires y.Differs()
    ensures var r := Conflicted(sha, y);
      && r.Valid(GraphOf(sha, y, 3)) && r.(origin := 1) == r
      && StageAndCommit(sha, Remote(sha, y, 3), r) == Staged(Remote(sha, y, 4), Merged(sha, y), VersionClash.FirstVersion())
  {
    var r, version := Conflicted(sha, y), VersionClash.FirstVersion();
    assert y.path in r.unmerged;
    assert !r.Clean(GraphOf(sha, y, 3)) && r.tags.Keys == {};
    var added := AddAll(WriteHash(sha, r, version));
    assert added == r.(index := y.Concluded(sha), worktree := y.Concluded(sha), unmerged := map[]);
    assert added.index[y.path] == y.left && added.HeadTree(GraphOf(sha, y, 3))[y.path] == y.ours;
    assert [r.head] + [1] == [2, 1];
    assert GraphOf(sha, y, 3) + [Commit([2, 1], y.Concluded(sha))] == GraphOf(sha, y, 4);
  }

  /** The tip is in the history already: there is nothing to merge. */
  lemma SecondMerge(sha: Hasher, y: Story)
    ensures Merged(sha, y).Valid(GraphOf(sha, y, 4))
    ensures StartMerge(GraphOf(sha, y, 4), Merged(sha, y), map[]) == Some(Merged(sha, y))
  {
    History(sha, y, 4);
  }

  lemma ThirdPreview(sha: Hasher, y: Story)
    ensures Merged(sha, y).Valid(GraphOf(sha, y, 4))
    ensures Previews(GraphOf(sha, y, 4), Merged(sha, y), false)
  {
    History(sha, y, 4);
    var p := BuildPreview(GraphOf(sha, y, 4), Merged(sha, y).(origin := 1), true);
    assert p.Some? && p.value.remote == {};
  }

  lemma ThirdStage(sha: Hasher, y: Story)
    ensures var r := Merged(sha, y);
      && r.Valid(GraphOf(sha, y, 4)) && r.(origin := 1) == r
      && StageAndCommit(sha, Remote(sha, y, 4), r) == Staged(Remote(sha, y, 4), r, "")
  {
    assert Merged(sha, y).Clean(GraphOf(sha, y, 4));
  }

  /** HEAD has the hash file of the next version: git has nothing to commit, and the program throws. */
  lemma ThirdTrack(sha: Hasher, y: Story)
    ensures var r := Merged(sha, y); r.Valid(GraphOf(sha, y, 4)) && TrackVersion(sha, Remote(sha, y, 4), r, "").TrackRefused?
  {
    var r, version := Merged(sha, y), VersionClash.FirstVersion();
    History(sha, y, 4);
    assert r.tags.Keys == {} && r.Clean(GraphOf(sha, y, 4));
    NoTagsListed(r);
    WritingHashKeepsIt(sha, y.Torn(sha), HashLine(sha, y.Torn(sha), version));
    assert Certified(sha, r.HeadTree(GraphOf(sha, y, 4)), version);
    hide Reaches, Certified, HeadVersionTags, NextStoreVersion;
    TrackRefusedExactly(sha, Remote(sha, y, 4), r, "");
  }

  // ---------------------------------------------------------------- the run

  /** One command, as a run of one move. */
  lemma StageLeads(sha: Hasher, y: Story, n: nat, from: Repo, made: Repo)
    requires 2 <= n <= 3 && WorldHolds(WorldOf(sha, y, n, Fetching(from, true).(phase := Staging)))
    requires from.Valid(GraphOf(sha, y, n)) && made.Valid(GraphOf(sha, y, n + 1))
    requires StageAndCommit(sha, Remote(sha, y, n), from.(origin := 1)) == Staged(Remote(sha, y, n + 1), made, VersionClash.FirstVersion())
    ensures Leads(sha, WorldOf(sha, y, n, Fetching(from, true).(phase := Staging)), [Advance(0, Accept)],
                  WorldOf(sha, y, n + 1, Prepared(from, made, Tracking)))
  {
    hide Reaches, GraphOf, StageAndCommit, NextStoreVersion;
    Steps(sha, y, n, Fetching(from, true).(phase := Staging), Accept, n + 1, Prepared(from, made, Tracking));
  }

  /** The version is there from the commit stage: tracking only lists the changes once more. */
  lemma TrackLeads(sha: Hasher, y: Story, n: nat, from: Repo, made: Repo)
    requires 2 <= n <= 4 && WorldHolds(WorldOf(sha, y, n, Prepared(from, made, Tracking))) && made.Valid(GraphOf(sha, y, n))
    requires BuildPreview(GraphOf(sha, y, n), made, false).Some?
    ensures Leads(sha, WorldOf(sha, y, n, Prepared(from, made, Tracking)), [Advance(0, Accept)],
                  WorldOf(sha, y, n, Prepared(from, made, Merging)))
  {
    var s, ss := Remote(sha, y, n), Prepared(from, made, Tracking);
    FirstVersionIsSome();
    hide Reaches, GraphOf, BuildPreview, NextStoreVersion;
    assert TrackStep(sha, s, ss) == (s, Prepared(from, made, Merging));
    Steps(sha, y, n, ss, Accept, n, Prepared(from, made, Merging));
  }

  lemma FirstVersionIsSome()
    ensures VersionClash.FirstVersion() != ""
  {
  }

  lemma MergeLeads(sha: Hasher, y: Story, n: nat, from: Repo, made: Repo, left: Tree, merge: Repo)
    requires 2 <= n <= 4 && WorldHolds(WorldOf(sha, y, n, Prepared(from, made, Merging))) && made.Valid(GraphOf(sha, y, n))
    requires StartMerge(GraphOf(sha, y, n), made, left) == Some(merge) && merge.head == made.head
    ensures Leads(sha, WorldOf(sha, y, n, Prepared(from, made, Merging)), [Advance(0, Input.Go(left))],
                  WorldOf(sha, y, n, Prepared(from, merge, UnderReview)))
  {
    var s, ss := Remote(sha, y, n), Prepared(from, made, Merging);
    hide Reaches, GraphOf, StartMerge, NextStoreVersion;
    assert MergeStep(s, ss, left) == Prepared(from, merge, UnderReview);
    Steps(sha, y, n, ss, Input.Go(left), n, Prepared(from, merge, UnderReview));
  }

  /** Preview to merge of a reviewed session; `left` is what git writes into conflicted files. */
  function ReviewMoves(left: Tree): seq<Move> {
    [Advance(0, Accept), Advance(0, Accept)] + [Advance(0, Accept)] + [Advance(0, Accept)] + [Advance(0, Input.Go(left))]
  }

  /** A sync of this run up to its review. */
  lemma ReviewOpens(sha: Hasher, y: Story, n: nat, from: Repo, made: Repo, left: Tree, merge: Repo)
    requires 2 <= n <= 3 && WorldHolds(WorldOf(sha, y, n, NewSession(from)))
    requires from.Valid(GraphOf(sha, y, n)) && from.tags == map[] && Previews(GraphOf(sha, y, n), from, true)
    requires StageAndCommit(sha, Remote(sha, y, n), from.(origin := 1)) == Staged(Remote(sha, y, n + 1), made, VersionClash.FirstVersion())
    requires made.Valid(GraphOf(sha, y, n + 1)) && BuildPreview(GraphOf(sha, y, n + 1), made, false).Some?
    requires StartMerge(GraphOf(sha, y, n + 1), made, left) == Some(merge) && merge.head == made.head
    ensures Leads(sha, WorldOf(sha, y, n, NewSession(from)), ReviewMoves(left), WorldOf(sha, y, n + 1, Prepared(from, merge, UnderReview)))
  {
    var w, go := WorldOf(sha, y, n, NewSession(from)), [Advance(0, Accept)];
    var staging, tracking := WorldOf(sha, y, n, Fetching(from, true).(phase := Staging)), WorldOf(sha, y, n + 1, Prepared(from, made, Tracking));
    var merging, end := WorldOf(sha, y, n + 1, Prepared(from, made, Merging)), WorldOf(sha, y, n + 1, Prepared(from, merge, UnderReview));
    hide Reaches, GraphOf, StageAndCommit, StartMerge, BuildPreview, NextStoreVersion, Previews, Prepared, Fetching, WorldHolds, NewSession, Leads;
    PreviewAndFetch(sha, y, n, from, true);
    LeadsEnds(sha, w, [Advance(0, Accept), Advance(0, Accept)], staging);
    StageLeads(sha, y, n, from, made);
    LeadsEnds(sha, staging, go, tracking);
    TrackLeads(sha, y, n + 1, from, made);
    LeadsEnds(sha, tracking, go, merging);
    MergeLeads(sha, y, n + 1, from, made, left, merge);
    LeadsOn4(sha, w, [Advance(0, Accept), Advance(0, Accept)], staging, go, tracking, go, merging, [Advance(0, Input.Go(left))], end);
  }

  lemma BeginLeads(sha: Hasher, y: Story, n: nat, ss: Session)
    requires 2 <= n <= 4 && WorldHolds(WorldOf(sha, y, n, ss))
    ensures Leads(sha, WorldOf(sha, y, n, ss), [Begin(0, ss.repo.worktree)], WorldOf(sha, y, n, NewSession(ss.repo)))
  {
    var w, move := WorldOf(sha, y, n, ss), Begin(0, ss.repo.worktree);
    hide WorldHolds, GraphOf;
    NextHolds(sha, w, move);
    assert ss.repo.(worktree := ss.repo.worktree) == ss.repo;
    assert Next(sha, w, move) == WorldOf(sha, y, n, NewSession(ss.repo));
    VersionClash.RunOn(sha, w, move, []);
    assert [move] + [] == [move];
  }

  /** The program dies while the merge is open, and is started again. */
  lemma DyingLeads(sha: Hasher, y: Story, n: nat, ss: Session)
    requires 2 <= n <= 4 && WorldHolds(WorldOf(sha, y, n, ss)) && ss.repo.Valid(GraphOf(sha, y, n)) && ss.phase == UnderReview
    ensures Leads(sha, WorldOf(sha, y, n, ss), [Advance(0, Break(false, None))] + [Begin(0, ss.repo.worktree)],
                  WorldOf(sha, y, n, NewSession(ss.repo)))
  {
    hide Reaches, GraphOf, WorldHolds, Run, Command;
    Steps(sha, y, n, ss, Break(false, None), n, ss.(phase := Failed));
    BeginLeads(sha, y, n, ss.(phase := Failed));
    LeadsOn(sha, WorldOf(sha, y, n, ss), [Advance(0, Break(false, None))], WorldOf(sha, y, n, ss.(phase := Failed)),
            [Begin(0, ss.repo.worktree)], WorldOf(sha, y, n, NewSession(ss.repo)));
  }

  /** Accepting, when there is nothing to merge. */
  lemma AcceptLeads(sha: Hasher, y: Story, n: nat, from: Repo, repo: Repo)
    requires 2 <= n <= 4 && WorldHolds(WorldOf(sha, y, n, Prepared(from, repo, UnderReview))) && repo.Valid(GraphOf(sha, y, n))
    requires repo.mergeHead.None? && repo.unmerged == map[]
    ensures Leads(sha, WorldOf(sha, y, n, Prepared(from, repo, UnderReview)), [Advance(0, Accept)] + [Advance(0, Accept)],
                  WorldOf(sha, y, n, Prepared(from, repo, Unpublished)))
  {
    var under, concluding := Prepared(from, repo, UnderReview), Prepared(from, repo, Concluding);
    assert Remote(sha, y, n).Valid();
    hide Reaches, GraphOf, WorldHolds, Run, NextStoreVersion;
    assert Review(GraphOf(sha, y, n), under, Accept) == concluding;
    assert ConcludeStep(sha, Remote(sha, y, n), concluding) == (Remote(sha, y, n), Prepared(from, repo, Unpublished));
    Steps(sha, y, n, under, Accept, n, concluding);
    Steps(sha, y, n, concluding, Accept, n, Prepared(from, repo, Unpublished));
    LeadsOn(sha, WorldOf(sha, y, n, under), [Advance(0, Accept)], WorldOf(sha, y, n, concluding),
            [Advance(0, Accept)], WorldOf(sha, y, n, Prepared(from, repo, Unpublished)));
  }

  // ---------------------------------------------------------------- the whole story

  ghost function Start(y: Story): World {
    World(Server([y.Base(), y.Theirs()], 1, map[]), [NewSession(Client(y))], {1})
  }

  /** A sync up to its review, with a conflict; the program dies; a sync up to its review; the user accepts. */
  ghost function HollowMoves(sha: Hasher, y: Story): seq<Move> {
    ReviewMoves(map[y.path := y.left])
    + ([Advance(0, Break(false, None))] + [Begin(0, Conflicted(sha, y).worktree)])
    + ReviewMoves(map[])
    + ([Advance(0, Accept)] + [Advance(0, Accept)])
  }

  lemma StartIsFresh(sha: Hasher, y: Story)
    ensures Fresh(Start(y)) && WorldHolds(Start(y)) && Start(y) == WorldOf(sha, y, 2, NewSession(Client(y)))
  {
    assert GraphOf(sha, y, 2) == [y.Base(), y.Theirs()];
    FreshHolds(Start(y));
  }

  lemma FirstReview(sha: Hasher, y: Story)
    requires y.Differs()
    ensures Leads(sha, WorldOf(sha, y, 2, NewSession(Client(y))), ReviewMoves(map[y.path := y.left]),
                  WorldOf(sha, y, 3, Prepared(Client(y), Conflicted(sha, y), UnderReview)))
  {
    StartIsFresh(sha, y);
    FirstPreview(sha, y);
    FirstStage(sha, y);
    FirstMerge(sha, y);
    History(sha, y, 3);
    hide Reaches, GraphOf, StageAndCommit, StartMerge, NextStoreVersion, Previews, WorldHolds, MergeBase, Fresh, Prepared, Leads;
    ReviewOpens(sha, y, 2, Client(y), Committed(sha, y), map[y.path := y.left], Conflicted(sha, y));
  }

  lemma SecondReview(sha: Hasher, y: Story)
    requires y.Differs() && WorldHolds(WorldOf(sha, y, 3, NewSession(Conflicted(sha, y))))
    ensures Leads(sha, WorldOf(sha, y, 3, NewSession(Conflicted(sha, y))), ReviewMoves(map[]),
                  WorldOf(sha, y, 4, Prepared(Conflicted(sha, y), Merged(sha, y), UnderReview)))
  {
    SecondPreview(sha, y);
    SecondStage(sha, y);
    SecondMerge(sha, y);
    History(sha, y, 4);
    hide Reaches, GraphOf, StageAndCommit, StartMerge, NextStoreVersion, Previews, WorldHolds, MergeBase, Prepared, Leads;
    ReviewOpens(sha, y, 3, Conflicted(sha, y), Merged(sha, y), map[], Merged(sha, y));
  }

  lemma StoryLeads(sha: Hasher, y: Story)
    requires y.Differs()
    ensures Leads(sha, WorldOf(sha, y, 2, NewSession(Client(y))), HollowMoves(sha, y),
                  WorldOf(sha, y, 4, Prepared(Conflicted(sha, y), Merged(sha, y), Unpublished)))
  {
    var under, again := Prepared(Client(y), Conflicted(sha, y), UnderReview), Prepared(Conflicted(sha, y), Merged(sha, y), UnderReview);
    FirstReview(sha, y);
    SecondPreview(sha, y);
    SecondMerge(sha, y);
    hide GraphOf, WorldHolds, Previews, StartMerge, Run, NextStoreVersion, ReviewMoves;
    DyingLeads(sha, y, 3, under);
    SecondReview(sha, y);
    AcceptLeads(sha, y, 4, Conflicted(sha, y), Merged(sha, y));
    LeadsOn4(sha, WorldOf(sha, y, 2, NewSession(Client(y))), ReviewMoves(map[y.path := y.left]), WorldOf(sha, y, 3, under),
             [Advance(0, Break(false, None))] + [Begin(0, Conflicted(sha, y).worktree)], WorldOf(sha, y, 3, NewSession(Conflicted(sha, y))),
             ReviewMoves(map[]), WorldOf(sha, y, 4, again),
             [Advance(0, Accept)] + [Advance(0, Accept)], WorldOf(sha, y, 4, Prepared(Conflicted(sha, y), Merged(sha, y), Unpublished)));
  }

  /** The user syncs once more, having changed nothing. */
  ghost function RetryMoves(sha: Hasher, y: Story): seq<Move> {
    [Begin(0, Merged(sha, y).worktree)] + [Advance(0, Accept), Advance(0, Accept)] + [Advance(0, Accept)] + [Advance(0, Accept)]
  }

  ghost function Stranded(sha: Hasher, y: Story, phase: Phase): Session {
    Fetching(Merged(sha, y), false).(phase := phase, staged := Some(3))
  }

  lemma RetryStages(sha: Hasher, y: Story)
    requires WorldHolds(WorldOf(sha, y, 4, Fetching(Merged(sha, y), false).(phase := Staging)))
    ensures Leads(sha, WorldOf(sha, y, 4, Fetching(Merged(sha, y), false).(phase := Staging)), [Advance(0, Accept)],
                  WorldOf(sha, y, 4, Stranded(sha, y, Tracking)))
  {
    ThirdStage(sha, y);
    hide Reaches, GraphOf, StageAndCommit, NextStoreVersion, WorldHolds;
    Steps(sha, y, 4, Fetching(Merged(sha, y), false).(phase := Staging), Accept, 4, Stranded(sha, y, Tracking));
  }

  lemma RetryThrows(sha: Hasher, y: Story)
    requires WorldHolds(WorldOf(sha, y, 4, Stranded(sha, y, Tracking)))
    ensures Leads(sha, WorldOf(sha, y, 4, Stranded(sha, y, Tracking)), [Advance(0, Accept)], WorldOf(sha, y, 4, Stranded(sha, y, Failed)))
  {
    ThirdTrack(sha, y);
    hide Reaches, GraphOf, TrackVersion, NextStoreVersion, WorldHolds;
    Steps(sha, y, 4, Stranded(sha, y, Tracking), Accept, 4, Stranded(sha, y, Failed));
  }

  lemma RetryLeads(sha: Hasher, y: Story, ss: Session)
    requires WorldHolds(WorldOf(sha, y, 4, ss)) && ss.repo == Merged(sha, y)
    ensures Leads(sha, WorldOf(sha, y, 4, ss), RetryMoves(sha, y), WorldOf(sha, y, 4, Stranded(sha, y, Failed)))
  {
    ThirdPreview(sha, y);
    hide GraphOf, WorldHolds, Previews, Run, NextStoreVersion;
    BeginLeads(sha, y, 4, ss);
    PreviewAndFetch(sha, y, 4, Merged(sha, y), false);
    RetryStages(sha, y);
    RetryThrows(sha, y);
    LeadsOn4(sha, WorldOf(sha, y, 4, ss), [Begin(0, Merged(sha, y).worktree)], WorldOf(sha, y, 4, NewSession(Merged(sha, y))),
             [Advance(0, Accept), Advance(0, Accept)], WorldOf(sha, y, 4, Fetching(Merged(sha, y), false).(phase := Staging)),
             [Advance(0, Accept)], WorldOf(sha, y, 4, Stranded(sha, y, Tracking)),
             [Advance(0, Accept)], WorldOf(sha, y, 4, Stranded(sha, y, Failed)));
  }

  /**
   The whole run, from a fresh world and for any three contents of the entry: the accepted
   review reports success while the remote is as it was at the start, without the client's
   commit 3 and without any tag; commit 3 holds what git left in the conflicted file, as the
   next version. The sync after that commits nothing and throws.
   */
  lemma AcceptedAndStranded(sha: Hasher, y: Story)
    requires y.Differs()
    ensures Fresh(Start(y)) && WorldHolds(Start(y))
    ensures var told := Run(sha, Start(y), HollowMoves(sha, y));
      && |told.sessions| == 1 && told.sessions[0].phase == Unpublished && told.sessions[0].version == VersionClash.FirstVersion()
      && told.server.tip == 1 && told.server.tags == map[] && told.tips == {1} && told.sessions[0].repo.head == 3
      && |told.server.graph| == 4 && told.server.graph[3].parents == [2, 1] && y.path in told.server.graph[3].tree
      && told.server.graph[3].tree[y.path] == y.left && !Reaches(told.server.graph, 3, told.server.tip)
    ensures var told := Run(sha, Start(y), HollowMoves(sha, y)); var end := Run(sha, Start(y), HollowMoves(sha, y) + RetryMoves(sha, y));
      && |end.sessions| == 1 && end.sessions[0].phase == Failed && end.sessions[0].staged == Some(3)
      && end.server == told.server && end.sessions[0].repo == told.sessions[0].repo
  {
    var told := Prepared(Conflicted(sha, y), Merged(sha, y), Unpublished);
    History(sha, y, 4);
    assert GraphOf(sha, y, 4)[3] == Commit([2, 1], y.Concluded(sha));
    StartIsFresh(sha, y);
    StoryLeads(sha, y);
    RetryLeads(sha, y, told);
    LeadsOn(sha, Start(y), HollowMoves(sha, y), WorldOf(sha, y, 4, told), RetryMoves(sha, y), WorldOf(sha, y, 4, Stranded(sha, y, Failed)));
    hide Run, WorldHolds, Fresh, HollowMoves, RetryMoves, GraphOf, Reaches;
  }
}
