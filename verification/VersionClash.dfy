/** A run in which two clients choose the same version, and the slower one is stuck for good. */
module VersionClash {
  import opened Options
  import opened StoreManifest
  import opened StoreVersion
  import opened GitModel
  import opened SyncProtocol
  import opened SyncWorld
  import opened VersionTags

  const EMPTY: Commit := Commit([], map[])

  ghost function FirstVersion(): string { NextStoreVersion({}) }

  function Tag(version: string): string { "v" + version }

  /** The tree that a client commits whose only work is the new files `wt`. */
  ghost function Work(sha: Hasher, wt: Tree): Tree { wt[HASH_FILE := HashLine(sha, wt, FirstVersion())] }

  function Clone(wt: Tree): Repo { Repo(0, 0, None, map[], map[], wt, map[]) }

  /** Two clones of a store with one empty commit and no tags, with the same new files in both. */
  function TwoClones(wt: Tree): World {
    World(Server([EMPTY], 0, map[]), [NewSession(Clone(wt)), NewSession(Clone(wt))], {0})
  }

  lemma TwoClonesAreFresh(wt: Tree)
    ensures Fresh(TwoClones(wt))
  {
  }

  // ---------------------------------------------------------------- committing

  /** Nobody has pushed anything yet. */
  predicate Untouched(s: Server) { s.Valid() && s.tip == 0 && s.graph[0] == EMPTY && s.tags == map[] }

  lemma PreviewOfClone(s: Server, wt: Tree)
    requires Untouched(s)
    ensures PreviewStep(s, NewSession(Clone(wt))) == NewSession(Clone(wt)).(phase := Fetching)
  {
    var r := Clone(wt);
    assert Fetched(s, r) == r;
    BaseOfAncestor(s.graph, 0, 0);
    var preview := BuildPreview(s.graph, r, true).value;
    assert preview.remote == {} && preview.local * preview.remote == {};
  }

  lemma FetchOfClone(s: Server, wt: Tree)
    requires Untouched(s)
    ensures FetchStep(s, NewSession(Clone(wt)).(phase := Fetching)) == NewSession(Clone(wt)).(phase := Staging)
  {
    assert Fetched(s, Clone(wt)) == Clone(wt);
  }

  ghost function Committed(sha: Hasher, s: Server, wt: Tree): Server
    requires s.graph != []
  {
    var graph := s.graph + [Commit([0], Work(sha, wt))];
    assert Ordered(graph);
    s.(graph := graph)
  }

  /** The client that has made that commit, numbered `c`. */
  ghost function Committer(sha: Hasher, wt: Tree, c: nat): Repo {
    Clone(wt).(head := c, index := Work(sha, wt), worktree := Work(sha, wt))
  }

  lemma StageOfClone(sha: Hasher, s: Server, wt: Tree)
    requires Untouched(s) && wt != map[]
    ensures StageAndCommit(sha, s, Clone(wt)) == Staged(Committed(sha, s, wt), Committer(sha, wt, |s.graph|), FirstVersion())
  {
    var r := Clone(wt);
    assert !r.Clean(s.graph) && r.tags.Keys == {};
    var added := AddAll(WriteHash(sha, r, FirstVersion()));
    assert added == r.(worktree := Work(sha, wt), index := Work(sha, wt));
    assert HASH_FILE in added.index && added.HeadTree(s.graph) == map[];
    assert [r.head] + [] == [0];
  }

  /** Ready to pull: everything committed, the first version chosen. */
  ghost function Ready(sha: Hasher, wt: Tree, c: nat): Session {
    NewSession(Clone(wt)).(phase := Pulling, repo := Committer(sha, wt, c), version := FirstVersion(), staged := Some(c), prepared := c)
  }

  lemma TrackOfClone(sha: Hasher, s: Server, wt: Tree, c: nat)
    requires s.Valid() && c < |s.graph|
    ensures TrackStep(sha, s, Ready(sha, wt, c).(phase := Tracking, prepared := 0)) == (s, Ready(sha, wt, c))
  {
    assert FirstVersion() != "";
  }

  function Go(who: nat): Move { Advance(who, Accept) }

  lemma RunOn(sha: Hasher, w: World, move: Move, moves: seq<Move>)
    requires WorldHolds(w)
    ensures WorldHolds(Next(sha, w, move)) && Run(sha, w, [move] + moves) == Run(sha, Next(sha, w, move), moves)
  {
    NextHolds(sha, w, move);
    assert ([move] + moves)[1..] == moves;
  }

  lemma {:induction false} RunConcat(sha: Hasher, w: World, a: seq<Move>, b: seq<Move>)
    requires WorldHolds(w)
    ensures WorldHolds(Run(sha, w, a)) && Run(sha, w, a + b) == Run(sha, Run(sha, w, a), b)
    decreases |a|
  {
    hide Next, WorldHolds;
    if a == [] {
      assert a + b == b;
    } else {
      NextHolds(sha, w, a[0]);
      RunConcat(sha, Next(sha, w, a[0]), a[1..], b);
      assert (a + b)[1..] == a[1..] + b;
    }
  }

  /** The world after client `who` has moved from session `ss` to `next`, the server to `server`. */
  ghost predicate Moves(sha: Hasher, w: World, who: nat, server: Server, next: Session)
    requires WorldHolds(w)
  {
    who < |w.sessions| && Next(sha, w, Go(who)) == World(server, w.sessions[who := next], w.tips + {server.tip})
  }

  lemma StepMoves(sha: Hasher, w: World, who: nat, server: Server, next: Session)
    requires WorldHolds(w) && who < |w.sessions| && Step(sha, w.server, w.sessions[who], Accept) == (server, next)
    ensures Moves(sha, w, who, server, next) && WorldHolds(Next(sha, w, Go(who)))
  {
    NextHolds(sha, w, Go(who));
  }

  function Times(move: Move, n: nat): seq<Move> { if n == 0 then [] else [move] + Times(move, n - 1) }

  lemma RunTimes(sha: Hasher, w: World, move: Move, n: nat)
    requires WorldHolds(w) && n > 0
    ensures WorldHolds(Next(sha, w, move)) && Run(sha, w, Times(move, n)) == Run(sha, Next(sha, w, move), Times(move, n - 1))
  {
    RunOn(sha, w, move, Times(move, n - 1));
  }

  /** Preview, fetch, commit and track. */
  lemma CommitsAlone(sha: Hasher, w: World, who: nat, wt: Tree)
    requires WorldHolds(w) && Untouched(w.server) && w.tips == {0} && wt != map[]
    requires who < |w.sessions| && w.sessions[who] == NewSession(Clone(wt))
    ensures Run(sha, w, Times(Go(who), 4))
         == World(Committed(sha, w.server, wt), w.sessions[who := Ready(sha, wt, |w.server.graph|)], {0})
  {
    var s, ss, go := w.server, NewSession(Clone(wt)), Go(who);
    assert {0} + {0} == {0};
    PreviewOfClone(s, wt);
    StepMoves(sha, w, who, s, ss.(phase := Fetching));
    var w1 := Next(sha, w, go);
    FetchOfClone(s, wt);
    StepMoves(sha, w1, who, s, ss.(phase := Staging));
    var w2 := Next(sha, w1, go);
    assert w2 == World(s, w.sessions[who := ss.(phase := Staging)], {0});
    RunTimes(sha, w, go, 4);
    RunTimes(sha, w1, go, 3);
    CommitsNext(sha, w, w2, who, wt);
  }

  lemma CommitsNext(sha: Hasher, w: World, w2: World, who: nat, wt: Tree)
    requires WorldHolds(w2) && Untouched(w.server) && wt != map[] && who < |w.sessions|
    requires w2 == World(w.server, w.sessions[who := NewSession(Clone(wt)).(phase := Staging)], {0})
    ensures Run(sha, w2, Times(Go(who), 2))
         == World(Committed(sha, w.server, wt), w.sessions[who := Ready(sha, wt, |w.server.graph|)], {0})
  {
    var s, c, go := w.server, |w.server.graph|, Go(who);
    var s2, tracking := Committed(sha, s, wt), Ready(sha, wt, c).(phase := Tracking, prepared := 0);
    assert {0} + {0} == {0};
    StageOfClone(sha, s, wt);
    StepMoves(sha, w2, who, s2, tracking);
    var w3 := Next(sha, w2, go);
    TrackOfClone(sha, s2, wt, c);
    StepMoves(sha, w3, who, s2, Ready(sha, wt, c));
    var w4 := Next(sha, w3, go);
    RunTimes(sha, w2, go, 2);
    RunTimes(sha, w3, go, 1);
    assert Run(sha, w4, Times(go, 0)) == w4;
    assert w4.sessions == w.sessions[who := Ready(sha, wt, c)];
  }

  // ---------------------------------------------------------------- publishing

  /** The client has pushed its commit `c`, made its tag, and not yet pushed the tag. */
  ghost function TagReady(sha: Hasher, wt: Tree, c: nat): Session {
    Ready(sha, wt, c).(phase := TagPushing, repo := Committer(sha, wt, c).(origin := c, tags := map[Tag(FirstVersion()) := c]), replaced := 0)
  }

  /** The tip has not moved: the client pulls nothing, pushes its commit and tags it. */
  lemma PushesFirst(sha: Hasher, w: World, who: nat, wt: Tree, c: nat)
    requires WorldHolds(w) && Untouched(w.server) && w.tips == {0}
    requires who < |w.sessions| && w.sessions[who] == Ready(sha, wt, c)
    requires c < |w.server.graph| && w.server.graph[c] == Commit([0], Work(sha, wt))
    ensures Run(sha, w, Times(Go(who), 3)) == World(w.server.(tip := c), w.sessions[who := TagReady(sha, wt, c)], {0, c})
  {
    var ss, go := Ready(sha, wt, c), Go(who);
    PullsNothing(sha, w.server, wt, c);
    StepMoves(sha, w, who, w.server, ss.(phase := Pushing));
    var w1 := Next(sha, w, go);
    assert w1 == World(w.server, w.sessions[who := ss.(phase := Pushing)], {0});
    RunTimes(sha, w, go, 3);
    hide Step, Next, WorldHolds, Ready, TagReady;
    PushesAndTags(sha, w, w1, who, wt, c);
  }

  lemma PullsNothing(sha: Hasher, s: Server, wt: Tree, c: nat)
    requires Untouched(s) && c < |s.graph| && s.graph[c] == Commit([0], Work(sha, wt))
    ensures Reaches(s.graph, 0, c) && Committer(sha, wt, c).Valid(s.graph)
    ensures Step(sha, s, Ready(sha, wt, c), Accept) == (s, Ready(sha, wt, c).(phase := Pushing))
  {
    assert Reaches(s.graph, 0, 0);
    assert s.graph[c].parents[0] == 0 && Reaches(s.graph, 0, c);
    assert Pull(s, Committer(sha, wt, c), map[]) == Pulled(s, Committer(sha, wt, c));
  }

  lemma PushesAndTags(sha: Hasher, w: World, w1: World, who: nat, wt: Tree, c: nat)
    requires WorldHolds(w1) && Untouched(w.server) && who < |w.sessions|
    requires w1 == World(w.server, w.sessions[who := Ready(sha, wt, c).(phase := Pushing)], {0})
    requires c < |w.server.graph| && Reaches(w.server.graph, 0, c)
    ensures Run(sha, w1, Times(Go(who), 2)) == World(w.server.(tip := c), w.sessions[who := TagReady(sha, wt, c)], {0, c})
  {
    var s, ss, go := w.server, Ready(sha, wt, c), Go(who);
    var pushed := ss.(phase := Tagging, repo := ss.repo.(origin := c), replaced := 0);
    assert FirstVersion() != "";
    StepMoves(sha, w1, who, s.(tip := c), pushed);
    var w2 := Next(sha, w1, go);
    assert w2 == World(s.(tip := c), w.sessions[who := pushed], {0, c});
    StepMoves(sha, w2, who, s.(tip := c), TagReady(sha, wt, c));
    var w3 := Next(sha, w2, go);
    RunTimes(sha, w1, go, 2);
    RunTimes(sha, w2, go, 1);
    assert Run(sha, w3, Times(go, 0)) == w3;
    assert w3.sessions == w.sessions[who := TagReady(sha, wt, c)] && w3.tips == {0, c};
  }

  /** Then it pushes the tag. */
  lemma PublishesTag(sha: Hasher, w: World, who: nat, wt: Tree, c: nat)
    requires WorldHolds(w) && w.server.tags == map[] && w.tips == {0, c} && w.server.tip == c
    requires who < |w.sessions| && w.sessions[who] == TagReady(sha, wt, c)
    ensures Next(sha, w, Go(who)) == World(w.server.(tags := map[Tag(FirstVersion()) := c]),
                                           w.sessions[who := TagReady(sha, wt, c).(phase := Finished)], {0, c})
  {
    var server := w.server.(tags := map[Tag(FirstVersion()) := c]);
    StepMoves(sha, w, who, server, TagReady(sha, wt, c).(phase := Finished));
  }

  /** Commits 1 and 2 are the two clients' own, side by side on top of commit 0; the first is the tip. */
  ghost predicate Forked(sha: Hasher, s: Server, wt: Tree) {
    && s.graph == [EMPTY, Commit([0], Work(sha, wt)), Commit([0], Work(sha, wt))] && s.tip == 1
    && (forall t :: t in s.tags ==> s.tags[t] == 1)
  }

  lemma ForkHistory(sha: Hasher, s: Server, wt: Tree)
    requires Forked(sha, s, wt)
    ensures !Reaches(s.graph, 1, 2) && !Reaches(s.graph, 2, 1) && MergeBase(s.graph, 2, 1) == Some(0)
  {
    var g := s.graph;
    assert !Reaches(g, 1, 0) && !Reaches(g, 2, 0) && Reaches(g, 0, 0);
    assert g[1].parents[0] == 0 && g[2].parents[0] == 0;
    assert Reaches(g, 0, 1) && Reaches(g, 0, 2);
  }

  ghost function Merged(sha: Hasher, s: Server, wt: Tree): Server
    requires Forked(sha, s, wt)
  {
    var graph := s.graph + [Commit([2, 1], Work(sha, wt))];
    assert Ordered(graph);
    s.(graph := graph)
  }

  /** Both made the same tree, so the second one's pull merges without conflict. */
  lemma PullsFork(sha: Hasher, s: Server, wt: Tree)
    requires Forked(sha, s, wt)
    ensures s.Valid() && Committer(sha, wt, 2).Valid(s.graph)
    ensures Pull(s, Committer(sha, wt, 2), map[]) == Pulled(Merged(sha, s, wt), Committer(sha, wt, 3).(origin := 1))
  {
    var r, tree := Committer(sha, wt, 2).(origin := 1), Work(sha, wt);
    ForkHistory(sha, s, wt);
    MergeOfEquals(tree);
    var m := MergeInto(s.graph, r, 0, 1, map[]);
    assert m == r.(mergeHead := Some(1));
    assert [m.head] + [1] == [2, 1];
    hide Reaches, MergeInto, MergeBase;
    assert MakeCommit(s, m) == (Merged(sha, s, wt), Committer(sha, wt, 3).(origin := 1));
  }

  lemma MergeOfEquals(tree: Tree)
    ensures ConflictsOf(map[], tree, tree) == map[] && MergedTree(map[], tree, tree) == tree
  {
  }

  /** The second client after it has merged, pushed and tagged commit 3. */
  ghost function TagsMerge(sha: Hasher, wt: Tree): Session {
    Ready(sha, wt, 2).(phase := TagPushing, repo := Committer(sha, wt, 3).(origin := 3, tags := map[Tag(FirstVersion()) := 3]), replaced := 1)
  }

  /** The tip has moved: the client merges, and its push goes through. */
  lemma PushesSecond(sha: Hasher, w: World, who: nat, wt: Tree)
    requires WorldHolds(w) && Forked(sha, w.server, wt)
    requires who < |w.sessions| && w.sessions[who] == Ready(sha, wt, 2)
    ensures var end := Run(sha, w, Times(Go(who), 3));
      && end.server == Merged(sha, w.server, wt).(tip := 3)
      && |end.sessions| == |w.sessions| && end.sessions[who] == TagsMerge(sha, wt)
  {
    var s, ss, go := w.server, Ready(sha, wt, 2), Go(who);
    var pulled := ss.(phase := Pushing, repo := Committer(sha, wt, 3).(origin := 1));
    PullsFork(sha, s, wt);
    StepMoves(sha, w, who, Merged(sha, s, wt), pulled);
    RunTimes(sha, w, go, 3);
    hide Step, Next, Merged, Ready, WorldHolds, Reaches;
    PushesMergeAndTags(sha, w, Next(sha, w, go), who, wt);
  }

  lemma PushesMergeAndTags(sha: Hasher, w: World, w1: World, who: nat, wt: Tree)
    requires WorldHolds(w1) && Forked(sha, w.server, wt) && who < |w.sessions| && w1.server == Merged(sha, w.server, wt)
    requires w1.sessions == w.sessions[who := Ready(sha, wt, 2).(phase := Pushing, repo := Committer(sha, wt, 3).(origin := 1))]
    ensures var end := Run(sha, w1, Times(Go(who), 2));
      && end.server == Merged(sha, w.server, wt).(tip := 3)
      && |end.sessions| == |w.sessions| && end.sessions[who] == TagsMerge(sha, wt)
  {
    var s2, go := w1.server, Go(who);
    var pushed := PushedMerge(sha, wt);
    MergePushStep(sha, w.server, wt);
    MergeTagStep(sha, w.server, wt);
    hide Step, Reaches, WorldHolds, Ready, Merged, TagsMerge;
    StepMoves(sha, w1, who, s2.(tip := 3), pushed);
    var w2 := Next(sha, w1, go);
    StepMoves(sha, w2, who, s2.(tip := 3), TagsMerge(sha, wt));
    RunTimes(sha, w1, go, 2);
    RunTimes(sha, w2, go, 1);
    assert Run(sha, Next(sha, w2, go), Times(go, 0)) == Next(sha, w2, go);
  }

  ghost function PushedMerge(sha: Hasher, wt: Tree): Session {
    Ready(sha, wt, 2).(phase := Tagging, repo := Committer(sha, wt, 3).(origin := 3), replaced := 1)
  }

  lemma MergePushStep(sha: Hasher, s: Server, wt: Tree)
    requires Forked(sha, s, wt)
    ensures var s2 := Merged(sha, s, wt); var ss := Ready(sha, wt, 2).(phase := Pushing, repo := Committer(sha, wt, 3).(origin := 1));
      && s2.Valid() && ss.repo.Valid(s2.graph) && Step(sha, s2, ss, Accept) == (s2.(tip := 3), PushedMerge(sha, wt))
  {
    PushesMerge(sha, s, wt);
    assert FirstVersion() != "";
    hide Reaches, Work, NextStoreVersion;
  }

  lemma MergeTagStep(sha: Hasher, s: Server, wt: Tree)
    requires Forked(sha, s, wt)
    ensures var s2 := Merged(sha, s, wt).(tip := 3);
      && s2.Valid() && PushedMerge(sha, wt).repo.Valid(s2.graph)
      && Step(sha, s2, PushedMerge(sha, wt), Accept) == (s2, TagsMerge(sha, wt))
  {
    PushesMerge(sha, s, wt);
    hide Reaches, Work, NextStoreVersion;
  }

  /** The first client's tag is there already: the second one's is refused. */
  lemma TagIsRefused(sha: Hasher, w: World, who: nat, wt: Tree)
    requires WorldHolds(w) && who < |w.sessions| && w.sessions[who] == TagsMerge(sha, wt)
    requires w.server.tags == map[Tag(FirstVersion()) := 1]
    ensures var n := Next(sha, w, Go(who));
      n.server == w.server && |n.sessions| == |w.sessions| && Stuck(n, who) && n.sessions[who].repo.head == 3
  {
    var ss := TagsMerge(sha, wt);
    StepMoves(sha, w, who, w.server, ss.(phase := Failed));
    assert Tag(FirstVersion()) in w.server.tags && Tag(FirstVersion()) in ss.repo.tags;
  }

  /** The first client's tag was lost on the way: the second one's is published. */
  lemma TagIsPublished(sha: Hasher, w: World, who: nat, wt: Tree)
    requires WorldHolds(w) && who < |w.sessions| && w.sessions[who] == TagsMerge(sha, wt) && w.server.tags == map[]
    ensures var n := Next(sha, w, Go(who));
      && n.server == w.server.(tags := map[Tag(FirstVersion()) := 3])
      && n.sessions == w.sessions[who := TagsMerge(sha, wt).(phase := Finished)]
  {
    StepMoves(sha, w, who, w.server.(tags := map[Tag(FirstVersion()) := 3]), TagsMerge(sha, wt).(phase := Finished));
  }

  lemma PushesMerge(sha: Hasher, s: Server, wt: Tree)
    requires Forked(sha, s, wt)
    ensures Merged(sha, s, wt).Valid() && Committer(sha, wt, 3).Valid(Merged(sha, s, wt).graph)
    ensures Reaches(Merged(sha, s, wt).graph, 1, 3)
  {
    var g := Merged(sha, s, wt).graph;
    assert g[3].parents[1] == 1 && Reaches(g, 1, 1);
  }

  function CommitMoves(): seq<Move> { Times(Go(0), 4) + Times(Go(1), 4) }

  /** Both commit; the first publishes, then the second. */
  function ClashingMoves(): seq<Move> { CommitMoves() + (Times(Go(0), 3) + [Go(0)] + (Times(Go(1), 3) + [Go(1)])) }

  /** Both commit; the first one's tag push breaks off before it gets through, then the second publishes. */
  function LosingMoves(wreck: Option<Wreck>): seq<Move> {
    CommitMoves() + (Times(Go(0), 3) + [Advance(0, Break(false, wreck))] + (Times(Go(1), 3) + [Go(1)]))
  }

  /**
   Two clients that add the same files, one after the other: the first publishes version
   one; the second's branch is pushed too, but not its tag. The remote tip is then a commit
   without a version, and whatever anybody does afterwards, the second client never syncs again.
   */
  lemma TwoClientsOneVersion(sha: Hasher, wt: Tree, later: seq<Move>)
    requires wt != map[]
    ensures Fresh(TwoClones(wt)) && WorldHolds(TwoClones(wt))
    ensures var end := Run(sha, TwoClones(wt), ClashingMoves());
      && end.server.tip == 3 && end.server.tags == map[Tag(FirstVersion()) := 1]
      && |end.sessions| == 2 && end.sessions[0].phase == Finished && Stuck(end, 1) && end.sessions[1].repo.head == 3
    ensures var end := Run(sha, TwoClones(wt), ClashingMoves() + later);
      Stuck(end, 1) && (LeftAlone(later, 1) ==> end.sessions[1].repo.head == 3)
  {
    var w := TwoClones(wt);
    TwoClonesAreFresh(wt);
    FreshHolds(w);
    var half := BothCommitted(sha, wt);
    var end := ClashFollows(sha, wt, half);
    RunConcat(sha, w, CommitMoves(), Times(Go(0), 3) + [Go(0)] + (Times(Go(1), 3) + [Go(1)]));
    RunConcat(sha, w, ClashingMoves(), later);
    StuckForGood(sha, end, later, 1);
  }

  /**
   The same two clients, but the first one's tag never reaches the server. The second
   finishes its sync under that version, and then it is the first client, whose tag was
   never refused, that never syncs again.
   */
  lemma LostTagGetsStuck(sha: Hasher, wt: Tree, wreck: Option<Wreck>, later: seq<Move>)
    requires wt != map[]
    ensures Fresh(TwoClones(wt)) && WorldHolds(TwoClones(wt))
    ensures var end := Run(sha, TwoClones(wt), LosingMoves(wreck));
      && end.server.tip == 3 && end.server.tags == map[Tag(FirstVersion()) := 3]
      && |end.sessions| == 2 && end.sessions[1].phase == Finished && end.sessions[1].repo.head == 3
      && Stuck(end, 0) && end.sessions[0].repo.head == 1 && end.sessions[0].repo.tags == map[Tag(FirstVersion()) := 1]
    ensures var end := Run(sha, TwoClones(wt), LosingMoves(wreck) + later);
      Stuck(end, 0) && (LeftAlone(later, 0) ==> end.sessions[0].repo.head == 1)
  {
    var w := TwoClones(wt);
    TwoClonesAreFresh(wt);
    FreshHolds(w);
    var half := BothCommitted(sha, wt);
    var end := LossFollows(sha, wt, wreck, half);
    RunConcat(sha, w, CommitMoves(), Times(Go(0), 3) + [Advance(0, Break(false, wreck))] + (Times(Go(1), 3) + [Go(1)]));
    RunConcat(sha, w, LosingMoves(wreck), later);
    StuckForGood(sha, end, later, 0);
  }

  lemma BothCommitted(sha: Hasher, wt: Tree) returns (half: World)
    requires wt != map[]
    ensures WorldHolds(TwoClones(wt)) && half == Run(sha, TwoClones(wt), CommitMoves()) && WorldHolds(half)
    ensures BothReady(sha, wt, half)
  {
    hide Next, WorldHolds, Ready, Work, Fresh, Step, TwoClones, Run, Times;
    FirstCommitted(sha, wt);
    var w1 := Run(sha, TwoClones(wt), Times(Go(0), 4));
    half := SecondCommitted(sha, wt, w1);
    RunConcat(sha, TwoClones(wt), Times(Go(0), 4), Times(Go(1), 4));
  }

  lemma SecondCommitted(sha: Hasher, wt: Tree, w: World) returns (half: World)
    requires WorldHolds(w) && w.sessions == [Ready(sha, wt, 1), NewSession(Clone(wt))] && w.tips == {0} && Untouched(w.server)
    requires w.server.graph == [EMPTY, Commit([0], Work(sha, wt))] && wt != map[]
    ensures half == Run(sha, w, Times(Go(1), 4)) && BothReady(sha, wt, half)
  {
    hide Next, WorldHolds, Ready, Work, Step, Run, Times;
    CommitsAlone(sha, w, 1, wt);
    RunHolds(sha, w, Times(Go(1), 4));
    half := Run(sha, w, Times(Go(1), 4));
    assert half.server.graph == w.server.graph + [Commit([0], Work(sha, wt))];
    assert half.server.Valid();
  }

  lemma FirstCommitted(sha: Hasher, wt: Tree)
    requires wt != map[]
    ensures WorldHolds(TwoClones(wt)) && WorldHolds(Run(sha, TwoClones(wt), Times(Go(0), 4)))
    ensures var w1 := Run(sha, TwoClones(wt), Times(Go(0), 4));
      && w1.sessions == [Ready(sha, wt, 1), NewSession(Clone(wt))] && w1.tips == {0} && Untouched(w1.server)
      && w1.server.graph == [EMPTY, Commit([0], Work(sha, wt))]
  {
    var w := TwoClones(wt);
    TwoClonesAreFresh(wt);
    FreshHolds(w);
    hide Next, WorldHolds, Ready, Work, Fresh, Step, Run, Times;
    CommitsAlone(sha, w, 0, wt);
    RunHolds(sha, w, Times(Go(0), 4));
    assert Committed(sha, w.server, wt).graph == [EMPTY, Commit([0], Work(sha, wt))];
  }

  ghost predicate BothReady(sha: Hasher, wt: Tree, half: World) {
    && WorldHolds(half) && half.sessions == [Ready(sha, wt, 1), Ready(sha, wt, 2)] && half.tips == {0} && Untouched(half.server)
    && half.server.graph == [EMPTY, Commit([0], Work(sha, wt)), Commit([0], Work(sha, wt))]
  }

  lemma RunSnoc(sha: Hasher, w: World, moves: seq<Move>, last: Move)
    requires WorldHolds(w)
    ensures WorldHolds(Run(sha, w, moves)) && Run(sha, w, moves + [last]) == Next(sha, Run(sha, w, moves), last)
  {
    RunConcat(sha, w, moves, [last]);
    var m := Run(sha, w, moves);
    RunOn(sha, m, last, []);
    assert [last] + [] == [last];
  }

  /** The first client has pushed and tagged, the second is where it was. */
  lemma FirstHasPushed(sha: Hasher, wt: Tree, half: World) returns (w: World)
    requires BothReady(sha, wt, half)
    ensures WorldHolds(w) && w == Run(sha, half, Times(Go(0), 3))
    ensures w == World(half.server.(tip := 1), [TagReady(sha, wt, 1), Ready(sha, wt, 2)], {0, 1})
  {
    PushesFirst(sha, half, 0, wt, 1);
    RunHolds(sha, half, Times(Go(0), 3));
    w := Run(sha, half, Times(Go(0), 3));
    hide Ready, TagReady, Run, WorldHolds;
    assert w.sessions == [TagReady(sha, wt, 1), Ready(sha, wt, 2)];
  }

  lemma ClashFollows(sha: Hasher, wt: Tree, half: World) returns (end: World)
    requires BothReady(sha, wt, half)
    ensures end == Run(sha, half, Times(Go(0), 3) + [Go(0)] + (Times(Go(1), 3) + [Go(1)])) && WorldHolds(end)
    ensures end.server.tip == 3 && end.server.tags == map[Tag(FirstVersion()) := 1]
    ensures |end.sessions| == 2 && end.sessions[0].phase == Finished && Stuck(end, 1) && end.sessions[1].repo.head == 3
  {
    var w1 := FirstHasPushed(sha, wt, half);
    assert half.server.tags == map[];
    hide Ready, TagReady, TagsMerge, Run, WorldHolds, Times, Next, Step, Stuck;
    PublishesTag(sha, w1, 0, wt, 1);
    RunSnoc(sha, half, Times(Go(0), 3), Go(0));
    NextHolds(sha, w1, Go(0));
    var w2 := Next(sha, w1, Go(0));
    PushesSecond(sha, w2, 1, wt);
    OthersStand(sha, w2, 1, 0, 3);
    RunSnoc(sha, w2, Times(Go(1), 3), Go(1));
    var w3 := Run(sha, w2, Times(Go(1), 3));
    TagIsRefused(sha, w3, 1, wt);
    OneStands(sha, w3, 1, 0);
    end := Next(sha, w3, Go(1));
    RunConcat(sha, half, Times(Go(0), 3) + [Go(0)], Times(Go(1), 3) + [Go(1)]);
  }

  lemma LosesTag(sha: Hasher, wt: Tree, wreck: Option<Wreck>, w: World)
    requires WorldHolds(w) && |w.sessions| == 2 && w.sessions[0] == TagReady(sha, wt, 1) && w.server.tip in w.tips
    ensures var n := Next(sha, w, Advance(0, Break(false, wreck)));
      && WorldHolds(n) && n.server == w.server && |n.sessions| == 2 && n.sessions[1] == w.sessions[1]
      && n.sessions[0].phase == Failed && n.sessions[0].repo.head == 1
      && n.sessions[0].repo.tags == map[Tag(FirstVersion()) := 1]
  {
    NextHolds(sha, w, Advance(0, Break(false, wreck)));
  }

  lemma LossFollows(sha: Hasher, wt: Tree, wreck: Option<Wreck>, half: World) returns (end: World)
    requires BothReady(sha, wt, half)
    ensures end == Run(sha, half, Times(Go(0), 3) + [Advance(0, Break(false, wreck))] + (Times(Go(1), 3) + [Go(1)]))
    ensures WorldHolds(end) && end.server.tip == 3 && end.server.tags == map[Tag(FirstVersion()) := 3]
    ensures |end.sessions| == 2 && end.sessions[1].phase == Finished && end.sessions[1].repo.head == 3
    ensures Stuck(end, 0) && end.sessions[0].repo.head == 1 && end.sessions[0].repo.tags == map[Tag(FirstVersion()) := 1]
  {
    var lost := Advance(0, Break(false, wreck));
    var w1 := FirstHasPushed(sha, wt, half);
    assert half.server.tags == map[];
    hide Ready, TagReady, Run, WorldHolds, Times, Next, Step, Stuck;
    LosesTag(sha, wt, wreck, w1);
    RunSnoc(sha, half, Times(Go(0), 3), lost);
    end := SecondPublishes(sha, wt, Next(sha, w1, lost));
    RunConcat(sha, half, Times(Go(0), 3) + [lost], Times(Go(1), 3) + [Go(1)]);
  }

  /** The second client publishes what the first one has tagged for itself. */
  lemma SecondPublishes(sha: Hasher, wt: Tree, w: World) returns (end: World)
    requires WorldHolds(w) && Forked(sha, w.server, wt) && w.server.tags == map[] && |w.sessions| == 2
    requires w.sessions[1] == Ready(sha, wt, 2) && w.sessions[0].phase == Failed && w.sessions[0].repo.head == 1
    requires w.sessions[0].repo.tags == map[Tag(FirstVersion()) := 1]
    ensures end == Run(sha, w, Times(Go(1), 3) + [Go(1)]) && WorldHolds(end)
    ensures end.server.tip == 3 && end.server.tags == map[Tag(FirstVersion()) := 3]
    ensures |end.sessions| == 2 && end.sessions[1].phase == Finished && end.sessions[1].repo.head == 3
    ensures Stuck(end, 0) && end.sessions[0] == w.sessions[0]
  {
    hide Ready, Run, WorldHolds, Times, Next, Step, Forked, Merged;
    PushesSecond(sha, w, 1, wt);
    OthersStand(sha, w, 1, 0, 3);
    RunSnoc(sha, w, Times(Go(1), 3), Go(1));
    var w1 := Run(sha, w, Times(Go(1), 3));
    MergedTags(sha, w.server, wt);
    TagIsPublished(sha, w1, 1, wt);
    NextHolds(sha, w1, Go(1));
    end := Next(sha, w1, Go(1));
    assert end.sessions[0] == w.sessions[0];
    assert Tag(FirstVersion()) in end.server.tags && Tag(FirstVersion()) in end.sessions[0].repo.tags;
  }

  lemma MergedTags(sha: Hasher, s: Server, wt: Tree)
    requires Forked(sha, s, wt)
    ensures Merged(sha, s, wt).tags == s.tags && Merged(sha, s, wt).(tip := 3).tip == 3
  {
  }

  lemma OneStands(sha: Hasher, w: World, who: nat, i: nat)
    requires WorldHolds(w) && i < |w.sessions| && i != who
    ensures var n := Next(sha, w, Go(who)); WorldHolds(n) && |n.sessions| == |w.sessions| && n.sessions[i] == w.sessions[i]
  {
    NextHolds(sha, w, Go(who));
    hide WorldHolds, Step;
  }

  /** Moves of one client leave the other sessions alone. */
  lemma {:induction false} OthersStand(sha: Hasher, w: World, who: nat, i: nat, n: nat)
    requires WorldHolds(w) && i < |w.sessions| && i != who
    ensures |Run(sha, w, Times(Go(who), n)).sessions| == |w.sessions| && Run(sha, w, Times(Go(who), n)).sessions[i] == w.sessions[i]
    decreases n
  {
    hide Next, WorldHolds;
    if n > 0 {
      RunTimes(sha, w, Go(who), n);
      OneStands(sha, w, who, i);
      OthersStand(sha, Next(sha, w, Go(who)), who, i, n - 1);
    }
  }
}
