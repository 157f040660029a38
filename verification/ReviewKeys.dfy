/**
 What the keys of a review come to: for every path, which side or edit is in the merge
 commit that the review ends with.
 */
module ReviewKeys {
  import opened Options
  import opened StoreManifest
  import opened GitModel
  import opened SyncProtocol
  import opened SyncWorld
  import HollowReview
  import opened HollowRun

  // ---------------------------------------------------------------- one key

  /**
   Keeping a side of a path in conflict: the session stays in its review, that path alone is
   no longer in conflict, and it holds what the chosen side has there, HEAD for the local
   one and the remote-tracking branch for the other, or nothing if that side has no such file.
   */
  lemma KeepChooses(sha: Hasher, s: Server, ss: Session, path: Path, local: bool)
    requires SessionHolds(s, ss) && ss.phase == UnderReview && path in ss.repo.unmerged
    ensures ss.repo.Valid(s.graph)
    ensures var (server, next) := Step(sha, s, ss, Keep(path, local));
      var side := if local then s.graph[ss.repo.head].tree else s.graph[ss.repo.origin].tree;
      && server == s && next == ss.(repo := next.repo)
      && next.repo.unmerged.Keys == ss.repo.unmerged.Keys - {path}
      && Get(next.repo.index, path) == Get(side, path) && Get(next.repo.worktree, path) == Get(side, path)
      && SameElsewhere(ss.repo, next.repo, path)
  {
    assert Reviewing(s.graph, ss.repo);
    ResolvingSettlesOnePath(s.graph, ss.repo, path, local);
    hide SessionHolds, Reviewing, ResolveConflict, SameElsewhere, Reaches;
    assert Step(sha, s, ss, Keep(path, local)) == (s, Review(s.graph, ss, Keep(path, local)));
  }

  /** Keeping a side throws exactly if neither the merge nor that side has the file; the session stays in its review otherwise. */
  lemma KeepFailsExactly(sha: Hasher, s: Server, ss: Session, path: Path, local: bool)
    requires SessionHolds(s, ss) && ss.phase == UnderReview
    ensures s.Valid() && ss.repo.Valid(s.graph)
    ensures var next := Step(sha, s, ss, Keep(path, local)).1; var r := ss.repo;
      && (next.phase == UnderReview || next.phase == Failed)
      && (next.phase == Failed <==>
            path !in r.unmerged && path !in r.index && path !in s.graph[if local then r.head else r.origin].tree)
  {
    assert Reviewing(s.graph, ss.repo);
    KeepingIs(s.graph, ss.repo, path, local);
    hide SessionHolds, Reviewing, ResolveConflict, Reaches;
    assert Step(sha, s, ss, Keep(path, local)) == (s, Review(s.graph, ss, Keep(path, local)));
  }

  /** Staging an edited file throws exactly if it is gone and git knows of no such file. */
  lemma EditFailsExactly(sha: Hasher, s: Server, ss: Session, path: Path, content: Option<string>)
    requires SessionHolds(s, ss) && ss.phase == UnderReview
    ensures s.Valid() && ss.repo.Valid(s.graph)
    ensures var next := Step(sha, s, ss, Edit(path, content)).1; var r := ss.repo;
      && (next.phase == UnderReview || next.phase == Failed)
      && (next.phase == Failed <==> content.None? && path !in r.index && path !in r.unmerged)
  {
    assert s.Valid() && ss.repo.Valid(s.graph);
    hide SessionHolds, Reviewing, Reaches;
    assert Step(sha, s, ss, Edit(path, content)) == (s, Review(s.graph, ss, Edit(path, content)));
  }

  /** Leaving the review always works: with a merge open it is aborted, whatever was resolved or edited, and else nothing changes. */
  lemma QuittingIs(sha: Hasher, s: Server, ss: Session)
    requires SessionHolds(s, ss) && ss.phase == UnderReview
    ensures s.Valid() && ss.repo.Valid(s.graph)
    ensures var head := s.graph[ss.repo.head].tree;
      Step(sha, s, ss, Quit) == (s,
        if ss.repo.mergeHead.None? then ss.(phase := Dismissed)
        else ss.(phase := Cancelled, repo := ss.repo.(mergeHead := None, unmerged := map[], index := head, worktree := head)))
  {
    assert Reviewing(s.graph, ss.repo);
    if ss.repo.mergeHead.Some? { CancelRestoresCommit(s.graph, ss.repo); }
    hide SessionHolds, Reviewing, AbortMerge, Reaches;
    assert Step(sha, s, ss, Quit) == (s, Review(s.graph, ss, Quit));
  }

  /** A path is in conflict, or settled on a content or on its absence. */
  datatype Standing = Open | Settled(content: Option<string>)

  function StandingOf(r: Repo, p: Path): Standing { if p in r.unmerged then Open else Settled(Get(r.index, p)) }

  predicate IsAbout(key: Input, p: Path) { (key.Keep? || key.Edit?) && key.path == p }

  /** What the user asks for with a key. */
  function Wanted(key: Input, ours: Option<string>, theirs: Option<string>): Option<string>
    requires key.Keep? || key.Edit?
  {
    if key.Edit? then key.content else if key.local then ours else theirs
  }

  /** A side can be kept while the path is in conflict, and again once it has been settled on having no file. */
  function Pressed(now: Standing, key: Input, p: Path, ours: Option<string>, theirs: Option<string>): Standing {
    if !IsAbout(key, p) then now
    else if key.Keep? && now.Settled? && now.content.Some? then now
    else Settled(Wanted(key, ours, theirs))
  }

  function PressedAll(now: Standing, keys: seq<Leg>, p: Path, ours: Option<string>, theirs: Option<string>): Standing
    decreases |keys|
  {
    if keys == [] then now else PressedAll(Pressed(now, keys[0].input, p, ours, theirs), keys[1..], p, ours, theirs)
  }

  lemma SettleStands(r: Repo, path: Path, content: Option<string>, p: Path)
    ensures StandingOf(Settle(r, path, content), p) == if p == path then Settled(content) else StandingOf(r, p)
  {
  }

  lemma KeepingIs(g: Graph, r: Repo, path: Path, local: bool)
    requires Reviewing(g, r)
    ensures var chosen := Chosen(g, r, path, local);
      ResolveConflict(g, r, path, local) ==
        if path in r.unmerged then Some(Settle(r, path, chosen))
        else if path in r.index then Some(Settle(r, path, Some(r.index[path])))
        else if chosen.Some? then Some(Settle(r, path, chosen)) else None
  {
    if path in r.unmerged {
      ResolvingSettles(g, r, path, local);
    } else if path !in r.index {
      assert CheckoutSide(r, path, local).None?;
      assert Get(r.worktree, path) == None && path !in r.worktree;
    }
  }

  lemma KeptStands(g: Graph, r: Repo, path: Path, local: bool, p: Path)
    requires Reviewing(g, r) && ResolveConflict(g, r, path, local).Some?
    ensures StandingOf(ResolveConflict(g, r, path, local).value, p) ==
      Pressed(StandingOf(r, p), Keep(path, local), p, Get(g[r.head].tree, p), Get(g[r.origin].tree, p))
  {
    KeepingIs(g, r, path, local);
    hide Reviewing, ResolveConflict, StandingOf, Settle;
    SettleStands(r, path, Chosen(g, r, path, local), p);
    if path in r.index { SettleStands(r, path, Some(r.index[path]), p); }
    StandingAt(r, path);
  }

  lemma KeyStands(g: Graph, ss: Session, key: Input, p: Path)
    requires Reviewing(g, ss.repo) && ss.phase == UnderReview && Review(g, ss, key).phase == UnderReview
    ensures StandingOf(Review(g, ss, key).repo, p) ==
      Pressed(StandingOf(ss.repo, p), key, p, Get(g[ss.repo.head].tree, p), Get(g[ss.repo.origin].tree, p))
  {
    var r := ss.repo;
    assert r.Valid(g);
    hide Reviewing, ResolveConflict, StageFile, AbortMerge, StandingOf, Settle;
    match key
    case Keep(path, local) => KeptStands(g, r, path, local, p);
    case Edit(path, content) =>
      EditingKeepsReview(g, r, path, content);
      SettleStands(r, path, content, p);
    case _ =>
  }

  lemma StandingAt(r: Repo, p: Path)
    ensures StandingOf(r, p) == if p in r.unmerged then Open else if p in r.index then Settled(Some(r.index[p])) else Settled(None)
  {
  }

  // ---------------------------------------------------------------- any number of keys

  /** Keys pressed one after the other, others pushing in between, as long as the review goes on. */
  ghost function Press(sha: Hasher, s: Server, ss: Session, keys: seq<Leg>): (Server, Session)
    requires SessionHolds(s, ss)
    decreases |keys|
  {
    if keys == [] || ss.phase != UnderReview then (s, ss)
    else
      var s1 := Interfered(s, keys[0].gap);
      GapHolds(s, keys[0].gap, ss);
      EveryStepIsFair(sha, s1, ss, keys[0].input);
      var (server, next) := Step(sha, s1, ss, keys[0].input);
      Press(sha, server, next, keys[1..])
  }

  /** What one key does: nothing to the server, and to the client only in index and worktree. */
  lemma KeyStep(sha: Hasher, s: Server, ss: Session, key: Input)
    requires SessionHolds(s, ss) && ss.phase == UnderReview
    ensures ss.repo.Valid(s.graph)
    ensures var (server, next) := Step(sha, s, ss, key);
      next.phase == UnderReview ==>
        && server == s && SessionHolds(s, next) && next == ss.(repo := next.repo)
        && next.repo.head == ss.repo.head && next.repo.origin == ss.repo.origin && next.repo.mergeHead == ss.repo.mergeHead
        && forall p :: StandingOf(next.repo, p)
                    == Pressed(StandingOf(ss.repo, p), key, p, Get(s.graph[ss.repo.head].tree, p), Get(s.graph[ss.repo.origin].tree, p))
  {
    EveryStepIsFair(sha, s, ss, key);
    assert Reviewing(s.graph, ss.repo) && s.Valid() && ss.repo.Valid(s.graph);
    HollowReview.ReviewKeepsMerge(s, ss, key);
    hide SessionHolds, Reviewing, Review, Reaches, Fair, StandingOf, Pressed;
    if Step(sha, s, ss, key).1.phase == UnderReview {
      assert Step(sha, s, ss, key) == (s, Review(s.graph, ss, key));
      forall p ensures StandingOf(Review(s.graph, ss, key).repo, p)
                    == Pressed(StandingOf(ss.repo, p), key, p, Get(s.graph[ss.repo.head].tree, p), Get(s.graph[ss.repo.origin].tree, p)) {
        KeyStands(s.graph, ss, key, p);
      }
    }
  }

  /** `end` has come from `ss` by keys, with `path` standing at `standing`. */
  ghost predicate Stands(s: Server, ss: Session, server: Server, end: Session, p: Path, standing: Standing)
    requires ss.repo.Valid(s.graph)
  {
    && s.Forward(server) && SessionHolds(server, end)
    && end.repo.head == ss.repo.head && end.repo.origin == ss.repo.origin && end.repo.mergeHead == ss.repo.mergeHead
    && StandingOf(end.repo, p) == standing
  }

  function Ours(s: Server, r: Repo, p: Path): Option<string>
    requires r.Valid(s.graph)
  {
    Get(s.graph[r.head].tree, p)
  }

  function Theirs(s: Server, r: Repo, p: Path): Option<string>
    requires r.Valid(s.graph)
  {
    Get(s.graph[r.origin].tree, p)
  }

  lemma FirstKey(sha: Hasher, s: Server, ss: Session, keys: seq<Leg>, p: Path) returns (server: Server, next: Session)
    requires SessionHolds(s, ss) && ss.phase == UnderReview && keys != [] && ss.repo.Valid(s.graph)
    ensures SessionHolds(server, next) && Press(sha, s, ss, keys) == Press(sha, server, next, keys[1..])
    ensures next.phase == UnderReview ==>
      && Stands(s, ss, server, next, p, Pressed(StandingOf(ss.repo, p), keys[0].input, p, Ours(s, ss.repo, p), Theirs(s, ss.repo, p)))
      && next.repo.Valid(server.graph) && Ours(server, next.repo, p) == Ours(s, ss.repo, p) && Theirs(server, next.repo, p) == Theirs(s, ss.repo, p)
  {
    var s1 := Interfered(s, keys[0].gap);
    GapHolds(s, keys[0].gap, ss);
    EveryStepIsFair(sha, s1, ss, keys[0].input);
    server, next := Step(sha, s1, ss, keys[0].input).0, Step(sha, s1, ss, keys[0].input).1;
    hide SessionHolds, Step, StandingOf, Pressed, Fair, Reaches, Interfered;
    KeyStep(sha, s1, ss, keys[0].input);
    hide Press;
  }

  lemma StandsOn(s: Server, ss: Session, server: Server, next: Session, later: Server, end: Session, p: Path, a: Standing, b: Standing)
    requires ss.repo.Valid(s.graph) && next.repo.Valid(server.graph)
    requires Stands(s, ss, server, next, p, a) && Stands(server, next, later, end, p, b)
    ensures Stands(s, ss, later, end, p, b)
  {
    ForwardIsTransitive(s, server, later);
    hide SessionHolds, StandingOf, Reaches;
  }

  /** However many keys, and whatever others push in between: each path stands where its keys have put it. */
  lemma {:induction false} KeysStand(sha: Hasher, s: Server, ss: Session, keys: seq<Leg>, p: Path)
    requires SessionHolds(s, ss) && ss.phase == UnderReview && ss.repo.Valid(s.graph)
    ensures var (server, end) := Press(sha, s, ss, keys);
      end.phase == UnderReview ==>
        Stands(s, ss, server, end, p, PressedAll(StandingOf(ss.repo, p), keys, p, Ours(s, ss.repo, p), Theirs(s, ss.repo, p)))
    decreases |keys|
  {
    assert s.Valid();
    hide SessionHolds, StandingOf, Pressed, Reaches, Ours, Theirs;
    if keys == [] {
      ForwardIsReflexive(s);
    } else {
      var server, next := FirstKey(sha, s, ss, keys, p);
      hide Press, Stands;
      if next.phase == UnderReview {
        var (later, end) := Press(sha, server, next, keys[1..]);
        KeysStand(sha, server, next, keys[1..], p);
        var a := Pressed(StandingOf(ss.repo, p), keys[0].input, p, Ours(s, ss.repo, p), Theirs(s, ss.repo, p));
        assert StandingOf(next.repo, p) == a by { NextStands(s, ss, server, next, p, a); }
        if end.phase == UnderReview {
          StandsOn(s, ss, server, next, later, end, p, a, PressedAll(a, keys[1..], p, Ours(s, ss.repo, p), Theirs(s, ss.repo, p)));
        }
      } else {
        PressIsOver(sha, server, next, keys[1..]);
      }
    }
  }

  lemma NextStands(s: Server, ss: Session, server: Server, next: Session, p: Path, a: Standing)
    requires ss.repo.Valid(s.graph) && Stands(s, ss, server, next, p, a)
    ensures StandingOf(next.repo, p) == a
  {
  }

  lemma PressIsOver(sha: Hasher, s: Server, ss: Session, keys: seq<Leg>)
    requires SessionHolds(s, ss) && ss.phase != UnderReview
    ensures Press(sha, s, ss, keys) == (s, ss)
  {
  }

  // ---------------------------------------------------------------- the commit of the review

  /** A settled review, accepted, concluded whatever others have pushed by then. */
  ghost function Concluded(sha: Hasher, s: Server, ss: Session, later: Server): (Server, Session)
    requires SessionHolds(s, ss) && ss.phase == UnderReview && s.Forward(later)
  {
    EveryStepIsFair(sha, s, ss, Accept);
    AcceptKeeps(sha, s, ss);
    SessionIsStable(s, later, Step(sha, s, ss, Accept).1);
    Step(sha, later, Step(sha, s, ss, Accept).1, Accept)
  }

  lemma AcceptKeeps(sha: Hasher, s: Server, ss: Session)
    requires SessionHolds(s, ss) && ss.phase == UnderReview
    ensures var (server, next) := Step(sha, s, ss, Accept);
      server == s && next == if ss.repo.unmerged == map[] then ss.(phase := Concluding) else ss
  {
    hide SessionHolds;
  }

  lemma SettledIsWorktree(g: Graph, r: Repo, p: Path)
    requires Reviewing(g, r) && p !in r.unmerged
    ensures StandingOf(r, p) == Settled(Get(r.worktree, p))
  {
  }

  /** The commit that concludes a merge has what each path was settled on, hash file aside. */
  lemma ConcludingCommits(sha: Hasher, s: Server, ss: Session, later: Server, p: Path)
    requires SessionHolds(s, ss) && ss.phase == UnderReview && s.Forward(later)
    requires ss.repo.unmerged == map[] && ss.repo.mergeHead.Some? && p != HASH_FILE
    ensures var (server, next) := Concluded(sha, s, ss, later);
      next.phase == Pushing && next.repo.head < |server.graph|
      && StandingOf(ss.repo, p) == Settled(Get(server.graph[next.repo.head].tree, p))
  {
    var concluding := ss.(phase := Concluding);
    AcceptKeeps(sha, s, ss);
    SettledIsWorktree(s.graph, ss.repo, p);
    EveryStepIsFair(sha, s, ss, Accept);
    SessionIsStable(s, later, concluding);
    assert later.Valid() && ss.repo.Valid(later.graph);
    hide SessionHolds, Reaches, Step, StandingOf;
    FinalizeFacts(sha, later, ss.repo, ss.version);
    var f := FinalizeMerge(sha, later, ss.repo, ss.version);
    assert Step(sha, later, concluding, Accept) == (f.server, concluding.(phase := Pushing, repo := f.repo, version := f.version)) by {
      StepConcludes(sha, later, concluding, f);
    }
    SameButHashAt(f.repo.HeadTree(f.server.graph), ss.repo.worktree, p);
  }

  lemma StepConcludes(sha: Hasher, s: Server, ss: Session, f: Finalized)
    requires s.Valid() && ss.repo.Valid(s.graph) && ss.phase == Concluding && f == FinalizeMerge(sha, s, ss.repo, ss.version) && f.MergeCommitted?
    ensures Step(sha, s, ss, Accept) == (f.server, ss.(phase := Pushing, repo := f.repo, version := f.version))
  {
    hide FinalizeMerge, Reaches;
  }

  /**
   The whole review, over any list of keys and whatever others push meanwhile: once nothing
   is in conflict any more and it is accepted, the merge commit has at every path, hash file
   aside, what its keys have come to; where there was no key, what the merge had left.
   */
  lemma ReviewCommitsItsKeys(sha: Hasher, s: Server, ss: Session, keys: seq<Leg>, later: Server, p: Path)
    requires SessionHolds(s, ss) && ss.phase == UnderReview && ss.repo.mergeHead.Some? && p != HASH_FILE
    ensures ss.repo.Valid(s.graph)
    ensures var (reviewed, end) := Press(sha, s, ss, keys);
      end.phase == UnderReview && end.repo.unmerged == map[] && reviewed.Forward(later) ==>
        && SessionHolds(reviewed, end)
        && var (server, next) := Concluded(sha, reviewed, end, later);
           var standing := PressedAll(StandingOf(ss.repo, p), keys, p, Ours(s, ss.repo, p), Theirs(s, ss.repo, p));
           next.phase == Pushing && next.repo.head < |server.graph|
           && standing == Settled(Get(server.graph[next.repo.head].tree, p))
  {
    assert ss.repo.Valid(s.graph);
    KeysStand(sha, s, ss, keys, p);
    var (reviewed, end) := Press(sha, s, ss, keys);
    hide Press, SessionHolds, Reaches, StandingOf, Pressed, PressedAll, Ours, Theirs;
    if end.phase == UnderReview && end.repo.unmerged == map[] && reviewed.Forward(later) {
      ConcludingCommits(sha, reviewed, end, later, p);
    }
  }

  // ---------------------------------------------------------------- what a merge brings

  /** One path in a merge: what both sides have, or what the one side has that changed it; in conflict if both did, differently. */
  function Joined(base: Option<string>, ours: Option<string>, theirs: Option<string>): Standing {
    if ours == theirs || theirs == base then Settled(ours) else if ours == base then Settled(theirs) else Open
  }

  lemma MergeJoins(g: Graph, r: Repo, base: nat, theirs: nat, left: Tree, p: Path)
    requires r.Valid(g) && base < |g| && theirs < |g|
    ensures var m := MergeInto(g, r, base, theirs, left);
      && m.mergeHead == Some(theirs) && m.head == r.head
      && StandingOf(m, p) == Joined(Get(g[base].tree, p), Get(g[r.head].tree, p), Get(g[theirs].tree, p))
  {
    var b, o, t := g[base].tree, r.HeadTree(g), g[theirs].tree;
    assert InConflict(SidesAt(b, o, t, p)) ==> p in o || p in t;
  }

  /**
   What a review opens with: nothing new if a merge is open or HEAD has the remote-tracking
   branch already; else the merge with that branch, each path joined from both sides.
   */
  lemma ReviewOpensWith(g: Graph, r: Repo, left: Tree, p: Path)
    requires r.Valid(g) && StartMerge(g, r, left).Some?
    ensures var m := StartMerge(g, r, left).value;
      if r.mergeHead.Some? || Reaches(g, r.origin, r.head) then m == r
      else
        && MergeBase(g, r.head, r.origin).Some? && m.mergeHead == Some(r.origin)
        && StandingOf(m, p) == Joined(Get(g[MergeBase(g, r.head, r.origin).value].tree, p), Get(g[r.head].tree, p), Get(g[r.origin].tree, p))
  {
    assert MergeBase(g, r.head, r.origin).Some? ==> MergeBase(g, r.head, r.origin).value < |g|;
    hide MergeInto, MergeBase, Reaches, StandingOf;
    if r.mergeHead.None? && !Reaches(g, r.origin, r.head) {
      MergeJoins(g, r, MergeBase(g, r.head, r.origin).value, r.origin, left, p);
    }
  }

  /**
   What a pull that succeeds leaves at a path: HEAD's if the remote branch has nothing new,
   the remote branch's if HEAD has nothing of its own, and else what joining them comes to,
   in a commit with both as its parents.
   */
  lemma PullBrings(s: Server, r: Repo, left: Tree, p: Path)
    requires s.Valid() && r.Valid(s.graph) && Pull(s, r, left).Pulled?
    ensures var (server, repo) := (Pull(s, r, left).server, Pull(s, r, left).repo); var g := s.graph;
      && repo.head < |server.graph|
      && var content := Get(server.graph[repo.head].tree, p);
         if Reaches(g, s.tip, r.head) then repo.head == r.head && content == Get(g[r.head].tree, p)
         else if Reaches(g, r.head, s.tip) then repo.head == s.tip && content == Get(g[s.tip].tree, p)
         else
           && server.graph[repo.head].parents == [r.head, s.tip] && MergeBase(g, r.head, s.tip).Some?
           && Settled(content) == Joined(Get(g[MergeBase(g, r.head, s.tip).value].tree, p), Get(g[r.head].tree, p), Get(g[s.tip].tree, p))
  {
    assert MergeBase(s.graph, r.head, s.tip).Some? ==> MergeBase(s.graph, r.head, s.tip).value < |s.graph|;
    hide MergeBase, Reaches, StandingOf, ConflictsOf, MergedTree;
    if !Reaches(s.graph, s.tip, r.head) && !Reaches(s.graph, r.head, s.tip) {
      var f, base := r.(origin := s.tip), MergeBase(s.graph, r.head, s.tip).value;
      var m := MergeInto(s.graph, f, base, s.tip, left);
      assert m.unmerged == map[] && m.Valid(s.graph);
      hide MergeInto;
      MergeJoins(s.graph, f, base, s.tip, left, p);
      CommittedStands(s, m, p);
    }
  }

  lemma CommittedStands(s: Server, m: Repo, p: Path)
    requires s.Valid() && m.Valid(s.graph) && m.mergeHead.Some? && p !in m.unmerged
    ensures var (server, repo) := MakeCommit(s, m);
      && repo.head < |server.graph| && server.graph[repo.head].parents == [m.head, m.mergeHead.value]
      && StandingOf(m, p) == Settled(Get(server.graph[repo.head].tree, p))
  {
  }

  // ---------------------------------------------------------------- what keys come to

  /** The position of the last key about a path. */
  function LastKey(keys: seq<Leg>, p: Path): (r: Option<nat>)
    ensures r.Some? ==> r.value < |keys| && IsAbout(keys[r.value].input, p)
    decreases |keys|
  {
    if keys == [] then None
    else if IsAbout(keys[|keys| - 1].input, p) then Some(|keys| - 1)
    else LastKey(keys[..|keys| - 1], p)
  }

  lemma {:induction false} PressedConcat(now: Standing, a: seq<Leg>, b: seq<Leg>, p: Path, ours: Option<string>, theirs: Option<string>)
    ensures PressedAll(now, a + b, p, ours, theirs) == PressedAll(PressedAll(now, a, p, ours, theirs), b, p, ours, theirs)
    decreases |a|
  {
    if a == [] {
      assert a + b == b;
    } else {
      PressedConcat(Pressed(now, a[0].input, p, ours, theirs), a[1..], b, p, ours, theirs);
      assert (a + b)[1..] == a[1..] + b;
    }
  }

  lemma PressedSnoc(now: Standing, keys: seq<Leg>, p: Path, ours: Option<string>, theirs: Option<string>)
    requires keys != []
    ensures var init := keys[..|keys| - 1];
      PressedAll(now, keys, p, ours, theirs) == Pressed(PressedAll(now, init, p, ours, theirs), keys[|keys| - 1].input, p, ours, theirs)
  {
    var init, last := keys[..|keys| - 1], [keys[|keys| - 1]];
    PressedConcat(now, init, last, p, ours, theirs);
    assert keys == init + last;
    assert last[1..] == [];
  }

  /** A path that no key is about stands as the merge left it. */
  lemma {:induction false} NoKeyNoChange(now: Standing, keys: seq<Leg>, p: Path, ours: Option<string>, theirs: Option<string>)
    requires LastKey(keys, p).None?
    ensures PressedAll(now, keys, p, ours, theirs) == now
    decreases |keys|
  {
    if keys != [] {
      PressedSnoc(now, keys, p, ours, theirs);
      NoKeyNoChange(now, keys[..|keys| - 1], p, ours, theirs);
    }
  }

  /**
   Whether the last key about a path has its way: exactly if it is an edit, or the path was
   in conflict or without a file when it was pressed, or had that content already. The
   commit has a file that an earlier key has settled even if the user has chosen otherwise since.
   */
  lemma {:induction false} LastKeyCountsExactly(now: Standing, keys: seq<Leg>, p: Path, ours: Option<string>, theirs: Option<string>)
    requires LastKey(keys, p).Some?
    ensures var n := LastKey(keys, p).value;
      var before, wanted := PressedAll(now, keys[..n], p, ours, theirs), Wanted(keys[n].input, ours, theirs);
      PressedAll(now, keys, p, ours, theirs) == Settled(wanted)
      <==> keys[n].input.Edit? || before.Open? || before.content.None? || before.content == wanted
    decreases |keys|
  {
    var init := keys[..|keys| - 1];
    PressedSnoc(now, keys, p, ours, theirs);
    if !IsAbout(keys[|keys| - 1].input, p) {
      LastKeyCountsExactly(now, init, p, ours, theirs);
      assert init[..LastKey(init, p).value] == keys[..LastKey(init, p).value];
    }
  }

  /** So the first key about a path in conflict always has its way. */
  lemma OnlyKeyCounts(keys: seq<Leg>, p: Path, ours: Option<string>, theirs: Option<string>)
    requires LastKey(keys, p).Some? && LastKey(keys[..LastKey(keys, p).value], p).None?
    ensures PressedAll(Open, keys, p, ours, theirs) == Settled(Wanted(keys[LastKey(keys, p).value].input, ours, theirs))
  {
    NoKeyNoChange(Open, keys[..LastKey(keys, p).value], p, ours, theirs);
    LastKeyCountsExactly(Open, keys, p, ours, theirs);
  }

  lemma KeepStep(sha: Hasher, s: Server, ss: Session, path: Path, local: bool, repo: Repo)
    requires SessionHolds(s, ss) && ss.phase == UnderReview && ss.repo.Valid(s.graph)
    requires ResolveConflict(s.graph, ss.repo, path, local) == Some(repo)
    ensures Step(sha, s, ss, Keep(path, local)) == (s, ss.(repo := repo)) && SessionHolds(s, ss.(repo := repo))
  {
    EveryStepIsFair(sha, s, ss, Keep(path, local));
    hide SessionHolds, ResolveConflict, Reaches;
  }

  /** The remote side, and then the local one: the second key changes nothing. */
  lemma BothSides(sha: Hasher, s: Server, ss: Session, path: Path, theirs: string)
    requires SessionHolds(s, ss) && ss.phase == UnderReview && path in ss.repo.unmerged
    requires ss.repo.Valid(s.graph) && Theirs(s, ss.repo, path) == Some(theirs)
    ensures var end := ss.(repo := Settle(ss.repo, path, Some(theirs)));
      SessionHolds(s, end) && Press(sha, s, ss, [Leg(None, Keep(path, false)), Leg(None, Keep(path, true))]) == (s, end)
  {
    var r, end := ss.repo, ss.(repo := Settle(ss.repo, path, Some(theirs)));
    assert Reviewing(s.graph, r);
    KeepingIs(s.graph, r, path, false);
    KeepStep(sha, s, ss, path, false, end.repo);
    assert Reviewing(s.graph, end.repo) by { SettleFacts(s.graph, r, path, Some(theirs)); }
    KeepingIs(s.graph, end.repo, path, true);
    SettledTwice(r, path, Some(theirs));
    hide SessionHolds, Reviewing, ResolveConflict, Settle, Step, Reaches;
    KeepStep(sha, s, end, path, true, end.repo);
    var first, second := Leg(None, Keep(path, false)), Leg(None, Keep(path, true));
    assert [first, second][1..] == [second] && [second][1..] == [];
    PressOne(sha, s, ss, first, [second], s, end);
    PressOne(sha, s, end, second, [], s, end);
    assert [first] + [second] == [first, second] && [second] + [] == [second];
  }

  lemma SettledTwice(r: Repo, path: Path, content: Option<string>)
    ensures Settle(Settle(r, path, content), path, content) == Settle(r, path, content)
    ensures path !in Settle(r, path, content).unmerged
    ensures content.Some? ==> path in Settle(r, path, content).index && Settle(r, path, content).index[path] == content.value
  {
  }

  lemma PressOne(sha: Hasher, s: Server, ss: Session, key: Leg, rest: seq<Leg>, server: Server, next: Session)
    requires SessionHolds(s, ss) && ss.phase == UnderReview && ss.repo.Valid(s.graph) && key.gap == None
    requires s.Valid() && Step(sha, s, ss, key.input) == (server, next)
    ensures SessionHolds(server, next) && Press(sha, s, ss, [key] + rest) == Press(sha, server, next, rest)
  {
    EveryStepIsFair(sha, s, ss, key.input);
    assert ([key] + rest)[1..] == rest;
    hide SessionHolds, Step, Reaches;
  }

  /**
   A run from a fresh world, with one entry in conflict in its review: the user takes the
   remote side, then decides to keep the local one after all, and accepts. Both keys work,
   nothing is in conflict any more, and the merge commit has the remote side.
   */
  lemma SecondChoiceIsIgnored(sha: Hasher, y: Story, later: Server)
    requires y.Differs() && Remote(sha, y, 3).Forward(later)
    ensures Fresh(Start(y)) && WorldHolds(Start(y))
    ensures var w := Run(sha, Start(y), ReviewMoves(map[y.path := y.left]));
      && |w.sessions| == 1 && w.server == Remote(sha, y, 3) && SessionHolds(w.server, w.sessions[0])
      && w.sessions[0].phase == UnderReview && y.path in w.sessions[0].repo.unmerged
      && var (s, end) := Press(sha, w.server, w.sessions[0], [Leg(None, Keep(y.path, false)), Leg(None, Keep(y.path, true))]);
         && end.phase == UnderReview && end.repo.unmerged == map[] && SessionHolds(s, end) && s == w.server
         && var (server, next) := Concluded(sha, s, end, later);
            next.phase == Pushing && next.repo.head < |server.graph|
            && Get(server.graph[next.repo.head].tree, y.path) == Some(y.theirs)
  {
    var ss, s := Prepared(Client(y), Conflicted(sha, y), UnderReview), Remote(sha, y, 3);
    StartIsFresh(sha, y);
    FirstReview(sha, y);
    ReviewedSession(sha, y, ss);
    SecondPreview(sha, y);
    hide Run, WorldHolds, SessionHolds, Press, Fresh, Reaches, ReviewMoves, Settle, StandingOf, GraphOf;
    BothSides(sha, s, ss, y.path, y.theirs);
    StorySettled(sha, y, y.theirs);
    ConcludingCommits(sha, s, ss.(repo := Settle(ss.repo, y.path, Some(y.theirs))), later, y.path);
  }

  lemma StorySettled(sha: Hasher, y: Story, content: string)
    requires y.Differs()
    ensures var r := Settle(Conflicted(sha, y), y.path, Some(content));
      r.unmerged == map[] && StandingOf(r, y.path) == Settled(Some(content))
  {
  }

  lemma ReviewedSession(sha: Hasher, y: Story, ss: Session)
    requires WorldHolds(WorldOf(sha, y, 3, ss))
    ensures SessionHolds(Remote(sha, y, 3), ss)
  {
    assert WorldOf(sha, y, 3, ss).sessions[0] == ss;
    hide SessionHolds;
  }
}
