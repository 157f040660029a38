/**
 When every tag names a commit that the branch has pointed at, as each tag that the program
 makes does, then every sync that moves the tip, direct or reviewed, tags exactly the commit
 it pushed.
 */
module TagsOnTips {
  import opened Options
  import opened StoreManifest
  import opened StoreVersion
  import opened GitModel
  import opened SyncProtocol
  import opened SyncWorld
  import opened VersionTags
  import opened TagsOnBranch
  import opened HollowReview

  predicate Related(g: Graph, a: nat, b: nat) { a < |g| && b < |g| && (Reaches(g, a, b) || Reaches(g, b, a)) }

  /** Commits one after the other up to the tip. */
  ghost predicate Lineage(s: Server, line: set<nat>) {
    && s.Valid() && s.tip in line
    && (forall c :: c in line ==> c < |s.graph| && Reaches(s.graph, c, s.tip))
    && (forall a, b :: a in line && b in line ==> Related(s.graph, a, b))
  }

  predicate Named(tags: map<string, nat>, line: set<nat>) { forall t :: t in tags ==> tags[t] in line }

  lemma RelatedLater(g: Graph, h: Graph, a: nat, b: nat)
    requires g <= h && Related(g, a, b)
    ensures Related(h, a, b)
  {
    ReachesIsStable(g, h, a, b);
    ReachesIsStable(g, h, b, a);
  }

  /** The branch only moves on to descendants. */
  lemma LineageGrows(s: Server, later: Server, line: set<nat>)
    requires Lineage(s, line) && s.Forward(later)
    ensures Lineage(later, line + {later.tip})
  {
    var g, h, tip := s.graph, later.graph, later.tip;
    assert Reaches(h, tip, tip);
    forall c | c in line ensures c < |h| && Reaches(h, c, tip) { ReachLater(s, later, c); }
    hide Reaches;
    forall a, b | a in line + {tip} && b in line + {tip} ensures Related(h, a, b) {
      if a in line && b in line { RelatedLater(g, h, a, b); }
    }
  }

  // ---------------------------------------------------------------- reviewed sessions

  /** Some commit of the line is neither in the history of `c` nor has it `c` in its own. */
  ghost predicate Aside(g: Graph, line: set<nat>, c: nat) { exists a :: a in line && a < |g| && c < |g| && !Related(g, a, c) }

  /**
   A sync that is reviewed although it started clean is off the line; and the version of a
   reviewed sync is the next one.
   */
  ghost predicate AsideHolds(g: Graph, line: set<nat>, ss: Session) {
    && (ss.reviewed && ss.start.head < |g| && ss.start.Clean(g) ==> Aside(g, line, ss.start.head))
    && (ss.reviewed && ss.version != "" ==> ss.version == NextStoreVersion(ss.known.Keys))
  }

  lemma AsideLater(g: Graph, h: Graph, line: set<nat>, longer: set<nat>, ss: Session)
    requires g <= h && line <= longer && AsideHolds(g, line, ss) && ss.start.head < |g|
    ensures AsideHolds(h, longer, ss)
  {
    if Aside(g, line, ss.start.head) {
      var a :| a in line && a < |g| && !Related(g, a, ss.start.head);
      ReachesIsStable(g, h, a, ss.start.head);
      ReachesIsStable(g, h, ss.start.head, a);
      assert a in longer && !Related(h, a, ss.start.head);
    }
    hide Reaches, Related;
  }

  /** A commit aside of the line has no tag. */
  lemma AsideIsUntagged(s: Server, line: set<nat>, r: Repo)
    requires Lineage(s, line) && Aside(s.graph, line, r.head) && Named(r.tags, line)
    ensures HeadVersionTags(r) == []
  {
    var a :| a in line && a < |s.graph| && !Related(s.graph, a, r.head);
    assert forall b :: b in line ==> Related(s.graph, a, b);
    hide Related;
    NoTagsListed(r);
  }

  /** A clean repository with overlapping changes has parted from the remote branch. */
  lemma CleanOverlapParts(g: Graph, r: Repo)
    requires r.Valid(g) && r.Clean(g) && BuildPreview(g, r, true).Some?
    ensures var p := BuildPreview(g, r, true).value; p.local * p.remote != {} ==> !Related(g, r.origin, r.head)
  {
    OverlapMeansBehind(g, r);
    if Reaches(g, r.head, r.origin) {
      BaseOfAncestor(g, r.head, r.origin);
      assert TrackedWorktree(r) == r.HeadTree(g);
      assert BuildPreview(g, r, true).value.local == {};
    }
    hide Reaches, MergeBase;
  }

  // ---------------------------------------------------------------- one step

  lemma PreviewIsAside(s: Server, ss: Session, line: set<nat>)
    requires Lineage(s, line) && ss.repo.Valid(s.graph) && ss.start == ss.repo && ss.phase == Previewing && !ss.reviewed && ss.version == ""
    ensures AsideHolds(s.graph, line, PreviewStep(s, ss))
  {
    var fetched, next := Fetched(s, ss.repo), PreviewStep(s, ss);
    assert fetched.Valid(s.graph) && next.start == ss.start && next.version == "";
    hide Reaches, BuildPreview, Related;
    if next.reviewed && ss.start.Clean(s.graph) {
      CleanOverlapParts(s.graph, fetched);
      assert s.tip in line && !Related(s.graph, s.tip, ss.start.head);
    }
  }

  /** Until the preview a session is not reviewed. */
  predicate Unreviewed(ss: Session) { ss.phase == Previewing ==> !ss.reviewed }

  /** The commit stage either has the next version, or has found the repository clean and makes none. */
  lemma StageIsNext(sha: Hasher, s: Server, r: Repo)
    requires s.Valid() && r.Valid(s.graph)
    ensures var v := StageAndCommit(sha, s, r).version; v == "" || v == NextStoreVersion(r.tags.Keys)
  {
    hide Reaches, MakeCommit, NextStoreVersion, WriteHash;
  }

  lemma TrackIsNext(sha: Hasher, s: Server, ss: Session, line: set<nat>)
    requires ReviewHolds(sha, s, ss) && Lineage(s, line) && AsideHolds(s.graph, line, ss) && Named(ss.repo.tags, line)
    requires ss.phase == Tracking && ss.reviewed && TrackVersion(sha, s, ss.repo, ss.version).Tracked?
    ensures var v := TrackVersion(sha, s, ss.repo, ss.version).version; v == "" || v == NextStoreVersion(ss.known.Keys)
  {
    assert ss.repo.tags == ss.known && s.Valid() && ss.repo.Valid(s.graph);
    hide SessionHolds;
    if ss.version == "" {
      assert StagedFrom(sha, s.graph, Entered(ss), ss.repo, "");
      assert ss.start.head == ss.repo.head && ss.start.Clean(s.graph);
      AsideIsUntagged(s, line, ss.repo);
    }
    hide Reaches, Aside, NextStoreVersion, MakeCommit, WriteHash, Lineage, Named;
  }

  ghost predicate CarriesOn(ss: Session, next: Session) {
    && next.reviewed == ss.reviewed && next.start == ss.start
    && (ss.reviewed && next.version != "" ==> next.version == NextStoreVersion(next.known.Keys))
  }

  lemma StageCarriesOn(sha: Hasher, s: Server, ss: Session, input: Input)
    requires SessionHolds(s, ss) && ss.phase == Staging
    ensures CarriesOn(ss, Command(sha, s, ss, input).1)
  {
    assert ss.repo.tags == ss.known && s.Valid() && ss.repo.Valid(s.graph);
    hide SessionHolds, StageAndCommit, NextStoreVersion, Reaches;
    StageIsNext(sha, s, ss.repo);
  }

  lemma TrackCarriesOn(sha: Hasher, s: Server, ss: Session, line: set<nat>)
    requires ReviewHolds(sha, s, ss) && Lineage(s, line) && AsideHolds(s.graph, line, ss) && Named(ss.repo.tags, line) && ss.phase == Tracking
    ensures CarriesOn(ss, TrackStep(sha, s, ss).1)
  {
    assert s.Valid() && ss.repo.Valid(s.graph);
    if ss.reviewed && TrackVersion(sha, s, ss.repo, ss.version).Tracked? { TrackIsNext(sha, s, ss, line); }
    hide TrackVersion, BuildPreview, NextStoreVersion, Reaches, ReviewHolds, Lineage, Named, Aside;
  }

  lemma ReviewCarriesOn(sha: Hasher, s: Server, ss: Session, input: Input)
    requires SessionHolds(s, ss) && (ss.phase == Merging || ss.phase == UnderReview || ss.phase == Concluding)
    requires ss.reviewed && ss.version != "" ==> ss.version == NextStoreVersion(ss.known.Keys)
    ensures CarriesOn(ss, Command(sha, s, ss, input).1)
  {
    ReviewInventsNoVersion(sha, s, ss, input);
    CommandIsFair(sha, s, ss, input);
    assert s.Valid() && ss.repo.Valid(s.graph);
    hide SessionHolds, Command, NextStoreVersion, Reaches;
  }

  /** Pulling and publishing change neither version nor what is known. */
  lemma PublishingIs(sha: Hasher, s: Server, ss: Session, input: Input)
    requires s.Valid() && ss.repo.Valid(s.graph) && (ss.phase == Pulling || ss.phase == Pushing || Published(ss.phase))
    ensures var next := Command(sha, s, ss, input).1; next == ss.(phase := next.phase, repo := next.repo, replaced := next.replaced)
  {
    hide Reaches, Pull, TagLocally, PushTag, PreviewStep, FetchStep, StageAndCommit, TrackStep, MergeStep, Review, ConcludeStep;
  }

  lemma FetchingIs(s: Server, ss: Session)
    ensures var next := FetchStep(s, ss); next.version == ss.version && next.reviewed == ss.reviewed && next.start == ss.start
  {
    hide TagsAgree, Fetched;
  }

  lemma OtherwiseCarriesOn(sha: Hasher, s: Server, ss: Session, input: Input)
    requires SessionHolds(s, ss) && (ss.reviewed && ss.version != "" ==> ss.version == NextStoreVersion(ss.known.Keys))
    requires ss.phase == Fetching || (ss.phase == Pulling && !ss.reviewed) || ss.phase == Pushing || Published(ss.phase) || Ended(ss.phase)
    ensures CarriesOn(ss, Command(sha, s, ss, input).1)
  {
    assert s.Valid() && ss.repo.Valid(s.graph) && (ss.phase == Fetching ==> ss.version == "");
    hide SessionHolds, NextStoreVersion, Reaches, Command, FetchStep;
    if ss.phase == Fetching || (Ended(ss.phase) && ss.phase != Finished) {
      RestingCommandIs(sha, s, ss, input);
      FetchingIs(s, ss);
    } else {
      PublishingIs(sha, s, ss, input);
    }
  }

  /** What a world keeps, `line` being the commits that the branch has pointed at. */
  ghost predicate TipsHold(sha: Hasher, s: Server, ss: Session, line: set<nat>) {
    ReviewHolds(sha, s, ss) && Lineage(s, line) && AsideHolds(s.graph, line, ss) && Unreviewed(ss) && Named(ss.repo.tags, line)
  }

  lemma CommandIsAside(sha: Hasher, s: Server, ss: Session, input: Input, line: set<nat>)
    requires TipsHold(sha, s, ss, line)
    ensures var next := Command(sha, s, ss, input).1;
      && next.start == ss.start && (ss.phase == Previewing ==> next.phase != Previewing)
      && if ss.phase == Previewing then AsideHolds(s.graph, line, next) else CarriesOn(ss, next)
  {
    assert SessionHolds(s, ss) && s.Valid() && ss.repo.Valid(s.graph);
    assert ss.phase == Previewing ==> ss.version == "" && ss.start == ss.repo;
    assert ss.reviewed && ss.version != "" ==> ss.version == NextStoreVersion(ss.known.Keys);
    assert ss.phase == Pulling ==> !ss.reviewed;
    hide SessionHolds, ReviewHolds, Lineage, AsideHolds, Named, PreviewStep, TrackStep, CarriesOn, Reaches, NextStoreVersion;
    if ss.phase == Previewing {
      PreviewIsAside(s, ss, line);
      PreviewMovesOn(s, ss);
    } else if ss.phase == Staging {
      StageCarriesOn(sha, s, ss, input);
    } else if ss.phase == Tracking {
      TrackCarriesOn(sha, s, ss, line);
    } else if ss.phase == Merging || ss.phase == UnderReview || ss.phase == Concluding {
      ReviewCarriesOn(sha, s, ss, input);
    } else {
      OtherwiseCarriesOn(sha, s, ss, input);
    }
  }

  lemma PreviewMovesOn(s: Server, ss: Session)
    requires s.Valid() && ss.repo.Valid(s.graph)
    ensures PreviewStep(s, ss).phase != Previewing && PreviewStep(s, ss).start == ss.start
  {
    hide BuildPreview, TagsAgree;
  }

  /** Only a new session previews. */
  lemma NeverPreviewsAgain(sha: Hasher, s: Server, ss: Session, input: Input)
    requires s.Valid() && ss.repo.Valid(s.graph) && ss.phase != Previewing
    ensures Command(sha, s, ss, input).1.phase != Previewing
  {
    hide Reaches, BuildPreview, TagsAgree, TrackVersion, Pull, StartMerge, FinalizeMerge, ResolveConflict, StageFile, AbortMerge, StageAndCommit;
    hide TagLocally, PushTag, PushBranch, PushAccepted, TagAccepted, Fetched, PreviewStep;
  }

  /** A step of a session, broken off or not. */
  lemma StepIsAside(sha: Hasher, s: Server, ss: Session, input: Input, line: set<nat>)
    requires TipsHold(sha, s, ss, line)
    ensures var next := Step(sha, s, ss, input).1; AsideHolds(s.graph, line, next) && next.start == ss.start && Unreviewed(next)
  {
    assert SessionHolds(s, ss) && s.Valid() && ss.repo.Valid(s.graph) && AsideHolds(s.graph, line, ss);
    StepCases(sha, s, ss, input);
    EveryStepIsFair(sha, s, ss, input);
    var used := if input.Break? && !Ended(ss.phase) then Scraps(input.wreck) else input;
    CommandIsAside(sha, s, ss, used, line);
    if ss.phase != Previewing { NeverPreviewsAgain(sha, s, ss, used); }
    hide SessionHolds, Command, Step, NextStoreVersion, Reaches, Fair, Lineage, Named, Aside, ReviewHolds, Wrecked, MaxPatch;
    StaysAside(s.graph, line, ss, Command(sha, s, ss, used).1, Step(sha, s, ss, input).1);
  }

  lemma StaysAside(g: Graph, line: set<nat>, ss: Session, next: Session, end: Session)
    requires AsideHolds(g, line, ss) && ss.start == next.start && next.phase != Previewing
    requires if ss.phase == Previewing then AsideHolds(g, line, next) else CarriesOn(ss, next)
    requires end == next.(phase := end.phase, repo := end.repo) || end == ss.(phase := end.phase, repo := end.repo)
    requires end.phase == next.phase || end.phase == Failed
    ensures AsideHolds(g, line, end) && Unreviewed(end)
  {
    hide Aside, NextStoreVersion;
  }

  /** A tag that a step makes or publishes names what was known before, or the HEAD just pushed. */
  lemma StepNames(sha: Hasher, s: Server, ss: Session, input: Input, line: set<nat>)
    requires SessionHolds(s, ss) && Named(ss.repo.tags, line) && Named(s.tags, line) && (Published(ss.phase) ==> ss.repo.head in line)
    ensures var (server, next) := Step(sha, s, ss, input); Named(server.tags, line) && Named(next.repo.tags, line)
  {
    StepTags(sha, s, ss, input);
    assert ss.phase == Tagging ==> ss.repo.tags == ss.known;
    assert ss.phase == Tagging ==> TagTarget(ss) in line;
    hide SessionHolds, Step, TagTaken, VersionTag, TagTarget;
  }

  // ---------------------------------------------------------------- whole runs

  ghost predicate TipsWorld(sha: Hasher, w: World, past: set<nat>) {
    && ReviewWorld(sha, w) && Lineage(w.server, past + w.tips) && Named(w.server.tags, past + w.tips)
    && forall i :: 0 <= i < |w.sessions| ==> TipsHold(sha, w.server, w.sessions[i], past + w.tips)
  }

  lemma TipsAreStable(sha: Hasher, s: Server, later: Server, ss: Session, line: set<nat>, longer: set<nat>)
    requires TipsHold(sha, s, ss, line) && s.Forward(later) && Lineage(later, longer) && line <= longer
    ensures TipsHold(sha, later, ss, longer)
  {
    assert ss.start.head < |s.graph|;
    hide SessionHolds, ReviewHolds, Lineage, AsideHolds;
    ReviewIsStable(sha, s, later, ss);
    AsideLater(s.graph, later.graph, line, longer, ss);
  }

  lemma NextTips(sha: Hasher, w: World, move: Move, past: set<nat>)
    requires WorldHolds(w) && move.who < |w.sessions|
    ensures var n := Next(sha, w, move);
      && past + n.tips == past + w.tips + {n.server.tip} && |n.sessions| == |w.sessions|
      && forall i :: 0 <= i < |w.sessions| && i != move.who ==> n.sessions[i] == w.sessions[i]
  {
    assert SessionHolds(w.server, w.sessions[move.who]) && w.server.tip in w.tips;
    hide Step, SessionHolds, WorkedOn, Reaches;
  }

  /** The client that moves, by a command. */
  lemma AdvanceNames(sha: Hasher, s: Server, ss: Session, input: Input, line: set<nat>)
    requires TipsHold(sha, s, ss, line) && Named(s.tags, line) && (Published(ss.phase) ==> ss.repo.head in line)
    ensures var (server, next) := Step(sha, s, ss, input);
      server.Valid() && TipsHold(sha, server, next, line + {server.tip}) && Named(server.tags, line + {server.tip})
  {
    assert SessionHolds(s, ss) && ReviewHolds(sha, s, ss);
    EveryStepIsFair(sha, s, ss, input);
    ReviewStep(sha, s, ss, input);
    StepIsAside(sha, s, ss, input, line);
    StepNames(sha, s, ss, input, line);
    var (server, next) := Step(sha, s, ss, input);
    LineageGrows(s, server, line);
    assert next.start.head < |s.graph| by { hide Step, Reaches, ReviewHolds; }
    hide SessionHolds, Step, ReviewHolds, Reaches, Lineage, AsideHolds;
    AsideLater(s.graph, server.graph, line, line + {server.tip}, next);
  }

  /** The client that moves, outside of the program. */
  lemma RestartNames(sha: Hasher, s: Server, r: Repo, line: set<nat>)
    requires ReviewHolds(sha, s, NewSession(r)) && Lineage(s, line) && Named(r.tags, line)
    ensures TipsHold(sha, s, NewSession(r), line)
  {
    hide ReviewHolds, Lineage;
  }

  lemma MoverHolds(sha: Hasher, w: World, move: Move, past: set<nat>)
    requires TipsWorld(sha, w, past) && move.who < |w.sessions|
    requires var n := Next(sha, w, move); ReviewWorld(sha, n) && Lineage(n.server, past + n.tips)
    ensures var n := Next(sha, w, move);
      move.who < |n.sessions| && TipsHold(sha, n.server, n.sessions[move.who], past + n.tips) && Named(n.server.tags, past + n.tips)
  {
    var n, ss, line := Next(sha, w, move), w.sessions[move.who], past + w.tips;
    NextTips(sha, w, move, past);
    assert WorldHolds(w) && TipsHold(sha, w.server, ss, line) && SessionHolds(w.server, ss);
    assert Published(ss.phase) ==> ss.repo.head in line;
    assert ReviewHolds(sha, n.server, n.sessions[move.who]);
    hide SessionHolds, ReviewHolds, Lineage, WorldHolds, ReviewWorld, Step;
    match move
    case Advance(_, input) => AdvanceNames(sha, w.server, ss, input, line);
    case Begin(_, worktree) => RestartNames(sha, n.server, ss.repo.(worktree := worktree), past + n.tips);
    case Outside(_, _, _) =>
  }

  lemma TipsNext(sha: Hasher, w: World, move: Move, past: set<nat>)
    requires TipsWorld(sha, w, past)
    ensures TipsWorld(sha, Next(sha, w, move), past)
  {
    assert WorldHolds(w);
    if move.who < |w.sessions| {
      var n, line := Next(sha, w, move), past + w.tips;
      ReviewNext(sha, w, move);
      NextIsForward(sha, w, move);
      LineageGrows(w.server, n.server, line);
      NextTips(sha, w, move, past);
      MoverHolds(sha, w, move, past);
      hide Next, TipsHold, Lineage, ReviewWorld, Named;
      forall i | 0 <= i < |w.sessions| && i != move.who ensures TipsHold(sha, n.server, n.sessions[i], past + n.tips) {
        TipsAreStable(sha, w.server, n.server, w.sessions[i], line, past + n.tips);
      }
    }
  }

  lemma {:induction false} TipsRun(sha: Hasher, w: World, moves: seq<Move>, past: set<nat>)
    requires TipsWorld(sha, w, past)
    ensures TipsWorld(sha, Run(sha, w, moves), past)
    decreases |moves|
  {
    if moves != [] {
      TipsNext(sha, w, moves[0], past);
      assert WorldHolds(w);
      hide Next, TipsHold, Lineage, Named, ReviewWorld;
      TipsRun(sha, Next(sha, w, moves[0]), moves[1..], past);
    }
  }

  /** At the start, every tag that anybody knows names the tip or one of the commits before it in `past`. */
  ghost predicate TagsInLine(w: World, past: set<nat>) {
    && Lineage(w.server, past + {w.server.tip}) && Named(w.server.tags, past + {w.server.tip})
    && forall i :: 0 <= i < |w.sessions| ==> Named(w.sessions[i].repo.tags, past + {w.server.tip})
  }

  lemma FreshTips(sha: Hasher, w: World, past: set<nat>)
    requires Fresh(w) && TagsInLine(w, past)
    ensures TipsWorld(sha, w, past)
  {
    FreshReviews(sha, w);
    assert past + w.tips == past + {w.server.tip};
    hide Lineage, ReviewHolds;
    forall i | 0 <= i < |w.sessions| ensures TipsHold(sha, w.server, w.sessions[i], past + w.tips) {
      assert ReviewHolds(sha, w.server, w.sessions[i]) && w.sessions[i] == NewSession(w.sessions[i].repo);
      RestartNames(sha, w.server, w.sessions[i].repo, past + w.tips);
    }
  }

  /** The version of a reviewed sync is new to it, so its tag names HEAD. */
  lemma NextIsNewTag(ss: Session)
    requires ss.version == NextStoreVersion(ss.known.Keys) && MaxPatch(ss.known.Keys) < INT_MAX
    ensures VersionTag(ss) !in ss.known
  {
    NextVersionIsNew(ss.known.Keys);
  }

  /**
   In every run from there: every tag, on the server and at each client, names a commit that
   the branch has pointed at; and a sync that has moved the remote tip and finished, direct
   or reviewed, has its version tag on exactly the commit it pushed, below the int bound on
   version numbers.
   */
  lemma MovedTipTagsHead(sha: Hasher, w: World, moves: seq<Move>, past: set<nat>, i: nat)
    requires Fresh(w) && TagsInLine(w, past) && i < |w.sessions|
    ensures WorldHolds(w) && |Run(sha, w, moves).sessions| == |w.sessions|
    ensures var end := Run(sha, w, moves); var ss := end.sessions[i];
      && Named(end.server.tags, past + end.tips) && Named(ss.repo.tags, past + end.tips)
      && (ss.phase == Finished && ss.replaced != ss.repo.head && MaxPatch(ss.known.Keys) < INT_MAX ==>
            VersionTag(ss) in end.server.tags && end.server.tags[VersionTag(ss)] == ss.repo.head)
  {
    FreshTips(sha, w, past);
    TipsRun(sha, w, moves, past);
    MovedTipIsTagged(sha, w, moves, i);
    var end := Run(sha, w, moves);
    var ss := end.sessions[i];
    assert TipsHold(sha, end.server, ss, past + end.tips);
    if ss.reviewed {
      if ss.version != "" && MaxPatch(ss.known.Keys) < INT_MAX { NextIsNewTag(ss); }
    } else {
      InLineIsOnBranch(w, past);
      DirectSyncTagsHead(sha, w, moves, i);
    }
    hide Run, WorldHolds, Fresh, ReviewHolds, Lineage, ReviewWorld, VersionTag, NextStoreVersion, MaxPatch;
  }

  lemma InLineIsOnBranch(w: World, past: set<nat>)
    requires Fresh(w) && TagsInLine(w, past)
    ensures AllOnBranch(w)
  {
    hide Reaches;
  }
}
