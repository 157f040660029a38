/**
 When all tags lie on the published branch to begin with, they always do, and a direct sync
 that moves the remote tip has its version tag on exactly the commit it pushed.
 */
module TagsOnBranch {
  import opened Options
  import opened StoreManifest
  import opened StoreVersion
  import opened GitModel
  import opened SyncProtocol
  import opened SyncWorld
  import opened VersionTags

  ghost predicate OnBranch(s: Server, tags: map<string, nat>)
    requires s.Valid()
  {
    forall t :: t in tags ==> Reaches(s.graph, tags[t], s.tip)
  }

  lemma OnBranchLater(s: Server, later: Server, tags: map<string, nat>)
    requires s.Forward(later) && OnBranch(s, tags)
    ensures OnBranch(later, tags)
  {
    hide Reaches;
    forall t | t in tags ensures Reaches(later.graph, tags[t], later.tip) { ReachLater(s, later, tags[t]); }
  }

  /** The version of a direct sync is that of a tag which the staged commit already carried. */
  ghost predicate Carried(ss: Session) {
    && !ss.reviewed && ss.staged.Some? && ss.version != "" && MaxPatch(ss.known.Keys) < INT_MAX
    && VersionTag(ss) in ss.known && ss.known[VersionTag(ss)] == ss.staged.value
  }

  /** Such a sync has nothing to publish: its head is on the remote branch all along. */
  ghost predicate CarriedIsPublished(s: Server, ss: Session)
    requires s.Valid() && ss.repo.Valid(s.graph)
  {
    Carried(ss) ==>
      && (ss.phase == Tracking || ss.phase == Pulling ==> ss.repo.head == ss.staged.value)
      && ss.phase != Merging && ss.phase != UnderReview && ss.phase != Concluding
      && (ss.phase == Pushing ==> Reaches(s.graph, ss.repo.head, s.tip))
      && (Published(ss.phase) ==> ss.replaced == ss.repo.head)
  }

  ghost predicate BranchHolds(s: Server, ss: Session) {
    && SessionHolds(s, ss) && OnBranch(s, s.tags) && OnBranch(s, ss.repo.tags) && CarriedIsPublished(s, ss)
  }

  lemma BranchIsStable(s: Server, later: Server, ss: Session)
    requires BranchHolds(s, ss) && s.Forward(later) && OnBranch(later, later.tags)
    ensures BranchHolds(later, ss)
  {
    SessionIsStable(s, later, ss);
    OnBranchLater(s, later, ss.repo.tags);
    ReachLater(s, later, ss.repo.head);
    hide SessionHolds, Reaches;
  }

  // ---------------------------------------------------------------- one step

  lemma StepStaysOnBranch(sha: Hasher, s: Server, ss: Session, input: Input)
    requires BranchHolds(s, ss)
    ensures var (server, next) := Step(sha, s, ss, input);
      server.Valid() && OnBranch(server, server.tags) && OnBranch(server, next.repo.tags)
  {
    var (server, next) := Step(sha, s, ss, input);
    StepTags(sha, s, ss, input);
    EveryStepIsFair(sha, s, ss, input);
    OnBranchLater(s, server, s.tags);
    OnBranchLater(s, server, ss.repo.tags);
    if ss.phase == Tagging {
      TargetIsOnBranch(s, ss);
      ReachLater(s, server, TagTarget(ss));
    }
    hide Step, SessionHolds, Reaches, CarriedIsPublished, Fair, TagTaken;
    TagsAdded(s, ss, input, server, next);
  }

  lemma TagsAdded(s: Server, ss: Session, input: Input, server: Server, next: Session)
    requires s.Valid() && server.Valid() && ChangesTags(s, ss, input, server, next)
    requires OnBranch(server, s.tags) && OnBranch(server, ss.repo.tags)
    requires ss.phase == Tagging ==> Reaches(server.graph, TagTarget(ss), server.tip)
    ensures OnBranch(server, server.tags) && OnBranch(server, next.repo.tags)
  {
    hide Reaches, TagTaken;
  }

  lemma TargetIsOnBranch(s: Server, ss: Session)
    requires BranchHolds(s, ss) && ss.phase == Tagging
    ensures Reaches(s.graph, TagTarget(ss), s.tip)
  {
    assert ss.repo.tags == ss.known && Reaches(s.graph, ss.repo.head, s.tip);
    hide SessionHolds, Reaches;
  }

  lemma CarriedTracks(sha: Hasher, s: Server, ss: Session)
    requires BranchHolds(s, ss) && ss.phase == Tracking
    ensures var (server, next) := TrackStep(sha, s, ss);
      server.Valid() && next.repo.Valid(server.graph) && CarriedIsPublished(server, next)
  {
    TrackIsFair(sha, s, ss);
    CarriedIsOld(sha, s, ss);
  }

  /** Version tracking commits only for the next version. */
  lemma TrackedVersions(sha: Hasher, s: Server, r: Repo, version: string)
    requires s.Valid() && r.Valid(s.graph)
    ensures var tr := TrackVersion(sha, s, r, version);
      tr.Tracked? && tr.version != NextStoreVersion(r.tags.Keys) ==> tr.repo == r
  {
    hide Reaches, WriteHash, MakeCommit;
  }

  lemma CarriedIsOld(sha: Hasher, s: Server, ss: Session)
    requires BranchHolds(s, ss) && ss.phase == Tracking
    ensures var next := TrackStep(sha, s, ss).1; Carried(next) && next.phase != Failed ==> next.repo == ss.repo && next.phase == Pulling
  {
    if MaxPatch(ss.known.Keys) < INT_MAX { NextVersionIsNew(ss.known.Keys); }
    assert ss.repo.tags == ss.known;
    TrackedVersions(sha, s, ss.repo, ss.version);
    assert s.Valid() && ss.repo.Valid(s.graph);
    hide SessionHolds, Reaches, TrackVersion, BuildPreview, NextStoreVersion, MaxPatch;
  }

  lemma CarriedPulls(s: Server, ss: Session, left: Tree)
    requires BranchHolds(s, ss) && ss.phase == Pulling
    ensures var (server, next) := PullStep(s, ss, left);
      server.Valid() && next.repo.Valid(server.graph) && CarriedIsPublished(server, next)
  {
    PullIsFair(s, ss, left);
    PullFacts(s, ss.repo, left);
    var (server, next) := PullStep(s, ss, left);
    if Carried(ss) {
      assert ss.repo.tags == ss.known && Reaches(s.graph, ss.repo.head, s.tip);
      assert Reaches(s.graph, s.tip, s.tip);
    }
    hide Pull, SessionHolds, Reaches;
  }

  lemma CarriedPushes(s: Server, ss: Session)
    requires BranchHolds(s, ss) && ss.phase == Pushing
    ensures var (server, next) := PushStep(s, ss);
      server.Valid() && next.repo.Valid(server.graph) && CarriedIsPublished(server, next)
  {
    PushIsFair(s, ss);
    if Carried(ss) && PushAccepted(s, ss.repo) {
      ReachesIsEarlier(s.graph, s.tip, ss.repo.head);
      ReachesIsEarlier(s.graph, ss.repo.head, s.tip);
    }
    hide SessionHolds, Reaches;
  }

  lemma CarriedCommand(sha: Hasher, s: Server, ss: Session, input: Input)
    requires BranchHolds(s, ss)
    ensures var (server, next) := Command(sha, s, ss, input);
      server.Valid() && next.repo.Valid(server.graph) && CarriedIsPublished(server, next)
  {
    CommandIsFair(sha, s, ss, input);
    match ss.phase
    case Tracking => CarriedTracks(sha, s, ss);
    case Pulling => CarriedPulls(s, ss, Left(input));
    case Pushing => CarriedPushes(s, ss);
    case _ => CarriedElsewhere(sha, s, ss, input);
  }

  lemma CarriedReviews(sha: Hasher, s: Server, ss: Session, input: Input)
    requires BranchHolds(s, ss) && (ss.phase == Merging || ss.phase == UnderReview || ss.phase == Concluding)
    ensures var (server, next) := Command(sha, s, ss, input);
      server.Valid() && next.repo.Valid(server.graph) && CarriedIsPublished(server, next)
  {
    CommandIsFair(sha, s, ss, input);
    var (server, next) := Command(sha, s, ss, input);
    ReviewInventsNoVersion(sha, s, ss, input);
    if MaxPatch(ss.known.Keys) < INT_MAX { NextVersionIsNew(ss.known.Keys); }
    assert SessionHolds(server, next);
    hide SessionHolds, Command, Reaches;
  }

  /** The review neither makes up a version nor changes what the session knows, other than the next one above all known tags. */
  lemma ReviewInventsNoVersion(sha: Hasher, s: Server, ss: Session, input: Input)
    requires SessionHolds(s, ss) && (ss.phase == Merging || ss.phase == UnderReview || ss.phase == Concluding)
    ensures var next := Command(sha, s, ss, input).1;
      && next.reviewed == ss.reviewed && next.staged == ss.staged && next.known == ss.known
      && (next.version == ss.version || next.version == NextStoreVersion(ss.known.Keys))
  {
    if ss.phase == Concluding {
      ConcludingVersion(sha, s, ss);
    } else if ss.phase == UnderReview {
      ReviewingVersion(s, ss, input);
    }
    hide SessionHolds, Reaches, StartMerge, ConcludeStep, Review;
  }

  lemma ConcludingVersion(sha: Hasher, s: Server, ss: Session)
    requires SessionHolds(s, ss) && ss.phase == Concluding
    ensures var next := ConcludeStep(sha, s, ss).1;
      && next == ss.(phase := next.phase, repo := next.repo, version := next.version)
      && (next.version == ss.version || next.version == NextStoreVersion(ss.known.Keys))
  {
    assert ss.repo.tags == ss.known;
    hide Reaches, MakeCommit, WriteHash, AddAll, SessionHolds;
  }

  lemma ReviewingVersion(s: Server, ss: Session, input: Input)
    requires SessionHolds(s, ss) && ss.phase == UnderReview
    ensures var next := Review(s.graph, ss, input); next == ss.(phase := next.phase, repo := next.repo)
  {
    hide ResolveConflict, StageFile, AbortMerge, Reaches;
  }

  lemma CarriedElsewhere(sha: Hasher, s: Server, ss: Session, input: Input)
    requires BranchHolds(s, ss) && ss.phase != Tracking && ss.phase != Pulling && ss.phase != Pushing
    ensures var (server, next) := Command(sha, s, ss, input);
      server.Valid() && next.repo.Valid(server.graph) && CarriedIsPublished(server, next)
  {
    CommandIsFair(sha, s, ss, input);
    if ss.phase == Merging || ss.phase == UnderReview || ss.phase == Concluding {
      CarriedReviews(sha, s, ss, input);
    } else {
      assert s.Valid() && ss.repo.Valid(s.graph) && SessionHolds(Command(sha, s, ss, input).0, Command(sha, s, ss, input).1);
      hide VersionTag, MaxPatch;
      hide StageAndCommit, BuildPreview, TagLocally, PushTag, Reaches, TrackStep, PullStep, MergeStep, Review, ConcludeStep, PushStep, Fair;
    }
  }

  lemma BranchStep(sha: Hasher, s: Server, ss: Session, input: Input)
    requires BranchHolds(s, ss)
    ensures var (server, next) := Step(sha, s, ss, input); BranchHolds(server, next)
  {
    EveryStepIsFair(sha, s, ss, input);
    StepStaysOnBranch(sha, s, ss, input);
    CarriedCommand(sha, s, ss, input);
    hide SessionHolds, Command, Reaches;
  }

  // ---------------------------------------------------------------- whole runs

  ghost predicate BranchWorld(w: World) {
    WorldHolds(w) && OnBranch(w.server, w.server.tags) && forall i :: 0 <= i < |w.sessions| ==> BranchHolds(w.server, w.sessions[i])
  }

  lemma BranchNext(sha: Hasher, w: World, move: Move)
    requires BranchWorld(w)
    ensures BranchWorld(Next(sha, w, move))
  {
    NextHolds(sha, w, move);
    if move.who < |w.sessions| {
      var ss, n := w.sessions[move.who], Next(sha, w, move);
      if move.Advance? {
        EveryStepIsFair(sha, w.server, ss, move.input);
        BranchStep(sha, w.server, ss, move.input);
        hide BranchHolds, Step, SessionHolds;
        forall i | 0 <= i < |w.sessions| && i != move.who ensures BranchHolds(n.server, n.sessions[i]) {
          BranchIsStable(w.server, n.server, w.sessions[i]);
        }
      } else if move.Outside? {
        assert BranchHolds(w.server, ss);
        if WorkedOn(w.server, ss.repo, move.commits, move.repo) { BranchWork(w, n, move); }
      } else {
        assert BranchHolds(w.server, ss);
      }
    }
  }

  lemma BranchWork(w: World, n: World, move: Move)
    requires BranchWorld(w) && move.Outside? && move.who < |w.sessions| && WorldHolds(n)
    requires w.sessions[move.who].repo.Valid(w.server.graph) && WorkedOn(w.server, w.sessions[move.who].repo, move.commits, move.repo)
    requires n == World(w.server.(graph := w.server.graph + move.commits), w.sessions[move.who := NewSession(move.repo)], w.tips)
    ensures BranchWorld(n)
  {
    CommitsAreForward(w.server, move.commits);
    assert BranchHolds(w.server, w.sessions[move.who]) && SessionHolds(n.server, n.sessions[move.who]);
    OnBranchLater(w.server, n.server, w.server.tags);
    OnBranchLater(w.server, n.server, w.sessions[move.who].repo.tags);
    assert BranchHolds(n.server, n.sessions[move.who]);
    hide BranchHolds, SessionHolds, Reaches, WorkedOn;
    forall i | 0 <= i < |w.sessions| && i != move.who ensures BranchHolds(n.server, n.sessions[i]) {
      BranchIsStable(w.server, n.server, w.sessions[i]);
    }
  }

  lemma {:induction false} BranchRun(sha: Hasher, w: World, moves: seq<Move>)
    requires BranchWorld(w)
    ensures BranchWorld(Run(sha, w, moves))
    decreases |moves|
  {
    if moves != [] {
      BranchNext(sha, w, moves[0]);
      BranchRun(sha, Next(sha, w, moves[0]), moves[1..]);
    }
  }

  /** At the start, every tag that anybody knows names a published commit. */
  ghost predicate AllOnBranch(w: World)
    requires w.server.Valid()
  {
    OnBranch(w.server, w.server.tags) && forall i :: 0 <= i < |w.sessions| ==> OnBranch(w.server, w.sessions[i].repo.tags)
  }

  /**
   In every run from there: all tags stay on the branch, and a direct sync that has moved
   the remote tip and finished has its version tag on exactly the commit it pushed, below
   the int bound on version numbers.
   */
  lemma DirectSyncTagsHead(sha: Hasher, w: World, moves: seq<Move>, i: nat)
    requires Fresh(w) && AllOnBranch(w) && i < |w.sessions|
    ensures WorldHolds(w) && |Run(sha, w, moves).sessions| == |w.sessions|
    ensures var end := Run(sha, w, moves);
      && end.server.Valid() && AllOnBranch(end)
      && var ss := end.sessions[i];
         ss.phase == Finished && !ss.reviewed && ss.replaced != ss.repo.head && MaxPatch(ss.known.Keys) < INT_MAX ==>
           VersionTag(ss) in end.server.tags && end.server.tags[VersionTag(ss)] == ss.repo.head
  {
    FreshHolds(w);
    assert BranchWorld(w);
    BranchRun(sha, w, moves);
    MovedTipIsTagged(sha, w, moves, i);
    var end := Run(sha, w, moves);
    assert BranchHolds(end.server, end.sessions[i]);
    hide Run, SessionHolds, WorldHolds, Reaches, Fresh;
  }
}
