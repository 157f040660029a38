/**
 The reviews that are accepted, reported as a success, and publish nothing: there was no
 merge to conclude when the user accepted, because the commit stage had concluded one that
 an earlier session left open.
 */
module HollowReview {
  import opened Options
  import opened StoreManifest
  import opened StoreVersion
  import opened GitModel
  import opened SyncProtocol
  import opened SyncWorld
  import opened VersionTags
  import opened LostPush

  // ---------------------------------------------------------------- what preparing commits

  /** The repository as the commit stage of this session found it. */
  function Entered(ss: Session): Repo { ss.start.(origin := ss.repo.origin, tags := ss.known) }

  /** Whether commit stage and version tracking make a commit of what they find. */
  ghost predicate Commits(sha: Hasher, g: Graph, r: Repo)
    requires r.Valid(g)
  {
    var next := NextStoreVersion(r.tags.Keys);
    if r.Clean(g) then
      && HeadVersionTags(r) == [] && !Reaches(g, r.head, r.origin)
      && (r.mergeHead.Some? || !Certified(sha, r.HeadTree(g), next))
    else AddAll(WriteHash(sha, r, next)).index != r.HeadTree(g)
  }

  /** A merge is open whose history already has the fetched tip, and preparing will conclude it. */
  ghost predicate Hollow(sha: Hasher, g: Graph, r: Repo)
    requires r.Valid(g)
  {
    r.mergeHead.Some? && Reaches(g, r.origin, r.mergeHead.value) && Commits(sha, g, r)
  }

  lemma CommitsIsStable(sha: Hasher, g: Graph, h: Graph, r: Repo)
    requires g <= h && r.Valid(g)
    ensures r.Valid(h) && (Commits(sha, h, r) <==> Commits(sha, g, r)) && (Hollow(sha, h, r) <==> Hollow(sha, g, r))
  {
    assert r.HeadTree(h) == r.HeadTree(g);
    ReachesIsStable(g, h, r.head, r.origin);
    ReachesIsStable(g, h, r.origin, r.head);
    if r.mergeHead.Some? { ReachesIsStable(g, h, r.origin, r.mergeHead.value); }
    hide Reaches, WriteHash, Certified, HeadVersionTags;
  }

  /** `repo` is what preparing made of `r`: itself, or a commit on top of it that concludes an open merge. */
  ghost predicate MadeFrom(g: Graph, r: Repo, repo: Repo, made: bool)
    requires r.Valid(g) && repo.Valid(g)
  {
    if !made then repo.head == r.head && repo.mergeHead == r.mergeHead
    else
      && repo.mergeHead.None? && r.origin < repo.head && (forall t :: t in r.tags ==> r.tags[t] < repo.head)
      && (Reaches(g, r.origin, repo.head) <==>
            Reaches(g, r.origin, r.head) || (r.mergeHead.Some? && Reaches(g, r.origin, r.mergeHead.value)))
  }

  /** A commit that was made says so in its hash file. */
  ghost predicate Signed(sha: Hasher, g: Graph, r: Repo, repo: Repo, version: string)
    requires repo.Valid(g)
  {
    version == NextStoreVersion(r.tags.Keys) && Certified(sha, repo.HeadTree(g), version)
  }

  /** A new commit has its parents' history. */
  lemma CommitHistory(s: Server, r: Repo, c: nat)
    requires s.Valid() && r.Valid(s.graph) && c < |s.graph|
    ensures var (server, repo) := MakeCommit(s, r);
      Reaches(server.graph, c, repo.head) <==>
        Reaches(s.graph, c, r.head) || (r.mergeHead.Some? && Reaches(s.graph, c, r.mergeHead.value))
  {
    var (server, repo) := MakeCommit(s, r);
    var parents := server.graph[repo.head].parents;
    ReachesIsStable(s.graph, server.graph, c, r.head);
    assert parents[0] == r.head;
    if r.mergeHead.Some? {
      ReachesIsStable(s.graph, server.graph, c, r.mergeHead.value);
      assert parents[1] == r.mergeHead.value;
    }
  }

  lemma CommitIsMade(s: Server, r: Repo, added: Repo)
    requires s.Valid() && r.Valid(s.graph) && added == r.(index := added.index, unmerged := added.unmerged, worktree := added.worktree)
    ensures var (server, repo) := MakeCommit(s, added);
      && s.graph <= server.graph && r.Valid(server.graph) && repo.Valid(server.graph)
      && MadeFrom(server.graph, r, repo, true) && repo.HeadTree(server.graph) == added.index
      && repo.origin == r.origin && repo.tags == r.tags
  {
    CommitHistory(s, added, r.origin);
    var (server, repo) := MakeCommit(s, added);
    ReachesIsStable(s.graph, server.graph, r.origin, r.head);
    if r.mergeHead.Some? { ReachesIsStable(s.graph, server.graph, r.origin, r.mergeHead.value); }
    hide Reaches;
  }

  /** The commit stage of a repository with local changes. */
  lemma StagingMakes(sha: Hasher, s: Server, r: Repo)
    requires s.Valid() && r.Valid(s.graph) && !r.Clean(s.graph)
    ensures var st := StageAndCommit(sha, s, r);
      && s.graph <= st.server.graph && r.Valid(st.server.graph) && st.repo.Valid(st.server.graph)
      && MadeFrom(st.server.graph, r, st.repo, Commits(sha, s.graph, r)) && Signed(sha, st.server.graph, r, st.repo, st.version)
      && st.repo.origin == r.origin && st.repo.tags == r.tags && st.version != ""
  {
    StageFacts(sha, s, r);
    var added := AddAll(WriteHash(sha, r, NextStoreVersion(r.tags.Keys)));
    CommitIsMade(s, r, added);
    hide MadeFrom, MakeCommit, WriteHash, Certified, Reaches, SameHistory;
  }

  /** Version tracking of a repository that the commit stage found clean. */
  lemma TrackingMakes(sha: Hasher, s: Server, r: Repo)
    requires s.Valid() && r.Valid(s.graph) && r.Clean(s.graph) && TrackVersion(sha, s, r, "").Tracked?
    ensures var tr := TrackVersion(sha, s, r, "");
      && s.graph <= tr.server.graph && r.Valid(tr.server.graph) && tr.repo.Valid(tr.server.graph)
      && MadeFrom(tr.server.graph, r, tr.repo, Commits(sha, s.graph, r))
      && (Commits(sha, s.graph, r) ==> Signed(sha, tr.server.graph, r, tr.repo, tr.version))
      && tr.repo.origin == r.origin && tr.repo.tags == r.tags
  {
    var next := NextStoreVersion(r.tags.Keys);
    var written := WriteHash(sha, r, next);
    var added := written.(index := written.index[HASH_FILE := written.worktree[HASH_FILE]]);
    TrackRefusedExactly(sha, s, r, "");
    if Commits(sha, s.graph, r) {
      WrittenHashCertifies(sha, r, next);
      assert added.index == written.worktree;
      CommitIsMade(s, r, added);
      hide MadeFrom, MakeCommit, WriteHash, Certified, Reaches;
    }
  }

  // ---------------------------------------------------------------- what holds in every phase

  ghost predicate FromStart(s: Server, ss: Session)
    requires s.Valid() && ss.repo.Valid(s.graph)
  {
    && (ss.phase == Previewing ==> ss.repo == ss.start)
    && (ss.phase == Fetching || ss.phase == Staging ==> ss.repo == ss.start.(origin := ss.repo.origin, tags := ss.repo.tags))
    && (ss.reviewed && ss.phase == Fetching ==> Reaches(s.graph, ss.repo.origin, s.tip))
    && (ss.reviewed && (ss.phase == Fetching || ss.phase == Staging) ==> !Reaches(s.graph, ss.repo.origin, ss.start.head))
  }

  predicate Preparing(p: Phase) { p == Tracking || p == Merging || p == UnderReview || p == Concluding || p == Unpublished }

  /** `repo` is what the commit stage made of `r`, under `version`. */
  ghost predicate StagedFrom(sha: Hasher, g: Graph, r: Repo, repo: Repo, version: string)
    requires repo.Valid(g)
  {
    && r.Valid(g) && !Reaches(g, r.origin, r.head) && repo.origin == r.origin
    && if version == "" then repo == r && r.Clean(g)
       else !r.Clean(g) && MadeFrom(g, r, repo, Commits(sha, g, r)) && Signed(sha, g, r, repo, version)
  }

  /** `repo` is what commit stage and version tracking made of `r`. */
  ghost predicate PreparedFrom(sha: Hasher, g: Graph, r: Repo, repo: Repo, version: string)
    requires repo.Valid(g)
  {
    && r.Valid(g) && !Reaches(g, r.origin, r.head) && repo.origin == r.origin
    && MadeFrom(g, r, repo, Commits(sha, g, r)) && (Commits(sha, g, r) ==> Signed(sha, g, r, repo, version))
  }

  /** `repo` is under review: no merge is open in it exactly if `r` was hollow. */
  ghost predicate OpenedFrom(sha: Hasher, g: Graph, r: Repo, repo: Repo, version: string)
    requires repo.Valid(g)
  {
    && r.Valid(g) && !Reaches(g, r.origin, r.head) && repo.tags == r.tags && repo.origin == r.origin
    && (repo.mergeHead.None? <==> Hollow(sha, g, r))
    && (Hollow(sha, g, r) ==> MadeFrom(g, r, repo, true) && Signed(sha, g, r, repo, version))
  }

  /** How a reviewed session stands to what it found, from its commit stage on. */
  ghost predicate Prepared(sha: Hasher, s: Server, ss: Session)
    requires ss.repo.Valid(s.graph)
  {
    var g, r, repo := s.graph, Entered(ss), ss.repo;
    if ss.phase == Tracking then StagedFrom(sha, g, r, repo, ss.version)
    else if ss.phase == Merging then PreparedFrom(sha, g, r, repo, ss.version)
    else OpenedFrom(sha, g, r, repo, ss.version)
  }

  ghost predicate ReviewHolds(sha: Hasher, s: Server, ss: Session) {
    && SessionHolds(s, ss) && FromStart(s, ss)
    && (ss.phase == Merging || ss.phase == Unpublished ==> ss.reviewed) && (ss.phase == Pulling ==> !ss.reviewed)
    && (ss.phase == UnderReview || ss.phase == Concluding ==> ss.reviewed || ss.repo.mergeHead.Some?)
    && (ss.phase == Unpublished ==> ss.repo.mergeHead.None?)
    && (ss.reviewed && Preparing(ss.phase) ==> Prepared(sha, s, ss))
  }

  lemma ReviewIsStable(sha: Hasher, s: Server, later: Server, ss: Session)
    requires ReviewHolds(sha, s, ss) && s.Forward(later)
    ensures ReviewHolds(sha, later, ss)
  {
    SessionIsStable(s, later, ss);
    assert ss.start.head < |s.graph| && s.Valid() && ss.repo.Valid(s.graph);
    hide SessionHolds, Prepared, FromStart;
    FromStartIsStable(s, later, ss);
    if ss.reviewed && Preparing(ss.phase) { PreparedIsStable(sha, s, later, ss); }
  }

  lemma FromStartIsStable(s: Server, later: Server, ss: Session)
    requires s.Forward(later) && ss.repo.Valid(s.graph) && ss.start.head < |s.graph| && FromStart(s, ss)
    ensures ss.repo.Valid(later.graph) && FromStart(later, ss)
  {
    ReachLater(s, later, ss.repo.origin);
    ReachesIsStable(s.graph, later.graph, ss.repo.origin, ss.start.head);
    hide Reaches;
  }

  lemma PreparedIsStable(sha: Hasher, s: Server, later: Server, ss: Session)
    requires s.Forward(later) && ss.repo.Valid(s.graph) && Prepared(sha, s, ss)
    ensures ss.repo.Valid(later.graph) && Prepared(sha, later, ss)
  {
    var g, h, r := s.graph, later.graph, Entered(ss);
    assert r.Valid(g);
    hide Reaches, Commits, Hollow, Certified;
    CommitsIsStable(sha, g, h, r);
    ReachesIsStable(g, h, r.origin, r.head);
    ReachesIsStable(g, h, r.origin, ss.repo.head);
    if r.mergeHead.Some? { ReachesIsStable(g, h, r.origin, r.mergeHead.value); }
    assert r.HeadTree(h) == r.HeadTree(g) && ss.repo.HeadTree(h) == ss.repo.HeadTree(g);
  }

  // ---------------------------------------------------------------- one command

  /** A preview whose two sides overlap means that HEAD does not have the fetched tip. */
  lemma OverlapMeansBehind(g: Graph, r: Repo)
    requires r.Valid(g) && BuildPreview(g, r, true).Some?
    ensures var p := BuildPreview(g, r, true).value; p.local * p.remote != {} ==> !Reaches(g, r.origin, r.head)
  {
    if Reaches(g, r.origin, r.head) { BaseOfAncestor(g, r.origin, r.head); }
    hide Reaches, MergeBase;
  }

  lemma PreviewFindsBehind(s: Server, ss: Session)
    requires s.Valid() && ss.repo.Valid(s.graph) && FromStart(s, ss) && ss.phase == Previewing
    ensures PreviewStep(s, ss).repo.Valid(s.graph) && FromStart(s, PreviewStep(s, ss))
  {
    var fetched := Fetched(s, ss.repo);
    assert Reaches(s.graph, s.tip, s.tip) && fetched.Valid(s.graph);
    if BuildPreview(s.graph, fetched, true).Some? { OverlapMeansBehind(s.graph, fetched); }
    hide Reaches, BuildPreview, TagsAgree;
  }

  lemma PreviewReviews(sha: Hasher, s: Server, ss: Session)
    requires ReviewHolds(sha, s, ss) && ss.phase == Previewing
    ensures ReviewHolds(sha, s, PreviewStep(s, ss))
  {
    FetchIsFair(s, ss);
    assert s.Valid() && ss.repo.Valid(s.graph);
    PreviewFindsBehind(s, ss);
    hide SessionHolds, Reaches, BuildPreview, TagsAgree, Prepared, FromStart;
  }

  /** A fetch of the tip as it is now leaves HEAD behind it, as the preview found it to be behind an earlier one. */
  lemma FetchStaysBehind(s: Server, ss: Session)
    requires s.Valid() && ss.repo.Valid(s.graph) && ss.start.head < |s.graph| && FromStart(s, ss) && ss.phase == Fetching
    ensures FetchStep(s, ss).repo.Valid(s.graph) && FromStart(s, FetchStep(s, ss))
  {
    if ss.reviewed && Reaches(s.graph, s.tip, ss.start.head) { ReachesIsTransitive(s.graph, ss.repo.origin, s.tip, ss.start.head); }
    hide Reaches, TagsAgree;
  }

  lemma FetchReviews(sha: Hasher, s: Server, ss: Session)
    requires ReviewHolds(sha, s, ss) && ss.phase == Fetching
    ensures ReviewHolds(sha, s, FetchStep(s, ss))
  {
    FetchIsFair(s, ss);
    assert s.Valid() && ss.repo.Valid(s.graph) && ss.start.head < |s.graph|;
    hide SessionHolds, Reaches, TagsAgree, Prepared, FromStart;
    FetchStaysBehind(s, ss);
  }

  /** The commit stage. */
  lemma StagingGives(sha: Hasher, s: Server, r: Repo)
    requires s.Valid() && r.Valid(s.graph) && !Reaches(s.graph, r.origin, r.head)
    ensures var st := StageAndCommit(sha, s, r);
      st.server.Valid() && st.repo.Valid(st.server.graph) && StagedFrom(sha, st.server.graph, r, st.repo, st.version)
  {
    StageFacts(sha, s, r);
    var st := StageAndCommit(sha, s, r);
    hide StageAndCommit, Certified, SameHistory, SameButHash, MadeFrom, Signed;
    if !r.Clean(s.graph) { StagingMakes(sha, s, r); }
    CommitsIsStable(sha, s.graph, st.server.graph, r);
    ReachesIsStable(s.graph, st.server.graph, r.origin, r.head);
    assert r.HeadTree(st.server.graph) == r.HeadTree(s.graph);
    hide Reaches, Commits;
  }

  lemma StageReviews(sha: Hasher, s: Server, ss: Session)
    requires ReviewHolds(sha, s, ss) && ss.phase == Staging
    ensures var st := StageAndCommit(sha, s, ss.repo);
      ReviewHolds(sha, st.server, ss.(phase := Tracking, repo := st.repo, version := st.version, staged := Some(st.repo.head)))
  {
    StageIsFair(sha, s, ss);
    var st := StageAndCommit(sha, s, ss.repo);
    var next := ss.(phase := Tracking, repo := st.repo, version := st.version, staged := Some(st.repo.head));
    assert SessionHolds(st.server, next) && ss.repo.tags == ss.known && s.Valid() && ss.repo.Valid(s.graph);
    hide SessionHolds, StageAndCommit, StagedFrom, Reaches;
    if ss.reviewed {
      assert Entered(next) == ss.repo;
      StagingGives(sha, s, ss.repo);
    }
  }

  /** Version tracking after it. */
  lemma TrackingGives(sha: Hasher, s: Server, r: Repo, repo: Repo, version: string)
    requires s.Valid() && repo.Valid(s.graph) && StagedFrom(sha, s.graph, r, repo, version) && TrackVersion(sha, s, repo, version).Tracked?
    ensures var tr := TrackVersion(sha, s, repo, version);
      tr.server.Valid() && tr.repo.Valid(tr.server.graph) && PreparedFrom(sha, tr.server.graph, r, tr.repo, tr.version)
  {
    var tr := TrackVersion(sha, s, repo, version);
    hide Reaches, Commits, Certified, MadeFrom, Signed;
    if version == "" {
      TrackFacts(sha, s, r, "");
      hide TrackVersion, SameHistory, SameButHash;
      TrackingMakes(sha, s, r);
      CommitsIsStable(sha, s.graph, tr.server.graph, r);
      ReachesIsStable(s.graph, tr.server.graph, r.origin, r.head);
    }
  }

  /** What a session in one of the prepared phases still owes. */
  lemma LandsPrepared(sha: Hasher, s: Server, ss: Session)
    requires SessionHolds(s, ss) && (ss.phase == Merging || ss.phase == UnderReview || ss.phase == Pulling)
    requires if ss.phase == Pulling then !ss.reviewed else ss.reviewed && Prepared(sha, s, ss)
    ensures ReviewHolds(sha, s, ss)
  {
    assert s.Valid() && ss.repo.Valid(s.graph);
    hide SessionHolds, Reaches, Prepared;
  }

  lemma TrackReviews(sha: Hasher, s: Server, ss: Session)
    requires ReviewHolds(sha, s, ss) && ss.phase == Tracking
    ensures var (server, next) := TrackStep(sha, s, ss); ReviewHolds(sha, server, next)
  {
    TrackIsFair(sha, s, ss);
    var (server, next) := TrackStep(sha, s, ss);
    assert s.Valid() && ss.repo.Valid(s.graph);
    assert ss.reviewed ==> Prepared(sha, s, ss);
    hide SessionHolds, ReviewHolds;
    assert SessionHolds(server, next);
    TrackedKeeps(sha, s, ss);
    hide Reaches, TrackStep, Fair, StagedFrom, PreparedFrom;
    if next.phase == Failed {
      OverReviews(sha, server, next);
    } else {
      if ss.reviewed { TrackingGives(sha, s, Entered(ss), ss.repo, ss.version); }
      LandsPrepared(sha, server, next);
    }
  }

  /** What version tracking leaves alone. */
  ghost predicate TrackedAlong(sha: Hasher, s: Server, ss: Session)
    requires s.Valid() && ss.repo.Valid(s.graph)
  {
    var ((server, next), tr) := (TrackStep(sha, s, ss), TrackVersion(sha, s, ss.repo, ss.version));
    || next.phase == Failed
    || (tr.Tracked? && server == tr.server && tr.repo.origin == ss.repo.origin
        && next == ss.(phase := if ss.reviewed then Merging else Pulling, repo := tr.repo, version := tr.version, prepared := tr.repo.head))
  }

  lemma TrackKeepsOrigin(sha: Hasher, s: Server, r: Repo, version: string)
    requires s.Valid() && r.Valid(s.graph)
    ensures var tr := TrackVersion(sha, s, r, version); tr.Tracked? ==> tr.repo.origin == r.origin
  {
    var next := NextStoreVersion(r.tags.Keys);
    var written := WriteHash(sha, r, next);
    var added := written.(index := written.index[HASH_FILE := written.worktree[HASH_FILE]]);
    assert MakeCommit(s, added).1.origin == r.origin;
    hide WriteHash, Reaches, HeadVersionTags, NextStoreVersion, MakeCommit;
  }

  lemma TrackedKeeps(sha: Hasher, s: Server, ss: Session)
    requires s.Valid() && ss.repo.Valid(s.graph)
    ensures TrackedAlong(sha, s, ss)
  {
    hide TrackVersion, Reaches, BuildPreview;
    TrackKeepsOrigin(sha, s, ss.repo, ss.version);
  }

  lemma PullReviews(sha: Hasher, s: Server, ss: Session, left: Tree)
    requires ReviewHolds(sha, s, ss) && ss.phase == Pulling
    ensures var (server, next) := PullStep(s, ss, left); ReviewHolds(sha, server, next)
  {
    PullIsFair(s, ss, left);
    ConflictOpensMerge(s, ss.repo, left);
    hide SessionHolds, Reaches, Pull;
  }

  lemma ConflictOpensMerge(s: Server, r: Repo, left: Tree)
    requires s.Valid() && r.Valid(s.graph)
    ensures var p := Pull(s, r, left); p.PullConflict? ==> p.repo.mergeHead.Some?
  {
    hide Reaches, MergeBase, MakeCommit, ConflictsOf, MergedTree;
  }

  /** Starting a merge leaves none open exactly if none was, and HEAD has the remote-tracking branch already. */
  lemma StartMergeOpens(g: Graph, r: Repo, left: Tree)
    requires r.Valid(g) && StartMerge(g, r, left).Some?
    ensures var m := StartMerge(g, r, left).value;
      && m.head == r.head && m.origin == r.origin && m.tags == r.tags
      && (m.mergeHead.None? <==> r.mergeHead.None? && Reaches(g, r.origin, r.head))
  {
    hide Reaches, MergeBase, ConflictsOf, MergedTree;
  }

  lemma MergeStepIs(s: Server, ss: Session, left: Tree)
    requires s.Valid() && ss.repo.Valid(s.graph)
    ensures var next, m := MergeStep(s, ss, left), StartMerge(s.graph, ss.repo, left);
      next == if m.Some? then ss.(phase := UnderReview, repo := m.value) else ss.(phase := Failed)
  {
    hide StartMerge, Reaches;
  }

  lemma MergeReviews(sha: Hasher, s: Server, ss: Session, left: Tree)
    requires ReviewHolds(sha, s, ss) && ss.phase == Merging
    ensures ReviewHolds(sha, s, MergeStep(s, ss, left))
  {
    var next := MergeStep(s, ss, left);
    MergeIsFair(s, ss, left);
    assert ss.repo.tags == ss.known && ss.repo.Valid(s.graph) && s.Valid() && ss.reviewed && Prepared(sha, s, ss);
    hide SessionHolds, ReviewHolds;
    assert SessionHolds(s, next) && next.repo.Valid(s.graph);
    MergeStepIs(s, ss, left);
    hide Reaches, MergeStep, StartMerge, PreparedFrom, OpenedFrom, Fair;
    if next.phase == Failed {
      OverReviews(sha, s, next);
    } else {
      OpeningGives(sha, s.graph, Entered(ss), ss.repo, ss.version, left);
      LandsPrepared(sha, s, next);
    }
  }

  lemma OpeningGives(sha: Hasher, g: Graph, r: Repo, repo: Repo, version: string, left: Tree)
    requires repo.Valid(g) && PreparedFrom(sha, g, r, repo, version) && repo.tags == r.tags && StartMerge(g, repo, left).Some?
    requires StartMerge(g, repo, left).value.Valid(g)
    ensures OpenedFrom(sha, g, r, StartMerge(g, repo, left).value, version)
  {
    StartMergeOpens(g, repo, left);
    hide Reaches, Commits, Certified, StartMerge;
  }

  lemma ReviewReviews(sha: Hasher, s: Server, ss: Session, input: Input)
    requires ReviewHolds(sha, s, ss) && ss.phase == UnderReview
    ensures ReviewHolds(sha, s, Review(s.graph, ss, input))
  {
    ReviewIsFair(s, ss, input);
    ReviewKeepsMerge(s, ss, input);
    assert ss.repo.Valid(s.graph);
    hide SessionHolds, Reaches, Commits, Certified, Hollow, Review, Signed;
  }

  /** The keys of the review neither end the merge nor move anything else than the files. */
  lemma ReviewKeepsMerge(s: Server, ss: Session, input: Input)
    requires SessionHolds(s, ss) && ss.phase == UnderReview
    ensures var next := Review(s.graph, ss, input);
      && next == ss.(phase := next.phase, repo := next.repo)
      && (next.phase == UnderReview || next.phase == Concluding || next.phase == Cancelled || next.phase == Dismissed || next.phase == Failed)
      && (next.phase == UnderReview || next.phase == Concluding ==>
            next.repo == ss.repo.(index := next.repo.index, unmerged := next.repo.unmerged, worktree := next.repo.worktree))
  {
    assert ss.repo.Valid(s.graph);
    hide Reaches, SessionHolds;
    match input
    case Keep(path, local) => ResolvingKeepsMerge(s.graph, ss.repo, path, local);
    case Edit(path, content) => hide ResolveConflict, AbortMerge;
    case Quit => hide ResolveConflict, StageFile;
    case _ =>
  }

  lemma ResolvingKeepsMerge(g: Graph, r: Repo, path: Path, local: bool)
    requires r.Valid(g)
    ensures var next := ResolveConflict(g, r, path, local);
      next.Some? ==> next.value == r.(index := next.value.index, unmerged := next.value.unmerged, worktree := next.value.worktree)
  {
  }

  lemma ConcludeStepIs(sha: Hasher, s: Server, ss: Session)
    requires s.Valid() && ss.repo.Valid(s.graph) && ss.repo.unmerged == map[]
    ensures var (server, next) := ConcludeStep(sha, s, ss);
      if ss.repo.mergeHead.None? then (server, next) == (s, ss.(phase := Unpublished)) else next.phase == Pushing
  {
    hide MakeCommit, WriteHash, Reaches;
  }

  /** Accepting: nothing is published exactly if no merge is open. */
  lemma ConcludeReviews(sha: Hasher, s: Server, ss: Session)
    requires ReviewHolds(sha, s, ss) && ss.phase == Concluding
    ensures var (server, next) := ConcludeStep(sha, s, ss);
      && ReviewHolds(sha, server, next)
      && (next.phase == Unpublished || next.phase == Pushing)
      && (next.phase == Unpublished <==> ss.reviewed && Hollow(sha, s.graph, Entered(ss)))
      && (next.phase == Unpublished ==> server == s && next.repo == ss.repo)
  {
    ConcludeIsFair(sha, s, ss);
    assert ss.repo.unmerged == map[] && ss.repo.Valid(s.graph) && s.Valid();
    hide SessionHolds;
    ConcludeStepIs(sha, s, ss);
    hide Reaches, ConcludeStep, Hollow, MadeFrom, Signed;
  }

  lemma CommandReviews(sha: Hasher, s: Server, ss: Session, input: Input)
    requires ReviewHolds(sha, s, ss)
    ensures var (server, next) := Command(sha, s, ss, input); ReviewHolds(sha, server, next)
  {
    CommandIsFair(sha, s, ss, input);
    assert s.Valid() && ss.repo.Valid(s.graph);
    match ss.phase
    case Previewing => PreviewReviews(sha, s, ss);
    case Fetching => FetchReviews(sha, s, ss);
    case Staging => StageReviews(sha, s, ss);
    case Tracking => TrackReviews(sha, s, ss);
    case Pulling => PullReviews(sha, s, ss, Left(input));
    case Merging => MergeReviews(sha, s, ss, Left(input));
    case UnderReview => ReviewReviews(sha, s, ss, input);
    case Concluding => ConcludeReviews(sha, s, ss);
    case _ => RestReviews(sha, s, ss, input);
  }

  lemma RestReviews(sha: Hasher, s: Server, ss: Session, input: Input)
    requires ReviewHolds(sha, s, ss) && (Published(ss.phase) || ss.phase == Pushing || Ended(ss.phase))
    ensures var (server, next) := Command(sha, s, ss, input); ReviewHolds(sha, server, next)
  {
    CommandIsFair(sha, s, ss, input);
    var (server, next) := Command(sha, s, ss, input);
    assert s.Valid() && ss.repo.Valid(s.graph) && SessionHolds(server, next);
    RestGoesOn(sha, s, ss, input);
    hide SessionHolds, Command, Fair;
    if (server, next) != (s, ss) { OverReviews(sha, server, next); }
  }

  lemma OverReviews(sha: Hasher, s: Server, ss: Session)
    requires SessionHolds(s, ss) && (Published(ss.phase) || ss.phase == Failed)
    ensures ReviewHolds(sha, s, ss)
  {
    hide SessionHolds, Reaches, Prepared;
  }

  lemma RestGoesOn(sha: Hasher, s: Server, ss: Session, input: Input)
    requires s.Valid() && ss.repo.Valid(s.graph) && (Published(ss.phase) || ss.phase == Pushing || Ended(ss.phase))
    ensures var (server, next) := Command(sha, s, ss, input);
      (server, next) == (s, ss) || Published(next.phase) || next.phase == Failed
  {
    hide Reaches, PreviewStep, FetchStep, StageAndCommit, TrackStep, PullStep, MergeStep, Review, ConcludeStep, PushBranch, PushTag, TagLocally;
  }

  lemma ReviewStep(sha: Hasher, s: Server, ss: Session, input: Input)
    requires ReviewHolds(sha, s, ss)
    ensures var (server, next) := Step(sha, s, ss, input); ReviewHolds(sha, server, next)
  {
    EveryStepIsFair(sha, s, ss, input);
    assert s.Valid() && ss.repo.Valid(s.graph);
    StepCases(sha, s, ss, input);
    if input.Break? && !Ended(ss.phase) {
      FailedReviews(sha, s, ss, input);
    } else {
      CommandReviews(sha, s, ss, input);
    }
    hide SessionHolds, Command, Step, Broken, Fair, ReviewHolds;
  }

  lemma FailedReviews(sha: Hasher, s: Server, ss: Session, input: Input)
    requires SessionHolds(s, ss) && input.Break? && !Ended(ss.phase)
    ensures var (server, next) := Step(sha, s, ss, input); ReviewHolds(sha, server, next)
  {
    EveryStepIsFair(sha, s, ss, input);
    assert s.Valid() && ss.repo.Valid(s.graph);
    StepCases(sha, s, ss, input);
    hide SessionHolds, Command, Step, Broken, Reaches, Wrecked, ReviewHolds;
    OverReviews(sha, Step(sha, s, ss, input).0, Step(sha, s, ss, input).1);
  }

  // ---------------------------------------------------------------- whole runs

  ghost predicate ReviewWorld(sha: Hasher, w: World) {
    WorldHolds(w) && forall i :: 0 <= i < |w.sessions| ==> ReviewHolds(sha, w.server, w.sessions[i])
  }

  lemma NewReviews(sha: Hasher, s: Server, r: Repo)
    requires s.Valid() && r.Valid(s.graph)
    ensures ReviewHolds(sha, s, NewSession(r))
  {
    NewSessionHolds(s, r);
    hide SessionHolds, Prepared;
  }

  lemma ReviewNext(sha: Hasher, w: World, move: Move)
    requires ReviewWorld(sha, w)
    ensures ReviewWorld(sha, Next(sha, w, move))
  {
    NextHolds(sha, w, move);
    if move.who < |w.sessions| {
      var ss, n := w.sessions[move.who], Next(sha, w, move);
      assert SessionHolds(w.server, ss);
      NextIsForward(sha, w, move);
      match move {
        case Advance(_, input) => ReviewStep(sha, w.server, ss, input);
        case Begin(_, worktree) => NewReviews(sha, w.server, ss.repo.(worktree := worktree));
        case Outside(_, commits, repo) => if WorkedOn(w.server, ss.repo, commits, repo) { NewReviews(sha, n.server, repo); }
      }
      hide ReviewHolds, Step, SessionHolds, WorkedOn;
      forall i | 0 <= i < |w.sessions| && i != move.who ensures ReviewHolds(sha, n.server, n.sessions[i]) {
        ReviewIsStable(sha, w.server, n.server, w.sessions[i]);
      }
    }
  }

  lemma NextIsForward(sha: Hasher, w: World, move: Move)
    requires WorldHolds(w)
    ensures w.server.Forward(Next(sha, w, move).server)
  {
    ForwardIsReflexive(w.server);
    if move.who < |w.sessions| {
      var ss := w.sessions[move.who];
      assert SessionHolds(w.server, ss);
      match move
      case Advance(_, input) => EveryStepIsFair(sha, w.server, ss, input);
      case Outside(_, commits, repo) => if WorkedOn(w.server, ss.repo, commits, repo) { CommitsAreForward(w.server, commits); }
      case _ =>
    }
    hide SessionHolds, Step, Reaches;
  }

  lemma {:induction false} ReviewRun(sha: Hasher, w: World, moves: seq<Move>)
    requires ReviewWorld(sha, w)
    ensures ReviewWorld(sha, Run(sha, w, moves))
    decreases |moves|
  {
    if moves != [] {
      ReviewNext(sha, w, moves[0]);
      hide Next, ReviewWorld;
      ReviewRun(sha, Next(sha, w, moves[0]), moves[1..]);
    }
  }

  lemma FreshReviews(sha: Hasher, w: World)
    requires Fresh(w)
    ensures ReviewWorld(sha, w)
  {
    FreshHolds(w);
    forall i | 0 <= i < |w.sessions| ensures ReviewHolds(sha, w.server, w.sessions[i]) {
      NewReviews(sha, w.server, w.sessions[i].repo);
    }
  }

  /** HEAD is a commit that the fetched tip does not have. */
  lemma HollowIsAhead(g: Graph, r: Repo, repo: Repo)
    requires r.Valid(g) && repo.Valid(g) && MadeFrom(g, r, repo, true)
    ensures !Reaches(g, repo.head, r.origin) && repo.head != r.origin
  {
    if Reaches(g, repo.head, r.origin) { ReachesIsEarlier(g, repo.head, r.origin); }
    hide Reaches;
  }

  /**
   In every run, of the two ends that the program reports as a success: a finished sync is
   published, with all that `WorldIsSafe` says of it, and its HEAD is on the remote branch;
   an accepted review that publishes nothing is hollow. It began with a merge open, whose
   history has the tip it fetched, and its commit stage concluded that merge. Its HEAD is
   then not on the remote as it was fetched.
   */
  lemma SuccessIsPublishedOrHollow(sha: Hasher, w: World, moves: seq<Move>, i: nat)
    requires Fresh(w) && i < |w.sessions|
    ensures WorldHolds(w) && |Run(sha, w, moves).sessions| == |w.sessions| && WorldIsSafe(Run(sha, w, moves))
    ensures var end := Run(sha, w, moves); var ss := end.sessions[i]; var g := end.server.graph;
      && ss.repo.Valid(g)
      && (ss.phase == Finished ==> Reaches(g, ss.repo.head, end.server.tip))
      && (ss.phase == Unpublished ==>
            && ss.reviewed && ss.start.mergeHead.Some? && Entered(ss).Valid(g) && Hollow(sha, g, Entered(ss))
            && !Reaches(g, ss.repo.head, ss.repo.origin))
  {
    FreshReviews(sha, w);
    EveryRunIsSafe(sha, w, moves);
    ReviewRun(sha, w, moves);
    var end := Run(sha, w, moves);
    var ss := end.sessions[i];
    assert ReviewHolds(sha, end.server, ss) && SessionHolds(end.server, ss);
    hide Run, WorldHolds, WorldIsSafe;
    if ss.phase == Unpublished { HollowIsAhead(end.server.graph, Entered(ss), ss.repo); }
    hide Reaches, SessionHolds, Commits;
  }

  /** Accepting a review with nothing unmerged, twice: once for the review, once for the commit. */
  ghost function Accepted(sha: Hasher, s: Server, ss: Session): (Server, Session)
    requires SessionHolds(s, ss)
  {
    EveryStepIsFair(sha, s, ss, Accept);
    var (server, next) := Step(sha, s, ss, Accept);
    Step(sha, server, next, Accept)
  }

  /**
   In every run, wherever it stands: a settled review that is accepted next goes on to push
   a merge commit, or ends without publishing anything; the latter exactly if it was opened
   by a preview with overlapping changes, and a merge was open when the sync began whose
   history has the fetched tip and which the commit stage has concluded.
   */
  lemma AcceptedReviewIsHollowExactly(sha: Hasher, w: World, moves: seq<Move>, i: nat)
    requires Fresh(w) && i < |w.sessions|
    ensures WorldHolds(w) && |Run(sha, w, moves).sessions| == |w.sessions|
    ensures var end := Run(sha, w, moves); var ss := end.sessions[i]; var g := end.server.graph;
      ss.phase == UnderReview && ss.repo.unmerged == map[] ==>
        && SessionHolds(end.server, ss) && (ss.reviewed ==> Entered(ss).Valid(g))
        && var (server, next) := Accepted(sha, end.server, ss);
           && (next.phase == Unpublished || next.phase == Pushing)
           && (next.phase == Unpublished <==> ss.reviewed && Hollow(sha, g, Entered(ss)))
           && (next.phase == Unpublished ==> server == end.server && next.repo == ss.repo)
  {
    FreshReviews(sha, w);
    RunHolds(sha, w, moves);
    ReviewRun(sha, w, moves);
    var end := Run(sha, w, moves);
    var ss := end.sessions[i];
    assert ReviewHolds(sha, end.server, ss) && SessionHolds(end.server, ss);
    hide Run, WorldHolds;
    if ss.phase == UnderReview && ss.repo.unmerged == map[] { AcceptingConcludes(sha, end.server, ss); }
  }

  lemma AcceptingConcludes(sha: Hasher, s: Server, ss: Session)
    requires ReviewHolds(sha, s, ss) && ss.phase == UnderReview && ss.repo.unmerged == map[]
    ensures ss.reviewed ==> Entered(ss).Valid(s.graph)
    ensures var (server, next) := Accepted(sha, s, ss);
      && (next.phase == Unpublished || next.phase == Pushing)
      && (next.phase == Unpublished <==> ss.reviewed && Hollow(sha, s.graph, Entered(ss)))
      && (next.phase == Unpublished ==> server == s && next.repo == ss.repo)
  {
    var concluding := ss.(phase := Concluding);
    assert Step(sha, s, ss, Accept) == (s, concluding) by { hide SessionHolds; }
    ReviewStep(sha, s, ss, Accept);
    ConcludeReviews(sha, s, concluding);
    assert Step(sha, s, concluding, Accept) == ConcludeStep(sha, s, concluding);
    hide SessionHolds, Reaches, Commits, Hollow, ConcludeStep, Step;
  }

  /** In particular never when no merge was open at the start. */
  lemma NoMergeNoHollow(sha: Hasher, w: World, moves: seq<Move>, i: nat)
    requires Fresh(w) && i < |w.sessions|
    ensures WorldHolds(w) && |Run(sha, w, moves).sessions| == |w.sessions|
    ensures var ss := Run(sha, w, moves).sessions[i]; ss.start.mergeHead.None? ==> ss.phase != Unpublished
  {
    SuccessIsPublishedOrHollow(sha, w, moves, i);
  }

  /**
   After a hollow review in which no file was edited, whatever others have pushed since, the
   next sync throws at version tracking exactly if HEAD has not reached the remote nor got a
   tag, and no tag that has come in makes the next version another one.
   */
  lemma HollowReviewStrands(sha: Hasher, s: Server, ss: Session, later: Server)
    requires ReviewHolds(sha, s, ss) && ss.phase == Unpublished && ss.repo.Clean(s.graph)
    requires s.Forward(later) && TagsAgree(later, ss.repo)
    ensures Fetched(later, ss.repo).Valid(later.graph) && ss.repo.Valid(later.graph)
    ensures var fetched := Fetched(later, ss.repo);
      NothingToTrack(sha, later, fetched) <==>
        && HeadVersionTags(fetched) == [] && !Reaches(later.graph, ss.repo.head, later.tip)
        && NextStoreVersion(fetched.tags.Keys) == ss.version
  {
    assert ss.repo.Valid(s.graph);
    assert Signed(sha, s.graph, Entered(ss), ss.repo, ss.version);
    hide SessionHolds, Commits, Reaches;
    LostPushStrandsExactly(sha, s, later, ss.repo, ss.version);
  }

  /** So it does when nothing new has come in: the commit is unpublished, untagged, and signed with the next version. */
  lemma HollowReviewStrandsAtOnce(sha: Hasher, s: Server, ss: Session, later: Server)
    requires ReviewHolds(sha, s, ss) && ss.phase == Unpublished && ss.repo.Clean(s.graph)
    requires s.Forward(later) && later.tip == ss.repo.origin && Within(later.tags, ss.known)
    ensures TagsAgree(later, ss.repo) && Fetched(later, ss.repo).Valid(later.graph)
    ensures NothingToTrack(sha, later, Fetched(later, ss.repo))
  {
    var r, repo := Entered(ss), ss.repo;
    assert repo.Valid(s.graph) && repo.tags == ss.known;
    assert MadeFrom(s.graph, r, repo, true) && Signed(sha, s.graph, r, repo, ss.version);
    var fetched := Fetched(later, repo);
    assert fetched.tags == repo.tags;
    HollowReviewStrands(sha, s, ss, later);
    HollowIsAhead(s.graph, r, repo);
    ReachesIsStable(s.graph, later.graph, repo.head, later.tip);
    NoTagsListed(fetched);
  }
}
