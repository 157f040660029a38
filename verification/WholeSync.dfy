/**
 What a whole sync comes to while nobody else is at work: when it finishes, when its user is
 asked and when it throws, and what the published tree has at every path, with a review or
 without one.
 */
module WholeSync {
  import opened Options
  import opened StoreManifest
  import opened StoreVersion
  import opened GitModel
  import opened SyncProtocol
  import opened SyncWorld
  import opened LostPush
  import K = ReviewKeys

  /** The commands of a direct sync, with nobody interfering; git leaves `left` in conflicted files. */
  function Commands(left: Tree): seq<Leg> {
    [Leg(None, Accept), Leg(None, Accept), Leg(None, Accept)] + Publication(left)
  }

  function Publication(left: Tree): seq<Leg> {
    [Leg(None, Go(left)), Leg(None, Accept), Leg(None, Accept), Leg(None, Accept)]
  }

  /** What the client brings to the merge: its files as they are, and the hash file it commits. */
  ghost function Brought(sha: Hasher, s: Server, r: Repo, q: Path): Option<string>
    requires s.Valid() && r.Valid(s.graph)
  {
    if q == HASH_FILE then OwnHashFile(sha, s, Fetched(s, r)) else Get(r.worktree, q)
  }

  /** A path in the end: joined from where client and remote branch parted, the client's files, and the remote branch. */
  ghost function JoinedAt(sha: Hasher, s: Server, r: Repo, q: Path): K.Standing
    requires s.Valid() && r.Valid(s.graph)
  {
    match MergeBase(s.graph, r.head, s.tip)
    case None => K.Open
    case Some(base) => K.Joined(Get(s.graph[base].tree, q), Brought(sha, s, r, q), Get(s.graph[s.tip].tree, q))
  }

  // ---------------------------------------------------------------- the pull

  lemma PullJoins(s: Server, r: Repo, left: Tree, p: Path)
    requires s.Valid() && r.Valid(s.graph) && r.Clean(s.graph) && r.mergeHead.None? && MergeBase(s.graph, r.head, s.tip).Some?
    ensures var g := s.graph; var base, ours, theirs := g[MergeBase(g, r.head, s.tip).value].tree, g[r.head].tree, g[s.tip].tree;
      var joined := K.Joined(Get(base, p), Get(ours, p), Get(theirs, p));
      match Pull(s, r, left)
      case PullFailed => false
      case PullConflict(m) =>
        && (p in m.unmerged <==> joined == K.Open) && m.unmerged != map[] && K.StandingOf(m, p) == joined
      case Pulled(server, repo) =>
        && repo.head < |server.graph| && joined == K.Settled(Get(server.graph[repo.head].tree, p))
        && server.Valid() && repo.Valid(server.graph) && Reaches(server.graph, server.tip, repo.head)
        && server.tip == s.tip && server.tags == s.tags && repo.tags == r.tags
  {
    var g := s.graph;
    var base := MergeBase(g, r.head, s.tip).value;
    assert base < |g|;
    PullFacts(s, r, left);
    if Reaches(g, s.tip, r.head) {
      BaseOfAncestor(g, s.tip, r.head);
    } else if Reaches(g, r.head, s.tip) {
      BaseOfAncestor(g, r.head, s.tip);
    } else {
      var f := r.(origin := s.tip);
      K.MergeJoins(g, f, base, s.tip, left, p);
      var m := MergeInto(g, f, base, s.tip, left);
      if m.unmerged == map[] { MergeHasTip(s, m); }
    }
  }

  lemma MergeHasTip(s: Server, m: Repo)
    requires s.Valid() && m.Valid(s.graph) && m.mergeHead == Some(s.tip)
    ensures var (server, repo) := MakeCommit(s, m); Reaches(server.graph, s.tip, repo.head)
  {
    var (server, repo) := MakeCommit(s, m);
    assert server.graph[repo.head].parents[1] == s.tip && Reaches(server.graph, s.tip, s.tip);
  }

  // ---------------------------------------------------------------- up to the pull

  ghost predicate Syncing(s: Server, ss: Session, phase: Phase) {
    SessionHolds(s, ss) && ss.phase == phase && ss.repo.Valid(s.graph) && s.Valid() && ss.repo.mergeHead.None?
  }

  /** One more command of the play, that works. */
  lemma PlayCommand(sha: Hasher, s: Server, ss: Session, input: Input, rest: seq<Leg>)
    requires SessionHolds(s, ss) && s.Valid() && ss.repo.Valid(s.graph) && !IsOver(ss.phase) && !input.Break?
    ensures var (server, next) := Command(sha, s, ss, input);
      SessionHolds(server, next) && Play(sha, s, ss, [Leg(None, input)] + rest) == Play(sha, server, next, rest)
      && ((rest == [] || IsOver(next.phase)) ==> Play(sha, server, next, rest) == (server, next))
  {
    PlayOn(sha, s, ss, Leg(None, input), rest);
    var (server, next) := Command(sha, s, ss, input);
    assert Step(sha, s, ss, input) == (server, next);
    hide SessionHolds, Command, Play, Step;
    if rest == [] || IsOver(next.phase) { PlayIsOver(sha, server, next, rest); }
  }

  ghost predicate Throws(sha: Hasher, s: Server, r: Repo)
    requires s.Valid() && r.Valid(s.graph)
  {
    !TagsAgree(s, r) || (r.Clean(s.graph) && NothingToTrack(sha, s, Fetched(s, r)))
  }

  ghost function StagedAt(sha: Hasher, s: Server, r: Repo): Staged
    requires s.Valid() && r.Valid(s.graph)
  {
    StageAndCommit(sha, s, Fetched(s, r))
  }

  ghost function TrackedAt(sha: Hasher, s: Server, r: Repo): Tracked
    requires s.Valid() && r.Valid(s.graph)
  {
    StageFacts(sha, s, Fetched(s, r));
    var st := StagedAt(sha, s, r);
    TrackVersion(sha, st.server, st.repo, st.version)
  }

  /** Version tracking throws on a repository that was clean and has nothing to track. */
  lemma TracksExactly(sha: Hasher, s: Server, r: Repo)
    requires s.Valid() && r.Valid(s.graph) && r.mergeHead.None?
    ensures TrackedAt(sha, s, r).TrackRefused? <==> r.Clean(s.graph) && NothingToTrack(sha, s, Fetched(s, r))
  {
    var f := Fetched(s, r);
    StageFacts(sha, s, f);
    var st := StagedAt(sha, s, r);
    TrackRefusedExactly(sha, st.server, st.repo, st.version);
    hide StageAndCommit, TrackVersion, Reaches, NextStoreVersion, HeadVersionTags;
    assert f.Clean(s.graph) <==> r.Clean(s.graph);
  }

  /** What is merged into, in terms of the state before the sync. */
  lemma ReadyIs(sha: Hasher, s: Server, r: Repo)
    requires s.Valid() && r.Valid(s.graph) && r.mergeHead.None? && TagsAgree(s, r) && TrackedAt(sha, s, r).Tracked?
    ensures var tr := TrackedAt(sha, s, r);
      && tr.server.Valid() && tr.repo.Valid(tr.server.graph) && tr.repo.Clean(tr.server.graph) && tr.repo.mergeHead.None?
      && tr.server.tip == tr.repo.origin == s.tip && s.graph <= tr.server.graph && Within(tr.server.tags, tr.repo.tags)
      && MergeBase(tr.server.graph, tr.repo.head, s.tip) == MergeBase(s.graph, r.head, s.tip)
      && (Reaches(tr.server.graph, s.tip, tr.repo.head) <==> Reaches(s.graph, s.tip, r.head))
      && forall q :: Get(tr.server.graph[tr.repo.head].tree, q) == Brought(sha, s, r, q)
  {
    var f := Fetched(s, r);
    StageFacts(sha, s, f);
    var st, tr := StagedAt(sha, s, r), TrackedAt(sha, s, r);
    TrackFacts(sha, st.server, st.repo, st.version);
    CommittedForPull(sha, s, f);
    MergeBaseKept(s.graph, r.head, tr.server.graph, tr.repo.head, s.tip);
    OwnHashFileIsCommitted(sha, s, f);
    hide StageAndCommit, TrackVersion, MergeBase, Reaches, OwnHashFile, SameHistory, SameButHash, TagsAgree;
    BroughtIs(sha, s, r, tr.repo.HeadTree(tr.server.graph));
    TagsAreKnown(s, r);
  }

  lemma BroughtIs(sha: Hasher, s: Server, r: Repo, tree: Tree)
    requires s.Valid() && r.Valid(s.graph) && SameButHash(tree, r.worktree)
    requires Get(tree, HASH_FILE) == OwnHashFile(sha, s, Fetched(s, r))
    ensures forall q :: Get(tree, q) == Brought(sha, s, r, q)
  {
    hide OwnHashFile, SameButHash;
    forall q ensures Get(tree, q) == Brought(sha, s, r, q) {
      if q != HASH_FILE { SameButHashAt(tree, r.worktree, q); }
    }
  }

  lemma TagsAreKnown(s: Server, r: Repo)
    requires TagsAgree(s, r)
    ensures Within(s.tags, Fetched(s, r).tags)
  {
  }

  /** The session when it comes to its pull, or to the merge of a review. */
  ghost function Ready(sha: Hasher, s: Server, ss: Session): Session
    requires s.Valid() && ss.repo.Valid(s.graph) && TrackedAt(sha, s, ss.repo).Tracked?
  {
    var st, tr := StagedAt(sha, s, ss.repo), TrackedAt(sha, s, ss.repo);
    ss.(phase := if ss.reviewed then Merging else Pulling, repo := tr.repo, version := tr.version, staged := Some(st.repo.head), prepared := tr.repo.head,
        seen := s.tags, known := Fetched(s, ss.repo).tags)
  }

  ghost function StagedSession(sha: Hasher, s: Server, ss: Session): Session
    requires s.Valid() && ss.repo.Valid(s.graph)
  {
    var st := StagedAt(sha, s, ss.repo);
    ss.(phase := Tracking, repo := st.repo, version := st.version, staged := Some(st.repo.head),
        seen := s.tags, known := Fetched(s, ss.repo).tags)
  }

  lemma FetchWorks(sha: Hasher, s: Server, ss: Session)
    requires Syncing(s, ss, Fetching)
    ensures var (server, next) := Command(sha, s, ss, Accept);
      server == s && if !TagsAgree(s, ss.repo) then next.phase == Failed else
        next == ss.(phase := Staging, repo := Fetched(s, ss.repo), seen := s.tags, known := Fetched(s, ss.repo).tags)
  {
    hide SessionHolds, TagsAgree, Reaches;
  }

  lemma StageWorks(sha: Hasher, s: Server, ss: Session)
    requires Syncing(s, ss, Fetching)
    ensures Command(sha, s, ss.(phase := Staging, repo := Fetched(s, ss.repo), seen := s.tags, known := Fetched(s, ss.repo).tags), Accept)
      == (StagedAt(sha, s, ss.repo).server, StagedSession(sha, s, ss))
  {
    hide SessionHolds, StageAndCommit, Reaches;
  }

  lemma TrackCommand(sha: Hasher, s: Server, ss: Session)
    requires Syncing(s, ss, Fetching)
    ensures var st := StagedAt(sha, s, ss.repo);
      && st.server.Valid() && st.repo.Valid(st.server.graph)
      && Command(sha, st.server, StagedSession(sha, s, ss), Accept) == TrackStep(sha, st.server, StagedSession(sha, s, ss))
  {
    StageFacts(sha, s, Fetched(s, ss.repo));
    hide SessionHolds, StageAndCommit, TrackStep, Reaches;
  }

  lemma ReadyHasBase(sha: Hasher, s: Server, r: Repo)
    requires s.Valid() && r.Valid(s.graph) && r.mergeHead.None? && TagsAgree(s, r) && TrackedAt(sha, s, r).Tracked?
    ensures var tr := TrackedAt(sha, s, r);
      && tr.server.Valid() && tr.repo.Valid(tr.server.graph)
      && (BuildPreview(tr.server.graph, tr.repo, false).None? <==> MergeBase(s.graph, r.head, s.tip).None?)
  {
    ReadyIs(sha, s, r);
    hide TrackedAt, MergeBase, Reaches, Brought, DiffPaths, TrackedWorktree;
  }

  lemma TrackWorks(sha: Hasher, s: Server, ss: Session)
    requires Syncing(s, ss, Fetching) && TagsAgree(s, ss.repo)
    ensures var st, tr := StagedAt(sha, s, ss.repo), TrackedAt(sha, s, ss.repo);
      && st.server.Valid() && st.repo.Valid(st.server.graph)
      && var (server, next) := Command(sha, st.server, StagedSession(sha, s, ss), Accept);
         if tr.TrackRefused? || (ss.reviewed && MergeBase(s.graph, ss.repo.head, s.tip).None?) then next.phase == Failed
         else server == tr.server && next == Ready(sha, s, ss)
  {
    TrackCommand(sha, s, ss);
    if TrackedAt(sha, s, ss.repo).Tracked? { ReadyHasBase(sha, s, ss.repo); }
    hide SessionHolds, Command, StageAndCommit, TrackVersion, Reaches, MergeBase, TagsAgree, BuildPreview;
  }

  lemma ComesToTracking(sha: Hasher, s: Server, ss: Session, rest: seq<Leg>)
    requires Syncing(s, ss, Fetching) && TagsAgree(s, ss.repo)
    ensures var (server, tracking) := (StagedAt(sha, s, ss.repo).server, StagedSession(sha, s, ss));
      && SessionHolds(server, tracking)
      && Play(sha, s, ss, [Leg(None, Accept)] + ([Leg(None, Accept)] + rest)) == Play(sha, server, tracking, rest)
  {
    FetchWorks(sha, s, ss);
    StageWorks(sha, s, ss);
    var staging := Command(sha, s, ss, Accept).1;
    hide SessionHolds, Play, Command, StagedAt, StagedSession, TagsAgree, Reaches, Fetched;
    PlayCommand(sha, s, ss, Accept, [Leg(None, Accept)] + rest);
    PlayCommand(sha, s, staging, Accept, rest);
  }

  ghost predicate Stops(sha: Hasher, s: Server, ss: Session)
    requires s.Valid() && ss.repo.Valid(s.graph)
  {
    Throws(sha, s, ss.repo) || (ss.reviewed && MergeBase(s.graph, ss.repo.head, s.tip).None?)
  }

  lemma CommandsStart(left: Tree)
    ensures Commands(left) == [Leg(None, Accept)] + ([Leg(None, Accept)] + ([Leg(None, Accept)] + Publication(left)))
  {
  }

  lemma PlaysTracking(sha: Hasher, s: Server, ss: Session, left: Tree)
    requires Syncing(s, ss, Fetching) && TagsAgree(s, ss.repo)
    ensures var st := StagedAt(sha, s, ss.repo);
      && st.server.Valid() && st.repo.Valid(st.server.graph)
      && var (server, next) := Command(sha, st.server, StagedSession(sha, s, ss), Accept);
         SessionHolds(server, next) && Play(sha, s, ss, Commands(left)) == Play(sha, server, next, Publication(left))
         && (IsOver(next.phase) ==> Play(sha, server, next, Publication(left)) == (server, next))
  {
    hide Play, TrackStep, Publication, Commands;
    var next, rest := Leg(None, Accept), Publication(left);
    CommandsStart(left);
    TrackCommand(sha, s, ss);
    assert StagedSession(sha, s, ss).phase == Tracking && StagedSession(sha, s, ss).repo == StagedAt(sha, s, ss.repo).repo;
    hide SessionHolds, Command, StagedAt, StagedSession, TagsAgree, Reaches;
    ComesToTracking(sha, s, ss, [next] + rest);
    PlayCommand(sha, StagedAt(sha, s, ss.repo).server, StagedSession(sha, s, ss), Accept, rest);
  }

  lemma ClashStops(sha: Hasher, s: Server, ss: Session, left: Tree)
    requires Syncing(s, ss, Fetching) && !TagsAgree(s, ss.repo)
    ensures Play(sha, s, ss, Commands(left)).1.phase == Failed
  {
    var next, rest := Leg(None, Accept), Publication(left);
    CommandsStart(left);
    FetchWorks(sha, s, ss);
    hide SessionHolds, Play, Command, TagsAgree, Reaches, Publication, Commands;
    PlayCommand(sha, s, ss, Accept, [next] + ([next] + rest));
  }

  lemma StopsEarly(sha: Hasher, s: Server, ss: Session, left: Tree)
    requires Syncing(s, ss, Fetching) && Stops(sha, s, ss)
    ensures Play(sha, s, ss, Commands(left)).1.phase == Failed
  {
    TracksExactly(sha, s, ss.repo);
    hide SessionHolds, Play, Command, StagedAt, StagedSession, TrackedAt, TagsAgree, NothingToTrack, Reaches, MergeBase, Publication, Commands;
    if TagsAgree(s, ss.repo) {
      TrackWorks(sha, s, ss);
      PlaysTracking(sha, s, ss, left);
    } else {
      ClashStops(sha, s, ss, left);
    }
  }

  lemma GetsReady(sha: Hasher, s: Server, ss: Session, left: Tree)
    requires Syncing(s, ss, Fetching) && !Stops(sha, s, ss)
    ensures TrackedAt(sha, s, ss.repo).Tracked?
    ensures var (server, ready) := (TrackedAt(sha, s, ss.repo).server, Ready(sha, s, ss));
      SessionHolds(server, ready) && Play(sha, s, ss, Commands(left)) == Play(sha, server, ready, Publication(left))
  {
    TracksExactly(sha, s, ss.repo);
    TrackWorks(sha, s, ss);
    hide SessionHolds, Play, Command, StagedAt, StagedSession, TrackedAt, TagsAgree, NothingToTrack, Reaches, MergeBase, Publication, Commands, Ready;
    PlaysTracking(sha, s, ss, left);
  }

  // ---------------------------------------------------------------- from the pull on

  lemma PullWorks(sha: Hasher, s: Server, ss: Session, left: Tree)
    requires SessionHolds(s, ss) && ss.phase == Pulling && s.Valid() && ss.repo.Valid(s.graph)
    ensures Command(sha, s, ss, Go(left)) == match Pull(s, ss.repo, left)
      case PullFailed => (s, ss.(phase := Failed))
      case PullConflict(m) => (s, ss.(phase := UnderReview, repo := m))
      case Pulled(server, repo) => (server, ss.(phase := Pushing, repo := repo))
  {
    hide SessionHolds, Pull, Reaches;
  }

  lemma PushWorks(sha: Hasher, s: Server, ss: Session)
    requires SessionHolds(s, ss) && ss.phase == Pushing && s.Valid() && ss.repo.Valid(s.graph) && Reaches(s.graph, s.tip, ss.repo.head)
    ensures Command(sha, s, ss, Accept) == (s.(tip := ss.repo.head),
      ss.(phase := if ss.version == "" then Finished else Tagging, repo := ss.repo.(origin := ss.repo.head), replaced := s.tip))
  {
    hide SessionHolds, Reaches;
  }

  /** The tag of a session that knows all of the server's tags is made and accepted. */
  lemma TagWorks(sha: Hasher, s: Server, ss: Session)
    requires SessionHolds(s, ss) && ss.phase == Tagging && s.Valid() && ss.repo.Valid(s.graph) && Within(s.tags, ss.repo.tags)
    ensures var (server, next) := Command(sha, s, ss, Accept);
      && server == s && next == ss.(phase := TagPushing, repo := TagLocally(ss.repo, VersionTag(ss)))
      && next.repo.Valid(s.graph) && VersionTag(ss) in next.repo.tags
      && Command(sha, s, next, Accept) ==
           (s.(tags := s.tags[VersionTag(ss) := next.repo.tags[VersionTag(ss)]]), next.(phase := Finished))
  {
    hide SessionHolds, Reaches;
  }

  lemma TagsAndFinishes(sha: Hasher, s: Server, ss: Session)
    requires SessionHolds(s, ss) && ss.phase == Tagging && s.Valid() && ss.repo.Valid(s.graph) && Within(s.tags, ss.repo.tags)
    ensures var (server, end) := Play(sha, s, ss, [Leg(None, Accept)] + [Leg(None, Accept)]);
      && end.phase == Finished && server.graph == s.graph && server.tip == s.tip
      && end.repo.head == ss.repo.head && end.version == ss.version && VersionTag(ss) in server.tags
  {
    TagWorks(sha, s, ss);
    var made := ss.(phase := TagPushing, repo := TagLocally(ss.repo, VersionTag(ss)));
    assert made.repo.head == ss.repo.head;
    hide SessionHolds, Play, Command, Reaches, TagLocally, VersionTag, Within;
    PlayCommand(sha, s, ss, Accept, [Leg(None, Accept)]);
    PlayCommand(sha, s, made, Accept, []);
    assert [Leg(None, Accept)] + [] == [Leg(None, Accept)];
  }

  /** Publishing what is ready, nobody interfering. */
  lemma PushesAndTags(sha: Hasher, s: Server, ss: Session)
    requires SessionHolds(s, ss) && ss.phase == Pushing && s.Valid() && ss.repo.Valid(s.graph)
    requires Reaches(s.graph, s.tip, ss.repo.head) && Within(s.tags, ss.repo.tags)
    ensures var (server, end) := Play(sha, s, ss, [Leg(None, Accept)] + ([Leg(None, Accept)] + [Leg(None, Accept)]));
      && end.phase == Finished && server.graph == s.graph && server.tip == end.repo.head == ss.repo.head
      && end.version == ss.version && (ss.version != "" ==> VersionTag(ss) in server.tags)
  {
    PushWorks(sha, s, ss);
    var (pushed, tagging) := Command(sha, s, ss, Accept);
    assert tagging.repo.Valid(pushed.graph) && pushed.Valid() && Within(pushed.tags, tagging.repo.tags);
    assert VersionTag(tagging) == VersionTag(ss);
    hide SessionHolds, Play, Command, Reaches, TagLocally, VersionTag, Within;
    PlayCommand(sha, s, ss, Accept, [Leg(None, Accept)] + [Leg(None, Accept)]);
    if ss.version != "" { TagsAndFinishes(sha, pushed, tagging); }
  }

  lemma NoBase(s: Server, r: Repo, left: Tree)
    requires s.Valid() && r.Valid(s.graph) && MergeBase(s.graph, r.head, s.tip).None?
    ensures Pull(s, r, left).PullFailed?
  {
    if Reaches(s.graph, s.tip, r.head) { BaseOfAncestor(s.graph, s.tip, r.head); }
    if Reaches(s.graph, r.head, s.tip) { BaseOfAncestor(s.graph, r.head, s.tip); }
  }

  lemma Publishes(sha: Hasher, s: Server, ss: Session, left: Tree)
    requires Syncing(s, ss, Pulling) && ss.repo.Clean(s.graph) && Within(s.tags, ss.repo.tags)
    ensures var (server, end) := Play(sha, s, ss, Publication(left));
      match Pull(s, ss.repo, left)
      case PullFailed => end.phase == Failed
      case PullConflict(m) => end.phase == UnderReview && end.repo == m && server == s
      case Pulled(merged, repo) =>
        && end.phase == Finished && server.graph == merged.graph && server.tip == end.repo.head == repo.head
        && (end.version != "" ==> VersionTag(end) in server.tags)
  {
    var next := Leg(None, Accept);
    var rest := [next] + ([next] + [next]);
    assert Publication(left) == [Leg(None, Go(left))] + rest;
    PullWorks(sha, s, ss, left);
    PlayCommand(sha, s, ss, Go(left), rest);
    if Pull(s, ss.repo, left).Pulled? {
      if MergeBase(s.graph, ss.repo.head, s.tip).None? { NoBase(s, ss.repo, left); }
      PullJoins(s, ss.repo, left, "");
      hide SessionHolds, Play, Command, Pull, Reaches, MergeBase;
      PushesAndTags(sha, Pull(s, ss.repo, left).server, Command(sha, s, ss, Go(left)).1);
    }
  }

  // ---------------------------------------------------------------- the whole sync

  /** The bases and tips before the sync are where they were when it comes to its merge. */
  lemma ReadyJoins(sha: Hasher, s: Server, r: Repo, p: Path)
    requires s.Valid() && r.Valid(s.graph) && r.mergeHead.None? && TagsAgree(s, r) && TrackedAt(sha, s, r).Tracked?
    requires MergeBase(s.graph, r.head, s.tip).Some?
    ensures var tr := TrackedAt(sha, s, r); var g := tr.server.graph;
      && tr.server.Valid() && tr.repo.Valid(g) && MergeBase(g, tr.repo.head, tr.server.tip).Some?
      && JoinedAt(sha, s, r, p) ==
           K.Joined(Get(g[MergeBase(g, tr.repo.head, tr.server.tip).value].tree, p), Get(g[tr.repo.head].tree, p), Get(g[tr.server.tip].tree, p))
  {
    ReadyIs(sha, s, r);
    var tr, base := TrackedAt(sha, s, r), MergeBase(s.graph, r.head, s.tip).value;
    assert base < |s.graph| && tr.server.graph[base] == s.graph[base] && tr.server.graph[s.tip] == s.graph[s.tip];
    assert Get(tr.server.graph[tr.repo.head].tree, p) == Brought(sha, s, r, p);
    hide TrackedAt, MergeBase, Brought, Reaches, K.Joined;
  }

  ghost predicate PulledAt(sha: Hasher, s: Server, r: Repo, left: Tree, q: Path)
    requires s.Valid() && r.Valid(s.graph)
  {
    var tr, joined := TrackedAt(sha, s, r), JoinedAt(sha, s, r, q);
    && tr.Tracked? && tr.server.Valid() && tr.repo.Valid(tr.server.graph) && tr.server.tip == s.tip
    && match Pull(tr.server, tr.repo, left)
       case PullFailed => false
       case PullConflict(m) => m.unmerged != map[] && (q in m.unmerged <==> joined == K.Open) && K.StandingOf(m, q) == joined
       case Pulled(server, repo) => repo.head < |server.graph| && joined == K.Settled(Get(server.graph[repo.head].tree, q))
  }

  lemma PullIsJoined(sha: Hasher, s: Server, r: Repo, left: Tree, q: Path)
    requires s.Valid() && r.Valid(s.graph) && r.mergeHead.None? && TagsAgree(s, r) && TrackedAt(sha, s, r).Tracked?
    requires MergeBase(s.graph, r.head, s.tip).Some?
    ensures PulledAt(sha, s, r, left, q)
  {
    ReadyIs(sha, s, r);
    ReadyJoins(sha, s, r, q);
    hide TrackedAt, Pull, MergeBase, Brought, Reaches, JoinedAt, K.Joined, K.StandingOf;
    PullJoins(TrackedAt(sha, s, r).server, TrackedAt(sha, s, r).repo, left, q);
  }

  lemma PullDecides(sha: Hasher, s: Server, r: Repo, left: Tree, p: Path)
    requires s.Valid() && r.Valid(s.graph) && r.mergeHead.None? && TagsAgree(s, r) && TrackedAt(sha, s, r).Tracked?
    requires MergeBase(s.graph, r.head, s.tip).Some?
    ensures PulledAt(sha, s, r, left, p)
    ensures var tr, undecided := TrackedAt(sha, s, r), exists q :: JoinedAt(sha, s, r, q) == K.Open;
      tr.server.Valid() && tr.repo.Valid(tr.server.graph) &&
      match Pull(tr.server, tr.repo, left)
      case PullFailed => false
      case PullConflict(_) => undecided
      case Pulled(_, _) => !undecided
  {
    hide TrackedAt, Pull, MergeBase, Reaches, JoinedAt, K.StandingOf;
    forall q ensures PulledAt(sha, s, r, left, q) { PullIsJoined(sha, s, r, left, q); }
    assert PulledAt(sha, s, r, left, p);
    match Pull(TrackedAt(sha, s, r).server, TrackedAt(sha, s, r).repo, left)
    case PullConflict(m) =>
      var q :| q in m.unmerged;
      assert PulledAt(sha, s, r, left, q) && JoinedAt(sha, s, r, q) == K.Open;
    case PullFailed =>
    case Pulled(_, _) =>
      forall q ensures JoinedAt(sha, s, r, q) != K.Open { assert PulledAt(sha, s, r, left, q); }
  }

  lemma ReadySyncs(sha: Hasher, s: Server, ss: Session, left: Tree, p: Path)
    requires Syncing(s, ss, Fetching) && !ss.reviewed && !Throws(sha, s, ss.repo) && TrackedAt(sha, s, ss.repo).Tracked?
    requires SessionHolds(TrackedAt(sha, s, ss.repo).server, Ready(sha, s, ss))
    ensures var (server, end) := Play(sha, TrackedAt(sha, s, ss.repo).server, Ready(sha, s, ss), Publication(left));
      EndsAs(sha, s, ss.repo, p, server, end)
  {
    ReadyIs(sha, s, ss.repo);
    var server, ready := TrackedAt(sha, s, ss.repo).server, Ready(sha, s, ss);
    assert Syncing(server, ready, Pulling) && ready.repo == TrackedAt(sha, s, ss.repo).repo;
    hide SessionHolds, Play, Publication, TrackedAt, Ready, Pull, MergeBase, Reaches, JoinedAt, K.StandingOf;
    Publishes(sha, server, ready, left);
    if MergeBase(s.graph, ss.repo.head, s.tip).None? {
      NoBase(server, ready.repo, left);
    } else {
      PullDecides(sha, s, ss.repo, left, p);
    }
  }

  /** How a direct sync ends, by what the joining of the paths comes to. */
  ghost predicate EndsAs(sha: Hasher, s: Server, r: Repo, p: Path, server: Server, end: Session)
    requires s.Valid() && r.Valid(s.graph)
  {
    if MergeBase(s.graph, r.head, s.tip).None? then end.phase == Failed
    else if exists q :: JoinedAt(sha, s, r, q) == K.Open then
      end.phase == UnderReview && server.tip == s.tip && K.StandingOf(end.repo, p) == JoinedAt(sha, s, r, p)
    else
      && end.phase == Finished && server.tip == end.repo.head && server.tip < |server.graph|
      && JoinedAt(sha, s, r, p) == K.Settled(Get(server.graph[server.tip].tree, p))
      && (end.version != "" ==> VersionTag(end) in server.tags)
  }

  /**
   A direct sync from any state in which no merge is open, while nobody else pushes. It
   throws exactly if a tag clashes, version tracking refuses, or nothing is shared with the
   remote branch. Otherwise every path is joined from where the two parted, the client's own
   files as they were, untracked ones included, and the remote branch. If that decides all
   of them the sync finishes, and what it has published has just that at every path; if not,
   it ends in a review in which just the undecided ones are in conflict.
   */
  lemma DirectSyncExactly(sha: Hasher, s: Server, ss: Session, left: Tree, p: Path)
    requires SessionHolds(s, ss) && ss.phase == Fetching && !ss.reviewed && ss.repo.mergeHead.None?
    requires s.Valid() && ss.repo.Valid(s.graph)
    ensures var (server, end) := Play(sha, s, ss, Commands(left));
      if Throws(sha, s, ss.repo) then end.phase == Failed else EndsAs(sha, s, ss.repo, p, server, end)
  {
    if Throws(sha, s, ss.repo) {
      StopsEarly(sha, s, ss, left);
    } else {
      GetsReady(sha, s, ss, left);
      ReadySyncs(sha, s, ss, left, p);
    }
  }

  // ---------------------------------------------------------------- with a review

  lemma MergeWorks(sha: Hasher, s: Server, ss: Session, left: Tree, p: Path)
    requires Syncing(s, ss, Merging) && ss.repo.Clean(s.graph) && ss.repo.origin == s.tip
    requires MergeBase(s.graph, ss.repo.head, s.tip).Some?
    ensures var (server, end) := Command(sha, s, ss, Go(left)); var g, r := s.graph, ss.repo;
      && server == s && end.phase == UnderReview
      && end.repo.head == r.head && end.repo.origin == s.tip && end.repo.tags == r.tags
      && (!Reaches(g, s.tip, r.head) ==> end.repo.mergeHead == Some(s.tip))
      && K.StandingOf(end.repo, p) ==
           K.Joined(Get(g[MergeBase(g, r.head, s.tip).value].tree, p), Get(g[r.head].tree, p), Get(g[s.tip].tree, p))
  {
    assert Command(sha, s, ss, Go(left)) == (s, MergeStep(s, ss, left));
    if Reaches(s.graph, s.tip, ss.repo.head) { BaseOfAncestor(s.graph, s.tip, ss.repo.head); }
    K.ReviewOpensWith(s.graph, ss.repo, left, p);
    hide SessionHolds, MergeBase, Reaches, MergeInto, Command;
  }

  /** A review opened by a sync from `s`: its path `p`, and what it goes on with. */
  ghost predicate ReviewOpened(sha: Hasher, s: Server, r: Repo, p: Path, server: Server, end: Session)
    requires s.Valid() && r.Valid(s.graph)
  {
    && SessionHolds(server, end) && server.Valid() && end.repo.Valid(server.graph)
    && end.phase == UnderReview && server.tip == end.repo.origin == s.tip && Within(server.tags, end.repo.tags)
    && K.StandingOf(end.repo, p) == JoinedAt(sha, s, r, p)
    && Get(server.graph[end.repo.head].tree, p) == Brought(sha, s, r, p)
    && Get(server.graph[s.tip].tree, p) == Get(s.graph[s.tip].tree, p)
    && (!Reaches(s.graph, s.tip, r.head) ==> end.repo.mergeHead == Some(s.tip))
  }

  /** The same for a sync that is to be reviewed: the review opens with every path joined, whether or not one is undecided. */
  lemma ReviewedSyncExactly(sha: Hasher, s: Server, ss: Session, left: Tree, p: Path)
    requires SessionHolds(s, ss) && ss.phase == Fetching && ss.reviewed && ss.repo.mergeHead.None?
    requires s.Valid() && ss.repo.Valid(s.graph)
    ensures var (server, end) := Play(sha, s, ss, Commands(left));
      if Stops(sha, s, ss) then end.phase == Failed
      else ReviewOpened(sha, s, ss.repo, p, server, end)
  {
    if Stops(sha, s, ss) {
      StopsEarly(sha, s, ss, left);
    } else {
      GetsReady(sha, s, ss, left);
      ReviewOpensJoined(sha, s, ss, left, p);
    }
  }

  lemma ReviewOpensJoined(sha: Hasher, s: Server, ss: Session, left: Tree, p: Path)
    requires Syncing(s, ss, Fetching) && ss.reviewed && !Stops(sha, s, ss) && TrackedAt(sha, s, ss.repo).Tracked?
    requires SessionHolds(TrackedAt(sha, s, ss.repo).server, Ready(sha, s, ss))
    ensures var (server, end) := Play(sha, TrackedAt(sha, s, ss.repo).server, Ready(sha, s, ss), Publication(left));
      ReviewOpened(sha, s, ss.repo, p, server, end)
  {
    hide Brought, JoinedAt, K.Joined, K.StandingOf, MergeBase, NothingToTrack, Publication, Play, Command, Within;
    ReadyIs(sha, s, ss.repo);
    ReadyJoins(sha, s, ss.repo, p);
    var server, ready := TrackedAt(sha, s, ss.repo).server, Ready(sha, s, ss);
    assert Syncing(server, ready, Merging) && ready.repo == TrackedAt(sha, s, ss.repo).repo;
    var next := Leg(None, Accept);
    PublicationStarts(left);
    hide SessionHolds, TrackedAt, Ready, Reaches, TagsAgree;
    MergeWorks(sha, server, ready, left, p);
    PlayCommand(sha, server, ready, Go(left), [next, next, next]);
  }

  lemma PublicationStarts(left: Tree)
    ensures Publication(left) == [Leg(None, Go(left))] + [Leg(None, Accept), Leg(None, Accept), Leg(None, Accept)]
  {
  }

  // ---------------------------------------------------------------- from the preview on

  /** A tracked file and the remote branch have both changed at some path since the two parted. */
  ghost predicate Overlaps(s: Server, r: Repo)
    requires s.Valid() && r.Valid(s.graph)
  {
    var base := MergeBase(s.graph, r.head, s.tip);
    base.Some? && exists q: Path ::
      Get(s.graph[base.value].tree, q) != TrackedFile(r, q) && Get(s.graph[base.value].tree, q) != Get(s.graph[s.tip].tree, q)
  }

  lemma OverlapsExactly(s: Server, r: Repo)
    requires s.Valid() && r.Valid(s.graph) && MergeBase(s.graph, r.head, s.tip).Some?
    ensures var f := Fetched(s, r);
      && f.Valid(s.graph) && BuildPreview(s.graph, f, true).Some?
      && var preview := BuildPreview(s.graph, f, true).value;
         preview.local * preview.remote != {} <==> Overlaps(s, r)
  {
    var f := Fetched(s, r);
    var preview := BuildPreview(s.graph, f, true).value;
    assert forall q :: q in preview.local * preview.remote <==> q in preview.local && q in preview.remote;
    assert forall q :: TrackedFile(f, q) == TrackedFile(r, q);
    forall q: Path { PreviewListsChanges(s.graph, f, true, q); }
    hide Reaches, BuildPreview, MergeBase;
  }

  lemma PreviewWorks(sha: Hasher, s: Server, ss: Session)
    requires Syncing(s, ss, Previewing)
    ensures var (server, next) := Command(sha, s, ss, Accept);
      server == s &&
      if !TagsAgree(s, ss.repo) || MergeBase(s.graph, ss.repo.head, s.tip).None? then next.phase == Failed
      else next == ss.(phase := Fetching, repo := Fetched(s, ss.repo), reviewed := Overlaps(s, ss.repo))
  {
    assert Command(sha, s, ss, Accept) == (s, PreviewStep(s, ss));
    if MergeBase(s.graph, ss.repo.head, s.tip).Some? { OverlapsExactly(s, ss.repo); }
    hide SessionHolds, Reaches, Command, MergeBase, Overlaps, DiffPaths, TrackedWorktree, TagsAgree;
  }

  lemma FetchedTwice(sha: Hasher, s: Server, r: Repo)
    requires s.Valid() && r.Valid(s.graph) && TagsAgree(s, r)
    ensures var f := Fetched(s, r);
      && f.Valid(s.graph) && Fetched(s, f) == f && TagsAgree(s, f) && (f.Clean(s.graph) <==> r.Clean(s.graph))
      && forall q :: JoinedAt(sha, s, f, q) == JoinedAt(sha, s, r, q) && Brought(sha, s, f, q) == Brought(sha, s, r, q)
  {
    hide Reaches, OwnHashFile, MergeBase;
  }

  lemma OverlapIsBehind(s: Server, r: Repo)
    requires s.Valid() && r.Valid(s.graph) && Overlaps(s, r)
    ensures !Reaches(s.graph, s.tip, r.head)
  {
    if Reaches(s.graph, s.tip, r.head) { BaseOfAncestor(s.graph, s.tip, r.head); }
  }

  /**
   The sync screen as a whole, from any state in which no merge is open and while nobody else
   pushes: the user is asked exactly if a tracked file and the remote branch have both changed
   a path, or some path cannot be joined, and else the join of all paths is published.
   */
  lemma SyncExactly(sha: Hasher, s: Server, ss: Session, left: Tree, p: Path)
    requires SessionHolds(s, ss) && ss.phase == Previewing && ss.repo.mergeHead.None?
    requires s.Valid() && ss.repo.Valid(s.graph)
    ensures var r := ss.repo; var (server, end) := Play(sha, s, ss, [Leg(None, Accept)] + Commands(left));
      if Throws(sha, s, r) || MergeBase(s.graph, r.head, s.tip).None? then end.phase == Failed
      else if Overlaps(s, r) || exists q :: JoinedAt(sha, s, r, q) == K.Open then
        && end.phase == UnderReview && server.tip == s.tip && K.StandingOf(end.repo, p) == JoinedAt(sha, s, r, p)
        && (Overlaps(s, r) ==> ReviewOpened(sha, s, r, p, server, end) && end.repo.mergeHead == Some(s.tip))
      else
        && end.phase == Finished && server.tip == end.repo.head && server.tip < |server.graph|
        && JoinedAt(sha, s, r, p) == K.Settled(Get(server.graph[server.tip].tree, p))
        && (end.version != "" ==> VersionTag(end) in server.tags)
  {
    PreviewWorks(sha, s, ss);
    PlayCommand(sha, s, ss, Accept, Commands(left));
    if TagsAgree(s, ss.repo) && MergeBase(s.graph, ss.repo.head, s.tip).Some? {
      FetchedTwice(sha, s, ss.repo);
      var fetching := Command(sha, s, ss, Accept).1;
      if Overlaps(s, ss.repo) {
        ReviewedSyncExactly(sha, s, fetching, left, p);
        OverlapIsBehind(s, ss.repo);
      } else {
        DirectSyncExactly(sha, s, fetching, left, p);
      }
    }
  }

  // ---------------------------------------------------------------- from the review on

  lemma ConcludeWorks(sha: Hasher, s: Server, ss: Session, p: Path)
    requires SessionHolds(s, ss) && ss.phase == Concluding && s.Valid() && ss.repo.Valid(s.graph)
    requires ss.repo.unmerged == map[] && ss.repo.mergeHead == Some(s.tip) && Within(s.tags, ss.repo.tags)
    ensures var (server, next) := Command(sha, s, ss, Accept);
      && server.Valid() && next.phase == Pushing && next.repo.Valid(server.graph) && next.version != ""
      && server.tip == s.tip && Reaches(server.graph, server.tip, next.repo.head) && Within(server.tags, next.repo.tags)
      && SameButHash(server.graph[next.repo.head].tree, ss.repo.worktree)
      && Certified(sha, server.graph[next.repo.head].tree, next.version)
  {
    FinalizeFacts(sha, s, ss.repo, ss.version);
    hide SessionHolds, FinalizeMerge, Reaches, Certified, SameButHash;
  }

  /** Accepting a review with nothing left in conflict publishes it, with a hash file of its own. */
  lemma ReviewPublishes(sha: Hasher, s: Server, ss: Session, p: Path)
    requires SessionHolds(s, ss) && ss.phase == UnderReview && s.Valid() && ss.repo.Valid(s.graph)
    requires ss.repo.unmerged == map[] && ss.repo.mergeHead == Some(s.tip) && Within(s.tags, ss.repo.tags) && p != HASH_FILE
    ensures Step(sha, s, ss, Accept) == (s, ss.(phase := Concluding)) && SessionHolds(s, ss.(phase := Concluding))
    ensures var (server, end) := Play(sha, s, ss.(phase := Concluding), Conclusion());
      && end.phase == Finished && server.tip == end.repo.head && server.tip < |server.graph|
      && K.StandingOf(ss.repo, p) == K.Settled(Get(server.graph[server.tip].tree, p))
      && VersionTag(end) in server.tags && Certified(sha, server.graph[server.tip].tree, end.version)
  {
    var concluding := ss.(phase := Concluding);
    EveryStepIsFair(sha, s, ss, Accept);
    K.AcceptKeeps(sha, s, ss);
    K.SettledIsWorktree(s.graph, ss.repo, p);
    ConcludeWorks(sha, s, concluding, p);
    hide SessionHolds, Play, Command, Step, Reaches, Certified, SameButHash, VersionTag;
    var (server, next) := Command(sha, s, concluding, Accept);
    PlayCommand(sha, s, concluding, Accept, [Leg(None, Accept)] + ([Leg(None, Accept)] + [Leg(None, Accept)]));
    PushesAndTags(sha, server, next);
    SameButHashAt(server.graph[next.repo.head].tree, ss.repo.worktree, p);
  }

  function Conclusion(): seq<Leg> { [Leg(None, Accept)] + ([Leg(None, Accept)] + ([Leg(None, Accept)] + [Leg(None, Accept)])) }

  lemma {:induction false} KeysChangeTheRepoOnly(sha: Hasher, s: Server, ss: Session, keys: seq<Leg>)
    requires SessionHolds(s, ss) && ss.phase == UnderReview && forall i :: 0 <= i < |keys| ==> keys[i].gap == None
    ensures var (reviewed, end) := K.Press(sha, s, ss, keys);
      end.phase == UnderReview ==> reviewed == s && end == ss.(repo := end.repo) && SessionHolds(s, end) && end.repo.mergeHead == ss.repo.mergeHead
    decreases |keys|
  {
    if keys != [] {
      K.KeyStep(sha, s, ss, keys[0].input);
      EveryStepIsFair(sha, s, ss, keys[0].input);
      hide SessionHolds, Step, Reaches;
      var (server, next) := Step(sha, s, ss, keys[0].input);
      if next.phase == UnderReview { KeysChangeTheRepoOnly(sha, server, next, keys[1..]); }
    }
  }

  /**
   A review to its end, nobody else pushing: with any keys that leave nothing in conflict, the
   published tree has at every path what the keys have come to, hash file aside, and where
   there was no key what both sides were joined to.
   */
  lemma {:induction false} ReviewPublishesItsKeys(sha: Hasher, s: Server, ss: Session, keys: seq<Leg>, p: Path)
    requires SessionHolds(s, ss) && ss.phase == UnderReview && s.Valid() && ss.repo.Valid(s.graph)
    requires ss.repo.mergeHead == Some(s.tip) && Within(s.tags, ss.repo.tags) && p != HASH_FILE
    requires forall i :: 0 <= i < |keys| ==> keys[i].gap == None
    ensures var end := K.Press(sha, s, ss, keys).1;
      end.phase == UnderReview && end.repo.unmerged == map[] ==>
        && SessionHolds(s, end.(phase := Concluding)) && Step(sha, s, end, Accept) == (s, end.(phase := Concluding))
        && var (server, last) := Play(sha, s, end.(phase := Concluding), Conclusion());
           && last.phase == Finished && server.tip == last.repo.head && server.tip < |server.graph|
           && K.PressedAll(K.StandingOf(ss.repo, p), keys, p, Get(s.graph[ss.repo.head].tree, p), Get(s.graph[ss.repo.origin].tree, p))
              == K.Settled(Get(server.graph[server.tip].tree, p))
  {
    KeysChangeTheRepoOnly(sha, s, ss, keys);
    K.KeysStand(sha, s, ss, keys, p);
    var end := K.Press(sha, s, ss, keys).1;
    if end.phase == UnderReview && end.repo.unmerged == map[] {
      assert s.Valid() && end.repo.Valid(s.graph) && end.repo.tags == ss.repo.tags;
      hide SessionHolds, K.Press, K.PressedAll, K.StandingOf, Play, Conclusion, Step, Reaches, Within;
      ReviewPublishes(sha, s, end, p);
    }
  }

  /**
   A sync with a review from its first command to its last, nobody else pushing. In terms of
   the state before it: once the keys leave nothing in conflict and the review is accepted,
   the remote branch has at every path, hash file aside, what the keys have made of the join
   of the two sides, a side being the client's own file or the remote one.
   */
  lemma {:induction false} SyncWithReview(sha: Hasher, s: Server, ss: Session, left: Tree, keys: seq<Leg>, p: Path)
    requires SessionHolds(s, ss) && ss.phase == Previewing && ss.repo.mergeHead.None? && p != HASH_FILE
    requires s.Valid() && ss.repo.Valid(s.graph) && !Throws(sha, s, ss.repo) && Overlaps(s, ss.repo)
    requires forall i :: 0 <= i < |keys| ==> keys[i].gap == None
    ensures var (server, review) := Play(sha, s, ss, [Leg(None, Accept)] + Commands(left));
      && SessionHolds(server, review) && review.phase == UnderReview
      && var end := K.Press(sha, server, review, keys).1;
         end.phase == UnderReview && end.repo.unmerged == map[] ==>
           && SessionHolds(server, end.(phase := Concluding))
           && Step(sha, server, end, Accept) == (server, end.(phase := Concluding))
           && var (published, last) := Play(sha, server, end.(phase := Concluding), Conclusion());
              && last.phase == Finished && published.tip == last.repo.head && published.tip < |published.graph|
              && K.PressedAll(JoinedAt(sha, s, ss.repo, p), keys, p, Get(ss.repo.worktree, p), Get(s.graph[s.tip].tree, p))
                 == K.Settled(Get(published.graph[published.tip].tree, p))
  {
    SyncExactly(sha, s, ss, left, p);
    var (server, review) := Play(sha, s, ss, [Leg(None, Accept)] + Commands(left));
    assert ReviewOpened(sha, s, ss.repo, p, server, review) && review.repo.mergeHead == Some(s.tip);
    assert Get(server.graph[review.repo.head].tree, p) == Get(ss.repo.worktree, p);
    hide SessionHolds, Play, Commands, Conclusion, JoinedAt, K.Press, K.PressedAll, K.StandingOf, Step, Reaches, Overlaps, Throws, Within;
    ReviewPublishesItsKeys(sha, server, review, keys, p);
  }
}
