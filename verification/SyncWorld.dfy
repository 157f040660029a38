/**
 Any number of clients syncing with one remote, one git command at a time, in any order.
 A session is one run of the sync screen: preview, then either the direct path (commit,
 pull, push, tag) or the reviewed merge (commit, merge, review, conclude, push, tag).
 Every command may break off, before or after it has taken effect.
 */
module SyncWorld {
  import opened Options
  import opened StoreManifest
  import opened StoreVersion
  import opened GitModel
  import opened SyncProtocol

  datatype Phase =
    | Previewing | Fetching | Staging | Tracking
    | Pulling | Merging | UnderReview | Concluding
    | Pushing | Tagging | TagPushing
    | Finished     // everything pushed
    | Unpublished  // accepted a review when there was nothing to merge: nothing was pushed
    | Cancelled    // a merge was given up
    | Dismissed    // a review was left when there was no merge to give up
    | Failed       // an exception reached the screen

  /**
   One client's sync. `start` is its repository when it began, `staged` the commit that
   holds its local content, `prepared` its HEAD before merging, `replaced` the remote
   tip that its push moved on, `seen` the server's tags and `known` its own after the
   fetch that its version was chosen by.
   */
  datatype Session = Session(
    phase: Phase, reviewed: bool, repo: Repo, version: string,
    start: Repo, staged: Option<nat>, prepared: nat, replaced: nat,
    seen: map<string, nat>, known: map<string, nat>)

  /** What a command that was broken off may leave behind, apart from commits and tags: anything. */
  datatype Wreck = Wreck(index: Tree, unmerged: map<Path, Sides>, worktree: Tree, merging: bool)

  /**
   What the environment decides in a step: text git leaves in conflicted files, a key in the
   review, or that the command breaks off. A command that is `done` has taken effect, here or
   on the server, although the program never hears of it.
   */
  datatype Input =
    | Go(left: Tree)
    | Keep(path: Path, local: bool) | Edit(path: Path, content: Option<string>) | Accept | Quit
    | Break(done: bool, wreck: Option<Wreck>)

  ghost function Review(g: Graph, ss: Session, input: Input): Session
    requires ss.repo.Valid(g)
  {
    match input
    case Go(_) => ss
    case Break(_, _) => ss
    case Keep(path, local) =>
      (match ResolveConflict(g, ss.repo, path, local)
       case None => ss.(phase := Failed)
       case Some(r) => ss.(repo := r))
    case Edit(path, content) =>
      (match StageFile(ss.repo.(worktree := Put(ss.repo.worktree, path, content)), path)
       case None => ss.(phase := Failed)
       case Some(r) => ss.(repo := r))
    case Accept => if ss.repo.unmerged != map[] then ss else ss.(phase := Concluding)
    case Quit =>
      if ss.repo.mergeHead.None? then ss.(phase := Dismissed)
      else match AbortMerge(g, ss.repo)
        case None => ss.(phase := Failed)
        case Some(r) => ss.(repo := r, phase := Cancelled)
  }

  /** `left` is what git writes into conflicted files; a key pressed elsewhere means nothing here. */
  function Left(input: Input): Tree { if input.Go? then input.left else map[] }

  ghost function PreviewStep(s: Server, ss: Session): Session
    requires s.Valid() && ss.repo.Valid(s.graph)
  {
    if !TagsAgree(s, ss.repo) then ss.(phase := Failed, repo := Fetched(s, ss.repo))
    else match BuildPreview(s.graph, Fetched(s, ss.repo), true)
      case None => ss.(phase := Failed, repo := Fetched(s, ss.repo))
      case Some(p) => ss.(phase := Fetching, repo := Fetched(s, ss.repo), reviewed := p.local * p.remote != {})
  }

  function FetchStep(s: Server, ss: Session): Session {
    var fetched := Fetched(s, ss.repo);
    if TagsAgree(s, ss.repo) then ss.(phase := Staging, repo := fetched, seen := s.tags, known := fetched.tags)
    else ss.(phase := Failed, repo := fetched)
  }

  ghost function TrackStep(sha: Hasher, s: Server, ss: Session): (Server, Session)
    requires s.Valid() && ss.repo.Valid(s.graph)
  {
    match TrackVersion(sha, s, ss.repo, ss.version)
    case TrackRefused => (s, ss.(phase := Failed))
    case Tracked(server, repo, version) =>
      if ss.reviewed && BuildPreview(server.graph, repo, false).None? then (server, ss.(phase := Failed, repo := repo))
      else (server, ss.(phase := if ss.reviewed then Merging else Pulling,
                        repo := repo, version := version, prepared := repo.head))
  }

  ghost function PullStep(s: Server, ss: Session, left: Tree): (Server, Session)
    requires s.Valid() && ss.repo.Valid(s.graph)
  {
    match Pull(s, ss.repo, left)
    case PullFailed => (s, ss.(phase := Failed))
    case PullConflict(m) => (s, ss.(phase := UnderReview, repo := m))
    case Pulled(server, repo) => (server, ss.(phase := Pushing, repo := repo))
  }

  ghost function MergeStep(s: Server, ss: Session, left: Tree): Session
    requires s.Valid() && ss.repo.Valid(s.graph)
  {
    match StartMerge(s.graph, ss.repo, left)
    case None => ss.(phase := Failed)
    case Some(m) => ss.(phase := UnderReview, repo := m)
  }

  ghost function ConcludeStep(sha: Hasher, s: Server, ss: Session): (Server, Session)
    requires s.Valid() && ss.repo.Valid(s.graph)
  {
    match FinalizeMerge(sha, s, ss.repo, ss.version)
    case FinalizeRefused => (s, ss.(phase := Failed))
    case NothingToMerge => (s, ss.(phase := Unpublished))
    case MergeCommitted(server, repo, version) => (server, ss.(phase := Pushing, repo := repo, version := version))
  }

  ghost function PushStep(s: Server, ss: Session): (Server, Session)
    requires s.Valid() && ss.repo.Valid(s.graph)
  {
    if !PushAccepted(s, ss.repo) then (s, ss.(phase := Failed))
    else
      var (server, repo) := PushBranch(s, ss.repo);
      (server, ss.(phase := if ss.version == "" then Finished else Tagging, repo := repo, replaced := s.tip))
  }

  function VersionTag(ss: Session): string { "v" + ss.version }

  /** The commit that the session's version tag names: HEAD, unless there was such a tag already. */
  function TagTarget(ss: Session): nat {
    if VersionTag(ss) in ss.known then ss.known[VersionTag(ss)] else ss.repo.head
  }

  function TagStep(ss: Session): Session { ss.(phase := TagPushing, repo := TagLocally(ss.repo, VersionTag(ss))) }

  function PushTagStep(s: Server, ss: Session): (Server, Session)
    requires VersionTag(ss) in ss.repo.tags
  {
    if TagAccepted(s, ss.repo, VersionTag(ss)) then (PushTag(s, ss.repo, VersionTag(ss)), ss.(phase := Finished))
    else (s, ss.(phase := Failed))
  }

  /** The next git command of a session. */
  ghost function Command(sha: Hasher, s: Server, ss: Session, input: Input): (Server, Session)
    requires s.Valid() && ss.repo.Valid(s.graph)
  {
    match ss.phase
    case Previewing => (s, PreviewStep(s, ss))
    case Fetching => (s, FetchStep(s, ss))
    case Staging =>
      var st := StageAndCommit(sha, s, ss.repo);
      (st.server, ss.(phase := Tracking, repo := st.repo, version := st.version, staged := Some(st.repo.head)))
    case Tracking => TrackStep(sha, s, ss)
    case Pulling => PullStep(s, ss, Left(input))
    case Merging => (s, MergeStep(s, ss, Left(input)))
    case UnderReview => (s, Review(s.graph, ss, input))
    case Concluding => ConcludeStep(sha, s, ss)
    case Pushing => PushStep(s, ss)
    case Tagging => (s, TagStep(ss))
    case TagPushing => if VersionTag(ss) in ss.repo.tags then PushTagStep(s, ss) else (s, ss.(phase := Failed))
    case _ => (s, ss)
  }

  /** Nothing is left to do but to start again. */
  predicate Ended(p: Phase) { p == Finished || p == Unpublished || p == Cancelled || p == Dismissed || p == Failed }

  function Wrecked(r: Repo, wreck: Option<Wreck>): Repo {
    if wreck.None? then r
    else
      var w := wreck.value;
      r.(index := w.index, unmerged := w.unmerged, worktree := w.worktree,
         mergeHead := if w.merging then Some(r.origin) else r.mergeHead)
  }

  function Scraps(wreck: Option<Wreck>): Input { Go(if wreck.Some? then wreck.value.worktree else map[]) }

  /** A push that was done has moved the server, but not what the client knows of it. */
  ghost function Broken(sha: Hasher, s: Server, ss: Session, done: bool, wreck: Option<Wreck>): (Server, Session)
    requires s.Valid() && ss.repo.Valid(s.graph)
  {
    if !done then (s, ss.(phase := Failed, repo := Wrecked(ss.repo, wreck)))
    else
      var (server, next) := Command(sha, s, ss, Scraps(wreck));
      (server, next.(phase := Failed, repo := if ss.phase == Pushing then ss.repo else next.repo))
  }

  ghost function Step(sha: Hasher, s: Server, ss: Session, input: Input): (Server, Session)
    requires s.Valid() && ss.repo.Valid(s.graph)
  {
    if input.Break? && !Ended(ss.phase) then Broken(sha, s, ss, input.done, input.wreck)
    else Command(sha, s, ss, input)
  }

  // ---------------------------------------------------------------- what holds in every phase

  predicate BeforeStaging(p: Phase) { p == Previewing || p == Fetching || p == Staging }

  predicate Published(p: Phase) { p == Tagging || p == TagPushing || p == Finished }

  ghost predicate ContentKept(g: Graph, ss: Session)
    requires ss.repo.Valid(g)
  {
    && ss.start.head < |g| && Reaches(g, ss.start.head, ss.repo.head)
    && (ss.staged.Some? ==>
          && ss.staged.value < |g| && Reaches(g, ss.staged.value, ss.repo.head)
          && SameButHash(g[ss.staged.value].tree, ss.start.worktree))
    && (ss.staged.None? ==> ss.repo.head == ss.start.head)
    && (BeforeStaging(ss.phase) ==> ss.repo.worktree == ss.start.worktree)
    && (ss.staged.None? ==> BeforeStaging(ss.phase) || ss.phase == Failed)
    && (BeforeStaging(ss.phase) ==> ss.staged.None?)
  }

  ghost predicate PhaseHolds(s: Server, ss: Session)
    requires s.Valid() && ss.repo.Valid(s.graph)
  {
    var r, g := ss.repo, s.graph;
    && (ss.phase == Staging || ss.phase == Tracking ==> Reaches(g, r.origin, s.tip))
    && (ss.phase == Tracking || ss.phase == Pulling || ss.phase == Merging ==> r.Clean(g))
    && (ss.phase == Pulling || ss.phase == Merging || ss.phase == UnderReview || ss.phase == Cancelled ==> ss.prepared == r.head)
    && (ss.phase == UnderReview ==> Reviewing(g, r))
    && (ss.phase == Concluding ==> r.unmerged == map[])
    && (ss.phase == Cancelled ==> r.Clean(g) && r.mergeHead.None?)
    && (ss.phase == Pulling || ss.phase == Pushing ==> ss.version == "" ==> Reaches(g, r.head, s.tip))
    && (ss.phase == Tagging || ss.phase == TagPushing ==> ss.version != "")
    && (ss.phase == Pushing || Published(ss.phase) ==> r.Clean(g) && r.mergeHead.None?)
    && (Published(ss.phase) ==>
          && Reaches(g, ss.replaced, r.head) && Reaches(g, r.head, s.tip)
          && (ss.version == "" ==> ss.replaced == r.head))
  }

  /** After the fetch that decides the version, and before the tag is made. */
  predicate Untagged(p: Phase) {
    p == Staging || p == Tracking || p == Pulling || p == Merging || p == UnderReview || p == Concluding || p == Pushing || p == Tagging
  }

  predicate Within(a: map<string, nat>, b: map<string, nat>) { forall t :: t in a ==> t in b && b[t] == a[t] }

  /** A version is next above all tags known when it was chosen, or a tag on the staged commit already carries it. */
  ghost predicate VersionIsChosen(ss: Session) {
    || ss.version == NextStoreVersion(ss.known.Keys)
    || (ss.staged.Some? && VersionTag(ss) in ss.known && ss.known[VersionTag(ss)] == ss.staged.value)
  }

  ghost predicate TagsHold(s: Server, ss: Session) {
    && (Untagged(ss.phase) ==> ss.repo.tags == ss.known && Within(ss.seen, s.tags) && Within(ss.seen, ss.known))
    && (ss.phase == TagPushing ==>
          && ss.repo.tags == ss.known[VersionTag(ss) := TagTarget(ss)] && Within(ss.seen, s.tags) && Within(ss.seen, ss.known))
    && (BeforeStaging(ss.phase) ==> ss.version == "")
    && (ss.phase == Tracking ==> ss.staged == Some(ss.repo.head))
    && ((Untagged(ss.phase) || ss.phase == TagPushing || ss.phase == Finished) && ss.version != "" ==> VersionIsChosen(ss))
    && (ss.phase == Finished && ss.version != "" ==> VersionTag(ss) in s.tags && s.tags[VersionTag(ss)] == TagTarget(ss))
  }

  ghost predicate SessionHolds(s: Server, ss: Session) {
    s.Valid() && ss.repo.Valid(s.graph) && ContentKept(s.graph, ss) && PhaseHolds(s, ss) && TagsHold(s, ss)
  }

  /** What other clients do in between cannot invalidate a session. */
  lemma SessionIsStable(s: Server, later: Server, ss: Session)
    requires SessionHolds(s, ss) && s.Forward(later)
    ensures SessionHolds(later, ss)
  {
    var g, h, r := s.graph, later.graph, ss.repo;
    ReachesIsStable(g, h, ss.start.head, r.head);
    ReachesIsStable(g, h, ss.replaced, r.head);
    if ss.staged.Some? { ReachesIsStable(g, h, ss.staged.value, r.head); }
    ReachLater(s, later, r.origin);
    ReachLater(s, later, r.head);
  }

  lemma ReachLater(s: Server, later: Server, c: nat)
    requires s.Forward(later)
    ensures Reaches(s.graph, c, s.tip) ==> Reaches(later.graph, c, later.tip)
  {
    ReachesIsStable(s.graph, later.graph, c, s.tip);
    if Reaches(s.graph, c, s.tip) {
      ReachesIsEarlier(s.graph, c, s.tip);
      ReachesIsTransitive(later.graph, c, s.tip, later.tip);
    }
  }

  // ---------------------------------------------------------------- one step

  /** What a step of one session may do to the server and to itself. */
  ghost predicate Fair(s: Server, ss: Session, server: Server, next: Session) {
    && s.Forward(server) && SessionHolds(server, next)
    && next.start == ss.start && Reaches(server.graph, ss.repo.head, next.repo.head)
    && (Published(next.phase) && !Published(ss.phase) ==> server.tip == next.repo.head && next.replaced == s.tip)
    && (Published(ss.phase) && Published(next.phase) ==> next.repo.head == ss.repo.head && next.replaced == ss.replaced)
    && (server.tip == s.tip || server.tip == next.repo.head)
  }

  /** Giving up never breaks anything. */
  lemma FailingIsFair(s: Server, ss: Session)
    requires SessionHolds(s, ss)
    ensures Fair(s, ss, s, ss.(phase := Failed))
  {
    ForwardIsReflexive(s);
  }

  /** Fetching moves nothing but the remote-tracking branch and the known tags. */
  lemma FetchedIsFair(s: Server, ss: Session, next: Session)
    requires SessionHolds(s, ss) && (ss.phase == Previewing || ss.phase == Fetching)
    requires next.repo == Fetched(s, ss.repo) && next.start == ss.start && next.staged == ss.staged && next.version == ""
    requires next.phase == Fetching || next.phase == Failed || (next.phase == Staging && TagsHold(s, next))
    ensures Fair(s, ss, s, next)
  {
    ForwardIsReflexive(s);
    assert Reaches(s.graph, ss.repo.head, ss.repo.head) && Reaches(s.graph, s.tip, s.tip);
    hide Reaches, Reviewing, VersionIsChosen;
  }

  lemma FetchIsFair(s: Server, ss: Session)
    requires SessionHolds(s, ss) && (ss.phase == Previewing || ss.phase == Fetching)
    ensures ss.phase == Previewing ==> Fair(s, ss, s, PreviewStep(s, ss))
    ensures ss.phase == Fetching ==> Fair(s, ss, s, FetchStep(s, ss))
  {
    if ss.phase == Previewing {
      FetchedIsFair(s, ss, PreviewStep(s, ss));
    } else {
      FetchedIsFair(s, ss, FetchStep(s, ss));
    }
  }

  lemma StageIsFair(sha: Hasher, s: Server, ss: Session)
    requires SessionHolds(s, ss) && ss.phase == Staging
    ensures var st := StageAndCommit(sha, s, ss.repo);
      Fair(s, ss, st.server, ss.(phase := Tracking, repo := st.repo, version := st.version, staged := Some(st.repo.head)))
  {
    var st := StageAndCommit(sha, s, ss.repo);
    StageFacts(sha, s, ss.repo);
    ReachLater(s, st.server, ss.repo.origin);
  }

  /** Moving HEAD to a descendant keeps what the session has committed. */
  lemma HeadMoves(s: Server, later: Server, ss: Session, next: Session)
    requires SessionHolds(s, ss) && s.Forward(later) && next.repo.Valid(later.graph)
    requires Reaches(later.graph, ss.repo.head, next.repo.head)
    requires next.start == ss.start && next.staged == ss.staged && ss.staged.Some? && !BeforeStaging(next.phase)
    ensures ContentKept(later.graph, next)
  {
    var head := next.repo.head;
    SessionIsStable(s, later, ss);
    ReachesIsTransitive(later.graph, ss.start.head, ss.repo.head, head);
    ReachesIsTransitive(later.graph, ss.staged.value, ss.repo.head, head);
  }

  /** Landing in a phase that works on a committed, clean or reviewed, repository. */
  lemma LandingIsFair(s: Server, ss: Session, server: Server, next: Session)
    requires SessionHolds(s, ss) && ss.staged.Some? && !Published(ss.phase)
    requires s.Forward(server) && server.tip == s.tip && next.repo.Valid(server.graph)
    requires Reaches(server.graph, ss.repo.head, next.repo.head)
    requires next.start == ss.start && next.staged == ss.staged && TagsHold(server, next)
    requires match next.phase
      case Pulling => next.repo.Clean(server.graph) && next.prepared == next.repo.head
                      && (next.version == "" ==> Reaches(server.graph, next.repo.head, server.tip))
      case Merging => next.repo.Clean(server.graph) && next.prepared == next.repo.head
      case UnderReview => Reviewing(server.graph, next.repo) && next.prepared == next.repo.head
      case Pushing =>
        next.repo.Clean(server.graph) && next.repo.mergeHead.None? && (next.version == "" ==> Reaches(server.graph, next.repo.head, server.tip))
      case Failed => true
      case _ => false
    ensures Fair(s, ss, server, next)
  {
    HeadMoves(s, server, ss, next);
  }

  lemma TrackIsFair(sha: Hasher, s: Server, ss: Session)
    requires SessionHolds(s, ss) && ss.phase == Tracking
    ensures var (server, next) := TrackStep(sha, s, ss); Fair(s, ss, server, next)
  {
    FailingIsFair(s, ss);
    var tr := TrackVersion(sha, s, ss.repo, ss.version);
    if tr.Tracked? {
      TrackedFacts(sha, s, ss);
      hide SessionHolds, Fair, TrackVersion;
      TrackedLands(s, ss, tr, Merging);
      TrackedLands(s, ss, tr, Pulling);
      TrackedFails(s, ss, tr);
    }
  }

  /** What version tracking leaves, as far as its session goes. */
  ghost predicate TracksAlong(s: Server, ss: Session, tr: Tracked) {
    && tr.Tracked? && s.Forward(tr.server) && tr.server.tip == s.tip && tr.server.tags == s.tags
    && tr.repo.Valid(tr.server.graph) && ss.repo.head < |tr.server.graph| && tr.repo.tags == ss.repo.tags
    && Reaches(tr.server.graph, ss.repo.head, tr.repo.head)
    && tr.repo.Clean(tr.server.graph)
    && (tr.version == "" ==> Reaches(tr.server.graph, tr.repo.head, s.tip))
    && (tr.version != "" ==> VersionIsChosen(ss.(version := tr.version)))
  }

  lemma TrackedFacts(sha: Hasher, s: Server, ss: Session)
    requires SessionHolds(s, ss) && ss.phase == Tracking && TrackVersion(sha, s, ss.repo, ss.version).Tracked?
    ensures TracksAlong(s, ss, TrackVersion(sha, s, ss.repo, ss.version))
  {
    var tr := TrackVersion(sha, s, ss.repo, ss.version);
    assert ss.staged == Some(ss.repo.head) && ss.repo.tags == ss.known;
    TrackFacts(sha, s, ss.repo, ss.version);
    TrackChooses(sha, s, ss.repo, ss.version);
    hide TrackVersion;
    if tr.version == "" { ReachesIsTransitive(s.graph, tr.repo.head, tr.repo.origin, s.tip); }
  }

  lemma TrackedLands(s: Server, ss: Session, tr: Tracked, phase: Phase)
    requires SessionHolds(s, ss) && ss.phase == Tracking && TracksAlong(s, ss, tr) && (phase == Merging || phase == Pulling)
    ensures Fair(s, ss, tr.server, ss.(phase := phase, repo := tr.repo, version := tr.version, prepared := tr.repo.head))
  {
    hide Reaches;
    LandingIsFair(s, ss, tr.server, ss.(phase := phase, repo := tr.repo, version := tr.version, prepared := tr.repo.head));
  }

  lemma TrackedFails(s: Server, ss: Session, tr: Tracked)
    requires SessionHolds(s, ss) && ss.phase == Tracking && TracksAlong(s, ss, tr)
    ensures Fair(s, ss, tr.server, ss.(phase := Failed, repo := tr.repo))
  {
    hide Reaches;
    LandingIsFair(s, ss, tr.server, ss.(phase := Failed, repo := tr.repo));
  }

  /** What a pull may do: move the head along, or open a review on the spot. */
  ghost predicate PullsAlong(s: Server, r: Repo, p: PullResult)
    requires s.Valid() && r.Valid(s.graph)
  {
    && (p.Pulled? ==> s.Forward(p.server) && p.server.tip == s.tip && p.repo.Valid(p.server.graph)
                      && Reaches(p.server.graph, r.head, p.repo.head)
                      && p.repo.Clean(p.server.graph) && p.repo.mergeHead.None?
                      && p.server.tags == s.tags && p.repo.tags == r.tags
                      && (Reaches(s.graph, r.head, s.tip) ==> p.repo.head == s.tip && p.server == s))
    && (p.PullConflict? ==> Reviewing(s.graph, p.repo) && p.repo.head == r.head && p.repo.tags == r.tags && !Reaches(s.graph, r.head, s.tip))
  }

  lemma PullBackwardsFacts(s: Server, r: Repo, left: Tree)
    requires s.Valid() && r.Valid(s.graph) && r.Clean(s.graph) && Reaches(s.graph, s.tip, r.head)
    ensures PullsAlong(s, r, Pull(s, r, left))
  {
    ForwardIsReflexive(s);
    ReachesIsEarlier(s.graph, s.tip, r.head);
    if Reaches(s.graph, r.head, s.tip) { ReachesIsEarlier(s.graph, r.head, s.tip); }
  }

  lemma PullForwardsFacts(s: Server, r: Repo, left: Tree)
    requires s.Valid() && r.Valid(s.graph) && r.Clean(s.graph) && !Reaches(s.graph, s.tip, r.head) && Reaches(s.graph, r.head, s.tip)
    ensures PullsAlong(s, r, Pull(s, r, left))
  {
    ForwardIsReflexive(s);
  }

  /** A merge without conflicts, committed, leaves the repository clean. */
  lemma CommittedMerge(s: Server, m: Repo)
    requires s.Valid() && Reviewing(s.graph, m) && m.unmerged == map[]
    ensures var (server, repo) := MakeCommit(s, m);
      && s.Forward(server) && server.tip == s.tip && server.tags == s.tags && repo.Valid(server.graph) && repo.tags == m.tags
      && Reaches(server.graph, m.head, repo.head) && repo.Clean(server.graph) && repo.mergeHead.None?
  {
    MakeCommitFacts(s, m);
    hide MakeCommit, Reaches, SameHistory;
    SameTree(m.worktree, m.index);
  }

  lemma MergeKeepsTags(g: Graph, r: Repo, base: nat, theirs: nat, left: Tree)
    requires r.Valid(g) && base < |g| && theirs < |g|
    ensures MergeInto(g, r, base, theirs, left).tags == r.tags
  {
  }

  lemma PullMergeFacts(s: Server, r: Repo, left: Tree)
    requires s.Valid() && r.Valid(s.graph) && r.Clean(s.graph) && !Reaches(s.graph, s.tip, r.head) && !Reaches(s.graph, r.head, s.tip)
    ensures PullsAlong(s, r, Pull(s, r, left))
  {
    hide MergeInto, MakeCommit, Reaches, MergeBaseBelow, Reviewing;
    var f := r.(origin := s.tip);
    var base := MergeBase(s.graph, r.head, s.tip);
    if base.Some? && r.mergeHead.None? {
      var m := MergeInto(s.graph, f, base.value, s.tip, left);
      MergeOpensReview(s.graph, f, base.value, left);
      assert m.tags == r.tags by { MergeKeepsTags(s.graph, f, base.value, s.tip, left); }
      if m.unmerged == map[] { CommittedMerge(s, m); }
    }
  }

  lemma PullFacts(s: Server, r: Repo, left: Tree)
    requires s.Valid() && r.Valid(s.graph) && r.Clean(s.graph)
    ensures PullsAlong(s, r, Pull(s, r, left))
  {
    if Reaches(s.graph, s.tip, r.head) {
      PullBackwardsFacts(s, r, left);
    } else if Reaches(s.graph, r.head, s.tip) {
      PullForwardsFacts(s, r, left);
    } else {
      PullMergeFacts(s, r, left);
    }
  }

  lemma PullIsFair(s: Server, ss: Session, left: Tree)
    requires SessionHolds(s, ss) && ss.phase == Pulling
    ensures var (server, next) := PullStep(s, ss, left); Fair(s, ss, server, next)
  {
    FailingIsFair(s, ss);
    PullFacts(s, ss.repo, left);
    var (server, next) := PullStep(s, ss, left);
    if next.phase != Failed {
      PulledIsFair(s, ss, Pull(s, ss.repo, left), server, next);
    }
  }

  lemma PulledIsFair(s: Server, ss: Session, p: PullResult, server: Server, next: Session)
    requires SessionHolds(s, ss) && ss.phase == Pulling && PullsAlong(s, ss.repo, p)
    requires match p
      case PullFailed => false
      case PullConflict(m) => server == s && next == ss.(phase := UnderReview, repo := m)
      case Pulled(server2, repo) => server == server2 && next == ss.(phase := Pushing, repo := repo)
    ensures Fair(s, ss, server, next)
  {
    ForwardIsReflexive(s);
    hide Reaches, Reviewing, VersionIsChosen, ContentKept;
    LandingIsFair(s, ss, server, next);
  }

  lemma StartMergeOpensReview(g: Graph, r: Repo, left: Tree)
    requires r.Valid(g) && r.Clean(g) && StartMerge(g, r, left).Some?
    ensures var m := StartMerge(g, r, left).value; Reviewing(g, m) && m.head == r.head && m.tags == r.tags
  {
    var base := MergeBase(g, r.head, r.origin);
    if base.Some? { MergeOpensReview(g, r, base.value, left); }
  }

  lemma MergeIsFair(s: Server, ss: Session, left: Tree)
    requires SessionHolds(s, ss) && ss.phase == Merging
    ensures Fair(s, ss, s, MergeStep(s, ss, left))
  {
    FailingIsFair(s, ss);
    ForwardIsReflexive(s);
    var m := StartMerge(s.graph, ss.repo, left);
    if m.Some? {
      StartMergeOpensReview(s.graph, ss.repo, left);
      LandingIsFair(s, ss, s, ss.(phase := UnderReview, repo := m.value));
    }
  }

  lemma ReviewIsFair(s: Server, ss: Session, input: Input)
    requires SessionHolds(s, ss) && ss.phase == UnderReview
    ensures Fair(s, ss, s, Review(s.graph, ss, input))
  {
    AcceptingIsFair(s, ss);
    hide SessionHolds, Fair;
    match input
    case Keep(path, local) => KeepIsFair(s, ss, path, local);
    case Edit(path, content) => EditIsFair(s, ss, path, content);
    case Quit => QuitIsFair(s, ss);
    case _ =>
  }

  lemma AcceptingIsFair(s: Server, ss: Session)
    requires SessionHolds(s, ss) && ss.phase == UnderReview
    ensures Fair(s, ss, s, ss) && (ss.repo.unmerged == map[] ==> Fair(s, ss, s, ss.(phase := Concluding)))
  {
    ForwardIsReflexive(s);
    assert Reaches(s.graph, ss.repo.head, ss.repo.head);
    hide Reaches, VersionIsChosen;
  }

  lemma StillReviewing(s: Server, ss: Session, repo: Repo)
    requires SessionHolds(s, ss) && ss.phase == UnderReview && Reviewing(s.graph, repo) && repo.head == ss.repo.head && repo.tags == ss.repo.tags
    ensures Fair(s, ss, s, ss.(repo := repo))
  {
    ForwardIsReflexive(s);
    LandingIsFair(s, ss, s, ss.(repo := repo));
  }

  lemma KeepIsFair(s: Server, ss: Session, path: Path, local: bool)
    requires SessionHolds(s, ss) && ss.phase == UnderReview
    ensures Fair(s, ss, s, Review(s.graph, ss, Keep(path, local)))
  {
    FailingIsFair(s, ss);
    assert Reviewing(s.graph, ss.repo);
    hide SessionHolds, Fair, Reviewing, ResolveConflict;
    var kept := ResolveConflict(s.graph, ss.repo, path, local);
    if kept.Some? {
      ResolvingKeepsReview(s.graph, ss.repo, path, local);
      StillReviewing(s, ss, kept.value);
    }
  }

  lemma EditIsFair(s: Server, ss: Session, path: Path, content: Option<string>)
    requires SessionHolds(s, ss) && ss.phase == UnderReview
    ensures Fair(s, ss, s, Review(s.graph, ss, Edit(path, content)))
  {
    FailingIsFair(s, ss);
    assert Reviewing(s.graph, ss.repo);
    var r := ss.repo;
    var edited := r.(worktree := Put(r.worktree, path, content));
    if StageFile(edited, path).Some? {
      EditingKeepsReview(s.graph, r, path, content);
      hide SessionHolds, Fair, Reviewing, Settle;
      StillReviewing(s, ss, Settle(r, path, content));
    }
  }

  lemma QuitIsFair(s: Server, ss: Session)
    requires SessionHolds(s, ss) && ss.phase == UnderReview
    ensures Fair(s, ss, s, Review(s.graph, ss, Quit))
  {
    ForwardIsReflexive(s);
    if ss.repo.mergeHead.Some? {
      CancelRestoresCommit(s.graph, ss.repo);
      HeadMoves(s, s, ss, Review(s.graph, ss, Quit));
    }
  }

  lemma ConcludeIsFair(sha: Hasher, s: Server, ss: Session)
    requires SessionHolds(s, ss) && ss.phase == Concluding
    ensures var (server, next) := ConcludeStep(sha, s, ss); Fair(s, ss, server, next)
  {
    assert s.Valid() && ss.repo.Valid(s.graph) && ss.repo.unmerged == map[] && ss.repo.tags == ss.known;
    hide SessionHolds, Fair, Reaches;
    if ss.repo.mergeHead.Some? {
      FinalizeFacts(sha, s, ss.repo, ss.version);
      var f := FinalizeMerge(sha, s, ss.repo, ss.version);
      assert ss.version == "" ==> f.version == NextStoreVersion(ss.known.Keys);
      hide FinalizeMerge;
      ConcludedIsFair(s, ss, f);
    } else {
      UnpublishedIsFair(s, ss);
    }
  }

  lemma UnpublishedIsFair(s: Server, ss: Session)
    requires SessionHolds(s, ss) && ss.phase == Concluding
    ensures Fair(s, ss, s, ss.(phase := Unpublished))
  {
    ForwardIsReflexive(s);
    hide Reviewing, VersionIsChosen;
  }

  lemma ConcludedIsFair(s: Server, ss: Session, f: Finalized)
    requires SessionHolds(s, ss) && ss.phase == Concluding && f.MergeCommitted? && f.version != ""
    requires if ss.version != "" then f.version == ss.version else f.version == NextStoreVersion(ss.known.Keys)
    requires s.Forward(f.server) && f.server.tip == s.tip && f.server.tags == s.tags && f.repo.Valid(f.server.graph)
    requires f.repo.Clean(f.server.graph) && f.repo.mergeHead.None? && f.repo.tags == ss.repo.tags
    requires ss.repo.head < |f.server.graph| && Reaches(f.server.graph, ss.repo.head, f.repo.head)
    ensures Fair(s, ss, f.server, ss.(phase := Pushing, repo := f.repo, version := f.version))
  {
    hide Reaches;
    LandingIsFair(s, ss, f.server, ss.(phase := Pushing, repo := f.repo, version := f.version));
  }

  lemma PushIsFair(s: Server, ss: Session)
    requires SessionHolds(s, ss) && ss.phase == Pushing
    ensures var (server, next) := PushStep(s, ss); Fair(s, ss, server, next)
  {
    FailingIsFair(s, ss);
    if PushAccepted(s, ss.repo) {
      if ss.version == "" {
        ReachesIsEarlier(s.graph, s.tip, ss.repo.head);
        ReachesIsEarlier(s.graph, ss.repo.head, s.tip);
      }
      PushedIsFair(s, ss);
    }
  }

  lemma PushedIsFair(s: Server, ss: Session)
    requires SessionHolds(s, ss) && ss.phase == Pushing && PushAccepted(s, ss.repo)
    requires ss.version == "" ==> s.tip == ss.repo.head
    ensures var (server, next) := PushStep(s, ss); Fair(s, ss, server, next)
  {
    assert Reaches(s.graph, ss.repo.head, ss.repo.head);
    hide Reaches, VersionIsChosen, SameButHash, Reviewing;
  }

  lemma TagIsFair(s: Server, ss: Session)
    requires SessionHolds(s, ss) && ss.phase == Tagging
    ensures Fair(s, ss, s, TagStep(ss)) && TagStep(ss).repo == ss.repo.(tags := ss.repo.tags[VersionTag(ss) := TagTarget(ss)])
  {
    ForwardIsReflexive(s);
    var tag := VersionTag(ss);
    if tag in ss.repo.tags { assert ss.repo.tags[tag := ss.repo.tags[tag]] == ss.repo.tags; }
    hide Reaches, Reviewing;
    RetaggedHolds(s, ss, s, TagStep(ss));
  }

  /** A refused tag leaves the branch where the push put it. */
  lemma PushTagIsFair(s: Server, ss: Session)
    requires SessionHolds(s, ss) && ss.phase == TagPushing
    ensures var (server, next) := PushTagStep(s, ss); Fair(s, ss, server, next)
  {
    ForwardIsReflexive(s);
    PushTagExactly(s, ss);
    var (server, next) := PushTagStep(s, ss);
    assert s.Forward(server) by { hide Reaches; }
    hide PushTagStep;
    RetaggedHolds(s, ss, server, next);
  }

  lemma RetaggedTags(s: Server, ss: Session, server: Server, next: Session)
    requires TagsHold(s, ss) && (ss.phase == Tagging || ss.phase == TagPushing) && s.Forward(server)
    requires next == ss.(phase := next.phase, repo := next.repo) && next.repo.head == ss.repo.head
    requires next.phase == Failed || next.phase == Finished || (next.phase == TagPushing && ss.phase == Tagging)
    requires next.phase == Finished ==> VersionTag(ss) in server.tags && server.tags[VersionTag(ss)] == TagTarget(ss)
    requires next.phase == TagPushing ==> next.repo.tags == ss.known[VersionTag(ss) := TagTarget(ss)]
    requires ss.version != ""
    ensures TagsHold(server, next)
  {
    assert VersionIsChosen(next) && Within(s.tags, server.tags);
    assert VersionTag(next) == VersionTag(ss) && TagTarget(next) == TagTarget(ss);
    hide Reaches, VersionIsChosen, VersionTag, TagTarget;
  }

  lemma RetaggedHolds(s: Server, ss: Session, server: Server, next: Session)
    requires SessionHolds(s, ss) && (ss.phase == Tagging || ss.phase == TagPushing)
    requires s.Forward(server) && server.graph == s.graph && server.tip == s.tip
    requires next.repo == ss.repo.(tags := next.repo.tags) && next.repo.Valid(s.graph)
    requires next == ss.(phase := next.phase, repo := next.repo)
    requires next.phase == Failed || next.phase == Finished || (next.phase == TagPushing && ss.phase == Tagging)
    requires next.phase == Finished ==> VersionTag(ss) in server.tags && server.tags[VersionTag(ss)] == TagTarget(ss)
    requires next.phase == TagPushing ==> next.repo.tags == ss.known[VersionTag(ss) := TagTarget(ss)]
    ensures Fair(s, ss, server, next)
  {
    hide ContentKept, PhaseHolds, TagsHold, VersionTag, TagTarget;
    assert Reaches(s.graph, ss.repo.head, ss.repo.head);
    hide Reaches;
    RetaggedStands(s, ss, server, next);
    RetaggedTags(s, ss, server, next);
  }

  lemma RetaggedStands(s: Server, ss: Session, server: Server, next: Session)
    requires s.Valid() && ss.repo.Valid(s.graph) && ContentKept(s.graph, ss) && PhaseHolds(s, ss)
    requires ss.phase == Tagging || ss.phase == TagPushing
    requires server.Valid() && server.graph == s.graph && server.tip == s.tip
    requires next.repo == ss.repo.(tags := next.repo.tags) && next.repo.Valid(s.graph) && next == ss.(phase := next.phase, repo := next.repo)
    requires next.phase == Failed || next.phase == Finished || next.phase == TagPushing
    ensures ContentKept(server.graph, next) && PhaseHolds(server, next) && ss.version != ""
  {
    hide Reaches, Reviewing;
  }

  /**
   The server refuses a tag exactly if it has one of that name on another commit. Otherwise
   the tag is on the server and names its target.
   */
  lemma PushTagExactly(s: Server, ss: Session)
    requires TagsHold(s, ss) && ss.phase == TagPushing
    ensures var (server, next) := PushTagStep(s, ss); var tag := VersionTag(ss);
      if tag in s.tags && s.tags[tag] != TagTarget(ss) then server == s && next == ss.(phase := Failed)
      else server == s.(tags := s.tags[tag := TagTarget(ss)]) && next == ss.(phase := Finished)
  {
  }

  lemma StandingIsFair(s: Server, ss: Session)
    requires SessionHolds(s, ss)
    ensures Fair(s, ss, s, ss)
  {
    ForwardIsReflexive(s);
    assert Reaches(s.graph, ss.repo.head, ss.repo.head);
    hide SessionHolds;
  }

  lemma CommandIsFair(sha: Hasher, s: Server, ss: Session, input: Input)
    requires SessionHolds(s, ss)
    ensures var (server, next) := Command(sha, s, ss, input); Fair(s, ss, server, next)
  {
    FailingIsFair(s, ss);
    assert s.Valid() && ss.repo.Valid(s.graph);
    assert ss.phase == TagPushing ==> VersionTag(ss) in ss.repo.tags;
    hide SessionHolds, Fair, PreviewStep, FetchStep, StageAndCommit, TrackStep, PullStep, MergeStep, Review;
    hide ConcludeStep, PushStep, TagStep, PushTagStep;
    match ss.phase
    case Previewing => FetchIsFair(s, ss);
    case Fetching => FetchIsFair(s, ss);
    case Staging => StageIsFair(sha, s, ss);
    case Tracking => TrackIsFair(sha, s, ss);
    case Pulling => PullIsFair(s, ss, Left(input));
    case Merging => MergeIsFair(s, ss, Left(input));
    case UnderReview => ReviewIsFair(s, ss, input);
    case Concluding => ConcludeIsFair(sha, s, ss);
    case Pushing => PushIsFair(s, ss);
    case Tagging => TagIsFair(s, ss);
    case TagPushing => PushTagIsFair(s, ss);
    case _ => StandingIsFair(s, ss);
  }

  lemma WreckIsFair(s: Server, ss: Session, wreck: Option<Wreck>)
    requires SessionHolds(s, ss)
    ensures Fair(s, ss, s, ss.(phase := Failed, repo := Wrecked(ss.repo, wreck)))
  {
    ForwardIsReflexive(s);
    assert Reaches(s.graph, ss.repo.head, ss.repo.head);
    FailedHolds(s, ss, s, ss.(phase := Failed, repo := Wrecked(ss.repo, wreck)));
  }

  /** A failed session with the head, the tags and the commits it had. */
  lemma FailedHolds(s: Server, ss: Session, server: Server, next: Session)
    requires SessionHolds(s, ss) && s.Forward(server)
    requires next.phase == Failed && next.repo.Valid(server.graph) && next.repo.head == ss.repo.head
    requires next.start == ss.start && next.staged == ss.staged
    ensures SessionHolds(server, next)
  {
    SessionIsStable(s, server, ss);
    hide Reaches, Reviewing, VersionIsChosen;
    assert ContentKept(server.graph, next) by { hide PhaseHolds, TagsHold; }
    assert PhaseHolds(server, next) by { hide ContentKept, TagsHold; }
    hide ContentKept, PhaseHolds;
  }

  /** Failing after a step that was fair is fair as well. */
  lemma DoneButFailed(s: Server, ss: Session, server: Server, next: Session)
    requires SessionHolds(s, ss) && Fair(s, ss, server, next)
    ensures Fair(s, ss, server, next.(phase := Failed))
  {
    assert SessionHolds(server, next.(phase := Failed)) by { hide Reaches, Reviewing, VersionIsChosen; }
    hide SessionHolds, Reaches;
  }

  lemma PushedUnheard(s: Server, ss: Session)
    requires SessionHolds(s, ss) && ss.phase == Pushing
    ensures var (server, next) := PushStep(s, ss); Fair(s, ss, server, next.(phase := Failed, repo := ss.repo))
  {
    ForwardIsReflexive(s);
    PushIsFair(s, ss);
    var (server, next) := PushStep(s, ss);
    assert Reaches(server.graph, ss.repo.head, ss.repo.head);
    assert server.graph == s.graph && (server == s || server.tip == ss.repo.head);
    hide PushStep, Reaches;
    FailedHolds(s, ss, server, next.(phase := Failed, repo := ss.repo));
  }

  lemma BreakIsFair(sha: Hasher, s: Server, ss: Session, done: bool, wreck: Option<Wreck>)
    requires SessionHolds(s, ss)
    ensures var (server, next) := Broken(sha, s, ss, done, wreck); Fair(s, ss, server, next)
  {
    assert s.Valid() && ss.repo.Valid(s.graph);
    hide SessionHolds, Fair, Reaches;
    if !done {
      WreckIsFair(s, ss, wreck);
    } else if ss.phase == Pushing {
      assert Command(sha, s, ss, Scraps(wreck)) == PushStep(s, ss);
      hide Command, PushStep;
      PushedUnheard(s, ss);
    } else {
      hide Command;
      CommandIsFair(sha, s, ss, Scraps(wreck));
      var (server, next) := Command(sha, s, ss, Scraps(wreck));
      DoneButFailed(s, ss, server, next);
    }
  }

  /** One command of one client, whether it works, fails or breaks off. */
  lemma EveryStepIsFair(sha: Hasher, s: Server, ss: Session, input: Input)
    requires SessionHolds(s, ss)
    ensures var (server, next) := Step(sha, s, ss, input); Fair(s, ss, server, next)
  {
    hide Command, Broken, Fair, SessionHolds;
    if input.Break? && !Ended(ss.phase) {
      BreakIsFair(sha, s, ss, input.done, input.wreck);
    } else {
      CommandIsFair(sha, s, ss, input);
    }
  }

  // ---------------------------------------------------------------- one session from start to end

  /** One command, after whatever the others have pushed without force just before it. */
  datatype Leg = Leg(gap: Option<Server>, input: Input)

  predicate IsOver(p: Phase) { p == UnderReview || Ended(p) }

  function Interfered(s: Server, gap: Option<Server>): Server {
    if gap.Some? && s.Forward(gap.value) then gap.value else s
  }

  /** The commands of one session in a row; it ends early where the program returns, throws or asks its user. */
  ghost function Play(sha: Hasher, s: Server, ss: Session, legs: seq<Leg>): (Server, Session)
    requires SessionHolds(s, ss)
    decreases |legs|
  {
    if legs == [] || IsOver(ss.phase) then (s, ss)
    else
      var s1 := Interfered(s, legs[0].gap);
      GapHolds(s, legs[0].gap, ss);
      EveryStepIsFair(sha, s1, ss, legs[0].input);
      var (server, next) := Step(sha, s1, ss, legs[0].input);
      Play(sha, server, next, legs[1..])
  }

  lemma GapHolds(s: Server, gap: Option<Server>, ss: Session)
    requires SessionHolds(s, ss)
    ensures s.Forward(Interfered(s, gap)) && SessionHolds(Interfered(s, gap), ss)
  {
    ForwardIsReflexive(s);
    SessionIsStable(s, Interfered(s, gap), ss);
  }

  lemma PlayOn(sha: Hasher, s: Server, ss: Session, leg: Leg, legs: seq<Leg>)
    requires SessionHolds(s, ss) && !IsOver(ss.phase)
    ensures var s1 := Interfered(s, leg.gap);
      && s.Forward(s1) && SessionHolds(s1, ss)
      && var (server, next) := Step(sha, s1, ss, leg.input);
         SessionHolds(server, next) && Play(sha, s, ss, [leg] + legs) == Play(sha, server, next, legs)
  {
    GapHolds(s, leg.gap, ss);
    EveryStepIsFair(sha, Interfered(s, leg.gap), ss, leg.input);
    assert ([leg] + legs)[1..] == legs;
  }

  lemma PlayIsOver(sha: Hasher, s: Server, ss: Session, legs: seq<Leg>)
    requires SessionHolds(s, ss) && (legs == [] || IsOver(ss.phase))
    ensures Play(sha, s, ss, legs) == (s, ss)
  {
  }

  lemma {:induction false} PlayConcat(sha: Hasher, s: Server, ss: Session, a: seq<Leg>, b: seq<Leg>)
    requires SessionHolds(s, ss)
    ensures var (server, end) := Play(sha, s, ss, a);
      SessionHolds(server, end) && Play(sha, s, ss, a + b) == Play(sha, server, end, b)
    decreases |a|
  {
    hide Step, SessionHolds, Interfered;
    if a == [] {
      assert a + b == b;
    } else if !IsOver(ss.phase) {
      PlayOn(sha, s, ss, a[0], a[1..]);
      PlayOn(sha, s, ss, a[0], a[1..] + b);
      assert a == [a[0]] + a[1..] && a + b == [a[0]] + (a[1..] + b);
      var (server, next) := Step(sha, Interfered(s, a[0].gap), ss, a[0].input);
      PlayConcat(sha, server, next, a[1..], b);
    }
  }

  /** However a session is played, the server moves only forward and the session's promises hold at the end. */
  lemma {:induction false} PlayHolds(sha: Hasher, s: Server, ss: Session, legs: seq<Leg>)
    requires SessionHolds(s, ss)
    ensures var (server, end) := Play(sha, s, ss, legs); s.Forward(server) && SessionHolds(server, end) && end.start == ss.start
    decreases |legs|
  {
    if legs == [] || IsOver(ss.phase) {
      ForwardIsReflexive(s);
    } else {
      var s1 := Interfered(s, legs[0].gap);
      GapHolds(s, legs[0].gap, ss);
      EveryStepIsFair(sha, s1, ss, legs[0].input);
      var (server, next) := Step(sha, s1, ss, legs[0].input);
      PlayHolds(sha, server, next, legs[1..]);
      ForwardIsTransitive(s, s1, server);
      ForwardIsTransitive(s, server, Play(sha, server, next, legs[1..]).0);
    }
  }

  /** At some point of the play `head` was the remote tip. */
  ghost predicate WasTip(sha: Hasher, s: Server, ss: Session, legs: seq<Leg>, head: nat)
    requires SessionHolds(s, ss)
  {
    exists n :: 0 < n <= |legs| && Play(sha, s, ss, legs[..n]).0.tip == head
  }

  lemma PublishingCommand(sha: Hasher, s: Server, ss: Session, input: Input)
    requires SessionHolds(s, ss) && Published(ss.phase)
    ensures var next := Command(sha, s, ss, input).1; Published(next.phase) || next.phase == Failed
  {
    assert ss.repo.Valid(s.graph) && s.Valid();
    hide SessionHolds, Reaches, TagLocally, PushTag, TagAccepted, PreviewStep, FetchStep, StageAndCommit;
    hide TrackStep, PullStep, MergeStep, Review, ConcludeStep, PushStep;
  }

  /** A publication either goes on with the same head or fails. */
  lemma PublishingStep(sha: Hasher, s: Server, ss: Session, input: Input)
    requires SessionHolds(s, ss) && Published(ss.phase)
    ensures var next := Step(sha, s, ss, input).1;
      next.phase == Failed || (Published(next.phase) && next.repo.head == ss.repo.head)
  {
    PublishingCommand(sha, s, ss, input);
    EveryStepIsFair(sha, s, ss, input);
    hide SessionHolds, Command;
  }

  lemma PlayPublishing(sha: Hasher, s: Server, ss: Session, leg: Leg, rest: seq<Leg>) returns (server: Server, next: Session)
    requires SessionHolds(s, ss) && Published(ss.phase) && !IsOver(ss.phase)
    ensures SessionHolds(server, next) && Play(sha, s, ss, [leg] + rest) == Play(sha, server, next, rest)
    ensures next.phase == Failed || (Published(next.phase) && next.repo.head == ss.repo.head)
  {
    PlayOn(sha, s, ss, leg, rest);
    var s1 := Interfered(s, leg.gap);
    PublishingStep(sha, s1, ss, leg.input);
    server, next := Step(sha, s1, ss, leg.input).0, Step(sha, s1, ss, leg.input).1;
    hide Step, SessionHolds, Interfered, Play;
  }

  lemma {:induction false} PublishedStays(sha: Hasher, s: Server, ss: Session, legs: seq<Leg>)
    requires SessionHolds(s, ss) && Published(ss.phase)
    ensures var end := Play(sha, s, ss, legs).1; Published(end.phase) ==> end.repo.head == ss.repo.head
    decreases |legs|
  {
    hide SessionHolds, Play;
    if legs == [] || IsOver(ss.phase) {
      PlayIsOver(sha, s, ss, legs);
    } else {
      assert legs == [legs[0]] + legs[1..];
      var server, next := PlayPublishing(sha, s, ss, legs[0], legs[1..]);
      if Published(next.phase) {
        PublishedStays(sha, server, next, legs[1..]);
      } else {
        PlayIsOver(sha, server, next, legs[1..]);
      }
    }
  }

  lemma PlayFirst(sha: Hasher, s: Server, ss: Session, legs: seq<Leg>) returns (server: Server, next: Session)
    requires SessionHolds(s, ss) && !IsOver(ss.phase) && !Published(ss.phase) && legs != []
    ensures SessionHolds(server, next) && Play(sha, s, ss, legs) == Play(sha, server, next, legs[1..])
    ensures forall n :: 0 < n <= |legs| ==> Play(sha, s, ss, legs[..n]) == Play(sha, server, next, legs[1..][..n - 1])
    ensures Published(next.phase) ==> server.tip == next.repo.head
  {
    var leg, rest := legs[0], legs[1..];
    var s1 := Interfered(s, leg.gap);
    PlayOn(sha, s, ss, leg, rest);
    EveryStepIsFair(sha, s1, ss, leg.input);
    server, next := Step(sha, s1, ss, leg.input).0, Step(sha, s1, ss, leg.input).1;
    hide Step, SessionHolds, Interfered, Play;
    assert legs == [leg] + rest;
    forall n | 0 < n <= |legs| ensures Play(sha, s, ss, legs[..n]) == Play(sha, server, next, rest[..n - 1]) {
      PlayOn(sha, s, ss, leg, rest[..n - 1]);
      assert legs[..n] == [leg] + rest[..n - 1];
    }
  }

  /** A session played until it has published something had its head as the remote tip. */
  lemma {:induction false} PublishedWasTip(sha: Hasher, s: Server, ss: Session, legs: seq<Leg>)
    requires SessionHolds(s, ss) && !Published(ss.phase)
    ensures var end := Play(sha, s, ss, legs).1; Published(end.phase) ==> WasTip(sha, s, ss, legs, end.repo.head)
    decreases |legs|
  {
    hide SessionHolds, Play;
    var head := Play(sha, s, ss, legs).1.repo.head;
    if legs == [] || IsOver(ss.phase) {
      PlayIsOver(sha, s, ss, legs);
    } else {
      var server, next := PlayFirst(sha, s, ss, legs);
      var rest := legs[1..];
      if Published(next.phase) {
        PublishedStays(sha, server, next, rest);
        PlayIsOver(sha, server, next, []);
        assert rest[..0] == [];
        assert Play(sha, s, ss, legs[..1]).0.tip == next.repo.head;
      } else {
        PublishedWasTip(sha, server, next, rest);
        if n :| 0 < n <= |rest| && Play(sha, server, next, rest[..n]).0.tip == head {
          assert Play(sha, s, ss, legs[..n + 1]).0.tip == head;
        }
      }
    }
  }

  // ---------------------------------------------------------------- whole runs

  /** `tips` are all the commits that the remote branch has ever pointed at. */
  datatype World = World(server: Server, sessions: seq<Session>, tips: set<nat>)

  /**
   Either one client runs its next command, or a client, whatever it was doing, is
   started afresh with whatever its user has put into the store meanwhile; in the last case
   with commits of its own as well, such as `pass` makes them for every insertion and removal.
   */
  datatype Move =
    | Advance(who: nat, input: Input)
    | Begin(who: nat, worktree: Tree)
    | Outside(who: nat, commits: seq<Commit>, repo: Repo)

  /** What may happen to a repository outside the program: commits on top of HEAD, and anything in index and worktree. */
  predicate WorkedOn(s: Server, before: Repo, commits: seq<Commit>, after: Repo)
    requires s.Valid() && before.Valid(s.graph)
  {
    var graph := s.graph + commits;
    && Ordered(graph) && after.Valid(graph) && Reaches(graph, before.head, after.head)
    && after.tags == before.tags && after.origin == before.origin
  }

  function NewSession(r: Repo): Session { Session(Previewing, false, r, "", r, None, r.head, 0, map[], map[]) }

  ghost function Next(sha: Hasher, w: World, move: Move): World
    requires WorldHolds(w)
  {
    if move.who >= |w.sessions| then w
    else
      var ss := w.sessions[move.who];
      match move
      case Begin(who, worktree) => w.(sessions := w.sessions[who := NewSession(ss.repo.(worktree := worktree))])
      case Outside(who, commits, repo) =>
        if WorkedOn(w.server, ss.repo, commits, repo)
        then World(w.server.(graph := w.server.graph + commits), w.sessions[who := NewSession(repo)], w.tips)
        else w
      case Advance(who, input) =>
        var (server, next) := Step(sha, w.server, ss, input);
        World(server, w.sessions[who := next], w.tips + {server.tip})
  }

  ghost predicate WorldHolds(w: World) {
    && w.server.Valid()
    && (forall i :: 0 <= i < |w.sessions| ==> SessionHolds(w.server, w.sessions[i]))
    && w.server.tip in w.tips
    && (forall t :: t in w.tips ==> Reaches(w.server.graph, t, w.server.tip))
    && (forall i :: 0 <= i < |w.sessions| && Published(w.sessions[i].phase) ==>
          w.sessions[i].repo.head in w.tips && w.sessions[i].replaced in w.tips)
  }

  lemma NextHolds(sha: Hasher, w: World, move: Move)
    requires WorldHolds(w)
    ensures WorldHolds(Next(sha, w, move))
  {
    if move.who < |w.sessions| {
      assert SessionHolds(w.server, w.sessions[move.who]);
      hide WorldHolds, Step, WorkedOn;
      match move
      case Advance(who, input) => AdvanceHolds(sha, w, who, input);
      case Begin(who, worktree) => BeginHolds(w, who, worktree);
      case Outside(who, commits, repo) =>
        if WorkedOn(w.server, w.sessions[who].repo, commits, repo) { WorkHolds(w, who, commits, repo); }
    }
  }

  lemma AdvanceHolds(sha: Hasher, w: World, who: nat, input: Input)
    requires WorldHolds(w) && who < |w.sessions| && SessionHolds(w.server, w.sessions[who])
    ensures var (server, next) := Step(sha, w.server, w.sessions[who], input);
      WorldHolds(World(server, w.sessions[who := next], w.tips + {server.tip}))
  {
    EveryStepIsFair(sha, w.server, w.sessions[who], input);
    var (server, next) := Step(sha, w.server, w.sessions[who], input);
    hide Step, WorldHolds, SessionHolds, Fair;
    OthersHold(w, server, who, next);
  }

  lemma BeginHolds(w: World, who: nat, worktree: Tree)
    requires WorldHolds(w) && who < |w.sessions|
    ensures WorldHolds(w.(sessions := w.sessions[who := NewSession(w.sessions[who].repo.(worktree := worktree))]))
  {
    assert SessionHolds(w.server, w.sessions[who]);
    NewSessionHolds(w.server, w.sessions[who].repo.(worktree := worktree));
    hide SessionHolds, Reaches;
  }

  lemma CommitsAreForward(s: Server, commits: seq<Commit>)
    requires s.Valid() && Ordered(s.graph + commits)
    ensures s.Forward(s.(graph := s.graph + commits))
  {
    var graph: Graph := s.graph + commits;
    assert Reaches(graph, s.tip, s.tip);
  }

  lemma WorkHolds(w: World, who: nat, commits: seq<Commit>, repo: Repo)
    requires WorldHolds(w) && who < |w.sessions| && w.sessions[who].repo.Valid(w.server.graph)
    requires WorkedOn(w.server, w.sessions[who].repo, commits, repo)
    ensures WorldHolds(World(w.server.(graph := w.server.graph + commits), w.sessions[who := NewSession(repo)], w.tips))
  {
    hide SessionHolds, Reaches;
    CommitsAreForward(w.server, commits);
    var server := w.server.(graph := w.server.graph + commits);
    NewSessionHolds(server, repo);
    hide WorkedOn;
    OthersStand(w, server);
  }

  lemma NewSessionHolds(s: Server, r: Repo)
    requires s.Valid() && r.Valid(s.graph)
    ensures SessionHolds(s, NewSession(r))
  {
  }

  lemma OthersStand(w: World, server: Server)
    requires WorldHolds(w) && w.server.Forward(server)
    ensures forall i :: 0 <= i < |w.sessions| ==> SessionHolds(server, w.sessions[i])
    ensures forall t :: t in w.tips ==> Reaches(server.graph, t, server.tip)
  {
    hide SessionHolds, Reaches;
    forall i | 0 <= i < |w.sessions| ensures SessionHolds(server, w.sessions[i]) {
      SessionIsStable(w.server, server, w.sessions[i]);
    }
    forall t | t in w.tips ensures Reaches(server.graph, t, server.tip) { ReachLater(w.server, server, t); }
  }

  lemma OthersHold(w: World, server: Server, who: nat, next: Session)
    requires WorldHolds(w) && who < |w.sessions| && Fair(w.server, w.sessions[who], server, next)
    ensures WorldHolds(World(server, w.sessions[who := next], w.tips + {server.tip}))
  {
    hide SessionHolds;
    assert server.Valid() && SessionHolds(server, next) && Reaches(server.graph, server.tip, server.tip);
    hide Reaches;
    OthersStand(w, server);
  }

  ghost function Run(sha: Hasher, w: World, moves: seq<Move>): World
    requires WorldHolds(w)
    decreases |moves|
  {
    if moves == [] then w
    else
      NextHolds(sha, w, moves[0]);
      Run(sha, Next(sha, w, moves[0]), moves[1..])
  }

  lemma {:induction false} RunHolds(sha: Hasher, w: World, moves: seq<Move>)
    requires WorldHolds(w)
    ensures WorldHolds(Run(sha, w, moves)) && |Run(sha, w, moves).sessions| == |w.sessions|
    decreases |moves|
  {
    if moves != [] {
      NextHolds(sha, w, moves[0]);
      RunHolds(sha, Next(sha, w, moves[0]), moves[1..]);
    }
  }

  lemma HeadsGrowOnce(sha: Hasher, w: World, move: Move, i: nat)
    requires WorldHolds(w) && i < |w.sessions|
    ensures var n := Next(sha, w, move);
      && WorldHolds(n) && |n.sessions| == |w.sessions| && w.server.graph <= n.server.graph
      && Reaches(n.server.graph, w.sessions[i].repo.head, n.sessions[i].repo.head)
  {
    NextHolds(sha, w, move);
    var n, ss := Next(sha, w, move), w.sessions[i];
    assert SessionHolds(w.server, ss);
    assert Reaches(w.server.graph, ss.repo.head, ss.repo.head);
    if move.Advance? && move.who < |w.sessions| {
      var mover := w.sessions[move.who];
      EveryStepIsFair(sha, w.server, mover, move.input);
      var server := Step(sha, w.server, mover, move.input).0;
      hide Step, SessionHolds, Reaches;
      ReachesIsStable(w.server.graph, server.graph, ss.repo.head, ss.repo.head);
    } else if move.Outside? && move.who < |w.sessions| && WorkedOn(w.server, w.sessions[move.who].repo, move.commits, move.repo) {
      ReachesIsStable(w.server.graph, n.server.graph, ss.repo.head, ss.repo.head);
    }
  }

  /** Over whole runs, with any number of sessions in them: no client ever loses a commit its HEAD had. */
  lemma {:induction false} HeadsGrow(sha: Hasher, w: World, moves: seq<Move>, i: nat)
    requires WorldHolds(w) && i < |w.sessions|
    ensures var end := Run(sha, w, moves);
      && WorldHolds(end) && |end.sessions| == |w.sessions| && w.server.graph <= end.server.graph
      && w.sessions[i].repo.head < |w.server.graph| && end.sessions[i].repo.head < |end.server.graph|
      && Reaches(end.server.graph, w.sessions[i].repo.head, end.sessions[i].repo.head)
    decreases |moves|
  {
    assert SessionHolds(w.server, w.sessions[i]);
    var head := w.sessions[i].repo.head;
    assert Reaches(w.server.graph, head, head);
    if moves != [] {
      HeadsGrowOnce(sha, w, moves[0], i);
      var n := Next(sha, w, moves[0]);
      HeadsGrow(sha, n, moves[1..], i);
      var end := Run(sha, n, moves[1..]);
      hide Next, Run, WorldHolds, SessionHolds, Reaches;
      ReachesIsStable(n.server.graph, end.server.graph, head, n.sessions[i].repo.head);
      ReachesIsTransitive(end.server.graph, head, n.sessions[i].repo.head, end.sessions[i].repo.head);
    }
  }

  ghost predicate Fresh(w: World) {
    && w.server.Valid() && w.tips == {w.server.tip}
    && forall i :: 0 <= i < |w.sessions| ==> w.sessions[i].repo.Valid(w.server.graph) && w.sessions[i] == NewSession(w.sessions[i].repo)
  }

  /** What the user of one client can rely on, `start` being its repository when the session began. */
  ghost predicate SessionIsSafe(w: World, ss: Session)
    requires w.server.Valid()
  {
    var g := w.server.graph;
    && ss.start.head < |g| && ss.repo.Valid(g)
    && Reaches(g, ss.start.head, ss.repo.head)
    && (ss.staged.Some? ==>
          && ss.staged.value < |g| && Reaches(g, ss.staged.value, ss.repo.head)
          && SameButHash(g[ss.staged.value].tree, ss.start.worktree))
    && (ss.phase == Finished ==>
          && ss.repo.Clean(g) && ss.repo.mergeHead.None?
          && ss.staged.Some? && ss.repo.head in w.tips && Reaches(g, ss.repo.head, w.server.tip)
          && ss.replaced in w.tips && Reaches(g, ss.replaced, ss.repo.head)
          && if ss.version == "" then ss.replaced == ss.repo.head
             else VersionIsChosen(ss) && VersionTag(ss) in w.server.tags && w.server.tags[VersionTag(ss)] == TagTarget(ss))
    && (ss.phase == Cancelled ==> ss.repo.head == ss.prepared && ss.repo.Clean(g) && ss.repo.mergeHead.None?)
  }

  ghost predicate WorldIsSafe(w: World) {
    && w.server.Valid()
    && (forall t :: t in w.tips ==> Reaches(w.server.graph, t, w.server.tip))
    && (forall i :: 0 <= i < |w.sessions| ==> SessionIsSafe(w, w.sessions[i]))
  }

  /**
   In every run, from any clients' states, for every order of their commands and wherever
   they break off: nothing the remote branch ever pointed at is lost; a client never loses
   a commit that its HEAD has had, nor the content it staged; a finished sync was the remote tip, on top of the tip it found and
   of the client's own content, and is published under its version unless it had nothing
   to publish; a cancelled merge is back at the commit prepared for it.
   */
  lemma EveryRunIsSafe(sha: Hasher, w: World, moves: seq<Move>)
    requires Fresh(w)
    ensures WorldHolds(w)
    ensures var end := Run(sha, w, moves);
      && |end.sessions| == |w.sessions| && WorldIsSafe(end)
      && forall i :: 0 <= i < |w.sessions| ==>
        && w.sessions[i].repo.head < |end.server.graph| && end.sessions[i].repo.head < |end.server.graph|
        && Reaches(end.server.graph, w.sessions[i].repo.head, end.sessions[i].repo.head)
  {
    FreshHolds(w);
    RunHolds(sha, w, moves);
    var end := Run(sha, w, moves);
    HoldingIsSafe(end);
    forall i | 0 <= i < |w.sessions|
      ensures w.sessions[i].repo.head < |end.server.graph| && end.sessions[i].repo.head < |end.server.graph|
      ensures Reaches(end.server.graph, w.sessions[i].repo.head, end.sessions[i].repo.head)
    {
      HeadsGrow(sha, w, moves, i);
    }
  }

  lemma FreshHolds(w: World)
    requires Fresh(w)
    ensures WorldHolds(w)
  {
    forall k | 0 <= k < |w.sessions| ensures SessionHolds(w.server, w.sessions[k]) {
      NewSessionHolds(w.server, w.sessions[k].repo);
    }
  }

  lemma HoldingIsSafe(w: World)
    requires WorldHolds(w)
    ensures WorldIsSafe(w)
  {
    forall i | 0 <= i < |w.sessions| ensures SessionIsSafe(w, w.sessions[i]) {
      assert SessionHolds(w.server, w.sessions[i]);
    }
  }
}
