/**
 What becomes of version tags when several clients sync: which commit a published tag
 names, when a tag is refused, and that a refused tag stops its client for good.
 */
module VersionTags {
  import opened Options
  import opened StoreManifest
  import opened StoreVersion
  import opened GitModel
  import opened SyncProtocol
  import opened SyncWorld

  // ---------------------------------------------------------------- what a published tag names

  /**
   A finished sync with a version: its tag is on the server and names the pushed HEAD,
   exactly unless a tag of that name was known before and names another commit. Such a tag
   was on the staged commit, or the int bound on version numbers has been reached.
   */
  lemma FinishedTagNamesHead(s: Server, ss: Session)
    requires SessionHolds(s, ss) && ss.phase == Finished && ss.version != ""
    ensures var tag := VersionTag(ss);
      && tag in s.tags
      && (s.tags[tag] == ss.repo.head <==> tag !in ss.known || ss.known[tag] == ss.repo.head)
      && (s.tags[tag] != ss.repo.head ==>
            || (ss.staged.Some? && ss.known[tag] == ss.staged.value && Reaches(s.graph, ss.staged.value, ss.repo.head))
            || MaxPatch(ss.known.Keys) >= INT_MAX)
  {
    if ss.version == NextStoreVersion(ss.known.Keys) && MaxPatch(ss.known.Keys) < INT_MAX { NextVersionIsNew(ss.known.Keys); }
  }

  /**
   In every run, a sync that has moved the remote tip and finished has published a version,
   and its tag names the commit it pushed unless a tag of that name was known beforehand.
   */
  lemma MovedTipIsTagged(sha: Hasher, w: World, moves: seq<Move>, i: nat)
    requires Fresh(w) && i < |w.sessions|
    ensures WorldHolds(w) && |Run(sha, w, moves).sessions| == |w.sessions|
    ensures var end := Run(sha, w, moves); var ss := end.sessions[i];
      ss.phase == Finished && ss.replaced != ss.repo.head ==>
        && ss.version != "" && VersionTag(ss) in end.server.tags
        && (end.server.tags[VersionTag(ss)] == ss.repo.head <==>
              VersionTag(ss) !in ss.known || ss.known[VersionTag(ss)] == ss.repo.head)
        && (VersionTag(ss) in ss.known ==>
              (ss.staged.Some? && ss.known[VersionTag(ss)] == ss.staged.value) || MaxPatch(ss.known.Keys) >= INT_MAX)
  {
    FreshHolds(w);
    RunHolds(sha, w, moves);
    var end := Run(sha, w, moves);
    var ss := end.sessions[i];
    assert SessionHolds(end.server, ss);
    if ss.phase == Finished && ss.version != "" {
      FinishedTagNamesHead(end.server, ss);
      if MaxPatch(ss.known.Keys) < INT_MAX { NextVersionIsNew(ss.known.Keys); }
    }
  }

  // ---------------------------------------------------------------- when a tag is refused

  /** The server has a tag of the session's name on another commit. */
  predicate TagTaken(s: Server, ss: Session) {
    VersionTag(ss) in s.tags && s.tags[VersionTag(ss)] != TagTarget(ss)
  }

  function TagPublished(s: Server, ss: Session): Server { s.(tags := s.tags[VersionTag(ss) := TagTarget(ss)]) }

  /**
   Pushing the tag after the branch: the sync finishes exactly if the command does not break
   off and the tag is not taken. A tag that is taken was not on the server at the fetch:
   another client has published this version since. The pushed commit stays on the branch
   in any case, and a taken tag now clashes with the client's own.
   */
  lemma TagFailsExactly(sha: Hasher, s: Server, ss: Session, input: Input)
    requires SessionHolds(s, ss) && ss.phase == TagPushing
    ensures var (server, next) := Step(sha, s, ss, input);
      && (next.phase == Finished <==> !input.Break? && !TagTaken(s, ss))
      && (next.phase == Failed <==> input.Break? || TagTaken(s, ss))
      && next.repo.tags == ss.repo.tags && next.repo.head == ss.repo.head && Reaches(s.graph, ss.repo.head, s.tip)
      && server == (if TagTaken(s, ss) || (input.Break? && !input.done) then s else TagPublished(s, ss))
      && (TagTaken(s, ss) ==> VersionTag(ss) !in ss.seen && !TagsAgree(server, next.repo))
  {
    assert VersionTag(ss) in ss.repo.tags && ss.repo.tags[VersionTag(ss)] == TagTarget(ss);
    assert TagTaken(s, ss) ==> VersionTag(ss) !in ss.seen && !TagsAgree(s, ss.repo);
    assert Reaches(s.graph, ss.repo.head, s.tip) && s.Valid() && ss.repo.Valid(s.graph);
    PushTagStepIs(s, ss);
    StepCases(sha, s, ss, input);
    assert input.Break? ==> Wrecked(ss.repo, input.wreck).tags == ss.repo.tags && Wrecked(ss.repo, input.wreck).head == ss.repo.head;
    hide SessionHolds, Reaches, Command, PushTagStep, TagTaken, TagPublished, TagsAgree, Step, Broken, VersionTag, TagTarget, Wrecked;
    if input.Break? { PushTagCommand(sha, s, ss, Scraps(input.wreck)); } else { PushTagCommand(sha, s, ss, input); }
  }

  lemma PushTagStepIs(s: Server, ss: Session)
    requires SessionHolds(s, ss) && ss.phase == TagPushing
    ensures VersionTag(ss) in ss.repo.tags
    ensures PushTagStep(s, ss) == if TagTaken(s, ss) then (s, ss.(phase := Failed)) else (TagPublished(s, ss), ss.(phase := Finished))
  {
    PushTagExactly(s, ss);
    hide Reaches;
  }

  lemma PushTagCommand(sha: Hasher, s: Server, ss: Session, input: Input)
    requires s.Valid() && ss.repo.Valid(s.graph) && ss.phase == TagPushing && VersionTag(ss) in ss.repo.tags
    ensures Command(sha, s, ss, input) == PushTagStep(s, ss)
  {
    hide Reaches, PushTagStep, PreviewStep, FetchStep, StageAndCommit, TrackStep, PullStep, MergeStep, Review, ConcludeStep, PushStep;
  }

  // ---------------------------------------------------------------- clashing tags

  /** A clash of tags survives everything that adds tags on either side. */
  lemma ClashGrows(s: Server, later: Server, r: Repo, r2: Repo)
    requires Within(s.tags, later.tags) && Within(r.tags, r2.tags) && !TagsAgree(s, r)
    ensures !TagsAgree(later, r2)
  {
    var t :| t in s.tags && t in r.tags && s.tags[t] != r.tags[t];
    assert t in later.tags && t in r2.tags;
  }

  /** From then on every sync fails at its first command, whatever the user puts into the store and whatever others push. */
  lemma ClashFailsEverySync(sha: Hasher, s: Server, later: Server, r: Repo, worktree: Tree, input: Input)
    requires s.Forward(later) && r.Valid(later.graph) && !TagsAgree(s, r)
    ensures var ss := NewSession(r.(worktree := worktree)); var (server, next) := Step(sha, later, ss, input);
      next.phase == Failed && server == later && next.repo.head == r.head && !TagsAgree(later, next.repo)
  {
    ClashGrows(s, later, r, r);
    ClashGrows(s, later, r, Fetched(later, r.(worktree := worktree)));
  }

  ghost predicate Clashing(w: World, i: nat) { i < |w.sessions| && !TagsAgree(w.server, w.sessions[i].repo) }

  /** No sync is under way beyond its fetch. */
  predicate Resting(p: Phase) { p == Previewing || p == Fetching || Ended(p) }

  /** Nothing this client does gets past its fetch any more. */
  ghost predicate Stuck(w: World, i: nat) { Clashing(w, i) && Resting(w.sessions[i].phase) }

  lemma FetchesTags(s: Server, ss: Session)
    requires s.Valid() && ss.repo.Valid(s.graph)
    ensures PreviewStep(s, ss).repo == Fetched(s, ss.repo) && FetchStep(s, ss).repo == Fetched(s, ss.repo)
    ensures !TagsAgree(s, ss.repo) ==> PreviewStep(s, ss).phase == Failed && FetchStep(s, ss).phase == Failed
  {
    hide BuildPreview, TagsAgree;
  }

  /** Before and after a sync, a command at most fetches; and with clashing tags it does not get on. */
  lemma RestingCommand(sha: Hasher, s: Server, ss: Session, input: Input)
    requires s.Valid() && ss.repo.Valid(s.graph) && Resting(ss.phase)
    ensures var (server, next) := Command(sha, s, ss, input);
      && server == s && (next.repo == ss.repo || next.repo == Fetched(s, ss.repo))
      && (!TagsAgree(s, ss.repo) ==> Ended(next.phase))
  {
    FetchesTags(s, ss);
    RestingCommandIs(sha, s, ss, input);
    hide Reaches, TagsAgree, PreviewStep, FetchStep, Command, Fetched;
  }

  lemma RestingCommandIs(sha: Hasher, s: Server, ss: Session, input: Input)
    requires s.Valid() && ss.repo.Valid(s.graph) && Resting(ss.phase)
    ensures Command(sha, s, ss, input) ==
      (s, if ss.phase == Previewing then PreviewStep(s, ss) else if ss.phase == Fetching then FetchStep(s, ss) else ss)
  {
    hide Reaches, PreviewStep, FetchStep, StageAndCommit, TrackStep, PullStep, MergeStep, Review, ConcludeStep, PushStep, TagStep, PushTagStep;
  }

  lemma RestingStep(sha: Hasher, s: Server, ss: Session, input: Input)
    requires SessionHolds(s, ss) && Resting(ss.phase)
    ensures var (server, next) := Step(sha, s, ss, input);
      && server == s && next.repo.head == ss.repo.head
      && (next.repo.tags == ss.repo.tags || next.repo.tags == s.tags + ss.repo.tags)
      && (!TagsAgree(s, ss.repo) ==> Ended(next.phase))
  {
    assert s.Valid() && ss.repo.Valid(s.graph);
    hide SessionHolds, Command, Broken, Step, Reaches, TagsAgree;
    StepCases(sha, s, ss, input);
    if input.Break? && !Ended(ss.phase) {
      RestingCommand(sha, s, ss, Scraps(input.wreck));
    } else {
      RestingCommand(sha, s, ss, input);
    }
  }

  /** A step is a command, or a command that breaks off before or after it has taken effect. */
  lemma StepCases(sha: Hasher, s: Server, ss: Session, input: Input)
    requires s.Valid() && ss.repo.Valid(s.graph)
    ensures Step(sha, s, ss, input) ==
      if !input.Break? || Ended(ss.phase) then Command(sha, s, ss, input)
      else if !input.done then (s, ss.(phase := Failed, repo := Wrecked(ss.repo, input.wreck)))
      else
        var (server, next) := Command(sha, s, ss, Scraps(input.wreck));
        (server, next.(phase := Failed, repo := if ss.phase == Pushing then ss.repo else next.repo))
  {
    hide Command;
  }

  lemma StuckStays(sha: Hasher, w: World, move: Move, i: nat)
    requires WorldHolds(w) && Stuck(w, i)
    ensures var n := Next(sha, w, move);
      && Stuck(n, i)
      && (!(move.Outside? && move.who == i) ==> n.sessions[i].repo.head == w.sessions[i].repo.head)
      && (move.who == i ==> n.server.tip == w.server.tip && n.server.tags == w.server.tags)
  {
    NextHolds(sha, w, move);
    if move.who < |w.sessions| && move.Advance? {
      var ss := w.sessions[move.who];
      EveryStepIsFair(sha, w.server, ss, move.input);
      var (server, next) := Step(sha, w.server, ss, move.input);
      if move.who == i { RestingStep(sha, w.server, ss, move.input); }
      ClashGrows(w.server, server, w.sessions[i].repo, Next(sha, w, move).sessions[i].repo);
    }
  }

  /** Client `i` makes no commits outside the program. */
  ghost predicate LeftAlone(moves: seq<Move>, i: nat) {
    forall j :: 0 <= j < |moves| ==> !(moves[j].Outside? && moves[j].who == i)
  }

  /** In every run: a stuck client stays stuck, and the program never commits anything for it again. */
  lemma {:induction false} StuckForGood(sha: Hasher, w: World, moves: seq<Move>, i: nat)
    requires WorldHolds(w) && Stuck(w, i)
    ensures Stuck(Run(sha, w, moves), i)
    ensures LeftAlone(moves, i) ==> Run(sha, w, moves).sessions[i].repo.head == w.sessions[i].repo.head
    decreases |moves|
  {
    if moves != [] {
      NextHolds(sha, w, moves[0]);
      StuckStays(sha, w, moves[0], i);
      assert LeftAlone(moves, i) ==> LeftAlone(moves[1..], i) by {
        assert forall j :: 0 <= j < |moves[1..]| ==> moves[1..][j] == moves[j + 1];
      }
      StuckForGood(sha, Next(sha, w, moves[0]), moves[1..], i);
    }
  }

  // ---------------------------------------------------------------- which commands change tags

  /** No command but the two fetches and the two tag commands changes any tag. */
  lemma CommandKeepsTags(sha: Hasher, s: Server, ss: Session, input: Input)
    requires SessionHolds(s, ss) && !Resting(ss.phase) && ss.phase != Tagging && ss.phase != TagPushing
    ensures var (server, next) := Command(sha, s, ss, input); server.tags == s.tags && next.repo.tags == ss.repo.tags
  {
    assert s.Valid() && ss.repo.Valid(s.graph);
    hide SessionHolds, Reaches, StageAndCommit, TrackStep, PullStep, MergeStep, Review, ConcludeStep, PreviewStep, FetchStep;
    match ss.phase
    case Staging => StageFacts(sha, s, ss.repo);
    case Tracking => TrackKeepsTags(sha, s, ss);
    case Pulling => PullKeepsTags(s, ss, Left(input));
    case Merging => MergeStepKeepsTags(s, ss, Left(input));
    case UnderReview => ReviewKeepsTags(s, ss, input);
    case Concluding => ConcludeKeepsTags(sha, s, ss);
    case _ =>
  }

  lemma TrackKeepsTags(sha: Hasher, s: Server, ss: Session)
    requires SessionHolds(s, ss) && ss.phase == Tracking
    ensures var (server, next) := TrackStep(sha, s, ss); server.tags == s.tags && next.repo.tags == ss.repo.tags
  {
    TrackFacts(sha, s, ss.repo, ss.version);
    hide TrackVersion, Reaches, BuildPreview;
  }

  lemma ConcludeKeepsTags(sha: Hasher, s: Server, ss: Session)
    requires SessionHolds(s, ss) && ss.phase == Concluding
    ensures var (server, next) := ConcludeStep(sha, s, ss); server.tags == s.tags && next.repo.tags == ss.repo.tags
  {
    if ss.repo.mergeHead.Some? { FinalizeFacts(sha, s, ss.repo, ss.version); }
    assert ss.repo.mergeHead.None? ==> FinalizeMerge(sha, s, ss.repo, ss.version) == NothingToMerge;
    hide Reaches, Certified, SameButHash, FinalizeMerge;
  }

  lemma StepKeepsTags(sha: Hasher, s: Server, ss: Session, input: Input)
    requires SessionHolds(s, ss) && !Resting(ss.phase) && ss.phase != Tagging && ss.phase != TagPushing
    ensures var (server, next) := Step(sha, s, ss, input); server.tags == s.tags && next.repo.tags == ss.repo.tags
  {
    CommandKeepsTags(sha, s, ss, input);
    if input.Break? { CommandKeepsTags(sha, s, ss, Scraps(input.wreck)); }
    hide Command, SessionHolds, Reaches;
  }

  lemma PullKeepsTags(s: Server, ss: Session, left: Tree)
    requires SessionHolds(s, ss) && ss.phase == Pulling
    ensures var (server, next) := PullStep(s, ss, left); server.tags == s.tags && next.repo.tags == ss.repo.tags
  {
    PullFacts(s, ss.repo, left);
    hide Pull, Reaches;
  }

  lemma MergeStepKeepsTags(s: Server, ss: Session, left: Tree)
    requires SessionHolds(s, ss) && ss.phase == Merging
    ensures MergeStep(s, ss, left).repo.tags == ss.repo.tags
  {
    if StartMerge(s.graph, ss.repo, left).Some? { StartMergeOpensReview(s.graph, ss.repo, left); }
    hide StartMerge, Reaches;
  }

  lemma ReviewKeepsTags(s: Server, ss: Session, input: Input)
    requires SessionHolds(s, ss) && ss.phase == UnderReview
    ensures Review(s.graph, ss, input).repo.tags == ss.repo.tags
  {
    var g, r := s.graph, ss.repo;
    assert r.Valid(g);
    hide SessionHolds;
    match input
    case Keep(path, local) => ResolvingKeepsTags(g, r, path, local);
    case Edit(path, content) => StagingKeepsTags(r.(worktree := Put(r.worktree, path, content)), path);
    case Quit => AbortingKeepsTags(g, r);
    case _ =>
  }

  lemma ResolvingKeepsTags(g: Graph, r: Repo, path: Path, local: bool)
    requires r.Valid(g)
    ensures var next := ResolveConflict(g, r, path, local); next.Some? ==> next.value.tags == r.tags
  {
  }

  lemma StagingKeepsTags(r: Repo, path: Path)
    ensures var next := StageFile(r, path); next.Some? ==> next.value.tags == r.tags
  {
  }

  lemma AbortingKeepsTags(g: Graph, r: Repo)
    requires r.Valid(g)
    ensures var next := AbortMerge(g, r); next.Some? ==> next.value.tags == r.tags
  {
  }

  /** The command takes effect, whether or not the program hears of it. */
  predicate TakesEffect(input: Input) { input.Break? ==> input.done }

  /** What one step does to the tags: a fetch adds the server's, tagging adds one, and pushing a tag publishes it unless it is taken. */
  ghost predicate ChangesTags(s: Server, ss: Session, input: Input, server: Server, next: Session) {
    var tag := VersionTag(ss);
    match ss.phase
    case Tagging =>
      && server.tags == s.tags
      && next.repo.tags == if TakesEffect(input) then ss.repo.tags[tag := TagTarget(ss)] else ss.repo.tags
    case TagPushing =>
      && next.repo.tags == ss.repo.tags && tag in ss.repo.tags && ss.repo.tags[tag] == TagTarget(ss)
      && server.tags == if TakesEffect(input) && !TagTaken(s, ss) then s.tags[tag := TagTarget(ss)] else s.tags
    case _ =>
      && server.tags == s.tags
      && (next.repo.tags == ss.repo.tags || (Resting(ss.phase) && next.repo.tags == s.tags + ss.repo.tags))
  }

  lemma RestingTags(sha: Hasher, s: Server, ss: Session, input: Input)
    requires SessionHolds(s, ss) && Resting(ss.phase)
    ensures var (server, next) := Step(sha, s, ss, input); ChangesTags(s, ss, input, server, next)
  {
    RestingStep(sha, s, ss, input);
    hide SessionHolds, Step, TagTaken, TagTarget, TagsAgree;
  }

  lemma TaggingTags(sha: Hasher, s: Server, ss: Session, input: Input)
    requires SessionHolds(s, ss) && ss.phase == Tagging
    ensures var (server, next) := Step(sha, s, ss, input); ChangesTags(s, ss, input, server, next)
  {
    TagIsFair(s, ss);
    hide SessionHolds, Reaches, Fair, TagStep;
  }

  lemma PushingTags(sha: Hasher, s: Server, ss: Session, input: Input)
    requires SessionHolds(s, ss) && ss.phase == TagPushing
    ensures var (server, next) := Step(sha, s, ss, input); ChangesTags(s, ss, input, server, next)
  {
    TagFailsExactly(sha, s, ss, input);
    assert VersionTag(ss) in ss.repo.tags && ss.repo.tags[VersionTag(ss)] == TagTarget(ss);
    hide SessionHolds, Reaches, Step;
  }

  lemma StepTags(sha: Hasher, s: Server, ss: Session, input: Input)
    requires SessionHolds(s, ss)
    ensures var (server, next) := Step(sha, s, ss, input); ChangesTags(s, ss, input, server, next)
  {
    hide SessionHolds, Step;
    if ss.phase == Tagging {
      TaggingTags(sha, s, ss, input);
    } else if ss.phase == TagPushing {
      PushingTags(sha, s, ss, input);
    } else if Resting(ss.phase) {
      RestingTags(sha, s, ss, input);
    } else {
      StepKeepsTags(sha, s, ss, input);
    }
  }

  // ---------------------------------------------------------------- how a client gets stuck

  /** Client `i` makes its tag although the server has that name on another commit. */
  ghost predicate TagsTaken(w: World, move: Move, i: nat) {
    && move.Advance? && move.who == i && i < |w.sessions| && TakesEffect(move.input)
    && w.sessions[i].phase == Tagging && TagTaken(w.server, w.sessions[i])
  }

  /** Another client publishes a name that client `i` has on another commit, having never published it. */
  ghost predicate TagOvertaken(w: World, move: Move, i: nat) {
    && move.Advance? && move.who != i && i < |w.sessions| && move.who < |w.sessions| && TakesEffect(move.input)
    && var other := w.sessions[move.who];
    && other.phase == TagPushing && !TagTaken(w.server, other)
    && VersionTag(other) in w.sessions[i].repo.tags && w.sessions[i].repo.tags[VersionTag(other)] != TagTarget(other)
  }

  lemma OwnTagsClash(sha: Hasher, s: Server, ss: Session, input: Input)
    requires SessionHolds(s, ss)
    ensures var (server, next) := Step(sha, s, ss, input);
      !TagsAgree(server, next.repo) <==>
        !TagsAgree(s, ss.repo) || (ss.phase == Tagging && TakesEffect(input) && TagTaken(s, ss))
  {
    StepTags(sha, s, ss, input);
    var (server, next) := Step(sha, s, ss, input);
    assert ss.phase == Tagging && VersionTag(ss) in ss.repo.tags ==> ss.repo.tags[VersionTag(ss)] == TagTarget(ss);
    hide Step, SessionHolds;
    TagsClash(s, ss, input, server, next);
  }

  lemma TagsClash(s: Server, ss: Session, input: Input, server: Server, next: Session)
    requires ChangesTags(s, ss, input, server, next)
    requires ss.phase == Tagging && VersionTag(ss) in ss.repo.tags ==> ss.repo.tags[VersionTag(ss)] == TagTarget(ss)
    ensures !TagsAgree(server, next.repo) <==>
      !TagsAgree(s, ss.repo) || (ss.phase == Tagging && TakesEffect(input) && TagTaken(s, ss))
  {
    if !TagsAgree(s, ss.repo) {
      ClashGrows(s, server, ss.repo, next.repo);
    } else if ss.phase == Tagging && TakesEffect(input) && TagTaken(s, ss) {
      assert VersionTag(ss) in next.repo.tags;
    }
  }

  lemma OthersTagsClash(sha: Hasher, s: Server, other: Session, input: Input, r: Repo)
    requires SessionHolds(s, other)
    ensures var server := Step(sha, s, other, input).0; var tag := VersionTag(other);
      !TagsAgree(server, r) <==>
        || !TagsAgree(s, r)
        || (other.phase == TagPushing && TakesEffect(input) && !TagTaken(s, other)
            && tag in r.tags && r.tags[tag] != TagTarget(other))
  {
    StepTags(sha, s, other, input);
    EveryStepIsFair(sha, s, other, input);
    var server := Step(sha, s, other, input).0;
    hide Step, Fair, SessionHolds;
    assert Within(s.tags, server.tags);
    if !TagsAgree(s, r) { ClashGrows(s, server, r, r); }
    if other.phase == TagPushing && TakesEffect(input) && !TagTaken(s, other) { assert VersionTag(other) in server.tags; }
  }

  /** One move: a client's tags come to clash with the server's in exactly two ways, and never cease to. */
  lemma ClashBeginsExactly(sha: Hasher, w: World, move: Move, i: nat)
    requires WorldHolds(w) && i < |w.sessions|
    ensures var n := Next(sha, w, move);
      |n.sessions| == |w.sessions| && (Clashing(n, i) <==> Clashing(w, i) || TagsTaken(w, move, i) || TagOvertaken(w, move, i))
  {
    if move.Advance? && move.who < |w.sessions| {
      assert SessionHolds(w.server, w.sessions[move.who]);
      hide Step, SessionHolds, TagTaken;
      if move.who == i {
        OwnTagsClash(sha, w.server, w.sessions[i], move.input);
      } else {
        OthersTagsClash(sha, w.server, w.sessions[move.who], move.input, w.sessions[i].repo);
      }
    }
  }

  ghost predicate ClashesSomewhere(sha: Hasher, w: World, moves: seq<Move>, i: nat)
    requires WorldHolds(w)
    decreases |moves|
  {
    moves != [] &&
    (NextHolds(sha, w, moves[0]);
     TagsTaken(w, moves[0], i) || TagOvertaken(w, moves[0], i) || ClashesSomewhere(sha, Next(sha, w, moves[0]), moves[1..], i))
  }

  lemma {:induction false} ClashesExactly(sha: Hasher, w: World, moves: seq<Move>, i: nat)
    requires WorldHolds(w) && i < |w.sessions|
    ensures Clashing(Run(sha, w, moves), i) <==> Clashing(w, i) || ClashesSomewhere(sha, w, moves, i)
    decreases |moves|
  {
    if moves != [] {
      NextHolds(sha, w, moves[0]);
      ClashBeginsExactly(sha, w, moves[0], i);
      hide Next, Clashing, TagsTaken, TagOvertaken, WorldHolds;
      ClashesExactly(sha, Next(sha, w, moves[0]), moves[1..], i);
    }
  }

  /**
   In every run, whatever breaks off in it: a client that has no sync under way is stuck
   for good exactly if its tags clashed from the start, or somewhere it made a tag that
   was taken, or somewhere another client published the name of a tag that it had made and
   not published. A client with a sync under way is stuck as soon as that one is over.
   */
  lemma StuckExactly(sha: Hasher, w: World, moves: seq<Move>, i: nat)
    requires WorldHolds(w) && i < |w.sessions|
    ensures var end := Run(sha, w, moves); var clash := Clashing(w, i) || ClashesSomewhere(sha, w, moves, i);
      && |end.sessions| == |w.sessions|
      && (Stuck(end, i) <==> clash && Resting(end.sessions[i].phase))
      && (forall worktree :: clash ==> WorldHolds(end) && Stuck(Next(sha, end, Begin(i, worktree)), i))
  {
    RunHolds(sha, w, moves);
    ClashesExactly(sha, w, moves, i);
    hide Run, ClashesSomewhere, WorldHolds;
  }
}
