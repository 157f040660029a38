/**
 The client object: git commands that change a repository step by step, in the order in
 which the program issues them. Other clients may act on the remote before every command
 that talks to it; `Remote.Others` is that interference.
 */
module GitClient {
  import opened Options
  import opened Ordering
  import opened StoreManifest
  import opened StoreVersion
  import opened GitModel
  import opened SyncProtocol
  import opened SyncWorld
  import opened LostPush
  import opened VersionTags
  import NukeSweep
  import PathNames

  class Remote {
    var server: Server

    constructor (s: Server)
      ensures server == s
    {
      server := s;
    }

    /** What other clients push without force between two commands of this one; anything else does not happen. */
    method Others(proposal: Server)
      requires server.Valid()
      modifies this
      ensures server == Interfered(old(server), Some(proposal)) && old(server).Forward(server)
    {
      ForwardIsReflexive(server);
      if server.Forward(proposal) {
        server := proposal;
      }
    }
  }

  datatype SyncOutcome = Threw | HadConflicts(conflicts: set<Path>) | Synced(version: string)
  datatype ForceOutcome = NotForced | ForcedUntagged | Forced
  datatype NukeOutcome = NukeRefused | NothingToRemove | Nuked | NukeNotPushed | NukeUntagged
  datatype FinalizeOutcome = FinalizeThrew | NothingMerged | MergePushed(version: string)

  /** What other clients do before a command that talks to the remote, and whether the remote cannot be reached then. */
  datatype Gap = Gap(others: Server, lost: bool)

  /** One gap for each of the four commands that do. */
  datatype Gaps = Gaps(fetch: Gap, pull: Gap, push: Gap, tag: Gap)

  method ListKeys(t: map<string, string>) returns (keys: seq<string>)
    ensures Elements(keys) == t.Keys
  {
    keys := ListSet(t.Keys);
  }

  /** Some enumeration of a set: the order of a directory iterator or of a tag listing is not promised. */
  method ListSet(s: set<string>) returns (xs: seq<string>)
    ensures Elements(xs) == s
  {
    xs := [];
    var rest := s;
    while rest != {}
      invariant rest <= s && Elements(xs) == s - rest
      decreases rest
    {
      var x :| x in rest;
      rest := rest - {x};
      ElementsOfCons(x, xs);
      xs := [x] + xs;
    }
  }

  class GitClient {
    var repo: Repo
    const remote: Remote
    const sha: Hasher

    constructor (remote: Remote, sha: Hasher, repo: Repo)
      ensures this.remote == remote && this.sha == sha && this.repo == repo
    {
      this.remote, this.sha, this.repo := remote, sha, repo;
    }

    ghost predicate Valid()
      reads this, remote
    {
      remote.server.Valid() && repo.Valid(remote.server.graph)
    }

    // -------------------------------------------------------------- building blocks

    method NextVersion() returns (version: string)
      ensures version == NextStoreVersion(repo.tags.Keys)
    {
      var lines := ListSet(repo.tags.Keys);
      version := FindNextStoreVersion(lines);
      assert (set t | t in lines) == Elements(lines);
    }

    method WriteStoreHashFile(version: string)
      modifies this
      ensures repo == WriteHash(sha, old(repo), version)
    {
      var found := ListKeys(repo.worktree);
      var hash := ComputeStoreHash(sha, found, repo.worktree);
      repo := repo.(worktree := repo.worktree[HASH_FILE := hash + "  v" + version + "\n"]);
    }

    method Commit()
      requires Valid()
      modifies this, remote
      ensures (remote.server, repo) == MakeCommit(old(remote.server), old(repo))
    {
      var (server, committed) := MakeCommit(remote.server, repo);
      remote.server := server;
      repo := committed;
    }

    // -------------------------------------------------------------- commit stage

    method StageAndCommitLocalChanges() returns (version: string)
      requires Valid()
      modifies this, remote
      ensures Staged(remote.server, repo, version) == StageAndCommit(sha, old(remote.server), old(repo))
      ensures Valid()
    {
      StageFacts(sha, remote.server, repo);
      version := "";
      if !repo.Clean(remote.server.graph) {
        version := NextVersion();
        WriteStoreHashFile(version);
      }
      repo := AddAll(repo);
      if repo.index == repo.HeadTree(remote.server.graph) {
        return;
      }
      Commit();
    }

    method HeadStoreVersionTags() returns (tags: seq<string>)
      ensures tags == HeadVersionTags(repo)
    {
      var listed := ListSet(set t | t in repo.tags && repo.tags[t] == repo.head && TAG_PREFIX <= t);
      tags := SortUnique(Bytes, listed);
      assert Elements(listed) == set t | t in repo.tags && IsHeadVersionTag(repo, t);
      SortUniqueSorts(Bytes, listed);
      ListingSorts(Bytes, Elements(listed));
      SortedListIsUnique(Bytes, tags, HeadVersionTags(repo));
    }

    method EnsureStoreVersionTracking(current: string) returns (ok: bool, version: string)
      requires Valid()
      modifies this, remote
      ensures ok ==> Tracked(remote.server, repo, version) == TrackVersion(sha, old(remote.server), old(repo), current)
      ensures !ok ==> TrackVersion(sha, old(remote.server), old(repo), current).TrackRefused?
                      && remote.server == old(remote.server) && repo.head == old(repo).head
      ensures !ok && old(repo.Clean(remote.server.graph)) ==> repo == old(repo)
    {
      ok, version := true, current;
      if version != "" {
        return;
      }
      var tags := HeadStoreVersionTags();
      if tags != [] {
        ListingSorts(Bytes, set t | t in repo.tags && IsHeadVersionTag(repo, t));
        assert tags[0] in Elements(tags);
        version := tags[0][1..];
        return;
      }
      if Reaches(remote.server.graph, repo.head, repo.origin) {
        return;
      }
      version := NextVersion();
      WriteStoreHashFile(version);
      repo := repo.(index := repo.index[HASH_FILE := repo.worktree[HASH_FILE]]);
      if repo.index == repo.HeadTree(remote.server.graph) && repo.mergeHead.None? {
        ok := false;
        return;
      }
      Commit();
    }
  
    // -------------------------------------------------------------- preview

    /** `build_preview` partitions the union of both diffs into three lists, in path order. */
    method PreviewLists(includeWorktree: bool)
      returns (ok: bool, overlapping: seq<Path>, localOnly: seq<Path>, remoteOnly: seq<Path>)
      requires Valid()
      ensures ok == BuildPreview(remote.server.graph, repo, includeWorktree).Some?
      ensures ok ==>
        var p := BuildPreview(remote.server.graph, repo, includeWorktree).value;
        && overlapping == Listing(Bytes, p.local * p.remote)
        && localOnly == Listing(Bytes, p.local - p.remote)
        && remoteOnly == Listing(Bytes, p.remote - p.local)
    {
      var preview := BuildPreview(remote.server.graph, repo, includeWorktree);
      ok, overlapping, localOnly, remoteOnly := preview.Some?, [], [], [];
      if ok {
        overlapping, localOnly, remoteOnly := Partition(preview.value.local, preview.value.remote);
      }
    }

    // -------------------------------------------------------------- conflicts

    method Resolve(path: Path, local: bool) returns (ok: bool)
      requires Valid()
      modifies this
      ensures match ResolveConflict(remote.server.graph, old(repo), path, local)
        case None => !ok && repo == old(repo)
        case Some(r) => ok && repo == r
      ensures Valid()
    {
      var g := remote.server.graph;
      var side := CheckoutSide(repo, path, local);
      if side.Some? {
        repo := AddPath(side.value, path);
        return true;
      }
      var tree := if local then repo.HeadTree(g) else g[repo.origin].tree;
      if path in tree {
        repo := CheckoutRevision(repo, tree, path);
        return true;
      }
      var removed := RemovePath(repo, path);
      if removed.None? {
        return false;
      }
      repo := removed.value;
      ok := true;
    }

    /** The loop over all conflicts, one answer each. */
    method ResolveConflicts(conflicts: seq<Path>, answers: seq<Answer>) returns (ok: bool)
      requires Valid() && |answers| == |conflicts|
      modifies this
      ensures (ok, repo) == ResolveAll(remote.server.graph, old(repo), conflicts, answers)
    {
      var g := remote.server.graph;
      hide ResolveConflict, Reaches;
      for i := 0 to |conflicts|
        invariant Valid() && g == remote.server.graph
        invariant ResolveAll(g, repo, conflicts[i..], answers[i..]) == ResolveAll(g, old(repo), conflicts, answers)
      {
        if answers[i] == AbortSync {
          var back := AbortMerge(g, repo);
          if back.Some? {
            repo := back.value;
          }
          return false;
        }
        var done := Resolve(conflicts[i], answers[i] == KeepLocal);
        if !done {
          return false;
        }
      }
      ok := true;
    }
  
    // -------------------------------------------------------------- publishing

    method FetchAll() returns (ok: bool)
      requires Valid()
      modifies this
      ensures ok == TagsAgree(remote.server, old(repo))
      ensures repo == Fetched(remote.server, old(repo))
      ensures Valid()
    {
      ok := TagsAgree(remote.server, repo);
      repo := Fetched(remote.server, repo);
    }

    method PushCurrentBranch(force: bool) returns (ok: bool)
      requires Valid()
      modifies this, remote
      ensures ok == (force || PushAccepted(old(remote.server), old(repo)))
      ensures (remote.server, repo) == if ok then PushBranch(old(remote.server), old(repo)) else (old(remote.server), old(repo))
      ensures Valid()
    {
      ok := force || PushAccepted(remote.server, repo);
      if ok {
        var (server, pushed) := PushBranch(remote.server, repo);
        remote.server := server;
        repo := pushed;
      }
    }

    method CreateLocalTag(tag: string)
      requires Valid()
      modifies this
      ensures repo == TagLocally(old(repo), tag) && Valid()
    {
      repo := TagLocally(repo, tag);
    }

    method PushVersionTag(tag: string) returns (ok: bool)
      requires Valid() && tag in repo.tags
      modifies remote
      ensures ok == TagAccepted(old(remote.server), repo, tag)
      ensures remote.server == (if ok then PushTag(old(remote.server), repo, tag) else old(remote.server)) && Valid()
    {
      ok := TagAccepted(remote.server, repo, tag);
      if ok {
        remote.server := PushTag(remote.server, repo, tag);
      }
    }

    /** The tag is made first and then pushed; if the remote is `lost`, it stays here. */
    method CreateStoreVersionTag(version: string, lost: bool) returns (ok: bool)
      requires Valid()
      modifies this, remote
      ensures var tag := "v" + version; var t := TagLocally(old(repo), tag);
        && repo == t && ok == (!lost && TagAccepted(old(remote.server), t, tag))
        && remote.server == (if ok then PushTag(old(remote.server), t, tag) else old(remote.server)) && Valid()
    {
      CreateLocalTag("v" + version);
      ok := false;
      if !lost {
        ok := PushVersionTag("v" + version);
      }
    }

    // -------------------------------------------------------------- sync

    /** This client in a session of the state machine. */
    ghost predicate InSession(trace: Session, phase: Phase)
      reads this, remote
    {
      Valid() && trace.repo == repo && trace.phase == phase && SessionHolds(remote.server, trace)
    }

    /** The command just run was the session's next step. */
    twostate predicate Stepped(trace: Session, next: Session, input: Input)
      requires old(Valid()) && old(repo) == trace.repo
      reads this, remote
    {
      (remote.server, next) == Step(sha, old(remote.server), trace, input) && InSession(next, next.phase)
    }

    /** The commands just run were those of the session, with the others' pushes in the gaps. */
    twostate predicate Played(start: Session, end: Session, legs: seq<Leg>)
      requires old(InSession(start, start.phase))
      reads this, remote
    {
      && (remote.server, end) == Play(sha, old(remote.server), start, legs)
      && InSession(end, end.phase) && end.start == start.start && old(remote.server).Forward(remote.server)
    }

    method Yield(gap: Gap, ghost trace: Session)
      requires InSession(trace, trace.phase)
      modifies remote
      ensures InSession(trace, trace.phase) && remote.server == Interfered(old(remote.server), Some(gap.others))
    {
      GapHolds(remote.server, Some(gap.others), trace);
      remote.Others(gap.others);
    }

    /** A command that cannot reach the remote: an exception, and nothing has changed. */
    ghost method Lose(trace: Session) returns (next: Session)
      requires InSession(trace, trace.phase) && !Ended(trace.phase)
      ensures (remote.server, next) == Step(sha, remote.server, trace, LOST) && InSession(next, Failed)
      ensures next == trace.(phase := Failed)
    {
      EveryStepIsFair(sha, remote.server, trace, LOST);
      next := trace.(phase := Failed);
      hide SessionHolds;
    }

    method RunPreview(ghost trace: Session) returns (ok: bool, overlapping: seq<Path>, ghost next: Session)
      requires InSession(trace, Previewing)
      modifies this
      ensures Stepped(trace, next, Accept)
      ensures next.phase == if ok then Fetching else Failed
      ensures ok ==>
        && (next.reviewed <==> overlapping != []) && BuildPreview(remote.server.graph, repo, true).Some?
        && var p := BuildPreview(remote.server.graph, repo, true).value;
           overlapping == Listing(Bytes, p.local * p.remote)
    {
      EveryStepIsFair(sha, remote.server, trace, Accept);
      next := Step(sha, remote.server, trace, Accept).1;
      assert next == PreviewStep(remote.server, trace);
      hide SessionHolds, Step, BuildPreview, Reaches;
      overlapping := [];
      ok := FetchAll();
      if !ok {
        return;
      }
      var localOnly, remoteOnly;
      ok, overlapping, localOnly, remoteOnly := PreviewLists(true);
      if ok {
        var p := BuildPreview(remote.server.graph, repo, true).value;
        ListingSorts(Bytes, p.local * p.remote);
      }
    }

    method RunFetch(ghost trace: Session) returns (ok: bool, ghost next: Session)
      requires InSession(trace, Fetching)
      modifies this
      ensures Stepped(trace, next, Accept)
      ensures next.phase == (if ok then Staging else Failed) && next.reviewed == trace.reviewed
    {
      EveryStepIsFair(sha, remote.server, trace, Accept);
      next := Step(sha, remote.server, trace, Accept).1;
      assert next == FetchStep(remote.server, trace);
      hide SessionHolds, Step;
      ok := FetchAll();
    }

    method RunStage(ghost trace: Session) returns (version: string, ghost next: Session)
      requires InSession(trace, Staging)
      modifies this, remote
      ensures Stepped(trace, next, Accept)
      ensures next.phase == Tracking && next.version == version && next.reviewed == trace.reviewed
    {
      EveryStepIsFair(sha, remote.server, trace, Accept);
      next := Step(sha, remote.server, trace, Accept).1;
      hide SessionHolds, Fair;
      version := StageAndCommitLocalChanges();
    }

    /** Version tracking, and the preview that `prepare_sync` ends with. */
    method RunTrack(current: string, reviewed: bool, ghost trace: Session) returns (ok: bool, version: string, ghost next: Session)
      requires InSession(trace, Tracking) && trace.version == current && trace.reviewed == reviewed
      modifies this, remote
      ensures Stepped(trace, next, Accept)
      ensures next.phase == if !ok then Failed else if reviewed then Merging else Pulling
      ensures ok ==> next.version == version
    {
      EveryStepIsFair(sha, remote.server, trace, Accept);
      next := Step(sha, remote.server, trace, Accept).1;
      assert (Step(sha, remote.server, trace, Accept)) == TrackStep(sha, remote.server, trace);
      hide Step, SessionHolds, BuildPreview, TrackVersion, Fair;
      ok, version := EnsureStoreVersionTracking(current);
      if ok && reviewed {
        var overlapping, localOnly, remoteOnly;
        ok, overlapping, localOnly, remoteOnly := PreviewLists(false);
      }
    }

    /** `start_merge_from_origin`: nothing to do when a merge is open already. */
    method RunStartMerge(left: Tree, ghost trace: Session) returns (ok: bool, ghost next: Session)
      requires InSession(trace, Merging)
      modifies this
      ensures Stepped(trace, next, Go(left)) && next.version == trace.version
      ensures next.phase == if ok then UnderReview else Failed
    {
      EveryStepIsFair(sha, remote.server, trace, Go(left));
      next := Step(sha, remote.server, trace, Go(left)).1;
      hide SessionHolds, Fair, StartMerge;
      var merging := StartMerge(remote.server.graph, repo, left);
      ok := merging.Some?;
      if ok {
        repo := merging.value;
      }
    }

    method RunPull(left: Tree, ghost trace: Session) returns (ok: bool, conflicts: set<Path>, ghost next: Session)
      requires InSession(trace, Pulling)
      modifies this, remote
      ensures Stepped(trace, next, Go(left)) && next.version == trace.version
      ensures next.phase == if !ok then Failed else if conflicts != {} then UnderReview else Pushing
      ensures conflicts == if next.phase == UnderReview then repo.unmerged.Keys else {}
    {
      hide Pull, Reaches;
      EveryStepIsFair(sha, remote.server, trace, Go(left));
      next := Step(sha, remote.server, trace, Go(left)).1;
      assert Step(sha, remote.server, trace, Go(left)) == PullStep(remote.server, trace, left);
      ok, conflicts := true, {};
      ConflictsAreSome(remote.server, repo, left);
      hide SessionHolds, Fair, Step;
      match Pull(remote.server, repo, left) {
        case PullFailed => ok := false;
        case PullConflict(m) =>
          repo := m;
          conflicts := m.unmerged.Keys;
        case Pulled(server, pulled) =>
          remote.server := server;
          repo := pulled;
      }
    }

    method RunPush(ghost trace: Session) returns (ok: bool, ghost next: Session)
      requires InSession(trace, Pushing)
      modifies this, remote
      ensures Stepped(trace, next, Accept) && next.version == trace.version
      ensures next.phase == if !ok then Failed else if trace.version == "" then Finished else Tagging
      ensures ok ==> remote.server.tip == repo.head
      ensures repo.head == old(repo).head
    {
      EveryStepIsFair(sha, remote.server, trace, Accept);
      next := Step(sha, remote.server, trace, Accept).1;
      hide SessionHolds, Fair;
      ok := PushCurrentBranch(false);
    }

    method RunTag(version: string, ghost trace: Session) returns (ghost next: Session)
      requires InSession(trace, Tagging) && trace.version == version
      modifies this
      ensures Stepped(trace, next, Accept) && next.version == trace.version
      ensures next.phase == TagPushing && repo.head == old(repo).head
    {
      EveryStepIsFair(sha, remote.server, trace, Accept);
      next := Step(sha, remote.server, trace, Accept).1;
      hide SessionHolds, Fair;
      CreateLocalTag("v" + version);
    }

    method RunPushTag(version: string, ghost trace: Session) returns (ok: bool, ghost next: Session)
      requires InSession(trace, TagPushing) && trace.version == version
      modifies this, remote
      ensures Stepped(trace, next, Accept) && next.version == trace.version
      ensures next.phase == if ok then Finished else Failed
      ensures repo.head == old(repo).head
    {
      EveryStepIsFair(sha, remote.server, trace, Accept);
      next := Step(sha, remote.server, trace, Accept).1;
      assert VersionTag(trace) in repo.tags;
      hide SessionHolds, Fair;
      ok := PushVersionTag("v" + version);
    }

    method PreviewLeg(gap: Gap, ghost start: Session) returns (ok: bool, overlapping: seq<Path>, ghost next: Session)
      requires InSession(start, Previewing)
      modifies this, remote
      ensures (remote.server, next) == Play(sha, old(remote.server), start, [LegOf(gap, Accept)])
      ensures InSession(next, if ok then Fetching else Failed)
      ensures ok ==> (next.reviewed <==> overlapping != [])
    {
      PlayOn(sha, remote.server, start, LegOf(gap, Accept), []);
      Yield(gap, start);
      hide SessionHolds, Play, Reaches, Step, BuildPreview;
      ok, overlapping := false, [];
      if gap.lost {
        next := Lose(start);
      } else {
        ok, overlapping, next := RunPreview(start);
      }
      PlayStops(sha, remote.server, next);
    }

    method FetchLeg(gap: Gap, ghost start: Session) returns (ok: bool, ghost next: Session)
      requires InSession(start, Fetching)
      modifies this, remote
      ensures (remote.server, next) == Play(sha, old(remote.server), start, [LegOf(gap, Accept)])
      ensures InSession(next, if ok then Staging else Failed)
      ensures next.reviewed == start.reviewed
    {
      PlayOn(sha, remote.server, start, LegOf(gap, Accept), []);
      Yield(gap, start);
      hide SessionHolds, Play, Reaches, Step;
      ok := false;
      if gap.lost {
        next := Lose(start);
      } else {
        ok, next := RunFetch(start);
      }
      PlayStops(sha, remote.server, next);
    }

    method StageLeg(ghost start: Session) returns (version: string, ghost next: Session)
      requires InSession(start, Staging)
      modifies this, remote
      ensures (remote.server, next) == Play(sha, old(remote.server), start, [COMMAND]) && InSession(next, Tracking)
      ensures next.version == version && next.reviewed == start.reviewed
    {
      PlayOn(sha, remote.server, start, COMMAND, []);
      assert Interfered(remote.server, None) == remote.server;
      hide SessionHolds, Step, Play, Reaches, Interfered;
      version, next := RunStage(start);
      PlayStops(sha, remote.server, next);
    }

    method TrackLeg(current: string, reviewed: bool, ghost start: Session) returns (ok: bool, version: string, ghost next: Session)
      requires InSession(start, Tracking) && start.version == current && start.reviewed == reviewed
      modifies this, remote
      ensures (remote.server, next) == Play(sha, old(remote.server), start, [COMMAND])
      ensures InSession(next, if !ok then Failed else if reviewed then Merging else Pulling)
      ensures ok ==> next.version == version
    {
      PlayOn(sha, remote.server, start, COMMAND, []);
      assert Interfered(remote.server, None) == remote.server;
      hide SessionHolds, Step, Play, Reaches, Interfered;
      ok, version, next := RunTrack(current, reviewed, start);
      PlayStops(sha, remote.server, next);
    }

    method CommitLegs(reviewed: bool, ghost start: Session) returns (ok: bool, version: string, ghost trace: Session)
      requires InSession(start, Staging) && start.reviewed == reviewed
      modifies this, remote
      ensures (remote.server, trace) == Play(sha, old(remote.server), start, [COMMAND, COMMAND])
      ensures InSession(trace, if !ok then Failed else if reviewed then Merging else Pulling)
      ensures ok ==> trace.version == version
    {
      PlayConcat(sha, remote.server, start, [COMMAND], [COMMAND]);
      assert [COMMAND] + [COMMAND] == [COMMAND, COMMAND];
      hide SessionHolds, Step, Play, Reaches, Interfered;
      version, trace := StageLeg(start);
      ok, version, trace := TrackLeg(version, reviewed, trace);
    }

    /** Fetch and commit: `prepare_sync`, and, without its preview, the first half of `sync`. */
    method Prepare(gap: Gap, reviewed: bool, ghost start: Session) returns (ok: bool, version: string, ghost trace: Session)
      requires InSession(start, Fetching) && start.reviewed == reviewed
      modifies this, remote
      ensures Played(start, trace, PrepareLegs(gap))
      ensures trace.phase == if !ok then Failed else if reviewed then Merging else Pulling
      ensures ok ==> trace.version == version
    {
      version := "";
      PlayHolds(sha, remote.server, start, PrepareLegs(gap));
      PlayConcat(sha, remote.server, start, [LegOf(gap, Accept)], [COMMAND, COMMAND]);
      hide SessionHolds, Play, Reaches;
      assert PrepareLegs(gap) == [LegOf(gap, Accept)] + [COMMAND, COMMAND];
      ok, trace := FetchLeg(gap, start);
      if !ok {
        PlayIsOver(sha, remote.server, trace, [COMMAND, COMMAND]);
        return;
      }
      ok, version, trace := CommitLegs(reviewed, trace);
    }

    method PushLeg(gap: Gap, ghost start: Session) returns (ok: bool, ghost next: Session)
      requires InSession(start, Pushing)
      modifies this, remote
      ensures (remote.server, next) == Play(sha, old(remote.server), start, [LegOf(gap, Accept)])
      ensures InSession(next, if !ok then Failed else if start.version == "" then Finished else Tagging)
      ensures next.version == start.version
    {
      PlayOn(sha, remote.server, start, LegOf(gap, Accept), []);
      Yield(gap, start);
      hide SessionHolds, Play, Reaches, Step;
      ok := false;
      if gap.lost {
        next := Lose(start);
      } else {
        ok, next := RunPush(start);
      }
      PlayStops(sha, remote.server, next);
    }

    method TagLeg(version: string, ghost start: Session) returns (ghost next: Session)
      requires InSession(start, Tagging) && start.version == version
      modifies this
      ensures (remote.server, next) == Play(sha, old(remote.server), start, [COMMAND])
      ensures InSession(next, TagPushing) && next.version == version
    {
      PlayOn(sha, remote.server, start, COMMAND, []);
      assert Interfered(remote.server, None) == remote.server;
      hide SessionHolds, Step, Play, Reaches, Interfered;
      next := RunTag(version, start);
      PlayStops(sha, remote.server, next);
    }

    method PushTagLeg(gap: Gap, version: string, ghost start: Session) returns (ok: bool, ghost next: Session)
      requires InSession(start, TagPushing) && start.version == version
      modifies this, remote
      ensures (remote.server, next) == Play(sha, old(remote.server), start, [LegOf(gap, Accept)])
      ensures InSession(next, if ok then Finished else Failed) && next.version == version
    {
      PlayOn(sha, remote.server, start, LegOf(gap, Accept), []);
      Yield(gap, start);
      hide SessionHolds, Step, Play, Reaches;
      ok := false;
      if gap.lost {
        next := Lose(start);
      } else {
        ok, next := RunPushTag(version, start);
      }
      PlayStops(sha, remote.server, next);
    }

    method TagLegs(gap: Gap, version: string, ghost start: Session) returns (ok: bool, ghost next: Session)
      requires InSession(start, Tagging) && start.version == version
      modifies this, remote
      ensures (remote.server, next) == Play(sha, old(remote.server), start, [COMMAND, LegOf(gap, Accept)])
      ensures InSession(next, if ok then Finished else Failed)
      ensures next.version == version
    {
      PlayConcat(sha, remote.server, start, [COMMAND], [LegOf(gap, Accept)]);
      assert [COMMAND] + [LegOf(gap, Accept)] == [COMMAND, LegOf(gap, Accept)];
      hide SessionHolds, Step, Play, Reaches, Interfered;
      next := TagLeg(version, start);
      ok, next := PushTagLeg(gap, version, next);
    }

    /** Push the branch, then make the version tag, if there is a version, and push it. */
    method Publish(push: Gap, tag: Gap, version: string, ghost start: Session) returns (ok: bool, ghost trace: Session)
      requires InSession(start, Pushing) && start.version == version
      modifies this, remote
      ensures Played(start, trace, PublishLegs(push, tag))
      ensures trace.phase == (if ok then Finished else Failed) && trace.version == version
      ensures ok ==> Publishes(old(remote.server), start, PublishLegs(push, tag), trace)
    {
      ghost var s0, rest := remote.server, [COMMAND, LegOf(tag, Accept)];
      PlayHolds(sha, s0, start, PublishLegs(push, tag));
      PublishedWasTip(sha, s0, start, PublishLegs(push, tag));
      PlayConcat(sha, s0, start, [LegOf(push, Accept)], rest);
      hide SessionHolds, Play, Reaches, WasTip;
      assert PublishLegs(push, tag) == [LegOf(push, Accept)] + rest;
      ok, trace := PushLeg(push, start);
      if !ok || version == "" {
        PlayIsOver(sha, remote.server, trace, rest);
      } else {
        ok, trace := TagLegs(tag, version, trace);
      }
      FinishedIsTagged(remote.server, trace);
    }

    /** A play that has finished: HEAD was the remote tip, and the version tag, if any, names its target. */
    ghost predicate Publishes(s0: Server, start: Session, legs: seq<Leg>, trace: Session)
      requires SessionHolds(s0, start)
      reads this, remote
    {
      && WasTip(sha, s0, start, legs, repo.head)
      && (trace.version != "" ==> VersionTag(trace) in remote.server.tags && remote.server.tags[VersionTag(trace)] == TagTarget(trace))
    }

    /**
     The direct sync is a run of the state machine, from the fetch on, for all behaviour of
     the other clients in the gaps between its commands and all failures to reach the
     remote. When it succeeds, its push made HEAD the remote tip, and its version tag, if
     it has one, names its target.
     */
    method Sync(gaps: Gaps, left: Tree, ghost start: Session)
      returns (outcome: SyncOutcome, version: string, ghost trace: Session)
      requires InSession(start, Fetching) && !start.reviewed
      modifies this, remote
      ensures Played(start, trace, SyncLegs(gaps, left))
      ensures trace.phase == if outcome.Threw? then Failed else if outcome.HadConflicts? then UnderReview else Finished
      ensures outcome.HadConflicts? ==>
        outcome.conflicts == repo.unmerged.Keys && outcome.conflicts != {} && version == trace.version
      ensures outcome.Synced? ==>
        outcome.version == trace.version && Publishes(old(remote.server), start, SyncLegs(gaps, left), trace)
    {
      ghost var s0, rest := remote.server, PullLegs(gaps, left);
      PlayHolds(sha, s0, start, SyncLegs(gaps, left));
      PublishedWasTip(sha, s0, start, SyncLegs(gaps, left));
      PlayConcat(sha, s0, start, PrepareLegs(gaps.fetch), rest);
      hide SessionHolds, Step, Play, PrepareLegs, PullLegs, WasTip, Reaches;
      var ok;
      ok, version, trace := Prepare(gaps.fetch, false, start);
      if !ok {
        PlayIsOver(sha, remote.server, trace, rest);
        return Threw, version, trace;
      }
      outcome, trace := PullAndPublish(gaps, left, version, trace);
      FinishedIsTagged(remote.server, trace);
    }

    method PullLeg(gap: Gap, left: Tree, ghost start: Session) returns (ok: bool, conflicts: set<Path>, ghost next: Session)
      requires InSession(start, Pulling)
      modifies this, remote
      ensures (remote.server, next) == Play(sha, old(remote.server), start, [LegOf(gap, Go(left))])
      ensures InSession(next, if !ok then Failed else if conflicts != {} then UnderReview else Pushing)
      ensures next.version == start.version && (next.phase == UnderReview ==> conflicts == repo.unmerged.Keys)
    {
      PlayOn(sha, remote.server, start, LegOf(gap, Go(left)), []);
      Yield(gap, start);
      hide SessionHolds, Play, Reaches, Step;
      if gap.lost {
        ok, conflicts := false, {};
        next := Lose(start);
      } else {
        ok, conflicts, next := RunPull(left, start);
      }
      PlayStops(sha, remote.server, next);
    }

    method PullAndPublish(gaps: Gaps, left: Tree, version: string, ghost start: Session) returns (outcome: SyncOutcome, ghost trace: Session)
      requires InSession(start, Pulling) && start.version == version
      modifies this, remote
      ensures Played(start, trace, PullLegs(gaps, left))
      ensures trace.phase == if outcome.Threw? then Failed else if outcome.HadConflicts? then UnderReview else Finished
      ensures outcome.HadConflicts? ==>
        outcome.conflicts == repo.unmerged.Keys && outcome.conflicts != {} && version == trace.version
      ensures outcome.Synced? ==> outcome.version == trace.version
    {
      ghost var s0, pull, publish := remote.server, LegOf(gaps.pull, Go(left)), PublishLegs(gaps.push, gaps.tag);
      PlayHolds(sha, s0, start, [pull] + publish);
      PlayConcat(sha, s0, start, [pull], publish);
      hide Step, Play, PublishLegs, SessionHolds, Reaches, Publishes;
      var ok, conflicts;
      ok, conflicts, trace := PullLeg(gaps.pull, left, start);
      if !ok || conflicts != {} {
        PlayIsOver(sha, remote.server, trace, publish);
        outcome := if ok then HadConflicts(conflicts) else Threw;
        return;
      }
      ok, trace := Publish(gaps.push, gaps.tag, version, trace);
      outcome := if ok then Synced(version) else Threw;
    }

    /**
     The sync screen up to its first question: a preview, and then, if local and remote
     changes overlap, the reviewed path as far as the opened merge, and otherwise the
     direct sync. Which one it was shows in `overlapping`.
     */
    method SyncStore(preview: Gap, gaps: Gaps, left: Tree)
      returns (outcome: SyncOutcome, overlapping: seq<Path>, version: string, ghost trace: Session)
      requires Valid()
      modifies this, remote
      ensures old(InSession(NewSession(repo), Previewing))
      ensures Played(NewSession(old(repo)), trace, [LegOf(preview, Accept)] + ScreenLegs(overlapping != [], gaps, left))
      ensures trace.phase == if outcome.Threw? then Failed else if outcome.HadConflicts? then UnderReview else Finished
      ensures outcome.HadConflicts? ==> outcome.conflicts == repo.unmerged.Keys && version == trace.version
      ensures outcome.Synced? ==> overlapping == [] && outcome.version == trace.version
    {
      NewSessionHolds(remote.server, repo);
      ghost var s0, start := remote.server, NewSession(repo);
      hide SessionHolds, Step, Play, ScreenLegs, Reaches;
      var ok;
      outcome, version := Threw, "";
      ok, overlapping, trace := PreviewLeg(preview, start);
      ghost var rest := ScreenLegs(overlapping != [], gaps, left);
      PlayHolds(sha, s0, start, [LegOf(preview, Accept)] + rest);
      PlayConcat(sha, s0, start, [LegOf(preview, Accept)], rest);
      if !ok {
        PlayIsOver(sha, remote.server, trace, rest);
        return;
      }
      outcome, version, trace := AfterPreview(overlapping != [], gaps, left, trace);
    }

    method AfterPreview(reviewed: bool, gaps: Gaps, left: Tree, ghost start: Session)
      returns (outcome: SyncOutcome, version: string, ghost trace: Session)
      requires InSession(start, Fetching) && start.reviewed == reviewed
      modifies this, remote
      ensures Played(start, trace, ScreenLegs(reviewed, gaps, left))
      ensures trace.phase == if outcome.Threw? then Failed else if outcome.HadConflicts? then UnderReview else Finished
      ensures outcome.HadConflicts? ==> outcome.conflicts == repo.unmerged.Keys && version == trace.version
      ensures outcome.Synced? ==> !reviewed && outcome.version == trace.version
    {
      ScreenLegsAre(reviewed, gaps, left);
      hide SessionHolds, Step, Play, ScreenLegs, Reaches, Publishes, SyncLegs;
      version := "";
      if reviewed {
        var ok;
        ok, version, trace := PrepareReview(gaps.fetch, left, start);
        outcome := if ok then HadConflicts(repo.unmerged.Keys) else Threw;
      } else {
        outcome, version, trace := Sync(gaps, left, start);
      }
    }

    /** The reviewed path: `prepare_sync`, then the merge that the review works on. */
    method PrepareReview(gap: Gap, left: Tree, ghost start: Session) returns (ok: bool, version: string, ghost trace: Session)
      requires InSession(start, Fetching) && start.reviewed
      modifies this, remote
      ensures Played(start, trace, PrepareLegs(gap) + [Leg(None, Go(left))])
      ensures trace.phase == if ok then UnderReview else Failed
      ensures ok ==> trace.version == version
    {
      ghost var s0, merge := remote.server, Leg(None, Go(left));
      PlayHolds(sha, s0, start, PrepareLegs(gap) + [merge]);
      PlayConcat(sha, s0, start, PrepareLegs(gap), [merge]);
      hide SessionHolds, Step, Play, PrepareLegs, Reaches;
      ok, version, trace := Prepare(gap, true, start);
      if !ok {
        PlayIsOver(sha, remote.server, trace, [merge]);
        return;
      }
      PlayOn(sha, remote.server, trace, merge, []);
      assert Interfered(remote.server, None) == remote.server;
      ok, trace := RunStartMerge(left, trace);
      PlayIsOver(sha, remote.server, trace, []);
    }

    /** Concluding a reviewed merge: commit it with a fresh checksum, then publish it. */
    method FinalizeMergeCommit(version: string, push: Gap, tag: Gap, ghost start: Session)
      returns (outcome: FinalizeOutcome, ghost trace: Session)
      requires InSession(start, Concluding) && start.version == version
      modifies this, remote
      ensures Played(start, trace, [COMMAND] + PublishLegs(push, tag))
      ensures trace.phase == if outcome.FinalizeThrew? then Failed else if outcome.NothingMerged? then Unpublished else Finished
      ensures outcome.NothingMerged? <==> old(repo).mergeHead.None?
      ensures outcome.MergePushed? ==>
        && outcome.version == trace.version && outcome.version != ""
        && Publishes(old(remote.server), start, [COMMAND] + PublishLegs(push, tag), trace)
    {
      ghost var s0, publish := remote.server, PublishLegs(push, tag);
      PlayHolds(sha, s0, start, [COMMAND] + publish);
      PublishedWasTip(sha, s0, start, [COMMAND] + publish);
      PlayConcat(sha, s0, start, [COMMAND], publish);
      hide Step, Play, PublishLegs, SessionHolds, Reaches, WasTip;
      var resolved;
      resolved, trace := ConcludeLeg(version, start);
      if resolved.None? {
        PlayIsOver(sha, remote.server, trace, publish);
        return NothingMerged, trace;
      }
      var ok;
      ok, trace := Publish(push, tag, resolved.value, trace);
      FinishedIsTagged(remote.server, trace);
      outcome := if ok then MergePushed(resolved.value) else FinalizeThrew;
    }

    method ConcludeLeg(asked: string, ghost start: Session) returns (resolved: Option<string>, ghost next: Session)
      requires InSession(start, Concluding) && start.version == asked
      modifies this, remote
      ensures (remote.server, next) == Play(sha, old(remote.server), start, [COMMAND])
      ensures InSession(next, if resolved.None? then Unpublished else Pushing)
      ensures resolved.None? <==> old(repo).mergeHead.None?
      ensures resolved.Some? ==> resolved.value != "" && next.version == resolved.value
    {
      PlayOn(sha, remote.server, start, COMMAND, []);
      assert Interfered(remote.server, None) == remote.server;
      hide SessionHolds, Step, Play, Reaches, Interfered;
      resolved, next := RunConclude(asked, start);
      PlayStops(sha, remote.server, next);
    }

    method RunConclude(asked: string, ghost start: Session) returns (resolved: Option<string>, ghost trace: Session)
      requires InSession(start, Concluding) && start.version == asked
      modifies this, remote
      ensures Stepped(start, trace, Accept)
      ensures trace.phase == if resolved.None? then Unpublished else Pushing
      ensures resolved.None? <==> old(repo).mergeHead.None?
      ensures resolved.Some? ==> resolved.value != "" && trace.version == resolved.value
    {
      EveryStepIsFair(sha, remote.server, start, Accept);
      trace := Step(sha, remote.server, start, Accept).1;
      if repo.mergeHead.None? {
        return None, trace;
      }
      assert start.repo.unmerged == map[];
      var version := asked;
      if version == "" {
        version := NextVersion();
      }
      NextVersionIsSomething(repo.tags.Keys);
      hide Step, SessionHolds, Fair, NextStoreVersion, WriteHash;
      CommitMerge(version);
      resolved := Some(version);
    }

    /** The merge commit itself: a fresh hash file, everything staged. */
    method CommitMerge(version: string)
      requires Valid()
      modifies this, remote
      ensures (remote.server, repo) == MakeCommit(old(remote.server), AddAll(WriteHash(sha, old(repo), version)))
    {
      WriteStoreHashFile(version);
      repo := AddAll(repo);
      Commit();
    }

    // -------------------------------------------------------------- force

    method HasMergeInProgress() returns (yes: bool)
      ensures yes == repo.mergeHead.Some?
    {
      yes := repo.mergeHead.Some?;
    }

    /** What others push just before a command that talks to the remote. */
    method Await(gap: Gap)
      requires Valid()
      modifies remote
      ensures Valid() && remote.server == Interfered(old(remote.server), Some(gap.others)) && old(remote.server).Forward(remote.server)
    {
      KeepsValid(remote.server, Interfered(remote.server, Some(gap.others)), repo);
      remote.Others(gap.others);
    }

    /**
     Discard local history and tracked changes. It succeeds exactly if no merge is open, the
     remote can be reached, no tag clashes and nothing is unmerged; otherwise at most the
     fetch has taken place, and not even that while a merge is open.
     */
    method PullForce(gap: Gap) returns (ok: bool)
      requires Valid()
      modifies this, remote
      ensures Valid()
      ensures remote.server == if old(repo).mergeHead.Some? then old(remote.server) else Interfered(old(remote.server), Some(gap.others))
      ensures ok <==> old(repo).mergeHead.None? && !gap.lost && TagsAgree(remote.server, old(repo)) && old(repo).unmerged == map[]
      ensures !ok ==> repo == if old(repo).mergeHead.Some? || gap.lost then old(repo) else Fetched(remote.server, old(repo))
      ensures ok ==> repo.head == remote.server.tip && repo.origin == repo.head && repo.index == repo.HeadTree(remote.server.graph)
      ensures ok ==> repo.mergeHead.None? && repo.unmerged == map[] && repo.tags == Fetched(remote.server, old(repo)).tags
      ensures ok ==> forall p ::
        Get(repo.worktree, p) == AfterReset(old(repo), repo.index, p)
    {
      ForwardIsReflexive(remote.server);
      ok := false;
      var merging := HasMergeInProgress();
      if merging {
        return;
      }
      Await(gap);
      if gap.lost {
        return;
      }
      ok := FetchAll();
      if ok && repo.unmerged != map[] {
        ok := false;
      }
      if ok {
        repo := ResetHard(remote.server.graph, repo);
      }
    }

    /** The branch is replaced, if the remote can be reached, whatever others have pushed. */
    method ReplaceBranch(gap: Gap) returns (ok: bool)
      requires Valid()
      modifies this, remote
      ensures Valid() && ok == !gap.lost
      ensures var seen := Interfered(old(remote.server), Some(gap.others));
        old(remote.server).Forward(seen) && (remote.server, repo) == if ok then PushBranch(seen, old(repo)) else (seen, old(repo))
    {
      Await(gap);
      ok := false;
      if !gap.lost {
        ok := PushCurrentBranch(true);
      }
    }

    /** The version tag after a branch push. */
    method TagAfter(version: string, gap: Gap) returns (ok: bool)
      requires Valid()
      modifies this, remote
      ensures Valid() && repo == TagLocally(old(repo), "v" + version)
      ensures TagsPublished(old(remote.server), remote.server, old(repo).tags, "v" + version, repo.head, gap, ok)
    {
      Await(gap);
      ok := CreateStoreVersionTag(version, gap.lost);
    }

    /**
     Local content and history win; the remote branch is simply replaced by the commit
     `forced`. Nothing is forced exactly if the remote cannot be reached for the fetch or
     the push, a tag clashes, or there is nothing to track (then git has nothing to commit
     and the program throws); the remote then has at most what others pushed. When only the
     tag is refused or lost on the way, the branch has been replaced all the same.
     */
    method PushForce(fetch: Gap, push: Gap, tag: Gap) returns (outcome: ForceOutcome, version: string, ghost forced: Server)
      requires Valid()
      modifies this, remote
      ensures Valid() && old(remote.server).graph <= remote.server.graph
      ensures Reaches(remote.server.graph, old(repo).head, repo.head)
      ensures var seen := Interfered(old(remote.server), Some(fetch.others)); var fetched := Fetched(seen, old(repo));
        && seen.Valid() && fetched.Valid(seen.graph)
        && (outcome.NotForced? <==>
              || fetch.lost || push.lost || !TagsAgree(seen, old(repo))
              || (fetched.Clean(seen.graph) && fetched.mergeHead.None? && NothingToTrack(sha, seen, fetched)))
        && (outcome.NotForced? ==> old(remote.server).Forward(remote.server))
        && (!outcome.NotForced? ==>
              && forced.tip == repo.head && seen.graph <= forced.graph && Within(seen.tags, forced.tags)
              && repo.Clean(remote.server.graph) && SameButHash(repo.HeadTree(remote.server.graph), old(repo).worktree)
              && (version == "" ==> outcome.Forced? && remote.server == forced)
              && (version != "" ==> TagsPublished(forced, remote.server, fetched.tags, "v" + version, repo.head, tag, outcome.Forced?)))
    {
      version, outcome, forced := "", NotForced, remote.server;
      ghost var s0, r0 := remote.server, repo;
      Await(fetch);
      ghost var seen, fetched := remote.server, Fetched(remote.server, repo);
      assert Reaches(seen.graph, r0.head, r0.head);
      if fetch.lost {
        return;
      }
      var ok := FetchAll();
      if !ok {
        return;
      }
      ok, version := CommitLocalState();
      ghost var committed, made := remote.server, repo;
      ForwardIsTransitive(s0, seen, committed);
      if !ok {
        return;
      }
      ok := ReplaceBranch(push);
      forced := remote.server;
      ghost var before := Interfered(committed, Some(push.others));
      ForwardIsTransitive(s0, committed, before);
      ReachesIsStable(committed.graph, before.graph, r0.head, made.head);
      if !ok {
        return;
      }
      hide Reaches, NothingToTrack, SameButHash;
      outcome := Forced;
      if version != "" {
        ok := TagAfter(version, tag);
        outcome := if ok then Forced else ForcedUntagged;
        ReachesIsStable(forced.graph, remote.server.graph, r0.head, repo.head);
      }
    }

    /**
     Remove every password and commit the rest. The new commit keeps all history below
     it, holds no password, changes no other file and certifies itself; only when asked
     does the wiped branch replace the remote one, as `forced`, and that exactly if the remote
     can be reached then. Nothing is committed exactly if HEAD is the wiped store with the
     hash file of the next version already.
     */
    method NukePasswords(includeRemote: bool, push: Gap, tag: Gap) returns (outcome: NukeOutcome, version: string, ghost forced: Server)
      requires Valid()
      modifies this, remote
      ensures Valid()
      ensures outcome == NukeRefused <==> old(repo).mergeHead.Some?
      ensures outcome == NukeRefused ==> repo == old(repo) && remote.server == old(remote.server)
      ensures outcome == NothingToRemove <==>
        old(repo).mergeHead.None? && AlreadyNuked(sha, old(repo), old(repo.HeadTree(remote.server.graph)))
      ensures outcome == NothingToRemove ==>
        && remote.server == old(remote.server) && repo.head == old(repo).head && repo.Clean(remote.server.graph)
        && SameButHash(repo.HeadTree(remote.server.graph), Wiped(old(repo).worktree))
      ensures Wipes(outcome) ==>
        && Reaches(remote.server.graph, old(repo).head, repo.head) && repo.head != old(repo).head
        && version == NextStoreVersion(old(repo).tags.Keys)
        && repo.Clean(remote.server.graph) && Certified(sha, repo.HeadTree(remote.server.graph), version)
        && SameButHash(repo.HeadTree(remote.server.graph), Wiped(old(repo).worktree))
      ensures Wipes(outcome) || outcome == NothingToRemove ==>
        PasswordsGone(old(repo).worktree, repo.HeadTree(remote.server.graph))
      ensures Wipes(outcome) && !includeRemote ==>
        outcome == Nuked && (remote.server, repo) == NukedLocally(sha, old(remote.server), old(repo))
      ensures Wipes(outcome) && includeRemote ==>
        && (outcome == NukeNotPushed <==> push.lost)
        && (push.lost ==> old(remote.server).Forward(remote.server) && repo.tags == old(repo).tags)
        && (!push.lost ==>
              && forced.tip == repo.head && old(remote.server).graph <= forced.graph && Within(old(remote.server).tags, forced.tags)
              && TagsPublished(forced, remote.server, old(repo).tags, "v" + version, repo.head, tag, outcome == Nuked))
    {
      version, forced := "", remote.server;
      ghost var s0, r0 := remote.server, repo;
      var merging := HasMergeInProgress();
      if merging {
        return NukeRefused, version, forced;
      }
      var committed;
      committed, version := WipeAndCommit();
      WipedHasNoPassword(r0.worktree, repo.HeadTree(remote.server.graph));
      hide Reaches, Certified, SameButHash, AlreadyNuked, Wiped, PasswordsGone;
      if !committed {
        return NothingToRemove, version, forced;
      }
      if !includeRemote {
        return Nuked, version, forced;
      }
      ghost var s1, r1 := remote.server, repo;
      outcome, forced := PublishWiped(version, push, tag);
      StillWiped(s0, s1, remote.server, r0.head, r1, repo);
    }

    /** The wiped branch replaces the remote one, and is tagged. */
    method PublishWiped(version: string, push: Gap, tag: Gap) returns (outcome: NukeOutcome, ghost forced: Server)
      requires Valid()
      modifies this, remote
      ensures Valid() && Wipes(outcome) && (outcome == NukeNotPushed <==> push.lost) && old(remote.server).graph <= remote.server.graph
      ensures repo == old(repo).(origin := repo.origin, tags := repo.tags)
      ensures push.lost ==> old(remote.server).Forward(remote.server) && repo == old(repo)
      ensures !push.lost ==>
        && forced.tip == repo.head && old(remote.server).graph <= forced.graph && Within(old(remote.server).tags, forced.tags)
        && TagsPublished(forced, remote.server, old(repo).tags, "v" + version, repo.head, tag, outcome == Nuked)
    {
      hide Reaches;
      var ok := ReplaceBranch(push);
      forced := remote.server;
      if !ok {
        return NukeNotPushed, forced;
      }
      ok := TagAfter(version, tag);
      outcome := if ok then Nuked else NukeUntagged;
    }

    method WipeAndCommit() returns (committed: bool, version: string)
      requires Valid()
      modifies this, remote
      ensures Valid() && old(remote.server).Forward(remote.server) && remote.server.tip == old(remote.server).tip
      ensures remote.server.tags == old(remote.server).tags && repo.tags == old(repo).tags
      ensures !committed <==> AlreadyNuked(sha, old(repo), old(repo.HeadTree(remote.server.graph)))
      ensures !committed ==> remote.server == old(remote.server) && repo.head == old(repo).head
      ensures committed ==> (remote.server, repo) == NukedLocally(sha, old(remote.server), old(repo))
      ensures Reaches(remote.server.graph, old(repo).head, repo.head) && version == NextStoreVersion(old(repo).tags.Keys)
      ensures repo.Clean(remote.server.graph) && Certified(sha, repo.HeadTree(remote.server.graph), version)
      ensures SameButHash(repo.HeadTree(remote.server.graph), Wiped(old(repo).worktree))
    {
      ForwardIsReflexive(remote.server);
      repo := repo.(worktree := Wiped(repo.worktree));
      version := NextVersion();
      WrittenHashCertifies(sha, repo, version);
      WriteStoreHashFile(version);
      repo := AddAll(repo);
      committed := repo.index != repo.HeadTree(remote.server.graph);
      if committed {
        MakeCommitFacts(remote.server, repo);
        Commit();
      }
    }

    method CommitLocalState() returns (ok: bool, version: string)
      requires Valid() && repo.origin == remote.server.tip
      modifies this, remote
      ensures !ok <==> old(repo.Clean(remote.server.graph)) && old(repo).mergeHead.None? && NothingToTrack(sha, old(remote.server), old(repo))
      ensures Valid() && old(remote.server).Forward(remote.server)
      ensures remote.server.tip == old(remote.server).tip && remote.server.tags == old(remote.server).tags
      ensures ok ==> repo.tags == old(repo).tags
      ensures Reaches(remote.server.graph, old(repo).head, repo.head)
      ensures ok ==> repo.Clean(remote.server.graph)
                     && SameButHash(repo.HeadTree(remote.server.graph), old(repo).worktree)
    {
      StageFacts(sha, remote.server, repo);
      version := StageAndCommitLocalChanges();
      ghost var s1, staged := remote.server, repo;
      TrackFacts(sha, s1, staged, version);
      TrackRefusedExactly(sha, s1, staged, version);
      ForwardIsReflexive(s1);
      ok, version := EnsureStoreVersionTracking(version);
      ForwardIsTransitive(old(remote.server), s1, remote.server);
      StillReaches(s1.graph, remote.server.graph, old(repo).head, staged.head, repo.head);
    }
  }

  /** Something was removed and committed. */
  predicate Wipes(outcome: NukeOutcome) { outcome == Nuked || outcome == NukeNotPushed || outcome == NukeUntagged }

  /**
   A version tag after it was pushed, and what others did just before: it is on the server
   and names HEAD, or what a tag of that name named before. The push fails exactly if the
   remote is lost, or has a tag of that name that is another.
   */
  ghost predicate TagsPublished(s: Server, later: Server, known: map<string, nat>, tag: string, head: nat, gap: Gap, ok: bool) {
    var seen := Interfered(s, Some(gap.others));
    var target := if tag in known then known[tag] else head;
    && s.Forward(seen) && (ok <==> !gap.lost && !(tag in seen.tags && seen.tags[tag] != target))
    && later == if ok then seen.(tags := seen.tags[tag := target]) else seen
  }

  /** `tree` is the store without its passwords, with the hash file that nuking would write. */
  ghost predicate AlreadyNuked(sha: Hasher, r: Repo, tree: Tree) {
    var wiped := Wiped(r.worktree);
    tree == wiped[HASH_FILE := HashLine(sha, wiped, NextStoreVersion(r.tags.Keys))]
  }

  /** A nuke that leaves the remote alone: a commit without passwords, with the next version's hash file and no tag. */
  ghost function NukedLocally(sha: Hasher, s: Server, r: Repo): (Server, Repo)
    requires s.Valid() && r.Valid(s.graph)
  {
    MakeCommit(s, AddAll(WriteHash(sha, r.(worktree := Wiped(r.worktree)), NextStoreVersion(r.tags.Keys))))
  }

  lemma NukedLocallyFacts(sha: Hasher, s: Server, r: Repo)
    requires s.Valid() && r.Valid(s.graph)
    ensures var (server, nuked) := NukedLocally(sha, s, r);
      && s.Forward(server) && server.tip == s.tip && server.tags == s.tags && nuked.tags == r.tags && nuked.mergeHead.None?
      && nuked.head == |s.graph| && nuked.Valid(server.graph) && nuked.Clean(server.graph)
      && Certified(sha, nuked.HeadTree(server.graph), NextStoreVersion(r.tags.Keys))
  {
    var wiped, next := r.(worktree := Wiped(r.worktree)), NextStoreVersion(r.tags.Keys);
    WrittenHashCertifies(sha, wiped, next);
    MakeCommitFacts(s, AddAll(WriteHash(sha, wiped, next)));
    hide Reaches, SameHistory;
  }

  /** In a run it is work outside of the program's sync: one commit on top of HEAD, no tag, no fetch. */
  lemma LocalNukeIsWork(sha: Hasher, s: Server, r: Repo)
    requires s.Valid() && r.Valid(s.graph)
    ensures var (server, nuked) := NukedLocally(sha, s, r);
      |server.graph| == |s.graph| + 1 && server == s.(graph := server.graph) && WorkedOn(s, r, [server.graph[|s.graph|]], nuked)
  {
    var (server, nuked) := NukedLocally(sha, s, r);
    NukedLocallyFacts(sha, s, r);
    var added := AddAll(WriteHash(sha, r.(worktree := Wiped(r.worktree)), NextStoreVersion(r.tags.Keys)));
    MakeCommitFacts(s, added);
    assert server.graph == s.graph + [server.graph[|s.graph|]];
    hide Reaches, SameHistory, NextStoreVersion, Wiped, WriteHash;
  }

  /**
   After such a nuke there is nothing to track exactly if, since then, the wiped commit has
   not reached the remote nor got a tag, and no tag has come in that makes the next version
   another one; so always when nothing at all has come in.
   */
  lemma NukedIsUntracked(sha: Hasher, s: Server, r: Repo, later: Server)
    requires s.Valid() && r.Valid(s.graph) && NukedLocally(sha, s, r).0.Forward(later) && TagsAgree(later, r)
    ensures var nuked := NukedLocally(sha, s, r).1; var fetched := Fetched(later, nuked);
      && fetched.Valid(later.graph) && nuked.head < |later.graph|
      && (NothingToTrack(sha, later, fetched) <==>
            && HeadVersionTags(fetched) == [] && !Reaches(later.graph, nuked.head, later.tip)
            && NextStoreVersion(fetched.tags.Keys) == NextStoreVersion(r.tags.Keys))
      && (later.tip == s.tip && Within(later.tags, r.tags) ==> NothingToTrack(sha, later, fetched))
  {
    var (server, nuked) := NukedLocally(sha, s, r);
    var fetched := Fetched(later, nuked);
    NukedLocallyFacts(sha, s, r);
    hide NukedLocally, Reaches, Certified, NextStoreVersion;
    LostPushStrandsExactly(sha, server, later, nuked, NextStoreVersion(r.tags.Keys));
    if later.tip == s.tip && Within(later.tags, r.tags) {
      assert fetched.tags == r.tags;
      NoTagsListed(fetched);
      if Reaches(later.graph, nuked.head, later.tip) { ReachesIsEarlier(later.graph, nuked.head, later.tip); }
    }
  }

  /**
   The sync after such a nuke, if its preview gets through: it commits nothing, and throws
   at version tracking exactly if there is nothing to track.
   */
  lemma LocalNukeStrands(sha: Hasher, s: Server, r: Repo, later: Server, input: Input)
    requires s.Valid() && r.Valid(s.graph) && NukedLocally(sha, s, r).0.Forward(later) && !input.Break?
    ensures var nuked := NukedLocally(sha, s, r).1; nuked.Valid(later.graph)
    ensures var nuked := NukedLocally(sha, s, r).1; var fetched, ss := Fetched(later, nuked), PreviewStep(later, NewSession(nuked));
      && fetched.Valid(later.graph) && ss.repo.Valid(later.graph)
      && (ss.phase == Fetching ==>
            var staging := Step(sha, later, ss, input).1;
            var tracking := Step(sha, later, staging, input).1;
            && tracking.phase == Tracking && tracking.repo == fetched && Step(sha, later, staging, input).0 == later
            && (TrackVersion(sha, later, fetched, "").TrackRefused? <==> NothingToTrack(sha, later, fetched))
            && (NothingToTrack(sha, later, fetched) ==> Step(sha, later, tracking, input) == (later, tracking.(phase := Failed))))
  {
    var (server, nuked) := NukedLocally(sha, s, r);
    NukedLocallyFacts(sha, s, r);
    assert nuked.Valid(later.graph) && nuked.Clean(later.graph);
    hide NukedLocally, Reaches, Certified, NextStoreVersion;
    NewSessionHolds(later, nuked);
    var ss := PreviewStep(later, NewSession(nuked));
    FetchIsFair(later, NewSession(nuked));
    FetchesTags(later, NewSession(nuked));
    if ss.phase == Fetching {
      assert later.tags + (later.tags + nuked.tags) == later.tags + nuked.tags;
      assert Fetched(later, ss.repo) == Fetched(later, nuked) && TagsAgree(later, ss.repo);
      hide PreviewStep, SessionHolds, Fair, Step, TrackVersion, NothingToTrack;
      RetryThrowsExactly(sha, later, ss, input);
    }
  }

  /**
   A clean store without any password is committed and published again by nuking it,
   unless its hash file happens to be that of the version that would come next.
   */
  lemma NukingNothingCommits(sha: Hasher, s: Server, r: Repo)
    requires s.Valid() && r.Valid(s.graph) && r.Clean(s.graph) && (forall p :: p in r.worktree ==> !IsPasswordPath(p))
    ensures Wiped(r.worktree) == r.worktree
    ensures AlreadyNuked(sha, r, r.HeadTree(s.graph)) <==> Certified(sha, r.HeadTree(s.graph), NextStoreVersion(r.tags.Keys))
  {
    var next, tree := NextStoreVersion(r.tags.Keys), r.HeadTree(s.graph);
    assert Wiped(tree) == tree;
    assert tree[HASH_FILE := HashLine(sha, tree, next)] == tree <==> Certified(sha, tree, next);
  }

  // ---------------------------------------------------------------- the command sequences

  /** A command that nobody gets in before. */
  const COMMAND := Leg(None, Accept)

  /** A command that never reaches the remote, and leaves everything as it was. */
  const LOST := Break(false, None)

  function LegOf(gap: Gap, input: Input): Leg { Leg(Some(gap.others), if gap.lost then LOST else input) }

  function PrepareLegs(fetch: Gap): seq<Leg> { [LegOf(fetch, Accept), COMMAND, COMMAND] }

  function PublishLegs(push: Gap, tag: Gap): seq<Leg> { [LegOf(push, Accept), COMMAND, LegOf(tag, Accept)] }

  function PullLegs(gaps: Gaps, left: Tree): seq<Leg> { [LegOf(gaps.pull, Go(left))] + PublishLegs(gaps.push, gaps.tag) }

  /** Fetch, commit, track, pull, push, tag and push the tag. */
  function SyncLegs(gaps: Gaps, left: Tree): seq<Leg> { PrepareLegs(gaps.fetch) + PullLegs(gaps, left) }

  /** What follows the preview. */
  function ScreenLegs(reviewed: bool, gaps: Gaps, left: Tree): seq<Leg> {
    if reviewed then PrepareLegs(gaps.fetch) + [Leg(None, Go(left))] else SyncLegs(gaps, left)
  }

  lemma ScreenLegsAre(reviewed: bool, gaps: Gaps, left: Tree)
    ensures ScreenLegs(true, gaps, left) == PrepareLegs(gaps.fetch) + [Leg(None, Go(left))]
    ensures ScreenLegs(false, gaps, left) == SyncLegs(gaps, left)
  {
  }

  lemma PlayStops(sha: Hasher, s: Server, ss: Session)
    requires SessionHolds(s, ss)
    ensures Play(sha, s, ss, []) == (s, ss)
  {
  }

  lemma NextVersionIsSomething(tags: set<string>)
    ensures NextStoreVersion(tags) != ""
  {
  }

  lemma FinishedIsTagged(s: Server, ss: Session)
    requires SessionHolds(s, ss)
    ensures ss.phase == Finished && ss.version != "" ==>
      "v" + ss.version in s.tags && s.tags["v" + ss.version] == TagTarget(ss)
  {
  }

  /** A conflicting pull leaves some path unmerged. */
  lemma ConflictsAreSome(s: Server, r: Repo, left: Tree)
    requires s.Valid() && r.Valid(s.graph)
    ensures var p := Pull(s, r, left); p.PullConflict? ==> p.repo.unmerged.Keys != {}
  {
    hide Reaches, MergeInto, MergeBase, MakeCommit;
  }

  predicate IsPasswordPath(p: Path) { NukeSweep.IsPassword(PathNames.Segments(p)) }

  /** The files that the removal pass leaves. */
  function Wiped(t: Tree): Tree { map p | p in t && !IsPasswordPath(p) :: t[p] }

  /** A file of that folder and name is a password: it is outside `.git`, and some other name with ".gpg" after it. */
  ghost predicate PasswordAt(folder: seq<string>, leaf: string) {
    (folder + [leaf])[0] != ".git" && NukeSweep.EndsInGpg(leaf)
  }

  /** `after` has no password, and of all other files what `before` has, but for the hash file. */
  ghost predicate PasswordsGone(before: Tree, after: Tree) {
    forall folder: seq<string>, leaf: string ::
      PathNames.Components(folder + [leaf]) && PathNames.Joined(folder + [leaf]) != HASH_FILE ==>
        var path := PathNames.Joined(folder + [leaf]);
        Get(after, path) == if PasswordAt(folder, leaf) then None else Get(before, path)
  }

  lemma WipedHasNoPassword(before: Tree, after: Tree)
    requires SameButHash(after, Wiped(before))
    ensures PasswordsGone(before, after)
  {
    forall folder: seq<string>, leaf: string | PathNames.Components(folder + [leaf]) && PathNames.Joined(folder + [leaf]) != HASH_FILE
      ensures var path := PathNames.Joined(folder + [leaf]);
        Get(after, path) == if PasswordAt(folder, leaf) then None else Get(before, path)
    {
      var path := PathNames.Joined(folder + [leaf]);
      PathNames.SegmentsOfJoined(folder + [leaf]);
      NukeSweep.PasswordsExactly(folder + [leaf]);
      SameButHashAt(after, Wiped(before), path);
    }
  }

  lemma StillReaches(g: Graph, h: Graph, a: nat, b: nat, c: nat)
    requires g <= h && b < |g| && c < |h| && Reaches(g, a, b) && Reaches(h, b, c)
    ensures Reaches(h, a, c)
  {
    ReachesIsStable(g, h, a, b);
    ReachesIsTransitive(h, a, b, c);
  }

  /** Tracked files become the new commit's, what was tracked before goes, untracked files stay. */
  function AfterReset(r: Repo, tree: Tree, p: Path): Option<string> {
    if p in tree then Get(tree, p)
    else if p in r.index || p in r.unmerged then None
    else Get(r.worktree, p)
  }

  /** What others push changes neither the history nor the tree of this HEAD. */
  lemma StillWiped(s0: Server, s1: Server, s2: Server, a: nat, r1: Repo, r2: Repo)
    requires s0.graph <= s1.graph <= s2.graph && r1.head < |s1.graph| && r2.head == r1.head
    requires r2.index == r1.index && r2.unmerged == r1.unmerged && r2.worktree == r1.worktree
    ensures Reaches(s2.graph, a, r2.head) <==> Reaches(s1.graph, a, r1.head)
    ensures r2.HeadTree(s2.graph) == r1.HeadTree(s1.graph) && r2.Clean(s2.graph) == r1.Clean(s1.graph) && s0.graph <= s2.graph
  {
    ReachesIsStable(s1.graph, s2.graph, a, r1.head);
  }

  lemma KeepsValid(s: Server, later: Server, r: Repo)
    requires s.Forward(later) && r.Valid(s.graph)
    ensures r.Valid(later.graph)
  {
  }

  method Partition(local: set<Path>, remotely: set<Path>)
    returns (overlapping: seq<Path>, localOnly: seq<Path>, remoteOnly: seq<Path>)
    ensures overlapping == Listing(Bytes, local * remotely)
    ensures localOnly == Listing(Bytes, local - remotely)
    ensures remoteOnly == Listing(Bytes, remotely - local)
  {
    var paths := ListSet(local + remotely);
    SortUniqueSorts(Bytes, paths);
    ghost var listed := Elements(paths);
    paths := SortUnique(Bytes, paths);
    assert forall p :: p in paths <==> p in Elements(paths);
    ghost var both := (p: Path) => p in local && p in remotely;
    ghost var onlyLocal := (p: Path) => p in local && p !in remotely;
    ghost var onlyRemote := (p: Path) => p in remotely && p !in local;
    overlapping, localOnly, remoteOnly := [], [], [];
    for i := 0 to |paths|
      invariant overlapping == Kept(paths[..i], both)
      invariant localOnly == Kept(paths[..i], onlyLocal)
      invariant remoteOnly == Kept(paths[..i], onlyRemote)
    {
      var path := paths[i];
      assert paths[..i + 1] == paths[..i] + [path];
      KeptSnoc(paths[..i], path, both);
      KeptSnoc(paths[..i], path, onlyLocal);
      KeptSnoc(paths[..i], path, onlyRemote);
      if path in local && path in remotely {
        overlapping := overlapping + [path];
      } else if path in local {
        localOnly := localOnly + [path];
      } else if path in remotely {
        remoteOnly := remoteOnly + [path];
      }
    }
    assert paths[..|paths|] == paths;
    KeptIsListing(Bytes, paths, both, local * remotely);
    KeptIsListing(Bytes, paths, onlyLocal, local - remotely);
    KeptIsListing(Bytes, paths, onlyRemote, remotely - local);
  }
}
