/**
 What the program does with git: committing the local state with its checksum, giving
 it a version, previewing, resolving conflicts, finishing a merge. Each procedure is a
 function of the server's and the client's state; an empty version means "none".
 */
module SyncProtocol {
  import opened Options
  import opened StoreManifest
  import opened StoreVersion
  import opened GitModel

  type Hasher = string -> string

  ghost function WriteHash(sha: Hasher, r: Repo, version: string): Repo {
    r.(worktree := r.worktree[HASH_FILE := HashLine(sha, r.worktree, version)])
  }

  /** A tree that carries the checksum of itself. */
  ghost predicate Certified(sha: Hasher, t: Tree, version: string) {
    Get(t, HASH_FILE) == Some(HashLine(sha, t, version))
  }

  predicate SameButHash(a: Tree, b: Tree) { a - {HASH_FILE} == b - {HASH_FILE} }

  // ---------------------------------------------------------------- commit stage

  datatype Staged = Staged(server: Server, repo: Repo, version: string)

  ghost function StageAndCommit(sha: Hasher, s: Server, r: Repo): Staged
    requires s.Valid() && r.Valid(s.graph)
  {
    var version := if r.Clean(s.graph) then "" else NextStoreVersion(r.tags.Keys);
    var added := AddAll(if r.Clean(s.graph) then r else WriteHash(sha, r, version));
    if added.index == added.HeadTree(s.graph) then Staged(s, added, version)
    else var (server, repo) := MakeCommit(s, added); Staged(server, repo, version)
  }

  datatype Tracked = TrackRefused | Tracked(server: Server, repo: Repo, version: string)

  ghost predicate IsHeadVersionTag(r: Repo, tag: string) {
    tag in r.tags && r.tags[tag] == r.head && TAG_PREFIX <= tag
  }

  /** The first line of `git tag --points-at HEAD`, sorted. */
  ghost function HeadVersionTags(r: Repo): seq<string> {
    Ordering.Listing(Ordering.Bytes, set t | t in r.tags && IsHeadVersionTag(r, t))
  }

  lemma NoTagsListed(r: Repo)
    requires forall t :: t in r.tags ==> r.tags[t] != r.head
    ensures HeadVersionTags(r) == []
  {
    assert (set t | t in r.tags && IsHeadVersionTag(r, t)) == {};
    Ordering.ListingSorts(Ordering.Bytes, {});
    FirstIsElement(HeadVersionTags(r));
  }

  lemma FirstIsElement(xs: seq<string>)
    ensures xs != [] ==> Ordering.Elements(xs) != {}
  {
    if xs != [] { assert xs[0] in Ordering.Elements(xs); }
  }

  ghost function TrackVersion(sha: Hasher, s: Server, r: Repo, version: string): Tracked
    requires s.Valid() && r.Valid(s.graph)
  {
    if version != "" then Tracked(s, r, version)
    else if HeadVersionTags(r) != [] then
      Ordering.ListingSorts(Ordering.Bytes, set t | t in r.tags && IsHeadVersionTag(r, t));
      assert HeadVersionTags(r)[0] in Ordering.Elements(HeadVersionTags(r));
      Tracked(s, r, HeadVersionTags(r)[0][1..])
    else if Reaches(s.graph, r.head, r.origin) then Tracked(s, r, "")
    else
      var next := NextStoreVersion(r.tags.Keys);
      var written := WriteHash(sha, r, next);
      var added := written.(index := written.index[HASH_FILE := written.worktree[HASH_FILE]]);
      if added.index == added.HeadTree(s.graph) && added.mergeHead.None? then TrackRefused
      else var (server, repo) := MakeCommit(s, added); Tracked(server, repo, next)
  }

  /** `g2`/`h2` extends `g1`/`h1` by commits of its own, but gains no old ancestor. */
  ghost predicate SameHistory(g1: Graph, h1: nat, g2: Graph, h2: nat) {
    && h1 < |g1| && h2 < |g2| && g1 <= g2
    && forall c: nat :: c < |g1| ==> (Reaches(g2, c, h2) <==> Reaches(g1, c, h1))
  }

  lemma MakeCommitFacts(s: Server, r: Repo)
    requires s.Valid() && r.Valid(s.graph)
    ensures var (server, repo) := MakeCommit(s, r);
      && s.Forward(server) && server.tip == s.tip && server.tags == s.tags
      && repo.Valid(server.graph)
      && repo == r.(head := |s.graph|, mergeHead := None)
      && repo.HeadTree(server.graph) == r.index
      && Reaches(server.graph, r.head, repo.head)
      && (r.mergeHead.Some? ==> Reaches(server.graph, r.mergeHead.value, repo.head))
      && (r.mergeHead.None? ==> SameHistory(s.graph, r.head, server.graph, repo.head))
  {
    var (server, repo) := MakeCommit(s, r);
    var parents := server.graph[repo.head].parents;
    assert parents[0] == r.head && Reaches(server.graph, r.head, parents[0]);
    ReachesIsStable(s.graph, server.graph, s.tip, s.tip);
    if r.mergeHead.Some? {
      assert parents[1] == r.mergeHead.value && Reaches(server.graph, parents[1], parents[1]);
    } else {
      forall c: nat | c < |s.graph|
        ensures Reaches(server.graph, c, repo.head) <==> Reaches(s.graph, c, r.head)
      {
        ReachesIsStable(s.graph, server.graph, c, r.head);
        assert Reaches(server.graph, c, parents[0]) <==> Reaches(s.graph, c, r.head);
      }
    }
  }

  lemma WrittenHashCertifies(sha: Hasher, r: Repo, version: string)
    ensures Certified(sha, WriteHash(sha, r, version).worktree, version)
    ensures SameButHash(WriteHash(sha, r, version).worktree, r.worktree)
  {
    WritingHashKeepsIt(sha, r.worktree, HashLine(sha, r.worktree, version));
  }

  /** What the commit stage promises. */
  ghost predicate Stages(sha: Hasher, s: Server, r: Repo, st: Staged)
    requires s.Valid() && r.Valid(s.graph)
  {
    && s.Forward(st.server) && st.server.tip == s.tip && st.server.tags == s.tags
    && st.repo.Valid(st.server.graph) && st.repo.Clean(st.server.graph)
    && st.repo.origin == r.origin && st.repo.tags == r.tags
    && Reaches(st.server.graph, r.head, st.repo.head)
    && SameButHash(st.repo.HeadTree(st.server.graph), r.worktree)
    && (st.version == "" <==> r.Clean(s.graph))
    && (r.Clean(s.graph) ==> st.server == s && st.repo == r)
    && (st.version != "" ==> Certified(sha, st.repo.HeadTree(st.server.graph), st.version))
    && (r.mergeHead.None? ==> st.repo.mergeHead.None? && SameHistory(s.graph, r.head, st.server.graph, st.repo.head))
  }

  lemma DirtyStageFacts(sha: Hasher, s: Server, r: Repo)
    requires s.Valid() && r.Valid(s.graph) && !r.Clean(s.graph)
    ensures Stages(sha, s, r, StageAndCommit(sha, s, r))
  {
    var version := NextStoreVersion(r.tags.Keys);
    WrittenHashCertifies(sha, r, version);
    var written := WriteHash(sha, r, version);
    assert written == r.(worktree := written.worktree);
    ForwardIsReflexive(s);
    if AddAll(written).index != r.HeadTree(s.graph) {
      CommitStages(sha, s, r, written, version);
    }
  }

  lemma CommitStages(sha: Hasher, s: Server, r: Repo, written: Repo, version: string)
    requires s.Valid() && r.Valid(s.graph) && !r.Clean(s.graph) && written == r.(worktree := written.worktree)
    requires SameButHash(written.worktree, r.worktree) && Certified(sha, written.worktree, version) && version != ""
    ensures var (server, repo) := MakeCommit(s, AddAll(written)); Stages(sha, s, r, Staged(server, repo, version))
  {
    hide Reaches, Certified, SameButHash, SameHistory;
    MakeCommitFacts(s, AddAll(written));
    hide MakeCommit;
  }

  /** The commit stage keeps all local content, leaves the repository clean, and certifies what it commits. */
  lemma StageFacts(sha: Hasher, s: Server, r: Repo)
    requires s.Valid() && r.Valid(s.graph)
    ensures Stages(sha, s, r, StageAndCommit(sha, s, r))
  {
    if r.Clean(s.graph) {
      ForwardIsReflexive(s);
    } else {
      DirtyStageFacts(sha, s, r);
    }
  }

  /** The tracking commit adds nothing but the hash file and certifies the tree it makes. */
  lemma TrackFacts(sha: Hasher, s: Server, r: Repo, version: string)
    requires s.Valid() && r.Valid(s.graph) && r.Clean(s.graph)
    ensures var tr := TrackVersion(sha, s, r, version);
      tr.Tracked? ==>
        && s.Forward(tr.server) && tr.server.tip == s.tip && tr.server.tags == s.tags
        && tr.repo.Valid(tr.server.graph) && tr.repo.Clean(tr.server.graph)
        && tr.repo.origin == r.origin && tr.repo.tags == r.tags
        && Reaches(tr.server.graph, r.head, tr.repo.head)
        && SameButHash(tr.repo.HeadTree(tr.server.graph), r.worktree)
        && (tr.version == "" ==> tr.server == s && tr.repo == r && Reaches(s.graph, r.head, r.origin))
        && (tr.repo.head != r.head ==> Certified(sha, tr.repo.HeadTree(tr.server.graph), tr.version))
        && (r.mergeHead.None? ==> tr.repo.mergeHead.None? && SameHistory(s.graph, r.head, tr.server.graph, tr.repo.head))
  {
    var next := NextStoreVersion(r.tags.Keys);
    var written := WriteHash(sha, r, next);
    WrittenHashCertifies(sha, r, next);
    var added := written.(index := written.index[HASH_FILE := written.worktree[HASH_FILE]]);
    assert added.index == added.worktree;
    MakeCommitFacts(s, added);
    ForwardIsReflexive(s);
    if HeadVersionTags(r) != [] {
      Ordering.ListingSorts(Ordering.Bytes, set t | t in r.tags && IsHeadVersionTag(r, t));
      assert HeadVersionTags(r)[0] in Ordering.Elements(HeadVersionTags(r));
      TagNameIsLong(HeadVersionTags(r)[0]);
    }
  }

  /** Where a version comes from: given before, carried by HEAD's own tag, or next above all known tags. */
  lemma TrackChooses(sha: Hasher, s: Server, r: Repo, version: string)
    requires s.Valid() && r.Valid(s.graph) && TrackVersion(sha, s, r, version).Tracked?
    ensures var tr := TrackVersion(sha, s, r, version);
      if version != "" then tr.version == version
      else
        || tr.version == "" || tr.version == NextStoreVersion(r.tags.Keys)
        || ("v" + tr.version in r.tags && r.tags["v" + tr.version] == r.head)
  {
    if HeadVersionTags(r) != [] {
      Ordering.ListingSorts(Ordering.Bytes, set t | t in r.tags && IsHeadVersionTag(r, t));
      var tag := HeadVersionTags(r)[0];
      assert tag in Ordering.Elements(HeadVersionTags(r));
      assert "v" + tag[1..] == tag;
    }
  }

  lemma TagNameIsLong(tag: string)
    requires TAG_PREFIX <= tag
    ensures tag[1..] != ""
  {
  }

  /**
   When the tracking step throws instead: nothing was committed, no version tag is on
   HEAD, HEAD is not on the remote yet, and HEAD's own hash file is already the one the
   next version would write. git then has nothing to commit, and the program treats that
   as a failure.
   */
  lemma TrackRefusedExactly(sha: Hasher, s: Server, r: Repo, version: string)
    requires s.Valid() && r.Valid(s.graph) && r.Clean(s.graph)
    ensures TrackVersion(sha, s, r, version).TrackRefused? <==>
      && version == "" && HeadVersionTags(r) == [] && !Reaches(s.graph, r.head, r.origin)
      && r.mergeHead.None? && Certified(sha, r.HeadTree(s.graph), NextStoreVersion(r.tags.Keys))
  {
    var next := NextStoreVersion(r.tags.Keys);
    var tree := r.HeadTree(s.graph);
    assert tree[HASH_FILE := HashLine(sha, tree, next)] == tree <==> Certified(sha, tree, next);
  }

  /**
   A sync that commits and then never reaches its push: trying again at once, with no new
   local change, no new tag and no pull in between, throws at the tracking step.
   */
  lemma RetryAfterLostPushThrows(sha: Hasher, s: Server, r: Repo)
    requires s.Valid() && r.Valid(s.graph) && r.mergeHead.None? && !r.Clean(s.graph)
    requires forall t :: t in r.tags ==> r.tags[t] != |s.graph|
    ensures var st := StageAndCommit(sha, s, r);
      st.repo.head != r.head && !Reaches(st.server.graph, st.repo.head, st.repo.origin)
      ==> var again := StageAndCommit(sha, st.server, st.repo);
          again.repo == st.repo && again.version == "" && TrackVersion(sha, again.server, again.repo, "").TrackRefused?
  {
    var st := StageAndCommit(sha, s, r);
    StageFacts(sha, s, r);
    StageFacts(sha, st.server, st.repo);
    TrackRefusedExactly(sha, st.server, st.repo, "");
    if st.repo.head != r.head {
      assert st.repo.head == |s.graph|;
      assert (set t | t in st.repo.tags && IsHeadVersionTag(st.repo, t)) == {};
    }
  }

  // ---------------------------------------------------------------- conflicts

  /** Keeping one side of a path; None when a git command fails and the program throws. */
  function ResolveConflict(g: Graph, r: Repo, path: Path, local: bool): Option<Repo>
    requires r.Valid(g)
  {
    var side := CheckoutSide(r, path, local);
    var tree := if local then r.HeadTree(g) else g[r.origin].tree;
    if side.Some? then Some(AddPath(side.value, path))
    else if path in tree then Some(CheckoutRevision(r, tree, path))
    else RemovePath(r, path)
  }

  /** The program's `stage_file` after an edit. */
  function StageFile(r: Repo, path: Path): Option<Repo> {
    if path in r.worktree then Some(AddPath(r, path)) else RemovePath(r, path)
  }

  /** A merge of `origin` into `head` that is being reviewed. */
  ghost predicate Reviewing(g: Graph, r: Repo) {
    && r.Valid(g)
    && (forall p :: p !in r.unmerged ==> Get(r.worktree, p) == Get(r.index, p))
    && (forall p :: p in r.unmerged ==>
          && p !in r.index
          && r.unmerged[p].ours == Get(r.HeadTree(g), p)
          && r.unmerged[p].theirs == Get(g[r.origin].tree, p))
  }

  ghost function Chosen(g: Graph, r: Repo, path: Path, local: bool): Option<string>
    requires r.Valid(g)
  {
    Get(if local then r.HeadTree(g) else g[r.origin].tree, path)
  }

  /** Same state at every path but one. */
  ghost predicate SameElsewhere(a: Repo, b: Repo, path: Path) {
    && a.head == b.head && a.origin == b.origin && a.mergeHead == b.mergeHead && a.tags == b.tags
    && b.unmerged.Keys - {path} == a.unmerged.Keys - {path}
    && (forall p :: p != path ==> Get(b.index, p) == Get(a.index, p) && Get(b.worktree, p) == Get(a.worktree, p))
    && (forall p :: p != path && p in a.unmerged ==> p in b.unmerged && b.unmerged[p] == a.unmerged[p])
  }

  /** A path settled in index and worktree alike. */
  function Settle(r: Repo, path: Path, content: Option<string>): Repo {
    r.(index := Put(r.index, path, content), worktree := Put(r.worktree, path, content), unmerged := r.unmerged - {path})
  }

  lemma SettleFacts(g: Graph, r: Repo, path: Path, content: Option<string>)
    requires Reviewing(g, r)
    ensures var next := Settle(r, path, content);
      && Reviewing(g, next)
      && next.unmerged.Keys == r.unmerged.Keys - {path}
      && Get(next.index, path) == content && Get(next.worktree, path) == content
      && SameElsewhere(r, next, path)
  {
    var next := Settle(r, path, content);
    assert forall p :: p != path ==> Get(next.index, p) == Get(r.index, p) && Get(next.worktree, p) == Get(r.worktree, p);
  }

  lemma ResolvingSettles(g: Graph, r: Repo, path: Path, local: bool)
    requires Reviewing(g, r) && path in r.unmerged
    ensures ResolveConflict(g, r, path, local) == Some(Settle(r, path, Chosen(g, r, path, local)))
  {
    var content := Chosen(g, r, path, local);
    var side := CheckoutSide(r, path, local);
    if side.Some? {
      assert Get(side.value.worktree, path) == content;
    }
  }

  /**
   Resolving an unmerged path never fails. It settles exactly that path, with the chosen
   side's content or, when that side deleted the file, with its absence.
   */
  lemma ResolvingSettlesOnePath(g: Graph, r: Repo, path: Path, local: bool)
    requires Reviewing(g, r) && path in r.unmerged
    ensures var next := ResolveConflict(g, r, path, local);
      && next.Some? && Reviewing(g, next.value)
      && next.value.unmerged.Keys == r.unmerged.Keys - {path}
      && Get(next.value.index, path) == Chosen(g, r, path, local)
      && Get(next.value.worktree, path) == Chosen(g, r, path, local)
      && SameElsewhere(r, next.value, path)
  {
    ResolvingSettles(g, r, path, local);
    SettleFacts(g, r, path, Chosen(g, r, path, local));
  }

  datatype Answer = KeepLocal | KeepRemote | AbortSync

  /** One question per conflict, in order; the flag is false when the user gave up or a command failed. */
  function ResolveAll(g: Graph, r: Repo, conflicts: seq<Path>, answers: seq<Answer>): (bool, Repo)
    requires r.Valid(g) && |answers| == |conflicts|
    decreases |conflicts|
  {
    if conflicts == [] then (true, r)
    else if answers[0] == AbortSync then
      (match AbortMerge(g, r) case None => (false, r) case Some(back) => (false, back))
    else match ResolveConflict(g, r, conflicts[0], answers[0] == KeepLocal)
      case None => (false, r)
      case Some(next) => ResolveAll(g, next, conflicts[1..], answers[1..])
  }

  ghost predicate Distinct(xs: seq<Path>) { forall i, j :: 0 <= i < j < |xs| ==> xs[i] != xs[j] }

  /** Nothing unmerged is left; answered paths hold the chosen side, all others what they held. */
  ghost predicate Settled(g: Graph, r: Repo, end: Repo, conflicts: seq<Path>, answers: seq<Answer>)
    requires r.Valid(g) && |answers| == |conflicts|
  {
    && end.head == r.head && end.origin == r.origin && end.mergeHead == r.mergeHead
    && end.unmerged == map[] && Reviewing(g, end)
    && (forall i :: 0 <= i < |conflicts| ==>
          Get(end.index, conflicts[i]) == Chosen(g, r, conflicts[i], answers[i] == KeepLocal))
    && (forall p :: p !in conflicts ==> Get(end.index, p) == Get(r.index, p))
  }

  lemma SettledStep(g: Graph, r: Repo, next: Repo, end: Repo, conflicts: seq<Path>, answers: seq<Answer>)
    requires r.Valid(g) && next.Valid(g) && |answers| == |conflicts| && conflicts != []
    requires SameElsewhere(r, next, conflicts[0])
    requires Get(next.index, conflicts[0]) == Chosen(g, r, conflicts[0], answers[0] == KeepLocal)
    requires Settled(g, next, end, conflicts[1..], answers[1..]) && conflicts[0] !in conflicts[1..]
    ensures Settled(g, r, end, conflicts, answers)
  {
    assert conflicts == [conflicts[0]] + conflicts[1..];
    forall i | 0 <= i < |conflicts|
      ensures Get(end.index, conflicts[i]) == Chosen(g, r, conflicts[i], answers[i] == KeepLocal)
    {
      if i > 0 { assert conflicts[i] == conflicts[1..][i - 1] && answers[i] == answers[1..][i - 1]; }
    }
  }

  /** What answering the conflicts in turn comes to. */
  ghost predicate Answered(g: Graph, r: Repo, conflicts: seq<Path>, answers: seq<Answer>)
    requires r.Valid(g) && |answers| == |conflicts|
  {
    var (ok, end) := ResolveAll(g, r, conflicts, answers);
    && (ok <==> AbortSync !in answers)
    && if ok then Settled(g, r, end, conflicts, answers)
       else end.head == r.head && end.Valid(g) && end.Clean(g) && end.mergeHead.None?
  }

  lemma AnsweredStep(g: Graph, r: Repo, next: Repo, conflicts: seq<Path>, answers: seq<Answer>)
    requires r.Valid(g) && next.Valid(g) && |answers| == |conflicts| && conflicts != [] && answers[0] != AbortSync
    requires ResolveConflict(g, r, conflicts[0], answers[0] == KeepLocal) == Some(next)
    requires SameElsewhere(r, next, conflicts[0])
    requires Get(next.index, conflicts[0]) == Chosen(g, r, conflicts[0], answers[0] == KeepLocal)
    requires Answered(g, next, conflicts[1..], answers[1..]) && conflicts[0] !in conflicts[1..]
    ensures Answered(g, r, conflicts, answers)
  {
    var (ok, end) := ResolveAll(g, next, conflicts[1..], answers[1..]);
    assert ResolveAll(g, r, conflicts, answers) == (ok, end);
    assert next.head == r.head;
    assert answers == [answers[0]] + answers[1..];
    hide ResolveAll, ResolveConflict, Settled, SameElsewhere, Chosen;
    if ok { SettledStep(g, r, next, end, conflicts, answers); }
  }

  /**
   Answering every conflict leaves nothing unmerged, so that the merge can be concluded;
   each path holds the chosen side or its absence, and every other path is as the merge
   left it. Giving up anywhere restores the commit the merge started from.
   */
  lemma {:induction false} AnsweringSettlesAll(g: Graph, r: Repo, conflicts: seq<Path>, answers: seq<Answer>)
    requires Reviewing(g, r) && r.mergeHead.Some? && |answers| == |conflicts|
    requires Distinct(conflicts) && forall p :: p in conflicts <==> p in r.unmerged
    ensures Answered(g, r, conflicts, answers)
    decreases |conflicts|
  {
    if conflicts == [] {
      assert r.unmerged.Keys == {};
    } else if answers[0] == AbortSync {
      CancelRestoresCommit(g, r);
    } else {
      var path, local := conflicts[0], answers[0] == KeepLocal;
      ResolvingSettlesOnePath(g, r, path, local);
      var next := ResolveConflict(g, r, path, local).value;
      assert next.mergeHead == r.mergeHead;
      hide ResolveConflict, ResolveAll, Answered, Chosen, SameElsewhere, Reviewing;
      RestIsUnmerged(conflicts, next.unmerged.Keys, r.unmerged.Keys);
      AnsweringSettlesAll(g, next, conflicts[1..], answers[1..]);
      AnsweredStep(g, r, next, conflicts, answers);
    }
  }

  lemma RestIsUnmerged(conflicts: seq<Path>, rest: set<Path>, all: set<Path>)
    requires conflicts != [] && Distinct(conflicts) && rest == all - {conflicts[0]}
    requires forall p :: p in conflicts <==> p in all
    ensures Distinct(conflicts[1..]) && conflicts[0] !in conflicts[1..]
    ensures forall p :: p in conflicts[1..] <==> p in rest
  {
    assert conflicts == [conflicts[0]] + conflicts[1..];
  }

  /** Pressing a key on a file that is not in conflict, or editing any file, keeps the review consistent too. */
  lemma ResolvingKeepsReview(g: Graph, r: Repo, path: Path, local: bool)
    requires Reviewing(g, r) && ResolveConflict(g, r, path, local).Some?
    ensures var next := ResolveConflict(g, r, path, local).value;
      Reviewing(g, next) && next.head == r.head && next.mergeHead == r.mergeHead && next.origin == r.origin
      && next.unmerged.Keys == r.unmerged.Keys - {path}
  {
    if path in r.unmerged {
      ResolvingSettlesOnePath(g, r, path, local);
    } else {
      var tree := if local then r.HeadTree(g) else g[r.origin].tree;
      if path in r.index {
        assert Get(r.worktree, path) == Some(r.index[path]);
        SettleFacts(g, r, path, Some(r.index[path]));
      } else {
        assert CheckoutSide(r, path, local).None?;
        SettleFacts(g, r, path, Get(tree, path));
      }
    }
  }

  lemma EditingKeepsReview(g: Graph, r: Repo, path: Path, content: Option<string>)
    requires Reviewing(g, r)
    requires StageFile(r.(worktree := Put(r.worktree, path, content)), path).Some?
    ensures StageFile(r.(worktree := Put(r.worktree, path, content)), path).value == Settle(r, path, content)
    ensures Reviewing(g, Settle(r, path, content))
  {
    SettleFacts(g, r, path, content);
  }

  /** A merge started from a clean repository is consistently under review. */
  lemma MergeOpensReview(g: Graph, r: Repo, base: nat, left: Tree)
    requires r.Valid(g) && r.Clean(g) && base < |g|
    ensures var m := MergeInto(g, r, base, r.origin, left);
      Reviewing(g, m) && m.head == r.head && m.mergeHead == Some(r.origin)
  {
  }

  /** Cancelling a review gives back exactly the commit it started from, whatever was resolved or edited meanwhile. */
  lemma CancelRestoresCommit(g: Graph, r: Repo)
    requires Reviewing(g, r) && r.mergeHead.Some?
    ensures var back := AbortMerge(g, r);
      back.Some? && back.value.Clean(g) && back.value.Valid(g)
      && back.value == r.(mergeHead := None, unmerged := map[], index := r.HeadTree(g), worktree := r.HeadTree(g))
  {
    var tree := r.HeadTree(g);
    var touched := set p | p in tree.Keys + r.index.Keys + r.unmerged.Keys && (p in r.unmerged || Get(r.index, p) != Get(tree, p));
    var worktree := (r.worktree - touched) + (map p | p in touched && p in tree :: tree[p]);
    assert worktree == tree by { AbortRebuildsTree(r, tree, touched); }
  }

  lemma AbortRebuildsTree(r: Repo, tree: Tree, touched: set<Path>)
    requires forall p :: p in touched <==> p in tree.Keys + r.index.Keys + r.unmerged.Keys && (p in r.unmerged || Get(r.index, p) != Get(tree, p))
    requires forall p :: p !in r.unmerged ==> Get(r.worktree, p) == Get(r.index, p)
    ensures (r.worktree - touched) + (map p | p in touched && p in tree :: tree[p]) == tree
  {
    var worktree := (r.worktree - touched) + (map p | p in touched && p in tree :: tree[p]);
    forall p ensures Get(worktree, p) == Get(tree, p) {
      assert p !in touched ==> Get(r.worktree, p) == Get(r.index, p) == Get(tree, p);
    }
    SameTree(worktree, tree);
  }

  lemma SameTree(a: Tree, b: Tree)
    requires forall p :: Get(a, p) == Get(b, p)
    ensures a == b
  {
    assert forall p :: p in a <==> Get(a, p).Some?;
    assert forall p :: p in b <==> Get(b, p).Some?;
    assert a.Keys == b.Keys;
    forall p | p in a ensures a[p] == b[p] { assert Get(a, p) == Get(b, p); }
  }

  // ---------------------------------------------------------------- finishing a merge

  datatype Finalized = FinalizeRefused | NothingToMerge | MergeCommitted(server: Server, repo: Repo, version: string)

  /** Up to and including the merge commit; pushing it and its tag are separate steps. */
  ghost function FinalizeMerge(sha: Hasher, s: Server, r: Repo, version: string): Finalized
    requires s.Valid() && r.Valid(s.graph)
  {
    if r.unmerged != map[] then FinalizeRefused
    else if r.mergeHead.None? then NothingToMerge
    else
      var resolved := if version == "" then NextStoreVersion(r.tags.Keys) else version;
      var (server, repo) := MakeCommit(s, AddAll(WriteHash(sha, r, resolved)));
      MergeCommitted(server, repo, resolved)
  }

  /** The merge commit has both lines of history, exactly the reviewed content, and its own checksum. */
  lemma FinalizeFacts(sha: Hasher, s: Server, r: Repo, version: string)
    requires s.Valid() && r.Valid(s.graph) && r.unmerged == map[] && r.mergeHead.Some?
    ensures var f := FinalizeMerge(sha, s, r, version);
      && f.MergeCommitted? && f.version != "" && (version != "" ==> f.version == version)
      && s.Forward(f.server) && f.server.tip == s.tip && f.server.tags == s.tags
      && f.repo.Valid(f.server.graph) && f.repo.Clean(f.server.graph) && f.repo.mergeHead.None?
      && f.repo.origin == r.origin && f.repo.tags == r.tags
      && Reaches(f.server.graph, r.head, f.repo.head) && Reaches(f.server.graph, r.mergeHead.value, f.repo.head)
      && SameButHash(f.repo.HeadTree(f.server.graph), r.worktree)
      && Certified(sha, f.repo.HeadTree(f.server.graph), f.version)
  {
    var resolved := if version == "" then NextStoreVersion(r.tags.Keys) else version;
    WrittenHashCertifies(sha, r, resolved);
    MakeCommitFacts(s, AddAll(WriteHash(sha, r, resolved)));
  }

  // ---------------------------------------------------------------- preview

  datatype Preview = Preview(local: set<Path>, remote: set<Path>)

  /** The paths at which two trees differ, as `git diff --name-only` lists them. */
  function DiffPaths(a: Tree, b: Tree): set<Path> {
    set p | p in a.Keys + b.Keys && Get(a, p) != Get(b, p)
  }

  /** The worktree as `git diff <commit>` sees it: a file the index does not know is invisible. */
  function TrackedWorktree(r: Repo): Tree {
    map p | p in r.worktree && (p in r.index || p in r.unmerged) :: r.worktree[p]
  }

  function Untracked(r: Repo): set<Path> { r.worktree.Keys - r.index.Keys - r.unmerged.Keys }

  function BuildPreview(g: Graph, r: Repo, includeWorktree: bool): Option<Preview>
    requires r.Valid(g)
  {
    match MergeBase(g, r.head, r.origin)
    case None => None
    case Some(base) =>
      var local := if includeWorktree then TrackedWorktree(r) else r.HeadTree(g);
      Some(Preview(DiffPaths(g[base].tree, local), DiffPaths(g[base].tree, g[r.origin].tree)))
  }

  /** What git tracks of a file in the worktree. */
  function TrackedFile(r: Repo, p: Path): Option<string> {
    if p in r.index || p in r.unmerged then Get(r.worktree, p) else None
  }

  /**
   The lists of a preview: a path is local exactly if its tracked file, or HEAD's where the
   worktree is not looked at, is not what it was where the branches parted, and remote exactly
   if the remote branch's is not.
   */
  lemma PreviewListsChanges(g: Graph, r: Repo, includeWorktree: bool, p: Path)
    requires r.Valid(g) && BuildPreview(g, r, includeWorktree).Some?
    ensures MergeBase(g, r.head, r.origin).Some?
    ensures var base := g[MergeBase(g, r.head, r.origin).value].tree; var preview := BuildPreview(g, r, includeWorktree).value;
      && (p in preview.local <==> Get(base, p) != if includeWorktree then TrackedFile(r, p) else Get(g[r.head].tree, p))
      && (p in preview.remote <==> Get(base, p) != Get(g[r.origin].tree, p))
  {
    hide Reaches, MergeBase;
    assert Get(TrackedWorktree(r), p) == TrackedFile(r, p);
  }

  /** Committing on top of HEAD does not change where HEAD and the remote branch parted. */
  lemma MergeBaseKept(g1: Graph, h1: nat, g2: Graph, h2: nat, other: nat)
    requires SameHistory(g1, h1, g2, h2) && other < |g1|
    ensures MergeBase(g2, h2, other) == MergeBase(g1, h1, other)
  {
    var b1, b2 := MergeBase(g1, h1, other), MergeBase(g2, h2, other);
    forall c: nat | c < |g2|
      ensures Reaches(g2, c, other) <==> c < |g1| && Reaches(g1, c, other)
    {
      ReachesIsStable(g1, g2, c, other);
      if Reaches(g2, c, other) { ReachesIsEarlier(g2, c, other); }
    }
    if b1.Some? { assert Reaches(g2, b1.value, h2) && Reaches(g2, b1.value, other); }
    if b2.Some? { assert Reaches(g1, b2.value, h1) && Reaches(g1, b2.value, other); }
  }

  lemma SameButHashAt(a: Tree, b: Tree, p: Path)
    requires SameButHash(a, b) && p != HASH_FILE
    ensures Get(a, p) == Get(b, p)
  {
    assert Get(a, p) == Get(a - {HASH_FILE}, p) && Get(b, p) == Get(b - {HASH_FILE}, p);
  }

  /** The state in which a sync reaches its pull, seen from the state that was previewed. */
  lemma CommittedForPull(sha: Hasher, s: Server, r: Repo)
    requires s.Valid() && r.Valid(s.graph) && r.mergeHead.None?
    ensures var st := StageAndCommit(sha, s, r); var tr := TrackVersion(sha, st.server, st.repo, st.version);
      tr.Tracked? ==>
        && tr.server.Valid() && tr.repo.Valid(tr.server.graph) && tr.repo.Clean(tr.server.graph)
        && tr.repo.mergeHead.None? && tr.repo.origin == r.origin && tr.server.tip == s.tip
        && SameButHash(tr.repo.HeadTree(tr.server.graph), r.worktree)
        && SameHistory(s.graph, r.head, tr.server.graph, tr.repo.head)
  {
    StageFacts(sha, s, r);
    var st := StageAndCommit(sha, s, r);
    TrackFacts(sha, st.server, st.repo, st.version);
  }

  /** The paths on which a sync that starts here conflicts; none when it refuses, or pulls cleanly. */
  ghost function SyncConflicts(sha: Hasher, s: Server, r: Repo, left: Tree): set<Path>
    requires s.Valid() && r.Valid(s.graph)
  {
    StageFacts(sha, s, r);
    var st := StageAndCommit(sha, s, r);
    TrackFacts(sha, st.server, st.repo, st.version);
    match TrackVersion(sha, st.server, st.repo, st.version)
    case TrackRefused => {}
    case Tracked(server, repo, _) => PullConflicts(server, repo, left)
  }

  function PullConflicts(s: Server, r: Repo, left: Tree): set<Path>
    requires s.Valid() && r.Valid(s.graph)
  {
    match Pull(s, r, left)
    case PullConflict(m) => m.unmerged.Keys
    case _ => {}
  }

  /** Where a sync can conflict: on paths changed on the remote and, locally, previewed, untracked, or the hash file. */
  lemma PreviewPredictsConflicts(sha: Hasher, s: Server, r: Repo, left: Tree)
    requires s.Valid() && r.Valid(s.graph) && r.mergeHead.None? && r.origin == s.tip
    requires BuildPreview(s.graph, r, true).Some?
    ensures var preview := BuildPreview(s.graph, r, true).value;
      && SyncConflicts(sha, s, r, left) <= preview.remote
      && SyncConflicts(sha, s, r, left) <= preview.local + Untracked(r) + {HASH_FILE}
  {
    CommittedForPull(sha, s, r);
    var st := StageAndCommit(sha, s, r);
    var tr := TrackVersion(sha, st.server, st.repo, st.version);
    if tr.Tracked? {
      MergeBaseKept(s.graph, r.head, tr.server.graph, tr.repo.head, s.tip);
      var base := MergeBase(s.graph, r.head, s.tip).value;
      ConflictsArePreviewed(r, s.graph[base].tree, tr.repo.HeadTree(tr.server.graph), s.graph[s.tip].tree);
      PullConflictsExactly(tr.server, tr.repo, left, base);
    }
    hide StageAndCommit, TrackVersion, Reaches, SameButHash, ConflictsOf, DiffPaths, MergeBase, PullConflicts;
  }

  lemma ConflictsArePreviewed(r: Repo, base: Tree, ours: Tree, theirs: Tree)
    requires SameButHash(ours, r.worktree)
    ensures ConflictsOf(base, ours, theirs).Keys <= DiffPaths(base, theirs)
    ensures ConflictsOf(base, ours, theirs).Keys <= DiffPaths(base, TrackedWorktree(r)) + Untracked(r) + {HASH_FILE}
  {
    forall p | p in ConflictsOf(base, ours, theirs)
      ensures p in DiffPaths(base, theirs)
      ensures p in DiffPaths(base, TrackedWorktree(r)) + Untracked(r) + {HASH_FILE}
    {
      if p != HASH_FILE && p !in Untracked(r) {
        SameButHashAt(ours, r.worktree, p);
        assert Get(TrackedWorktree(r), p) == Get(r.worktree, p);
      }
    }
  }

  /**
   The preview's promise. With no overlapping path, nothing untracked and a remote that
   has not moved, the pull that follows conflicts on nothing but the hash file, and not
   at all when the preview already lists the hash file as changed locally.
   */
  lemma QuietPreviewMeansQuietPull(sha: Hasher, s: Server, r: Repo, left: Tree)
    requires s.Valid() && r.Valid(s.graph) && r.mergeHead.None? && r.origin == s.tip
    requires BuildPreview(s.graph, r, true).Some? && Untracked(r) == {}
    requires BuildPreview(s.graph, r, true).value.local !! BuildPreview(s.graph, r, true).value.remote
    ensures SyncConflicts(sha, s, r, left) <= {HASH_FILE}
    ensures HASH_FILE in BuildPreview(s.graph, r, true).value.local ==> SyncConflicts(sha, s, r, left) == {}
  {
    PreviewPredictsConflicts(sha, s, r, left);
    var preview := BuildPreview(s.graph, r, true).value;
    OnlyHashFile(SyncConflicts(sha, s, r, left), preview.local, preview.remote);
  }

  lemma OnlyHashFile(conflicts: set<Path>, local: set<Path>, remote: set<Path>)
    requires conflicts <= remote && conflicts <= local + {} + {HASH_FILE} && local !! remote
    ensures conflicts <= {HASH_FILE}
    ensures HASH_FILE in local ==> conflicts == {}
  {
  }

  lemma BaseOfAncestor(g: Graph, a: nat, b: nat)
    requires a < |g| && b < |g| && Reaches(g, a, b)
    ensures MergeBase(g, a, b) == Some(a) && MergeBase(g, b, a) == Some(a)
  {
    forall c: nat | c < |g| && Reaches(g, c, a) ensures c <= a { ReachesIsEarlier(g, c, a); }
    assert Reaches(g, a, a);
  }

  /** The conflict set to the letter, hash file aside: three different versions in base, worktree and remote. */
  lemma SyncConflictsExactly(sha: Hasher, s: Server, r: Repo, left: Tree, base: nat)
    requires s.Valid() && r.Valid(s.graph) && r.mergeHead.None?
    requires MergeBase(s.graph, r.head, s.tip) == Some(base)
    requires var st := StageAndCommit(sha, s, r); TrackVersion(sha, st.server, st.repo, st.version).Tracked?
    ensures SyncConflicts(sha, s, r, left) - {HASH_FILE}
      == ConflictsOf(s.graph[base].tree, r.worktree, s.graph[s.tip].tree).Keys - {HASH_FILE}
  {
    CommittedForPull(sha, s, r);
    var st := StageAndCommit(sha, s, r);
    var tr := TrackVersion(sha, st.server, st.repo, st.version);
    MergeBaseKept(s.graph, r.head, tr.server.graph, tr.repo.head, s.tip);
    PullConflictsExactly(tr.server, tr.repo, left, base);
    SameConflicts(s.graph[base].tree, tr.repo.HeadTree(tr.server.graph), r.worktree, s.graph[s.tip].tree);
  }

  lemma PullConflictsExactly(s: Server, r: Repo, left: Tree, base: nat)
    requires s.Valid() && r.Valid(s.graph) && r.mergeHead.None? && MergeBase(s.graph, r.head, s.tip) == Some(base)
    ensures PullConflicts(s, r, left) == ConflictsOf(s.graph[base].tree, r.HeadTree(s.graph), s.graph[s.tip].tree).Keys
  {
    if Reaches(s.graph, s.tip, r.head) {
      BaseOfAncestor(s.graph, s.tip, r.head);
      UndisputedTree(s.graph[base].tree, r.HeadTree(s.graph));
    } else if Reaches(s.graph, r.head, s.tip) {
      BaseOfAncestor(s.graph, r.head, s.tip);
      UndisputedTree(s.graph[base].tree, s.graph[s.tip].tree);
    } else {
      RealPull(s, r, left, base);
    }
  }

  lemma UndisputedTree(base: Tree, other: Tree)
    ensures ConflictsOf(base, base, other).Keys == {} && ConflictsOf(base, other, base).Keys == {}
  {
  }

  lemma RealPull(s: Server, r: Repo, left: Tree, base: nat)
    requires s.Valid() && r.Valid(s.graph) && r.mergeHead.None? && MergeBase(s.graph, r.head, s.tip) == Some(base)
    requires !Reaches(s.graph, s.tip, r.head) && !Reaches(s.graph, r.head, s.tip)
    ensures PullConflicts(s, r, left) == ConflictsOf(s.graph[base].tree, r.HeadTree(s.graph), s.graph[s.tip].tree).Keys
  {
  }

  lemma SameConflicts(base: Tree, ours: Tree, worktree: Tree, theirs: Tree)
    requires SameButHash(ours, worktree)
    ensures ConflictsOf(base, ours, theirs).Keys - {HASH_FILE} == ConflictsOf(base, worktree, theirs).Keys - {HASH_FILE}
  {
    forall p: Path | p != HASH_FILE ensures Get(ours, p) == Get(worktree, p) { SameButHashAt(ours, worktree, p); }
  }

  /**
   What escapes the preview, hash file aside: a conflict on a path that is not listed as
   changed locally is exactly an untracked file that the base lacks and the remote has
   with other content.
   */
  lemma UntrackedFileEscapesPreview(sha: Hasher, s: Server, r: Repo, left: Tree, base: nat, p: Path)
    requires s.Valid() && r.Valid(s.graph) && r.mergeHead.None? && r.origin == s.tip
    requires MergeBase(s.graph, r.head, s.tip) == Some(base)
    requires var st := StageAndCommit(sha, s, r); TrackVersion(sha, st.server, st.repo, st.version).Tracked?
    requires p != HASH_FILE
    ensures BuildPreview(s.graph, r, true).Some?
    ensures p in SyncConflicts(sha, s, r, left) && p !in BuildPreview(s.graph, r, true).value.local
      <==> p in Untracked(r) && p !in s.graph[base].tree
           && p in s.graph[s.tip].tree && s.graph[s.tip].tree[p] != r.worktree[p]
  {
    SyncConflictsExactly(sha, s, r, left, base);
    var conflicts := ConflictsOf(s.graph[base].tree, r.worktree, s.graph[s.tip].tree).Keys;
    assert p in SyncConflicts(sha, s, r, left) <==> p in SyncConflicts(sha, s, r, left) - {HASH_FILE};
    assert p in conflicts <==> p in conflicts - {HASH_FILE};
    EscapesExactly(r, s.graph[base].tree, s.graph[s.tip].tree, p);
  }

  lemma EscapesExactly(r: Repo, base: Tree, theirs: Tree, p: Path)
    ensures p in ConflictsOf(base, r.worktree, theirs) && p !in DiffPaths(base, TrackedWorktree(r))
      <==> p in Untracked(r) && p !in base && p in theirs && theirs[p] != r.worktree[p]
  {
    if p !in Untracked(r) { assert Get(TrackedWorktree(r), p) == Get(r.worktree, p); }
  }

  /** The hash file a client brings to the pull: newly written, unless it had nothing to commit. */
  ghost function OwnHashFile(sha: Hasher, s: Server, r: Repo): Option<string>
    requires s.Valid() && r.Valid(s.graph)
  {
    StageFacts(sha, s, r);
    var st := StageAndCommit(sha, s, r);
    var tr := TrackVersion(sha, st.server, st.repo, st.version);
    if tr.Tracked? && (st.version != "" || tr.repo.head != st.repo.head) then Some(HashLine(sha, r.worktree, tr.version))
    else Get(r.worktree, HASH_FILE)
  }

  /** The hash file conflicts exactly if base, client and remote have three different ones. */
  lemma HashFileConflictsExactly(sha: Hasher, s: Server, r: Repo, left: Tree, base: nat)
    requires s.Valid() && r.Valid(s.graph) && r.mergeHead.None?
    requires MergeBase(s.graph, r.head, s.tip) == Some(base)
    requires var st := StageAndCommit(sha, s, r); TrackVersion(sha, st.server, st.repo, st.version).Tracked?
    ensures HASH_FILE in SyncConflicts(sha, s, r, left) <==>
      InConflict(Sides(Get(s.graph[base].tree, HASH_FILE), OwnHashFile(sha, s, r), Get(s.graph[s.tip].tree, HASH_FILE)))
  {
    CommittedForPull(sha, s, r);
    var st := StageAndCommit(sha, s, r);
    var tr := TrackVersion(sha, st.server, st.repo, st.version);
    MergeBaseKept(s.graph, r.head, tr.server.graph, tr.repo.head, s.tip);
    PullConflictsExactly(tr.server, tr.repo, left, base);
    OwnHashFileIsCommitted(sha, s, r);
    hide StageAndCommit, TrackVersion, OwnHashFile, MergeBase, Reaches;
  }

  lemma OwnHashFileIsCommitted(sha: Hasher, s: Server, r: Repo)
    requires s.Valid() && r.Valid(s.graph) && r.mergeHead.None?
    requires var st := StageAndCommit(sha, s, r); TrackVersion(sha, st.server, st.repo, st.version).Tracked?
    ensures var st := StageAndCommit(sha, s, r); var tr := TrackVersion(sha, st.server, st.repo, st.version);
      tr.repo.head < |tr.server.graph| && Get(tr.repo.HeadTree(tr.server.graph), HASH_FILE) == OwnHashFile(sha, s, r)
  {
    StageFacts(sha, s, r);
    var st := StageAndCommit(sha, s, r);
    TrackFacts(sha, st.server, st.repo, st.version);
    var tr := TrackVersion(sha, st.server, st.repo, st.version);
    SameHashLine(sha, tr.repo.HeadTree(tr.server.graph), r.worktree, tr.version);
    VersionMeansCommit(sha, st.server, st.repo, st.version);
    hide StageAndCommit, TrackVersion, Reaches, SameHistory;
  }

  /** Version tracking either commits or leaves server and repository alone. */
  lemma VersionMeansCommit(sha: Hasher, s: Server, r: Repo, version: string)
    requires s.Valid() && r.Valid(s.graph)
    ensures var tr := TrackVersion(sha, s, r, version);
      tr.Tracked? && tr.repo.head == r.head ==> tr.server == s && tr.repo == r && (version != "" ==> tr.version == version)
  {
  }

  /** The checksum does not depend on the hash file. */
  lemma SameHashLine(sha: Hasher, a: Tree, b: Tree, version: string)
    requires SameButHash(a, b)
    ensures HashLine(sha, a, version) == HashLine(sha, b, version)
  {
    hide StoreHash;
    WritingHashKeepsIt(sha, a, "");
    WritingHashKeepsIt(sha, b, "");
    assert a[HASH_FILE := ""] == (a - {HASH_FILE})[HASH_FILE := ""];
    assert b[HASH_FILE := ""] == (b - {HASH_FILE})[HASH_FILE := ""];
  }

  /** Every conflict of a pull is an overlapping file of the review that follows, so that review is never empty. */
  lemma ConflictsAreReviewed(s: Server, r: Repo, left: Tree)
    requires s.Valid() && r.Valid(s.graph) && Pull(s, r, left).PullConflict?
    ensures var m := Pull(s, r, left).repo;
      m.Valid(s.graph) && BuildPreview(s.graph, m, false).Some?
      && m.unmerged.Keys <= BuildPreview(s.graph, m, false).value.local * BuildPreview(s.graph, m, false).value.remote
  {
  }

  /** What a merge without conflicts makes of a path. */
  lemma MergedPath(base: Tree, ours: Tree, theirs: Tree, p: Path)
    requires p !in ConflictsOf(base, ours, theirs)
    ensures var merged := Get(MergedTree(base, ours, theirs), p);
      && (Get(theirs, p) == Get(base, p) ==> merged == Get(ours, p))
      && (Get(ours, p) == Get(base, p) ==> merged == Get(theirs, p))
      && (Get(ours, p) == Get(theirs, p) ==> merged == Get(ours, p))
  {
  }

  // ---------------------------------------------------------------- syncing again

  /** Once HEAD is the remote tip and nothing has changed, a sync commits nothing, moves nothing and invents no version. */
  lemma RepeatedSyncIsIdle(sha: Hasher, s: Server, r: Repo, left: Tree)
    requires s.Valid() && r.Valid(s.graph) && r.Clean(s.graph) && r.mergeHead.None?
    requires r.head == s.tip && TagsAgree(s, r)
    ensures var f := Fetched(s, r);
      && StageAndCommit(sha, s, f) == Staged(s, f, "")
      && Pull(s, f, left) == Pulled(s, f)
      && PushAccepted(s, f) && PushBranch(s, f) == (s, f)
      && var tr := TrackVersion(sha, s, f, "");
         && tr.Tracked? && tr.server == s && tr.repo == f
         && (tr.version != "" ==>
               var tag := "v" + tr.version;
               tag in f.tags && f.tags[tag] == r.head && TagLocally(f, tag) == f && TagAccepted(s, f, tag))
  {
    var f := Fetched(s, r);
    if HeadVersionTags(f) != [] {
      Ordering.ListingSorts(Ordering.Bytes, set t | t in f.tags && IsHeadVersionTag(f, t));
      var tag := HeadVersionTags(f)[0];
      assert tag in Ordering.Elements(HeadVersionTags(f));
      assert "v" + tag[1..] == tag;
    }
  }
}
