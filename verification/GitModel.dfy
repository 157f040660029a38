/**
 The part of git the program relies on: commits in a growing graph, one shared remote
 branch with its tags, and a client's repository. Each function is one git command; what
 the program does with them is in the modules that import this one.
 */
module GitModel {
  import opened Options
  import opened StoreManifest

  // ---------------------------------------------------------------- commits

  datatype Commit = Commit(parents: seq<nat>, tree: Tree)

  predicate Ordered(commits: seq<Commit>) {
    forall c, i :: 0 <= c < |commits| && 0 <= i < |commits[c].parents| ==> commits[c].parents[i] < c
  }

  /** The commits of all clients, numbered in creation order, so parents come first. */
  type Graph = g: seq<Commit> | Ordered(g) witness []

  predicate Reaches(g: Graph, ancestor: nat, c: nat)
    requires c < |g|
    decreases c
  {
    ancestor == c || exists i :: 0 <= i < |g[c].parents| && Reaches(g, ancestor, g[c].parents[i])
  }

  lemma {:induction false} ReachesIsEarlier(g: Graph, a: nat, c: nat)
    requires c < |g| && Reaches(g, a, c)
    ensures a <= c
    decreases c
  {
    if a != c {
      var i :| 0 <= i < |g[c].parents| && Reaches(g, a, g[c].parents[i]);
      ReachesIsEarlier(g, a, g[c].parents[i]);
    }
  }

  lemma {:induction false} ReachesIsTransitive(g: Graph, a: nat, b: nat, c: nat)
    requires c < |g| && b < |g| && Reaches(g, a, b) && Reaches(g, b, c)
    ensures Reaches(g, a, c)
    decreases c
  {
    if b != c {
      var i :| 0 <= i < |g[c].parents| && Reaches(g, b, g[c].parents[i]);
      ReachesIsTransitive(g, a, b, g[c].parents[i]);
    }
  }

  /** Later commits do not change who is whose ancestor. */
  lemma {:induction false} ReachesIsStable(g: Graph, h: Graph, a: nat, c: nat)
    requires g <= h && c < |g|
    ensures Reaches(h, a, c) <==> Reaches(g, a, c)
    decreases c
  {
    forall i | 0 <= i < |g[c].parents|
      ensures Reaches(h, a, g[c].parents[i]) <==> Reaches(g, a, g[c].parents[i])
    {
      ReachesIsStable(g, h, a, g[c].parents[i]);
    }
  }

  // ---------------------------------------------------------------- the remote

  datatype Server = Server(graph: Graph, tip: nat, tags: map<string, nat>) {
    predicate Valid() {
      tip < |graph| && forall t :: t in tags ==> tags[t] < |graph|
    }

    /** What any number of pushes without force, by anyone, can make of this server. */
    predicate Forward(later: Server) {
      && Valid() && later.Valid()
      && graph <= later.graph
      && Reaches(later.graph, tip, later.tip)
      && (forall t :: t in tags ==> t in later.tags && later.tags[t] == tags[t])
    }
  }

  lemma ForwardIsReflexive(s: Server)
    requires s.Valid()
    ensures s.Forward(s)
  {
  }

  lemma ForwardIsTransitive(a: Server, b: Server, c: Server)
    requires a.Forward(b) && b.Forward(c)
    ensures a.Forward(c)
  {
    ReachesIsStable(b.graph, c.graph, a.tip, b.tip);
    ReachesIsTransitive(c.graph, a.tip, b.tip, c.tip);
  }

  // ---------------------------------------------------------------- a client's repository

  /** The three versions of a path that a merge could not decide. */
  datatype Sides = Sides(base: Option<string>, ours: Option<string>, theirs: Option<string>)

  /** `origin` is the remote-tracking branch, `mergeHead` the commit being merged in. */
  datatype Repo = Repo(
    head: nat, origin: nat, mergeHead: Option<nat>,
    index: Tree, unmerged: map<Path, Sides>, worktree: Tree, tags: map<string, nat>)
  {
    predicate Valid(g: Graph) {
      && head < |g| && origin < |g| && (mergeHead.Some? ==> mergeHead.value < |g|)
      && forall t :: t in tags ==> tags[t] < |g|
    }

    function HeadTree(g: Graph): Tree
      requires head < |g|
    {
      g[head].tree
    }

    /** Nothing staged, nothing changed, nothing untracked, no conflict. */
    predicate Clean(g: Graph)
      requires head < |g|
    {
      worktree == index && index == HeadTree(g) && unmerged == map[]
    }
  }

  function Get(t: Tree, p: Path): Option<string> { if p in t then Some(t[p]) else None }

  function Put(t: Tree, p: Path, content: Option<string>): Tree {
    if content.Some? then t[p := content.value] else t - {p}
  }

  function AddAll(r: Repo): Repo { r.(index := r.worktree, unmerged := map[]) }

  /** A commit of the index; a merge in progress becomes its second parent. */
  function MakeCommit(s: Server, r: Repo): (Server, Repo)
    requires s.Valid() && r.Valid(s.graph)
  {
    var parents := [r.head] + if r.mergeHead.Some? then [r.mergeHead.value] else [];
    var graph := s.graph + [Commit(parents, r.index)];
    assert Ordered(graph);
    (s.(graph := graph), r.(head := |s.graph|, mergeHead := None))
  }

  /** `fetch --tags` fails when a local tag of the same name points elsewhere. */
  predicate TagsAgree(s: Server, r: Repo) {
    forall t :: t in s.tags && t in r.tags ==> s.tags[t] == r.tags[t]
  }

  /** What `fetch --tags` leaves, whether or not it fails: a local tag is never replaced. */
  function Fetched(s: Server, r: Repo): Repo { r.(origin := s.tip, tags := s.tags + r.tags) }

  // ---------------------------------------------------------------- merging

  /** The latest common ancestor among the commits below `n`. */
  function MergeBaseBelow(g: Graph, a: nat, b: nat, n: nat): (r: Option<nat>)
    requires a < |g| && b < |g|
    ensures r.Some? ==> r.value < n && Reaches(g, r.value, a) && Reaches(g, r.value, b)
    ensures forall c: nat :: (if r.Some? then r.value < c else true) && c < n ==> !(Reaches(g, c, a) && Reaches(g, c, b))
  {
    if n == 0 then None
    else if Reaches(g, n - 1, a) && Reaches(g, n - 1, b) then Some(n - 1)
    else MergeBaseBelow(g, a, b, n - 1)
  }

  function MergeBase(g: Graph, a: nat, b: nat): Option<nat>
    requires a < |g| && b < |g|
  {
    MergeBaseBelow(g, a, b, |g|)
  }

  predicate InConflict(s: Sides) { s.ours != s.theirs && s.ours != s.base && s.theirs != s.base }

  function Decided(s: Sides): Option<string> { if s.ours == s.base then s.theirs else s.ours }

  function SidesAt(base: Tree, ours: Tree, theirs: Tree, p: Path): Sides {
    Sides(Get(base, p), Get(ours, p), Get(theirs, p))
  }

  function ConflictsOf(base: Tree, ours: Tree, theirs: Tree): map<Path, Sides> {
    map p | p in ours.Keys + theirs.Keys && InConflict(SidesAt(base, ours, theirs, p)) :: SidesAt(base, ours, theirs, p)
  }

  function MergedTree(base: Tree, ours: Tree, theirs: Tree): Tree {
    map p | p in ours.Keys + theirs.Keys
            && !InConflict(SidesAt(base, ours, theirs, p)) && Decided(SidesAt(base, ours, theirs, p)).Some?
          :: Decided(SidesAt(base, ours, theirs, p)).value
  }

  /** The state a merge leaves behind before any commit. `left` is what git writes into the files it could not merge. */
  function MergeInto(g: Graph, r: Repo, base: nat, theirs: nat, left: Tree): Repo
    requires r.Valid(g) && base < |g| && theirs < |g|
  {
    var b, o, t := g[base].tree, r.HeadTree(g), g[theirs].tree;
    var unmerged := ConflictsOf(b, o, t);
    var merged := MergedTree(b, o, t);
    r.(mergeHead := Some(theirs), index := merged, unmerged := unmerged,
       worktree := merged + (map p | p in left && p in unmerged :: left[p]))
  }

  datatype PullResult = PullFailed | PullConflict(repo: Repo) | Pulled(server: Server, repo: Repo)

  /**
   `git pull --no-rebase origin <branch>` on a clean repository. A branch named on the
   command line is fetched without the tags that point into it.
   */
  function Pull(s: Server, r: Repo, left: Tree): PullResult
    requires s.Valid() && r.Valid(s.graph)
  {
    var f := r.(origin := s.tip);
    var base := MergeBase(s.graph, r.head, s.tip);
    if r.mergeHead.Some? then PullFailed
    else if Reaches(s.graph, s.tip, r.head) then Pulled(s, f)
    else if Reaches(s.graph, r.head, s.tip) then
      Pulled(s, f.(head := s.tip, index := s.graph[s.tip].tree, worktree := s.graph[s.tip].tree))
    else if base.None? then PullFailed
    else
      var m := MergeInto(s.graph, f, base.value, s.tip, left);
      if m.unmerged != map[] then PullConflict(m)
      else var (server, repo) := MakeCommit(s, m); Pulled(server, repo)
  }

  /** `git merge --no-commit --no-ff` of the remote-tracking branch; None when git refuses. */
  function StartMerge(g: Graph, r: Repo, left: Tree): Option<Repo>
    requires r.Valid(g)
  {
    var base := MergeBase(g, r.head, r.origin);
    if r.mergeHead.Some? then Some(r)
    else if Reaches(g, r.origin, r.head) then Some(r)
    else if base.None? then None
    else Some(MergeInto(g, r, base.value, r.origin, left))
  }

  /** `git merge --abort`: every path the merge touched goes back to HEAD; None when an unstaged edit is in the way. */
  function AbortMerge(g: Graph, r: Repo): Option<Repo>
    requires r.Valid(g)
  {
    var tree := r.HeadTree(g);
    var touched := set p | p in tree.Keys + r.index.Keys + r.unmerged.Keys && (p in r.unmerged || Get(r.index, p) != Get(tree, p));
    if r.mergeHead.None? || exists p :: p in touched && p !in r.unmerged && Get(r.worktree, p) != Get(r.index, p) then None
    else
      Some(r.(mergeHead := None, unmerged := map[], index := tree,
              worktree := (r.worktree - touched) + (map p | p in touched && p in tree :: tree[p])))
  }

  // ---------------------------------------------------------------- publishing

  /** A push without force: accepted when it only adds commits to the branch. */
  predicate PushAccepted(s: Server, r: Repo)
    requires s.Valid() && r.Valid(s.graph)
  {
    Reaches(s.graph, s.tip, r.head)
  }

  function PushBranch(s: Server, r: Repo): (Server, Repo) { (s.(tip := r.head), r.(origin := r.head)) }

  function TagLocally(r: Repo, tag: string): Repo {
    if tag in r.tags then r else r.(tags := r.tags[tag := r.head])
  }

  predicate TagAccepted(s: Server, r: Repo, tag: string)
    requires tag in r.tags
  {
    tag in s.tags ==> s.tags[tag] == r.tags[tag]
  }

  function PushTag(s: Server, r: Repo, tag: string): Server
    requires tag in r.tags
  {
    s.(tags := s.tags[tag := r.tags[tag]])
  }

  // ---------------------------------------------------------------- single paths

  /** `checkout --ours/--theirs -- path`; None when that side has no such file. */
  function CheckoutSide(r: Repo, path: Path, ours: bool): Option<Repo> {
    var content :=
      if path !in r.unmerged then Get(r.index, path)
      else if ours then r.unmerged[path].ours else r.unmerged[path].theirs;
    if content.None? then None else Some(r.(worktree := r.worktree[path := content.value]))
  }

  function AddPath(r: Repo, path: Path): Repo {
    r.(index := Put(r.index, path, Get(r.worktree, path)), unmerged := r.unmerged - {path})
  }

  /** `checkout <revision> -- path` for a path that the revision has. */
  function CheckoutRevision(r: Repo, tree: Tree, path: Path): Repo
    requires path in tree
  {
    r.(index := r.index[path := tree[path]], worktree := r.worktree[path := tree[path]], unmerged := r.unmerged - {path})
  }

  /** `rm -f -- path`; None when the path is not known to the index. */
  function RemovePath(r: Repo, path: Path): Option<Repo> {
    if path !in r.index && path !in r.unmerged then None
    else Some(r.(index := r.index - {path}, worktree := r.worktree - {path}, unmerged := r.unmerged - {path}))
  }

  /** `reset --hard origin/<branch>`: tracked files become the commit's, untracked ones stay unless it has them too. */
  function ResetHard(g: Graph, r: Repo): Repo
    requires r.Valid(g)
  {
    var tree := g[r.origin].tree;
    r.(head := r.origin, mergeHead := None, index := tree, unmerged := map[],
       worktree := (r.worktree - r.index.Keys - r.unmerged.Keys) + tree)
  }
}
