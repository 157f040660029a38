/** Trying again after a push that was lost or refused: when the next sync gets through, and when it throws. */
module LostPush {
  import opened Options
  import opened StoreManifest
  import opened StoreVersion
  import opened GitModel
  import opened SyncProtocol
  import opened SyncWorld

  /** The hash file tells versions apart. */
  lemma HashLineTellsVersion(sha: Hasher, t: Tree, v: string, w: string)
    requires HashLine(sha, t, v) == HashLine(sha, t, w)
    ensures v == w
  {
    var head := StoreHash(sha, t) + "  v";
    var a, b := HashLine(sha, t, v), HashLine(sha, t, w);
    assert a == head + v + "\n" && b == head + w + "\n";
    assert v == a[|head|..|a| - 1] && w == b[|head|..|b| - 1];
  }

  /** Version tracking would write the hash file that HEAD already has, and nothing says that HEAD is published. */
  ghost predicate NothingToTrack(sha: Hasher, s: Server, r: Repo)
    requires s.Valid() && r.Valid(s.graph)
  {
    && HeadVersionTags(r) == [] && !Reaches(s.graph, r.head, s.tip)
    && Certified(sha, r.HeadTree(s.graph), NextStoreVersion(r.tags.Keys))
  }

  /**
   A sync without local changes, from its fetch on: it commits nothing, and throws at
   version tracking exactly if, with the tags just fetched, there is nothing to track.
   */
  lemma RetryThrowsExactly(sha: Hasher, s: Server, ss: Session, input: Input)
    requires SessionHolds(s, ss) && ss.phase == Fetching && TagsAgree(s, ss.repo) && !input.Break?
    requires ss.repo.Clean(s.graph) && ss.repo.mergeHead.None?
    ensures var fetched := Fetched(s, ss.repo);
      var staging := Step(sha, s, ss, input).1;
      var tracking := Step(sha, s, staging, input).1;
      && staging.phase == Staging && tracking.phase == Tracking && Step(sha, s, staging, input).0 == s
      && tracking.repo == fetched && tracking.version == ""
      && (TrackVersion(sha, s, fetched, "").TrackRefused? <==> NothingToTrack(sha, s, fetched))
      && (NothingToTrack(sha, s, fetched) ==> Step(sha, s, tracking, input) == (s, tracking.(phase := Failed)))
  {
    var fetched := Fetched(s, ss.repo);
    StageFacts(sha, s, fetched);
    TrackRefusedExactly(sha, s, fetched, "");
  }

  /**
   A client whose HEAD carries the hash file of `version` was kept from pushing it, and
   starts again with nothing changed. Whatever others have pushed since, the retry throws
   exactly if HEAD has neither reached the remote nor got a version tag, and no tag that
   has come in makes the next version another one.
   */
  lemma LostPushStrandsExactly(sha: Hasher, s: Server, later: Server, r: Repo, version: string)
    requires s.Forward(later) && r.Valid(s.graph) && r.Clean(s.graph) && Certified(sha, r.HeadTree(s.graph), version)
    requires TagsAgree(later, r)
    ensures r.Valid(later.graph) && Fetched(later, r).Valid(later.graph)
    ensures var fetched := Fetched(later, r);
      NothingToTrack(sha, later, fetched) <==>
        && HeadVersionTags(fetched) == [] && !Reaches(later.graph, r.head, later.tip)
        && NextStoreVersion(fetched.tags.Keys) == version
  {
    var fetched := Fetched(later, r);
    var tree := r.HeadTree(s.graph);
    assert fetched.HeadTree(later.graph) == tree;
    if Certified(sha, tree, NextStoreVersion(fetched.tags.Keys)) {
      HashLineTellsVersion(sha, tree, NextStoreVersion(fetched.tags.Keys), version);
    }
  }

  /**
   A push that fails, refused or broken off, leaves HEAD and the tags as they were. Its
   commit is on the remote all the same exactly if the server took it before the connection
   broke off, or had it already; if not, the tip is where it was.
   */
  lemma FailedPushLeaves(sha: Hasher, s: Server, ss: Session, input: Input)
    requires SessionHolds(s, ss) && ss.phase == Pushing
    ensures var (server, next) := Step(sha, s, ss, input);
      next.phase == Failed ==>
        && next.repo.head == ss.repo.head && next.repo.tags == ss.repo.tags && server.graph == s.graph
        && (Reaches(server.graph, next.repo.head, server.tip) <==>
              Reaches(s.graph, ss.repo.head, s.tip) || (input.Break? && input.done && PushAccepted(s, ss.repo)))
        && (server.tip != s.tip ==> server.tip == ss.repo.head)
  {
    assert Reaches(s.graph, ss.repo.head, ss.repo.head) && s.Valid() && ss.repo.Valid(s.graph);
    hide SessionHolds, Reaches, PreviewStep, FetchStep, StageAndCommit, TrackStep, PullStep, MergeStep, Review, ConcludeStep;
  }
}
