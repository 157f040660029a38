# Verified models of a synchronised password manager

The program keeps a password store in a git repository, shares it between machines,
copies secrets to the clipboard for a limited time and restores backups. This project
models the parts of it in which a mistake loses or exposes data, and proves what they
guarantee.

- **Sync protocol** (`GitModel`, `SyncProtocol`, `SyncWorld`, `WholeSync`, `ReviewKeys`,
  `HollowReview`, `HollowRun`, `VersionTags`, `TagsOnBranch`, `TagsOnTips`, `VersionClash`,
  `LostPush`, `GitClient`, `NukeSweep`, `StoreManifest`, `StoreVersion`).
  Commits form a graph; every client has HEAD, index, worktree, merge state and
  remote-tracking branch; one server has a branch tip and tags. `SyncProtocol` specifies
  what the program does with git, `SyncWorld` interleaves any number of clients command by
  command, each of which may break off, with commits of their own between syncs, and
  `GitClient` runs the same procedures as methods on a mutable repository, proved against
  both. `WholeSync` says what a sync publishes at every path, `ReviewKeys` what the keys of
  a review come to, and `VersionTags` follows the version tags through whole runs.
- **Clipboard leases** (`ClipboardLease`, `ClipboardTiming`, `ClipboardOverlap`). Copiers,
  watcher threads and outsiders interleave step by step over the shared counter, active id,
  lease map and clipboard.
- **Entry names** (`PercentCodec`, `ComboFields`, `EntryNames`, `FolderBrowser`). Seven
  form fields become one path-safe name and are read back; folders are derived from names.
- **Password store** (`EntryText`, `PasswordStore`, `StoreRefinement`, `StoreRuns`,
  `StoreDrawers`, `TreeListing`, `DrawnTree`, `StoreListing`). Encrypted bodies and separately
  named note files refine a map from names to entries; the drawn tree of `pass ls` is read
  back to the list of entries.
- **Windows command lines** (`WindowsCommandLine`), **directory replacement**
  (`DirectoryReplace`) and the **audit ledger** (`AuditLedger`).

`Basics`, `Text`, `Decimal` and `PathNames` hold what these share: sorted listings,
string searching and trimming, decimal numerals, and '/'-separated names.

Run `dafny verify dfyconfig.toml --resource-limit 2000000 --verification-time-limit 0`.

What foreign programs do is a parameter or an arbitrary choice: whether `pass`, `gpg`
and clipboard commands succeed, what git writes into conflicted files, which file system
call fails, what other clients push between two commands, and the digest functions.

## Where the code and its intent part

Each of these is proved, with its exact condition or a concrete input.

- A client is stuck for good once a tag it has made is on the server naming another
  commit: every sync of it then fails at `git fetch --tags`. That happens in exactly two
  ways. Either it makes its tag when another client has published that version already; its
  branch is pushed, its tag refused, and the remote tip has no version. Or its push of the
  tag is lost, and another client publishes that version later (`ClashBeginsExactly`,
  `StuckExactly`, `StuckForGood`, `TwoClientsOneVersion`, `LostTagGetsStuck`).
- An accepted review can report that the resolved content was pushed although nothing was.
  That happens exactly if the sync began with a merge still open, from a review that a crash
  or an exception left behind, whose history has the remote tip: the commit stage concludes
  that merge with whatever the files hold, there is nothing left to merge, and finalizing
  returns silently (`AcceptedReviewIsHollowExactly`, `NoMergeNoHollow`). The commit carries
  the next version's hash file and no tag, so the next sync throws at `git commit` while
  nothing new comes in (`HollowReviewStrands`, `AcceptedAndStranded`).
- A nuke that leaves the remote alone strands the next sync in the same way
  (`NukedIsUntracked`, `LocalNukeStrands`).
- Nuking a store without passwords commits and publishes it all the same, under a new
  version, unless its hash file is that of the next version (`NukingNothingCommits`).
- A push that is not accepted can strand the client: its commit already carries the hash
  file of the next version, so a retry without a new change fails at `git commit` with
  nothing to commit, exactly as long as the commit is unpublished and untagged and no
  incoming tag changes the next version (`RetryThrowsExactly`, `LostPushStrandsExactly`).
- The preview does not see untracked files; the conflicts it misses are exactly those on
  untracked files that the remote added too (`UntrackedFileEscapesPreview`). A clean
  pull merges without rewriting the hash file, so the certificate is promised for the commit stage, finalize and nuke only.
- In a review the first side kept for a file is final. Keeping the other side later changes
  nothing, and no error is shown, unless the first choice was that there be no such file;
  only an edit still counts (`LastKeyCountsExactly`, `SecondChoiceIsIgnored`).
- The conflict dialogue after a direct sync is unreachable: conflicts are always part of
  the review opened before it (`ConflictsAreReviewed`).
- Two threads copying at the same time can leave a secret in the clipboard for good
  although no command fails (`TwoCopiersLeakASecret`). If copies take turns, one stays
  exactly if a write fails, a copy ends in an exception after it has registered, or the
  watcher cannot read or erase, and nobody writes the clipboard after
  (`SecretStaysExactly`, `FailedWriteLeaksTheEarlierSecret`, `FailedReadLeaksTheSecret`);
  `AnySecretStaysExactly` has the condition for copies that overlap in any way.
- An exception after the write, in the read that confirms it or in starting the watcher,
  leaves the secret unwatched and its lease pending for good (`DroppedCopyLeaks`).
- A watcher compares and then erases: a text written in between is destroyed, even with one
  copying thread (`EraseSparesOthersExactly`, `LateEraseHitsLaterCopy`).
- Editing an entry's username to one that sanitises to the same note-file name deletes
  the note just saved (`EditCanLoseNotes`, `EditKeepsNotesExactly`).
- `pass rm -r` on a name that is both an entry and a folder removes only the entry. The
  program then still deletes the notes of the entries in the folder (`PruneRefinesRemoval`,
  `SparedEntriesLoseTheirNotes`, `ShieldedFolderLosesNotes`). The other way round, the
  notes of hidden entries survive the removal of their folder (`HiddenEntriesLeaveNotes`).
- A host with a slash never survives the combo form (`SiteRoundTrip`), although the
  prompt suggests a full URL.
- Empty arguments are printed as nothing, and a program name with a quotation mark, or
  with a blank and a final backslash, is not read back (`CommandLineRoundTrip`).
- Hidden entries are missing from the listing unless all entries are hidden
  (`ListingMatchesWalk`).
- A folder named like an entry file is listed as an entry (`EntryFolderIsListed`).
- Importing a backup replaces two directories one after the other; when it throws, the new
  store can be left next to the old notes (`ImportTearsExactly`, `ImportCanBeTorn`).
- Renaming an entry onto a name in use drops that name's audit record
  (`ModificationTouchesTwo`).

## Model

| member | source | states |
|---|---|---|
| SyncWorld.EveryRunIsSafe | src/git/git.cpp:525-572 | for every number of clients, every order of their commands, work of their own between syncs, and every crash, restart or command that breaks off before or after it took effect: no commit that was ever the remote tip is lost, no client loses a commit its HEAD has had over the whole run or the content it staged, and a sync that has gone through its push (phase `Finished`) was the remote tip on top of both, with its version tag on the server naming the pushed HEAD (or the commit that a tag of that name already had at this client), unless it had nothing to publish. The accepted review that is reported as a success without a push is the subject of the next rows |
| WholeSync.SyncExactly | src/tui/tui_sync.cpp:463-540 | the sync screen as a whole, from any state without an open merge and while nobody else pushes: it throws exactly if a tag clashes, version tracking has nothing to commit on an unpublished HEAD, or nothing is shared with the remote branch; the user is asked exactly if a tracked file and the remote branch have both changed some path, or some path cannot be joined; otherwise the published tree has at every path, hash file included, the join of where the two parted, the client's own files and the remote branch |
| WholeSync.SyncWithReview | src/tui/tui_sync.cpp:463-509 | with a review, from the first command to the last: for any keys that leave nothing in conflict, the published tree has at every path, hash file aside, what the keys have made of that join |
| WholeSync.DirectSyncExactly | src/git/git.cpp:525-572 | the direct sync alone: which of its three ends it comes to, the published tree, and exactly which paths are in conflict if it ends in a review |
| WholeSync.ReviewedSyncExactly | src/git/git.cpp:595-619 | the prepared sync alone: the review opens with every path joined from both sides, undecided ones in conflict |
| WholeSync.ReviewPublishesItsKeys | src/git/git.cpp:745-762 | from the review on: any keys that leave nothing in conflict, accepted, are published with a tag |
| HollowReview.SuccessIsPublishedOrHollow | src/tui/tui_sync.cpp:463-509 | in every such run, all of that and both ends that are reported as a success: a finished sync has its HEAD on the remote branch; an accepted review that pushed nothing began with a merge open whose history has the tip it fetched, its commit stage concluded that merge, and its HEAD is not on the remote it fetched |
| HollowReview.AcceptedReviewIsHollowExactly | src/git/git.cpp:745-751 | in every run and wherever it stands: a settled review that is accepted goes on to a push or reports success without one, the latter exactly if it was opened by an overlapping preview, a merge was open when the sync began whose history has the fetched tip, and the commit stage or tracking made a commit of what it found |
| HollowReview.NoMergeNoHollow | src/git/git.cpp:768-784 | so it never happens to a sync that began without an open merge |
| HollowReview.ReviewStep | src/git/git.cpp:393-477 | the invariant behind it, kept by every step whether it works, fails or breaks off: how what is under review came from what the session found |
| HollowReview.HollowReviewStrands | src/git/git.cpp:439-477 | after such a review, if it left the repository clean, and whatever others have pushed since: the next sync throws at version tracking exactly if HEAD has neither reached the remote nor got a tag and no incoming tag makes the next version another one |
| HollowReview.HollowReviewStrandsAtOnce | src/git/git.cpp:439-477 | so always when the tip has not moved and no tag has come in |
| HollowRun.AcceptedAndStranded | src/tui/tui_sync.cpp:472-509 | a run from a fresh world that reaches this, for any contents of one entry in conflict: a review is left by a crash, the next sync commits the torn file as the merge, the user accepts and is told that it was pushed, the remote is as at the start, and the sync after that throws |
| SyncWorld.RunHolds | src/tui/tui_sync.cpp:463-540 | the invariant holds at the end of every run |
| SyncWorld.HeadsGrow | src/tui/tui_sync.cpp:463-540 | over a whole run, any number of sessions in it, a client's first HEAD stays an ancestor of its last |
| SyncWorld.NextHolds | src/tui/tui_sync.cpp:463-540 | the invariant behind it, kept by every single move of every client |
| SyncWorld.EveryStepIsFair | src/tui/tui_sync.cpp:463-540 | one command of one client, whether it works, fails or breaks off: what it may do to the server (fast-forward only) and to its own session, phase by phase; what the commands and the keys of a review come to when they work is `WholeSync` and `ReviewKeys` |
| SyncWorld.SessionIsStable | src/git/git.cpp:525-572 | what other clients push between two commands never invalidates a session in progress |
| SyncWorld.PullFacts | src/git/git.cpp:543-569 | a pull keeps the old head among the ancestors, stays clean, reaches the remote tip when nothing diverged, and otherwise leaves a consistent review |
| SyncWorld.PushIsFair | src/git/git.cpp:621-641 | a push is accepted only as a fast-forward and makes the local head the tip |
| SyncWorld.PlayHolds | src/git/git.cpp:525-572 | however one session is played, with other clients pushing before each of its commands, the server moves only forward and the session's promises hold at the end |
| SyncWorld.PublishedWasTip | src/git/git.cpp:562-569 | a session played until it has published something had its HEAD as the remote tip |
| SyncWorld.TagIsFair | src/git/git.cpp:249-258 | making the version tag changes nothing but the client's own tags, and it then names its target |
| SyncWorld.PushTagExactly | src/git/git.cpp:257-257 | pushing the tag fails exactly if the server has one of that name on another commit; the new state of server and client in both cases |
| SyncWorld.PushTagIsFair | src/git/git.cpp:257-257 | the session ends with its tag on the server, or fails without moving the branch |
| VersionTags.FinishedTagNamesHead | src/git/git.cpp:249-258 | the tag of a finished sync names the pushed HEAD exactly unless a tag of that name was known before and names another commit, which happens only when the staged commit carried it or the int bound is reached |
| VersionTags.MovedTipIsTagged | src/git/git.cpp:562-569 | in every run, from any tags whatever, a finished sync that moved the remote tip has published a version, and exactly when its tag names that commit |
| TagsOnTips.MovedTipTagsHead | src/git/git.cpp:525-572 | in every run that starts with all tags on commits the branch has pointed at they stay on such, and a sync that moved the tip, direct or reviewed, has its tag on exactly the commit it pushed, below the int bound |
| TagsOnTips.StepIsAside | src/git/git.cpp:439-477 | the invariant behind it: a reviewed sync that started clean has parted from the branch, so that no tag can be on its HEAD, and its version is the next one |
| TagsOnBranch.DirectSyncTagsHead | src/git/git.cpp:525-572 | from the weaker start with all tags anywhere in the history of the branch: they stay there, and a direct sync that moved the tip has its tag on exactly the commit it pushed, below the int bound |
| VersionTags.TagFailsExactly | src/git/git.cpp:249-258 | pushing the tag after an accepted branch: the sync finishes exactly if the command does not break off and no other client has meanwhile published that version on another commit; the server and the client's tags in each case |
| VersionTags.ClashFailsEverySync | src/git/git.cpp:533-541 | once local and remote tag clash, every later sync fails at its first command, whatever others push and whatever the store holds |
| VersionTags.StuckForGood | src/git/git.cpp:533-541 | in every run a client with a clashing tag stays stuck, and the program never moves its HEAD again: as long as nothing else commits in its repository it stays the same |
| VersionTags.ClashBeginsExactly | src/git/git.cpp:249-258 | one move: a client's tags come to clash with the server's in exactly these two ways, and never cease to |
| VersionTags.StuckExactly | src/tui/tui_sync.cpp:463-540 | whole runs, whatever breaks off: a client is stuck exactly if its tags clashed from the start, or somewhere it made a tag that was taken, or somewhere another client published the name of a tag it had made and not published |
| VersionClash.TwoClientsOneVersion | src/git/git.cpp:562-569 | a run of two clients that reaches this: both choose version one, the second one's branch is pushed and its tag refused, and no continuation lets it sync again, nor moves its HEAD unless by commits made outside of syncs |
| VersionClash.LostTagGetsStuck | src/git/git.cpp:255-257 | a run for the other way: a client makes its tag, the push of the tag is lost, another client publishes that version, and the first client, whose tag was never refused, never syncs again |
| SyncWorld.QuitIsFair | src/tui/tui_sync.cpp:479-491 | leaving the review aborts the merge and is back at the commit prepared for it |
| ReviewKeys.KeepChooses | src/tui/tui_sync.cpp:375-384 | a key that keeps a side of a path in conflict: the review goes on, exactly that path leaves the unmerged set, it has HEAD's content or absence for the local side and the remote branch's for the other, and nothing else changes |
| ReviewKeys.KeepFailsExactly | src/git/git.cpp:724-743 | such a key throws exactly if neither the merge nor the chosen side has the file |
| ReviewKeys.EditFailsExactly | src/git/git.cpp:794-800 | staging an edited file throws exactly if it is gone and git knows of no such file |
| ReviewKeys.QuittingIs | src/git/git.cpp:764-766 | leaving the review always works: HEAD's tree is back if a merge was open, else nothing changes |
| ReviewKeys.ReviewCommitsItsKeys | src/tui/tui_sync.cpp:375-407 | the whole review, any list of keys, whatever others push meanwhile: the merge commit has at each path what its keys have come to, and where there was no key what the merge had left, hash file aside |
| ReviewKeys.LastKeyCountsExactly | src/git/git.cpp:724-743 | the last key about a path has its way exactly if it is an edit, or the path was in conflict, without a file, or had that content already when it was pressed |
| ReviewKeys.OnlyKeyCounts | src/git/git.cpp:724-743 | so the first key about a path in conflict always has its way |
| ReviewKeys.SecondChoiceIsIgnored | src/tui/tui_sync.cpp:375-384 | a run from a fresh world in which the remote side is kept, then the local one, and the merge commit has the remote one |
| ReviewKeys.ReviewOpensWith | src/git/git.cpp:768-784 | the merge a review opens with: each path joined from the latest common ancestor and both sides |
| ReviewKeys.PullBrings | src/git/git.cpp:543-569 | a pull that succeeds: at each path HEAD, the remote branch, or their join, in a commit with both as parents |
| SyncProtocol.StageFacts | src/git/git.cpp:393-437 | the commit stage loses no local content, leaves the repository clean, adds nothing when it was clean, and commits a tree that carries the hash of itself |
| SyncProtocol.TrackFacts | src/git/git.cpp:439-477 | version tracking commits nothing but the hash file, certifies what it commits, and invents no version for a commit the remote already has |
| SyncProtocol.TrackRefusedExactly | src/git/git.cpp:439-477 | when version tracking throws: exactly if nothing was committed, no version tag is on HEAD, HEAD is not on the remote, and its hash file already is the next one |
| SyncProtocol.RetryAfterLostPushThrows | src/git/git.cpp:393-477 | a sync that commits and never reaches its push: trying again at once, with no new change, tag or pull in between, throws there |
| LostPush.RetryThrowsExactly | src/git/git.cpp:439-477 | a later sync without local changes, with the tags it has just fetched, throws at version tracking exactly if HEAD is unpublished, untagged and has the hash file of the next version |
| LostPush.LostPushStrandsExactly | src/git/git.cpp:439-477 | whatever others pushed since a lost or refused push, that is the case exactly if HEAD has neither reached the remote nor got a tag, and no tag that came in makes the next version another one |
| LostPush.FailedPushLeaves | src/git/git.cpp:562-563 | a push that is refused or breaks off keeps HEAD and tags, and its commit is on the remote exactly if the server took it or had it |
| SyncProtocol.TrackChooses | src/git/git.cpp:439-477 | where a version comes from: given before, carried by HEAD's own tag, or next above all known tags |
| SyncProtocol.ResolvingSettlesOnePath | src/git/git.cpp:724-743 | resolving an unmerged path never fails, settles that path with the chosen side or its absence, removes exactly it from the unmerged set and touches no other path |
| SyncProtocol.AnsweringSettlesAll | src/tui/tui_sync.cpp:425-461 | answering every conflict leaves nothing unmerged and every path as chosen; giving up at any question restores the commit the merge started from |
| SyncProtocol.ResolvingKeepsReview | src/git/git.cpp:724-743 | resolving any path, also a settled one, keeps the review consistent |
| SyncProtocol.EditingKeepsReview | src/tui/tui_sync.cpp:375-407 | staging an edited file, also a deleted one, settles that path and keeps the review consistent |
| SyncProtocol.CancelRestoresCommit | src/git/git.cpp:764-766 | aborting gives back exactly the prepared commit, whatever was resolved or edited meanwhile |
| SyncProtocol.FinalizeFacts | src/git/git.cpp:745-762 | the merge commit has both lines of history as ancestors, exactly the reviewed content, and its own hash; it never refuses when nothing is unmerged |
| SyncProtocol.MergeOpensReview | src/git/git.cpp:768-784 | a merge started from a clean repository is a consistent review: every path either settled alike in index and worktree, or unmerged with both sides on record |
| SyncProtocol.PreviewPredictsConflicts | src/git/git.cpp:331-384 | a sync can conflict only on paths the preview lists as changed remotely and, locally, lists, cannot see (untracked) or calls the hash file |
| SyncProtocol.PreviewListsChanges | src/git/git.cpp:331-384 | a path is listed as local exactly if its tracked file, or HEAD, differs from where the branches parted, and as remote exactly if the remote branch does |
| SyncProtocol.QuietPreviewMeansQuietPull | src/git/git.cpp:331-384 | no overlap, nothing untracked, remote unmoved: the pull conflicts on nothing but the hash file, and not even there if the preview lists it |
| SyncProtocol.SyncConflictsExactly | src/git/git.cpp:393-477 | the conflicts of a sync, hash file aside: the paths with three different versions in base, worktree and remote |
| SyncProtocol.HashFileConflictsExactly | src/git/git.cpp:393-477 | the hash file conflicts exactly if base, client (after commit stage and tracking) and remote have three different ones |
| SyncProtocol.UntrackedFileEscapesPreview | src/git/git.cpp:334-336 | a conflict, hash file aside, is missing from the local side of the preview exactly if the path is an untracked file that the base lacks and the remote has with other content |
| SyncProtocol.ConflictsAreReviewed | src/tui/tui_sync.cpp:511-537 | every conflict of a pull is an overlapping file of the review opened next, so the resolution branch after it cannot be reached |
| SyncProtocol.MergedPath | src/git/git.cpp:543-569 | a path that only one side changed has that side's content or absence after a merge |
| SyncProtocol.RepeatedSyncIsIdle | src/git/git.cpp:393-477 | syncing again with nothing changed commits nothing, moves nothing and makes no version |
| GitClient.GitClient.Sync | src/git/git.cpp:525-572 | the direct sync as commands on one repository and one server that others push to, and that may be out of reach, in every gap: its outcome is that of playing exactly its commands in the session state machine; HEAD was the tip, and the version tag names its target |
| GitClient.GitClient.SyncStore | src/tui/tui_sync.cpp:463-537 | the sync screen up to its question: preview, then the reviewed path as far as the opened merge if changes overlap, else the direct sync; the outcome of playing just that |
| GitClient.GitClient.PrepareReview | src/git/git.cpp:595-619 | fetch, commit stage, tracking and preview, then the merge that the review works on |
| GitClient.GitClient.FinalizeMergeCommit | src/git/git.cpp:745-762 | concluding a review, then publishing it: the outcome of playing conclude, push and tag; an empty version is replaced by a new one |
| GitClient.GitClient.Prepare | src/git/git.cpp:595-619 | fetch, commit stage and version tracking, and the preview if it is for a review, in this order, with other clients pushing in between: the outcome of playing these |
| GitClient.GitClient.Publish | src/git/git.cpp:562-569 | push, make the tag, push the tag, as the same commands of the state machine: HEAD was the tip, the tag names its target, a refused or lost push is a failure |
| GitClient.GitClient.StageAndCommitLocalChanges | src/git/git.cpp:393-437 | the commands of the commit stage compute the specified state |
| GitClient.GitClient.EnsureStoreVersionTracking | src/git/git.cpp:439-477 | the commands of version tracking compute the specified state, and on a clean repository a refusal leaves it as it was |
| GitClient.GitClient.HeadStoreVersionTags | src/git/git.cpp:296-302 | the version tags on HEAD, sorted |
| GitClient.GitClient.PreviewLists | src/git/git.cpp:331-384 | local, remote and overlapping paths of the preview |
| GitClient.GitClient.Resolve | src/git/git.cpp:724-743 | checkout of the chosen side with its two fallbacks computes the specified resolution |
| GitClient.GitClient.ResolveConflicts | src/tui/tui_sync.cpp:425-461 | the loop over the conflicts computes the specified resolution of all |
| GitClient.GitClient.PullForce | src/git/git.cpp:664-682 | a forced pull succeeds exactly if no merge is open, the remote is in reach, no tag clashes and nothing is unmerged: then HEAD, index and remote tip agree and tracked files are the remote's; otherwise what it leaves, and that it does nothing at all while a merge is open |
| GitClient.GitClient.PushForce | src/git/git.cpp:643-662 | others may push, and the remote be out of reach, before each of its three commands that talk to it. The branch is replaced exactly if fetch and push get through, no tag clashes and there is something to track; then by a commit with exactly the local content, on top of the local history, published under its version, and what the server holds when only the tag is refused or lost; otherwise the server has only what others did |
| GitClient.GitClient.NukePasswords | src/git/git.cpp:684-722 | with others pushing and the remote out of reach in the same way: the wiping commit keeps all history, has no file outside .git that is named s.gpg for a nonempty s, changes no other file and certifies itself as the next version; the remote is replaced only when asked and exactly if the push gets through, and what the server holds when only the tag is refused or lost; nothing is committed exactly if HEAD is the wiped store with the next version's hash file already |
| GitClient.WipedHasNoPassword | src/git/git.cpp:684-713 | wiping a tree: at every path outside .git whose last component is some name with ".gpg" after it there is nothing, at every other one what was there |
| GitClient.NukedIsUntracked | src/git/git.cpp:696-720 | after a nuke that leaves the remote alone, whatever others have pushed since, there is nothing to track exactly if the wiped commit has neither reached the remote nor got a tag and no incoming tag changes the next version; so always when nothing has come in |
| GitClient.LocalNukeStrands | src/git/git.cpp:439-477 | the sync after such a nuke, once its preview is through, commits nothing and throws at version tracking exactly then |
| GitClient.LocalNukeIsWork | src/git/git.cpp:696-713 | in the runs above such a nuke is one of the commits made between syncs |
| GitClient.NukingNothingCommits | src/git/git.cpp:696-707 | a clean store without passwords is committed again by nuking it, exactly unless its hash file is that of the next version |
| GitClient.Partition | src/git/git.cpp:331-384 | splitting the changed paths into local only, remote only and both is a partition |
| NukeSweep.Disk.RemoveLocalPasswordEntries | src/git/git.cpp:479-523 | no file named s.gpg, for any nonempty s, is left outside .git, all other files stay, and the surviving directories are exactly those with a file below them and those in .git |
| NukeSweep.PasswordsExactly | src/git/git.cpp:479-503 | a path is a password exactly if its first component is not .git and its last one is some other name with ".gpg" after it, whatever dots that has in it |
| NukeSweep.NothingLeftToWalk | src/git/git.cpp:479-503 | every file that the walk over the store takes for an entry is wiped, and afterwards it finds none |
| NukeSweep.SweepStep | src/git/git.cpp:505-522 | visiting longest paths first tries every child before its parent: one step of the sweep |
| NukeSweep.EmptyMeansNoFile | src/git/git.cpp:505-522 | after all deeper directories were tried, an empty directory is one without any file below |
| NukeSweep.SortLongestFirst | src/git/git.cpp:505-522 | the sorted list holds the same directories, longest first |
| StoreManifest.ComputeStoreHash | src/git/git.cpp:160-212 | the digest of the canonical manifest of the tree, whatever the iteration order; which files that covers is `ManifestCovers` |
| StoreManifest.ManifestCovers | src/git/git.cpp:160-191 | for printable trees: two manifests are equal exactly if both trees have the same file, by its digest, or none at every path, at any depth, that does not begin with .git and does not end with the name of the hash file |
| StoreManifest.HashCovers | src/git/git.cpp:160-212 | so are the checksums, up to collisions, exactly if these files are the same to the letter |
| StoreManifest.ManifestLists | src/git/git.cpp:160-191 | a manifest reads as one record for each of these files, with its digest, and no other |
| StoreManifest.ManifestInOrder | src/git/git.cpp:179-191 | its records are in the order of their path components |
| StoreManifest.PathsCompareByComponents | src/git/git.cpp:179-185 | comparing printed paths with the slash before every other character is comparing their components |
| StoreManifest.WritingHashKeepsIt | src/git/git.cpp:241-247 | writing the hash file does not change the store's hash |
| StoreManifest.ManifestIsInjective | src/git/git.cpp:160-212 | equal manifests record the same digests for the same paths |
| StoreManifest.ParseUndoesLines | src/git/git.cpp:160-212 | reading a manifest line by line gives back the records it was printed from |
| StoreVersion.FindNextStoreVersion | src/git/git.cpp:214-239 | the loop over all tags finds one above the largest patch number |
| StoreVersion.NextVersionIsNew | src/git/git.cpp:214-239 | the next version is above every parsable v0.0.N tag and its tag is free |
| StoreVersion.VersionParsesBack | src/git/git.cpp:214-239 | a printed version is parsed back to its number |
| StoreVersion.VersionText | src/git/git.cpp:236-238 | how a version is written: its number with zeros in front up to four digits |
| StoreVersion.ParsesExactly | src/git/git.cpp:228-234 | which patch texts count and for what: blanks, a sign, digits within an int, then anything |
| ClipboardLease.EveryInterleavingIsSafe | src/util/clipboard_lease.cpp:47-150 | any number of copiers, watchers and outsiders in any order, with exceptions anywhere: lease ids at most the counter and distinct among unfinished copies, at most one pending lease, at most one record with text, ended watchers leave settled leases, and once nobody is at work a lease is pending exactly if its copy ended in an exception after registering and no other has registered since |
| ClipboardLease.SettledStaysSettled | src/util/clipboard_lease.cpp:14-20 | a lease that left Pending never returns to it |
| ClipboardLease.NextHolds | src/util/clipboard_lease.cpp:47-150 | the invariant, kept by every single step |
| ClipboardLease.WatcherEnds | src/util/clipboard_lease.cpp:95-150 | in every run a watcher begins at most as many passes as its deadline allows; that the deadline is the delay asked for is `WatcherEndsInTime` |
| ClipboardTiming.ErasesOnTime | src/util/clipboard_lease.cpp:95-131 | in every run, for a copy of a text with a delay whose watcher is started at time t: a pass begun before t + delay never comes to erasing, and one begun at or after it does as soon as it sees the text |
| ClipboardTiming.SecretGoesOnTime | src/util/clipboard_lease.cpp:95-131 | an undisturbed pass of the current lease's watcher empties the clipboard exactly if it is begun at or after t + delay |
| ClipboardTiming.WatcherEndsInTime | src/util/clipboard_lease.cpp:95-150 | such a watcher begins at most one pass for each started quarter of a second of its delay, and one more |
| ClipboardTiming.WatchersWakeUp | src/util/clipboard_lease.cpp:97-101 | in every run a sleeping watcher can begin a pass within 250 milliseconds |
| ClipboardLease.UndisturbedPass | src/util/clipboard_lease.cpp:97-148 | a watcher's four separate actions, nothing happening in between, come to one pass |
| ClipboardLease.TickLeavesSecretExactly | src/util/clipboard_lease.cpp:95-150 | the latest lease's secret in the clipboard: an undisturbed pass ends the watch and leaves it there exactly if reading throws, reading yields nothing, or erasing throws at the deadline; otherwise the watch lasts until the deadline and then the secret is gone |
| ClipboardLease.SupersededTickSparesAll | src/util/clipboard_lease.cpp:95-150 | the watcher of any other lease that begins a pass or loads its text can only end, and touches nothing in the clipboard |
| ClipboardLease.LeakStepExactly | src/util/clipboard_lease.cpp:47-150 | any number of copiers taking turns: a step leaves a secret that nobody will clear exactly if a write fails, a copy is dropped after registering, a deciding read or erase fails, or there was such a secret and neither a new copy, an outsider nor a late watcher took over |
| ClipboardLease.SecretStaysExactly | src/util/clipboard_lease.cpp:47-150 | whole runs of copies taking turns: once everybody is done a copied secret is still in the clipboard exactly if such a failure happened and nothing cured it |
| ClipboardOverlap.AnySecretStaysExactly | src/util/clipboard_lease.cpp:47-150 | every run, however its copies overlap and whatever fails: once everybody is done a copied secret is still in the clipboard exactly if its watcher gave it up, superseded or kept from reading or erasing it, or the copy ended in an exception after its text was in, and nobody wrote or erased the clipboard since |
| ClipboardOverlap.OrphanStepExactly | src/util/clipboard_lease.cpp:47-150 | the same for one step of any copier, watcher or outsider |
| ClipboardOverlap.SupersededExactly | src/util/clipboard_lease.cpp:97-112 | a secret's watcher is superseded when it looks exactly if its lease is not the active one, and when it loads its text exactly if it is not the one registered last |
| ClipboardOverlap.OverlappingStep | src/util/clipboard_lease.cpp:47-150 | the invariant behind it, kept by every single step |
| ClipboardLease.EraseIsDecided | src/util/clipboard_lease.cpp:124-131 | a watcher sets out to erase only what it has just seen to be its own text, past its deadline |
| ClipboardLease.EraseSparesOthersExactly | src/util/clipboard_lease.cpp:130-131 | it then destroys a foreign text exactly if one was written between its look and its erasing, and was the last write |
| ClipboardLease.LateEraseHitsLaterCopy | src/util/clipboard_lease.cpp:130-141 | a run with one copying thread and no failure in which the first watcher erases the second copy at the start of its time |
| ClipboardLease.DroppedCopyLeaks | src/util/clipboard_lease.cpp:84-98 | a copy whose confirming read throws: nobody is at work, the secret stays, and its lease is pending for good |
| ClipboardLease.OneCopierTakesTurns | src/util/clipboard_lease.cpp:47-68 | a single copying thread always takes turns |
| ClipboardLease.NoSecretOutlivesItsWatchers | src/util/clipboard_lease.cpp:47-150 | copies taking turns, working commands: once everybody is done no copied secret is in the clipboard |
| ClipboardLease.TwoCopiersLeakASecret | src/util/clipboard_lease.cpp:47-68 | two copiers not taking turns: a run without any failure after which both watchers have ended and a secret stays |
| ClipboardLease.FailedWriteLeaksTheEarlierSecret | src/util/clipboard_lease.cpp:74-82 | a second copy whose write fails still supersedes the first watcher, and the first secret stays |
| ClipboardLease.FailedWriteLeaksExactly | src/util/clipboard_lease.cpp:74-79 | a second copy whose write fails leaves a leak exactly if an earlier secret is still there |
| ClipboardLease.FailedReadLeaksTheSecret | src/util/clipboard_core.cpp:55-66 | a failing read command looks like a cleared clipboard: the watcher ends, the secret stays |
| ClipboardLease.Clipboard.RegisterLease | src/util/clipboard_lease.cpp:50-62 | the locked section withdraws every other lease and erases its text |
| ClipboardLease.Clipboard.WatcherTick | src/util/clipboard_lease.cpp:97-148 | one pass of the watcher computes the specified step |
| ClipboardLease.Clipboard.SetLeaseState | src/util/clipboard_lease.cpp:14-20 | sets the state of a known lease, keeps its text |
| ClipboardLease.Clipboard.FetchAdd | src/util/clipboard_lease.cpp:48-48 | the counter, wrapping at 64 bits |
| ClipboardLease.Clipboard.LeaseActive | src/util/clipboard_lease.cpp:155-173 | the countdown shows exactly a pending, current lease whose text is in the clipboard |
| EntryNames.ComboRoundTrip | src/tui/password_helpers.cpp:122-137 | all seven form fields are recovered from the built entry exactly when folder, account and site survive and the brackets leave the separator at the top level |
| EntryNames.PlainValuesStandOut | src/tui/detail/browser.cpp:129-143 | values without brackets always meet that last condition |
| EntryNames.FolderRoundTrip | src/tui/detail/browser.cpp:75-84 | a folder is recovered exactly when it is trimmed and written without leading, trailing or doubled slashes |
| EntryNames.BuiltNameAccepted | src/tui/detail/browser.cpp:191-218 | the store accepts a built name exactly when the folder is valid and neither value has a control character |
| EntryNames.PlainNameRoundTrip | src/tui/detail/browser.cpp:191-218 | any two trimmed, nonempty values without brackets are read back from the name built of them |
| EntryNames.NameNeedsBoth | src/tui/detail/browser.cpp:214-216 | no name is built exactly if one of the values is blank |
| EntryNames.TokenIsSafe | src/tui/detail/browser.cpp:65-73 | a value is put in brackets exactly if it has other characters than letters, digits and "._-", and either way no @ in it is the separator |
| EntryNames.EscapedLeafReadsPlain | src/tui/detail/browser.cpp:164-182 | the escaping layer is invisible: reading an escaped leaf gives the parts of the plain one |
| EntryNames.EscapingKeepsSeparator | src/tui/detail/browser.cpp:129-143 | escaping moves the separating @ but does not change which one it is |
| EntryNames.FindTopLevelAt | src/tui/detail/browser.cpp:129-143 | the bracket-depth scan finds the last @ outside brackets |
| ComboFields.AccountRoundTrip | src/tui/password_helpers.cpp:33-79 | user and location are recovered exactly when both are there, trimmed, and the user has no @ (or both are empty) |
| ComboFields.SiteRoundTrip | src/tui/password_helpers.cpp:42-120 | host, port, query and company are recovered exactly under the stated delimiter conditions; a host with a slash never is |
| ComboFields.CutPortUndoes | src/tui/password_helpers.cpp:81-120 | the port is split off exactly when there is one or nothing after the host's last colon looks like one |
| ComboFields.QueryExactly | src/tui/password_helpers.cpp:22-31 | a query is left alone exactly if it is trimmed and has no slash in front |
| ComboFields.SlashGoes | src/tui/password_helpers.cpp:22-31 | one slash in front of it is dropped |
| ComboFields.PortsExactly | src/tui/password_helpers.cpp:7-20 | the accepted ports: none, or the digits of a number from 1 to 65535 |
| PercentCodec.DecodeUndoesEncode | src/tui/detail/browser.cpp:43-63 | decoding undoes encoding on every string |
| PercentCodec.EncodePass | src/tui/detail/browser.cpp:196-210 | one in-place replacement pass equals the character map extended by one character |
| PercentCodec.DecodePass | src/tui/detail/browser.cpp:43-63 | one decoding pass equals un-escaping one more character on encoded strings |
| PercentCodec.Encode | src/tui/detail/browser.cpp:196-210 | the three passes equal the one-pass character map |
| PercentCodec.PassesDecodeOnce | src/tui/detail/browser.cpp:43-63 | the three decoding passes equal a one-pass code reader, on every string |
| PercentCodec.Decode | src/tui/detail/browser.cpp:43-63 | the three in-place passes compute that, and give back what was encoded |
| PercentCodec.ReplaceAll | src/tui/detail/browser.cpp:196-210 | find-and-replace from left to right, never inside what was just written |
| PercentCodec.EncodedIsPathSafe | src/tui/detail/browser.cpp:196-210 | an encoded string has no slash and no backslash |
| FolderBrowser.ScreenIsExact | src/tui/detail/browser.cpp:261-304 | the screen of a folder shows exactly its direct subfolders with some entry below, and its entries |
| FolderBrowser.ScreenIsOrdered | src/tui/detail/browser.cpp:293-302 | folders before entries, each strictly by caption, nothing twice |
| Ordering.LessExactly | src/tui/detail/browser.cpp:293-302 | how captions, listings and manifests compare: a proper beginning first, else by the first character that differs |
| FolderBrowser.EntryIsShownOnce | src/tui/detail/browser.cpp:281-291 | an entry is on the screen of its own folder under its last name, and on no other |
| FolderBrowser.EveryEntryIsReachable | src/tui/detail/browser.cpp:234-259 | each item along its path, folder or entry, is on the screen of the folder before it |
| FolderBrowser.EntryIsReachedExactly | src/tui/detail/browser.cpp:234-259 | the whole path: opening items one after the other from the root screen leads to an entry exactly if they are the folders on its path, in order, and the entry itself |
| FolderBrowser.FoldersLeadSomewhere | src/tui/detail/browser.cpp:234-259 | every folder item opens a screen that is not empty, and going back from there returns |
| FolderBrowser.TextPrefixIsFolder | src/tui/detail/browser.cpp:234-259 | the string prefix test on folder names is the enclosing-folder relation |
| FolderBrowser.CollectKnownFolders | src/tui/detail/browser.cpp:220-232 | the sorted listing of all folders around entries |
| FolderBrowser.ChildFoldersOf | src/tui/detail/browser.cpp:234-259 | the sorted listing of the first names below a folder |
| FolderBrowser.BuildBrowserItems | src/tui/detail/browser.cpp:261-304 | the loops compute the specified screen |
| StoreRuns.StoreIsAMap | src/store/store.cpp:470-649 | over every run of saves, edits, deletions, folder removals and migrations, any `pass` or `gpg` call failing anywhere but the encryption of a note to be saved, and no removed folder shielded by an entry of its name: bodies plus note files show what the same run does to a plain map from names to entries |
| StoreDrawers.EveryRunIsInDrawers | src/store/store.cpp:470-649 | over every run, whichever `pass` and `gpg` calls fail and whatever was left behind before: the store shows what the same run does to one drawer per name, holding the entry and the notes filed under usernames |
| StoreDrawers.UnconcernedEntriesStay | src/store/store.cpp:470-649 | an entry that no operation of a run is about shows the same after it, note and all |
| StoreDrawers.TokenKeysDiffer | src/store/store.cpp:283-300 | two note files are the same exactly if entry and note-file form of the username are |
| StoreDrawers.PruneDrawers | src/store/store.cpp:550-577 | what removing a folder does to every drawer: shielded or not, readable or not, in the listing or hidden from it |
| StoreDrawers.HiddenEntriesLeaveNotes | src/store/store.cpp:555-576 | a hidden entry that goes with its folder leaves its note files behind |
| StoreRefinement.SaveRefinesPut | src/store/store.cpp:506-530 | a completed save replaces one entry and no other, exactly when no field spans lines |
| StoreRefinement.FailedEncryptionKeepsOldNote | src/store/store.cpp:524-529 | when only the note cannot be encrypted, new fields stand next to the old note |
| StoreRefinement.DeleteRefinesRemove | src/store/store.cpp:532-548 | a completed deletion removes one entry and no other, even if its username could not be read |
| StoreRefinement.PruneRefinesRemoval | src/store/store.cpp:550-577 | removing a folder removes what is below it and nothing else exactly if no entry has the folder's own name, or that entry is all there is |
| StoreRefinement.SparedEntriesLoseTheirNotes | src/store/store.cpp:550-577 | if such an entry shields the folder, which of the entries in it lose their notes: exactly the listed ones whose note is filed as that of the username read for them |
| StoreRefinement.ShieldedFolderLosesNotes | src/store/store.cpp:550-577 | removing the folder "a" next to an entry "a" leaves "a/b" without its note |
| StoreRefinement.EditKeepsNotesExactly | src/tui/password_actions.cpp:699-704 | an edit under the same name keeps the entry exactly if the username is unchanged, or its sanitised form changes too, or there are no notes |
| StoreRefinement.EditCanLoseNotes | src/tui/password_actions.cpp:699-704 | correcting the username "a b" to "a-b" deletes the note just saved |
| StoreRefinement.EditRefines | src/tui/password_actions.cpp:699-714 | what an edit, with or without a rename, does to the map |
| StoreRefinement.MigrationFillsOnlyEmptyNotes | src/store/store.cpp:612-649 | migration gives an entry its record's notes exactly if it had none and could be read and written, and changes nothing else of any entry |
| StoreRefinement.MigrateOneFills | src/store/store.cpp:630-645 | one record; in particular a failed note encryption leaves every entry as it was |
| EntryText.ParseUndoesSerialize | src/store/store.cpp:438-502 | reading a serialized entry gives it back, notes aside, exactly when password, username and URL are single lines |
| EntryText.ParsedFieldsAreLines | src/store/store.cpp:438-468 | whatever the text, parsed fields are single lines |
| EntryText.OldNotesAreRead | src/store/store.cpp:438-468 | notes in the body, as earlier versions wrote them: every line after "notes:" is read as part of them |
| EntryText.ParseEntry | src/store/store.cpp:438-468 | the line loop with its notes flag computes the specified entry |
| PasswordStore.KeysTellNamesApart | src/store/store.cpp:293-300 | entries whose name digests differ never share a note file, whatever their usernames |
| PasswordStore.SanitizeNoteToken | src/store/store.cpp:263-281 | kept characters, dashes stripped at both ends, or the fallback |
| PasswordStore.NoteCharIs | src/store/store.cpp:263-281 | letters, digits and "-_." stay, "/@: []" become dashes, everything else goes |
| PasswordStore.NoteTokenIsFileName | src/store/store.cpp:263-281 | the token is what its characters become without the dashes around it, one file name, or the fallback if nothing is left |
| PasswordStore.Store.ReadEntry | src/store/store.cpp:470-485 | body, overridden by the note file; its three error cases |
| PasswordStore.ReadsExactly | src/store/store.cpp:470-485 | when reading succeeds, and from where each field comes |
| PathNames.ValidNamesExactly | src/store/store.cpp:355-373 | the names accepted: one or more nonempty components without control characters, none of them "." or "..", joined by single slashes |
| PasswordStore.Store.SaveEntry | src/store/store.cpp:506-530 | the new bodies and notes, or which command failed and what it left behind |
| PasswordStore.Store.DeleteEntry | src/store/store.cpp:532-548 | the new bodies and notes, also when the username cannot be read |
| PasswordStore.Store.DeleteTree | src/store/store.cpp:550-577 | the new bodies and notes: the entry of that name if there is one, else the folder, and the notes of all that was listed below |
| PasswordStore.Store.MigrateLegacyNotes | src/store/store.cpp:612-649 | the loop over the records computes the specified state |
| PasswordStore.EditEntry | src/tui/password_actions.cpp:699-714 | save, then drop the old note or the old entry |
| DrawnTree.ListingIsExact | src/store/store.cpp:375-436 | for every store tree with tidy names the depth-stack reader yields the sorted entries without hidden components, or the directory walk if there are none |
| DrawnTree.ListingMatchesWalk | src/store/store.cpp:375-436 | reading the drawn tree and walking the directories agree exactly if no entry is hidden, or all are |
| StoreListing.StoreIsListed | src/store/store.cpp:375-436 | the listing that the runs above go by is the one read from the drawn tree |
| DrawnTree.EntryFolderIsListed | src/store/store.cpp:405-416 | a folder with the name of an entry file is read as an entry, whatever else is in the store |
| DrawnTree.DrawnTreeIsRead | src/store/store.cpp:385-416 | the reader, standing anywhere below a folder, finds exactly what was drawn there and returns to that folder |
| DrawnTree.DepthOfLine | src/store/store.cpp:248-261 | the depth of a drawn line is the number of its ancestors and the rest is its name |
| TreeListing.ListEntries | src/store/store.cpp:375-436 | reading, fallback, sort and unique compute the specified listing |
| TreeListing.ReadTreeLine | src/store/store.cpp:391-416 | one pass of the loop |
| TreeListing.TreeDepth | src/store/store.cpp:248-261 | depth and offset of a line |
| TreeListing.WalkEntries | src/store/store.cpp:418-431 | the walk finds exactly the encrypted files outside the git directory |
| TreeListing.WalkIsExact | src/store/store.cpp:418-431 | at any depth: exactly the names of files with ".gpg" after a nonempty name, whose path does not begin with .git |
| WindowsCommandLine.CommandLineRoundTrip | src/installer/win/process.cpp:159-166 | the started program reads back the printed list exactly when no argument is empty and the program name needs no escape |
| WindowsCommandLine.ParseUndoesJoin | src/installer/win/process.cpp:106-134 | after the program name, quoting and joining is undone for every list of arguments, empty ones being dropped |
| WindowsCommandLine.ProgramReadsBack | src/installer/win/process.cpp:159-166 | when the program name itself survives |
| WindowsCommandLine.QuoteArg | src/installer/win/process.cpp:106-134 | the backslash-counting loop computes the quoted form |
| WindowsCommandLine.JoinCommandLine | src/installer/win/process.cpp:159-166 | the joining loop |
| DirectoryReplace.FileSystem.ReplaceDirectory | src/tui/tui_backup_container.cpp:101-124 | whatever call fails, at every intermediate point the old tree is whole at the live or backup path or the new one is whole at the live path |
| DirectoryReplace.FileSystem.RollBack | src/tui/tui_backup_container.cpp:115-122 | the catch block keeps that up |
| DirectoryReplace.ReturnInstallsStaged | src/tui/tui_backup_container.cpp:101-124 | a normal return has exactly the staged tree live |
| DirectoryReplace.EarlyThrowKeepsLive | src/tui/tui_backup_container.cpp:101-110 | a throw before the live tree was renamed away leaves it alone |
| DirectoryReplace.LateThrowRollsBack | src/tui/tui_backup_container.cpp:115-122 | a later throw has the old tree live again exactly if the rollback worked, and otherwise whole at the backup path |
| DirectoryReplace.RollbackCleansUp | src/tui/tui_backup_container.cpp:115-122 | a rollback that works leaves nothing at the staging path, unless removing it fails |
| DirectoryReplace.CopyIsExact | src/tui/detail/backup_manifest.cpp:86-115 | a copy that goes through equals its source, special files aside, exactly if it overwrites all that was there before |
| DirectoryReplace.RegularIsTheTree | src/tui/detail/backup_manifest.cpp:96-110 | leaving out special files changes exactly the trees that have some |
| DirectoryReplace.CopyDirectory | src/tui/detail/backup_manifest.cpp:86-115 | the recursive copy, in any order of iteration, or the exception when something of the wrong kind is in the way |
| DirectoryReplace.ImportBackup | src/tui/tui_backup_container.cpp:363-379 | staging both trees, then replacing both: every intermediate state of either is safe |
| DirectoryReplace.ImportInstallsBoth | src/tui/tui_backup_container.cpp:363-379 | a completed import has both backed-up trees live, exactly if nothing foreign was left at the staging paths |
| DirectoryReplace.NewTreeStaysExactly | src/tui/tui_backup_container.cpp:101-124 | when the new tree is live in the end: exactly if it moved in, and the call returned or its rollback left the new tree there (or old and new are the same) |
| DirectoryReplace.ImportTearsExactly | src/tui/tui_backup_container.cpp:363-379 | a throwing import has the new store live, next to the old notes, exactly if both stagings worked and the store's tree moved in to stay; in every other throw the old store is whole, live or at its backup; the old notes are in any case |
| DirectoryReplace.ImportCanBeTorn | src/tui/tui_backup_container.cpp:374-375 | an instance: a failing second replacement, rolled back, leaves the new store next to the old notes |
| AuditLedger.RunsStayCoherent | src/util/entry_metadata.cpp:466-587 | over every run each record tells one story: events linked by name, the last name its key |
| AuditLedger.HistoryFollowsRenames | src/util/entry_metadata.cpp:488-535 | over every run a record that is not recreated or overwritten keeps creation and history under every name it gets, plus one event per modification |
| AuditLedger.ModificationTouchesTwo | src/util/entry_metadata.cpp:488-535 | a modification touches only the two names it is given and drops a record exactly if it renames onto a name in use |
| AuditLedger.PreferredModeIsTheLastGiven | src/util/entry_metadata.cpp:415-427 | over every run the preferred mode is the one last recorded for the name |
| AuditLedger.CountsCoverTheLedger | src/util/entry_metadata.cpp:350-367 | active and deleted counts add up to the number of records |
| AuditLedger.DeletionsAreRecorded | src/util/entry_metadata.cpp:537-587 | over every run from an empty ledger a name counts as deleted exactly if it is on file and the last operation about it was a deletion, its own or that of a folder around it; the event names it and carries the mode last given; it counts as active exactly if the last operation was another |
| AuditLedger.DeletionTouchesOnly | src/util/entry_metadata.cpp:537-587 | a deletion leaves every record it is not about alone, and adds nothing but its event to the others |
| AuditLedger.ModeReadsBack | src/util/entry_metadata.cpp:431-451 | a printed mode is read back |
| AuditLedger.LedgerFile.RefreshMeta | src/util/entry_metadata.cpp:350-367 | the counting loop |
| AuditLedger.LedgerFile.RecordCreation | src/util/entry_metadata.cpp:466-486 | the new records and counts |
| AuditLedger.LedgerFile.RecordModification | src/util/entry_metadata.cpp:488-535 | the record moves to the new name with one more event |
| AuditLedger.LedgerFile.RecordDeletion | src/util/entry_metadata.cpp:537-556 | the record, made if missing, gets its deletion event; over runs this is `DeletionsAreRecorded` |
| AuditLedger.LedgerFile.RecordTreeDeletion | src/util/entry_metadata.cpp:558-587 | every record below the folder, and no other, gets its deletion event |

## Left out

- SyncProtocol.MergedPath: merging is by whole files, as line-level text merging inside one file belongs to git.
- GitModel.MergeBaseBelow: one merge base, the latest common ancestor; git's recursive merging of several bases is not modelled.
- SyncWorld.EveryRunIsSafe: forced pulls, forced pushes and remote nukes are not among the moves, because they discard history by design; their own contracts are `PullForce`, `PushForce` and `NukePasswords`. A local nuke and the commits of `pass` are moves. What a refused tag leaves behind is `VersionTags.TagFailsExactly`.
- HollowReview.HollowReviewStrands: for a review in which no file was edited; edits made in it are local changes that the next sync commits, so that it does not get to that point.
- StoreVersion.NextVersionIsNew: needs the largest patch number below the int bound; the overflow of `max_patch + 1` at the bound is undefined in C++.
- SyncWorld.EveryStepIsFair: a fetch that breaks off has brought all tags or none; what else a broken command leaves in index, worktree and merge state is arbitrary.
- ClipboardLease.EveryInterleavingIsSafe: for fewer than 2^64 copies, after which ids would repeat; each access to a shared variable and each clipboard command is one atomic, sequentially consistent action, and a watcher that has erased settles its lease in the same action.
- StoreRuns.StoreIsAMap: a save or edit whose note cannot be encrypted and a folder shielded by an entry of its name are excluded, since the plain map is not what the store then shows; `StoreDrawers.EveryRunIsInDrawers` has both. Names are those whose digests differ, and no field written spans lines.
- PasswordStore.Store.DeleteTree: `pass rm -r -f` deletes the file of the entry of that name if there is one and the folder only if not, as that program documents it; folders without any entry are not part of the model.
- PasswordStore.Store.ReadEntry: `pass show` on a folder name, which prints a listing, and changes made to bodies or notes by other programs.
- PasswordStore.Store.SaveEntry: the overwrite flag only changes whether `pass` may ask; the insertion succeeds or fails either way. Failures of plain file removal.
- WholeSync.SyncExactly: for a sync in which no merge is open, as a crashed review leaves one, and nobody else pushes; with an open merge the commit stage concludes it first (`HollowReview`), and others pushing meanwhile are `SyncWorld.EveryRunIsSafe`.
- DrawnTree.ListingIsExact: the drawing is ASCII and uncoloured; a listing in line-drawing characters has no tree line at all and falls back to the walk.
- EntryNames.FolderRoundTrip: a folder is read back with doubled slashes collapsed, as `generic_string` of GNU libstdc++ does; the folder prompt rejects such folders anyway.
- FolderBrowser.BuildBrowserItems: account and site columns of an item, which `EntryNames.DescribeEntry` gives for entries.
- DirectoryReplace.ImportBackup: the archive checks before and the manifest file written after the replacement; file permissions.
- AuditLedger.RunsStayCoherent: timestamps, host data, sync history, the runtime log, and ledger files whose JSON has been damaged; while telemetry is off nothing is recorded.
- WindowsCommandLine.CommandLineRoundTrip: NUL characters inside arguments, and the limit on the length of a command line.
- Tags point at commits; annotated tag objects and their messages are not modelled, so two tags of one name on the same commit count as equal. That a fetch of tags fails on a clash and that a pull of a branch brings no tags is git's documented behaviour.
- Ignored files, symbolic links, permissions and case-insensitive file systems.
- SHA-256, the entry digest, encryption and decryption: opaque functions, decryption undoing encryption.
- The Windows clipboard helper: to the model it is one more outsider writing the clipboard.
- Screens, prompts, process launching, installers, release scripts, configuration files and password generation: no further property of the kind proved here.
