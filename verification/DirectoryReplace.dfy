/**
 Restoring a backup replaces whole directories: the new tree is copied to a sibling of
 the live one, the live one is renamed away, the copy is renamed in, and any failure in
 between is rolled back. Every file system call may fail.
 */
module DirectoryReplace {
  import opened Options

  /** `Special` stands for anything that is neither a directory nor a regular file. */
  datatype Tree = File(content: string) | Special | Dir(kids: map<string, Tree>)

  type Kids = map<string, Tree>

  // ---------------------------------------------------------------- copying a tree

  /** A file is in the way of a directory, or the other way round. */
  predicate Clashes(dest: Kids, name: string, source: Tree)
    decreases source
  {
    match source
    case Special => false
    case File(_) => name in dest && !dest[name].File?
    case Dir(kids) => name in dest && (!dest[name].Dir? || exists k :: k in kids && Clashes(dest[name].kids, k, kids[k]))
  }

  function KidsAt(dest: Kids, name: string): Kids {
    if name in dest && dest[name].Dir? then dest[name].kids else map[]
  }

  /** What a copied node becomes. */
  function CopiedNode(dest: Kids, name: string, source: Tree): Option<Tree>
    decreases source, 1
  {
    match source
    case Special => if name in dest then Some(dest[name]) else None
    case File(content) => Some(File(content))
    case Dir(kids) => Some(Dir(Copied(KidsAt(dest, name), source)))
  }

  /** What a directory with `dest` in it holds after copying the directory `source` into it. */
  function Copied(dest: Kids, source: Tree): Kids
    requires source.Dir?
    decreases source, 0
  {
    map name | name in dest.Keys + source.kids.Keys && (name !in source.kids || CopiedNode(dest, name, source.kids[name]).Some?)
      :: if name in source.kids then CopiedNode(dest, name, source.kids[name]).value else dest[name]
  }

  /** The copy meets nothing of the wrong kind in its way. */
  predicate FitsInto(dest: Kids, source: Tree)
    requires source.Dir?
  {
    forall k :: k in source.kids ==> !Clashes(dest, k, source.kids[k])
  }

  /** None is an exception: something of the wrong kind is in the way. */
  method CopyDirectory(dest: Kids, source: Tree) returns (result: Option<Kids>)
    requires source.Dir?
    ensures result == if FitsInto(dest, source) then Some(Copied(dest, source)) else None
    decreases source, 0
  {
    var current := dest;
    var todo := source.kids.Keys;
    while todo != {}
      invariant todo <= source.kids.Keys
      invariant forall k :: k in source.kids && k !in todo ==> !Clashes(dest, k, source.kids[k])
      invariant HalfCopied(dest, source, current, todo)
      decreases todo
    {
      var name :| name in todo;
      todo := todo - {name};
      assert KidsAt(current, name) == KidsAt(dest, name);
      var copied := CopyNode(current, name, source.kids[name]);
      if copied.None? {
        return None;
      }
      current := copied.value;
    }
    assert current == Copied(dest, source);
    result := Some(current);
  }

  ghost predicate HalfCopied(dest: Kids, source: Tree, current: Kids, todo: set<string>)
    requires source.Dir?
  {
    forall k ::
      if k in source.kids && k !in todo then
        && (k in current <==> CopiedNode(dest, k, source.kids[k]).Some?)
        && (k in current ==> current[k] == CopiedNode(dest, k, source.kids[k]).value)
      else (k in current <==> k in dest) && (k in dest ==> current[k] == dest[k])
  }

  method CopyNode(dest: Kids, name: string, source: Tree) returns (result: Option<Kids>)
    ensures result ==
      if Clashes(dest, name, source) then None
      else
        var node := CopiedNode(dest, name, source);
        Some(if node.Some? then dest[name := node.value] else dest)
    decreases source, 1
  {
    match source {
      case Special =>
        result := Some(dest);
        assert name in dest ==> dest[name := dest[name]] == dest;
      case File(content) =>
        if name in dest && !dest[name].File? {
          return None;
        }
        result := Some(dest[name := source]);
      case Dir(kids) =>
        if name in dest && !dest[name].Dir? {
          return None;
        }
        var inner := CopyDirectory(KidsAt(dest, name), source);
        if inner.None? {
          return None;
        }
        result := Some(dest[name := Dir(inner.value)]);
    }
  }

  // ---- what a copy is

  /** A tree without its special files. */
  function Regular(t: Tree): Tree
    decreases t
  {
    match t
    case Dir(kids) => Dir(map k | k in kids && !kids[k].Special? :: Regular(kids[k]))
    case _ => t
  }

  predicate NoSpecials(t: Tree)
    decreases t
  {
    match t
    case Special => false
    case File(_) => true
    case Dir(kids) => forall k :: k in kids ==> NoSpecials(kids[k])
  }

  lemma {:induction false} RegularIsTheTree(t: Tree)
    requires !t.Special?
    ensures Regular(t) == t <==> NoSpecials(t)
    decreases t
  {
    if t.Dir? {
      forall k | k in t.kids && !t.kids[k].Special? ensures Regular(t.kids[k]) == t.kids[k] <==> NoSpecials(t.kids[k]) {
        RegularIsTheTree(t.kids[k]);
      }
      if NoSpecials(t) {
        forall k | k in t.kids ensures !t.kids[k].Special? { assert NoSpecials(t.kids[k]); }
        assert Regular(t).kids == t.kids;
      }
      if Regular(t) == t {
        forall k | k in t.kids ensures NoSpecials(t.kids[k]) { assert k in Regular(t).kids; }
      }
    }
  }

  /** Everything already in the destination is overwritten by the copy. */
  predicate Covered(dest: Kids, source: Tree)
    requires source.Dir?
    decreases source
  {
    forall k :: k in dest ==>
      && k in source.kids && !source.kids[k].Special?
      && (source.kids[k].Dir? ==> Covered(KidsAt(dest, k), source.kids[k]))
  }

  /** A copy that goes through equals its source, special files aside, exactly if it covers all that was there before. */
  lemma {:induction false} CopyIsExact(dest: Kids, source: Tree)
    requires source.Dir? && FitsInto(dest, source)
    ensures Copied(dest, source) == Regular(source).kids <==> Covered(dest, source)
    decreases source
  {
    forall k | k in source.kids && source.kids[k].Dir?
      ensures Copied(KidsAt(dest, k), source.kids[k]) == Regular(source.kids[k]).kids <==> Covered(KidsAt(dest, k), source.kids[k])
    {
      assert !Clashes(dest, k, source.kids[k]);
      CopyIsExact(KidsAt(dest, k), source.kids[k]);
    }
    if Covered(dest, source) {
      CoveringCopyIsExact(dest, source);
    } else if Copied(dest, source) == Regular(source).kids {
      ExactCopyCovers(dest, source);
    }
  }

  lemma CoveringCopyIsExact(dest: Kids, source: Tree)
    requires source.Dir? && Covered(dest, source)
    requires forall k :: k in source.kids && source.kids[k].Dir? && Covered(KidsAt(dest, k), source.kids[k]) ==>
      Copied(KidsAt(dest, k), source.kids[k]) == Regular(source.kids[k]).kids
    ensures Copied(dest, source) == Regular(source).kids
  {
    var copied, regular := Copied(dest, source), Regular(source).kids;
    forall k | k in source.kids && !source.kids[k].Special?
      ensures CopiedNode(dest, k, source.kids[k]) == Some(Regular(source.kids[k]))
    {
      if source.kids[k].Dir? && k !in dest { assert Covered(map[], source.kids[k]); }
    }
    forall k ensures k in copied <==> k in regular {
      if k in source.kids && source.kids[k].Special? {
        assert k !in dest && CopiedNode(dest, k, source.kids[k]).None?;
      }
    }
  }

  lemma ExactCopyCovers(dest: Kids, source: Tree)
    requires source.Dir? && Copied(dest, source) == Regular(source).kids
    requires forall k :: k in source.kids && source.kids[k].Dir? && Copied(KidsAt(dest, k), source.kids[k]) == Regular(source.kids[k]).kids ==>
      Covered(KidsAt(dest, k), source.kids[k])
    ensures Covered(dest, source)
  {
    var copied, regular := Copied(dest, source), Regular(source).kids;
    forall k | k in dest
      ensures k in source.kids && !source.kids[k].Special? && (source.kids[k].Dir? ==> Covered(KidsAt(dest, k), source.kids[k]))
    {
      assert k in copied;
      assert k in regular && copied[k] == regular[k];
    }
  }

  // ---------------------------------------------------------------- renaming with rollback

  datatype Place = Live | Staged | Backup

  /** What is at the live path and at its two siblings. */
  type Places = map<Place, Tree>

  /** `clear_path_if_present`: the look may throw; the removal never does, but may stop anywhere and leave something. */
  datatype Clearing = LookThrows | Removes(meanwhile: seq<Tree>, left: Option<Tree>)

  datatype Result = Result(places: Places, ok: bool)

  function With(s: Places, p: Place, t: Option<Tree>): Places {
    if t.Some? then s[p := t.value] else s - {p}
  }

  function Cleared(s: Places, p: Place, c: Clearing): Result {
    if c.LookThrows? then Result(s, false)
    else if p !in s then Result(s, true)
    else Result(With(s, p, c.left), true)
  }

  predicate RenameWorks(s: Places, from: Place, to: Place, fault: bool) {
    && !fault && from in s
    && (to in s ==> s[to] == Dir(map[]) && s[from].Dir?)
  }

  function Renamed(s: Places, from: Place, to: Place, fault: bool): Result {
    if RenameWorks(s, from, to, fault) then Result((s - {from})[to := s[from]], true) else Result(s, false)
  }

  /** Which calls fail, in the order in which they would be made. */
  datatype Faults = Faults(
    look: bool, clearOld: Clearing, moveAway: bool, moveIn: bool, clearBackup: Clearing,
    undoLive: Clearing, lookBack: bool, moveBack: bool, undoStaged: Clearing)

  function RolledBack(s: Places, had: bool, f: Faults): Places {
    var undone := Cleared(s, Live, f.undoLive);
    if !undone.ok || (had && f.lookBack) then undone.places
    else if had && Backup in undone.places then
      var back := Renamed(undone.places, Backup, Live, f.moveBack);
      if back.ok then Cleared(back.places, Staged, f.undoStaged).places else back.places
    else Cleared(undone.places, Staged, f.undoStaged).places
  }

  /** `ok` is false when the call throws. */
  function Replaced(s: Places, f: Faults): Result {
    var had := Live in s;
    var cleared := Cleared(s, Backup, f.clearOld);
    if f.look || !cleared.ok then Result(s, false)
    else
      var away := if had then Renamed(cleared.places, Live, Backup, f.moveAway) else cleared;
      if !away.ok then away
      else
        var moved := Renamed(away.places, Staged, Live, f.moveIn);
        var done := if moved.ok then Cleared(moved.places, Backup, f.clearBackup) else moved;
        if done.ok then done else Result(RolledBack(done.places, had, f), false)
  }

  function At(s: Places, p: Place): Option<Tree> { if p in s then Some(s[p]) else None }

  /** The old tree is whole at the live or the backup path, or the new one is whole at the live path. */
  predicate Safe(before: Option<Tree>, arriving: Option<Tree>, s: Places) {
    before.Some? ==> At(s, Live) == before || At(s, Backup) == before || (arriving.Some? && At(s, Live) == arriving)
  }

  predicate SameBut(p: Place, a: Places, b: Places) {
    forall q :: q != p ==> (q in a <==> q in b) && (q in a ==> a[q] == b[q])
  }

  class FileSystem {
    var places: Places
    /** Everything an observer, or a crash, could have found in between. */
    ghost var seen: seq<Places>

    ghost predicate SeenSafe(before: Option<Tree>, arriving: Option<Tree>, since: nat)
      reads this
    {
      since <= |seen| && forall i :: since <= i < |seen| ==> Safe(before, arriving, seen[i])
    }

    method Clear(p: Place, c: Clearing) returns (ok: bool)
      modifies this
      ensures Result(places, ok) == Cleared(old(places), p, c)
      ensures old(seen) <= seen
      ensures SameBut(p, old(places), places)
      ensures forall i :: |old(seen)| <= i < |seen| ==> SameBut(p, old(places), seen[i])
    {
      if c.LookThrows? {
        return false;
      }
      if p in places {
        ghost var i := 0;
        while i < |c.meanwhile|
          invariant old(seen) <= seen && places == old(places)
          invariant forall j :: |old(seen)| <= j < |seen| ==> SameBut(p, old(places), seen[j])
          decreases |c.meanwhile| - i
        {
          seen := seen + [places[p := c.meanwhile[i]]];
          i := i + 1;
        }
        places := With(places, p, c.left);
        seen := seen + [places];
      }
      ok := true;
    }

    method Rename(from: Place, to: Place, fault: bool) returns (ok: bool)
      modifies this
      ensures Result(places, ok) == Renamed(old(places), from, to, fault)
      ensures seen == old(seen) + [places]
    {
      ok := RenameWorks(places, from, to, fault);
      if ok {
        places := (places - {from})[to := places[from]];
      }
      seen := seen + [places];
    }

    method RollBack(had: bool, f: Faults, ghost before: Option<Tree>, ghost arriving: Option<Tree>, ghost since: nat)
      requires SeenSafe(before, arriving, since)
      requires (had <==> before.Some?) && (had ==> At(places, Backup) == before)
      modifies this
      ensures places == RolledBack(old(places), had, f)
      ensures SeenSafe(before, arriving, since) && old(seen) <= seen
    {
      var ok := Clear(Live, f.undoLive);
      if !ok || (had && f.lookBack) {
        return;
      }
      if had && Backup in places {
        ok := Rename(Backup, Live, f.moveBack);
        if !ok {
          return;
        }
      }
      var _ := Clear(Staged, f.undoStaged);
    }

    method ReplaceDirectory(f: Faults) returns (ok: bool)
      modifies this
      ensures Result(places, ok) == Replaced(old(places), f)
      ensures SeenSafe(At(old(places), Live), At(old(places), Staged), |old(seen)|) && old(seen) <= seen
    {
      ghost var before, arriving, since := At(places, Live), At(places, Staged), |seen|;
      if f.look {
        return false;
      }
      var had := Live in places;
      ok := Clear(Backup, f.clearOld);
      if !ok {
        return;
      }
      if had {
        ok := Rename(Live, Backup, f.moveAway);
        if !ok {
          return;
        }
      }
      ok := Rename(Staged, Live, f.moveIn);
      if ok {
        ok := Clear(Backup, f.clearBackup);
      }
      if !ok {
        RollBack(had, f, before, arriving, since);
      }
    }
  }

  // ---- how a replacement can end

  predicate Holds(s: Places, p: Place, t: Tree) { p in s && s[p] == t }

  /** Normal return: exactly the staged tree is live, and nothing is staged any more. */
  lemma ReturnInstallsStaged(s: Places, f: Faults)
    requires Replaced(s, f).ok
    ensures Staged in s && Holds(Replaced(s, f).places, Live, s[Staged]) && Staged !in Replaced(s, f).places
  {
  }

  predicate MovedAway(s: Places, f: Faults) {
    && Live in s && !f.look && !f.clearOld.LookThrows?
    && RenameWorks(Cleared(s, Backup, f.clearOld).places, Live, Backup, f.moveAway)
  }

  /** The rollback's own calls work, and it can remove whatever is at the live path. */
  predicate RollbackWorks(s: Places, f: Faults)
    requires Live in s
  {
    && f.undoLive.Removes? && !f.lookBack && !f.moveBack
    && (Staged in s && !f.moveIn && f.undoLive.left.Some? ==> f.undoLive.left.value == Dir(map[]) && s[Live].Dir?)
  }

  /** A throw before the live tree was moved away leaves it alone. */
  lemma EarlyThrowKeepsLive(s: Places, f: Faults)
    requires Live in s && !Replaced(s, f).ok && !MovedAway(s, f)
    ensures Holds(Replaced(s, f).places, Live, s[Live])
  {
  }

  /** A throw after that has the old tree live again exactly if the rollback worked; otherwise it is still whole at the backup path. */
  lemma LateThrowRollsBack(s: Places, f: Faults)
    requires Live in s && !Replaced(s, f).ok && MovedAway(s, f)
    ensures var end := Replaced(s, f).places;
      if RollbackWorks(s, f) then Holds(end, Live, s[Live]) && Backup !in end else Holds(end, Backup, s[Live])
  {
    var away := Renamed(Cleared(s, Backup, f.clearOld).places, Live, Backup, f.moveAway).places;
    assert Live !in away && Holds(away, Backup, s[Live]) && (Staged in away <==> Staged in s);
    var moved := Renamed(away, Staged, Live, f.moveIn);
    assert moved.ok <==> Staged in s && !f.moveIn;
    assert Holds(moved.places, Backup, s[Live]) && (Live in moved.places <==> moved.ok);
    RollingBack(s, moved.places, f);
  }

  /** A rollback that works leaves nothing at the staging path either, unless removing it fails. */
  lemma RollbackCleansUp(s: Places, f: Faults)
    requires Live in s && !Replaced(s, f).ok && MovedAway(s, f) && RollbackWorks(s, f)
    ensures Staged in Replaced(s, f).places ==> f.undoStaged.LookThrows? || f.undoStaged.left.Some?
  {
    LateThrowRollsBack(s, f);
  }

  lemma RollingBack(s: Places, moved: Places, f: Faults)
    requires Live in s && Holds(moved, Backup, s[Live])
    requires Live in moved <==> Staged in s && !f.moveIn
    ensures var end := RolledBack(moved, true, f);
      if RollbackWorks(s, f) then Holds(end, Live, s[Live]) && Backup !in end else Holds(end, Backup, s[Live])
  {
  }

  /** The staged tree reaches the live path. */
  predicate MovedIn(s: Places, f: Faults) {
    && Staged in s && !f.look && f.clearOld.Removes? && !f.moveIn
    && (Live in s ==> MovedAway(s, f))
  }

  /** A replacement returns exactly if the new tree moved in and the place of the old one can be looked at. */
  lemma ReturnsExactly(s: Places, f: Faults)
    ensures Replaced(s, f).ok <==> MovedIn(s, f) && f.clearBackup.Removes?
  {
  }

  /** The rollback does not take the new tree away again: it cannot look, or removes nothing and can move nothing over it. */
  predicate UndoLeavesNew(s: Places, f: Faults)
    requires Staged in s
  {
    || f.undoLive.LookThrows?
    || (f.undoLive.left == Some(s[Staged])
        && (Live in s ==> f.lookBack || f.moveBack || s[Staged] != Dir(map[]) || !s[Live].Dir?))
  }

  predicate NewTreeStays(s: Places, f: Faults)
    requires Staged in s
  {
    MovedIn(s, f) && (f.clearBackup.Removes? || UndoLeavesNew(s, f))
  }

  /**
   The new tree is live in the end exactly if it moved in, and the replacement returned or its
   rollback left the new tree there; or if the old tree was the same.
   */
  lemma NewTreeStaysExactly(s: Places, f: Faults)
    requires Staged in s
    ensures NewTreeStays(s, f) ==> Holds(Replaced(s, f).places, Live, s[Staged])
    ensures Holds(Replaced(s, f).places, Live, s[Staged]) ==> NewTreeStays(s, f) || Holds(s, Live, s[Staged])
  {
    ReturnsExactly(s, f);
    if MovedIn(s, f) {
      var away := if Live in s then Renamed(Cleared(s, Backup, f.clearOld).places, Live, Backup, f.moveAway).places
                  else Cleared(s, Backup, f.clearOld).places;
      var moved := Renamed(away, Staged, Live, f.moveIn).places;
      assert Holds(moved, Live, s[Staged]) && (Live in s ==> Holds(moved, Backup, s[Live]));
      if f.clearBackup.LookThrows? {
        assert Replaced(s, f).places == RolledBack(moved, Live in s, f);
        UndoingNew(s, moved, f);
      } else {
        ReturnInstallsStaged(s, f);
      }
    } else if Live in s {
      if MovedAway(s, f) { LateThrowRollsBack(s, f); } else { EarlyThrowKeepsLive(s, f); }
      NothingNewCameIn(s, f);
    }
  }

  lemma UndoingNew(s: Places, moved: Places, f: Faults)
    requires Staged in s
    requires Holds(moved, Live, s[Staged]) && (Live in s ==> Holds(moved, Backup, s[Live]))
    ensures var end := RolledBack(moved, Live in s, f);
      && (UndoLeavesNew(s, f) ==> Holds(end, Live, s[Staged]))
      && (Holds(end, Live, s[Staged]) ==> UndoLeavesNew(s, f) || Holds(s, Live, s[Staged]))
  {
  }

  lemma NothingNewCameIn(s: Places, f: Faults)
    requires Live in s && !MovedIn(s, f)
    ensures var end := Replaced(s, f).places; Live in end ==> end[Live] == s[Live]
  {
  }

  /** In a throw the old tree is whole, live or at the backup path. */
  lemma ThrowKeepsOld(s: Places, f: Faults)
    requires Live in s && !Replaced(s, f).ok
    ensures var end := Replaced(s, f).places; Holds(end, Live, s[Live]) || Holds(end, Backup, s[Live])
  {
    if MovedAway(s, f) { LateThrowRollsBack(s, f); } else { EarlyThrowKeepsLive(s, f); }
  }

  // ---------------------------------------------------------------- a whole restore

  function KidsOf(s: Places, p: Place): Kids {
    if p in s && s[p].Dir? then s[p].kids else map[]
  }

  /**
   Staging: clear the place, make it a directory, copy into it, restrict access to it. When
   a call in it fails, or something is in the way of the copy, `left` is what stays there.
   */
  datatype Staging = Staging(clear: Clearing, fails: bool, left: Option<Tree>)

  /** `ok` is false when staging throws. */
  function Prepared(s: Places, source: Tree, c: Staging): Result
    requires source.Dir?
  {
    var bare := Cleared(s, Staged, c.clear);
    var dest := KidsOf(bare.places, Staged);
    if !bare.ok then bare
    else if c.fails || (Staged in bare.places && !bare.places[Staged].Dir?) || !FitsInto(dest, source) then
      Result(With(bare.places, Staged, c.left), false)
    else Result(bare.places[Staged := Dir(Copied(dest, source))], true)
  }

  /** Both directories are staged first, then replaced one after the other. */
  method ImportBackup(store: FileSystem, notes: FileSystem, storeSource: Tree, notesSource: Tree,
                      storeStage: Staging, notesStage: Staging, storeFaults: Faults, notesFaults: Faults)
    returns (ok: bool)
    requires store != notes && storeSource.Dir? && notesSource.Dir?
    modifies store, notes
    ensures (store.places, notes.places, ok) ==
      Imported(old(store.places), old(notes.places), storeSource, notesSource, storeStage, notesStage, storeFaults, notesFaults)
    ensures store.SeenSafe(At(old(store.places), Live), At(Prepared(old(store.places), storeSource, storeStage).places, Staged), |old(store.seen)|)
    ensures notes.SeenSafe(At(old(notes.places), Live), At(Prepared(old(notes.places), notesSource, notesStage).places, Staged), |old(notes.seen)|)
  {
    ok := Prepare(store, storeSource, storeStage);
    if !ok {
      return;
    }
    ok := Prepare(notes, notesSource, notesStage);
    if !ok {
      return;
    }
    ok := store.ReplaceDirectory(storeFaults);
    if !ok {
      return;
    }
    ok := notes.ReplaceDirectory(notesFaults);
  }

  method Prepare(at: FileSystem, source: Tree, c: Staging) returns (ok: bool)
    requires source.Dir?
    modifies at
    ensures Result(at.places, ok) == Prepared(old(at.places), source, c)
    ensures SameBut(Staged, old(at.places), at.places)
    ensures old(at.seen) <= at.seen && forall i :: |old(at.seen)| <= i < |at.seen| ==> SameBut(Staged, old(at.places), at.seen[i])
  {
    ok := at.Clear(Staged, c.clear);
    if !ok {
      return;
    }
    var copied := None;
    if !c.fails && (Staged in at.places ==> at.places[Staged].Dir?) {
      copied := CopyDirectory(KidsOf(at.places, Staged), source);
    }
    ok := copied.Some?;
    at.places := With(at.places, Staged, if ok then Some(Dir(copied.value)) else c.left);
    at.seen := at.seen + [at.places];
  }

  function Imported(store: Places, notes: Places, storeSource: Tree, notesSource: Tree,
                    storeStage: Staging, notesStage: Staging, storeFaults: Faults, notesFaults: Faults): (Places, Places, bool)
    requires storeSource.Dir? && notesSource.Dir?
  {
    var s := Prepared(store, storeSource, storeStage);
    if !s.ok then (s.places, notes, false)
    else
      var n := Prepared(notes, notesSource, notesStage);
      if !n.ok then (s.places, n.places, false)
      else
        var s2 := Replaced(s.places, storeFaults);
        if !s2.ok then (s2.places, n.places, false)
        else
          var n2 := Replaced(n.places, notesFaults);
          (s2.places, n2.places, n2.ok)
  }

  /** Left over at the staging path: nothing, or only what the copy overwrites. */
  predicate CleanStage(s: Places, source: Tree, c: Staging)
    requires source.Dir?
  {
    Covered(KidsOf(Cleared(s, Staged, c.clear).places, Staged), source)
  }

  lemma PreparedIsTheSource(s: Places, source: Tree, c: Staging)
    requires source.Dir? && Prepared(s, source, c).ok
    ensures Holds(Prepared(s, source, c).places, Staged, Regular(source)) <==> CleanStage(s, source, c)
  {
    CopyIsExact(KidsOf(Cleared(s, Staged, c.clear).places, Staged), source);
  }

  /** A completed import has exactly the two backed-up trees live, exactly if nothing foreign was left at the staging paths. */
  lemma ImportInstallsBoth(store: Places, notes: Places, storeSource: Tree, notesSource: Tree,
                           storeStage: Staging, notesStage: Staging, storeFaults: Faults, notesFaults: Faults)
    requires storeSource.Dir? && notesSource.Dir?
    requires Imported(store, notes, storeSource, notesSource, storeStage, notesStage, storeFaults, notesFaults).2
    ensures var (s, n, _) := Imported(store, notes, storeSource, notesSource, storeStage, notesStage, storeFaults, notesFaults);
      (Holds(s, Live, Regular(storeSource)) <==> CleanStage(store, storeSource, storeStage))
      && (Holds(n, Live, Regular(notesSource)) <==> CleanStage(notes, notesSource, notesStage))
  {
    PreparedIsTheSource(store, storeSource, storeStage);
    PreparedIsTheSource(notes, notesSource, notesStage);
    ReturnInstallsStaged(Prepared(store, storeSource, storeStage).places, storeFaults);
    ReturnInstallsStaged(Prepared(notes, notesSource, notesStage).places, notesFaults);
  }

  const NONE_LEFT := Removes([], None)
  const NEW_STAGE := Staging(NONE_LEFT, false, None)
  const NO_FAULT := Faults(false, NONE_LEFT, false, false, NONE_LEFT, NONE_LEFT, false, false, NONE_LEFT)

  lemma PreparingTouchesStaged(s: Places, source: Tree, c: Staging)
    requires source.Dir?
    ensures SameBut(Staged, s, Prepared(s, source, c).places)
    ensures Prepared(s, source, c).ok ==> Staged in Prepared(s, source, c).places
  {
  }

  /** When a throwing import has put the new store live: both trees were staged, and the store's moved in to stay. */
  predicate Torn(store: Places, notes: Places, storeSource: Tree, notesSource: Tree,
                 storeStage: Staging, notesStage: Staging, storeFaults: Faults)
    requires storeSource.Dir? && notesSource.Dir?
  {
    var s := Prepared(store, storeSource, storeStage);
    && s.ok && Prepared(notes, notesSource, notesStage).ok
    && Staged in s.places && NewTreeStays(s.places, storeFaults)
  }

  lemma StagedStoreEnds(store: Places, source: Tree, c: Staging, f: Faults)
    requires source.Dir? && Prepared(store, source, c).ok
    ensures var s := Prepared(store, source, c).places; var end := Replaced(s, f).places;
      && (NewTreeStays(s, f) ==> Holds(end, Live, s[Staged]))
      && (Holds(end, Live, s[Staged]) ==> NewTreeStays(s, f) || Holds(store, Live, s[Staged]))
      && (Live in store && !Replaced(s, f).ok ==> Holds(end, Live, store[Live]) || Holds(end, Backup, store[Live]))
  {
    PreparingTouchesStaged(store, source, c);
    hide Prepared, Replaced, NewTreeStays, MovedIn, UndoLeavesNew;
    var s := Prepared(store, source, c).places;
    assert Live in store <==> Live in s;
    NewTreeStaysExactly(s, f);
    if Live in store && !Replaced(s, f).ok { ThrowKeepsOld(s, f); }
  }

  lemma OldNotesStay(notes: Places, source: Tree, c: Staging, f: Faults)
    requires source.Dir? && Live in notes
    ensures var n := Prepared(notes, source, c).places;
      && Holds(n, Live, notes[Live])
      && (!Replaced(n, f).ok ==> Holds(Replaced(n, f).places, Live, notes[Live]) || Holds(Replaced(n, f).places, Backup, notes[Live]))
  {
    PreparingTouchesStaged(notes, source, c);
    hide Prepared, Replaced;
    var n := Prepared(notes, source, c).places;
    assert Live in n;
    if !Replaced(n, f).ok { ThrowKeepsOld(n, f); }
  }

  /**
   How an import that throws can end, for every way in which calls fail and whatever was
   left at the staging paths: the new store is live exactly if both trees were staged and
   the store's moved in to stay (or there was no difference between old and new), and
   otherwise the old store is whole, live or at its backup path. The old notes are whole at
   one of these two places in any case: what `Torn` describes is the new store beside them.
   */
  lemma ImportTearsExactly(store: Places, notes: Places, storeSource: Tree, notesSource: Tree,
                           storeStage: Staging, notesStage: Staging, storeFaults: Faults, notesFaults: Faults)
    requires storeSource.Dir? && notesSource.Dir?
    requires !Imported(store, notes, storeSource, notesSource, storeStage, notesStage, storeFaults, notesFaults).2
    ensures var s := Prepared(store, storeSource, storeStage);
      var (s2, n2, _) := Imported(store, notes, storeSource, notesSource, storeStage, notesStage, storeFaults, notesFaults);
      var torn := Torn(store, notes, storeSource, notesSource, storeStage, notesStage, storeFaults);
      && (torn ==> s.ok && Holds(s2, Live, s.places[Staged]))
      && (s.ok && Holds(s2, Live, s.places[Staged]) ==> torn || Holds(store, Live, s.places[Staged]))
      && (Live in store && !torn ==> Holds(s2, Live, store[Live]) || Holds(s2, Backup, store[Live]))
      && (Live in notes ==> Holds(n2, Live, notes[Live]) || Holds(n2, Backup, notes[Live]))
  {
    PreparingTouchesStaged(store, storeSource, storeStage);
    var s := Prepared(store, storeSource, storeStage);
    assert Live in store ==> Live in s.places && s.places[Live] == store[Live];
    if s.ok { StagedStoreEnds(store, storeSource, storeStage, storeFaults); }
    if Live in notes { OldNotesStay(notes, notesSource, notesStage, notesFaults); }
    if s.ok { ReturnsExactly(s.places, storeFaults); }
    hide Prepared, Replaced, NewTreeStays, MovedIn, UndoLeavesNew;
  }

  /** The two replacements are not one: if the second fails and is rolled back, the new store stays next to the old notes. */
  lemma ImportCanBeTorn(store: Tree, notes: Tree, storeSource: Tree, notesSource: Tree)
    requires store.Dir? && notes.Dir? && storeSource.Dir? && notesSource.Dir?
    ensures var (s, n, ok) := Imported(map[Live := store], map[Live := notes], storeSource, notesSource,
                                       NEW_STAGE, NEW_STAGE, NO_FAULT, NO_FAULT.(moveIn := true));
      !ok && Holds(s, Live, Regular(storeSource)) && Holds(n, Live, notes)
  {
    var before := map[Live := store];
    var s := Prepared(before, storeSource, NEW_STAGE);
    EmptyFits(storeSource);
    EmptyFits(notesSource);
    CopyIsExact(map[], storeSource);
    assert s.places == map[Live := store, Staged := Regular(storeSource)];
    var n := Prepared(map[Live := notes], notesSource, NEW_STAGE).places;
    assert Holds(n, Live, notes) && Backup !in n;
    LateThrowRollsBack(n, NO_FAULT.(moveIn := true));
    assert Replaced(s.places, NO_FAULT).ok;
    ReturnInstallsStaged(s.places, NO_FAULT);
  }

  lemma EmptyFits(source: Tree)
    requires source.Dir?
    ensures FitsInto(map[], source) && Covered(map[], source)
  {
  }
}
