/** Whole runs of the password store against the same runs on one plain map from names to entries. */
module StoreRuns {
  import opened Options
  import opened Ordering
  import opened PathNames
  import opened EntryText
  import opened PasswordStore
  import opened StoreRefinement

  /** What the program's dialogues do to the store; each call comes with the commands that would fail in it. */
  datatype Op =
    | SaveOp(e: Entry, t: Tools)
    | DeleteOp(name: string, t: Tools)
    | PruneOp(path: string, t: Tools)
    | EditOp(name: string, e: Entry, dropOld: bool, t: Tools)
    | MigrateOp(records: seq<Legacy>, tools: string -> Tools)

  /** No component of the name is hidden from `pass ls`. */
  predicate InSight(name: string) {
    forall i :: 0 <= i < |Pieces(name)| ==> Pieces(name)[i] != "" ==> Pieces(name)[i][0] != '.'
  }

  /** What the program's listing has of the entries: those in sight, or all of them when none is. */
  function Listed(names: set<string>): set<string> {
    var seen := set name | name in names && InSight(name);
    if seen == {} then names else seen
  }

  ghost function Do(digest: Digest, s: State, op: Op): State {
    match op
    case SaveOp(e, t) => Save(digest, s, e, t).state
    case DeleteOp(name, t) => Delete(digest, s, name, t).state
    case PruneOp(path, t) => Prune(digest, s, path, Listing(Bytes, Listed(s.bodies.Keys)), t).state
    case EditOp(name, e, dropOld, t) =>
      if name in s.bodies then Edit(digest, s, Shown(digest, s, name), e, dropOld, t).state else s
    case MigrateOp(records, tools) => Migrate(digest, s, records, tools)
  }

  ghost function DoAll(digest: Digest, s: State, ops: seq<Op>): State
    decreases |ops|
  {
    if ops == [] then s else DoAll(digest, Do(digest, s, ops[0]), ops[1..])
  }

  // ---------------------------------------------------------------- the same on a map of entries

  predicate Acceptable(e: Entry, t: Tools) { ValidEntryName(e.name) && e.password != "" && t.insert }

  function MapMigrateOne(v: map<string, Entry>, l: Legacy, t: Tools): map<string, Entry> {
    if && l.text.Some? && l.text.value != "" && ValidEntryName(l.name) && l.name in v
       && v[l.name].notes == "" && v[l.name].password != "" && t.show && t.insert && t.encrypt
    then StoreRefinement.Filled(v, l) else v
  }

  function MapMigrate(v: map<string, Entry>, records: seq<Legacy>, tools: string -> Tools): map<string, Entry>
    decreases |records|
  {
    if records == [] then v else MapMigrate(MapMigrateOne(v, records[0], tools(records[0].name)), records[1..], tools)
  }

  function MapDo(v: map<string, Entry>, op: Op): map<string, Entry> {
    match op
    case SaveOp(e, t) => if Acceptable(e, t) then v[e.name := e] else v
    case DeleteOp(name, t) => if ValidEntryName(name) && t.remove then v - {name} else v
    case PruneOp(path, t) => if ValidEntryName(path) && t.remove then Pruned(v, path) else v
    case EditOp(name, e, dropOld, t) =>
      if name in v && Acceptable(e, t) then Edited(v, v[name], e, dropOld && ValidEntryName(name) && t.remove) else v
    case MigrateOp(records, tools) => MapMigrate(v, records, tools)
  }

  function MapDoAll(v: map<string, Entry>, ops: seq<Op>): map<string, Entry>
    decreases |ops|
  {
    if ops == [] then v else MapDoAll(MapDo(v, ops[0]), ops[1..])
  }

  // ---------------------------------------------------------------- which runs

  /** No field spans lines, a note that is to be written can be encrypted, and entries are named in `names`. */
  ghost predicate Writes(names: set<string>, e: Entry, t: Tools) {
    e.name in names && OneLineFields(e) && (t.encrypt || e.notes == "")
  }

  /** No entry has the name of a folder with other entries in it. */
  predicate Unshielded(v: map<string, Entry>, path: string) {
    path in v ==> forall name :: name in v && Below(path, name) ==> name == path
  }

  ghost predicate Orderly(names: set<string>, v: map<string, Entry>, op: Op) {
    match op
    case SaveOp(e, t) => Writes(names, e, t)
    case EditOp(_, e, _, t) => Writes(names, e, t)
    case PruneOp(path, t) => ValidEntryName(path) && t.remove ==> Unshielded(v, path)
    case _ => true
  }

  ghost predicate OrderlyRun(names: set<string>, v: map<string, Entry>, ops: seq<Op>)
    decreases |ops|
  {
    ops == [] || (Orderly(names, v, ops[0]) && OrderlyRun(names, MapDo(v, ops[0]), ops[1..]))
  }

  /** `names` covers the store, and no note file is empty: saving an entry without notes removes the file. */
  ghost predicate Sound(digest: Digest, names: set<string>, s: State) {
    Covers(digest, names, s) && forall k :: k in s.notes ==> s.notes[k] != ""
  }

  // ---------------------------------------------------------------- step by step

  lemma SaveKeepsNotesFull(digest: Digest, s: State, e: Entry, t: Tools)
    requires forall k :: k in s.notes ==> s.notes[k] != ""
    ensures var s2 := Save(digest, s, e, t).state; forall k :: k in s2.notes ==> s2.notes[k] != ""
  {
    hide NoteKey;
  }

  lemma DeleteKeepsNotesFull(digest: Digest, s: State, name: string, t: Tools)
    requires forall k :: k in s.notes ==> s.notes[k] != ""
    ensures var s2 := Delete(digest, s, name, t).state; forall k :: k in s2.notes ==> s2.notes[k] != ""
  {
    hide NoteKey, UsernameOf;
  }

  lemma SaveOpRefines(digest: Digest, names: set<string>, s: State, e: Entry, t: Tools)
    requires Sound(digest, names, s) && Writes(names, e, t)
    ensures var s2 := Save(digest, s, e, t).state;
      && Sound(digest, names, s2)
      && View(digest, s2) == if Acceptable(e, t) then View(digest, s)[e.name := e] else View(digest, s)
  {
    SaveKeepsNotesFull(digest, s, e, t);
    if Acceptable(e, t) { SaveRefinesPut(digest, names, s, e, t); }
  }

  lemma DeleteOpRefines(digest: Digest, names: set<string>, s: State, name: string, t: Tools)
    requires Sound(digest, names, s)
    ensures var s2 := Delete(digest, s, name, t).state;
      && Sound(digest, names, s2)
      && View(digest, s2) == if ValidEntryName(name) && t.remove then View(digest, s) - {name} else View(digest, s)
  {
    DeleteKeepsNotesFull(digest, s, name, t);
    if Delete(digest, s, name, t).failure.None? {
      DeleteRefinesRemove(digest, names, s, name, t);
    } else if name !in s.bodies {
      assert View(digest, s) - {name} == View(digest, s);
    }
  }

  lemma UnshieldedFolder(digest: Digest, s: State, path: string)
    ensures Unshielded(View(digest, s), path) <==> path !in s.bodies || AllBelow(s, path) == {path}
  {
    assert Below(path, path);
    hide Shown, Below;
    var v := View(digest, s);
    assert v.Keys == s.bodies.Keys;
    forall m ensures m in AllBelow(s, path) <==> m in v && Below(path, m) {}
    if path in s.bodies && Unshielded(v, path) {
      forall m ensures m in AllBelow(s, path) <==> m == path {}
    }
  }

  lemma PruneOpRefines(digest: Digest, names: set<string>, s: State, path: string, t: Tools)
    requires Sound(digest, names, s) && Orderly(names, View(digest, s), PruneOp(path, t))
    ensures var s2 := Do(digest, s, PruneOp(path, t));
      && Sound(digest, names, s2)
      && View(digest, s2) == if ValidEntryName(path) && t.remove then Pruned(View(digest, s), path) else View(digest, s)
  {
    var listed := Listing(Bytes, Listed(s.bodies.Keys));
    assert Listed(s.bodies.Keys) <= s.bodies.Keys;
    forall x | x in listed ensures x in names {
      ListingSorts(Bytes, Listed(s.bodies.Keys));
      assert x in Elements(listed);
    }
    UnshieldedFolder(digest, s, path);
    hide View, AllBelow, Pruned, NotesBelow, Gone, Listing, Unshielded;
    if Prune(digest, s, path, listed, t).failure.None? {
      PruneRefinesRemoval(digest, names, s, path, listed, t);
    }
  }

  lemma EditOpFailing(digest: Digest, s: State, original: Entry, e: Entry, dropOld: bool, t: Tools)
    requires original.name in s.bodies && (t.encrypt || e.notes == "")
    ensures Save(digest, s, e, t).failure.None? <==> Acceptable(e, t)
    ensures !Acceptable(e, t) ==> Save(digest, s, e, t).state == s
    ensures var drops := e.name != original.name && dropOld; var can := ValidEntryName(original.name) && t.remove;
      Acceptable(e, t) ==>
        && (Edit(digest, s, original, e, dropOld, t).failure.Some? <==> drops && !can)
        && (drops && !can ==> Edit(digest, s, original, e, dropOld, t).state == Save(digest, s, e, t).state)
  {
    if Acceptable(e, t) { SavedBodies(digest, s, e, t); }
  }

  lemma EditKeepsNotesFull(digest: Digest, s: State, original: Entry, e: Entry, dropOld: bool, t: Tools)
    requires forall k :: k in s.notes ==> s.notes[k] != ""
    ensures var s2 := Edit(digest, s, original, e, dropOld, t).state; forall k :: k in s2.notes ==> s2.notes[k] != ""
  {
    SaveKeepsNotesFull(digest, s, e, t);
    hide Save, Delete, NoteKey;
    DeleteKeepsNotesFull(digest, Save(digest, s, e, t).state, original.name, t);
  }

  lemma EditingRefines(digest: Digest, names: set<string>, s: State, original: Entry, e: Entry, dropOld: bool, t: Tools)
    requires Sound(digest, names, s) && Writes(names, e, t) && original.name in s.bodies
    ensures var s2 := Edit(digest, s, original, e, dropOld, t).state; var can := ValidEntryName(original.name) && t.remove;
      && Sound(digest, names, s2)
      && View(digest, s2) == if Acceptable(e, t) then Edited(View(digest, s), original, e, dropOld && can) else View(digest, s)
  {
    EditKeepsNotesFull(digest, s, original, e, dropOld, t);
    EditOpFailing(digest, s, original, e, dropOld, t);
    hide View, Edited, ValidEntryName, OneLineFields, Covers, NoteKey, Save, Acceptable;
    if !Acceptable(e, t) {
      RejectedEdit(digest, s, original, e, dropOld, t);
    } else if Edit(digest, s, original, e, dropOld, t).failure.None? {
      hide Edit;
      EditRefines(digest, names, s, original, e, dropOld, t);
      DropOnlyOnRename(View(digest, s), original, e, dropOld, ValidEntryName(original.name) && t.remove);
    } else {
      hide Edit;
      SaveRefinesPut(digest, names, s, e, t);
      KeptOnFailure(View(digest, s), original, e);
    }
  }

  lemma RejectedEdit(digest: Digest, s: State, original: Entry, e: Entry, dropOld: bool, t: Tools)
    requires Save(digest, s, e, t).failure.Some? && Save(digest, s, e, t).state == s
    ensures Edit(digest, s, original, e, dropOld, t).state == s
  {
    hide Save, Delete;
  }

  /** A rename whose old entry cannot be dropped has saved the new one. */
  lemma KeptOnFailure(v: map<string, Entry>, original: Entry, e: Entry)
    requires e.name != original.name
    ensures Edited(v, original, e, false) == v[e.name := e]
  {
    hide NoteToken;
  }

  lemma ShownIsInView(digest: Digest, s: State, name: string)
    requires name in s.bodies
    ensures name in View(digest, s) && View(digest, s)[name] == Shown(digest, s, name) && Shown(digest, s, name).name == name
  {
    hide NoteKey, FeedAll;
  }

  lemma EditOpIs(digest: Digest, s: State, op: Op, original: Entry)
    requires op.EditOp? && op.name in s.bodies && op.name in View(digest, s) && View(digest, s)[op.name] == original
    requires Shown(digest, s, op.name) == original
    ensures Do(digest, s, op) == Edit(digest, s, original, op.e, op.dropOld, op.t).state
    ensures MapDo(View(digest, s), op) ==
      if Acceptable(op.e, op.t) then Edited(View(digest, s), original, op.e, op.dropOld && ValidEntryName(op.name) && op.t.remove)
      else View(digest, s)
  {
    hide Shown, View, Edit, Edited, Acceptable, ValidEntryName, Save, Delete, Prune, Migrate, Pruned, MapMigrate;
  }

  lemma EditOpRefines(digest: Digest, names: set<string>, s: State, op: Op)
    requires Sound(digest, names, s) && op.EditOp? && Writes(names, op.e, op.t) && op.name in s.bodies
    ensures var s2 := Do(digest, s, op); Sound(digest, names, s2) && View(digest, s2) == MapDo(View(digest, s), op)
  {
    hide Shown, View, Edit, Edited, Sound, Writes, Acceptable, ValidEntryName, Do, MapDo;
    ShownIsInView(digest, s, op.name);
    EditOpIs(digest, s, op, Shown(digest, s, op.name));
    EditingRefines(digest, names, s, Shown(digest, s, op.name), op.e, op.dropOld, op.t);
  }

  lemma DropOnlyOnRename(v: map<string, Entry>, original: Entry, e: Entry, dropOld: bool, can: bool)
    requires e.name != original.name && dropOld ==> can
    ensures Edited(v, original, e, dropOld && can) == Edited(v, original, e, dropOld)
  {
  }

  lemma MigrateOneRefines(digest: Digest, names: set<string>, s: State, l: Legacy, t: Tools)
    requires Sound(digest, names, s)
    ensures var s2 := MigrateOne(digest, s, l, t);
      Sound(digest, names, s2) && View(digest, s2) == MapMigrateOne(View(digest, s), l, t)
  {
    MigrateOneFills(digest, names, s, l, t);
    var r := Read(digest, s, l.name, t);
    if r.Ok? { SaveKeepsNotesFull(digest, s, r.value.(notes := if l.text.Some? then l.text.value else ""), t); }
  }

  lemma {:induction false} MigrateRefines(digest: Digest, names: set<string>, s: State, records: seq<Legacy>, tools: string -> Tools)
    requires Sound(digest, names, s)
    ensures var s2 := Migrate(digest, s, records, tools);
      Sound(digest, names, s2) && View(digest, s2) == MapMigrate(View(digest, s), records, tools)
    decreases |records|
  {
    if records != [] {
      var l := records[0];
      MigrateOneRefines(digest, names, s, l, tools(l.name));
      hide MigrateOne, MapMigrateOne, View, Sound;
      MigrateRefines(digest, names, MigrateOne(digest, s, l, tools(l.name)), records[1..], tools);
    }
  }

  lemma DoRefines(digest: Digest, names: set<string>, s: State, op: Op)
    requires Sound(digest, names, s) && Orderly(names, View(digest, s), op)
    ensures var s2 := Do(digest, s, op); Sound(digest, names, s2) && View(digest, s2) == MapDo(View(digest, s), op)
  {
    match op
    case SaveOp(e, t) => SaveOpRefines(digest, names, s, e, t);
    case DeleteOp(name, t) => DeleteOpRefines(digest, names, s, name, t);
    case PruneOp(path, t) => PruneOpRefines(digest, names, s, path, t);
    case EditOp(name, _, _, _) => if name in s.bodies { EditOpRefines(digest, names, s, op); }
    case MigrateOp(records, tools) => MigrateRefines(digest, names, s, records, tools);
  }

  /**
   Bodies and note files together implement one map from names to entries: over every run
   of saves, edits, deletions, folder removals and migrations in which no removed folder is
   shielded by an entry of its name and no note to be saved fails to be encrypted, with any
   other command failing anywhere, what the store shows is what the same run does to a plain map.
   */
  lemma {:induction false} StoreIsAMap(digest: Digest, names: set<string>, s: State, ops: seq<Op>)
    requires Sound(digest, names, s) && OrderlyRun(names, View(digest, s), ops)
    ensures View(digest, DoAll(digest, s, ops)) == MapDoAll(View(digest, s), ops)
    decreases |ops|
  {
    if ops != [] {
      DoRefines(digest, names, s, ops[0]);
      StoreIsAMap(digest, names, Do(digest, s, ops[0]), ops[1..]);
    }
  }
}
