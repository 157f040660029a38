/** The password store, with its two kinds of files, behaves like one map from names to entries. */
module StoreRefinement {
  import opened Options
  import opened Ordering
  import opened PathNames
  import opened EntryText
  import opened PasswordStore

  /** `names` covers every entry of the store, and their digests differ. */
  ghost predicate Covers(digest: Digest, names: set<string>, s: State) {
    TellsApart(digest, names) && s.bodies.Keys <= names
  }

  /** Changing one body, and the note filed for that name and any username, changes how no other name reads. */
  lemma OthersReadTheSame(digest: Digest, names: set<string>, s: State, s2: State, name: string, username: string, m: string)
    requires Covers(digest, names, s) && name in names && m in s.bodies && m != name
    requires m in s2.bodies && s2.bodies[m] == s.bodies[m]
    requires s2.notes - {NoteKey(digest, name, username)} == s.notes - {NoteKey(digest, name, username)}
    ensures Shown(digest, s2, m) == Shown(digest, s, m)
    ensures forall t :: Read(digest, s2, m, t) == Read(digest, s, m, t)
  {
    var k := NoteKey(digest, name, username);
    var user := Parsed(m, s.bodies[m]).username;
    KeysTellNamesApart(digest, names, m, user, name, username);
    SameAway(s.notes, s2.notes, k, NoteKey(digest, m, user));
  }

  lemma SameAway(a: map<string, string>, b: map<string, string>, k: string, j: string)
    requires a - {k} == b - {k} && j != k
    ensures (j in a <==> j in b) && (j in a ==> a[j] == b[j])
  {
    assert j in a <==> j in a - {k};
    assert j in b <==> j in b - {k};
    assert j in a - {k} ==> (a - {k})[j] == (b - {k})[j];
  }

  lemma MapPut<V>(v: map<string, V>, w: map<string, V>, name: string)
    requires w.Keys == v.Keys + {name}
    requires forall m :: m in v && m != name ==> w[m] == v[m]
    ensures w == v[name := w[name]]
  {
  }

  lemma MapDrop<V>(v: map<string, V>, w: map<string, V>, name: string)
    requires w.Keys == v.Keys - {name}
    requires forall m :: m in v && m != name ==> w[m] == v[m]
    ensures w == v - {name}
  {
  }

  lemma ViewPut(digest: Digest, s: State, s2: State, name: string)
    requires s2.bodies.Keys == s.bodies.Keys + {name}
    requires forall m :: m in s.bodies && m != name ==> Shown(digest, s2, m) == Shown(digest, s, m)
    ensures View(digest, s2) == View(digest, s)[name := Shown(digest, s2, name)]
  {
    MapPut(View(digest, s), View(digest, s2), name);
  }

  lemma ViewDrop(digest: Digest, s: State, s2: State, name: string)
    requires s2.bodies.Keys == s.bodies.Keys - {name}
    requires forall m :: m in s.bodies && m != name ==> Shown(digest, s2, m) == Shown(digest, s, m)
    ensures View(digest, s2) == View(digest, s) - {name}
  {
    MapDrop(View(digest, s), View(digest, s2), name);
  }

  // ---------------------------------------------------------------- saving

  lemma SavedEntryReads(digest: Digest, s: State, e: Entry, t: Tools)
    requires Save(digest, s, e, t).failure.None?
    ensures var s2 := Save(digest, s, e, t).state;
      e.name in s2.bodies && (Shown(digest, s2, e.name) == e <==> OneLineFields(e))
  {
    ParseUndoesSerialize(e);
    ParsedFieldsAreLines(e.name, Serialize(e));
  }

  lemma SaveTouchesOneNote(digest: Digest, s: State, e: Entry, t: Tools)
    ensures var s2 := Save(digest, s, e, t).state; var k := NoteKey(digest, e.name, e.username);
      && s2.notes - {k} == s.notes - {k}
      && (s2 == s || s2.bodies == s.bodies[e.name := Serialize(e)])
  {
  }

  lemma SavedBodies(digest: Digest, s: State, e: Entry, t: Tools)
    requires Save(digest, s, e, t).failure.None?
    ensures Save(digest, s, e, t).state.bodies.Keys == s.bodies.Keys + {e.name}
  {
    SaveTouchesOneNote(digest, s, e, t);
  }

  lemma SaveSparesOthers(digest: Digest, names: set<string>, s: State, e: Entry, t: Tools, m: string)
    requires Covers(digest, names, s) && e.name in names && m in s.bodies && m != e.name
    ensures var s2 := Save(digest, s, e, t).state; m in s2.bodies && Shown(digest, s2, m) == Shown(digest, s, m)
    ensures forall u :: Read(digest, Save(digest, s, e, t).state, m, u) == Read(digest, s, m, u)
  {
    SaveTouchesOneNote(digest, s, e, t);
    OthersReadTheSame(digest, names, s, Save(digest, s, e, t).state, e.name, e.username, m);
  }

  /** A completed save replaces one entry of the map, and that entry alone, exactly if no field spans lines. */
  lemma SaveRefinesPut(digest: Digest, names: set<string>, s: State, e: Entry, t: Tools)
    requires Covers(digest, names, s) && e.name in names && Save(digest, s, e, t).failure.None?
    ensures var s2 := Save(digest, s, e, t).state;
      && Covers(digest, names, s2)
      && (View(digest, s2) == View(digest, s)[e.name := e] <==> OneLineFields(e))
  {
    var s2 := Save(digest, s, e, t).state;
    SavedEntryReads(digest, s, e, t);
    forall m | m in s.bodies && m != e.name ensures Shown(digest, s2, m) == Shown(digest, s, m) {
      SaveSparesOthers(digest, names, s, e, t, m);
    }
    SavedBodies(digest, s, e, t);
    ViewPut(digest, s, s2, e.name);
    assert View(digest, s)[e.name := e][e.name] == e;
  }

  /** If only the note cannot be encrypted, the new fields are in place next to whatever note the name and username had before. */
  lemma FailedEncryptionKeepsOldNote(digest: Digest, s: State, e: Entry, t: Tools)
    requires Save(digest, s, e, t).failure == Some(EncryptFailed) && OneLineFields(e)
    ensures var s2 := Save(digest, s, e, t).state; var k := NoteKey(digest, e.name, e.username);
      Shown(digest, s2, e.name) == e.(notes := if k in s.notes then s.notes[k] else "")
  {
    ParseUndoesSerialize(e);
  }

  // ---------------------------------------------------------------- deleting

  lemma WithoutNoteSparesOthers(digest: Digest, names: set<string>, s: State, name: string, username: string, m: string)
    requires Covers(digest, names, s) && name in names && m in s.bodies && m != name
    ensures Shown(digest, WithoutNote(digest, s, name, username), m) == Shown(digest, s, m)
  {
    var k := NoteKey(digest, name, username);
    assert (s.notes - {k}) - {k} == s.notes - {k};
    OthersReadTheSame(digest, names, s, WithoutNote(digest, s, name, username), name, username, m);
  }

  /** A completed deletion removes one entry of the map, and that entry alone, even if its username could not be read. */
  lemma DeleteRefinesRemove(digest: Digest, names: set<string>, s: State, name: string, t: Tools)
    requires Covers(digest, names, s) && Delete(digest, s, name, t).failure.None?
    ensures var s2 := Delete(digest, s, name, t).state;
      Covers(digest, names, s2) && View(digest, s2) == View(digest, s) - {name}
  {
    var user := UsernameOf(digest, s, name, t);
    var fewer := WithoutNote(digest, s, name, user);
    var s2 := fewer.(bodies := s.bodies - {name});
    assert s2 == Delete(digest, s, name, t).state;
    forall m | m in s.bodies && m != name ensures Shown(digest, s2, m) == Shown(digest, s, m) {
      WithoutNoteSparesOthers(digest, names, s, name, user, m);
      assert Shown(digest, s2, m) == Shown(digest, fewer, m);
    }
    ViewDrop(digest, s, s2, name);
  }

  lemma PruneSparesOthers(digest: Digest, names: set<string>, s: State, path: string, listed: seq<string>, t: Tools, m: string)
    requires Covers(digest, names, s) && (forall x :: x in listed ==> x in names)
    requires m in s.bodies && !Below(path, m) && Prune(digest, s, path, listed, t).failure.None?
    ensures var s2 := Prune(digest, s, path, listed, t).state; m in s2.bodies && Shown(digest, s2, m) == Shown(digest, s, m)
  {
    var user := Parsed(m, s.bodies[m]).username;
    forall x | x in listed && Below(path, x) ensures NoteKey(digest, x, UsernameOf(digest, s, x, t)) != NoteKey(digest, m, user) {
      KeysTellNamesApart(digest, names, x, UsernameOf(digest, s, x, t), m, user);
    }
    assert NoteKey(digest, m, user) !in NotesBelow(digest, s, path, listed, t);
  }

  function Pruned(v: map<string, Entry>, path: string): map<string, Entry> {
    map name | name in v && !Below(path, name) :: v[name]
  }

  function AllBelow(s: State, path: string): set<string> { set name | name in s.bodies && Below(path, name) }

  /** The recursive removal deletes all that is below the path exactly if no entry of that very name shields its folder. */
  lemma GoneIsAllBelow(s: State, path: string)
    ensures Gone(s, path) == AllBelow(s, path) <==> path !in s.bodies || AllBelow(s, path) == {path}
  {
    if path in s.bodies {
      assert Gone(s, path) == {path};
    } else {
      forall m ensures m in Gone(s, path) <==> m in AllBelow(s, path) {}
    }
  }

  /**
   Removing a folder removes from the map what is below it, and nothing else, exactly if no
   entry has the folder's own name, or that entry is all there is.
   */
  lemma PruneRefinesRemoval(digest: Digest, names: set<string>, s: State, path: string, listed: seq<string>, t: Tools)
    requires Covers(digest, names, s) && (forall x :: x in listed ==> x in names)
    requires Prune(digest, s, path, listed, t).failure.None?
    ensures var s2 := Prune(digest, s, path, listed, t).state;
      && Covers(digest, names, s2)
      && (View(digest, s2) == Pruned(View(digest, s), path) <==> path !in s.bodies || AllBelow(s, path) == {path})
  {
    var s2 := Prune(digest, s, path, listed, t).state;
    GoneIsAllBelow(s, path);
    if Gone(s, path) == AllBelow(s, path) {
      forall m | m in s.bodies && !Below(path, m) ensures Shown(digest, s2, m) == Shown(digest, s, m) {
        PruneSparesOthers(digest, names, s, path, listed, t, m);
      }
      ViewPruned(digest, s, s2, path);
    } else {
      SomethingIsSpared(digest, s, s2, path);
    }
  }

  lemma SomethingIsSpared(digest: Digest, s: State, s2: State, path: string)
    requires s2.bodies == s.bodies - Gone(s, path) && path in s.bodies && AllBelow(s, path) != {path}
    ensures View(digest, s2) != Pruned(View(digest, s), path)
  {
    hide Shown;
    var m :| m in AllBelow(s, path) && m != path;
    assert m in View(digest, s2) && m !in Pruned(View(digest, s), path);
  }

  lemma ViewPruned(digest: Digest, s: State, s2: State, path: string)
    requires s2.bodies.Keys == s.bodies.Keys - AllBelow(s, path)
    requires forall m :: m in s.bodies && !Below(path, m) ==> Shown(digest, s2, m) == Shown(digest, s, m)
    ensures View(digest, s2) == Pruned(View(digest, s), path)
  {
    hide Shown, Below;
    var v, pruned := View(digest, s2), Pruned(View(digest, s), path);
    forall m ensures m in v <==> m in pruned { assert m in s2.bodies <==> m in s.bodies && !Below(path, m); }
  }

  /**
   When an entry of the folder's own name shields the folder, the entries in it stay, and
   one of them loses its note exactly if it is listed and the note is filed as that of the
   username read for it: always if the entry can be read, and otherwise if its username is
   filed like an empty one.
   */
  lemma SparedEntriesLoseTheirNotes(
    digest: Digest, names: set<string>, s: State, path: string, listed: seq<string>, t: Tools, m: string)
    requires Covers(digest, names, s) && (forall x :: x in listed ==> x in names)
    requires path in s.bodies && m in s.bodies && m != path && Prune(digest, s, path, listed, t).failure.None?
    ensures var s2 := Prune(digest, s, path, listed, t).state; var bare := Parsed(m, s.bodies[m]);
      && m in s2.bodies
      && (Read(digest, s, m, t).Ok? ==> UsernameOf(digest, s, m, t) == bare.username)
      && (!Read(digest, s, m, t).Ok? ==> UsernameOf(digest, s, m, t) == "")
      && Shown(digest, s2, m) ==
         if && m in listed && Below(path, m)
            && NoteToken(UsernameOf(digest, s, m, t), "note") == NoteToken(bare.username, "note")
         then bare else Shown(digest, s, m)
  {
    var user := Parsed(m, s.bodies[m]).username;
    NoteIsBelow(digest, names, s, path, listed, t, m, user);
  }

  lemma NoteIsBelow(
    digest: Digest, names: set<string>, s: State, path: string, listed: seq<string>, t: Tools, m: string, user: string)
    requires TellsApart(digest, names) && m in names && (forall x :: x in listed ==> x in names)
    ensures NoteKey(digest, m, user) in NotesBelow(digest, s, path, listed, t)
       <==> && m in listed && Below(path, m)
            && NoteToken(UsernameOf(digest, s, m, t), "note") == NoteToken(user, "note")
  {
    hide NoteKey, UsernameOf;
    SameKeySameToken(digest, m, UsernameOf(digest, s, m, t), user);
    forall x | x in listed && x != m ensures NoteKey(digest, x, UsernameOf(digest, s, x, t)) != NoteKey(digest, m, user) {
      KeysTellNamesApart(digest, names, x, UsernameOf(digest, s, x, t), m, user);
    }
  }

  lemma SameKeySameToken(digest: Digest, name: string, a: string, b: string)
    ensures NoteKey(digest, name, a) == NoteKey(digest, name, b) <==> NoteToken(a, "note") == NoteToken(b, "note")
  {
    var head, tail := NoteToken(Filename(name), "entry") + "-", "-" + digest(name) + ".note";
    var x, y := NoteToken(a, "note"), NoteToken(b, "note");
    assert NoteKey(digest, name, a) == head + x + tail;
    assert NoteKey(digest, name, b) == head + y + tail;
    assert x == (head + x + tail)[|head|..|head + x + tail| - |tail|];
    assert y == (head + y + tail)[|head|..|head + y + tail| - |tail|];
  }

  /** Two saved entries, the second with its note. */
  function TwoEntries(digest: Digest, shield: Entry, inner: Entry): State {
    State(map[shield.name := Serialize(shield), inner.name := Serialize(inner)],
          map[NoteKey(digest, inner.name, inner.username) := inner.notes])
  }

  lemma InnerShows(digest: Digest, shield: Entry, inner: Entry)
    requires OneLineFields(inner) && shield.name != inner.name
    ensures var s := TwoEntries(digest, shield, inner);
      Parsed(inner.name, s.bodies[inner.name]) == inner.(notes := "") && Shown(digest, s, inner.name) == inner
  {
    ParseUndoesSerialize(inner);
    hide NoteKey, Serialize, Parsed;
  }

  lemma ShieldShows(digest: Digest, shield: Entry, inner: Entry)
    requires OneLineFields(shield) && shield.notes == "" && shield.name != inner.name
    requires TellsApart(digest, {shield.name, inner.name})
    ensures Shown(digest, TwoEntries(digest, shield, inner), shield.name) == shield
  {
    ParseUndoesSerialize(shield);
    KeysTellNamesApart(digest, {shield.name, inner.name}, shield.name, shield.username, inner.name, inner.username);
    hide NoteKey, Serialize, Parsed;
  }

  lemma TwoEntriesShow(digest: Digest, shield: Entry, inner: Entry)
    requires OneLineFields(shield) && OneLineFields(inner) && shield.notes == "" && shield.name != inner.name
    requires TellsApart(digest, {shield.name, inner.name})
    ensures View(digest, TwoEntries(digest, shield, inner)) == map[shield.name := shield, inner.name := inner]
  {
    InnerShows(digest, shield, inner);
    ShieldShows(digest, shield, inner);
    hide Shown, NoteKey, Serialize, Parsed, OneLineFields;
  }

  lemma ViewOfOne(digest: Digest, s: State, name: string)
    requires s.bodies.Keys == {name}
    ensures View(digest, s) == map[name := Shown(digest, s, name)]
  {
    hide Shown;
  }

  lemma RemovalSparesInner(digest: Digest, s: State, shield: string, inner: string, t: Tools)
    requires s.bodies.Keys == {shield, inner} && shield != inner && t.remove && ValidEntryName(shield)
    ensures var o := Prune(digest, s, shield, [shield, inner], t);
      o.failure.None? && o.state.bodies.Keys == {inner}
  {
  }

  lemma ShieldedRemoval(digest: Digest, shield: Entry, inner: Entry, t: Tools)
    requires OneLineFields(shield) && OneLineFields(inner) && shield.notes == "" && shield.name != inner.name
    requires TellsApart(digest, {shield.name, inner.name}) && t.remove && t.show && t.decrypt
    requires ValidEntryName(shield.name) && ValidEntryName(inner.name) && Below(shield.name, inner.name)
    ensures var s := TwoEntries(digest, shield, inner); var o := Prune(digest, s, shield.name, [shield.name, inner.name], t);
      o.failure.None? && View(digest, o.state) == map[inner.name := inner.(notes := "")]
  {
    InnerShows(digest, shield, inner);
    var s, listed := TwoEntries(digest, shield, inner), [shield.name, inner.name];
    assert s.bodies.Keys == {shield.name, inner.name} && Read(digest, s, inner.name, t).Ok? && inner.name in listed;
    hide Prune, ValidEntryName, Parsed, Serialize, NoteKey, NoteToken, TwoEntries, Below, OneLineFields, Read, UsernameOf, Shown, View, TellsApart;
    RemovalSparesInner(digest, s, shield.name, inner.name, t);
    CoversAll(digest, s);
    SparedEntriesLoseTheirNotes(digest, {shield.name, inner.name}, s, shield.name, listed, t, inner.name);
    ViewOfOne(digest, Prune(digest, s, shield.name, listed, t).state, inner.name);
  }

  lemma CoversAll(digest: Digest, s: State)
    requires TellsApart(digest, s.bodies.Keys)
    ensures Covers(digest, s.bodies.Keys, s)
  {
  }

  /** Removing the folder "a" next to an entry "a": the entry "a/b" in the folder is still there, without its note. */
  lemma ShieldedFolderLosesNotes(digest: Digest, t: Tools)
    requires TellsApart(digest, {"a", "a/b"}) && t.remove && t.show && t.decrypt
    ensures var shield, inner := Entry("a", "pw", "", "", ""), Entry("a/b", "pw", "", "", "keep me");
      var s := TwoEntries(digest, shield, inner); var o := Prune(digest, s, "a", ["a", "a/b"], t);
      && View(digest, s) == map["a" := shield, "a/b" := inner]
      && o.failure.None? && View(digest, o.state) == map["a/b" := inner.(notes := "")]
  {
    var shield, inner := Entry("a", "pw", "", "", ""), Entry("a/b", "pw", "", "", "keep me");
    ShortNamesAreValid();
    hide ValidEntryName, Below, NoteKey, Serialize, Prune, View, TwoEntries;
    ShieldedRemoval(digest, shield, inner, t);
    TwoEntriesShow(digest, shield, inner);
  }

  lemma ShortNamesAreValid()
    ensures ValidEntryName("a") && ValidEntryName("a/b") && Below("a", "a/b")
  {
    assert Pieces("a") == ["a"];
    PiecesOfJoin("a", "b");
    assert "a" + "/" + "b" == "a/b" && Pieces("b") == ["b"];
  }

  // ---------------------------------------------------------------- editing

  /** Whether dropping the note of the former username drops the note just written. */
  predicate NotesCollide(a: Entry, b: Entry) {
    a.name == b.name && a.username != b.username && NoteToken(a.username, "note") == NoteToken(b.username, "note")
  }

  /** What an edit does to the map. */
  function Edited(v: map<string, Entry>, original: Entry, e: Entry, dropOld: bool): map<string, Entry> {
    var saved := v[e.name := if NotesCollide(original, e) then e.(notes := "") else e];
    if e.name != original.name && dropOld then saved - {original.name} else saved
  }

  lemma DroppedNoteView(digest: Digest, names: set<string>, s: State, e: Entry, username: string)
    requires Covers(digest, names, s) && e.name in s.bodies && Shown(digest, s, e.name) == e
    requires Parsed(e.name, s.bodies[e.name]).notes == "" && username != e.username
    ensures var s2 := WithoutNote(digest, s, e.name, username);
      View(digest, s2) == View(digest, s)[e.name :=
        if NoteToken(username, "note") == NoteToken(e.username, "note") then e.(notes := "") else e]
  {
    var s2 := WithoutNote(digest, s, e.name, username);
    forall m | m in s.bodies && m != e.name ensures Shown(digest, s2, m) == Shown(digest, s, m) {
      WithoutNoteSparesOthers(digest, names, s, e.name, username, m);
    }
    ViewPut(digest, s, s2, e.name);
    DroppedNoteReads(digest, s, e, username);
  }

  lemma DroppedNoteReads(digest: Digest, s: State, e: Entry, username: string)
    requires e.name in s.bodies && Shown(digest, s, e.name) == e && Parsed(e.name, s.bodies[e.name]).notes == ""
    ensures Shown(digest, WithoutNote(digest, s, e.name, username), e.name)
         == if NoteToken(username, "note") == NoteToken(e.username, "note") then e.(notes := "") else e
  {
    SameKeySameToken(digest, e.name, username, e.username);
  }

  /** A completed edit does to the map what `Edited` says. */
  lemma EditRefines(digest: Digest, names: set<string>, s: State, original: Entry, e: Entry, dropOld: bool, t: Tools)
    requires Covers(digest, names, s) && e.name in names && OneLineFields(e)
    requires Edit(digest, s, original, e, dropOld, t).failure.None?
    ensures var s2 := Edit(digest, s, original, e, dropOld, t).state;
      Covers(digest, names, s2) && View(digest, s2) == Edited(View(digest, s), original, e, dropOld)
  {
    if e.name == original.name && e.username != original.username {
      UserEditRefines(digest, names, s, original, e, t);
    } else {
      SaveRefinesPut(digest, names, s, e, t);
      if e.name != original.name && dropOld {
        DeleteRefinesRemove(digest, names, Save(digest, s, e, t).state, original.name, t);
      }
    }
  }

  lemma UserEditRefines(digest: Digest, names: set<string>, s: State, original: Entry, e: Entry, t: Tools)
    requires Covers(digest, names, s) && e.name in names && OneLineFields(e)
    requires Save(digest, s, e, t).failure.None? && e.name == original.name && e.username != original.username
    ensures var s2 := WithoutNote(digest, Save(digest, s, e, t).state, original.name, original.username);
      Covers(digest, names, s2) && View(digest, s2) == Edited(View(digest, s), original, e, false)
  {
    var saved := Save(digest, s, e, t).state;
    SaveRefinesPut(digest, names, s, e, t);
    SavedEntryReads(digest, s, e, t);
    ParseUndoesSerialize(e);
    SaveTouchesOneNote(digest, s, e, t);
    assert saved.bodies[e.name] == Serialize(e);
    DroppedNoteView(digest, names, saved, e, original.username);
    PutTwice(View(digest, s), e.name, e, if NotesCollide(original, e) then e.(notes := "") else e);
  }

  lemma PutTwice(v: map<string, Entry>, name: string, a: Entry, b: Entry)
    ensures v[name := a][name := b] == v[name := b]
  {
  }

  /**
   An edit under the same name keeps the edited entry exactly if the username is unchanged,
   or its note-file form changes too, or there are no notes to lose.
   */
  lemma EditKeepsNotesExactly(digest: Digest, names: set<string>, s: State, original: Entry, e: Entry, t: Tools)
    requires Covers(digest, names, s) && e.name in names && OneLineFields(e) && e.name == original.name
    requires Edit(digest, s, original, e, false, t).failure.None?
    ensures var s2 := Edit(digest, s, original, e, false, t).state;
      View(digest, s2) == View(digest, s)[e.name := e] <==>
        e.username == original.username || NoteToken(e.username, "note") != NoteToken(original.username, "note") || e.notes == ""
  {
    EditRefines(digest, names, s, original, e, false, t);
    var v := View(digest, s);
    assert v[e.name := e.(notes := "")][e.name] == e.(notes := "") && v[e.name := e][e.name] == e;
  }

  /** Correcting "a b" to "a-b" is such an edit: the notes are gone. */
  lemma EditCanLoseNotes(digest: Digest, s: State, name: string, t: Tools)
    requires ValidEntryName(name) && t.insert && t.encrypt
    ensures var before := Entry(name, "pw", "a b", "", "keep me"); var after := before.(username := "a-b");
      var o := Edit(digest, s, before, after, false, t);
      o.failure.None? && Shown(digest, o.state, name) == after.(notes := "")
  {
    var before := Entry(name, "pw", "a b", "", "keep me");
    var after := before.(username := "a-b");
    NoteCharsOfThree('a', ' ', 'b');
    NoteCharsOfThree('a', '-', 'b');
    SameKeySameToken(digest, name, "a b", "a-b");
    ParseUndoesSerialize(after);
  }

  lemma NoteCharsOfThree(x: char, y: char, z: char)
    requires IsNoteChar(x) && IsNoteChar(z) && (y == '-' || BecomesDash(y))
    ensures NoteChars([x, y, z]) == [x, '-', z]
  {
    assert [x, y, z][1..] == [y, z] && [y, z][1..] == [z] && [z][1..] == [];
    assert NoteChars([z]) == [z];
    assert NoteChars([y, z]) == "-" + [z];
  }

  // ---------------------------------------------------------------- migrating the old notes

  /** Whether a record of the old notes file gets into the store. */
  predicate Migrates(digest: Digest, s: State, l: Legacy, t: Tools) {
    && l.text.Some? && l.text.value != "" && t.insert && t.encrypt
    && var r := Read(digest, s, l.name, t); r.Ok? && r.value.notes == "" && r.value.password != ""
  }

  function Filled(v: map<string, Entry>, l: Legacy): map<string, Entry>
    requires l.text.Some? && l.name in v
  {
    v[l.name := v[l.name].(notes := l.text.value)]
  }

  /** Rewriting an entry as it was read, its note still missing, shows the same entry. */
  lemma RewritingShowsTheSame(digest: Digest, s: State, name: string)
    requires name in s.bodies && Shown(digest, s, name).notes == ""
    ensures var e := Shown(digest, s, name);
      Shown(digest, s.(bodies := s.bodies[name := Serialize(e)]), name) == e
  {
    var e := Shown(digest, s, name);
    ParsedFieldsAreLines(name, s.bodies[name]);
    ParseUndoesSerialize(e);
  }

  /**
   Migrating one record fills in that entry's notes where it had none and its fields
   could be read and written, and otherwise leaves every entry as it was; in particular
   when the note cannot be encrypted after the body has been rewritten.
   */
  lemma MigrateOneFills(digest: Digest, names: set<string>, s: State, l: Legacy, t: Tools)
    requires Covers(digest, names, s)
    ensures var s2 := MigrateOne(digest, s, l, t); var v := View(digest, s);
      && Covers(digest, names, s2) && s2.bodies.Keys == s.bodies.Keys
      && (Migrates(digest, s, l, t) ==> View(digest, s2) == Filled(v, l))
      && (!Migrates(digest, s, l, t) ==> View(digest, s2) == v)
  {
    var r := Read(digest, s, l.name, t);
    if l.text.Some? && l.text.value != "" && r.Ok? && r.value.notes == "" {
      var e := r.value.(notes := l.text.value);
      var o := Save(digest, s, e, t);
      ParsedFieldsAreLines(l.name, s.bodies[l.name]);
      if o.failure.None? {
        SaveRefinesPut(digest, names, s, e, t);
        SavedBodies(digest, s, e, t);
      } else if o.failure == Some(EncryptFailed) {
        BodyAloneShowsTheSame(digest, names, s, l.name, e, t);
      }
    }
  }

  lemma BodyAloneShowsTheSame(digest: Digest, names: set<string>, s: State, name: string, e: Entry, t: Tools)
    requires Covers(digest, names, s) && name in s.bodies && Shown(digest, s, name) == e.(notes := "")
    requires Save(digest, s, e, t).failure == Some(EncryptFailed)
    ensures var s2 := Save(digest, s, e, t).state;
      View(digest, s2) == View(digest, s) && s2.bodies.Keys == s.bodies.Keys
  {
    var s2 := Save(digest, s, e, t).state;
    forall m | m in s.bodies && m != name ensures Shown(digest, s2, m) == Shown(digest, s, m) {
      SaveSparesOthers(digest, names, s, e, t, m);
    }
    BodyAloneReads(digest, s, name, e, t);
    hide Shown, Save, Covers;
    ViewPut(digest, s, s2, name);
    PutSame(View(digest, s), name);
  }

  lemma PutSame<V>(v: map<string, V>, name: string)
    requires name in v
    ensures v[name := v[name]] == v
  {
  }

  lemma BodyAloneReads(digest: Digest, s: State, name: string, e: Entry, t: Tools)
    requires name in s.bodies && Shown(digest, s, name) == e.(notes := "")
    requires Save(digest, s, e, t).failure == Some(EncryptFailed)
    ensures var s2 := Save(digest, s, e, t).state;
      s2.bodies.Keys == s.bodies.Keys && Shown(digest, s2, name) == Shown(digest, s, name)
  {
    assert Serialize(e) == Serialize(e.(notes := ""));
    RewritingShowsTheSame(digest, s, name);
  }

  lemma MigrateOneSparesOthers(digest: Digest, names: set<string>, s: State, l: Legacy, t: Tools, m: string, u: Tools)
    requires Covers(digest, names, s) && m != l.name && m in s.bodies
    ensures var s2 := MigrateOne(digest, s, l, t);
      Read(digest, s2, m, u) == Read(digest, s, m, u) && m in s2.bodies && Shown(digest, s2, m) == Shown(digest, s, m)
  {
    var r := Read(digest, s, l.name, t);
    if l.text.Some? && l.text.value != "" && r.Ok? && r.value.notes == "" {
      SaveSparesOthers(digest, names, s, r.value.(notes := l.text.value), t, m);
    }
  }

  ghost predicate DistinctNames(records: seq<Legacy>) {
    forall i, j :: 0 <= i < j < |records| ==> records[i].name != records[j].name
  }

  /** No record for this name migrates: the entry stays as it was. */
  lemma {:induction false} MigrationSpares(
    digest: Digest, names: set<string>, s: State, records: seq<Legacy>, tools: string -> Tools, name: string)
    requires Covers(digest, names, s) && DistinctNames(records) && name in s.bodies
    requires forall i :: 0 <= i < |records| && records[i].name == name ==> !Migrates(digest, s, records[i], tools(name))
    ensures var s2 := Migrate(digest, s, records, tools); name in s2.bodies && Shown(digest, s2, name) == Shown(digest, s, name)
    decreases |records|
  {
    if records != [] {
      var l, rest := records[0], records[1..];
      var s1 := MigrateOne(digest, s, l, tools(l.name));
      MigrateOneFills(digest, names, s, l, tools(l.name));
      MigrateOneReads(digest, names, s, l, tools(l.name), name);
      forall i | 0 <= i < |rest| && rest[i].name == name ensures !Migrates(digest, s1, rest[i], tools(name)) {
        assert rest[i] == records[i + 1];
        MigrateOneSparesOthers(digest, names, s, l, tools(l.name), name, tools(name));
      }
      MigrationSpares(digest, names, s1, rest, tools, name);
    }
  }

  lemma RestIsElsewhere(records: seq<Legacy>)
    requires records != [] && DistinctNames(records)
    ensures DistinctNames(records[1..]) && forall i :: 0 <= i < |records[1..]| ==> records[1..][i].name != records[0].name
  {
    forall i | 0 <= i < |records[1..]| ensures records[1..][i].name != records[0].name { assert records[1..][i] == records[i + 1]; }
  }

  /** Its record migrates: the entry gets the notes of its record and keeps all its other fields. */
  lemma {:induction false} MigrationFills(
    digest: Digest, names: set<string>, s: State, records: seq<Legacy>, tools: string -> Tools, at: nat)
    requires Covers(digest, names, s) && DistinctNames(records) && at < |records|
    requires Migrates(digest, s, records[at], tools(records[at].name))
    ensures var s2 := Migrate(digest, s, records, tools); var l := records[at];
      l.name in s.bodies && l.name in s2.bodies
      && Shown(digest, s2, l.name) == Shown(digest, s, l.name).(notes := l.text.value)
    decreases |records|
  {
    if at == 0 {
      FirstMigrationFills(digest, names, s, records, tools);
    } else {
      var l, rest := records[0], records[1..];
      assert rest[at - 1] == records[at] && DistinctNames(rest);
      StillMigrates(digest, names, s, l, tools(l.name), records[at], tools(records[at].name));
      hide Shown, MigrateOne, Covers, Migrates, DistinctNames;
      MigrationFills(digest, names, MigrateOne(digest, s, l, tools(l.name)), rest, tools, at - 1);
    }
  }

  lemma StillMigrates(digest: Digest, names: set<string>, s: State, l: Legacy, t: Tools, other: Legacy, u: Tools)
    requires Covers(digest, names, s) && other.name != l.name && Migrates(digest, s, other, u)
    ensures var s1 := MigrateOne(digest, s, l, t);
      && Covers(digest, names, s1) && Migrates(digest, s1, other, u)
      && other.name in s.bodies && other.name in s1.bodies && Shown(digest, s1, other.name) == Shown(digest, s, other.name)
  {
    assert other.name in s.bodies;
    MigrateOneFills(digest, names, s, l, t);
    MigrateOneSparesOthers(digest, names, s, l, t, other.name, u);
    hide MigrateOne, Read, Shown, Covers, View, Filled;
  }

  lemma FirstMigrationFills(digest: Digest, names: set<string>, s: State, records: seq<Legacy>, tools: string -> Tools)
    requires Covers(digest, names, s) && DistinctNames(records) && records != []
    requires Migrates(digest, s, records[0], tools(records[0].name))
    ensures var s2 := Migrate(digest, s, records, tools); var l := records[0];
      l.name in s.bodies && l.name in s2.bodies
      && Shown(digest, s2, l.name) == Shown(digest, s, l.name).(notes := l.text.value)
  {
    assert records[0].name in s.bodies;
    hide Shown, Read, Save, MigrateOne, Covers, View, Filled;
    var l := records[0];
    MigrateOneFills(digest, names, s, l, tools(l.name));
    MigrateOneReads(digest, names, s, l, tools(l.name), l.name);
    RestIsElsewhere(records);
    MigrationSpares(digest, names, MigrateOne(digest, s, l, tools(l.name)), records[1..], tools, l.name);
  }

  /**
   Migrating the whole notes file, a JSON object in which no name occurs twice: an entry
   gets the notes of its record exactly if that record migrates, keeps all its other
   fields, and stays as it was if it has no such record.
   */
  lemma MigrationFillsOnlyEmptyNotes(
    digest: Digest, names: set<string>, s: State, records: seq<Legacy>, tools: string -> Tools, name: string)
    requires Covers(digest, names, s) && DistinctNames(records) && name in s.bodies
    ensures var s2 := Migrate(digest, s, records, tools);
      && name in s2.bodies
      && (forall i :: 0 <= i < |records| && records[i].name == name && Migrates(digest, s, records[i], tools(name)) ==>
            Shown(digest, s2, name) == Shown(digest, s, name).(notes := records[i].text.value))
      && ((forall i :: 0 <= i < |records| && records[i].name == name ==> !Migrates(digest, s, records[i], tools(name))) ==>
            Shown(digest, s2, name) == Shown(digest, s, name))
  {
    if at :| 0 <= at < |records| && records[at].name == name && Migrates(digest, s, records[at], tools(name)) {
      MigrationFills(digest, names, s, records, tools, at);
      forall i | 0 <= i < |records| && records[i].name == name ensures i == at {}
    } else {
      MigrationSpares(digest, names, s, records, tools, name);
    }
  }

  lemma MigrateOneReads(digest: Digest, names: set<string>, s: State, l: Legacy, t: Tools, name: string)
    requires Covers(digest, names, s) && name in s.bodies
    ensures var s2 := MigrateOne(digest, s, l, t); var e := Shown(digest, s, name);
      && name in s2.bodies
      && Shown(digest, s2, name) == if l.name == name && Migrates(digest, s, l, t) then e.(notes := l.text.value) else e
  {
    MigrateOneFills(digest, names, s, l, t);
    var s2 := MigrateOne(digest, s, l, t);
    assert View(digest, s2)[name] == Shown(digest, s2, name);
    assert View(digest, s)[name] == Shown(digest, s, name);
  }
}
