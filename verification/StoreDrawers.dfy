/**
 Every run of the password store, whatever fails in it: each name has a drawer holding the
 fields of its entry, if there is one, and the notes filed under usernames, and an operation
 opens only the drawers of the names it is about.
 */
module StoreDrawers {
  import opened Options
  import opened Ordering
  import opened PathNames
  import opened EntryText
  import opened PasswordStore
  import opened StoreRefinement
  import opened StoreRuns

  /** `filed` holds the note texts by the form of a username that is used in file names. */
  datatype Drawer = Drawer(entry: Option<Entry>, filed: imap<string, string>)

  function Token(username: string): string { NoteToken(username, "note") }

  function TokenKey(digest: Digest, name: string, token: string): string {
    NoteToken(Filename(name), "entry") + "-" + token + "-" + digest(name) + ".note"
  }

  ghost function Filed(digest: Digest, notes: map<string, string>, name: string): imap<string, string> {
    imap token | TokenKey(digest, name, token) in notes :: notes[TokenKey(digest, name, token)]
  }

  ghost function DrawerOf(digest: Digest, s: State, name: string): Drawer {
    Drawer(if name in s.bodies then Some(Parsed(name, s.bodies[name])) else None, Filed(digest, s.notes, name))
  }

  ghost function Drawers(digest: Digest, names: set<string>, s: State): map<string, Drawer> {
    map name | name in names :: DrawerOf(digest, s, name)
  }

  // ---------------------------------------------------------------- operations on drawers

  ghost function Face(d: Drawer): Entry
    requires d.entry.Some?
  {
    var e := d.entry.value;
    if Token(e.username) in d.filed then e.(notes := d.filed[Token(e.username)]) else e
  }

  /** What can be read of an entry. */
  ghost function Seen(name: string, d: Drawer, t: Tools): Option<Entry> {
    if ValidEntryName(name) && t.show && d.entry.Some? && (Token(d.entry.value.username) in d.filed ==> t.decrypt)
    then Some(Face(d)) else None
  }

  ghost function SeenUser(name: string, d: Drawer, t: Tools): string {
    match Seen(name, d, t) case Some(e) => e.username case None => ""
  }

  ghost function Without(d: Drawer, username: string): Drawer { d.(filed := d.filed - {Token(username)}) }

  ghost function Stored(d: Drawer, e: Entry, t: Tools): Drawer {
    if e.notes == "" then Without(d, e.username).(entry := Some(e))
    else Drawer(Some(e.(notes := "")), if t.encrypt then d.filed[Token(e.username) := e.notes] else d.filed)
  }

  ghost function Emptied(name: string, d: Drawer, t: Tools): Drawer {
    if d.entry.None? then d else Without(d, SeenUser(name, d, t)).(entry := None)
  }

  /**
   Removing a folder: the entries in it go, unless one of its own name shields it, and the
   notes of all that are listed go in any case.
   */
  ghost function Swept(listed: bool, shielded: bool, path: string, name: string, d: Drawer, t: Tools): Drawer {
    if d.entry.None? || !Below(path, name) then d
    else
      var noteless := if listed then Without(d, SeenUser(name, d, t)) else d;
      if shielded && name != path then noteless else noteless.(entry := None)
  }

  /** The names that have an entry. */
  ghost function Occupied(v: map<string, Drawer>): set<string> { set name | name in v && v[name].entry.Some? }

  ghost function SaveIn(v: map<string, Drawer>, e: Entry, t: Tools): map<string, Drawer> {
    if Acceptable(e, t) && e.name in v then v[e.name := Stored(v[e.name], e, t)] else v
  }

  ghost function DeleteIn(v: map<string, Drawer>, name: string, t: Tools): map<string, Drawer> {
    if ValidEntryName(name) && t.remove && name in v then v[name := Emptied(name, v[name], t)] else v
  }

  ghost function PruneIn(v: map<string, Drawer>, path: string, t: Tools): map<string, Drawer> {
    if !ValidEntryName(path) || !t.remove then v
    else map name | name in v :: Swept(name in Listed(Occupied(v)), path in Occupied(v), path, name, v[name], t)
  }

  ghost function EditIn(v: map<string, Drawer>, original: Entry, e: Entry, dropOld: bool, t: Tools): map<string, Drawer> {
    var saved := SaveIn(v, e, t);
    if !Acceptable(e, t) || (e.notes != "" && !t.encrypt) then saved
    else if e.name == original.name then
      if e.username == original.username || e.name !in saved then saved
      else saved[e.name := Without(saved[e.name], original.username)]
    else if dropOld then DeleteIn(saved, original.name, t)
    else saved
  }

  ghost function MigrateOneIn(v: map<string, Drawer>, l: Legacy, t: Tools): map<string, Drawer> {
    if l.text.None? || l.text.value == "" || l.name !in v then v
    else match Seen(l.name, v[l.name], t)
      case None => v
      case Some(e) => if e.notes != "" then v else SaveIn(v, e.(name := l.name, notes := l.text.value), t)
  }

  ghost function MigrateIn(v: map<string, Drawer>, records: seq<Legacy>, tools: string -> Tools): map<string, Drawer>
    decreases |records|
  {
    if records == [] then v else MigrateIn(MigrateOneIn(v, records[0], tools(records[0].name)), records[1..], tools)
  }

  ghost function DoIn(v: map<string, Drawer>, op: Op): map<string, Drawer> {
    match op
    case SaveOp(e, t) => SaveIn(v, e, t)
    case DeleteOp(name, t) => DeleteIn(v, name, t)
    case PruneOp(path, t) => PruneIn(v, path, t)
    case EditOp(name, e, dropOld, t) =>
      if name in v && v[name].entry.Some? then EditIn(v, Face(v[name]).(name := name), e, dropOld, t) else v
    case MigrateOp(records, tools) => MigrateIn(v, records, tools)
  }

  ghost function DoAllIn(v: map<string, Drawer>, ops: seq<Op>): map<string, Drawer>
    decreases |ops|
  {
    if ops == [] then v else DoAllIn(DoIn(v, ops[0]), ops[1..])
  }

  /** The entries written have no field that spans lines and are named in `names`. */
  ghost predicate Proper(names: set<string>, op: Op) {
    match op
    case SaveOp(e, _) => e.name in names && OneLineFields(e)
    case EditOp(_, e, _, _) => e.name in names && OneLineFields(e)
    case _ => true
  }

  // ---------------------------------------------------------------- note files and drawers

  lemma KeyByToken(digest: Digest, name: string, username: string)
    ensures NoteKey(digest, name, username) == TokenKey(digest, name, Token(username))
  {
  }

  lemma SameEnds(a: string, b: string, tail: string)
    requires a + tail == b + tail
    ensures a == b
  {
    assert a == (a + tail)[..|a|] && b == (b + tail)[..|b|];
  }

  lemma KeySplits(stemA: string, digestA: string, stemB: string, digestB: string)
    requires '-' !in digestA && '-' !in digestB
    requires stemA + "-" + digestA + ".note" == stemB + "-" + digestB + ".note"
    ensures stemA == stemB && digestA == digestB
  {
    DigestEndsKey(stemA, digestA);
    DigestEndsKey(stemB, digestB);
    hide *;
    SameEnds(digestA, digestB, ".note");
    SameEnds(stemA + "-" + digestA, stemB + "-" + digestB, ".note");
    SameEnds(stemA + "-", stemB + "-", digestA);
    SameEnds(stemA, stemB, "-");
  }

  lemma TokenKeysDiffer(digest: Digest, names: set<string>, a: string, tokenA: string, b: string, tokenB: string)
    requires TellsApart(digest, names) && a in names && b in names
    ensures TokenKey(digest, a, tokenA) == TokenKey(digest, b, tokenB) <==> a == b && tokenA == tokenB
  {
    hide NoteToken, Filename;
    var headA, headB := NoteToken(Filename(a), "entry") + "-", NoteToken(Filename(b), "entry") + "-";
    if TokenKey(digest, a, tokenA) == TokenKey(digest, b, tokenB) {
      KeySplits(headA + tokenA, digest(a), headB + tokenB, digest(b));
      assert tokenA == (headA + tokenA)[|headA|..] && tokenB == (headB + tokenB)[|headB|..];
    }
  }

  /** Filing a note under a name and username puts it into that name's drawer and no other. */
  lemma PutNote(digest: Digest, names: set<string>, notes: map<string, string>, name: string, username: string, text: string, m: string)
    requires TellsApart(digest, names) && name in names && m in names
    ensures Filed(digest, notes[NoteKey(digest, name, username) := text], m)
         == if m == name then Filed(digest, notes, m)[Token(username) := text] else Filed(digest, notes, m)
  {
    KeyByToken(digest, name, username);
    hide NoteKey, NoteToken, TellsApart;
    forall token ensures TokenKey(digest, m, token) == TokenKey(digest, name, Token(username)) <==> m == name && token == Token(username) {
      TokenKeysDiffer(digest, names, m, token, name, Token(username));
    }
    hide TokenKey;
  }

  /** Removing note files takes out of each drawer the notes that these files are. */
  lemma DropNotes(digest: Digest, notes: map<string, string>, keys: set<string>, m: string)
    ensures forall token :: token in Filed(digest, notes - keys, m) <==>
      token in Filed(digest, notes, m) && TokenKey(digest, m, token) !in keys
    ensures forall token :: token in Filed(digest, notes - keys, m) ==> Filed(digest, notes - keys, m)[token] == Filed(digest, notes, m)[token]
  {
  }

  lemma DropNote(digest: Digest, names: set<string>, notes: map<string, string>, name: string, username: string, m: string)
    requires TellsApart(digest, names) && name in names && m in names
    ensures Filed(digest, notes - {NoteKey(digest, name, username)}, m)
         == if m == name then Filed(digest, notes, m) - {Token(username)} else Filed(digest, notes, m)
  {
    KeyByToken(digest, name, username);
    DropNotes(digest, notes, {NoteKey(digest, name, username)}, m);
    hide NoteKey, NoteToken, TellsApart, Filed;
    forall token ensures TokenKey(digest, m, token) == TokenKey(digest, name, Token(username)) <==> m == name && token == Token(username) {
      TokenKeysDiffer(digest, names, m, token, name, Token(username));
    }
    hide TokenKey;
  }

  // ---------------------------------------------------------------- reading

  lemma FaceIsShown(digest: Digest, s: State, name: string)
    requires name in s.bodies
    ensures Face(DrawerOf(digest, s, name)) == Shown(digest, s, name)
    ensures NoteKey(digest, name, Parsed(name, s.bodies[name]).username) in s.notes
      <==> Token(Parsed(name, s.bodies[name]).username) in Filed(digest, s.notes, name)
  {
    KeyByToken(digest, name, Parsed(name, s.bodies[name]).username);
    hide NoteKey, TokenKey, Parsed, NoteToken;
  }

  lemma SeenIsRead(digest: Digest, s: State, name: string, t: Tools)
    ensures Seen(name, DrawerOf(digest, s, name), t)
         == (match Read(digest, s, name, t) case Ok(e) => Some(e) case Err(_) => None)
    ensures SeenUser(name, DrawerOf(digest, s, name), t) == UsernameOf(digest, s, name, t)
  {
    if name in s.bodies { FaceIsShown(digest, s, name); }
    hide Filed, Face, Shown, NoteKey, Parsed, Token;
  }

  // ---------------------------------------------------------------- one operation

  /** One name's drawer changed as given, and no other: that is an update of the map of drawers. */
  lemma OneDrawer(digest: Digest, names: set<string>, s: State, s2: State, name: string, d: Drawer)
    requires name in names && DrawerOf(digest, s2, name) == d
    requires forall m :: m in names && m != name ==> DrawerOf(digest, s2, m) == DrawerOf(digest, s, m)
    ensures Drawers(digest, names, s2) == Drawers(digest, names, s)[name := d]
  {
    hide DrawerOf;
  }

  lemma WithoutNoteDrawer(digest: Digest, names: set<string>, s: State, name: string, username: string)
    requires TellsApart(digest, names) && name in names
    ensures Drawers(digest, names, WithoutNote(digest, s, name, username))
         == Drawers(digest, names, s)[name := Without(DrawerOf(digest, s, name), username)]
  {
    var s2 := WithoutNote(digest, s, name, username);
    forall m | m in names ensures Filed(digest, s2.notes, m)
      == if m == name then Filed(digest, s.notes, m) - {Token(username)} else Filed(digest, s.notes, m) {
      DropNote(digest, names, s.notes, name, username, m);
    }
    hide Filed, Token, Parsed, NoteKey, TellsApart;
    OneDrawer(digest, names, s, s2, name, Without(DrawerOf(digest, s, name), username));
  }

  /** Writing an entry's body changes the entry in its drawer. */
  lemma BodyDrawer(digest: Digest, names: set<string>, s: State, e: Entry)
    requires e.name in names && OneLineFields(e)
    ensures Drawers(digest, names, s.(bodies := s.bodies[e.name := Serialize(e)]))
         == Drawers(digest, names, s)[e.name := DrawerOf(digest, s, e.name).(entry := Some(e.(notes := "")))]
  {
    ParseUndoesSerialize(e);
    hide Filed, Parsed, Serialize;
    var s2 := s.(bodies := s.bodies[e.name := Serialize(e)]);
    OneDrawer(digest, names, s, s2, e.name, DrawerOf(digest, s, e.name).(entry := Some(e.(notes := ""))));
  }

  lemma NoteDrawer(digest: Digest, names: set<string>, s: State, name: string, username: string, text: string)
    requires TellsApart(digest, names) && name in names
    ensures var d := DrawerOf(digest, s, name);
      Drawers(digest, names, s.(notes := s.notes[NoteKey(digest, name, username) := text]))
      == Drawers(digest, names, s)[name := d.(filed := d.filed[Token(username) := text])]
  {
    var s2 := s.(notes := s.notes[NoteKey(digest, name, username) := text]);
    forall m | m in names ensures Filed(digest, s2.notes, m)
      == if m == name then Filed(digest, s.notes, m)[Token(username) := text] else Filed(digest, s.notes, m) {
      PutNote(digest, names, s.notes, name, username, text, m);
    }
    hide Filed, Token, Parsed, NoteKey, TellsApart;
    var d := DrawerOf(digest, s, name);
    OneDrawer(digest, names, s, s2, name, d.(filed := d.filed[Token(username) := text]));
  }

  lemma PutTwice<V>(v: map<string, V>, name: string, a: V, b: V)
    ensures v[name := a][name := b] == v[name := b]
  {
  }

  lemma SavedState(digest: Digest, s: State, e: Entry, t: Tools)
    requires Acceptable(e, t)
    ensures var inserted := s.(bodies := s.bodies[e.name := Serialize(e)]);
      Save(digest, s, e, t).state ==
        if e.notes == "" then WithoutNote(digest, inserted, e.name, e.username)
        else if t.encrypt then inserted.(notes := inserted.notes[NoteKey(digest, e.name, e.username) := e.notes])
        else inserted
  {
    hide ValidEntryName, NoteKey, Serialize, WithoutNote;
  }

  lemma AcceptedSaveDrawers(digest: Digest, names: set<string>, s: State, e: Entry, t: Tools)
    requires Covers(digest, names, s) && e.name in names && OneLineFields(e) && Acceptable(e, t)
    ensures Drawers(digest, names, Save(digest, s, e, t).state)
         == Drawers(digest, names, s)[e.name := Stored(DrawerOf(digest, s, e.name), e, t)]
  {
    var inserted, v, d0 := s.(bodies := s.bodies[e.name := Serialize(e)]), Drawers(digest, names, s), DrawerOf(digest, s, e.name);
    SavedState(digest, s, e, t);
    BodyDrawer(digest, names, s, e);
    var d := DrawerOf(digest, inserted, e.name);
    assert d == d0.(entry := Some(e.(notes := ""))) by { assert Drawers(digest, names, inserted)[e.name] == d; }
    assert Stored(d0, e, t) ==
      if e.notes == "" then Without(d, e.username)
      else if t.encrypt then d.(filed := d.filed[Token(e.username) := e.notes]) else d;
    assert TellsApart(digest, names);
    hide *;
    if e.notes == "" {
      WithoutNoteDrawer(digest, names, inserted, e.name, e.username);
      PutTwice(v, e.name, d, Without(d, e.username));
    } else if t.encrypt {
      NoteDrawer(digest, names, inserted, e.name, e.username, e.notes);
      PutTwice(v, e.name, d, d.(filed := d.filed[Token(e.username) := e.notes]));
    }
  }

  lemma SaveDrawers(digest: Digest, names: set<string>, s: State, e: Entry, t: Tools)
    requires Covers(digest, names, s) && e.name in names && OneLineFields(e)
    ensures var s2 := Save(digest, s, e, t).state;
      Covers(digest, names, s2) && Drawers(digest, names, s2) == SaveIn(Drawers(digest, names, s), e, t)
  {
    if Acceptable(e, t) { AcceptedSaveDrawers(digest, names, s, e, t); }
    assert Drawers(digest, names, s)[e.name] == DrawerOf(digest, s, e.name);
    hide DrawerOf, Stored, OneLineFields, ValidEntryName, NoteKey, Serialize;
  }

  lemma DeletedDrawers(digest: Digest, names: set<string>, s: State, name: string, username: string)
    requires Covers(digest, names, s) && name in s.bodies
    ensures Drawers(digest, names, WithoutNote(digest, s.(bodies := s.bodies - {name}), name, username))
         == Drawers(digest, names, s)[name := Without(DrawerOf(digest, s, name), username).(entry := None)]
  {
    var fewer, d := s.(bodies := s.bodies - {name}), DrawerOf(digest, s, name);
    assert DrawerOf(digest, fewer, name) == d.(entry := None);
    assert forall m :: m in names && m != name ==> DrawerOf(digest, fewer, m) == DrawerOf(digest, s, m);
    hide Filed, Parsed, NoteKey, TellsApart, Token, DrawerOf, Drawers;
    OneDrawer(digest, names, s, fewer, name, d.(entry := None));
    WithoutNoteDrawer(digest, names, fewer, name, username);
    PutTwice(Drawers(digest, names, s), name, d.(entry := None), Without(d, username).(entry := None));
  }

  lemma DeleteDrawers(digest: Digest, names: set<string>, s: State, name: string, t: Tools)
    requires Covers(digest, names, s)
    ensures var s2 := Delete(digest, s, name, t).state;
      Covers(digest, names, s2) && Drawers(digest, names, s2) == DeleteIn(Drawers(digest, names, s), name, t)
  {
    SeenIsRead(digest, s, name, t);
    assert DrawerOf(digest, s, name).entry.Some? <==> name in s.bodies;
    assert name in names ==> Drawers(digest, names, s)[name] == DrawerOf(digest, s, name);
    if name in s.bodies { DeletedDrawers(digest, names, s, name, UsernameOf(digest, s, name, t)); }
    hide DrawerOf, ValidEntryName, UsernameOf, SeenUser, WithoutNote;
  }

  lemma SaveFails(digest: Digest, s: State, e: Entry, t: Tools)
    ensures Save(digest, s, e, t).failure.None? <==> Acceptable(e, t) && (e.notes == "" || t.encrypt)
  {
    hide ValidEntryName, NoteKey, Serialize;
  }

  lemma EditDrawers(digest: Digest, names: set<string>, s: State, original: Entry, e: Entry, dropOld: bool, t: Tools)
    requires Covers(digest, names, s) && e.name in names && OneLineFields(e)
    ensures var s2 := Edit(digest, s, original, e, dropOld, t).state;
      Covers(digest, names, s2) && Drawers(digest, names, s2) == EditIn(Drawers(digest, names, s), original, e, dropOld, t)
  {
    var saved := Save(digest, s, e, t);
    hide Save, SaveIn, OneLineFields, NoteKey;
    SaveDrawers(digest, names, s, e, t);
    SaveFails(digest, s, e, t);
    assert TellsApart(digest, names);
    assert Drawers(digest, names, saved.state)[e.name] == DrawerOf(digest, saved.state, e.name);
    assert Covers(digest, names, WithoutNote(digest, saved.state, e.name, original.username));
    hide Save, SaveIn, DrawerOf, Drawers, Delete, DeleteIn, OneLineFields, Acceptable, NoteKey, Without, Covers, WithoutNote, TellsApart;
    if e.name == original.name {
      WithoutNoteDrawer(digest, names, saved.state, e.name, original.username);
    } else {
      DeleteDrawers(digest, names, saved.state, original.name, t);
    }
  }

  /** What removing a folder does to one drawer. */
  lemma PruneDrawer(digest: Digest, names: set<string>, s: State, path: string, listed: seq<string>, t: Tools, m: string)
    requires Covers(digest, names, s) && Elements(listed) <= s.bodies.Keys && m in names
    requires Prune(digest, s, path, listed, t).failure.None?
    ensures DrawerOf(digest, Prune(digest, s, path, listed, t).state, m)
         == Swept(m in Elements(listed), path in s.bodies, path, m, DrawerOf(digest, s, m), t)
  {
    var keys := NotesBelow(digest, s, path, listed, t);
    var s2 := Prune(digest, s, path, listed, t).state;
    PruneFiled(digest, names, s, path, listed, t, m);
    SeenIsRead(digest, s, m, t);
    assert s2.notes == s.notes - keys;
    assert m in s2.bodies <==> m in s.bodies && m !in Gone(s, path);
    hide NotesBelow, Filed, Parsed, SeenUser, UsernameOf, Token, Prune, Below, ValidEntryName;
    if m in s.bodies { BelowOrGone(s, path, m); }
  }

  lemma BelowOrGone(s: State, path: string, m: string)
    requires m in s.bodies
    ensures m in Gone(s, path) <==> Below(path, m) && (path in s.bodies ==> m == path)
  {
  }

  lemma PruneFiled(digest: Digest, names: set<string>, s: State, path: string, listed: seq<string>, t: Tools, m: string)
    requires Covers(digest, names, s) && Elements(listed) <= s.bodies.Keys && m in names
    ensures Filed(digest, s.notes - NotesBelow(digest, s, path, listed, t), m)
         == if m in Elements(listed) && Below(path, m) then Filed(digest, s.notes, m) - {Token(UsernameOf(digest, s, m, t))}
            else Filed(digest, s.notes, m)
  {
    var keys := NotesBelow(digest, s, path, listed, t);
    DropNotes(digest, s.notes, keys, m);
    forall token ensures TokenKey(digest, m, token) in keys
      <==> m in Elements(listed) && Below(path, m) && token == Token(UsernameOf(digest, s, m, t)) {
      TokenBelow(digest, names, s, path, listed, t, m, token);
    }
    hide NotesBelow, TokenKey, Token, UsernameOf, Below, Filed, TellsApart;
  }

  lemma TokenBelow(
    digest: Digest, names: set<string>, s: State, path: string, listed: seq<string>, t: Tools, m: string, token: string)
    requires Covers(digest, names, s) && Elements(listed) <= s.bodies.Keys && m in names
    ensures TokenKey(digest, m, token) in NotesBelow(digest, s, path, listed, t)
      <==> m in Elements(listed) && Below(path, m) && token == Token(UsernameOf(digest, s, m, t))
  {
    hide NoteKey, TokenKey, UsernameOf, Below, Token, TellsApart;
    assert m in Elements(listed) <==> m in listed;
    forall x | x in listed
      ensures NoteKey(digest, x, UsernameOf(digest, s, x, t)) == TokenKey(digest, m, token)
        <==> x == m && token == Token(UsernameOf(digest, s, m, t))
    {
      assert x in Elements(listed);
      KeyByToken(digest, x, UsernameOf(digest, s, x, t));
      TokenKeysDiffer(digest, names, x, Token(UsernameOf(digest, s, x, t)), m, token);
    }
  }

  lemma PruneDrawers(digest: Digest, names: set<string>, s: State, path: string, t: Tools)
    requires Covers(digest, names, s)
    ensures var s2 := Do(digest, s, PruneOp(path, t));
      Covers(digest, names, s2) && Drawers(digest, names, s2) == PruneIn(Drawers(digest, names, s), path, t)
  {
    var seen, v := Listed(s.bodies.Keys), Drawers(digest, names, s);
    var listed := Listing(Bytes, seen);
    ListingSorts(Bytes, seen);
    assert seen <= s.bodies.Keys && Occupied(v) == s.bodies.Keys;
    if Prune(digest, s, path, listed, t).failure.None? {
      forall m | m in names ensures
        DrawerOf(digest, Prune(digest, s, path, listed, t).state, m)
        == Swept(m in seen, path in s.bodies, path, m, DrawerOf(digest, s, m), t) {
        PruneDrawer(digest, names, s, path, listed, t, m);
      }
    }
    hide DrawerOf, Swept, Listing, NotesBelow, ValidEntryName, Gone, Listed, Occupied;
  }

  lemma MigrateOneDrawers(digest: Digest, names: set<string>, s: State, l: Legacy, t: Tools)
    requires Covers(digest, names, s)
    ensures var s2 := MigrateOne(digest, s, l, t);
      Covers(digest, names, s2) && Drawers(digest, names, s2) == MigrateOneIn(Drawers(digest, names, s), l, t)
  {
    SeenIsRead(digest, s, l.name, t);
    var r := Read(digest, s, l.name, t);
    assert l.name in names ==> Drawers(digest, names, s)[l.name] == DrawerOf(digest, s, l.name);
    if l.text.Some? && r.Ok? {
      assert l.name in s.bodies && l.name in names;
      ParsedFieldsAreLines(l.name, s.bodies[l.name]);
      SaveDrawers(digest, names, s, r.value.(notes := l.text.value), t);
    }
    hide Read, Save, SaveIn, Seen, DrawerOf, Drawers, OneLineFields;
  }

  lemma {:induction false} MigrateDrawers(digest: Digest, names: set<string>, s: State, records: seq<Legacy>, tools: string -> Tools)
    requires Covers(digest, names, s)
    ensures var s2 := Migrate(digest, s, records, tools);
      Covers(digest, names, s2) && Drawers(digest, names, s2) == MigrateIn(Drawers(digest, names, s), records, tools)
    decreases |records|
  {
    if records != [] {
      var l := records[0];
      MigrateOneDrawers(digest, names, s, l, tools(l.name));
      hide MigrateOne, MigrateOneIn, Drawers, Covers;
      MigrateDrawers(digest, names, MigrateOne(digest, s, l, tools(l.name)), records[1..], tools);
    }
  }

  lemma EditOpDrawers(digest: Digest, names: set<string>, s: State, op: Op)
    requires Covers(digest, names, s) && op.EditOp? && Proper(names, op)
    ensures var s2 := Do(digest, s, op);
      Covers(digest, names, s2) && Drawers(digest, names, s2) == DoIn(Drawers(digest, names, s), op)
  {
    var v := Drawers(digest, names, s);
    assert op.name in s.bodies <==> op.name in v && v[op.name].entry.Some?;
    if op.name in s.bodies {
      FaceIsShown(digest, s, op.name);
      assert v[op.name] == DrawerOf(digest, s, op.name);
      EditDrawers(digest, names, s, Shown(digest, s, op.name), op.e, op.dropOld, op.t);
    }
    hide Edit, EditIn, DrawerOf, Drawers, Shown, Face;
  }

  lemma DoDrawers(digest: Digest, names: set<string>, s: State, op: Op)
    requires Covers(digest, names, s) && Proper(names, op)
    ensures var s2 := Do(digest, s, op);
      Covers(digest, names, s2) && Drawers(digest, names, s2) == DoIn(Drawers(digest, names, s), op)
  {
    hide Drawers, Covers, Save, SaveIn, Delete, DeleteIn, PruneIn, EditIn, OneLineFields, Face, Shown;
    match op
    case SaveOp(e, t) => SaveDrawers(digest, names, s, e, t);
    case DeleteOp(name, t) => DeleteDrawers(digest, names, s, name, t);
    case PruneOp(path, t) => PruneDrawers(digest, names, s, path, t);
    case EditOp(_, _, _, _) => EditOpDrawers(digest, names, s, op);
    case MigrateOp(records, tools) => MigrateDrawers(digest, names, s, records, tools);
  }

  /** A hidden entry that goes with its folder leaves its notes behind, in a drawer that looks empty. */
  lemma HiddenEntriesLeaveNotes(digest: Digest, names: set<string>, s: State, path: string, t: Tools, m: string)
    requires Covers(digest, names, s) && m in s.bodies && m !in Listed(s.bodies.Keys) && path + "/" <= m
    requires ValidEntryName(path) && t.remove && path !in s.bodies
    ensures var s2 := Do(digest, s, PruneOp(path, t));
      m !in s2.bodies && Filed(digest, s2.notes, m) == Filed(digest, s.notes, m)
  {
    PruneDrawers(digest, names, s, path, t);
    var v, s2 := Drawers(digest, names, s), Do(digest, s, PruneOp(path, t));
    assert Occupied(v) == s.bodies.Keys;
    hide Filed, Parsed, Listed, Do;
    assert Drawers(digest, names, s2)[m] == DrawerOf(digest, s2, m);
  }

  // ---------------------------------------------------------------- whole runs

  /** What can be seen of the drawers: the entries in them, each with the note filed under its username. */
  ghost function Faces(v: map<string, Drawer>): map<string, Entry> {
    map name | name in v && v[name].entry.Some? :: Face(v[name])
  }

  lemma FacesAreTheView(digest: Digest, names: set<string>, s: State)
    requires Covers(digest, names, s)
    ensures View(digest, s) == Faces(Drawers(digest, names, s))
  {
    var v := Drawers(digest, names, s);
    forall name | name in s.bodies ensures name in v && Face(v[name]) == Shown(digest, s, name) {
      FaceIsShown(digest, s, name);
    }
    hide Shown, Face;
    forall name ensures name in s.bodies <==> name in v && v[name].entry.Some? {}
  }

  /**
   Whatever fails in it, and whatever notes were left behind before it, every run of saves,
   edits, deletions, folder removals and migrations does to the store what it does to the
   drawers, where digests, bodies and note files play no part.
   */
  lemma {:induction false} EveryRunIsInDrawers(digest: Digest, names: set<string>, s: State, ops: seq<Op>)
    requires Covers(digest, names, s) && forall i :: 0 <= i < |ops| ==> Proper(names, ops[i])
    ensures var s2 := DoAll(digest, s, ops); var v := DoAllIn(Drawers(digest, names, s), ops);
      Drawers(digest, names, s2) == v && View(digest, s2) == Faces(v)
    decreases |ops|
  {
    if ops == [] {
      FacesAreTheView(digest, names, s);
    } else {
      DoDrawers(digest, names, s, ops[0]);
      hide Drawers, DoIn, Do, Faces, View, Proper, Covers;
      EveryRunIsInDrawers(digest, names, Do(digest, s, ops[0]), ops[1..]);
    }
  }

  /** The names an operation is about. */
  predicate About(op: Op, name: string) {
    match op
    case SaveOp(e, _) => name == e.name
    case DeleteOp(n, _) => name == n
    case PruneOp(path, _) => Below(path, name)
    case EditOp(n, e, _, _) => name == n || name == e.name
    case MigrateOp(records, _) => exists i :: 0 <= i < |records| && records[i].name == name
  }

  lemma {:induction false} MigrationLeavesOthers(v: map<string, Drawer>, records: seq<Legacy>, tools: string -> Tools, name: string)
    requires name in v && forall i :: 0 <= i < |records| ==> records[i].name != name
    ensures var w := MigrateIn(v, records, tools); name in w && w[name] == v[name]
    decreases |records|
  {
    if records != [] {
      var l, rest := records[0], records[1..];
      forall i | 0 <= i < |rest| ensures rest[i].name != name { assert rest[i] == records[i + 1]; }
      MigrationLeavesOthers(MigrateOneIn(v, l, tools(l.name)), rest, tools, name);
    }
  }

  lemma DoLeavesOthers(v: map<string, Drawer>, op: Op, name: string)
    requires name in v && !About(op, name)
    ensures var w := DoIn(v, op); name in w && w[name] == v[name]
  {
    hide ValidEntryName, Stored, Emptied, Without, Face;
    if op.MigrateOp? { MigrationLeavesOthers(v, op.records, op.tools, name); }
  }

  lemma {:induction false} RunLeavesOthers(v: map<string, Drawer>, ops: seq<Op>, name: string)
    requires name in v && forall i :: 0 <= i < |ops| ==> !About(ops[i], name)
    ensures var w := DoAllIn(v, ops); name in w && w[name] == v[name]
    decreases |ops|
  {
    if ops != [] {
      DoLeavesOthers(v, ops[0], name);
      hide DoIn, About;
      RunLeavesOthers(DoIn(v, ops[0]), ops[1..], name);
    }
  }

  /** An entry that no operation of a run is about shows the same after it, note and all. */
  lemma UnconcernedEntriesStay(digest: Digest, names: set<string>, s: State, ops: seq<Op>, name: string)
    requires Covers(digest, names, s) && forall i :: 0 <= i < |ops| ==> Proper(names, ops[i]) && !About(ops[i], name)
    requires name in names
    ensures var s2 := DoAll(digest, s, ops);
      && (name in s2.bodies <==> name in s.bodies)
      && (name in s.bodies ==> Shown(digest, s2, name) == Shown(digest, s, name))
  {
    var s2, v := DoAll(digest, s, ops), Drawers(digest, names, s);
    EveryRunIsInDrawers(digest, names, s, ops);
    RunLeavesOthers(v, ops, name);
    hide DoAll, DoAllIn, Proper, About, Filed, Face, Shown, Parsed;
    assert DrawerOf(digest, s2, name) == DrawerOf(digest, s, name);
    if name in s.bodies {
      FaceIsShown(digest, s, name);
      FaceIsShown(digest, s2, name);
    }
  }
}
