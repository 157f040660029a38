/**
 The password store as a map from names to entries: encrypted bodies kept by `pass`, and
 beside them encrypted note files, named after the entry, its username and a digest of
 the entry's name. The digest is any function; what matters is which names it tells apart.
 */
module PasswordStore {
  import opened Options
  import opened Text
  import opened PathNames
  import opened EntryText

  type Digest = string -> string

  datatype State = State(bodies: map<string, string>, notes: map<string, string>)

  /** Which of the foreign commands would succeed during a call. */
  datatype Tools = Tools(show: bool, insert: bool, remove: bool, decrypt: bool, encrypt: bool)

  datatype Failure = InvalidName | EmptyPassword | ShowFailed | InsertFailed | RemoveFailed | DecryptFailed | EncryptFailed
  datatype Result<T> = Ok(value: T) | Err(why: Failure)
  datatype Outcome = Outcome(state: State, failure: Option<Failure>)

  // ---------------------------------------------------------------- note file names

  predicate IsNoteChar(c: char) {
    'a' <= c <= 'z' || 'A' <= c <= 'Z' || '0' <= c <= '9' || c == '-' || c == '_' || c == '.'
  }

  predicate BecomesDash(c: char) { c == '/' || c == '@' || c == ':' || c == ' ' || c == '[' || c == ']' }

  function NoteChars(s: string): string {
    if s == "" then ""
    else NoteChar(s[0]) + NoteChars(s[1..])
  }

  function WithoutLeadingDashes(s: string): string {
    if s != "" && s[0] == '-' then WithoutLeadingDashes(s[1..]) else s
  }

  function WithoutTrailingDashes(s: string): string {
    if s != "" && s[|s| - 1] == '-' then WithoutTrailingDashes(s[..|s| - 1]) else s
  }

  function NoteToken(value: string, fallback: string): string {
    var kept := WithoutTrailingDashes(WithoutLeadingDashes(NoteChars(value)));
    if kept == "" then fallback else kept
  }

  function NoteChar(c: char): string { if IsNoteChar(c) then [c] else if BecomesDash(c) then "-" else "" }

  lemma {:induction false} NoteCharsSnoc(s: string, c: char)
    ensures NoteChars(s + [c]) == NoteChars(s) + NoteChar(c)
  {
    hide IsNoteChar, BecomesDash, NoteChar;
    if s == "" {
      assert [c][1..] == "";
    } else {
      NoteCharsSnoc(s[1..], c);
      assert (s + [c])[1..] == s[1..] + [c];
    }
  }

  /** What becomes of each character of a value: the plain ones stay, separators become dashes, all others go. */
  lemma NoteCharIs(c: char)
    ensures NoteChar(c) == if PlainChar(c) then [c] else if c in "/@: []" then "-" else ""
  {
    PlainCharsAre(c);
    hide PlainChar;
  }

  lemma {:induction false} PlainCharsStay(s: string)
    requires forall i :: 0 <= i < |s| ==> PlainChar(s[i])
    ensures NoteChars(s) == s
  {
    if s != "" {
      hide PlainChar, NoteChar;
      NoteCharIs(s[0]);
      PlainCharsStay(s[1..]);
    }
  }

  lemma {:induction false} NoteCharsStay(s: string)
    ensures forall c :: c in NoteChars(s) ==> PlainChar(c)
  {
    if s != "" {
      hide PlainChar, NoteChar;
      NoteCharIs(s[0]);
      DashStays();
      NoteCharsStay(s[1..]);
    }
  }

  lemma DashStays()
    ensures PlainChar('-')
  {
    PlainCharsAre('-');
  }

  predicate OnlyDashes(s: string) { forall i :: 0 <= i < |s| ==> s[i] == '-' }

  lemma {:induction false} LeadingDashesGo(s: string) returns (dashes: string)
    ensures s == dashes + WithoutLeadingDashes(s) && OnlyDashes(dashes)
    ensures WithoutLeadingDashes(s) != "" ==> WithoutLeadingDashes(s)[0] != '-'
  {
    if s != "" && s[0] == '-' {
      var rest := LeadingDashesGo(s[1..]);
      dashes := "-" + rest;
      assert s == [s[0]] + s[1..];
    } else {
      dashes := "";
    }
  }

  lemma {:induction false} TrailingDashesGo(s: string) returns (dashes: string)
    ensures s == WithoutTrailingDashes(s) + dashes && OnlyDashes(dashes)
    ensures WithoutTrailingDashes(s) != "" ==> WithoutTrailingDashes(s)[|WithoutTrailingDashes(s)| - 1] != '-'
  {
    if s != "" && s[|s| - 1] == '-' {
      var rest := TrailingDashesGo(s[..|s| - 1]);
      dashes := rest + "-";
      assert s == s[..|s| - 1] + [s[|s| - 1]];
    } else {
      dashes := "";
    }
  }

  /** No dash at either end. */
  predicate DashFree(s: string) { s == "" || (s[0] != '-' && s[|s| - 1] != '-') }

  /**
   The token of a value: what its characters become, without the dashes around it, or the
   fallback if nothing else is left. It has only letters, digits and "-_.", so that it is
   one file name.
   */
  lemma NoteTokenIsFileName(value: string, fallback: string) returns (before: string, kept: string, after: string)
    ensures NoteChars(value) == before + kept + after && OnlyDashes(before) && OnlyDashes(after) && DashFree(kept)
    ensures NoteToken(value, fallback) == if kept == "" then fallback else kept
    ensures forall c :: c in kept ==> PlainChar(c)
  {
    hide PlainChar, NoteChars;
    var led := WithoutLeadingDashes(NoteChars(value));
    before := LeadingDashesGo(NoteChars(value));
    after := TrailingDashesGo(led);
    kept := WithoutTrailingDashes(led);
    assert kept != "" ==> kept[0] == led[0];
    NoteCharsStay(value);
    assert forall c :: c in kept ==> c in NoteChars(value);
  }

  method KeepNoteChars(value: string) returns (token: string)
    ensures token == NoteChars(value)
  {
    token := "";
    var i := 0;
    while i < |value|
      invariant 0 <= i <= |value|
      invariant token == NoteChars(value[..i])
    {
      NoteCharsSnoc(value[..i], value[i]);
      assert value[..i + 1] == value[..i] + [value[i]];
      if IsNoteChar(value[i]) {
        token := token + [value[i]];
      } else if BecomesDash(value[i]) {
        token := token + "-";
      }
      i := i + 1;
    }
    assert value[..i] == value;
  }

  method SanitizeNoteToken(value: string, fallback: string) returns (token: string)
    ensures token == NoteToken(value, fallback)
  {
    token := KeepNoteChars(value);
    while token != "" && token[0] == '-'
      invariant WithoutLeadingDashes(token) == WithoutLeadingDashes(NoteChars(value))
      decreases |token|
    {
      token := token[1..];
    }
    while token != "" && token[|token| - 1] == '-'
      invariant WithoutTrailingDashes(token) == WithoutTrailingDashes(WithoutLeadingDashes(NoteChars(value)))
      decreases |token|
    {
      token := token[..|token| - 1];
    }
    token := if token == "" then fallback else token;
  }

  function NoteKey(digest: Digest, name: string, username: string): string {
    NoteToken(Filename(name), "entry") + "-" + NoteToken(username, "note") + "-" + digest(name) + ".note"
  }

  /** Digests are printed in hexadecimal, and those of different names differ. */
  ghost predicate TellsApart(digest: Digest, names: set<string>) {
    && (forall a :: a in names ==> '-' !in digest(a))
    && (forall a, b :: a in names && b in names && a != b ==> digest(a) != digest(b))
  }

  lemma DigestEndsKey(stem: string, digest: string)
    requires '-' !in digest
    ensures var key := stem + "-" + digest + ".note";
      LastIndexOf(key, '-') == Some(|stem|) && key[|stem| + 1..] == digest + ".note"
  {
    var rest := digest + ".note";
    assert ".note" == ['.', 'n', 'o', 't', 'e'];
    LastIndexOfIs(stem, '-', rest);
    assert stem + "-" + digest + ".note" == stem + ['-'] + rest;
  }

  lemma KeyDeterminesDigest(digest: Digest, a: string, userA: string, b: string, userB: string)
    requires '-' !in digest(a) && '-' !in digest(b)
    requires NoteKey(digest, a, userA) == NoteKey(digest, b, userB)
    ensures digest(a) == digest(b)
  {
    hide NoteToken, Filename;
    var stemA := NoteToken(Filename(a), "entry") + "-" + NoteToken(userA, "note");
    var stemB := NoteToken(Filename(b), "entry") + "-" + NoteToken(userB, "note");
    DigestEndsKey(stemA, digest(a));
    DigestEndsKey(stemB, digest(b));
    var rest := digest(a) + ".note";
    assert rest == digest(b) + ".note";
    assert digest(a) == rest[..|rest| - 5];
  }

  lemma KeysTellNamesApart(digest: Digest, names: set<string>, a: string, userA: string, b: string, userB: string)
    requires TellsApart(digest, names) && a in names && b in names && a != b
    ensures NoteKey(digest, a, userA) != NoteKey(digest, b, userB)
  {
    if NoteKey(digest, a, userA) == NoteKey(digest, b, userB) {
      KeyDeterminesDigest(digest, a, userA, b, userB);
    }
  }

  // ---------------------------------------------------------------- operations on values

  /** What reading an entry yields when every command works. */
  function Shown(digest: Digest, s: State, name: string): Entry
    requires name in s.bodies
  {
    var e := Parsed(name, s.bodies[name]);
    var key := NoteKey(digest, name, e.username);
    if key in s.notes then e.(notes := s.notes[key]) else e
  }

  /** The store as its users see it. */
  function View(digest: Digest, s: State): map<string, Entry> {
    map name | name in s.bodies :: Shown(digest, s, name)
  }

  function Read(digest: Digest, s: State, name: string, t: Tools): Result<Entry> {
    if !ValidEntryName(name) then Err(InvalidName)
    else if !t.show || name !in s.bodies then Err(ShowFailed)
    else if NoteKey(digest, name, Parsed(name, s.bodies[name]).username) in s.notes && !t.decrypt then Err(DecryptFailed)
    else Ok(Shown(digest, s, name))
  }

  /**
   What reading gives: exactly for a valid name of an entry, with `pass show` working and its
   note, if it has one, decrypted, the fields of its text and the text of its note.
   */
  lemma ReadsExactly(digest: Digest, s: State, name: string, t: Tools)
    ensures var r := Read(digest, s, name, t);
      && (r.Ok? <==> ValidEntryName(name) && t.show && name in s.bodies
                     && (NoteKey(digest, name, Parsed(name, s.bodies[name]).username) in s.notes ==> t.decrypt))
      && (r.Ok? ==>
            var fields, key := Parsed(name, s.bodies[name]), NoteKey(digest, name, Parsed(name, s.bodies[name]).username);
            && r.value.name == name && r.value.password == fields.password
            && r.value.username == fields.username && r.value.url == fields.url
            && r.value.notes == if key in s.notes then s.notes[key] else fields.notes)
  {
    hide NoteKey;
  }

  function UsernameOf(digest: Digest, s: State, name: string, t: Tools): string {
    var r := Read(digest, s, name, t);
    if r.Ok? then r.value.username else ""
  }

  function WithoutNote(digest: Digest, s: State, name: string, username: string): State {
    s.(notes := s.notes - {NoteKey(digest, name, username)})
  }

  function Save(digest: Digest, s: State, e: Entry, t: Tools): Outcome {
    if !ValidEntryName(e.name) then Outcome(s, Some(InvalidName))
    else if e.password == "" then Outcome(s, Some(EmptyPassword))
    else if !t.insert then Outcome(s, Some(InsertFailed))
    else
      var inserted := s.(bodies := s.bodies[e.name := Serialize(e)]);
      if e.notes == "" then Outcome(WithoutNote(digest, inserted, e.name, e.username), None)
      else if !t.encrypt then Outcome(inserted, Some(EncryptFailed))
      else Outcome(inserted.(notes := s.notes[NoteKey(digest, e.name, e.username) := e.notes]), None)
  }

  function Delete(digest: Digest, s: State, name: string, t: Tools): Outcome {
    if !ValidEntryName(name) then Outcome(s, Some(InvalidName))
    else if !t.remove || name !in s.bodies then Outcome(s, Some(RemoveFailed))
    else
      Outcome(WithoutNote(digest, s.(bodies := s.bodies - {name}), name, UsernameOf(digest, s, name, t)), None)
  }

  function NotesBelow(digest: Digest, s: State, path: string, listed: seq<string>, t: Tools): set<string> {
    set name | name in listed && Below(path, name) :: NoteKey(digest, name, UsernameOf(digest, s, name, t))
  }

  /**
   What `pass rm -r -f path` deletes: the file of the entry with that name if there is
   one, and the folder with that name only if there is no such entry.
   */
  function Gone(s: State, path: string): set<string> {
    if path in s.bodies then {path} else set name | name in s.bodies && path + "/" <= name
  }

  /** `listed` is the listing taken before the removal. */
  function Prune(digest: Digest, s: State, path: string, listed: seq<string>, t: Tools): Outcome {
    if !ValidEntryName(path) then Outcome(s, Some(InvalidName))
    else if !t.remove then Outcome(s, Some(RemoveFailed))
    else Outcome(State(s.bodies - Gone(s, path), s.notes - NotesBelow(digest, s, path, listed, t)), None)
  }

  /** Saving an edited entry, then dropping the old note, or the old entry if it was renamed and the user agrees. */
  function Edit(digest: Digest, s: State, original: Entry, e: Entry, dropOld: bool, t: Tools): Outcome {
    var saved := Save(digest, s, e, t);
    if saved.failure.Some? then saved
    else if e.name == original.name then
      if e.username == original.username then saved
      else Outcome(WithoutNote(digest, saved.state, original.name, original.username), None)
    else if dropOld then Delete(digest, saved.state, original.name, t)
    else saved
  }

  /** One record of the old plaintext notes file; `None` stands for a value that is no string. */
  datatype Legacy = Legacy(name: string, text: Option<string>)

  function MigrateOne(digest: Digest, s: State, l: Legacy, t: Tools): State {
    if l.text.None? || l.text.value == "" then s
    else
      var r := Read(digest, s, l.name, t);
      if r.Err? || r.value.notes != "" then s
      else Save(digest, s, r.value.(notes := l.text.value), t).state
  }

  function Migrate(digest: Digest, s: State, records: seq<Legacy>, tools: string -> Tools): State
    decreases |records|
  {
    if records == [] then s
    else Migrate(digest, MigrateOne(digest, s, records[0], tools(records[0].name)), records[1..], tools)
  }

  // ---------------------------------------------------------------- the store itself

  class Store {
    const digest: Digest
    var bodies: map<string, string>
    var notes: map<string, string>

    constructor (digest: Digest)
      ensures Contents() == State(map[], map[]) && this.digest == digest
    {
      this.digest, bodies, notes := digest, map[], map[];
    }

    function Contents(): State
      reads this
    {
      State(bodies, notes)
    }

    method NotePath(name: string, username: string) returns (key: string)
      ensures key == NoteKey(digest, name, username)
    {
      var token := SanitizeNoteToken(Filename(name), "entry");
      var user := SanitizeNoteToken(username, "note");
      key := token + "-" + user + "-" + digest(name) + ".note";
    }

    method ReadEntry(name: string, t: Tools) returns (r: Result<Entry>)
      ensures r == Read(digest, Contents(), name, t)
    {
      if !ValidEntryName(name) {
        return Err(InvalidName);
      }
      if !t.show || name !in bodies {
        return Err(ShowFailed);
      }
      var entry := ParseEntry(name, bodies[name]);
      var key := NotePath(name, entry.username);
      if key in notes {
        if !t.decrypt {
          return Err(DecryptFailed);
        }
        entry := entry.(notes := notes[key]);
      }
      r := Ok(entry);
    }

    method DeleteNotes(name: string, username: string)
      modifies this
      ensures Contents() == WithoutNote(digest, old(Contents()), name, username)
    {
      var key := NotePath(name, username);
      if key in notes {
        notes := notes - {key};
      } else {
        assert notes - {key} == notes;
      }
    }

    method SaveEntry(e: Entry, t: Tools) returns (failure: Option<Failure>)
      modifies this
      ensures Outcome(Contents(), failure) == Save(digest, old(Contents()), e, t)
    {
      if !ValidEntryName(e.name) {
        return Some(InvalidName);
      }
      if e.password == "" {
        return Some(EmptyPassword);
      }
      if !t.insert {
        return Some(InsertFailed);
      }
      bodies := bodies[e.name := Serialize(e)];
      if e.notes == "" {
        DeleteNotes(e.name, e.username);
      } else {
        var key := NotePath(e.name, e.username);
        if !t.encrypt {
          return Some(EncryptFailed);
        }
        notes := notes[key := e.notes];
      }
      failure := None;
    }

    method DeleteEntry(name: string, t: Tools) returns (failure: Option<Failure>)
      modifies this
      ensures Outcome(Contents(), failure) == Delete(digest, old(Contents()), name, t)
    {
      if !ValidEntryName(name) {
        return Some(InvalidName);
      }
      var username := "";
      var r := ReadEntry(name, t);
      if r.Ok? {
        username := r.value.username;
      }
      if !t.remove || name !in bodies {
        return Some(RemoveFailed);
      }
      bodies := bodies - {name};
      DeleteNotes(name, username);
      failure := None;
    }

    /** The entries a recursive removal is expected to delete, each with the username its note is filed under. */
    method EntriesBelow(path: string, listed: seq<string>, t: Tools) returns (removed: seq<(string, string)>)
      ensures KeysOf(digest, removed) == NotesBelow(digest, Contents(), path, listed, t)
    {
      removed := [];
      var i := 0;
      while i < |listed|
        invariant 0 <= i <= |listed|
        invariant KeysOf(digest, removed) == NotesBelow(digest, Contents(), path, listed[..i], t)
      {
        var name := listed[i];
        NotesBelowSnoc(digest, Contents(), path, listed[..i], name, t);
        assert listed[..i + 1] == listed[..i] + [name];
        if Below(path, name) {
          var r := ReadEntry(name, t);
          var username := if r.Ok? then r.value.username else "";
          KeysOfSnoc(digest, removed, (name, username));
          removed := removed + [(name, username)];
        }
        i := i + 1;
      }
      assert listed[..i] == listed;
    }

    method DeleteTree(path: string, listed: seq<string>, t: Tools) returns (failure: Option<Failure>)
      modifies this
      ensures Outcome(Contents(), failure) == Prune(digest, old(Contents()), path, listed, t)
    {
      if !ValidEntryName(path) {
        return Some(InvalidName);
      }
      var removed := EntriesBelow(path, listed, t);
      if !t.remove {
        return Some(RemoveFailed);
      }
      bodies := bodies - Gone(Contents(), path);
      DropNotes(removed);
      failure := None;
    }

    method DropNotes(removed: seq<(string, string)>)
      modifies this
      ensures bodies == old(bodies) && notes == old(notes) - KeysOf(digest, removed)
    {
      assert notes - KeysOf(digest, removed[..0]) == notes;
      hide *;
      var j := 0;
      while j < |removed|
        invariant 0 <= j <= |removed|
        invariant bodies == old(bodies)
        invariant notes == old(notes) - KeysOf(digest, removed[..j])
      {
        assert removed[..j + 1] == removed[..j] + [removed[j]];
        KeysOfSnoc(digest, removed[..j], removed[j]);
        DeleteNotes(removed[j].0, removed[j].1);
        j := j + 1;
      }
      assert removed[..j] == removed;
    }

    method MigrateLegacyNotes(records: seq<Legacy>, tools: string -> Tools)
      modifies this
      ensures Contents() == Migrate(digest, old(Contents()), records, tools)
    {
      var i := 0;
      while i < |records|
        invariant 0 <= i <= |records|
        invariant Migrate(digest, Contents(), records[i..], tools) == Migrate(digest, old(Contents()), records, tools)
      {
        var l := records[i];
        ghost var before := Contents();
        assert records[i..][0] == l && records[i..][1..] == records[i + 1..];
        if l.text.Some? && l.text.value != "" && ValidEntryName(l.name) {
          var r := ReadEntry(l.name, tools(l.name));
          if r.Ok? && r.value.notes == "" {
            var _ := SaveEntry(r.value.(notes := l.text.value), tools(l.name));
          }
        }
        assert Contents() == MigrateOne(digest, before, l, tools(l.name));
        i := i + 1;
      }
    }
  }

  /** The end of the edit dialogue. */
  method EditEntry(store: Store, original: Entry, e: Entry, dropOld: bool, t: Tools) returns (failure: Option<Failure>)
    modifies store
    ensures Outcome(store.Contents(), failure) == Edit(store.digest, old(store.Contents()), original, e, dropOld, t)
  {
    failure := store.SaveEntry(e, t);
    if failure.Some? {
      return;
    }
    if e.name == original.name && e.username != original.username {
      store.DeleteNotes(original.name, original.username);
    }
    if e.name != original.name && dropOld {
      failure := store.DeleteEntry(original.name, t);
    }
  }

  ghost function KeysOf(digest: Digest, removed: seq<(string, string)>): set<string> {
    set i | 0 <= i < |removed| :: NoteKey(digest, removed[i].0, removed[i].1)
  }

  lemma KeysOfSnoc(digest: Digest, removed: seq<(string, string)>, last: (string, string))
    ensures KeysOf(digest, removed + [last]) == KeysOf(digest, removed) + {NoteKey(digest, last.0, last.1)}
  {
    var more := removed + [last];
    forall i | 0 <= i < |removed| ensures NoteKey(digest, removed[i].0, removed[i].1) in KeysOf(digest, more) {
      assert more[i] == removed[i];
    }
    assert more[|removed|] == last;
  }

  lemma NotesBelowSnoc(digest: Digest, s: State, path: string, listed: seq<string>, name: string, t: Tools)
    ensures NotesBelow(digest, s, path, listed + [name], t) == NotesBelow(digest, s, path, listed, t)
      + if Below(path, name) then {NoteKey(digest, name, UsernameOf(digest, s, name, t))} else {}
  {
    forall x | x in listed + [name] ensures x in listed || x == name {}
  }
}
