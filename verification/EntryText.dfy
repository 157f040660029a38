/** The plain text of one password entry: the password on the first line, then labelled fields. */
module EntryText {
  import opened Options
  import opened Text

  datatype Entry = Entry(name: string, password: string, username: string, url: string, notes: string)

  const USERNAME := "username: "
  const URL := "url: "

  function Labelled(tag: string, value: string): string {
    if value == "" then "" else tag + value + "\n"
  }

  function Serialize(e: Entry): string {
    e.password + "\n" + Labelled(USERNAME, e.username) + Labelled(URL, e.url)
  }

  datatype Reading = Reading(username: string, url: string, notes: string, inNotes: bool)

  const BLANK := Reading("", "", "", false)

  function Feed(r: Reading, line: string): Reading {
    if r.inNotes then r.(notes := if r.notes == "" then line else r.notes + "\n" + line)
    else if USERNAME <= line then r.(username := line[10..])
    else if URL <= line then r.(url := line[5..])
    else if line == "notes:" then r.(inNotes := true)
    else r
  }

  function FeedAll(r: Reading, lines: seq<string>): Reading
    decreases |lines|
  {
    if lines == [] then r else FeedAll(Feed(r, lines[0]), lines[1..])
  }

  lemma FeedNext(r: Reading, lines: seq<string>, i: nat)
    requires i < |lines|
    ensures FeedAll(r, lines[i..]) == FeedAll(Feed(r, lines[i]), lines[i + 1..])
  {
    assert lines[i..][1..] == lines[i + 1..];
  }

  function Parsed(name: string, raw: string): Entry {
    var lines := LinesOf(raw);
    if lines == [] then Entry(name, "", "", "", "")
    else
      var r := FeedAll(BLANK, lines[1..]);
      Entry(name, lines[0], r.username, r.url, r.notes)
  }

  method ParseEntry(name: string, raw: string) returns (entry: Entry)
    ensures entry == Parsed(name, raw)
  {
    var lines := LinesOf(raw);
    if lines == [] {
      return Entry(name, "", "", "", "");
    }
    var username, url, notes, inNotes := "", "", "", false;
    var i := 1;
    while i < |lines|
      invariant 1 <= i <= |lines|
      invariant FeedAll(Reading(username, url, notes, inNotes), lines[i..]) == FeedAll(BLANK, lines[1..])
    {
      var line := lines[i];
      ghost var before := Reading(username, url, notes, inNotes);
      FeedNext(before, lines, i);
      assert |USERNAME| == 10 && |URL| == 5;
      hide FeedAll, LinesOf, USERNAME, URL;
      if inNotes {
        if notes != "" {
          notes := notes + "\n";
        }
        notes := notes + line;
      } else if USERNAME <= line {
        username := line[10..];
      } else if URL <= line {
        url := line[5..];
      } else if line == "notes:" {
        inNotes := true;
      }
      assert Reading(username, url, notes, inNotes) == Feed(before, line);
      i := i + 1;
    }
    entry := Entry(name, lines[0], username, url, notes);
  }

  // ---- reading back what was written

  predicate OneLine(s: string) { '\n' !in s }

  predicate OneLineFields(e: Entry) { OneLine(e.password) && OneLine(e.username) && OneLine(e.url) }

  function LabelledLine(tag: string, value: string): seq<string> {
    if value == "" then [] else [tag + value]
  }

  lemma LinesOfLabelled(tag: string, value: string, rest: string)
    requires OneLine(tag) && OneLine(value)
    ensures LinesOf(Labelled(tag, value) + rest) == LabelledLine(tag, value) + LinesOf(rest)
  {
    if value == "" {
      assert Labelled(tag, value) + rest == rest;
    } else {
      LinesOfLine(tag + value, rest);
      assert Labelled(tag, value) + rest == (tag + value) + "\n" + rest;
    }
  }

  lemma LinesOfSerialized(e: Entry)
    requires OneLineFields(e)
    ensures LinesOf(Serialize(e)) == [e.password] + (LabelledLine(USERNAME, e.username) + LabelledLine(URL, e.url))
  {
    var url := Labelled(URL, e.url);
    var tail := Labelled(USERNAME, e.username) + url;
    assert Serialize(e) == e.password + "\n" + tail;
    LinesOfLine(e.password, tail);
    LinesOfFields(e);
  }

  lemma LinesOfFields(e: Entry)
    requires OneLineFields(e)
    ensures LinesOf(Labelled(USERNAME, e.username) + Labelled(URL, e.url))
         == LabelledLine(USERNAME, e.username) + LabelledLine(URL, e.url)
  {
    var url := Labelled(URL, e.url);
    LinesOfLabelled(USERNAME, e.username, url);
    LinesOfLabelled(URL, e.url, "");
    assert url + "" == url;
    assert LabelledLine(URL, e.url) + [] == LabelledLine(URL, e.url);
  }

  lemma {:induction false} FeedAllConcat(r: Reading, a: seq<string>, b: seq<string>)
    ensures FeedAll(r, a + b) == FeedAll(FeedAll(r, a), b)
    decreases |a|
  {
    if a == [] {
      assert a + b == b;
    } else {
      FeedAllConcat(Feed(r, a[0]), a[1..], b);
      assert (a + b)[1..] == a[1..] + b;
    }
  }

  lemma FeedUsername(r: Reading, username: string)
    requires !r.inNotes && r.username == ""
    ensures FeedAll(r, LabelledLine(USERNAME, username)) == r.(username := username)
  {
    var line := USERNAME + username;
    assert line[10..] == username;
    assert username != "" ==> FeedAll(r, [line]) == FeedAll(Feed(r, line), []);
  }

  lemma FeedUrl(r: Reading, url: string)
    requires !r.inNotes && r.url == ""
    ensures FeedAll(r, LabelledLine(URL, url)) == r.(url := url)
  {
    var line := URL + url;
    assert line[5..] == url && line[0] == 'u' && line[1] == 'r';
    assert USERNAME[1] == 's';
    assert !(USERNAME <= line);
    assert url != "" ==> FeedAll(r, [line]) == FeedAll(Feed(r, line), []);
  }

  lemma FieldsAreFed(username: string, url: string)
    ensures FeedAll(BLANK, LabelledLine(USERNAME, username) + LabelledLine(URL, url)) == BLANK.(username := username, url := url)
  {
    FeedAllConcat(BLANK, LabelledLine(USERNAME, username), LabelledLine(URL, url));
    FeedUsername(BLANK, username);
    FeedUrl(BLANK.(username := username), url);
  }

  lemma {:induction false} FieldsReadAreLines(r: Reading, lines: seq<string>)
    requires OneLine(r.username) && OneLine(r.url)
    requires forall i :: 0 <= i < |lines| ==> OneLine(lines[i])
    ensures OneLine(FeedAll(r, lines).username) && OneLine(FeedAll(r, lines).url)
    decreases |lines|
  {
    if lines != [] { FieldsReadAreLines(Feed(r, lines[0]), lines[1..]); }
  }

  lemma ParsedFieldsAreLines(name: string, raw: string)
    ensures OneLineFields(Parsed(name, raw))
  {
    LinesHaveNoNewline(raw);
    var lines := LinesOf(raw);
    if lines != [] { FieldsReadAreLines(BLANK, lines[1..]); }
  }

  /** Reading the text back yields the entry, without its notes, exactly if no field spans lines. */
  lemma ParseUndoesSerialize(e: Entry)
    ensures Parsed(e.name, Serialize(e)) == e.(notes := "") <==> OneLineFields(e)
  {
    ParsedFieldsAreLines(e.name, Serialize(e));
    if OneLineFields(e) {
      LinesOfSerialized(e);
      var user, url := LabelledLine(USERNAME, e.username), LabelledLine(URL, e.url);
      var lines := [e.password] + (user + url);
      assert lines[1..] == user + url;
      FieldsAreFed(e.username, e.url);
    }
  }

  // ---- notes kept in the text itself, as entries used to have them

  /** Lines one below the other, without empty ones in front. */
  function NoteLines(lines: seq<string>): string
    decreases |lines|
  {
    if lines == [] then ""
    else if NoteLines(lines[..|lines| - 1]) == "" then lines[|lines| - 1]
    else NoteLines(lines[..|lines| - 1]) + "\n" + lines[|lines| - 1]
  }

  lemma {:induction false} NotesAreFed(r: Reading, lines: seq<string>)
    requires r.inNotes && r.notes == ""
    ensures FeedAll(r, lines) == r.(notes := NoteLines(lines))
    decreases |lines|
  {
    if lines != [] {
      var init, last := lines[..|lines| - 1], [lines[|lines| - 1]];
      NotesAreFed(r, init);
      FeedAllConcat(r, init, last);
      assert lines == init + last && last[1..] == [];
      assert FeedAll(r.(notes := NoteLines(init)), last) == FeedAll(Feed(r.(notes := NoteLines(init)), last[0]), last[1..]);
    }
  }

  function Unlines(lines: seq<string>): string {
    if lines == [] then "" else lines[0] + "\n" + Unlines(lines[1..])
  }

  lemma {:induction false} LinesOfUnlines(lines: seq<string>)
    requires forall i :: 0 <= i < |lines| ==> OneLine(lines[i])
    ensures LinesOf(Unlines(lines)) == lines
  {
    if lines != [] {
      LinesOfUnlines(lines[1..]);
      LinesOfLine(lines[0], Unlines(lines[1..]));
      assert lines == [lines[0]] + lines[1..];
    }
  }

  /** A line of the fields means what its label says, the last one counting; a line without a label is passed over. */
  lemma FieldLines(r: Reading, value: string, other: string)
    requires !r.inNotes
    requires !("username: " <= other) && !("url: " <= other) && other != "notes:"
    ensures Feed(r, "username: " + value) == r.(username := value)
    ensures Feed(r, "url: " + value) == r.(url := value)
    ensures Feed(r, other) == r
    ensures Feed(r, "notes:") == r.(inNotes := true)
  {
    var user, url := "username: " + value, "url: " + value;
    assert user[10..] == value && url[5..] == value;
    assert url[0] == 'u' && url[1] == 'r' && user[1] == 's';
    assert !(USERNAME <= url);
    assert "notes:"[0] == 'n';
  }

  lemma OldNotesAreFed(r: Reading, lines: seq<string>)
    requires !r.inNotes && r.notes == ""
    ensures FeedAll(r, ["notes:"] + lines) == r.(inNotes := true, notes := NoteLines(lines))
  {
    FieldLines(r, "", "");
    NotesAreFed(r.(inNotes := true), lines);
    hide Feed, NoteLines;
    assert (["notes:"] + lines)[1..] == lines;
  }

  lemma OldNotesLines(e: Entry, lines: seq<string>)
    requires OneLineFields(e) && forall i :: 0 <= i < |lines| ==> OneLine(lines[i])
    ensures LinesOf(Serialize(e) + ("notes:" + "\n" + Unlines(lines))) ==
      [e.password] + ((LabelledLine(USERNAME, e.username) + LabelledLine(URL, e.url)) + (["notes:"] + lines))
  {
    assert '\n' !in "notes:";
    hide LinesOf, Serialize, LabelledLine, Unlines, USERNAME, URL;
    LinesOfUnlines(lines);
    LinesOfLine("notes:", Unlines(lines));
    SerializedLines(e, "notes:" + "\n" + Unlines(lines));
  }

  /** Whatever follows a line "notes:" is the entry's notes, labels or not. */
  lemma OldNotesAreRead(e: Entry, lines: seq<string>)
    requires OneLineFields(e) && forall i :: 0 <= i < |lines| ==> OneLine(lines[i])
    ensures Parsed(e.name, Serialize(e) + ("notes:" + "\n" + Unlines(lines))) == e.(notes := NoteLines(lines))
  {
    var fields := LabelledLine(USERNAME, e.username) + LabelledLine(URL, e.url);
    OldNotesLines(e, lines);
    FieldsAreFed(e.username, e.url);
    FeedAllConcat(BLANK, fields, ["notes:"] + lines);
    OldNotesAreFed(BLANK.(username := e.username, url := e.url), lines);
    hide LinesOf, LabelledLine, Serialize, FeedAll, NoteLines, Unlines, USERNAME, URL;
    assert ([e.password] + (fields + (["notes:"] + lines)))[1..] == fields + (["notes:"] + lines);
  }

  lemma SerializedLines(e: Entry, rest: string)
    requires OneLineFields(e)
    ensures LinesOf(Serialize(e) + rest) == [e.password] + ((LabelledLine(USERNAME, e.username) + LabelledLine(URL, e.url)) + LinesOf(rest))
  {
    var user, url := Labelled(USERNAME, e.username), Labelled(URL, e.url);
    assert OneLine(USERNAME) && OneLine(URL);
    SerializedText(e, rest);
    hide LinesOf, Labelled, LabelledLine, Serialize, USERNAME, URL;
    LinesOfLabelled(URL, e.url, rest);
    LinesOfLabelled(USERNAME, e.username, url + rest);
    LinesOfLine(e.password, user + (url + rest));
  }

  lemma SerializedText(e: Entry, rest: string)
    ensures Serialize(e) + rest == e.password + "\n" + (Labelled(USERNAME, e.username) + (Labelled(URL, e.url) + rest))
  {
    hide Labelled;
  }
}
