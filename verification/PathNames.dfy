/** Relative '/'-separated names as `std::filesystem::path` sees them. */
module PathNames {
  import opened Options
  import opened Text

  /** The pieces between slashes, as `std::getline` with '/' cuts them: no piece after a trailing slash. */
  function Pieces(s: string): (r: seq<string>)
    decreases |s|
  {
    if s == [] then []
    else match IndexOf(s, '/')
      case None => [s]
      case Some(slash) => [s[..slash]] + Pieces(s[slash + 1..])
  }

  function Filled(pieces: seq<string>): seq<string> {
    if pieces == [] then [] else (if pieces[0] == [] then [] else [pieces[0]]) + Filled(pieces[1..])
  }

  /** The components of a relative path: runs of slashes separate, they do not make empty components. */
  function Segments(s: string): seq<string> { Filled(Pieces(s)) }

  function Joined(segments: seq<string>): string {
    if segments == [] then []
    else if |segments| == 1 then segments[0]
    else segments[0] + "/" + Joined(segments[1..])
  }

  ghost predicate Components(segments: seq<string>) {
    forall i :: 0 <= i < |segments| ==> segments[i] != [] && '/' !in segments[i]
  }

  /** `path.parent_path().generic_string()`, empty when there is no parent. */
  function ParentFolder(name: string): string {
    var s := Segments(name);
    if s == [] then [] else Joined(s[..|s| - 1])
  }

  /** `path.filename()`: what follows the last slash. */
  function Filename(name: string): string {
    match LastIndexOf(name, '/')
    case None => name
    case Some(slash) => name[slash + 1..]
  }

  /** The name itself, or something in the folder of that name. */
  predicate Below(path: string, name: string) { name == path || path + "/" <= name }

  lemma {:induction false} PiecesOfJoin(a: string, b: string)
    requires '/' !in a && b != []
    ensures Pieces(a + "/" + b) == [a] + Pieces(b)
  {
    IndexOfIs(a, '/', b);
    var s := a + ['/'] + b;
    assert s[..|a|] == a && s[|a| + 1..] == b;
  }

  lemma {:induction false} JoinedIsEmpty(segments: seq<string>)
    requires Components(segments)
    ensures Joined(segments) == [] <==> segments == []
    ensures segments != [] ==> Joined(segments)[0] != '/' && Joined(segments)[|Joined(segments)| - 1] != '/'
  {
    if |segments| > 1 {
      JoinedIsEmpty(segments[1..]);
      assert Joined(segments)[0] == segments[0][0];
      assert Joined(segments)[|Joined(segments)| - 1] == Joined(segments[1..])[|Joined(segments[1..])| - 1];
    }
  }

  lemma {:induction false} FilledKeeps(segments: seq<string>)
    requires Components(segments)
    ensures Filled(segments) == segments
  {
    if segments != [] {
      FilledKeeps(segments[1..]);
      assert segments == [segments[0]] + segments[1..];
    }
  }

  lemma {:induction false} PiecesOfJoined(segments: seq<string>)
    requires Components(segments)
    ensures Pieces(Joined(segments)) == segments
  {
    if |segments| == 1 {
      assert IndexOf(segments[0], '/').None?;
    } else if |segments| > 1 {
      PiecesOfJoined(segments[1..]);
      JoinedIsEmpty(segments[1..]);
      PiecesOfJoin(segments[0], Joined(segments[1..]));
      assert segments == [segments[0]] + segments[1..];
    }
  }

  /** Joining components and taking the path apart again are inverse. */
  lemma SegmentsOfJoined(segments: seq<string>)
    requires Components(segments)
    ensures Segments(Joined(segments)) == segments
  {
    PiecesOfJoined(segments);
    FilledKeeps(segments);
  }

  lemma {:induction false} PiecesHaveNoSlash(s: string)
    ensures forall i :: 0 <= i < |Pieces(s)| ==> '/' !in Pieces(s)[i]
    decreases |s|
  {
    var slash := IndexOf(s, '/');
    if s != [] && slash.Some? { PiecesHaveNoSlash(s[slash.value + 1..]); }
  }

  lemma {:induction false} FilledAreComponents(pieces: seq<string>)
    requires forall i :: 0 <= i < |pieces| ==> '/' !in pieces[i]
    ensures Components(Filled(pieces))
  {
    if pieces != [] { FilledAreComponents(pieces[1..]); }
  }

  lemma SegmentsAreComponents(s: string)
    ensures Components(Segments(s))
  {
    PiecesHaveNoSlash(s);
    FilledAreComponents(Pieces(s));
  }

  lemma {:induction false} JoinedSnoc(segments: seq<string>, last: string)
    ensures Joined(segments + [last]) == if segments == [] then last else Joined(segments) + "/" + last
  {
    if segments != [] {
      JoinedSnoc(segments[1..], last);
      assert (segments + [last])[1..] == segments[1..] + [last];
    }
  }

  /** A folder of proper components and a leaf below it are recovered from the joined name. */
  lemma NameParts(folder: seq<string>, leaf: string)
    requires Components(folder) && leaf != [] && '/' !in leaf
    ensures var name := Joined(folder + [leaf]);
      Segments(name) == folder + [leaf] && ParentFolder(name) == Joined(folder) && Filename(name) == leaf
  {
    var name := Joined(folder + [leaf]);
    SegmentsOfJoined(folder + [leaf]);
    JoinedSnoc(folder, leaf);
    assert (folder + [leaf])[..|folder|] == folder;
    if folder != [] {
      LastIndexOfIs(Joined(folder), '/', leaf);
      assert name == Joined(folder) + ['/'] + leaf;
      assert name[|Joined(folder)| + 1..] == leaf;
    }
  }

  /** A name written without leading, trailing or doubled slashes. */
  predicate CleanPath(s: string) { Joined(Segments(s)) == s }

  lemma {:induction false} JoinedLength(pieces: seq<string>)
    ensures |Joined(Filled(pieces))| <= |Joined(pieces)|
    ensures Filled(pieces) == [] || pieces != []
  {
    if |pieces| > 1 {
      JoinedLength(pieces[1..]);
      var rest := Filled(pieces[1..]);
      if pieces[0] == [] {
        assert Filled(pieces) == rest;
      } else {
        assert Filled(pieces)[1..] == rest;
      }
    }
  }

  lemma {:induction false} PiecesLength(s: string)
    ensures |Joined(Pieces(s))| <= |s|
    decreases |s|
  {
    var slash := IndexOf(s, '/');
    if s != [] && slash.Some? {
      PiecesLength(s[slash.value + 1..]);
      assert Pieces(s)[1..] == Pieces(s[slash.value + 1..]);
    }
  }

  lemma CleaningShortens(s: string)
    ensures |Joined(Segments(s))| <= |s|
  {
    PiecesLength(s);
    JoinedLength(Pieces(s));
  }

  // ---------------------------------------------------------------- accepted names

  predicate IsControl(c: char) { (c as int) < 32 || c as int == 127 }

  predicate Visible(s: string) { forall i :: 0 <= i < |s| ==> !IsControl(s[i]) }

  predicate ValidPiece(piece: string) {
    piece != [] && piece != "." && piece != ".." && Visible(piece)
  }

  predicate ValidPieces(s: string) { forall i :: 0 <= i < |Pieces(s)| ==> ValidPiece(Pieces(s)[i]) }

  /** The store's check on every entry name it is given. */
  predicate ValidEntryName(name: string) {
    name != [] && name[0] != '/' && name[|name| - 1] != '/' && ValidPieces(name)
  }

  lemma {:induction false} PiecesOfLeaf(folder: string, leaf: string)
    requires leaf != [] && '/' !in leaf
    requires folder != [] && folder[|folder| - 1] != '/'
    ensures Pieces(folder + "/" + leaf) == Pieces(folder) + [leaf]
    decreases |folder|
  {
    match IndexOf(folder, '/') {
      case None =>
        assert IndexOf(leaf, '/').None?;
        PiecesOfJoin(folder, leaf);
      case Some(slash) =>
        PiecesOfLeaf(folder[slash + 1..], leaf);
        PiecesOfLeafStep(folder, slash, leaf);
    }
  }

  lemma PiecesOfLeafStep(folder: string, slash: nat, leaf: string)
    requires IndexOf(folder, '/') == Some(slash)
    requires Pieces(folder[slash + 1..] + "/" + leaf) == Pieces(folder[slash + 1..]) + [leaf]
    ensures Pieces(folder + "/" + leaf) == Pieces(folder) + [leaf]
  {
    hide Pieces, IndexOf;
    var first, rest := folder[..slash], folder[slash + 1..];
    var below := rest + "/" + leaf;
    PiecesAtSlash(folder, slash);
    SlashAt(folder, slash, leaf);
    PiecesOfJoin(first, below);
    assert [first] + (Pieces(rest) + [leaf]) == ([first] + Pieces(rest)) + [leaf];
  }

  lemma PiecesAtSlash(s: string, slash: nat)
    requires IndexOf(s, '/') == Some(slash)
    ensures Pieces(s) == [s[..slash]] + Pieces(s[slash + 1..])
  {
  }

  lemma SlashAt(folder: string, slash: nat, leaf: string)
    requires slash < |folder| && folder[slash] == '/'
    ensures folder + "/" + leaf == folder[..slash] + "/" + (folder[slash + 1..] + "/" + leaf)
  {
  }

  /** Valid names are clean paths, so their components are exactly their pieces. */
  lemma ValidNamesAreClean(name: string)
    requires ValidEntryName(name)
    ensures CleanPath(name) && Segments(name) == Pieces(name)
  {
    PiecesHaveNoSlash(name);
    FilledKeeps(Pieces(name));
    JoinedPieces(name);
  }

  lemma {:induction false} JoinedPieces(s: string)
    requires s == [] || s[|s| - 1] != '/'
    ensures Joined(Pieces(s)) == s
    decreases |s|
  {
    if s != [] {
      var slash := IndexOf(s, '/');
      if slash.Some? {
        var rest := s[slash.value + 1..];
        JoinedPieces(rest);
        assert s == s[..slash.value] + "/" + rest;
        assert rest != [] && Pieces(rest) != [];
        assert Pieces(s)[1..] == Pieces(rest);
      }
    }
  }

  /** No name of a directory entry that means another directory, and no control characters. */
  ghost predicate PlainComponents(parts: seq<string>) {
    && Components(parts)
    && forall i :: 0 <= i < |parts| ==>
         && parts[i] != "." && parts[i] != ".."
         && forall k :: 0 <= k < |parts[i]| ==> ' ' <= parts[i][k] && parts[i][k] as int != 127
  }

  /**
   Which names the store accepts: exactly those that are one or more plain components, joined
   by single slashes. So no accepted name leads out of the store's directory.
   */
  lemma ValidNamesExactly(name: string)
    ensures ValidEntryName(name) <==> exists parts: seq<string> :: parts != [] && PlainComponents(parts) && name == Joined(parts)
  {
    if ValidEntryName(name) {
      PiecesHaveNoSlash(name);
      JoinedPieces(name);
      assert PlainComponents(Pieces(name));
    }
    if parts: seq<string> :| parts != [] && PlainComponents(parts) && name == Joined(parts) {
      PiecesOfJoined(parts);
      JoinedIsEmpty(parts);
    }
  }
}
