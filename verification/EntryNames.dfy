/**
 Entry names. The combo form prints seven fields into one path-safe name,
 `folder/[account]@[site]`; the list view and the edit form read it back. Three layers
 have to undo each other: the field values, the escaping, and the bracketed tokens.
 */
module EntryNames {
  import opened Options
  import opened Text
  import opened PathNames
  import opened PercentCodec
  import opened ComboFields

  // ---------------------------------------------------------------- tokens

  predicate IsWrapped(s: string) { |s| >= 2 && s[0] == '[' && s[|s| - 1] == ']' }

  function Wrap(s: string): string { "[" + s + "]" }

  function Unwrap(s: string): string { if IsWrapped(s) then s[1..|s| - 1] else s }

  function UnwrapToken(s: string): string { DecodedByPasses(Unwrap(s)) }

  predicate IsSimpleChar(c: char) {
    'A' <= c <= 'Z' || 'a' <= c <= 'z' || '0' <= c <= '9' || c == '.' || c == '_' || c == '-'
  }

  predicate IsSimpleToken(s: string) { s != [] && forall i :: 0 <= i < |s| ==> IsSimpleChar(s[i]) }

  function FormatToken(s: string): string {
    var t := Trim(s);
    if t == [] || IsWrapped(t) || IsSimpleToken(t) then t else Wrap(t)
  }

  function NormalizeFolder(folder: string): string { StripSlashes(Trim(folder)) }

  function StripSlashes(s: string): string {
    if s == [] then [] else if s[0] == '/' then StripSlashes(s[1..]) else StripTail(s)
  }

  function StripTail(s: string): string {
    if s == [] then [] else if s[|s| - 1] == '/' then StripTail(s[..|s| - 1]) else s
  }

  function JoinEntryName(folder: string, name: string): string {
    if folder == [] then name else folder + "/" + name
  }

  function BuildEntryName(folder: string, account: string, site: string): string {
    var a, s := FormatToken(Encoded(account)), FormatToken(Encoded(site));
    if a == [] || s == [] then [] else JoinEntryName(NormalizeFolder(folder), a + "@" + s)
  }

  // ---------------------------------------------------------------- the separating '@'

  function NextDepth(depth: nat, c: char): nat {
    if c == '[' then depth + 1 else if c == ']' && depth > 0 then depth - 1 else depth
  }

  function DepthAfter(s: string, depth: nat): nat {
    if s == [] then depth else DepthAfter(s[1..], NextDepth(depth, s[0]))
  }

  /** The last '@' outside all brackets, reading on at a given bracket depth. */
  function TopLevelAt(s: string, depth: nat): (r: Option<nat>)
    ensures r.Some? ==> r.value < |s| && s[r.value] == '@'
  {
    if s == [] then None
    else
      var rest := TopLevelAt(s[1..], NextDepth(depth, s[0]));
      if rest.Some? then Some(rest.value + 1)
      else if s[0] == '@' && depth == 0 then Some(0) else None
  }

  method FindTopLevelAt(leaf: string) returns (split: Option<nat>)
    ensures split == TopLevelAt(leaf, 0)
  {
    var depth: nat := 0;
    split := None;
    for i := 0 to |leaf|
      invariant var rest := TopLevelAt(leaf[i..], depth);
        TopLevelAt(leaf, 0) == if rest.Some? then Some(rest.value + i) else split
    {
      var current := leaf[i];
      ghost var rest := TopLevelAt(leaf[i..], depth);
      assert leaf[i..][1..] == leaf[i + 1..];
      if current == '[' {
        depth := depth + 1;
      } else if current == ']' {
        depth := if depth > 0 then depth - 1 else 0;
      } else if current == '@' && depth == 0 {
        split := Some(i);
      }
    }
  }

  lemma {:induction false} TopLevelAtConcat(a: string, b: string, depth: nat)
    ensures DepthAfter(a + b, depth) == DepthAfter(b, DepthAfter(a, depth))
    ensures var rest := TopLevelAt(b, DepthAfter(a, depth));
      TopLevelAt(a + b, depth) == if rest.Some? then Some(rest.value + |a|) else TopLevelAt(a, depth)
  {
    if a == [] {
      assert a + b == b;
    } else {
      hide NextDepth;
      TopLevelAtConcat(a[1..], b, NextDepth(depth, a[0]));
      assert (a + b)[0] == a[0] && (a + b)[1..] == a[1..] + b;
    }
  }

  /** The same separator, before and after escaping. */
  ghost predicate SameSeparator(s: string, plain: Option<nat>, escaped: Option<nat>) {
    match plain
    case None => escaped.None?
    case Some(k) => && escaped.Some? && k < |s| && escaped.value < |Encoded(s)|
                    && Encoded(s)[..escaped.value] == Encoded(s[..k])
                    && Encoded(s)[escaped.value + 1..] == Encoded(s[k + 1..])
  }

  /** Escaping touches neither brackets nor '@', so it moves the separator but does not change which one it is. */
  lemma {:induction false} EscapingKeepsSeparator(s: string, depth: nat)
    ensures SameSeparator(s, TopLevelAt(s, depth), TopLevelAt(Encoded(s), depth))
  {
    if s != [] {
      var code, next := Code(s[0]), NextDepth(depth, s[0]);
      EscapingKeepsSeparator(s[1..], next);
      EncodedCons(s);
      CodeHasNoSeparator(s[0], depth);
      TopLevelAtConcat(code, Encoded(s[1..]), depth);
      var rest, escaped := TopLevelAt(s[1..], next), TopLevelAt(Encoded(s[1..]), next);
      assert rest.Some? <==> escaped.Some?;
      hide Encoded, EncodedOnly, Code, SameSeparator, DepthAfter, NextDepth;
      if rest.Some? {
        SeparatorAfter(s, rest.value, escaped.value);
      } else if s[0] == '@' && depth == 0 {
        SeparatorFirst(s);
      } else {
        NoSeparator(s);
      }
    }
  }

  lemma NoSeparator(s: string)
    ensures SameSeparator(s, None, None)
  {
  }

  lemma SeparatorFirst(s: string)
    requires s != [] && s[0] == '@'
    ensures SameSeparator(s, Some(0), Some(0))
  {
    EncodedCons(s);
    assert Code('@') == "@";
    hide EncodedOnly;
    assert s[..0] == [] && Encoded(s)[..0] == [] && Encoded(s)[1..] == Encoded(s[1..]);
    EncodedEmpty();
  }

  lemma EncodedEmpty()
    ensures Encoded("") == ""
  {
  }

  lemma SeparatorAfter(s: string, k: nat, e: nat)
    requires s != [] && SameSeparator(s[1..], Some(k), Some(e))
    ensures SameSeparator(s, Some(k + 1), Some(e + |Code(s[0])|))
  {
    EncodedCons(s);
    EncodedCons(s[..k + 1]);
    assert s[..k + 1][1..] == s[1..][..k] && s[k + 2..] == s[1..][k + 1..];
    ConcatSlices(Code(s[0]), Encoded(s[1..]), e);
  }

  lemma ConcatSlices(a: string, b: string, k: nat)
    requires k < |b|
    ensures (a + b)[..|a| + k] == a + b[..k] && (a + b)[|a| + k + 1..] == b[k + 1..]
  {
  }

  lemma EncodedCons(s: string)
    requires s != []
    ensures Encoded(s) == Code(s[0]) + Encoded(s[1..])
  {
  }

  lemma CodeHasNoSeparator(c: char, depth: nat)
    ensures DepthAfter(Code(c), depth) == NextDepth(depth, c)
    ensures TopLevelAt(Code(c), depth) == if c == '@' && depth == 0 then Some(0) else None
  {
    if IsSpecial(c) {
      var t1, t2 := Code(c)[1..], Code(c)[2..];
      assert t1[1..] == t2 && t2[1..] == [];
      assert DepthAfter(t2, depth) == depth && TopLevelAt(t2, depth).None?;
      assert DepthAfter(t1, depth) == depth && TopLevelAt(t1, depth).None?;
    } else {
      assert [c][1..] == [];
    }
  }

  lemma EncodedUnwraps(s: string)
    ensures UnwrapToken(Encoded(s)) == Unwrap(s)
  {
    EncodedWraps(s);
    if IsWrapped(s) {
      var inner := s[1..|s| - 1];
      assert Wrap(Encoded(inner))[1..|Encoded(inner)| + 1] == Encoded(inner);
      DecodeUndoesEncode(inner);
    } else {
      DecodeUndoesEncode(s);
    }
  }

  lemma EncodedOfWrap(inner: string)
    ensures Encoded(Wrap(inner)) == Wrap(Encoded(inner))
  {
    EncodedConcat("[" + inner, "]");
    EncodedConcat("[", inner);
    EncodedOfOne('[');
    EncodedOfOne(']');
  }

  lemma EncodedOfOne(c: char)
    ensures Encoded([c]) == Code(c)
  {
    EncodedCons([c]);
    assert [c][1..] == [] && Encoded([]) == [];
  }

  lemma EncodedWraps(s: string)
    ensures IsWrapped(s) ==> Encoded(s) == Wrap(Encoded(s[1..|s| - 1]))
    ensures IsWrapped(Encoded(s)) ==> IsWrapped(s)
  {
    if IsWrapped(s) {
      assert s == Wrap(s[1..|s| - 1]);
      EncodedOfWrap(s[1..|s| - 1]);
    } else if s != [] {
      EncodedCons(s);
      var init, last := s[..|s| - 1], s[|s| - 1];
      assert s == init + [last];
      EncodedConcat(init, [last]);
      EncodedOfOne(last);
      assert Encoded(s)[|Encoded(s)| - 1] == Code(last)[|Code(last)| - 1];
      if |s| == 1 { assert s == [s[0]]; EncodedOfOne(s[0]); }
    }
  }

  // ---------------------------------------------------------------- reading a name

  datatype EntryView = EntryView(fullName: string, folder: string, leaf: string, account: string, site: string)

  function DescribeEntry(name: string): EntryView {
    var parent := ParentFolder(name);
    var folder, leaf := if parent == [] then "/" else parent, Filename(name);
    match TopLevelAt(leaf, 0)
    case None => EntryView(name, folder, leaf, UnwrapToken(leaf), "")
    case Some(at) => EntryView(name, folder, leaf, UnwrapToken(leaf[..at]), UnwrapToken(leaf[at + 1..]))
  }

  datatype Parts = Parts(account: string, site: string)

  /** The two halves as they would be read from a leaf that needed no escaping. */
  function PlainParts(leaf: string): Parts {
    match TopLevelAt(leaf, 0)
    case None => Parts(Unwrap(leaf), "")
    case Some(at) => Parts(Unwrap(leaf[..at]), Unwrap(leaf[at + 1..]))
  }

  /** Reading an escaped leaf is reading the plain one: the escaping layer is invisible from outside. */
  lemma EscapedLeafReadsPlain(leaf: string)
    ensures var e := Encoded(leaf); match TopLevelAt(e, 0)
      case None => PlainParts(leaf) == Parts(UnwrapToken(e), "")
      case Some(at) => PlainParts(leaf) == Parts(UnwrapToken(e[..at]), UnwrapToken(e[at + 1..]))
  {
    EscapingKeepsSeparator(leaf, 0);
    hide Encoded, TopLevelAt, Unwrap, UnwrapToken;
    var plain, escaped := TopLevelAt(leaf, 0), TopLevelAt(Encoded(leaf), 0);
    if plain.None? {
      EncodedUnwraps(leaf);
    } else {
      HalvesUnwrap(leaf, plain.value, escaped.value);
    }
  }

  lemma HalvesUnwrap(leaf: string, k: nat, at: nat)
    requires SameSeparator(leaf, Some(k), Some(at))
    ensures UnwrapToken(Encoded(leaf)[..at]) == Unwrap(leaf[..k])
    ensures UnwrapToken(Encoded(leaf)[at + 1..]) == Unwrap(leaf[k + 1..])
  {
    hide Encoded, Unwrap, UnwrapToken;
    EncodedUnwraps(leaf[..k]);
    EncodedUnwraps(leaf[k + 1..]);
  }

  // ---------------------------------------------------------------- the combo form

  datatype Combo = Combo(folder: string, account: Account, site: Site)

  /** The name the form builds; it always wraps both values before handing them on. */
  function ComboName(c: Combo): string {
    BuildEntryName(c.folder, Wrap(BuildAccount(c.account)), Wrap(BuildSite(c.site)))
  }

  /** What the edit form shows for an entry. */
  function ComboDefaults(name: string, username: string, url: string): Combo {
    var view := DescribeEntry(name);
    Combo(ParentFolder(name),
          SplitAccount(if view.account != [] then view.account else username),
          SplitSite(if view.site == [] then url else view.site))
  }

  /** Reading back the entry the form saved: its name, and the two values stored beside it. */
  function ReadBack(c: Combo): Combo {
    ComboDefaults(ComboName(c), BuildAccount(c.account), BuildSite(c.site))
  }

  function PlainLeaf(account: string, site: string): string { Wrap(account) + "@" + Wrap(site) }

  /** The brackets leave the separator, and nothing after it, at the top level. */
  predicate SeparatorStandsOut(account: string, site: string) {
    DepthAfter(Wrap(account), 0) == 0 && TopLevelAt(Wrap(site), 0).None?
  }

  /** Values without brackets always leave the separator standing out. */
  lemma PlainValuesStandOut(account: string, site: string)
    requires NoBrackets(account) && NoBrackets(site)
    ensures SeparatorStandsOut(account, site)
  {
    InsideBrackets(account);
    InsideBrackets(site);
  }

  predicate NoBrackets(s: string) { '[' !in s && ']' !in s }

  lemma InsideBrackets(s: string)
    requires NoBrackets(s)
    ensures DepthAfter(Wrap(s), 0) == 0 && TopLevelAt(Wrap(s), 0).None?
  {
    NestedStaysNested(s);
    var rest := s + "]";
    TopLevelAtConcat(s, "]", 1);
    assert Wrap(s) == "[" + rest && Wrap(s)[1..] == rest;
    assert "]"[1..] == "";
  }

  lemma {:induction false} NestedStaysNested(s: string)
    requires NoBrackets(s)
    ensures DepthAfter(s, 1) == 1 && TopLevelAt(s, 1).None?
  {
    if s != [] { NestedStaysNested(s[1..]); }
  }

  lemma SeparatorPosition(account: string, site: string)
    ensures SeparatorStandsOut(account, site) <==> TopLevelAt(PlainLeaf(account, site), 0) == Some(|Wrap(account)|)
  {
    var depth := DepthAfter(Wrap(account), 0);
    var right := "@" + Wrap(site);
    assert PlainLeaf(account, site) == Wrap(account) + right;
    assert right[1..] == Wrap(site);
    TopLevelAtConcat(Wrap(account), right, 0);
  }

  /**
   A value that comes without brackets of its own is given them unless it has only letters,
   digits and "._-"; either way it is read back, and no '@' in it can be taken for the separator.
   */
  lemma TokenIsSafe(value: string)
    requires NoBrackets(value) && Trimmed(value) && value != []
    ensures Unwrap(FormatToken(value)) == value
    ensures FormatToken(value) == value || FormatToken(value) == "[" + value + "]"
    ensures FormatToken(value) == value <==> forall i :: 0 <= i < |value| ==> PlainChar(value[i])
    ensures TopLevelAt(FormatToken(value), 0).None? && DepthAfter(FormatToken(value), 0) == 0
  {
    hide PlainChar;
    TrimFacts(value);
    InsideBrackets(value);
    assert !IsWrapped(value);
    assert Wrap(value)[1..|Wrap(value)| - 1] == value;
    forall i | 0 <= i < |value| ensures PlainChar(value[i]) <==> IsSimpleChar(value[i]) { PlainCharsAre(value[i]); }
    if IsSimpleToken(value) { SimpleHasNoSeparator(value); }
  }

  lemma {:induction false} SimpleHasNoSeparator(s: string)
    requires forall i :: 0 <= i < |s| ==> IsSimpleChar(s[i])
    ensures TopLevelAt(s, 0).None? && DepthAfter(s, 0) == 0
  {
    if s != [] { SimpleHasNoSeparator(s[1..]); }
  }

  // ---- the name

  lemma WrappedTokenStays(value: string)
    ensures FormatToken(Encoded(Wrap(value))) == Wrap(Encoded(value))
  {
    EncodedOfWrap(value);
    var t := Wrap(Encoded(value));
    TrimFacts(t);
  }

  lemma {:induction false} SegmentsOfLeaf(folder: string, leaf: string)
    requires leaf != [] && '/' !in leaf
    ensures Segments(folder + "/" + leaf) == Segments(folder) + [leaf]
    decreases |folder|
  {
    assert IndexOf(leaf, '/').None? && Pieces(leaf) == [leaf];
    match IndexOf(folder, '/') {
      case None =>
        PiecesOfJoin(folder, leaf);
        assert folder != [] ==> Pieces(folder) == [folder];
        FilledCons(folder, [leaf]);
        FilledCons(folder, []);
        FilledCons(leaf, []);
        assert [folder] + [] == [folder] && [leaf] + [] == [leaf];
      case Some(slash) =>
        SegmentsOfLeaf(folder[slash + 1..], leaf);
        SegmentsOfLeafStep(folder, slash, leaf);
    }
  }

  lemma SegmentsOfLeafStep(folder: string, slash: nat, leaf: string)
    requires leaf != [] && IndexOf(folder, '/') == Some(slash)
    requires Segments(folder[slash + 1..] + "/" + leaf) == Segments(folder[slash + 1..]) + [leaf]
    ensures Segments(folder + "/" + leaf) == Segments(folder) + [leaf]
  {
    hide Pieces, IndexOf, Filled;
    var first, rest := folder[..slash], folder[slash + 1..];
    SlashAt(folder, slash, leaf);
    PiecesAtSlash(folder, slash);
    PiecesOfJoin(first, rest + "/" + leaf);
    FilledCons(first, Pieces(rest + "/" + leaf));
    FilledCons(first, Pieces(rest));
  }

  lemma FilledCons(piece: string, pieces: seq<string>)
    ensures Filled([piece] + pieces) == (if piece == [] then [] else [piece]) + Filled(pieces)
  {
    assert ([piece] + pieces)[1..] == pieces;
  }

  lemma LeafOfName(folder: string, leaf: string)
    requires leaf != [] && '/' !in leaf
    ensures Filename(JoinEntryName(folder, leaf)) == leaf
    ensures ParentFolder(JoinEntryName(folder, leaf)) == Joined(Segments(folder))
  {
    if folder == [] {
      FilledCons(leaf, []);
      assert Pieces(leaf) == [leaf] && [leaf] + [] == [leaf] && [leaf][..0] == [];
    } else {
      SegmentsOfLeaf(folder, leaf);
      assert (Segments(folder) + [leaf])[..|Segments(folder)|] == Segments(folder);
      LastIndexOfIs(folder, '/', leaf);
      var name := folder + ['/'] + leaf;
      assert name == folder + "/" + leaf && name[|folder| + 1..] == leaf;
    }
  }

  lemma EncodedLeaf(account: string, site: string)
    ensures Encoded(PlainLeaf(account, site)) == Wrap(Encoded(account)) + "@" + Wrap(Encoded(site))
    ensures '/' !in Encoded(PlainLeaf(account, site))
  {
    EncodedOfWrap(account);
    EncodedOfWrap(site);
    EncodedConcat(Wrap(account) + "@", Wrap(site));
    EncodedConcat(Wrap(account), "@");
    EncodedOfOne('@');
    EncodedIsPathSafe(PlainLeaf(account, site));
  }

  // ---- any pair of values

  lemma CodeFacts(c: char)
    ensures Code(c) != [] && (forall d :: d in Code(c) ==> !IsSpace(d) || d == c)
    ensures |Code(c)| == 1 ==> Code(c) == [c]
    ensures |Code(c)| != 1 ==> !IsSpace(c) && Code(c)[0] == '%'
    ensures IsSpace(Code(c)[0]) <==> IsSpace(c)
    ensures IsSpace(Code(c)[|Code(c)| - 1]) <==> IsSpace(c)
    ensures forall d :: d in Code(c) ==> d == c || (d != '[' && d != ']')
  {
  }

  /** Escaping keeps what counts for a token: whether it is empty, trimmed, blank, or has brackets. */
  lemma {:induction false} EscapingKeepsToken(s: string)
    ensures s == [] <==> Encoded(s) == []
    ensures s != [] ==> (IsSpace(Encoded(s)[0]) <==> IsSpace(s[0]))
    ensures s != [] ==> (IsSpace(Encoded(s)[|Encoded(s)| - 1]) <==> IsSpace(s[|s| - 1]))
    ensures BlankText(Encoded(s)) <==> BlankText(s)
    ensures NoBrackets(s) ==> NoBrackets(Encoded(s))
  {
    if s == [] {
      EncodedEmpty();
    } else {
      EncodedCons(s);
      CodeFacts(s[0]);
      hide Encoded, Code;
      EscapingKeepsToken(s[1..]);
      TokenOnce(s, Code(s[0]), Encoded(s[1..]));
    }
  }

  lemma TokenOnce(s: string, code: string, rest: string)
    requires s != [] && code != [] && (s[1..] == [] <==> rest == [])
    requires (IsSpace(code[0]) <==> IsSpace(s[0])) && (IsSpace(code[|code| - 1]) <==> IsSpace(s[0]))
    requires |code| == 1 ==> code == [s[0]]
    requires |code| != 1 ==> !IsSpace(s[0])
    requires forall d :: d in code ==> d == s[0] || (d != '[' && d != ']')
    requires s[1..] != [] ==> (IsSpace(rest[|rest| - 1]) <==> IsSpace(s[1..][|s| - 2]))
    requires BlankText(rest) <==> BlankText(s[1..])
    requires NoBrackets(s[1..]) ==> NoBrackets(rest)
    ensures IsSpace((code + rest)[|code + rest| - 1]) <==> IsSpace(s[|s| - 1])
    ensures BlankText(code + rest) <==> BlankText(s)
    ensures NoBrackets(s) ==> NoBrackets(code + rest)
  {
    SpaceIsListed(s[0]);
    SpaceIsListed(code[0]);
    assert s == [s[0]] + s[1..];
    assert (code + rest)[..|code|] == code && (code + rest)[|code|..] == rest;
    BlankParts(code, rest);
    BlankParts([s[0]], s[1..]);
  }

  lemma SpaceIsListed(c: char)
    ensures IsSpace(c) <==> c in " \t\r\n"
  {
  }

  lemma BlankParts(a: string, b: string)
    ensures BlankText(a + b) <==> BlankText(a) && BlankText(b)
  {
    assert forall i :: 0 <= i < |a| ==> (a + b)[i] == a[i];
    assert forall i :: 0 <= i < |b| ==> (a + b)[|a| + i] == b[i];
  }

  lemma TrimOfBlank(s: string)
    ensures Trim(s) == [] <==> BlankText(s)
  {
    var before, after := TrimIs(s);
    BlankParts(before, Trim(s));
    BlankParts(before + Trim(s), after);
  }

  /** There is no name without both values, and blanks are no value. */
  lemma NameNeedsBoth(folder: string, account: string, site: string)
    ensures BuildEntryName(folder, account, site) == "" <==> BlankText(account) || BlankText(site)
  {
    EscapingKeepsToken(account);
    EscapingKeepsToken(site);
    TrimOfBlank(Encoded(account));
    TrimOfBlank(Encoded(site));
    hide Encoded, Trim, BlankText, IsWrapped, IsSimpleToken, NormalizeFolder;
  }

  lemma AfterSeparator(s: string)
    requires TopLevelAt(s, 0).None?
    ensures TopLevelAt("@" + s, 0) == Some(0)
  {
    assert ("@" + s)[0] == '@' && ("@" + s)[1..] == s;
  }

  /** The separator of two tokens that have none of their own. */
  lemma TokensPart(a: string, s: string)
    requires TopLevelAt(a, 0).None? && DepthAfter(a, 0) == 0 && TopLevelAt(s, 0).None?
    ensures TopLevelAt(a + "@" + s, 0) == Some(|a|)
    ensures (a + "@" + s)[..|a|] == a && (a + "@" + s)[|a| + 1..] == s
  {
    hide TopLevelAt, DepthAfter;
    AfterSeparator(s);
    TopLevelAtConcat(a, "@" + s, 0);
    assert a + ("@" + s) == a + "@" + s;
  }

  /** What becomes of one value: a token without a separator of its own that is read as the value. */
  lemma TokenReadsBack(value: string)
    requires NoBrackets(value) && Trimmed(value) && value != []
    ensures var token := FormatToken(Encoded(value));
      && token != [] && '/' !in token && UnwrapToken(token) == value
      && TopLevelAt(token, 0).None? && DepthAfter(token, 0) == 0
  {
    EscapingKeepsToken(value);
    EncodedIsPathSafe(value);
    DecodeUndoesEncode(value);
    TokenIsSafe(Encoded(value));
  }

  /**
   Any two values that are trimmed, not empty and without brackets are read back from the
   name built of them, separators, slashes and percent signs in them included.
   */
  lemma PlainNameRoundTrip(folder: string, account: string, site: string)
    requires NoBrackets(account) && Trimmed(account) && account != []
    requires NoBrackets(site) && Trimmed(site) && site != []
    ensures var view := DescribeEntry(BuildEntryName(folder, account, site)); view.account == account && view.site == site
    ensures ParentFolder(BuildEntryName(folder, account, site)) == Joined(Segments(NormalizeFolder(folder)))
  {
    TokenReadsBack(account);
    TokenReadsBack(site);
    hide Encoded, FormatToken, TopLevelAt, DepthAfter, UnwrapToken, NormalizeFolder, Segments, Joined, Filename, ParentFolder;
    var a, s := FormatToken(Encoded(account)), FormatToken(Encoded(site));
    TokensPart(a, s);
    LeafOfName(NormalizeFolder(folder), a + "@" + s);
  }

  /** Reading a built name: its folder cleaned, and the halves of its unescaped leaf. */
  lemma ComboNameParts(c: Combo)
    ensures var leaf := PlainLeaf(BuildAccount(c.account), BuildSite(c.site));
      && ComboName(c) == JoinEntryName(NormalizeFolder(c.folder), Encoded(leaf))
      && ParentFolder(ComboName(c)) == Joined(Segments(NormalizeFolder(c.folder)))
      && Parts(DescribeEntry(ComboName(c)).account, DescribeEntry(ComboName(c)).site) == PlainParts(leaf)
  {
    var account, site := BuildAccount(c.account), BuildSite(c.site);
    WrappedTokenStays(account);
    WrappedTokenStays(site);
    EncodedLeaf(account, site);
    var leaf := PlainLeaf(account, site);
    LeafOfName(NormalizeFolder(c.folder), Encoded(leaf));
    EscapedLeafReadsPlain(leaf);
    hide Encoded, TopLevelAt, UnwrapToken, NormalizeFolder, BuildAccount, BuildSite, Segments, Joined, Filename, ParentFolder, PlainParts, Trim;
  }

  // ---- the folder

  lemma {:induction false} StripTailFacts(s: string)
    ensures |StripTail(s)| <= |s| && (|StripTail(s)| == |s| ==> StripTail(s) == s)
    ensures s == [] || s[|s| - 1] != '/' ==> StripTail(s) == s
  {
    if s != [] && s[|s| - 1] == '/' { StripTailFacts(s[..|s| - 1]); }
  }

  lemma {:induction false} StripSlashesFacts(s: string)
    ensures |StripSlashes(s)| <= |s| && (|StripSlashes(s)| == |s| ==> StripSlashes(s) == s)
    ensures s == [] || (s[0] != '/' && s[|s| - 1] != '/') ==> StripSlashes(s) == s
  {
    StripTailFacts(s);
    if s != [] && s[0] == '/' { StripSlashesFacts(s[1..]); }
  }

  predicate FolderSurvives(folder: string) { Trimmed(folder) && CleanPath(folder) }

  lemma FolderRoundTrip(folder: string)
    ensures Joined(Segments(NormalizeFolder(folder))) == folder <==> FolderSurvives(folder)
  {
    TrimFacts(folder);
    StripSlashesFacts(Trim(folder));
    CleaningShortens(NormalizeFolder(folder));
    if FolderSurvives(folder) {
      SegmentsAreComponents(folder);
      JoinedIsEmpty(Segments(folder));
    }
  }

  // ---- the account value

  lemma UnwrapOfWrap(s: string)
    ensures Unwrap(Wrap(s)) == s
  {
  }

  lemma SeparatedParts(account: string, site: string)
    requires SeparatorStandsOut(account, site)
    ensures PlainParts(PlainLeaf(account, site)) == Parts(account, site)
  {
    SeparatorPosition(account, site);
    var leaf := PlainLeaf(account, site);
    assert leaf[..|Wrap(account)|] == Wrap(account) && leaf[|Wrap(account)| + 1..] == Wrap(site);
    UnwrapOfWrap(account);
    UnwrapOfWrap(site);
  }

  /** How many closing brackets a text has. Splitting a value drops delimiters and blanks, never a bracket. */
  function Closings(s: string): nat {
    if s == [] then 0 else (if s[0] == ']' then 1 else 0) + Closings(s[1..])
  }

  lemma {:induction false} ClosingsConcat(a: string, b: string)
    ensures Closings(a + b) == Closings(a) + Closings(b)
  {
    if a == [] {
      assert a + b == b;
    } else {
      ClosingsConcat(a[1..], b);
      assert (a + b)[1..] == a[1..] + b;
    }
  }

  lemma ClosingsAround(s: string, i: nat)
    requires i < |s|
    ensures Closings(s) == Closings(s[..i]) + (if s[i] == ']' then 1 else 0) + Closings(s[i + 1..])
  {
    assert s == s[..i] + s[i..] && s[i..][1..] == s[i + 1..];
    ClosingsConcat(s[..i], s[i..]);
  }

  lemma {:induction false} TrimStartKeepsClosings(s: string)
    ensures Closings(TrimStart(s)) == Closings(s)
  {
    if s != [] && IsSpace(s[0]) { TrimStartKeepsClosings(s[1..]); }
  }

  lemma {:induction false} TrimEndKeepsClosings(s: string)
    ensures Closings(TrimEnd(s)) == Closings(s)
  {
    if s != [] && IsSpace(s[|s| - 1]) {
      TrimEndKeepsClosings(s[..|s| - 1]);
      ClosingsAround(s, |s| - 1);
    }
  }

  lemma TrimKeepsClosings(s: string)
    ensures Closings(Trim(s)) == Closings(s)
  {
    TrimStartKeepsClosings(s);
    TrimEndKeepsClosings(TrimStart(s));
  }

  lemma SplitAccountKeepsClosings(text: string)
    ensures var a := SplitAccount(text); Closings(a.user) + Closings(a.location) == Closings(text)
  {
    var t := Trim(text);
    TrimKeepsClosings(text);
    var at := IndexOf(t, '@');
    if at.Some? {
      ClosingsAround(t, at.value);
      TrimKeepsClosings(t[..at.value]);
      TrimKeepsClosings(t[at.value + 1..]);
    }
  }

  lemma EmptyHasNoClosings()
    ensures Closings("") == 0
  {
  }

  lemma CutsKeepClosings(text: string)
    ensures Closings(CutCompany(text).left) + Closings(CutCompany(text).right) == Closings(text)
    ensures Closings(CutQuery(text).left) + Closings(CutQuery(text).right) == Closings(text)
    ensures Closings(CutPort(text).left) + Closings(CutPort(text).right) == Closings(text)
  {
    EmptyHasNoClosings();
    hide Closings, Trim, NormalizeQuery, ValidPort, IndexOf, LastIndexOf;
    CutKeepsClosings(text, LastIndexOf(text, '@'));
    CutKeepsClosings(text, LastIndexOf(text, ':'));
    TrimKeepsClosings(text);
    var slash := IndexOf(text, '/');
    CutKeepsClosings(text, slash);
  }

  lemma CutKeepsClosings(text: string, at: Option<nat>)
    requires at.Some? ==> at.value < |text| && text[at.value] != ']'
    ensures at.Some? ==>
      && Closings(Trim(text[..at.value])) + Closings(Trim(text[at.value + 1..])) == Closings(text)
      && Closings(NormalizeQuery(text[at.value + 1..])) == Closings(Trim(text[at.value + 1..]))
  {
    if at.Some? {
      ClosingsAround(text, at.value);
      TrimKeepsClosings(text[..at.value]);
      TrimKeepsClosings(text[at.value + 1..]);
    }
  }

  function SiteClosings(s: Site): nat {
    Closings(s.host) + Closings(s.port) + Closings(s.query) + Closings(s.company)
  }

  lemma SplitSiteKeepsClosings(text: string)
    ensures SiteClosings(SplitSite(text)) == Closings(text)
  {
    var whole := Trim(text);
    TrimKeepsClosings(text);
    if whole != [] {
      CutsKeepClosings(whole);
      CutsKeepClosings(CutCompany(whole).left);
      CutsKeepClosings(CutQuery(CutCompany(whole).left).left);
    }
  }

  lemma BuildSiteKeepsClosings(s: Site)
    requires Trim(s.host) != []
    ensures Closings(BuildSite(s)) == SiteClosings(s)
  {
    TrimKeepsClosings(s.host);
    TrimKeepsClosings(s.port);
    TrimKeepsClosings(s.query);
    TrimKeepsClosings(s.company);
    PartKeepsClosings(':', Trim(s.port));
    PartKeepsClosings('/', NormalizeQuery(s.query));
    PartKeepsClosings('@', Trim(s.company));
    var a, b, c, d := Trim(s.host), Part(':', Trim(s.port)), Part('/', NormalizeQuery(s.query)), Part('@', Trim(s.company));
    ClosingsConcat(a, b);
    ClosingsConcat(a + b, c);
    ClosingsConcat(a + b + c, d);
  }

  lemma PartKeepsClosings(delimiter: char, text: string)
    requires delimiter != ']'
    ensures Closings(Part(delimiter, text)) == Closings(text)
  {
    if text != [] { assert ([delimiter] + text)[1..] == text; }
  }

  /** The account text that a leaf with a hidden separator yields is never the account's own. */
  lemma HiddenSeparatorSpoilsAccount(a: Account, site: string)
    requires a.user != [] && a.location != [] && AccountSurvives(a)
    requires !SeparatorStandsOut(BuildAccount(a), site)
    requires PlainParts(PlainLeaf(BuildAccount(a), site)).account != []
    ensures SplitAccount(PlainParts(PlainLeaf(BuildAccount(a), site)).account) != a
  {
    TrimFacts(a.user);
    TrimFacts(a.location);
    var text := BuildAccount(a);
    var leaf := PlainLeaf(text, site);
    var at := TopLevelAt(leaf, 0);
    SeparatorPosition(text, site);
    if at.None? {
      PastSeparator(a, Wrap(site));
    } else if at.value < |Wrap(text)| {
      BeforeSeparator(a, leaf, at.value);
    } else {
      var more := Wrap(site)[..at.value - |Wrap(text)| - 1];
      assert leaf[..at.value] == Wrap(text) + "@" + more;
      PastSeparator(a, more);
    }
  }

  lemma PastSeparator(a: Account, more: string)
    requires a.user != [] && a.location != [] && AccountSurvives(a)
    ensures SplitAccount(Unwrap(Wrap(BuildAccount(a)) + "@" + more)) != a
  {
    TrimFacts(a.user);
    TrimFacts(a.location);
    var value := BuildAccount(a);
    AccountRoundTrip(a);
    SplitAccountKeepsClosings(value);
    var text := Wrap(value) + "@" + more;
    SplitAccountKeepsClosings(Unwrap(text));
    MoreClosings(value, more);
  }

  lemma MoreClosings(value: string, more: string)
    ensures Closings(Unwrap(Wrap(value) + "@" + more)) > Closings(value)
  {
    var text := Wrap(value) + "@" + more;
    if IsWrapped(text) {
      var kept := ("@" + more)[..|more|];
      assert text[1..|text| - 1] == value + ("]" + kept);
      ClosingsConcat(value, "]" + kept);
    } else {
      assert text == "[" + (value + ("]" + ("@" + more)));
      ClosingsConcat("[", value + ("]" + ("@" + more)));
      ClosingsConcat(value, "]" + ("@" + more));
    }
  }

  lemma {:induction false} AllBrackets(text: string, leaf: string, i: nat)
    requires i < |text| < |leaf| && text <= leaf && leaf[0] == '['
    requires forall j :: 0 <= j < |text| ==> leaf[j + 1] == text[j]
    ensures text[i] == '['
  {
    if i > 0 { AllBrackets(text, leaf, i - 1); }
  }

  lemma BeforeSeparator(a: Account, leaf: string, k: nat)
    requires a.user != [] && a.location != [] && AccountSurvives(a)
    requires Wrap(BuildAccount(a)) <= leaf && k < |Wrap(BuildAccount(a))| && leaf[k] == '@'
    requires Unwrap(leaf[..k]) != []
    ensures SplitAccount(Unwrap(leaf[..k])) != a
  {
    var text, before := BuildAccount(a), leaf[..k];
    TrimFacts(a.user);
    TrimFacts(a.location);
    assert text == a.user + "@" + a.location;
    hide Trim, SplitAccount, BuildAccount;
    assert leaf[0] == '[' && leaf[|text| + 1] == ']' && forall i :: 0 <= i < |text| ==> leaf[i + 1] == text[i];
    SplitAccountFacts(Unwrap(before));
    if SplitAccount(Unwrap(before)) == a {
      assert before == text;
      AllBrackets(text, leaf, |a.user|);
    }
  }

  /** The one way to an empty account text, a user named "]", which makes the form fall back on the stored user name: the site is then spoilt instead. */
  lemma EmptyAccountSpoilsSite(a: Account, s: Site)
    requires a.user != [] && a.location != [] && AccountSurvives(a) && BuildSite(s) != []
    requires !SeparatorStandsOut(BuildAccount(a), BuildSite(s))
    requires PlainParts(PlainLeaf(BuildAccount(a), BuildSite(s))).account == []
    ensures var parts := PlainParts(PlainLeaf(BuildAccount(a), BuildSite(s)));
      parts.site != [] && SplitSite(parts.site) != s
  {
    var text, site := BuildAccount(a), BuildSite(s);
    EmptyAccountMeansEarlySplit(text, site);
    LeafTail(text, site);
    SiteWithMoreClosings(s, text[2..]);
  }

  lemma EmptyAccountMeansEarlySplit(text: string, site: string)
    requires !SeparatorStandsOut(text, site) && PlainParts(PlainLeaf(text, site)).account == []
    ensures var at := TopLevelAt(PlainLeaf(text, site), 0);
      at.Some? && at.value == 2 && at.value < |Wrap(text)| - 1
  {
    var leaf := PlainLeaf(text, site);
    SeparatorPosition(text, site);
    var at := TopLevelAt(leaf, 0);
    assert leaf[0] == '[' && leaf[|text| + 1] == ']';
    if at.None? {
      MoreClosings(text, Wrap(site));
    }
  }

  lemma LeafTail(text: string, site: string)
    requires |text| >= 2
    ensures PlainLeaf(text, site)[3..] == text[2..] + "]@[" + site + "]"
  {
  }

  lemma SiteWithMoreClosings(s: Site, before: string)
    requires BuildSite(s) != []
    ensures SplitSite(Unwrap(before + "]@[" + BuildSite(s) + "]")) != s
    ensures Unwrap(before + "]@[" + BuildSite(s) + "]") != []
  {
    BuildSiteKeepsClosings(s);
    SplitSiteKeepsClosings(Unwrap(before + "]@[" + BuildSite(s) + "]"));
    ClosingsInside(before, BuildSite(s));
  }

  lemma ClosingsInside(before: string, site: string)
    ensures Closings(Unwrap(before + "]@[" + site + "]")) > Closings(site)
  {
    var text := before + "]@[" + site + "]";
    if IsWrapped(text) {
      assert text[0] == if before == [] then ']' else before[0];
      assert Unwrap(text) == before[1..] + ("]@[" + site);
      SuffixClosings(before[1..], site, "");
      assert site + "" == site;
    } else {
      assert text == before + ("]@[" + (site + "]"));
      SuffixClosings(before, site, "]");
    }
  }

  lemma SuffixClosings(before: string, site: string, end: string)
    ensures Closings(before + ("]@[" + (site + end))) > Closings(site)
  {
    ClosingsConcat(before, "]@[" + (site + end));
    ClosingsConcat("]", "@[" + (site + end));
    assert "]@[" + (site + end) == "]" + ("@[" + (site + end));
    ClosingsConcat("@[", site + end);
    ClosingsConcat(site, end);
  }

  /**
   A combo entry that the form accepts (both values non-empty) is read back field by
   field exactly when its folder, account and site each survive printing and the
   brackets in them leave the separating '@' alone at the top level.
   */
  lemma ComboRoundTrip(c: Combo)
    requires BuildAccount(c.account) != [] && BuildSite(c.site) != []
    ensures ReadBack(c) == c <==>
      && FolderSurvives(c.folder) && AccountSurvives(c.account) && SiteSurvives(c.site)
      && SeparatorStandsOut(BuildAccount(c.account), BuildSite(c.site))
  {
    var account, site := BuildAccount(c.account), BuildSite(c.site);
    ComboNameParts(c);
    FolderRoundTrip(c.folder);
    AccountRoundTrip(c.account);
    SiteRoundTrip(c.site);
    if SeparatorStandsOut(account, site) {
      SeparatedParts(account, site);
    } else if ReadBack(c) == c {
      var parts := PlainParts(PlainLeaf(account, site));
      SplitAccountFacts(if parts.account != [] then parts.account else account);
      if parts.account != [] {
        HiddenSeparatorSpoilsAccount(c.account, site);
      } else {
        EmptyAccountSpoilsSite(c.account, c.site);
      }
    }
  }

  // ---------------------------------------------------------------- acceptance by the store

  predicate ValidFolder(folder: string) { ValidPieces(NormalizeFolder(folder)) }

  lemma {:induction false} StripTailStrips(s: string)
    ensures StripTail(s) <= s
    ensures StripTail(s) != [] ==> StripTail(s)[|StripTail(s)| - 1] != '/'
  {
    if s != [] && s[|s| - 1] == '/' { StripTailStrips(s[..|s| - 1]); }
  }

  lemma {:induction false} StripSlashesStrips(s: string)
    ensures var t := StripSlashes(s); t != [] ==> t[0] != '/' && t[|t| - 1] != '/'
  {
    StripTailStrips(s);
    if s != [] && s[0] == '/' { StripSlashesStrips(s[1..]); }
  }

  lemma VisibleConcat(a: string, b: string)
    ensures Visible(a + b) <==> Visible(a) && Visible(b)
  {
    assert forall i :: 0 <= i < |a| ==> (a + b)[i] == a[i];
    assert forall i :: 0 <= i < |b| ==> (a + b)[|a| + i] == b[i];
  }

  lemma {:induction false} EscapingKeepsVisibility(s: string)
    ensures Visible(Encoded(s)) <==> Visible(s)
  {
    if s != [] {
      EscapingKeepsVisibility(s[1..]);
      EncodedCons(s);
      assert s == [s[0]] + s[1..];
      VisibleConcat([s[0]], s[1..]);
      VisibleConcat(Code(s[0]), Encoded(s[1..]));
      CodeVisibility(s[0]);
    }
  }

  lemma CodeVisibility(c: char)
    ensures Visible(Code(c)) <==> Visible([c])
  {
  }

  lemma LeafVisibility(account: string, site: string)
    ensures Visible(Encoded(PlainLeaf(account, site))) <==> Visible(account) && Visible(site)
  {
    EscapingKeepsVisibility(PlainLeaf(account, site));
    VisibleConcat(Wrap(account) + "@", Wrap(site));
    VisibleConcat(Wrap(account), "@");
    VisibleConcat("[" + account, "]");
    VisibleConcat("[", account);
    VisibleConcat("[" + site, "]");
    VisibleConcat("[", site);
  }

  /** A bracketed leaf under a folder without edge slashes is accepted exactly if the folder's pieces and the leaf's characters are. */
  lemma LeafAccepted(folder: string, leaf: string)
    requires leaf != [] && leaf[0] == '[' && leaf[|leaf| - 1] == ']' && '/' !in leaf
    requires folder != [] ==> folder[0] != '/' && folder[|folder| - 1] != '/'
    ensures ValidEntryName(JoinEntryName(folder, leaf)) <==> ValidPieces(folder) && Visible(leaf)
  {
    BracketedPiece(leaf);
    hide Pieces, Visible, ValidPiece, PathNames.IsControl;
    if folder == [] {
      PiecesOfOne(leaf);
      OneMorePiece([], leaf);
      assert [] + [leaf] == [leaf];
    } else {
      PiecesOfLeaf(folder, leaf);
      OneMorePiece(Pieces(folder), leaf);
      JoinedEdges(folder, leaf);
    }
  }

  lemma BracketedPiece(leaf: string)
    requires leaf != [] && leaf[0] == '['
    ensures ValidPiece(leaf) <==> Visible(leaf)
  {
  }

  lemma PiecesOfOne(leaf: string)
    requires leaf != [] && '/' !in leaf
    ensures Pieces(leaf) == [leaf] && Pieces("") == []
  {
  }

  lemma JoinedEdges(folder: string, leaf: string)
    requires folder != [] && leaf != []
    ensures var name := folder + "/" + leaf; name != [] && name[0] == folder[0] && name[|name| - 1] == leaf[|leaf| - 1]
  {
  }

  /** The store accepts a built name exactly when the folder is valid and neither value holds a control character. */
  lemma BuiltNameAccepted(c: Combo)
    requires BuildAccount(c.account) != [] && BuildSite(c.site) != []
    ensures ValidEntryName(ComboName(c)) <==>
      ValidFolder(c.folder) && Visible(BuildAccount(c.account)) && Visible(BuildSite(c.site))
  {
    hide Encoded, PlainLeaf, BuildAccount, BuildSite, ComboName, DescribeEntry, ParentFolder, PlainParts,
      JoinEntryName, NormalizeFolder, ValidPieces, ValidEntryName, Visible;
    var account, site := BuildAccount(c.account), BuildSite(c.site);
    ComboNameParts(c);
    LeafIsBracketed(account, site);
    LeafVisibility(account, site);
    NormalizedEdges(c.folder);
    LeafAccepted(NormalizeFolder(c.folder), Encoded(PlainLeaf(account, site)));
  }

  lemma LeafIsBracketed(account: string, site: string)
    ensures var leaf := Encoded(PlainLeaf(account, site));
      leaf != [] && leaf[0] == '[' && leaf[|leaf| - 1] == ']' && '/' !in leaf
  {
    EncodedLeaf(account, site);
  }

  lemma NormalizedEdges(folder: string)
    ensures var f := NormalizeFolder(folder); f != [] ==> f[0] != '/' && f[|f| - 1] != '/'
  {
    StripSlashesStrips(Trim(folder));
  }

  lemma OneMorePiece(pieces: seq<string>, leaf: string)
    ensures (forall i :: 0 <= i < |pieces + [leaf]| ==> ValidPiece((pieces + [leaf])[i]))
      <==> (forall i :: 0 <= i < |pieces| ==> ValidPiece(pieces[i])) && ValidPiece(leaf)
  {
    assert forall i :: 0 <= i < |pieces| ==> (pieces + [leaf])[i] == pieces[i];
    assert (pieces + [leaf])[|pieces|] == leaf;
  }
}
