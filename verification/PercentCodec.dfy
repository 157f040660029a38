/**
 The escaping that makes an account or site safe inside a path: '%', '/' and '\' are
 written as three-character codes. Both directions run three replacement passes over
 the whole string, one after another and in place.
 */
module PercentCodec {
  import opened Options

  predicate StartsWith(s: string, prefix: string) { prefix <= s }

  // ---------------------------------------------------------------- one pass

  /** Every leftmost, non-overlapping occurrence of `from` becomes `to`; inserted text is not searched again. */
  function Replaced(s: string, from: string, to: string): string
    requires from != []
  {
    if s == [] then []
    else if StartsWith(s, from) then to + Replaced(s[|from|..], from, to)
    else [s[0]] + Replaced(s[1..], from, to)
  }

  /** `std::string::find` from a position on. */
  method Find(s: string, from: string, start: nat) returns (pos: Option<nat>)
    requires from != [] && start <= |s|
    ensures pos.Some? ==> start <= pos.value && pos.value + |from| <= |s| && StartsWith(s[pos.value..], from)
    ensures forall k :: start <= k < (if pos.Some? then pos.value else |s|) ==> !StartsWith(s[k..], from)
  {
    var i := start;
    while i < |s|
      invariant start <= i <= |s|
      invariant forall k :: start <= k < i ==> !StartsWith(s[k..], from)
    {
      if StartsWith(s[i..], from) {
        return Some(i);
      }
      i := i + 1;
    }
    return None;
  }

  lemma {:induction false} ReplacedSkips(s: string, from: string, to: string, n: nat)
    requires from != [] && n <= |s|
    requires forall k :: 0 <= k < n ==> !StartsWith(s[k..], from)
    ensures Replaced(s, from, to) == s[..n] + Replaced(s[n..], from, to)
  {
    if n == 0 {
      assert s[0..] == s;
    } else {
      assert s[0..] == s;
      forall k | 0 <= k < n - 1 ensures !StartsWith(s[1..][k..], from) {
        assert s[1..][k..] == s[k + 1..];
      }
      ReplacedSkips(s[1..], from, to, n - 1);
      assert s[1..][n - 1..] == s[n..];
      assert s[..n] == [s[0]] + s[1..][..n - 1];
    }
  }

  method ReplaceAll(s: string, from: string, to: string) returns (text: string)
    requires from != []
    ensures text == Replaced(s, from, to)
  {
    text := s;
    var pos: nat := 0;
    assert text[..0] + Replaced(text[0..], from, to) == Replaced(s, from, to);
    hide Replaced, StartsWith;
    while true
      invariant pos <= |text|
      invariant text[..pos] + Replaced(text[pos..], from, to) == Replaced(s, from, to)
      decreases |text| - pos
    {
      var found := Find(text, from, pos);
      if found.None? {
        SkipToEnd(text, from, to, pos);
        break;
      }
      SkipTo(text, from, to, pos, found.value);
      ReplaceOne(text, from, to, found.value);
      text := text[..found.value] + to + text[found.value + |from|..];
      pos := found.value + |to|;
    }
  }

  lemma SkipToEnd(text: string, from: string, to: string, pos: nat)
    requires from != [] && pos <= |text|
    requires forall k :: pos <= k < |text| ==> !StartsWith(text[k..], from)
    ensures text[..pos] + Replaced(text[pos..], from, to) == text
  {
    SkipTo(text, from, to, pos, |text|);
    assert text[..|text|] == text && text[|text|..] == [];
  }

  lemma ReplaceOne(text: string, from: string, to: string, at: nat)
    requires from != [] && at + |from| <= |text| && StartsWith(text[at..], from)
    ensures var next := text[..at] + to + text[at + |from|..];
      next[..at + |to|] + Replaced(next[at + |to|..], from, to) == text[..at] + Replaced(text[at..], from, to)
  {
    var next := text[..at] + to + text[at + |from|..];
    assert text[at..][|from|..] == text[at + |from|..];
    assert next[..at + |to|] == text[..at] + to;
    assert next[at + |to|..] == text[at + |from|..];
  }

  lemma SkipTo(text: string, from: string, to: string, pos: nat, limit: nat)
    requires from != [] && pos <= limit <= |text|
    requires forall k :: pos <= k < limit ==> !StartsWith(text[k..], from)
    ensures text[..pos] + Replaced(text[pos..], from, to) == text[..limit] + Replaced(text[limit..], from, to)
  {
    forall k | 0 <= k < limit - pos ensures !StartsWith(text[pos..][k..], from) {
      assert text[pos..][k..] == text[pos + k..];
    }
    ReplacedSkips(text[pos..], from, to, limit - pos);
    hide Replaced, StartsWith;
    assert text[pos..][limit - pos..] == text[limit..];
    assert text[..limit] == text[..pos] + text[pos..][..limit - pos];
  }

  // ---------------------------------------------------------------- the three passes

  function Code(c: char): string {
    if c == '%' then "%25" else if c == '/' then "%2F" else if c == '\\' then "%5C" else [c]
  }

  predicate IsSpecial(c: char) { c == '%' || c == '/' || c == '\\' }

  /** The simple form: one pass, each character on its own. `which` are the characters written as codes. */
  function EncodedOnly(s: string, which: set<char>): string {
    if s == [] then [] else (if s[0] in which then Code(s[0]) else [s[0]]) + EncodedOnly(s[1..], which)
  }

  function Encoded(s: string): string { EncodedOnly(s, {'%', '/', '\\'}) }

  function DecodedByPasses(s: string): string {
    Replaced(Replaced(Replaced(s, "%2F", "/"), "%5C", "\\"), "%25", "%")
  }

  /** A pass that writes one more character as its code. */
  lemma {:induction false} EncodePass(s: string, which: set<char>, c: char)
    requires IsSpecial(c) && c !in which
    requires which == {} || (c != '%' && which <= {'%', '/', '\\'})
    ensures Replaced(EncodedOnly(s, which), [c], Code(c)) == EncodedOnly(s, which + {c})
  {
    if s != [] {
      EncodePass(s[1..], which, c);
      var head := if s[0] in which then Code(s[0]) else [s[0]];
      var tail := EncodedOnly(s[1..], which);
      if s[0] == c {
        assert (head + tail)[1..] == tail;
        assert StartsWith(head + tail, [c]);
      } else {
        forall k | 0 <= k < |head| ensures !StartsWith((head + tail)[k..], [c]) {
          assert (head + tail)[k..][0] == head[k];
        }
        ReplacedSkips(head + tail, [c], Code(c), |head|);
        assert (head + tail)[|head|..] == tail && (head + tail)[..|head|] == head;
      }
    }
  }

  /** A pass that turns one code back; it can neither miss one nor see one that straddles two codes. */
  lemma {:induction false} DecodePass(s: string, which: set<char>, c: char)
    requires IsSpecial(c) && c in which && '%' in which && which <= {'%', '/', '\\'}
    ensures Replaced(EncodedOnly(s, which), Code(c), [c]) == EncodedOnly(s, which - {c})
  {
    if s != [] {
      DecodePass(s[1..], which, c);
      var head := if s[0] in which then Code(s[0]) else [s[0]];
      var tail := EncodedOnly(s[1..], which);
      if s[0] == c {
        assert (head + tail)[3..] == tail;
        assert StartsWith(head + tail, Code(c));
      } else {
        forall k | 0 <= k < |head| ensures !StartsWith((head + tail)[k..], Code(c)) {
          NoCodeInside(s[0], which, c, tail, k);
        }
        ReplacedSkips(head + tail, Code(c), [c], |head|);
        assert (head + tail)[|head|..] == tail && (head + tail)[..|head|] == head;
      }
    }
  }

  lemma NoCodeInside(x: char, which: set<char>, c: char, tail: string, k: nat)
    requires IsSpecial(c) && c in which && '%' in which && which <= {'%', '/', '\\'} && x != c
    requires k < |if x in which then Code(x) else [x]|
    ensures !StartsWith(((if x in which then Code(x) else [x]) + tail)[k..], Code(c))
  {
    var head := if x in which then Code(x) else [x];
    var t := (head + tail)[k..];
    assert t[0] == head[k];
    if k == 0 && x in which {
      assert t[1] == head[1] && t[2] == head[2];
    }
  }

  // ---- decoding in one pass

  /** The character whose code `s` begins with, if it is one of `which`. */
  function CodedAt(s: string, which: set<char>): (r: Option<char>)
    ensures r.Some? ==> r.value in which && IsSpecial(r.value) && Code(r.value) <= s && |s| >= 3
  {
    if '/' in which && "%2F" <= s then Some('/')
    else if '\\' in which && "%5C" <= s then Some('\\')
    else if '%' in which && "%25" <= s then Some('%')
    else None
  }

  function DecodedOnly(s: string, which: set<char>): string {
    if s == [] then []
    else match CodedAt(s, which)
      case Some(c) => [c] + DecodedOnly(s[3..], which)
      case None => [s[0]] + DecodedOnly(s[1..], which)
  }

  function Decoded(s: string): string { DecodedOnly(s, {'%', '/', '\\'}) }

  lemma FirstDecoded(s: string, which: set<char>)
    requires s != [] && '%' !in which
    ensures var t := DecodedOnly(s, which); t != [] && if CodedAt(s, which).Some? then t[0] != '%' else t[0] == s[0]
    ensures s[0] != '%' ==> DecodedOnly(s, which) == [s[0]] + DecodedOnly(s[1..], which)
  {
  }

  lemma CodesDiffer(s: string, c: char, d: char)
    requires IsSpecial(c) && IsSpecial(d) && Code(c) <= s && Code(d) <= s
    ensures c == d
  {
    assert s[1] == Code(c)[1] == Code(d)[1] && s[2] == Code(c)[2] == Code(d)[2];
  }

  /** A code that is not decoded yet is copied as it stands. */
  lemma CodeStaysWhole(s: string, which: set<char>, c: char)
    requires IsSpecial(c) && c !in which && '%' !in which && Code(c) <= s
    ensures CodedAt(s, which).None? && DecodedOnly(s, which) == Code(c) + DecodedOnly(s[3..], which)
  {
    if CodedAt(s, which).Some? { CodesDiffer(s, c, CodedAt(s, which).value); }
    assert s[0] == '%' && s[1] == Code(c)[1] && s[2] == Code(c)[2];
    FirstDecoded(s[1..], which);
    FirstDecoded(s[2..], which);
    assert s[1..][1..] == s[2..] && s[2..][1..] == s[3..];
    assert DecodedOnly(s, which) == [s[0]] + DecodedOnly(s[1..], which);
    hide DecodedOnly, CodedAt;
    assert [s[0]] + ([s[1]] + ([s[2]] + DecodedOnly(s[3..], which))) == [s[0], s[1], s[2]] + DecodedOnly(s[3..], which);
    assert Code(c) == [s[0], s[1], s[2]];
  }

  /** A code found after the earlier passes was there before them. */
  lemma DecodedCodeWasThere(s: string, which: set<char>, c: char)
    requires s != [] && IsSpecial(c) && c !in which && '%' !in which
    requires Code(c) <= DecodedOnly(s, which)
    ensures Code(c) <= s
  {
    var t := DecodedOnly(s, which);
    FirstDecoded(s, which);
    assert t[0] == '%' && t[1] == Code(c)[1] && t[2] == Code(c)[2];
    var t1 := DecodedOnly(s[1..], which);
    assert t == [s[0]] + t1 && t1[0] == t[1] && t1[1] == t[2];
    FirstDecoded(s[1..], which);
    SecondDecoded(s[1..], which);
  }

  lemma SecondDecoded(s: string, which: set<char>)
    requires '%' !in which && |DecodedOnly(s, which)| >= 2
    requires var t := DecodedOnly(s, which); IsCodeDigit(t[0]) && IsCodeDigit(t[1])
    ensures |s| >= 2 && s[..2] == DecodedOnly(s, which)[..2]
  {
    var t := DecodedOnly(s, which);
    FirstDecoded(s, which);
    assert t == [s[0]] + DecodedOnly(s[1..], which);
    FirstDecoded(s[1..], which);
  }

  predicate IsCodeDigit(c: char) { c == '2' || c == '5' || c == 'F' || c == 'C' }

  /** A pass that decodes one more code. */
  lemma {:induction false} DecodeOneMore(s: string, which: set<char>, c: char)
    requires IsSpecial(c) && c !in which && which <= {'/', '\\'}
    ensures Replaced(DecodedOnly(s, which), Code(c), [c]) == DecodedOnly(s, which + {c})
    decreases |s|
  {
    if s != [] {
      MoreCodes(s, which, c);
      var t := DecodedOnly(s, which);
      if Code(c) <= s {
        CodeStaysWhole(s, which, c);
        DecodeOneMore(s[3..], which, c);
        assert t[3..] == DecodedOnly(s[3..], which);
      } else {
        var coded := CodedAt(s, which);
        var rest := if coded.Some? then s[3..] else s[1..];
        if Code(c) <= t { DecodedCodeWasThere(s, which, c); }
        DecodeOneMore(rest, which, c);
        assert t[1..] == DecodedOnly(rest, which);
      }
    }
  }

  lemma MoreCodes(s: string, which: set<char>, c: char)
    requires IsSpecial(c) && c !in which
    ensures CodedAt(s, which + {c}) == if Code(c) <= s then Some(c) else CodedAt(s, which)
  {
    var more := CodedAt(s, which + {c});
    if Code(c) <= s && more.Some? { CodesDiffer(s, c, more.value); }
  }

  /** The three passes are the one-pass decoder, on every string. */
  lemma PassesDecodeOnce(s: string)
    ensures DecodedByPasses(s) == Decoded(s)
  {
    DecodedNothing(s);
    DecodeOneMore(s, {}, '/');
    DecodeOneMore(s, {'/'}, '\\');
    DecodeOneMore(s, {'/', '\\'}, '%');
    assert {} + {'/'} == {'/'} && {'/'} + {'\\'} == {'/', '\\'} && {'/', '\\'} + {'%'} == {'%', '/', '\\'};
  }

  lemma {:induction false} DecodedNothing(s: string)
    ensures DecodedOnly(s, {}) == s
  {
    if s != [] { DecodedNothing(s[1..]); }
  }

  /** Three replacement passes in the program's order are the one-pass escape. */
  method Encode(s: string) returns (text: string)
    ensures text == Encoded(s)
  {
    text := ReplaceAll(s, "%", "%25");
    text := ReplaceAll(text, "/", "%2F");
    text := ReplaceAll(text, "\\", "%5C");
    EncodedNothing(s);
    EncodePass(s, {}, '%');
    EncodePass(s, {'%'}, '/');
    EncodePass(s, {'%', '/'}, '\\');
    assert {} + {'%'} == {'%'} && {'%'} + {'/'} == {'%', '/'} && {'%', '/'} + {'\\'} == {'%', '/', '\\'};
  }

  /** Three replacement passes in the opposite order are the one-pass decoder. */
  method Decode(s: string) returns (text: string)
    ensures text == Decoded(s)
    ensures forall t :: s == Encoded(t) ==> text == t
  {
    text := ReplaceAll(s, "%2F", "/");
    text := ReplaceAll(text, "%5C", "\\");
    text := ReplaceAll(text, "%25", "%");
    PassesDecodeOnce(s);
    forall t | s == Encoded(t) ensures text == t { DecodeUndoesEncode(t); }
  }

  lemma {:induction false} EncodedNothing(s: string)
    ensures EncodedOnly(s, {}) == s
  {
    if s != [] { EncodedNothing(s[1..]); }
  }

  /** Decoding undoes encoding on every string, also on one that already contains "%25", "%2F" or "%5C". */
  lemma DecodeUndoesEncode(s: string)
    ensures DecodedByPasses(Encoded(s)) == s
  {
    var all := {'%', '/', '\\'};
    DecodePass(s, all, '/');
    assert all - {'/'} == {'%', '\\'};
    DecodePass(s, {'%', '\\'}, '\\');
    assert {'%', '\\'} - {'\\'} == {'%'};
    DecodePass(s, {'%'}, '%');
    assert {'%'} - {'%'} == {};
    EncodedNothing(s);
  }

  lemma {:induction false} EncodedIsPathSafe(s: string)
    ensures '/' !in Encoded(s) && '\\' !in Encoded(s)
    ensures forall c :: c in Encoded(s) ==> c in s || c in "%25FC"
  {
    if s != [] { EncodedIsPathSafe(s[1..]); }
  }

  lemma {:induction false} EncodedConcat(a: string, b: string)
    ensures Encoded(a + b) == Encoded(a) + Encoded(b)
  {
    if a == [] {
      assert a + b == b;
    } else {
      EncodedConcat(a[1..], b);
      assert (a + b)[1..] == a[1..] + b;
    }
  }
}
