/**
 Store versions. Every published state of the store carries a tag "v0.0.NNNN"; the next
 number is one above the highest that any known tag parses to.
 */
module StoreVersion {
  import opened Options
  import opened Decimal

  const TAG_PREFIX := "v0.0."
  const INT_MAX: int := 0x7FFF_FFFF

  predicate IsParserBlank(c: char) { c == ' ' || ('\t' <= c <= '\r') }

  function SkipBlanks(s: string): string {
    if s != [] && IsParserBlank(s[0]) then SkipBlanks(s[1..]) else s
  }

  function LeadingDigits(s: string): (r: string)
    ensures AllDigits(r)
  {
    if s != [] && IsDigit(s[0]) then [s[0]] + LeadingDigits(s[1..]) else []
  }

  /** `std::stoi`: blanks, an optional sign, digits; anything may follow. None stands for a thrown exception. */
  function ParseInt(s: string): Option<int> {
    var t := SkipBlanks(s);
    var negative := t != [] && t[0] == '-';
    var digits := LeadingDigits(if t != [] && (t[0] == '-' || t[0] == '+') then t[1..] else t);
    if digits == [] then None
    else
      var value: int := Value(digits);
      var n := if negative then -value else value;
      if -INT_MAX - 1 <= n <= INT_MAX then Some(n) else None
  }

  function PatchOf(tag: string): Option<int> {
    if TAG_PREFIX <= tag then ParseInt(tag[|TAG_PREFIX|..]) else None
  }

  /** The version after patch level `max`. */
  function VersionAfter(max: nat): string { "0.0." + Padded(Numeral(max + 1), 4) }

  ghost predicate IsMaxPatch(tags: set<string>, max: nat) {
    && (forall t :: t in tags && PatchOf(t).Some? ==> PatchOf(t).value <= max)
    && (max == 0 || exists t :: t in tags && PatchOf(t) == Some(max))
  }

  lemma {:induction false} MaxPatchExists(tags: set<string>) returns (max: nat)
    ensures IsMaxPatch(tags, max)
    decreases |tags|
  {
    if tags == {} {
      max := 0;
    } else {
      var t :| t in tags;
      max := MaxPatchExists(tags - {t});
      if PatchOf(t).Some? && PatchOf(t).value > max { max := PatchOf(t).value; }
    }
  }

  ghost function MaxPatch(tags: set<string>): (max: nat)
    ensures IsMaxPatch(tags, max)
  {
    assert exists max: nat :: IsMaxPatch(tags, max) by { var max := MaxPatchExists(tags); }
    var max: nat :| IsMaxPatch(tags, max);
    max
  }

  ghost function NextStoreVersion(tags: set<string>): string { VersionAfter(MaxPatch(tags)) }

  /** The loop over the lines of `git tag --list`, in whatever order they come. */
  method FindNextStoreVersion(lines: seq<string>) returns (version: string)
    ensures version == NextStoreVersion(set t | t in lines)
  {
    var maxPatch: nat := 0;
    for i := 0 to |lines|
      invariant forall k :: 0 <= k < i && PatchOf(lines[k]).Some? ==> PatchOf(lines[k]).value <= maxPatch
      invariant maxPatch == 0 || exists k :: 0 <= k < i && PatchOf(lines[k]) == Some(maxPatch)
    {
      var patch := PatchOf(lines[i]);
      if patch.Some? && patch.value > maxPatch {
        maxPatch := patch.value;
      }
    }
    version := VersionAfter(maxPatch);
    ghost var tags := set t | t in lines;
    assert IsMaxPatch(tags, maxPatch) by {
      if maxPatch != 0 {
        var k :| 0 <= k < |lines| && PatchOf(lines[k]) == Some(maxPatch);
        assert lines[k] in tags;
      }
    }
    MaxPatchIsUnique(tags, maxPatch, MaxPatch(tags));
  }

  lemma MaxPatchIsUnique(tags: set<string>, a: nat, b: nat)
    requires IsMaxPatch(tags, a) && IsMaxPatch(tags, b)
    ensures a == b
  {
    if a != 0 { var t :| t in tags && PatchOf(t) == Some(a); }
    if b != 0 { var t :| t in tags && PatchOf(t) == Some(b); }
  }

  lemma {:induction false} DigitsLead(s: string)
    requires AllDigits(s)
    ensures LeadingDigits(s) == s
  {
    if s != [] { DigitsLead(s[1..]); }
  }

  lemma PlainDigitsParse(digits: string)
    requires AllDigits(digits) && digits != [] && Value(digits) <= INT_MAX
    ensures ParseInt(digits) == Some(Value(digits))
  {
    assert IsDigit(digits[0]);
    assert SkipBlanks(digits) == digits;
    DigitsLead(digits);
  }

  /** The printed version parses back to its own number, as long as that fits an int. */
  lemma VersionParsesBack(max: nat)
    requires max + 1 <= INT_MAX
    ensures PatchOf("v" + VersionAfter(max)) == Some(max + 1)
  {
    var digits := Padded(Numeral(max + 1), 4);
    PaddingKeepsValue(Numeral(max + 1), 4);
    PlainDigitsParse(digits);
    TagText(digits);
  }

  function TenTo(k: nat): (n: nat)
    ensures n >= 1
  {
    if k == 0 then 1 else 10 * TenTo(k - 1)
  }

  /** Numerals are as short as they can be. */
  lemma {:induction false} NumeralWidth(n: nat, k: nat)
    requires k > 0
    ensures |Numeral(n)| <= k <==> n < TenTo(k)
    decreases k
  {
    if n >= 10 {
      NumeralStep(n);
      if k > 1 { NumeralWidth(n / 10, k - 1); }
    }
  }

  lemma NumeralStep(n: nat)
    requires n >= 10
    ensures |Numeral(n)| == 1 + |Numeral(n / 10)|
  {
  }

  lemma {:induction false} PaddedWith(s: string, width: nat)
    ensures |s| >= width ==> Padded(s, width) == s
    ensures |s| < width ==> |Padded(s, width)| == width && exists zeros: string :: AllZeros(zeros) && Padded(s, width) == zeros + s
    decreases width - |s|
  {
    if |s| < width {
      PaddedWith("0" + s, width);
      if |s| + 1 < width {
        var zeros: string :| AllZeros(zeros) && Padded("0" + s, width) == zeros + ("0" + s);
        assert AllZeros(zeros + "0") && zeros + ("0" + s) == (zeros + "0") + s;
      } else {
        assert AllZeros("0");
      }
    }
  }

  predicate AllZeros(s: string) { forall i :: 0 <= i < |s| ==> s[i] == '0' }

  /** How a version is written: "0.0." and its number, with zeros in front up to four digits and none beyond that. */
  lemma VersionText(max: nat)
    ensures exists zeros: string :: AllZeros(zeros) && VersionAfter(max) == "0.0." + (zeros + Numeral(max + 1))
    ensures if max + 1 < 10000 then |VersionAfter(max)| == 8 else VersionAfter(max) == "0.0." + Numeral(max + 1)
  {
    NumeralWidth(max + 1, 3);
    NumeralWidth(max + 1, 4);
    assert TenTo(3) == 1000 && TenTo(4) == 10000;
    PaddedWith(Numeral(max + 1), 4);
    if |Numeral(max + 1)| >= 4 { assert AllZeros("") && "" + Numeral(max + 1) == Numeral(max + 1); }
  }

  predicate ParserBlank(c: char) { c == ' ' || 9 <= c as int <= 13 }

  predicate ParserBlanks(s: string) { forall i :: 0 <= i < |s| ==> ParserBlank(s[i]) }

  lemma {:induction false} BlanksAreSkipped(blanks: string, s: string)
    requires ParserBlanks(blanks) && (s == [] || !ParserBlank(s[0]))
    ensures SkipBlanks(blanks + s) == s
  {
    if blanks == [] {
      assert blanks + s == s;
    } else {
      BlanksAreSkipped(blanks[1..], s);
      assert (blanks + s)[1..] == blanks[1..] + s;
    }
  }

  lemma {:induction false} DigitsEnd(digits: string, rest: string)
    requires AllDigits(digits) && (rest == [] || !IsDigit(rest[0]))
    ensures LeadingDigits(digits + rest) == digits
  {
    if digits == [] {
      assert digits + rest == rest;
    } else {
      DigitsEnd(digits[1..], rest);
      assert (digits + rest)[1..] == digits[1..] + rest;
    }
  }

  /**
   What a patch number may look like: blanks, a sign or none, digits, and anything that does
   not begin with a digit. It is worth what its digits are, if an int can hold that; without
   digits it is nothing.
   */
  lemma ParsesExactly(blanks: string, sign: string, digits: string, rest: string)
    requires ParserBlanks(blanks) && (sign == "" || sign == "-" || sign == "+") && AllDigits(digits)
    requires rest == [] || !IsDigit(rest[0])
    requires sign == "" && digits == [] && rest != [] ==> rest[0] != '-' && rest[0] != '+' && !ParserBlank(rest[0])
    ensures ParseInt(blanks + (sign + (digits + rest))) ==
      var value: int := if sign == "-" then -(Value(digits) as int) else Value(digits);
      if digits != [] && -0x8000_0000 <= value <= 0x7FFF_FFFF then Some(value) else None
  {
    var number := sign + (digits + rest);
    assert digits != [] ==> (digits + rest)[0] == digits[0] && IsDigit(digits[0]);
    assert digits == [] ==> digits + rest == rest;
    assert sign == "" ==> number == digits + rest;
    assert sign != "" ==> number[0] == sign[0] && number[1..] == digits + rest;
    BlanksAreSkipped(blanks, number);
    DigitsEnd(digits, rest);
  }

  lemma TagText(digits: string)
    ensures PatchOf("v" + ("0.0." + digits)) == ParseInt(digits)
  {
    var tag := "v" + ("0.0." + digits);
    assert tag == TAG_PREFIX + digits;
    assert tag[|TAG_PREFIX|..] == digits;
  }

  /** A new version is above every known one, and its tag is not taken. */
  lemma NextVersionIsNew(tags: set<string>)
    requires MaxPatch(tags) < INT_MAX
    ensures var tag := "v" + NextStoreVersion(tags);
      && tag !in tags && PatchOf(tag).Some?
      && forall t :: t in tags && PatchOf(t).Some? ==> PatchOf(t).value < PatchOf(tag).value
  {
    VersionParsesBack(MaxPatch(tags));
  }
}
