/** The one failure-free wrapper the other modules share. */
module Options {
  datatype Option<+T> = None | Some(value: T)
}

/**
 Strings in order.

 The program sorts two kinds of names: entry names and labels with `std::string`'s
 order, and repository paths with `std::filesystem::path`'s order, which compares
 component by component and therefore acts as if '/' came before every other character.
 Both are lexicographic orders that differ only in the rank of a character.
 */
module Ordering {
  datatype Order = Bytes | Components

  function Rank(o: Order, c: char): int {
    if o == Components && c == '/' then -1 else c as int
  }

  predicate Less(o: Order, a: string, b: string) {
    b != [] && (a == [] || Rank(o, a[0]) < Rank(o, b[0]) || (a[0] == b[0] && Less(o, a[1..], b[1..])))
  }

  lemma {:induction false} LessIsTotal(o: Order, a: string, b: string)
    ensures Less(o, a, b) || a == b || Less(o, b, a)
    ensures !(Less(o, a, b) && Less(o, b, a))
    ensures !Less(o, a, a)
  {
    if a != [] {
      LessIsTotal(o, a[1..], a[1..]);
      if b != [] && a[0] == b[0] {
        LessIsTotal(o, a[1..], b[1..]);
        if a[1..] == b[1..] {
          assert a == [a[0]] + a[1..] && b == [b[0]] + b[1..];
        }
      }
    }
  }

  lemma {:induction false} LessIsTransitive(o: Order, a: string, b: string, c: string)
    requires Less(o, a, b) && Less(o, b, c)
    ensures Less(o, a, c)
  {
    if a != [] && a[0] == b[0] && b[0] == c[0] {
      LessIsTransitive(o, a[1..], b[1..], c[1..]);
    }
  }

  /** Which of two characters comes first: the smaller one, but '/' before all others where paths are compared. */
  predicate Before(o: Order, c: char, d: char) {
    if o == Components && (c == '/' || d == '/') then c == '/' && d != '/' else c < d
  }

  lemma SameStart(a: string, b: string, k: nat)
    requires k <= |a| && k <= |b| && a[..k] == b[..k]
    ensures k > 0 ==> a != [] && b != [] && a[0] == b[0]
  {
    if k > 0 { assert a[..k][0] == a[0] && b[..k][0] == b[0]; }
  }

  /** A string comes before another one exactly if it is a proper beginning of it, or is smaller where they first differ. */
  lemma {:induction false} LessExactly(o: Order, a: string, b: string)
    ensures Less(o, a, b) <==>
      exists k: nat :: k <= |a| && k < |b| && a[..k] == b[..k] && (k == |a| || Before(o, a[k], b[k]))
  {
    if a != [] && b != [] && a[0] == b[0] {
      LessExactly(o, a[1..], b[1..]);
      if k: nat :| k <= |a[1..]| && k < |b[1..]| && a[1..][..k] == b[1..][..k] && (k == |a[1..]| || Before(o, a[1..][k], b[1..][k])) {
        assert a[..k + 1] == [a[0]] + a[1..][..k] && b[..k + 1] == [b[0]] + b[1..][..k];
      }
      if k: nat :| k <= |a| && k < |b| && a[..k] == b[..k] && (k == |a| || Before(o, a[k], b[k])) {
        assert k > 0;
        assert a[1..][..k - 1] == a[..k][1..] && b[1..][..k - 1] == b[..k][1..];
      }
    } else if b != [] {
      assert a[..0] == b[..0];
      if k: nat :| k <= |a| && k < |b| && a[..k] == b[..k] && (k == |a| || Before(o, a[k], b[k])) { SameStart(a, b, k); }
    }
  }

  ghost predicate StrictlySorted(o: Order, xs: seq<string>) {
    forall i, j :: 0 <= i < j < |xs| ==> Less(o, xs[i], xs[j])
  }

  ghost function Elements(xs: seq<string>): set<string> {
    set x | x in xs
  }

  /** A strictly sorted list is determined by its elements. */
  lemma {:induction false} SortedListIsUnique(o: Order, xs: seq<string>, ys: seq<string>)
    requires StrictlySorted(o, xs) && StrictlySorted(o, ys)
    requires Elements(xs) == Elements(ys)
    ensures xs == ys
  {
    if ys != [] { assert ys[0] in Elements(ys); }
    if xs != [] {
      assert xs[0] in Elements(xs);
      assert ys != [] && ys[0] in Elements(ys);
      var i :| 0 <= i < |ys| && ys[i] == xs[0];
      var j :| 0 <= j < |xs| && xs[j] == ys[0];
      LessIsTotal(o, xs[0], ys[0]);
      forall x ensures x in Elements(xs[1..]) <==> x in Elements(ys[1..]) {
        LessIsTotal(o, x, x);
        assert x in Elements(xs) <==> x in Elements(ys);
        assert xs == [xs[0]] + xs[1..] && ys == [ys[0]] + ys[1..];
      }
      SortedListIsUnique(o, xs[1..], ys[1..]);
      assert xs == [xs[0]] + xs[1..] && ys == [ys[0]] + ys[1..];
    }
  }

  /** Insertion that drops duplicates: one step of `std::sort` followed by `std::unique`. */
  function Insert(o: Order, x: string, xs: seq<string>): (r: seq<string>) {
    if xs == [] then [x]
    else if x == xs[0] then xs
    else if Less(o, x, xs[0]) then [x] + xs
    else [xs[0]] + Insert(o, x, xs[1..])
  }

  lemma {:induction false} InsertElements(o: Order, x: string, xs: seq<string>)
    ensures Elements(Insert(o, x, xs)) == Elements(xs) + {x}
  {
    if xs != [] && x != xs[0] && !Less(o, x, xs[0]) {
      InsertElements(o, x, xs[1..]);
      ElementsOfCons(xs[0], xs[1..]);
      ElementsOfCons(xs[0], Insert(o, x, xs[1..]));
      assert xs == [xs[0]] + xs[1..];
    } else {
      ElementsOfCons(x, xs);
    }
  }

  lemma ElementsOfCons(x: string, xs: seq<string>)
    ensures Elements([x] + xs) == {x} + Elements(xs)
  {
  }

  lemma {:induction false} InsertSorts(o: Order, x: string, xs: seq<string>)
    requires StrictlySorted(o, xs)
    ensures StrictlySorted(o, Insert(o, x, xs))
  {
    if xs == [] || x == xs[0] {
    } else if Less(o, x, xs[0]) {
      forall k | 0 <= k < |xs| ensures Less(o, x, xs[k]) {
        if k > 0 { LessIsTransitive(o, x, xs[0], xs[k]); }
      }
    } else {
      LessIsTotal(o, x, xs[0]);
      InsertSorts(o, x, xs[1..]);
      InsertElements(o, x, xs[1..]);
      SortedCons(o, xs[0], Insert(o, x, xs[1..]));
    }
  }

  lemma SortedCons(o: Order, x: string, rest: seq<string>)
    requires StrictlySorted(o, rest)
    requires forall y :: y in Elements(rest) ==> Less(o, x, y)
    ensures StrictlySorted(o, [x] + rest)
  {
    forall k | 0 <= k < |rest| ensures Less(o, x, rest[k]) {
      assert rest[k] in Elements(rest);
    }
  }

  /** `std::sort` then `erase(unique)`. */
  function SortUnique(o: Order, xs: seq<string>): (r: seq<string>) {
    if xs == [] then [] else Insert(o, xs[0], SortUnique(o, xs[1..]))
  }

  lemma {:induction false} SortUniqueSorts(o: Order, xs: seq<string>)
    ensures StrictlySorted(o, SortUnique(o, xs))
    ensures Elements(SortUnique(o, xs)) == Elements(xs)
  {
    if xs != [] {
      SortUniqueSorts(o, xs[1..]);
      InsertSorts(o, xs[0], SortUnique(o, xs[1..]));
      InsertElements(o, xs[0], SortUnique(o, xs[1..]));
      assert xs == [xs[0]] + xs[1..];
    }
  }

  /** The sorted listing of a finite set. */
  ghost function Listing(o: Order, s: set<string>): (r: seq<string>) {
    if s == {} then [] else var x :| x in s; Insert(o, x, Listing(o, s - {x}))
  }

  lemma {:induction false} ListingSorts(o: Order, s: set<string>)
    ensures StrictlySorted(o, Listing(o, s)) && Elements(Listing(o, s)) == s
    decreases |s|
  {
    if s != {} {
      var x :| x in s && Listing(o, s) == Insert(o, x, Listing(o, s - {x}));
      ListingSorts(o, s - {x});
      InsertSorts(o, x, Listing(o, s - {x}));
      InsertElements(o, x, Listing(o, s - {x}));
    }
  }

  /** The elements a loop with a filter pushes, in the order it meets them. */
  function Kept(xs: seq<string>, wanted: string -> bool): seq<string> {
    if xs == [] then [] else (if wanted(xs[0]) then [xs[0]] else []) + Kept(xs[1..], wanted)
  }

  lemma {:induction false} KeptSnoc(xs: seq<string>, x: string, wanted: string -> bool)
    ensures Kept(xs + [x], wanted) == Kept(xs, wanted) + if wanted(x) then [x] else []
  {
    if xs == [] {
      assert [x][1..] == [] && [] + [x] == [x];
    } else {
      KeptSnoc(xs[1..], x, wanted);
      assert (xs + [x])[1..] == xs[1..] + [x];
    }
  }

  lemma {:induction false} KeptElements(xs: seq<string>, wanted: string -> bool)
    ensures forall p :: p in Kept(xs, wanted) <==> p in xs && wanted(p)
  {
    if xs != [] {
      KeptElements(xs[1..], wanted);
      assert xs == [xs[0]] + xs[1..];
    }
  }

  lemma {:induction false} KeptSorted(o: Order, xs: seq<string>, wanted: string -> bool)
    requires StrictlySorted(o, xs)
    ensures StrictlySorted(o, Kept(xs, wanted))
  {
    if xs != [] {
      KeptSorted(o, xs[1..], wanted);
      KeptElements(xs[1..], wanted);
      if wanted(xs[0]) {
        SortedCons(o, xs[0], Kept(xs[1..], wanted));
      }
    }
  }

  /** Filtering a sorted listing gives the sorted listing of the filtered set. */
  lemma KeptIsListing(o: Order, xs: seq<string>, wanted: string -> bool, s: set<string>)
    requires StrictlySorted(o, xs) && forall x :: x in s <==> x in xs && wanted(x)
    ensures Kept(xs, wanted) == Listing(o, s)
  {
    KeptSorted(o, xs, wanted);
    KeptElements(xs, wanted);
    ListingSorts(o, s);
    SortedListIsUnique(o, Kept(xs, wanted), Listing(o, s));
  }
}
