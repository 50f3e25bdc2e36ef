/** `sortByProperty` and `isEmptyString`. The sort compares the property
    values with JavaScript's `<` and `>` on strings and relies on
    `Array.prototype.sort` being stable, as required from ECMAScript 2019
    on (section 22.1.3.27 of ECMA-262, 10th edition). */
module Utils {
  import opened Text
  import opened Seqs

  /** `a` may stand before `b`: its key is not after `b`'s in the chosen
      direction. */
  predicate Ordered<T>(a: T, b: T, key: T -> string, ascending: bool) {
    if ascending then LexLe(key(a), key(b)) else LexLe(key(b), key(a))
  }

  /** The comparator returns a negative number for `(a, b)`: `a` must stand
      strictly before `b`. */
  predicate Precedes<T>(a: T, b: T, key: T -> string, ascending: bool) {
    !Ordered(b, a, key, ascending)
  }

  predicate Sorted<T>(s: seq<T>, key: T -> string, ascending: bool) {
    forall i, j :: 0 <= i < j < |s| ==> Ordered(s[i], s[j], key, ascending)
  }

  lemma OrderedTotal<T>(a: T, b: T, key: T -> string, ascending: bool)
    ensures Ordered(a, b, key, ascending) || Ordered(b, a, key, ascending)
  {
    LexLeTotal(key(a), key(b));
  }

  lemma OrderedTransitive<T>(a: T, b: T, c: T, key: T -> string, ascending: bool)
    requires Ordered(a, b, key, ascending) && Ordered(b, c, key, ascending)
    ensures Ordered(a, c, key, ascending)
  {
    if ascending {
      LexLeTransitive(key(a), key(b), key(c));
    } else {
      LexLeTransitive(key(c), key(b), key(a));
    }
  }

  /** Elements ordered both ways have the same key. */
  lemma OrderedBothWays<T>(a: T, b: T, key: T -> string, ascending: bool)
    requires Ordered(a, b, key, ascending) && Ordered(b, a, key, ascending)
    ensures key(a) == key(b)
  {
    LexLeAntisymmetric(key(a), key(b));
  }

  /** Places `x` after every element of `s` that it does not strictly
      precede; a later element thus stays behind earlier ones with the same
      key. */
  function Insert<T>(x: T, s: seq<T>, key: T -> string, ascending: bool): (r: seq<T>)
    ensures |r| == |s| + 1
  {
    if |s| == 0 then [x]
    else if Precedes(x, s[0], key, ascending) then [x] + s
    else [s[0]] + Insert(x, s[1..], key, ascending)
  }

  /** `sortByProperty(array, property, ascending)` with the property read
      through `key`: a stable sort of a copy of the input. */
  function SortByProperty<T>(xs: seq<T>, key: T -> string, ascending: bool): (r: seq<T>)
    ensures |r| == |xs|
  {
    if |xs| == 0 then []
    else Insert(xs[|xs| - 1], SortByProperty(xs[..|xs| - 1], key, ascending), key, ascending)
  }

  lemma {:induction false} InsertPermutes<T>(x: T, s: seq<T>, key: T -> string, ascending: bool)
    ensures multiset(Insert(x, s, key, ascending)) == multiset(s) + multiset{x}
    decreases |s|
  {
    if |s| > 0 && !Precedes(x, s[0], key, ascending) {
      InsertPermutes(x, s[1..], key, ascending);
      assert s == [s[0]] + s[1..];
    }
  }

  lemma {:induction false} InsertSorted<T>(x: T, s: seq<T>, key: T -> string, ascending: bool)
    requires Sorted(s, key, ascending)
    ensures Sorted(Insert(x, s, key, ascending), key, ascending)
    decreases |s|
  {
    if |s| > 0 {
      var r := Insert(x, s, key, ascending);
      if Precedes(x, s[0], key, ascending) {
        OrderedTotal(x, s[0], key, ascending);
        forall j | 1 <= j < |r|
          ensures Ordered(r[0], r[j], key, ascending)
        {
          if j > 1 {
            OrderedTransitive(x, s[0], s[j - 1], key, ascending);
          }
        }
      } else {
        var t := Insert(x, s[1..], key, ascending);
        InsertSorted(x, s[1..], key, ascending);
        InsertPermutes(x, s[1..], key, ascending);
        forall j | 0 <= j < |t|
          ensures Ordered(s[0], t[j], key, ascending)
        {
          assert t[j] in multiset(t);
          if t[j] != x {
            assert t[j] in s[1..];
          }
        }
        assert r == [s[0]] + t;
      }
    }
  }

  /** The elements whose key is `k`. */
  function KeyIs<T>(key: T -> string, k: string): T -> bool {
    e => key(e) == k
  }

  /** In a sorted list, whatever is ordered before some element is ordered
      before the first one too. */
  lemma SortedHead<T>(x: T, s: seq<T>, key: T -> string, ascending: bool)
    requires Sorted(s, key, ascending) && |s| > 0
    ensures forall i :: 0 <= i < |s| ==> Ordered(s[i], x, key, ascending) ==> Ordered(s[0], x, key, ascending)
  {
    forall i | 0 < i < |s| && Ordered(s[i], x, key, ascending)
      ensures Ordered(s[0], x, key, ascending)
    {
      OrderedTransitive(s[0], s[i], x, key, ascending);
    }
  }

  /** No element of a sorted list has `x`'s key when `x` strictly
      precedes its first element. */
  lemma PrecedingHasNoTies<T>(x: T, s: seq<T>, key: T -> string, ascending: bool)
    requires Sorted(s, key, ascending) && |s| > 0 && Precedes(x, s[0], key, ascending)
    ensures Filter(s, KeyIs(key, key(x))) == []
  {
    SortedHead(x, s, key, ascending);
    LexLeReflexive(key(x));
    assert forall i :: 0 <= i < |s| ==> !Ordered(s[i], x, key, ascending);
    FilterNone(s, KeyIs(key, key(x)));
  }

  /** The case of `InsertKeepsTies` where `x` goes first. */
  lemma InsertInFrontKeepsTies<T>(x: T, s: seq<T>, key: T -> string, ascending: bool, k: string)
    requires Sorted(s, key, ascending) && |s| > 0 && Precedes(x, s[0], key, ascending)
    ensures Filter(Insert(x, s, key, ascending), KeyIs(key, k))
         == Filter(s, KeyIs(key, k)) + (if key(x) == k then [x] else [])
  {
    FilterAppend([x], s, KeyIs(key, k));
    if key(x) == k {
      PrecedingHasNoTies(x, s, key, ascending);
    }
  }

  /** Filtering by one key value after inserting `x` into a sorted list
      appends `x` to what was kept before: `x` lands behind every element
      with its key. */
  lemma {:induction false} InsertKeepsTies<T>(x: T, s: seq<T>, key: T -> string, ascending: bool, k: string)
    requires Sorted(s, key, ascending)
    ensures Filter(Insert(x, s, key, ascending), KeyIs(key, k))
         == Filter(s, KeyIs(key, k)) + (if key(x) == k then [x] else [])
    decreases |s|
  {
    var p := KeyIs(key, k);
    if |s| == 0 {
    } else if Precedes(x, s[0], key, ascending) {
      InsertInFrontKeepsTies(x, s, key, ascending, k);
    } else {
      InsertKeepsTies(x, s[1..], key, ascending, k);
      FilterConsStep(s[0], s[1..], Insert(x, s[1..], key, ascending), p,
                     if key(x) == k then [x] else []);
      assert s == [s[0]] + s[1..];
    }
  }

  /** Putting the same element in front of two lists whose filtered forms
      differ by a suffix keeps that difference. */
  lemma FilterConsStep<T>(y: T, a: seq<T>, b: seq<T>, p: T -> bool, tail: seq<T>)
    requires Filter(b, p) == Filter(a, p) + tail
    ensures Filter([y] + b, p) == Filter([y] + a, p) + tail
  {
    var h := if p(y) then [y] else [];
    calc {
      Filter([y] + b, p);
      { FilterCons(y, b, p); }
      h + Filter(b, p);
      h + (Filter(a, p) + tail);
      { AppendAssociative(h, Filter(a, p), tail); }
      (h + Filter(a, p)) + tail;
      { FilterCons(y, a, p); }
      Filter([y] + a, p) + tail;
    }
  }

  /** The result is a permutation of the input in key order (non-decreasing
      when ascending, non-increasing otherwise). */
  lemma {:induction false} SortByPropertySorts<T>(xs: seq<T>, key: T -> string, ascending: bool)
    ensures multiset(SortByProperty(xs, key, ascending)) == multiset(xs)
    ensures Sorted(SortByProperty(xs, key, ascending), key, ascending)
    decreases |xs|
  {
    if |xs| > 0 {
      var init := xs[..|xs| - 1];
      SortByPropertySorts(init, key, ascending);
      InsertPermutes(xs[|xs| - 1], SortByProperty(init, key, ascending), key, ascending);
      InsertSorted(xs[|xs| - 1], SortByProperty(init, key, ascending), key, ascending);
      assert xs == init + [xs[|xs| - 1]];
    }
  }

  /** Stability: the elements with any one key value appear in the result
      in exactly their input order, in both directions. */
  lemma {:induction false} SortByPropertyStable<T>(xs: seq<T>, key: T -> string, ascending: bool, k: string)
    ensures Filter(SortByProperty(xs, key, ascending), KeyIs(key, k)) == Filter(xs, KeyIs(key, k))
    decreases |xs|
  {
    if |xs| > 0 {
      var init := xs[..|xs| - 1];
      var last := xs[|xs| - 1];
      var p := KeyIs(key, k);
      assert xs == init + [last];
      calc {
        Filter(SortByProperty(xs, key, ascending), p);
        Filter(Insert(last, SortByProperty(init, key, ascending), key, ascending), p);
        { SortByPropertySorts(init, key, ascending);
          InsertKeepsTies(last, SortByProperty(init, key, ascending), key, ascending, k); }
        Filter(SortByProperty(init, key, ascending), p) + (if key(last) == k then [last] else []);
        { SortByPropertyStable(init, key, ascending, k); }
        Filter(init, p) + (if key(last) == k then [last] else []);
        { FilterCons(last, [], p);
          assert [last] + [] == [last];
          FilterAppend(init, [last], p); }
        Filter(xs, p);
      }
    }
  }

  /** The first character as a one-character key. */
  function Initial(s: string): string {
    if |s| > 0 then [s[0]] else ""
  }

  /** Ties stay in input order in both directions, so descending is not the
      reverse of ascending: `"a1"` and `"a2"`, keyed by their first
      character, keep their order either way. */
  lemma DescendingIsNotReversed(ascending: bool)
    ensures SortByProperty(["a1", "a2"], Initial, ascending) == ["a1", "a2"]
  {
    var xs := ["a1", "a2"];
    assert xs[..1] == ["a1"] && xs[..1][..0] == [];
    assert SortByProperty(xs[..1], Initial, ascending) == ["a1"];
    assert Initial("a1") == Initial("a2") == "a";
    LexLeReflexive("a");
    assert !Precedes("a2", "a1", Initial, ascending);
    assert Insert("a2", ["a1"], Initial, ascending) == ["a1"] + Insert("a2", [], Initial, ascending);
  }

  /** `isEmptyString`: the text is empty after trimming, that is, every
      character is whitespace (the empty string included). */
  predicate IsEmptyString(s: string) {
    Trim(s) == ""
  }

  lemma IsEmptyStringAllWhitespace(s: string)
    ensures IsEmptyString(s) <==> forall k :: 0 <= k < |s| ==> IsWhitespace(s[k])
    ensures IsEmptyString("")
  {
  }
}
