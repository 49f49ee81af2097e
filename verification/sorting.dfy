/** Sorting by a comparator, the model of a database `sort` and of
    `Array.prototype.sort` with a comparison function. The comparator
    `before(a, b)` says that `a` may be placed ahead of `b`. */
module Sorting {
  import Seqs

  /** Every two elements are comparable and placement is transitive. */
  ghost predicate TotalPreorder<T(!new)>(before: (T, T) -> bool) {
    && (forall a, b :: before(a, b) || before(b, a))
    && (forall a, b, c :: before(a, b) && before(b, c) ==> before(a, c))
  }

  predicate SortedBy<T>(s: seq<T>, before: (T, T) -> bool) {
    forall i, j :: 0 <= i < j < |s| ==> before(s[i], s[j])
  }

  /** `x` may be placed ahead of every element of `s`. */
  ghost predicate AheadOfAll<T>(x: T, s: seq<T>, before: (T, T) -> bool) {
    forall i :: 0 <= i < |s| ==> before(x, s[i])
  }

  /** Places `x` after every element of `s` it may follow, ahead of the first
      element that must come after it; elements that tie with `x` stay ahead. */
  function Insert<T(!new)>(x: T, s: seq<T>, before: (T, T) -> bool): (r: seq<T>)
    requires TotalPreorder(before) && SortedBy(s, before)
    ensures SortedBy(r, before)
    ensures multiset(r) == multiset(s) + multiset{x}
    ensures forall y :: AheadOfAll(y, s, before) && before(y, x) ==> AheadOfAll(y, r, before)
  {
    if |s| == 0 || !before(s[0], x) then [x] + s
    else
      var rest := Insert(x, s[1..], before);
      assert AheadOfAll(s[0], s[1..], before);
      assert multiset(s) == multiset{s[0]} + multiset(s[1..]) by {
        assert s == [s[0]] + s[1..];
      }
      [s[0]] + rest
  }

  /** Insertion sort: a sorted permutation of `s`, ties kept in their input order. */
  function SortBy<T(!new)>(s: seq<T>, before: (T, T) -> bool): (r: seq<T>)
    requires TotalPreorder(before)
    ensures SortedBy(r, before)
    ensures multiset(r) == multiset(s)
    ensures |r| == |s|
  {
    if |s| == 0 then []
    else
      var r := Insert(s[|s| - 1], SortBy(s[..|s| - 1], before), before);
      assert s == s[..|s| - 1] + [s[|s| - 1]];
      assert |r| == |multiset(r)| == |s|;
      r
  }

  /** Sorting a sorted sequence changes nothing. */
  lemma {:induction false} SortBySorted<T(!new)>(s: seq<T>, before: (T, T) -> bool)
    requires TotalPreorder(before) && SortedBy(s, before)
    ensures SortBy(s, before) == s
  {
    if |s| > 0 {
      var init := s[..|s| - 1];
      assert SortedBy(init, before);
      SortBySorted(init, before);
      AppendLast(init, s[|s| - 1], before);
      assert init + [s[|s| - 1]] == s;
    }
  }

  /** An element that every element of a sorted `s` may precede goes to the end. */
  lemma {:induction false} AppendLast<T(!new)>(s: seq<T>, x: T, before: (T, T) -> bool)
    requires TotalPreorder(before) && SortedBy(s, before)
    requires forall i :: 0 <= i < |s| ==> before(s[i], x)
    ensures Insert(x, s, before) == s + [x]
  {
    if |s| > 0 {
      AppendLast(s[1..], x, before);
      assert s == [s[0]] + s[1..];
    }
  }

  /** The sort is stable: the elements of any one tie class (the ones `other`
      lets through, all placeable ahead of each other) come out in their input order. */
  lemma SortByStable<T(!new)>(s: seq<T>, before: (T, T) -> bool, other: T -> bool)
    requires TotalPreorder(before)
    requires forall y, z :: !other(y) && !other(z) ==> before(y, z)
    ensures Seqs.RemoveWhere(SortBy(s, before), other) == Seqs.RemoveWhere(s, other)
  {
    SortByKeepsTies(s, before, other);
  }

  lemma {:induction false} SortByKeepsTies<T(!new)>(s: seq<T>, before: (T, T) -> bool, other: T -> bool)
    requires TotalPreorder(before)
    requires forall y, z :: !other(y) && !other(z) ==> before(y, z)
    ensures Seqs.Filter(SortBy(s, before), other) == Seqs.Filter(s, other)
    decreases |s|
  {
    if |s| > 0 {
      var init := s[..|s| - 1];
      var x := s[|s| - 1];
      SortByKeepsTies(init, before, other);
      InsertKeepsTies(x, SortBy(init, before), before, other);
      assert s == init + [x];
      Seqs.FilterAppend(init, [x], other);
    }
  }

  /** Inserting `x` puts it after every element of its tie class. */
  lemma {:induction false} InsertKeepsTies<T(!new)>(x: T, s: seq<T>, before: (T, T) -> bool, other: T -> bool)
    requires TotalPreorder(before) && SortedBy(s, before)
    requires forall y, z :: !other(y) && !other(z) ==> before(y, z)
    ensures Seqs.Filter(Insert(x, s, before), other) == Seqs.Filter(s, other) + Seqs.Filter([x], other)
    decreases |s|
  {
    if |s| == 0 || !before(s[0], x) {
      InsertInFrontKeepsTies(x, s, before, other);
    } else {
      assert SortedBy(s[1..], before);
      InsertKeepsTies(x, s[1..], before, other);
      assert Insert(x, s, before) == [s[0]] + Insert(x, s[1..], before);
      assert s == [s[0]] + s[1..];
      FilterBehindHead(s[0], Insert(x, s[1..], before), s[1..], [x], other);
    }
  }

  /** When `x` goes in front, nothing behind it ties with it. */
  lemma InsertInFrontKeepsTies<T(!new)>(x: T, s: seq<T>, before: (T, T) -> bool, other: T -> bool)
    requires TotalPreorder(before) && SortedBy(s, before)
    requires forall y, z :: !other(y) && !other(z) ==> before(y, z)
    requires |s| == 0 || !before(s[0], x)
    ensures Seqs.Filter(Insert(x, s, before), other) == Seqs.Filter(s, other) + Seqs.Filter([x], other)
  {
    assert Insert(x, s, before) == [x] + s;
    Seqs.FilterAppend([x], s, other);
    if !other(x) {
      NothingTied(s, before, other, x);
      assert Seqs.Filter(s, other) == [];
    } else {
      assert Seqs.Filter([x], other) == [];
    }
  }

  lemma FilterBehindHead<T>(h: T, t: seq<T>, u: seq<T>, v: seq<T>, other: T -> bool)
    requires Seqs.Filter(t, other) == Seqs.Filter(u, other) + Seqs.Filter(v, other)
    ensures Seqs.Filter([h] + t, other) == Seqs.Filter([h] + u, other) + Seqs.Filter(v, other)
  {
    Seqs.FilterAppend([h], t, other);
    Seqs.FilterAppend([h], u, other);
    AppendAssoc(Seqs.Filter([h], other), Seqs.Filter(u, other), Seqs.Filter(v, other));
  }

  lemma AppendAssoc<T>(a: seq<T>, b: seq<T>, c: seq<T>)
    ensures a + (b + c) == (a + b) + c
  {
  }

  /** Nothing in a sorted `s` whose head must follow `x` ties with `x`. */
  lemma {:induction false} NothingTied<T(!new)>(s: seq<T>, before: (T, T) -> bool, other: T -> bool, x: T)
    requires TotalPreorder(before) && SortedBy(s, before)
    requires forall y, z :: !other(y) && !other(z) ==> before(y, z)
    requires !other(x) && (|s| == 0 || !before(s[0], x))
    ensures Seqs.Filter(s, other) == []
    decreases |s|
  {
    if |s| > 0 {
      assert other(s[0]);
      if |s| > 1 {
        assert !before(s[1], x) by {
          assert before(s[0], s[1]);
        }
        assert SortedBy(s[1..], before);
      }
      NothingTied(s[1..], before, other, x);
    }
  }
}
