/** Sequence operations the reducers and mock stores share: `Array.prototype.filter`
    with a negated test, `findIndex`, and removing or replacing one position. */
module Seqs {
  import opened Wrappers
  /** The positions of `s` whose elements `drop` lets through, in increasing order. */
  function KeptPositions<T>(s: seq<T>, drop: T -> bool): (p: seq<nat>)
    decreases |s|
  {
    if |s| == 0 then []
    else (if drop(s[0]) then [] else [0]) + Shift(KeptPositions(s[1..], drop))
  }

  function Shift(p: seq<nat>): (q: seq<nat>)
    ensures |q| == |p| && forall i :: 0 <= i < |p| ==> q[i] == p[i] + 1
  {
    seq(|p|, i requires 0 <= i < |p| => p[i] + 1)
  }

  ghost predicate Increasing(p: seq<nat>) {
    forall i, j :: 0 <= i < j < |p| ==> p[i] < p[j]
  }

  /** `p` lists, in increasing order, exactly the positions of `s` that `drop` lets through. */
  ghost predicate Selects<T>(p: seq<nat>, s: seq<T>, drop: T -> bool) {
    && Increasing(p)
    && (forall i :: 0 <= i < |p| ==> p[i] < |s| && !drop(s[p[i]]))
    && (forall j :: 0 <= j < |s| && !drop(s[j]) ==> j in p)
  }

  lemma {:induction false} KeptPositionsSelect<T>(s: seq<T>, drop: T -> bool)
    ensures Selects(KeptPositions(s, drop), s, drop)
    decreases |s|
  {
    if |s| > 0 {
      KeptPositionsSelect(s[1..], drop);
      KeptStep(s, drop);
    }
  }

  /** One step of the induction: the head's position, then the tail's shifted by one. */
  lemma KeptStep<T>(s: seq<T>, drop: T -> bool)
    requires |s| > 0 && Selects(KeptPositions(s[1..], drop), s[1..], drop)
    ensures Selects(KeptPositions(s, drop), s, drop)
  {
    var q := KeptPositions(s[1..], drop);
    var h: seq<nat> := if drop(s[0]) then [] else [0];
    var p := h + Shift(q);
    assert p == KeptPositions(s, drop);
    StepInRange(s, drop, q, h, p);
    StepCovers(s, drop, q, h, p);
    StepIncreasing(q, h, p);
  }

  lemma StepInRange<T>(s: seq<T>, drop: T -> bool, q: seq<nat>, h: seq<nat>, p: seq<nat>)
    requires |s| > 0 && Selects(q, s[1..], drop)
    requires h == (if drop(s[0]) then [] else [0]) && p == h + Shift(q)
    ensures forall i :: 0 <= i < |p| ==> p[i] < |s| && !drop(s[p[i]])
  {
    forall i | 0 <= i < |p| ensures p[i] < |s| && !drop(s[p[i]]) {
      if i >= |h| {
        assert p[i] == q[i - |h|] + 1;
        assert s[1..][q[i - |h|]] == s[p[i]];
      }
    }
  }

  lemma StepCovers<T>(s: seq<T>, drop: T -> bool, q: seq<nat>, h: seq<nat>, p: seq<nat>)
    requires |s| > 0 && Selects(q, s[1..], drop)
    requires h == (if drop(s[0]) then [] else [0]) && p == h + Shift(q)
    ensures forall j :: 0 <= j < |s| && !drop(s[j]) ==> j in p
  {
    forall j | 0 <= j < |s| && !drop(s[j]) ensures j in p {
      if j == 0 {
        assert p[0] == 0;
      } else {
        assert s[1..][j - 1] == s[j];
        var i :| 0 <= i < |q| && q[i] == j - 1;
        assert p[i + |h|] == j;
      }
    }
  }

  lemma StepIncreasing(q: seq<nat>, h: seq<nat>, p: seq<nat>)
    requires Increasing(q) && (h == [] || h == [0]) && p == h + Shift(q)
    ensures Increasing(p)
  {
    forall i, j | 0 <= i < j < |p| ensures p[i] < p[j] {
      assert p[j] == q[j - |h|] + 1;
      if i >= |h| {
        assert p[i] == q[i - |h|] + 1;
      }
    }
  }

  /** `r` holds the elements of `s` that `drop` lets through, in the order `s` has them. */
  ghost predicate KeepsInOrder<T>(r: seq<T>, s: seq<T>, drop: T -> bool) {
    var p := KeptPositions(s, drop);
    && Selects(p, s, drop)
    && |r| == |p|
    && forall i :: 0 <= i < |r| ==> r[i] == s[p[i]]
  }

  /** The elements of `s` that `drop` lets through, head first. */
  function Filter<T>(s: seq<T>, drop: T -> bool): seq<T>
    decreases |s|
  {
    if |s| == 0 then [] else (if drop(s[0]) then [] else [s[0]]) + Filter(s[1..], drop)
  }

  /** `s.filter(x => !drop(x))`: the elements `drop` rejects, in their order. */
  function RemoveWhere<T(!new)>(s: seq<T>, drop: T -> bool): (r: seq<T>)
    ensures KeepsInOrder(r, s, drop)
    ensures forall x :: multiset(r)[x] == if drop(x) then 0 else multiset(s)[x]
    ensures forall x :: x in r <==> x in s && !drop(x)
    ensures forall i :: 0 <= i < |r| ==> !drop(r[i])
    ensures |r| <= |s|
    ensures (forall i :: 0 <= i < |s| ==> !drop(s[i])) ==> r == s
  {
    FilterMeetsContract(s, drop);
    var r := Filter(s, drop);
    assert forall i :: 0 <= i < |r| ==> r[i] in r;
    r
  }

  lemma {:induction false} FilterMeetsContract<T(!new)>(s: seq<T>, drop: T -> bool)
    ensures var r := Filter(s, drop);
      && KeepsInOrder(r, s, drop)
      && (forall x :: multiset(r)[x] == if drop(x) then 0 else multiset(s)[x])
      && (forall x :: x in r <==> x in s && !drop(x))
      && |r| <= |s|
      && ((forall i :: 0 <= i < |s| ==> !drop(s[i])) ==> r == s)
    decreases |s|
  {
    if |s| == 0 {
      assert KeptPositions(s, drop) == [];
    } else {
      var rest := Filter(s[1..], drop);
      var r := Filter(s, drop);
      FilterMeetsContract(s[1..], drop);
      KeptPositionsSelect(s, drop);
      RemoveWhereOrderStep(s, drop, rest, r);
      RemoveWhereCountStep(s, drop, rest, r);
      assert forall x :: x in r <==> x in multiset(r);
      assert forall x :: x in s <==> x in multiset(s);
      RemoveWhereNoneStep(s, drop, rest, r);
    }
  }

  lemma RemoveWhereOrderStep<T>(s: seq<T>, drop: T -> bool, rest: seq<T>, r: seq<T>)
    requires |s| > 0 && r == (if drop(s[0]) then [] else [s[0]]) + rest
    requires KeepsInOrder(rest, s[1..], drop)
    requires Selects(KeptPositions(s, drop), s, drop)
    ensures KeepsInOrder(r, s, drop)
  {
    var p := KeptPositions(s, drop);
    var q := KeptPositions(s[1..], drop);
    var h := if drop(s[0]) then 0 else 1;
    assert p == (if drop(s[0]) then [] else [0]) + Shift(q);
    forall i | 0 <= i < |r| ensures r[i] == s[p[i]] {
      if i >= h {
        assert r[i] == rest[i - h] == s[1..][q[i - h]];
      }
    }
  }

  lemma RemoveWhereCountStep<T>(s: seq<T>, drop: T -> bool, rest: seq<T>, r: seq<T>)
    requires |s| > 0 && r == (if drop(s[0]) then [] else [s[0]]) + rest
    requires forall x :: multiset(rest)[x] == if drop(x) then 0 else multiset(s[1..])[x]
    ensures forall x :: multiset(r)[x] == if drop(x) then 0 else multiset(s)[x]
  {
    assert s == [s[0]] + s[1..];
    assert multiset(s) == multiset{s[0]} + multiset(s[1..]);
  }

  lemma RemoveWhereNoneStep<T>(s: seq<T>, drop: T -> bool, rest: seq<T>, r: seq<T>)
    requires |s| > 0 && r == (if drop(s[0]) then [] else [s[0]]) + rest
    requires (forall i :: 0 <= i < |s[1..]| ==> !drop(s[1..][i])) ==> rest == s[1..]
    ensures (forall i :: 0 <= i < |s| ==> !drop(s[i])) ==> r == s
  {
    if forall i :: 0 <= i < |s| ==> !drop(s[i]) {
      assert forall i :: 0 <= i < |s[1..]| ==> s[1..][i] == s[i + 1];
      assert r == [s[0]] + s[1..] == s;
    }
  }

  /** Filtering distributes over concatenation, so the kept elements keep their order. */
  lemma RemoveWhereAppend<T(!new)>(a: seq<T>, b: seq<T>, drop: T -> bool)
    ensures RemoveWhere(a + b, drop) == RemoveWhere(a, drop) + RemoveWhere(b, drop)
  {
    FilterAppend(a, b, drop);
  }

  lemma {:induction false} FilterAppend<T>(a: seq<T>, b: seq<T>, drop: T -> bool)
    ensures Filter(a + b, drop) == Filter(a, drop) + Filter(b, drop)
    decreases |a|
  {
    if |a| == 0 {
      assert a + b == b;
    } else {
      assert (a + b)[0] == a[0] && (a + b)[1..] == a[1..] + b;
      FilterAppend(a[1..], b, drop);
    }
  }

  /** Filtering twice by the same test is filtering once. */
  lemma RemoveWhereIdempotent<T(!new)>(s: seq<T>, drop: T -> bool)
    ensures RemoveWhere(RemoveWhere(s, drop), drop) == RemoveWhere(s, drop)
  {
  }

  /** `s.findIndex(found)`: the first position whose element passes, `None` for -1. */
  function FindFirst<T>(s: seq<T>, found: T -> bool): (r: Option<nat>)
    ensures r.Some? ==> r.value < |s| && found(s[r.value])
    ensures r.Some? ==> forall j :: 0 <= j < r.value ==> !found(s[j])
    ensures r.None? ==> forall j :: 0 <= j < |s| ==> !found(s[j])
  {
    if |s| == 0 then None
    else if found(s[0]) then Some(0)
    else match FindFirst(s[1..], found)
      case Some(k) => Some(k + 1)
      case None => None
  }

  /** `s.splice(k, 1)` on a copy. */
  function RemoveAt<T>(s: seq<T>, k: nat): (r: seq<T>)
    requires k < |s|
    ensures |r| == |s| - 1
    ensures forall i :: 0 <= i < |r| ==> r[i] == s[if i < k then i else i + 1]
    ensures multiset(r) + multiset{s[k]} == multiset(s)
  {
    assert s == s[..k] + [s[k]] + s[k + 1..];
    s[..k] + s[k + 1..]
  }
}
