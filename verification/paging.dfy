/** Page arithmetic shared by both listing endpoints: the `parseInt(x) || d`
    defaulting of the query numbers, `skip = (page - 1) * limit`,
    `.skip(skip).limit(limit)` on a cursor, and `Math.ceil(total / limit)`. */
module Paging {
  import opened Wrappers

  function Min(a: int, b: int): int {
    if a <= b then a else b
  }

  /** `parseInt(raw) || default`: the parsed number unless it is NaN (`None`) or 0. */
  function OrDefault(parsed: Option<nat>, default: nat): (r: nat)
    requires default > 0
    ensures r > 0
    ensures parsed.Some? && parsed.value != 0 ==> r == parsed.value
    ensures parsed.None? || parsed.value == 0 ==> r == default
  {
    match parsed
    case Some(n) => if n != 0 then n else default
    case None => default
  }

  /** The number of records before the first one of page `page` (pages count from 1). */
  function Skip(page: nat, limit: nat): (skip: nat)
    requires page >= 1
    ensures page == 1 ==> skip == 0
    ensures skip + limit == page * limit
  {
    (page - 1) * limit
  }

  /** `Math.ceil(total / limit)`: the least number of pages of `limit` records that hold `total` records. */
  function PageCount(total: nat, limit: nat): (pages: nat)
    requires limit > 0
    ensures pages * limit >= total
    ensures pages == 0 || (pages - 1) * limit < total
  {
    (total + limit - 1) / limit
  }

  /** The records a cursor yields after skipping `skip` and keeping at most `limit`. */
  function PageOf<T>(s: seq<T>, skip: nat, limit: nat): (r: seq<T>)
    ensures |r| == if skip >= |s| then 0 else Min(limit, |s| - skip)
    ensures forall i :: 0 <= i < |r| ==> r[i] == s[skip + i]
  {
    if skip >= |s| then [] else s[skip..Min(skip + limit, |s|)]
  }

  /** Record `k` of the full listing is record `k % limit` of page `k / limit + 1`. */
  lemma RecordOnItsPage<T>(s: seq<T>, limit: nat, k: nat)
    requires limit > 0 && k < |s|
    ensures var page := k / limit + 1;
            var r := PageOf(s, Skip(page, limit), limit);
            k % limit < |r| && r[k % limit] == s[k]
  {
    var page := k / limit + 1;
    assert Skip(page, limit) + k % limit == k;
  }

  /** Every page up to the last counted one holds a record, and the page after it is empty. */
  lemma {:induction false} PagesAreExactlyTheNonEmptyOnes<T>(s: seq<T>, limit: nat, page: nat)
    requires limit > 0 && page >= 1
    ensures |PageOf(s, Skip(page, limit), limit)| > 0 <==> page <= PageCount(|s|, limit)
  {
    var pages := PageCount(|s|, limit);
    if page <= pages {
      assert (page - 1) * limit <= (pages - 1) * limit by {
        MultiplyMonotonic(page - 1, pages - 1, limit);
      }
    } else {
      assert pages * limit <= (page - 1) * limit by {
        MultiplyMonotonic(pages, page - 1, limit);
      }
    }
  }

  lemma MultiplyMonotonic(a: nat, b: nat, c: nat)
    requires a <= b
    ensures a * c <= b * c
  {
  }

  /** Twenty-five records at ten per page make three pages, the third holding five. */
  lemma ThreePagesOfTwentyFive<T>(s: seq<T>)
    requires |s| == 25
    ensures PageCount(|s|, 10) == 3
    ensures |PageOf(s, Skip(3, 10), 10)| == 5
  {
  }
}
