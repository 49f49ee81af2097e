/** Requests and responses of the two serverless handlers, and the listing
    body both of them build from a page of the collection. */
module Http {
  import opened Wrappers
  import opened Documents
  import opened Paging
  import Sorting

  /** The verbs the handlers test for; `Other` is any verb they do not name. */
  datatype Method = Options | Get | Post | Delete | Other

  /** The query-string parameters the handlers read. Numbers are what
      `parseInt` makes of the raw text (`None` for NaN). */
  datatype Query = Query(
    page: Option<nat>,
    limit: Option<nat>,
    projectType: Option<string>,
    search: Option<string>,
    id: Option<string>)

  /** Header names are lower case, as Node delivers them. `body` is the parsed
      JSON object (`None` when there is none); `remoteAddress` is the socket's peer. */
  datatype Request = Request(
    verb: Method,
    headers: map<string, string>,
    query: Query,
    body: Option<Document>,
    remoteAddress: Option<string>)

  datatype Pagination = Pagination(page: nat, limit: nat, total: nat, pages: nat)

  /** The JSON bodies the handlers send. */
  datatype Body =
    | NoContent                                        // `res.status(200).end()`
    | ErrorMessage(error: string)                      // `{ error }`
    | Outcome(success: bool, message: string)          // `{ success, message }`
    | TokenIssued(token: string, message: string)      // `{ success: true, token, message }`
    | Page(data: seq<Document>, pagination: Pagination) // `{ success: true, data, pagination }`
    | Saved(message: string, id: Value)                // `{ success: true, message, id }`
    | InternalError(cause: StoreError)                 // `{ success: false, error: 'Internal server error', message }`

  /** A response the handler sent, or an exception that escaped it (the hosting
      platform then answers on its own). */
  datatype Response = Reply(status: nat, body: Body) | Thrown(reason: string)

  const METHOD_NOT_ALLOWED := "Method not allowed"

  /** One page of `matching` in `createdAt`-descending order, with the page block
      `{ page, limit, total, pages }` where `total` counts all of `matching`. */
  function ListPage(matching: Collection, page: nat, limit: nat): (b: Body)
    requires page >= 1 && limit >= 1
    ensures b.Page?
    ensures b.pagination.page == page && b.pagination.limit == limit
    ensures b.pagination.total == |matching|
    ensures b.pagination.pages * limit >= |matching|
    ensures b.pagination.pages == 0 || (b.pagination.pages - 1) * limit < |matching|
    ensures PageOfListing(b.data, matching, Skip(page, limit), limit)
  {
    var data := PageOf(NewestFirst(matching), Skip(page, limit), limit);
    PageOfListingHolds(matching, Skip(page, limit), limit);
    Page(data, Pagination(page, limit, |matching|, PageCount(|matching|, limit)))
  }

  /** `data` is what the cursor yields for one page of `matching`: at most
      `limit` documents, each from `matching`, newest first, and exactly the
      ones after the first `skip` of the newest-first order. */
  ghost predicate PageOfListing(data: seq<Document>, matching: Collection, skip: nat, limit: nat) {
    && |data| <= limit
    && multiset(data) <= multiset(matching)
    && Sorting.SortedBy(data, NewerFirst)
    && (skip < |matching| ==> |data| == Min(limit, |matching| - skip))
    && (skip >= |matching| ==> data == [])
    && forall i :: 0 <= i < |data| ==> skip + i < |matching| && data[i] == NewestFirst(matching)[skip + i]
  }

  lemma PageOfListingHolds(matching: Collection, skip: nat, limit: nat)
    ensures PageOfListing(PageOf(NewestFirst(matching), skip, limit), matching, skip, limit)
  {
    var sorted := NewestFirst(matching);
    PageOfPermutation(sorted, matching, skip, limit);
    PageOfSorted(sorted, skip, limit);
  }

  /** A page of a newest-first sequence is newest-first. */
  lemma PageOfSorted(s: Collection, skip: nat, limit: nat)
    requires Sorting.SortedBy(s, NewerFirst)
    ensures Sorting.SortedBy(PageOf(s, skip, limit), NewerFirst)
  {
  }

  /** A page of a permutation of `c` holds no more of any document than `c` does. */
  lemma PageOfPermutation(s: Collection, c: Collection, skip: nat, limit: nat)
    requires multiset(s) == multiset(c)
    ensures multiset(PageOf(s, skip, limit)) <= multiset(c)
  {
    if skip < |s| {
      var end := Min(skip + limit, |s|);
      assert s == s[..skip] + s[skip..end] + s[end..];
    }
  }
}
