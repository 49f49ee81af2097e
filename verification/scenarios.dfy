/** Properties that connect the two endpoints: what the public POST stores is
    what the admin listing shows. */
module Scenarios {
  import opened Wrappers
  import opened Documents
  import opened Paging
  import opened Http
  import Sorting
  import AdminApi
  import ContactsApi

  /** A query with no parameters: page 1, default limit, no filter. */
  const NoQuery := Query(None, None, None, None, None)

  /** The newest document of a collection leads its newest-first order. */
  lemma NewestLeads(c: Collection, k: nat)
    requires k < |c| && CreatedAt(c[k]).Some?
    requires forall i :: 0 <= i < |c| && i != k ==> CreatedAt(c[i]).None? || CreatedAt(c[i]).value < CreatedAt(c[k]).value
    ensures |NewestFirst(c)| > 0 && NewestFirst(c)[0] == c[k]
  {
    var s := NewestFirst(c);
    assert c[k] in multiset(c);
    assert c[k] in multiset(s);
    var j :| 0 <= j < |s| && s[j] == c[k];
    assert s[0] in multiset(s);
    assert s[0] in multiset(c);
    var i :| 0 <= i < |c| && c[i] == s[0];
    assert j == 0 || NewerFirst(s[0], s[j]);
  }

  /** Without `projectType` or `search` every document matches, in natural order. */
  lemma NoFilterMatchesAll(c: Collection)
    ensures AdminApi.Matching(c, NoQuery) == c
  {
    assert forall i :: 0 <= i < |c| ==> AdminApi.Selected(c[i], NoQuery);
  }

  /** With no query parameters the admin listing opens with the head of the
      newest-first order of the whole collection. */
  lemma UnfilteredListHead(c: Collection)
    requires |c| > 0
    ensures |AdminApi.List(c, NoQuery).data| > 0
    ensures AdminApi.List(c, NoQuery).data[0] == NewestFirst(c)[0]
  {
    NoFilterMatchesAll(c);
    var b := AdminApi.List(c, NoQuery);
    assert b.pagination.page == 1 && b.pagination.limit == AdminApi.DEFAULT_LIMIT;
    assert Skip(1, AdminApi.DEFAULT_LIMIT) == 0;
    assert PageOfListing(b.data, c, 0, AdminApi.DEFAULT_LIMIT);
  }

  /** After a fresh submission newer than every stored one, the first record of
      the admin's unfiltered first page is that submission, server fields included. */
  lemma SubmissionListedFirst(c: Collection, req: Request, nowMs: int, generated: ObjectId)
    requires UniqueIds(c)
    requires req.verb == Post && (req.body.None? || !BringsId(req.body.value))
    requires FindId(c, VOid(generated)).None?
    requires forall i :: 0 <= i < |c| ==> CreatedAt(c[i]).None? || CreatedAt(c[i]).value < nowMs
    ensures var c' := ContactsApi.Handle(req, c, nowMs, generated).1;
      var page := AdminApi.List(c', NoQuery).data;
      && |page| > 0
      && page[0] == ContactsApi.Stamp(req, nowMs)["_id" := VOid(generated)]
      && page[0]["createdAt"] == VDate(nowMs)
  {
    var c' := StoredAtEnd(c, req, nowMs, generated);
    assert CreatedAt(c'[|c|]) == Some(nowMs);
    assert forall i :: 0 <= i < |c| ==> c'[i] == c[i];
    NewestLeads(c', |c|);
    UnfilteredListHead(c');
  }

  /** A fresh submission lands at the end of the collection. */
  lemma StoredAtEnd(c: Collection, req: Request, nowMs: int, generated: ObjectId) returns (c': Collection)
    requires UniqueIds(c)
    requires req.verb == Post && (req.body.None? || !BringsId(req.body.value))
    requires FindId(c, VOid(generated)).None?
    ensures c' == ContactsApi.Handle(req, c, nowMs, generated).1
    ensures c' == c + [ContactsApi.Stamp(req, nowMs)["_id" := VOid(generated)]]
  {
    ContactsApi.SubmitFresh(c, req, nowMs, generated);
    c' := ContactsApi.Handle(req, c, nowMs, generated).1;
    assert c' == c'[..|c|] + [c'[|c|]];
  }
}
