/** The public contact endpoint: POST stores one submission stamped with
    server metadata, GET lists every submission a page at a time. One call is a
    pure function of the request, the collection, the clock and the id the
    driver would generate. */
module ContactsApi {
  import opened Wrappers
  import opened Documents
  import opened Paging
  import opened Http

  const DEFAULT_LIMIT: nat := 10
  const SAVED := "Contact submission saved successfully"

  /** `req.headers['x-forwarded-for'] || req.connection.remoteAddress`: the
      forwarded address when it is a non-empty string, else the socket's peer;
      an undefined address is stored as `null`. */
  function ClientIp(headers: map<string, string>, remoteAddress: Option<string>): (v: Value)
    ensures "x-forwarded-for" in headers && headers["x-forwarded-for"] != "" ==> v == VStr(headers["x-forwarded-for"])
    ensures !("x-forwarded-for" in headers && headers["x-forwarded-for"] != "") ==>
      v == (if remoteAddress.Some? then VStr(remoteAddress.value) else VNull)
  {
    if "x-forwarded-for" in headers && headers["x-forwarded-for"] != "" then VStr(headers["x-forwarded-for"])
    else match remoteAddress
      case Some(a) => VStr(a)
      case None => VNull
  }

  /** `{ ...req.body, createdAt: new Date(), ip, userAgent }`: the client's fields,
      with the three server fields written last so they win over same-named ones. */
  function Stamp(req: Request, nowMs: int): (d: Document)
    ensures "createdAt" in d && d["createdAt"] == VDate(nowMs)
    ensures "ip" in d && d["ip"] == ClientIp(req.headers, req.remoteAddress)
    ensures "userAgent" in d && d["userAgent"] == (if "user-agent" in req.headers then VStr(req.headers["user-agent"]) else VNull)
    ensures forall k :: k in d && k !in {"createdAt", "ip", "userAgent"} ==> req.body.Some? && k in req.body.value && d[k] == req.body.value[k]
    ensures req.body.Some? ==> forall k :: k in req.body.value && k !in {"createdAt", "ip", "userAgent"} ==> k in d && d[k] == req.body.value[k]
  {
    var base := if req.body.Some? then req.body.value else map[];
    var agent := if "user-agent" in req.headers then VStr(req.headers["user-agent"]) else VNull;
    base["createdAt" := VDate(nowMs)]["ip" := ClientIp(req.headers, req.remoteAddress)]["userAgent" := agent]
  }

  /** The POST branch: insert the stamped submission and answer 201 with its id,
      or 500 when the store refuses it. */
  function Submit(c: Collection, req: Request, nowMs: int, generated: ObjectId): (r: (Response, Collection))
    ensures InsertOne(c, Stamp(req, nowMs), generated).Ok? ==>
      && r.0 == Reply(201, Saved(SAVED, InsertOne(c, Stamp(req, nowMs), generated).value.1))
      && |r.1| == |c| + 1
      && r.1[..|c|] == c
      && r.1[|c|] == Stamp(req, nowMs)["_id" := InsertOne(c, Stamp(req, nowMs), generated).value.1]
    ensures InsertOne(c, Stamp(req, nowMs), generated).Err? ==>
      r == (Reply(500, InternalError(InsertOne(c, Stamp(req, nowMs), generated).error)), c)
  {
    match InsertOne(c, Stamp(req, nowMs), generated)
    case Ok((c', id)) =>
      assert c'[..|c|] == c;
      (Reply(201, Saved(SAVED, id)), c')
    case Err(e) => (Reply(500, InternalError(e)), c)
  }

  /** The GET branch: no filter; `page` defaults to 1, `limit` to 10, and `total`
      is the size of the whole collection. */
  function List(c: Collection, q: Query): (b: Body)
    ensures b.Page?
    ensures b.pagination.page == OrDefault(q.page, 1) && b.pagination.limit == OrDefault(q.limit, DEFAULT_LIMIT)
    ensures b.pagination.total == |c|
    ensures b.pagination.pages == PageCount(|c|, b.pagination.limit)
    ensures PageOfListing(b.data, c, Skip(b.pagination.page, b.pagination.limit), b.pagination.limit)
  {
    ListPage(c, OrDefault(q.page, 1), OrDefault(q.limit, DEFAULT_LIMIT))
  }

  /** One invocation of the handler. */
  function Handle(req: Request, c: Collection, nowMs: int, generated: ObjectId): (r: (Response, Collection))
    ensures req.verb == Options ==> r == (Reply(200, NoContent), c)
    ensures req.verb == Post ==> r == Submit(c, req, nowMs, generated)
    ensures req.verb == Get ==> r == (Reply(200, List(c, req.query)), c)
    ensures req.verb in {Delete, Other} ==> r == (Reply(405, ErrorMessage(METHOD_NOT_ALLOWED)), c)
    // Only a POST changes the collection, and only by appending one document.
    ensures r.1 != c ==> req.verb == Post && |r.1| == |c| + 1 && r.1[..|c|] == c
  {
    if req.verb == Options then (Reply(200, NoContent), c)
    else if req.verb == Post then Submit(c, req, nowMs, generated)
    else if req.verb == Get then (Reply(200, List(c, req.query)), c)
    else (Reply(405, ErrorMessage(METHOD_NOT_ALLOWED)), c)
  }

  /** A fresh submission (no `_id` of its own, a generated id not yet stored)
      is always accepted, and the ids stay unique. */
  lemma SubmitFresh(c: Collection, req: Request, nowMs: int, generated: ObjectId)
    requires UniqueIds(c)
    requires req.body.None? || !BringsId(req.body.value)
    requires FindId(c, VOid(generated)).None?
    ensures Submit(c, req, nowMs, generated).0 == Reply(201, Saved(SAVED, VOid(generated)))
    ensures UniqueIds(Submit(c, req, nowMs, generated).1)
  {
    InsertKeepsIdsUnique(c, Stamp(req, nowMs), generated);
  }

  /** A body whose `_id` is `null` is stored under a generated id like one
      without `_id`, so posting it twice stores it twice. */
  lemma NullIdPostedTwice(c: Collection, req: Request, nowMs: int, g1: ObjectId, g2: ObjectId)
    requires UniqueIds(c)
    requires req.body.Some? && "_id" in req.body.value && req.body.value["_id"] == VNull
    requires g1 != g2 && FindId(c, VOid(g1)).None? && FindId(c, VOid(g2)).None?
    ensures var (first, c') := Submit(c, req, nowMs, g1);
      && first == Reply(201, Saved(SAVED, VOid(g1)))
      && Submit(c', req, nowMs, g2).0 == Reply(201, Saved(SAVED, VOid(g2)))
      && |Submit(c', req, nowMs, g2).1| == |c| + 2
  {
    SubmitFresh(c, req, nowMs, g1);
    var c' := Submit(c, req, nowMs, g1).1;
    assert c' == c + [Stamp(req, nowMs)["_id" := VOid(g1)]];
    assert forall j :: 0 <= j < |c'| ==> !HasId(c'[j], VOid(g2)) by {
      assert forall j :: 0 <= j < |c| ==> c'[j] == c[j];
    }
    SubmitFresh(c', req, nowMs, g2);
  }
}
