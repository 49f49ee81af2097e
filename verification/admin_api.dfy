/** The admin endpoint: password login that issues a day-long token, and,
    behind a bearer-token gate, a filtered listing of submissions and the
    deletion of one submission. One call is a pure function of the request,
    the collection, the configured secret, the clock and the id the driver
    would generate; it answers with a response and the collection afterwards. */
module AdminApi {
  import opened Wrappers
  import opened Text
  import opened Documents
  import opened Paging
  import opened Http
  import Jwt

  const DEFAULT_LIMIT: nat := 20
  const UNAUTHORIZED := "Unauthorized"
  const INVALID_TOKEN := "Invalid or expired token"
  const LOGIN_OK := "Login successful"
  const LOGIN_FAILED := "Invalid credentials"
  const DELETED := "Contact deleted"
  const NOT_FOUND := "Contact not found"
  const BEARER := "Bearer "

  /** `process.env.ADMIN_SECRET` as a JavaScript value: an unset variable is `undefined`. */
  function Env(secret: Option<string>): Option<Value> {
    if secret.Some? then Some(VStr(secret.value)) else None
  }

  /** `password === process.env.ADMIN_SECRET`: strict equality, so an absent
      password equals an unset secret. */
  predicate PasswordMatches(body: Document, secret: Option<string>)
    ensures PasswordMatches(body, secret) <==> Field(body, "password") == Env(secret)
  {
    match secret
    case None => "password" !in body
    case Some(s) => "password" in body && body["password"] == VStr(s)
  }

  /** The POST branch. A missing body makes the destructuring throw; a matching
      password whose secret `jwt.sign` refuses (unset or empty) throws too. */
  function Login(body: Option<Document>, secret: Option<string>, nowMs: int, codec: Codec<Jwt.Token>): (r: Response)
    ensures body.None? ==> r.Thrown?
    ensures body.Some? && !PasswordMatches(body.value, secret) ==> r == Reply(401, Outcome(false, LOGIN_FAILED))
    ensures (r.Reply? && r.status == 200) <==> body.Some? && PasswordMatches(body.value, secret) && Jwt.UsableSecret(secret)
    ensures r.Reply? && r.status == 200 ==>
      r == Reply(200, TokenIssued(codec.encode(Jwt.IssueAdminToken(secret, nowMs).value), LOGIN_OK))
    ensures body.Some? && PasswordMatches(body.value, secret) && !Jwt.UsableSecret(secret) ==> r.Thrown?
  {
    match body
    case None => Thrown("Cannot destructure property 'password' of 'req.body'")
    case Some(b) =>
      if PasswordMatches(b, secret) then
        match Jwt.IssueAdminToken(secret, nowMs)
        case None => Thrown("secretOrPrivateKey must have a value")
        case Some(t) => Reply(200, TokenIssued(codec.encode(t), LOGIN_OK))
      else Reply(401, Outcome(false, LOGIN_FAILED))
  }

  /** The token text of an `Authorization` header that is present, non-empty and
      starts with `Bearer `: the header without its first seven characters. */
  function BearerToken(headers: map<string, string>): (r: Option<string>)
    ensures r.Some? <==> "authorization" in headers && StartsWith(headers["authorization"], BEARER)
    ensures r.Some? ==> headers["authorization"] == BEARER + r.value
  {
    if "authorization" in headers && headers["authorization"] != "" && StartsWith(headers["authorization"], BEARER) then
      var h := headers["authorization"];
      assert h == h[..7] + h[7..];
      Some(h[7..])
    else None
  }

  /** The token decodes, `jwt.verify` accepts it under the secret at this
      moment, and its claims carry a truthy `admin`. */
  ghost predicate ValidAdminToken(text: string, secret: Option<string>, nowMs: int, codec: Codec<Jwt.Token>)
    // Only a configured, non-empty secret admits anyone, and only with a token it signed.
    ensures ValidAdminToken(text, secret, nowMs, codec) ==>
      Jwt.UsableSecret(secret) && codec.decode(text).Some? && codec.decode(text).value.key == secret.value
    ensures ValidAdminToken(text, secret, nowMs, codec) ==> "admin" in codec.decode(text).value.claims
  {
    && codec.decode(text).Some?
    && Jwt.Verify(codec.decode(text).value, secret, nowMs).Ok?
    && FieldTruthy(codec.decode(text).value.claims, "admin")
  }

  /** The gate in front of every verb but OPTIONS and POST: `None` lets the
      request through, otherwise the 401 to send. */
  function Gate(headers: map<string, string>, secret: Option<string>, nowMs: int, codec: Codec<Jwt.Token>): (r: Option<Response>)
    ensures BearerToken(headers).None? ==> r == Some(Reply(401, ErrorMessage(UNAUTHORIZED)))
    ensures BearerToken(headers).Some? ==>
      (r.None? <==> ValidAdminToken(BearerToken(headers).value, secret, nowMs, codec))
    ensures BearerToken(headers).Some? && r.Some? ==> r == Some(Reply(401, ErrorMessage(INVALID_TOKEN)))
  {
    match BearerToken(headers)
    case None => Some(Reply(401, ErrorMessage(UNAUTHORIZED)))
    case Some(text) =>
      match codec.decode(text)
      case None => Some(Reply(401, ErrorMessage(INVALID_TOKEN)))
      case Some(t) =>
        match Jwt.Verify(t, secret, nowMs)
        case Err(_) => Some(Reply(401, ErrorMessage(INVALID_TOKEN)))
        case Ok(claims) =>
          if FieldTruthy(claims, "admin") then None else Some(Reply(401, ErrorMessage(INVALID_TOKEN)))
  }

  /** A query parameter the handler acts on: present and truthy (non-empty). */
  predicate Set(p: Option<string>) {
    p.Some? && p.value != ""
  }

  /** The fields the `$or` of a search looks in. */
  const SEARCH_FIELDS: set<string> := {"name", "email", "company"}

  /** `field` holds a string that contains `pattern`, ignoring case. */
  predicate FieldContains(doc: Document, field: string, pattern: string) {
    field in doc && doc[field].VStr? && ContainsIgnoringCase(doc[field].s, pattern)
  }

  /** The listing filter: a truthy `projectType` must equal the document's, and
      a truthy `search` must occur in its name, email or company. */
  predicate Selected(doc: Document, q: Query)
    ensures !Set(q.projectType) && !Set(q.search) ==> Selected(doc, q)
    ensures Selected(doc, q) && Set(q.projectType) ==> Field(doc, "projectType") == Some(VStr(q.projectType.value))
  {
    && (q.projectType.Some? && q.projectType.value != "" ==>
          "projectType" in doc && doc["projectType"] == VStr(q.projectType.value))
    && (q.search.Some? && q.search.value != "" ==>
          FieldContains(doc, "name", q.search.value)
          || FieldContains(doc, "email", q.search.value)
          || FieldContains(doc, "company", q.search.value))
  }

  /** The filter is the `$and` of its parts: the type test when `projectType`
      is set, and when `search` is set a match in one of the searched fields. */
  lemma SelectedByFilter(doc: Document, q: Query)
    ensures Selected(doc, q) <==>
      && (Set(q.projectType) ==> Field(doc, "projectType") == Some(VStr(q.projectType.value)))
      && (Set(q.search) ==> exists f :: f in SEARCH_FIELDS && FieldContains(doc, f, q.search.value))
  {
  }

  /** The test the filter drops a document by. */
  function Unselected(q: Query): Document -> bool {
    (d: Document) => !Selected(d, q)
  }

  /** `collection.find(filter)` before sorting: the selected documents, in natural order. */
  function Matching(c: Collection, q: Query): (r: Collection)
    ensures forall d :: multiset(r)[d] == if Selected(d, q) then multiset(c)[d] else 0
    ensures forall i :: 0 <= i < |r| ==> Selected(r[i], q)
    ensures Seqs.KeepsInOrder(r, c, Unselected(q))
    ensures |r| <= |c|
  {
    Seqs.RemoveWhere(c, Unselected(q))
  }

  /** The GET branch: `page` defaults to 1, `limit` to 20, the page is cut from
      the newest-first matching documents and `total` counts all of them. */
  function List(c: Collection, q: Query): (b: Body)
    ensures b.Page?
    ensures b.pagination.page == OrDefault(q.page, 1) && b.pagination.limit == OrDefault(q.limit, DEFAULT_LIMIT)
    ensures b.pagination.total == |Matching(c, q)|
    ensures b.pagination.pages == PageCount(b.pagination.total, b.pagination.limit)
    ensures PageOfListing(b.data, Matching(c, q), Skip(b.pagination.page, b.pagination.limit), b.pagination.limit)
    ensures forall i :: 0 <= i < |b.data| ==> Selected(b.data[i], q)
  {
    var matching := Matching(c, q);
    var b := ListPage(matching, OrDefault(q.page, 1), OrDefault(q.limit, DEFAULT_LIMIT));
    DrawnFromSelected(b.data, matching, q);
    b
  }

  lemma DrawnFromSelected(data: seq<Document>, matching: Collection, q: Query)
    requires multiset(data) <= multiset(matching)
    requires forall i :: 0 <= i < |matching| ==> Selected(matching[i], q)
    ensures forall i :: 0 <= i < |data| ==> Selected(data[i], q)
  {
    forall i | 0 <= i < |data| ensures Selected(data[i], q) {
      assert data[i] in multiset(data);
      assert data[i] in multiset(matching);
    }
  }

  /** The DELETE branch: the query's id is resolved, then at most one document
      with that `_id` is removed. */
  function Remove(c: Collection, id: Option<string>, generated: ObjectId): (r: (Response, Collection))
    ensures ResolveId(id, generated).Err? ==>
      r == (Reply(500, InternalError(ResolveId(id, generated).error)), c)
    ensures ResolveId(id, generated).Ok? ==>
      var oid := VOid(ResolveId(id, generated).value);
      && (FindId(c, oid).Some? ==>
            && r.0 == Reply(200, Outcome(true, DELETED))
            && r.1 == c[..FindId(c, oid).value] + c[FindId(c, oid).value + 1..])
      && (FindId(c, oid).None? ==> r == (Reply(404, Outcome(false, NOT_FOUND)), c))
    ensures r.1 != c ==> |r.1| == |c| - 1 && multiset(r.1) <= multiset(c)
  {
    match ResolveId(id, generated)
    case Err(e) => (Reply(500, InternalError(e)), c)
    case Ok(oid) =>
      var (c', n) := DeleteOne(c, VOid(oid));
      if n == 1 then (Reply(200, Outcome(true, DELETED)), c') else (Reply(404, Outcome(false, NOT_FOUND)), c')
  }

  /** One invocation of the handler. */
  function Handle(req: Request, c: Collection, secret: Option<string>, nowMs: int,
                  codec: Codec<Jwt.Token>, generated: ObjectId): (r: (Response, Collection))
    // OPTIONS answers at once.
    ensures req.verb == Options ==> r == (Reply(200, NoContent), c)
    // Login never touches the collection.
    ensures req.verb == Post ==> r == (Login(req.body, secret, nowMs, codec), c)
    // Every other verb passes the gate first; a refused request leaves the collection alone.
    ensures req.verb !in {Options, Post} && Gate(req.headers, secret, nowMs, codec).Some? ==>
      r == (Gate(req.headers, secret, nowMs, codec).value, c)
    ensures req.verb !in {Options, Post} && BearerToken(req.headers).None? ==>
      r == (Reply(401, ErrorMessage(UNAUTHORIZED)), c)
    ensures (req.verb !in {Options, Post} && BearerToken(req.headers).Some?
             && !ValidAdminToken(BearerToken(req.headers).value, secret, nowMs, codec)) ==>
      r == (Reply(401, ErrorMessage(INVALID_TOKEN)), c)
    // Behind the gate.
    ensures req.verb == Get && Gate(req.headers, secret, nowMs, codec).None? ==>
      r == (Reply(200, List(c, req.query)), c)
    ensures req.verb == Delete && Gate(req.headers, secret, nowMs, codec).None? ==>
      r == Remove(c, req.query.id, generated)
    ensures req.verb == Other && Gate(req.headers, secret, nowMs, codec).None? ==>
      r == (Reply(405, ErrorMessage(METHOD_NOT_ALLOWED)), c)
    // Only an admitted DELETE can change the collection, and only by dropping one document.
    ensures r.1 != c ==> req.verb == Delete && |r.1| == |c| - 1 && multiset(r.1) <= multiset(c)
  {
    if req.verb == Options then (Reply(200, NoContent), c)
    else if req.verb == Post then (Login(req.body, secret, nowMs, codec), c)
    else
      match Gate(req.headers, secret, nowMs, codec)
      case Some(refusal) => (refusal, c)
      case None =>
        if req.verb == Get then (Reply(200, List(c, req.query)), c)
        else if req.verb == Delete then Remove(c, req.query.id, generated)
        else (Reply(405, ErrorMessage(METHOD_NOT_ALLOWED)), c)
  }

  /** The token a successful login hands out opens the gate exactly until the
      day-long window of its issue second runs out. */
  lemma {:induction false} LoginTokenOpensGate(body: Document, secret: Option<string>, issuedMs: int, nowMs: int, codec: Codec<Jwt.Token>)
    requires RoundTrips(codec) && Jwt.UsableSecret(secret) && PasswordMatches(body, secret)
    ensures Login(Some(body), secret, issuedMs, codec).Reply?
    ensures Login(Some(body), secret, issuedMs, codec).body.TokenIssued?
    ensures var text := Login(Some(body), secret, issuedMs, codec).body.token;
      (Gate(map["authorization" := BEARER + text], secret, nowMs, codec).None? <==>
       nowMs < (Jwt.Seconds(issuedMs) + Jwt.DAY_SECONDS) * 1000)
  {
    var t := Jwt.IssueAdminToken(secret, issuedMs).value;
    var text := codec.encode(t);
    assert codec.decode(text) == Some(t);
    var headers := map["authorization" := BEARER + text];
    assert (BEARER + text)[..7] == BEARER && (BEARER + text)[7..] == text;
    assert BearerToken(headers) == Some(text);
    Jwt.IssuedTokenWindow(secret, issuedMs, nowMs);
  }

  /** Deleting an existing id succeeds once; the same DELETE again finds nothing
      and changes nothing. */
  lemma DeleteTwice(c: Collection, id: string, generated: ObjectId)
    requires UniqueIds(c)
    requires ParseObjectId(id).Some? && FindId(c, VOid(ParseObjectId(id).value)).Some?
    ensures var (first, c1) := Remove(c, Some(id), generated);
      && first == Reply(200, Outcome(true, DELETED))
      && |c1| == |c| - 1
      && Remove(c1, Some(id), generated) == (Reply(404, Outcome(false, NOT_FOUND)), c1)
  {
    var oid := VOid(ParseObjectId(id).value);
    DeleteKeepsIdsUnique(c, oid);
    assert Remove(c, Some(id), generated).1 == DeleteOne(c, oid).0;
  }

  /** A search term is matched regardless of case: "acme" finds the company "Acme Corp". */
  lemma SearchIgnoresCase(doc: Document)
    requires "company" in doc && doc["company"] == VStr("Acme Corp")
    ensures Selected(doc, Query(None, None, None, Some("acme"), None))
  {
    var text, pattern := "Acme Corp", "acme";
    var lt, lp := LowerString(text), LowerString(pattern);
    assert lt[0] == 'a' && lt[1] == 'c' && lt[2] == 'm' && lt[3] == 'e';
    assert lp[0] == 'a' && lp[1] == 'c' && lp[2] == 'm' && lp[3] == 'e';
    assert lt[0..4] == lp;
    ContainsIgnoringCaseAt(text, pattern, 0);
  }
}
