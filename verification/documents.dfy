/** The `contacts` collection as the handlers see it: documents are field maps
    (a POST stores whatever object the client sent, plus server fields), the
    collection is a sequence in natural (insertion) order, and `_id` is unique. */
module Documents {
  import opened Wrappers
  import opened Text
  import Seqs
  import Sorting

  /** A BSON object id, written as its 24 lower-case hexadecimal digits. */
  datatype ObjectId = ObjectId(hex: string)

  /** The field values a submission can hold. Nested objects and arrays are not modelled. */
  datatype Value =
    | VStr(s: string)
    | VNum(n: int)
    | VBool(b: bool)
    | VNull
    | VDate(ms: int)
    | VOid(oid: ObjectId)

  type Document = map<string, Value>
  type Collection = seq<Document>

  /** Why a store operation threw; the handlers report it as a 500. */
  datatype StoreError =
    | InvalidObjectId(input: string)  // `new ObjectId(id)` rejected the query's id
    | DuplicateKey(id: Value)         // the unique `_id` index refused an insert

  /** JavaScript truthiness of a present field value. */
  predicate Truthy(v: Value) {
    match v
    case VStr(s) => s != ""
    case VNum(n) => n != 0
    case VBool(b) => b
    case VNull => false
    case VDate(_) => true
    case VOid(_) => true
  }

  /** `doc[key]` is present and truthy. */
  predicate FieldTruthy(doc: Document, key: string) {
    key in doc && Truthy(doc[key])
  }

  predicate IsLowerHexDigit(c: char) {
    IsDigit(c) || 'a' <= c <= 'f'
  }

  /** The written form of every object id: 24 lower-case hexadecimal digits. */
  predicate WellFormedId(oid: ObjectId) {
    |oid.hex| == 24 && forall i :: 0 <= i < 24 ==> IsLowerHexDigit(oid.hex[i])
  }

  /** `new ObjectId(s)` for a string: accepted exactly when it is 24 hexadecimal
      digits of either case, and then equal to the id those digits denote. */
  function ParseObjectId(s: string): (r: Option<ObjectId>)
    ensures r.Some? <==> |s| == 24 && forall i :: 0 <= i < |s| ==> IsHexDigit(s[i])
    ensures r.Some? ==> WellFormedId(r.value) && r.value.hex == LowerString(s)
  {
    if |s| == 24 && forall i :: 0 <= i < |s| ==> IsHexDigit(s[i]) then Some(ObjectId(LowerString(s)))
    else None
  }

  /** Parsing the written form of an id gives back the id. */
  lemma ParseObjectIdOfHex(oid: ObjectId)
    requires WellFormedId(oid)
    ensures ParseObjectId(oid.hex) == Some(oid)
  {
    assert LowerString(oid.hex) == oid.hex;
  }

  /** The id in a DELETE query: `new ObjectId(undefined)` draws a generated id, a
      string must parse, anything else throws. */
  function ResolveId(query: Option<string>, generated: ObjectId): (r: Result<ObjectId, StoreError>)
    ensures query.None? ==> r == Ok(generated)
    ensures query.Some? ==> (r.Ok? <==> ParseObjectId(query.value).Some?)
    ensures query.Some? && r.Ok? ==> r.value == ParseObjectId(query.value).value
    ensures query.Some? && r.Err? ==> r.error == InvalidObjectId(query.value)
  {
    match query
    case None => Ok(generated)
    case Some(s) =>
      match ParseObjectId(s)
      case Some(oid) => Ok(oid)
      case None => Err(InvalidObjectId(s))
  }

  /** `doc[key]`, with `None` for JavaScript's `undefined`. */
  function Field(doc: Document, key: string): Option<Value> {
    if key in doc then Some(doc[key]) else None
  }

  predicate HasId(doc: Document, id: Value) {
    "_id" in doc && doc["_id"] == id
  }

  /** What the unique `_id` index guarantees: every document has an `_id` and no two share one. */
  ghost predicate UniqueIds(c: Collection) {
    && (forall i :: 0 <= i < |c| ==> "_id" in c[i])
    && (forall i, j :: 0 <= i < j < |c| ==> c[i]["_id"] != c[j]["_id"])
  }

  /** Position of the first document (natural order) whose `_id` is `id`. */
  function FindId(c: Collection, id: Value): (r: Option<nat>)
    ensures r.Some? ==> r.value < |c| && HasId(c[r.value], id)
    ensures r.Some? ==> forall j :: 0 <= j < r.value ==> !HasId(c[j], id)
    ensures r.None? ==> forall j :: 0 <= j < |c| ==> !HasId(c[j], id)
  {
    Seqs.FindFirst(c, (d: Document) => HasId(d, id))
  }

  /** `deleteOne({ _id: id })`: removes the first document with that id and
      reports how many were deleted. */
  function DeleteOne(c: Collection, id: Value): (r: (Collection, nat))
    ensures r.1 <= 1
    ensures r.1 == 0 <==> forall j :: 0 <= j < |c| ==> !HasId(c[j], id)
    ensures r.1 == 0 ==> r.0 == c
    ensures r.1 == 1 ==> exists k :: 0 <= k < |c| && HasId(c[k], id) && r.0 == c[..k] + c[k + 1..]
    ensures |r.0| + r.1 == |c|
    ensures multiset(r.0) <= multiset(c)
  {
    match FindId(c, id)
    case None => (c, 0)
    case Some(k) =>
      var r := Seqs.RemoveAt(c, k);
      assert r == c[..k] + c[k + 1..];
      (r, 1)
  }

  /** The document carries an `_id` of its own: the driver generates one when
      the field is missing or `null` (`doc._id == null`). */
  predicate BringsId(doc: Document)
    ensures !BringsId(doc) <==> Field(doc, "_id") == None || Field(doc, "_id") == Some(VNull)
  {
    "_id" in doc && doc["_id"] != VNull
  }

  /** `insertOne(doc)`: the document keeps the `_id` it brought, or gets the
      driver-generated `generated` one; a clash with a stored `_id` throws. On
      success the answer is the extended collection and the inserted id. */
  function InsertOne(c: Collection, doc: Document, generated: ObjectId): (r: Result<(Collection, Value), StoreError>)
    ensures BringsId(doc) ==> (r.Ok? ==> r.value.1 == doc["_id"])
    ensures !BringsId(doc) ==> (r.Ok? ==> r.value.1 == VOid(generated))
    ensures r.Ok? <==> FindId(c, if BringsId(doc) then doc["_id"] else VOid(generated)).None?
    ensures r.Ok? ==> r.value.1 != VNull && r.value.0 == c + [doc["_id" := r.value.1]]
    ensures r.Err? ==> r.error.DuplicateKey?
  {
    var id := if BringsId(doc) then doc["_id"] else VOid(generated);
    if FindId(c, id).Some? then Err(DuplicateKey(id)) else Ok((c + [doc["_id" := id]], id))
  }

  /** A successful insert keeps the ids unique. */
  lemma InsertKeepsIdsUnique(c: Collection, doc: Document, generated: ObjectId)
    requires UniqueIds(c)
    ensures InsertOne(c, doc, generated).Ok? ==> UniqueIds(InsertOne(c, doc, generated).value.0)
  {
  }

  /** A delete keeps the ids unique, and after a successful one no document has the deleted id. */
  lemma DeleteKeepsIdsUnique(c: Collection, id: Value)
    requires UniqueIds(c)
    ensures UniqueIds(DeleteOne(c, id).0)
    ensures forall j :: 0 <= j < |DeleteOne(c, id).0| ==> !HasId(DeleteOne(c, id).0[j], id)
  {
    var (c', n) := DeleteOne(c, id);
    if n == 1 {
      var k :| 0 <= k < |c| && HasId(c[k], id) && c' == c[..k] + c[k + 1..];
      RemoveAtKeepsIdsUnique(c, k);
    }
  }

  lemma RemoveAtKeepsIdsUnique(c: Collection, k: nat)
    requires UniqueIds(c) && k < |c|
    ensures UniqueIds(c[..k] + c[k + 1..])
    ensures var d := c[..k] + c[k + 1..]; forall j :: 0 <= j < |d| ==> d[j]["_id"] != c[k]["_id"]
  {
    var d := c[..k] + c[k + 1..];
    assert forall i :: 0 <= i < |d| ==> d[i] == c[if i < k then i else i + 1];
  }

  /** The `createdAt` date of a document, when it has one. */
  function CreatedAt(doc: Document): Option<int> {
    if "createdAt" in doc && doc["createdAt"].VDate? then Some(doc["createdAt"].ms) else None
  }

  /** The order of `.sort({ createdAt: -1 })`: later dates first, documents
      without a date after every dated one. */
  predicate NewerFirst(a: Document, b: Document)
    ensures CreatedAt(a).Some? && CreatedAt(b).Some? ==> (NewerFirst(a, b) <==> CreatedAt(a).value >= CreatedAt(b).value)
    ensures CreatedAt(b).None? ==> NewerFirst(a, b)
    ensures CreatedAt(a).None? && CreatedAt(b).Some? ==> !NewerFirst(a, b)
  {
    match CreatedAt(b)
    case None => true
    case Some(tb) => CreatedAt(a).Some? && CreatedAt(a).value >= tb
  }

  lemma NewerFirstIsTotalPreorder()
    ensures Sorting.TotalPreorder(NewerFirst)
  {
  }

  /** The documents whose `createdAt` is not `t`. */
  function CreatedAtIsNot(t: Option<int>): Document -> bool {
    (d: Document) => CreatedAt(d) != t
  }

  /** The collection in `createdAt`-descending order; documents with the same
      date keep their natural order. */
  function NewestFirst(c: Collection): (r: Collection)
    ensures Sorting.SortedBy(r, NewerFirst)
    ensures multiset(r) == multiset(c) && |r| == |c|
    ensures forall t :: Seqs.RemoveWhere(r, CreatedAtIsNot(t)) == Seqs.RemoveWhere(c, CreatedAtIsNot(t))
  {
    NewerFirstIsTotalPreorder();
    NewerFirstKeepsTies(c);
    Sorting.SortBy(c, NewerFirst)
  }

  lemma NewerFirstKeepsTies(c: Collection)
    requires Sorting.TotalPreorder(NewerFirst)
    ensures forall t :: Seqs.RemoveWhere(Sorting.SortBy(c, NewerFirst), CreatedAtIsNot(t)) == Seqs.RemoveWhere(c, CreatedAtIsNot(t))
  {
    forall t ensures Seqs.RemoveWhere(Sorting.SortBy(c, NewerFirst), CreatedAtIsNot(t)) == Seqs.RemoveWhere(c, CreatedAtIsNot(t)) {
      Sorting.SortByStable(c, NewerFirst, CreatedAtIsNot(t));
    }
  }
}
