/** The browser-side API helpers: an in-memory store of session bookings,
    fixed admin credentials, mock tokens that expire an hour after issue, and
    token bookkeeping in `localStorage`. The clock, the token encoding and the
    browser's storage are parameters. */
module ClientApi {
  import opened Wrappers
  import opened Text
  import Seqs

  datatype BookingStatus = Pending | Confirmed | Completed | Cancelled

  /** `SessionBooking`; dates are milliseconds since the epoch. */
  datatype SessionBooking = SessionBooking(
    id: Option<string>,
    name: string,
    email: string,
    company: Option<string>,
    projectType: string,
    budget: string,
    timeline: string,
    description: string,
    preferredDate: Option<string>,
    preferredTime: Option<string>,
    status: BookingStatus,
    createdAt: int,
    updatedAt: int,
    calendarEventId: Option<string>,
    meetingLink: Option<string>)

  /** The fields a caller supplies when booking: everything but the id, the status and the dates. */
  datatype BookingInput = BookingInput(
    name: string,
    email: string,
    company: Option<string>,
    projectType: string,
    budget: string,
    timeline: string,
    description: string,
    preferredDate: Option<string>,
    preferredTime: Option<string>,
    calendarEventId: Option<string>,
    meetingLink: Option<string>)

  /** `Partial<SessionBooking>`: `None` leaves a field alone, `Some(v)` writes `v`
      (for an optional field `v` may itself be `None`, an explicit `undefined`). */
  datatype BookingPatch = BookingPatch(
    id: Option<Option<string>>,
    name: Option<string>,
    email: Option<string>,
    company: Option<Option<string>>,
    projectType: Option<string>,
    budget: Option<string>,
    timeline: Option<string>,
    description: Option<string>,
    preferredDate: Option<Option<string>>,
    preferredTime: Option<Option<string>>,
    status: Option<BookingStatus>,
    createdAt: Option<int>,
    updatedAt: Option<int>,
    calendarEventId: Option<Option<string>>,
    meetingLink: Option<Option<string>>)

  /** After a spread, a field the patch names holds the patch's value and every
      other field keeps the value it had before. */
  predicate Overrides<T(==)>(patch: Option<T>, before: T, after: T) {
    match patch
    case Some(v) => after == v
    case None => after == before
  }

  /** `{ ...b, ...p }`: the patch's fields win. */
  function Patched(b: SessionBooking, p: BookingPatch): (r: SessionBooking)
    ensures Overrides(p.id, b.id, r.id) && Overrides(p.name, b.name, r.name) && Overrides(p.email, b.email, r.email)
    ensures Overrides(p.company, b.company, r.company) && Overrides(p.projectType, b.projectType, r.projectType) && Overrides(p.budget, b.budget, r.budget)
    ensures Overrides(p.timeline, b.timeline, r.timeline) && Overrides(p.description, b.description, r.description) && Overrides(p.preferredDate, b.preferredDate, r.preferredDate)
    ensures Overrides(p.preferredTime, b.preferredTime, r.preferredTime) && Overrides(p.status, b.status, r.status) && Overrides(p.createdAt, b.createdAt, r.createdAt)
    ensures Overrides(p.updatedAt, b.updatedAt, r.updatedAt) && Overrides(p.calendarEventId, b.calendarEventId, r.calendarEventId) && Overrides(p.meetingLink, b.meetingLink, r.meetingLink)
  {
    SessionBooking(
      p.id.GetOr(b.id), p.name.GetOr(b.name), p.email.GetOr(b.email), p.company.GetOr(b.company),
      p.projectType.GetOr(b.projectType), p.budget.GetOr(b.budget), p.timeline.GetOr(b.timeline),
      p.description.GetOr(b.description), p.preferredDate.GetOr(b.preferredDate),
      p.preferredTime.GetOr(b.preferredTime), p.status.GetOr(b.status), p.createdAt.GetOr(b.createdAt),
      p.updatedAt.GetOr(b.updatedAt), p.calendarEventId.GetOr(b.calendarEventId), p.meetingLink.GetOr(b.meetingLink))
  }

  const EmptyPatch := BookingPatch(None, None, None, None, None, None, None, None, None, None, None, None, None, None, None)

  lemma EmptyPatchChangesNothing(b: SessionBooking)
    ensures Patched(b, EmptyPatch) == b
  {
  }

  /** The field a later patch writes, else the one an earlier patch writes. */
  function Latest<T>(earlier: Option<T>, later: Option<T>): Option<T> {
    if later.Some? then later else earlier
  }

  /** `{ ...p, ...q }`: the patch that applies `p` and then `q`. */
  function Then(p: BookingPatch, q: BookingPatch): BookingPatch {
    BookingPatch(
      Latest(p.id, q.id),
      Latest(p.name, q.name),
      Latest(p.email, q.email),
      Latest(p.company, q.company),
      Latest(p.projectType, q.projectType),
      Latest(p.budget, q.budget),
      Latest(p.timeline, q.timeline),
      Latest(p.description, q.description),
      Latest(p.preferredDate, q.preferredDate),
      Latest(p.preferredTime, q.preferredTime),
      Latest(p.status, q.status),
      Latest(p.createdAt, q.createdAt),
      Latest(p.updatedAt, q.updatedAt),
      Latest(p.calendarEventId, q.calendarEventId),
      Latest(p.meetingLink, q.meetingLink))
  }

  /** Spreading `p` and then `q` over a booking is spreading their merge once. */
  lemma PatchesCompose(b: SessionBooking, p: BookingPatch, q: BookingPatch)
    ensures Patched(Patched(b, p), q) == Patched(b, Then(p, q))
  {
  }

  /** Applying the same update twice is applying it once. */
  lemma PatchIdempotent(b: SessionBooking, p: BookingPatch)
    ensures Patched(Patched(b, p), p) == Patched(b, p)
  {
  }

  /** `createSessionBooking`: the new booking is appended with the clock's
      milliseconds as its id, status pending and both dates set to now. */
  function CreateBooking(store: seq<SessionBooking>, input: BookingInput, nowMs: nat): (r: (SessionBooking, seq<SessionBooking>))
    ensures r.1 == store + [r.0]
    ensures r.0.id == Some(Decimal(nowMs)) && r.0.status == Pending
    ensures r.0.createdAt == r.0.updatedAt == nowMs
    ensures r.0.name == input.name && r.0.email == input.email && r.0.company == input.company
    ensures r.0.projectType == input.projectType && r.0.budget == input.budget && r.0.timeline == input.timeline
    ensures r.0.description == input.description && r.0.preferredDate == input.preferredDate
    ensures r.0.preferredTime == input.preferredTime && r.0.calendarEventId == input.calendarEventId
    ensures r.0.meetingLink == input.meetingLink
  {
    var b := SessionBooking(
      Some(Decimal(nowMs)), input.name, input.email, input.company, input.projectType, input.budget,
      input.timeline, input.description, input.preferredDate, input.preferredTime, Pending, nowMs, nowMs,
      input.calendarEventId, input.meetingLink);
    (b, store + [b])
  }

  predicate HasBookingId(b: SessionBooking, id: string) {
    b.id == Some(id)
  }

  /** `mockBookings.findIndex(b => b._id === id)`. */
  function FindBooking(store: seq<SessionBooking>, id: string): (r: Option<nat>)
    ensures r.Some? ==> r.value < |store| && HasBookingId(store[r.value], id)
    ensures r.Some? ==> forall j :: 0 <= j < r.value ==> !HasBookingId(store[j], id)
    ensures r.None? <==> forall j :: 0 <= j < |store| ==> !HasBookingId(store[j], id)
  {
    Seqs.FindFirst(store, (b: SessionBooking) => HasBookingId(b, id))
  }

  /** `updateSessionBooking`: patch the first booking with the id and stamp its
      `updatedAt` with now (after the patch, so a patched `updatedAt` is lost);
      `None` and no change when no booking has the id. */
  function UpdateBooking(store: seq<SessionBooking>, id: string, patch: BookingPatch, nowMs: int): (r: (Option<SessionBooking>, seq<SessionBooking>))
    ensures |r.1| == |store|
    ensures r.0.None? <==> FindBooking(store, id).None?
    ensures r.0.None? ==> r.1 == store
    ensures r.0.Some? ==> var k := FindBooking(store, id).value;
      && r.0.value == Patched(store[k], patch).(updatedAt := nowMs)
      && r.1 == store[k := r.0.value]
  {
    match FindBooking(store, id)
    case None => (None, store)
    case Some(k) =>
      var b := Patched(store[k], patch).(updatedAt := nowMs);
      (Some(b), store[k := b])
  }

  /** `deleteSessionBooking`: remove the first booking with the id and answer
      whether there was one. */
  function DeleteBooking(store: seq<SessionBooking>, id: string): (r: (bool, seq<SessionBooking>))
    ensures r.0 <==> FindBooking(store, id).Some?
    ensures !r.0 ==> r.1 == store
    ensures r.0 ==> var k := FindBooking(store, id).value;
      && |r.1| == |store| - 1
      && r.1 == store[..k] + store[k + 1..]
      && multiset(r.1) + multiset{store[k]} == multiset(store)
  {
    match FindBooking(store, id)
    case None => (false, store)
    case Some(k) =>
      var r := Seqs.RemoveAt(store, k);
      assert r == store[..k] + store[k + 1..];
      (true, r)
  }

  /** Deleting a booking just created, when no earlier booking shares its id,
      restores the store. */
  lemma {:induction false} DeleteCreatedBooking(store: seq<SessionBooking>, input: BookingInput, nowMs: nat)
    requires FindBooking(store, Decimal(nowMs)).None?
    ensures DeleteBooking(CreateBooking(store, input, nowMs).1, Decimal(nowMs)) == (true, store)
  {
    var (b, s') := CreateBooking(store, input, nowMs);
    var id := Decimal(nowMs);
    assert forall j :: 0 <= j < |store| ==> s'[j] == store[j] && !HasBookingId(s'[j], id);
    assert HasBookingId(s'[|store|], id);
    var k := FindBooking(s', id).value;
    assert k == |store|;
    assert s'[..k] + s'[k + 1..] == store;
  }

  /** Updating keeps every booking but the one patched, and keeps them in place. */
  lemma UpdateTouchesOnlyFirstMatch(store: seq<SessionBooking>, id: string, patch: BookingPatch, nowMs: int)
    ensures var r := UpdateBooking(store, id, patch, nowMs);
      forall j :: 0 <= j < |store| && (FindBooking(store, id).None? || j != FindBooking(store, id).value) ==> r.1[j] == store[j]
  {
  }

  const ADMIN_USERNAME := "joeadmin"
  const ADMIN_PASSWORD := "JoeAdmin2024!"

  /** `validateAdminCredentials`: the one fixed pair is accepted. */
  function ValidateAdminCredentials(username: string, password: string): (ok: bool)
    ensures ok <==> username == ADMIN_USERNAME && password == ADMIN_PASSWORD
  {
    username == ADMIN_USERNAME && password == ADMIN_PASSWORD
  }

  datatype AdminUser = AdminUser(username: string)

  /** The claims a mock token carries, as its decoder finds them: either may be
      missing from a token that did not come from `GenerateAuthTokens`. */
  datatype MockClaims = MockClaims(user: Option<AdminUser>, iat: Option<int>)

  datatype AuthToken = AuthToken(token: string, refreshToken: string, expiresIn: nat)

  const TOKEN_SECONDS: nat := 3600
  const TOKEN_MS: nat := 3600000
  const REFRESH_SUFFIX := "_refresh"

  /** `generateAuthTokens`: the token is the encoded `{user, iat: now}`. */
  function GenerateAuthTokens(user: AdminUser, nowMs: int, codec: Codec<MockClaims>): (t: AuthToken)
    ensures RoundTrips(codec) ==> codec.decode(t.token) == Some(MockClaims(Some(user), Some(nowMs)))
    ensures t.refreshToken == t.token + REFRESH_SUFFIX && t.expiresIn == TOKEN_SECONDS
  {
    var token := codec.encode(MockClaims(Some(user), Some(nowMs)));
    AuthToken(token, token + REFRESH_SUFFIX, TOKEN_SECONDS)
  }

  /** `verifyToken`: the user of a token that decodes with a user and a
      non-zero issue time less than an hour before now. */
  function VerifyToken(token: string, nowMs: int, codec: Codec<MockClaims>): (r: Option<AdminUser>)
    ensures r.Some? <==>
      (&& codec.decode(token).Some?
       && codec.decode(token).value.user.Some?
       && codec.decode(token).value.iat.Some?
       && codec.decode(token).value.iat.value != 0
       && nowMs - codec.decode(token).value.iat.value < TOKEN_MS)
    ensures r.Some? ==> r == codec.decode(token).value.user
  {
    match codec.decode(token)
    case None => None
    case Some(claims) =>
      if claims.user.Some? && claims.iat.Some? && claims.iat.value != 0 && nowMs - claims.iat.value < TOKEN_MS
      then claims.user
      else None
  }

  /** A token generated at a non-zero time verifies, as the same user, exactly
      while less than an hour has passed. */
  lemma GeneratedTokenVerifies(user: AdminUser, iatMs: int, nowMs: int, codec: Codec<MockClaims>)
    requires RoundTrips(codec)
    requires iatMs != 0
    ensures VerifyToken(GenerateAuthTokens(user, iatMs, codec).token, nowMs, codec) ==
      (if nowMs - iatMs < TOKEN_MS then Some(user) else None)
  {
    assert codec.decode(codec.encode(MockClaims(Some(user), Some(iatMs)))) == Some(MockClaims(Some(user), Some(iatMs)));
  }

  /** The browser: `NoWindow` during server rendering, else `localStorage`. */
  datatype Browser = NoWindow | Window(local: map<string, string>)

  const TOKEN_KEY := "admin_token"
  const REFRESH_KEY := "admin_refresh_token"
  const EXPIRES_KEY := "admin_token_expires"

  /** `localStorage.getItem(key)`, `null` without a window. */
  function GetItem(b: Browser, key: string): (r: Option<string>)
    ensures r.Some? <==> b.Window? && key in b.local
    ensures r.Some? ==> r.value == b.local[key]
  {
    if b.Window? && key in b.local then Some(b.local[key]) else None
  }

  /** `storeAuthTokens`: both tokens and the expiry instant, in decimal milliseconds. */
  function StoreAuthTokens(b: Browser, t: AuthToken, nowMs: nat): (r: Browser)
    ensures b.NoWindow? ==> r == b
    ensures b.Window? ==>
      (&& r.Window?
       && GetItem(r, TOKEN_KEY) == Some(t.token)
       && GetItem(r, REFRESH_KEY) == Some(t.refreshToken)
       && GetItem(r, EXPIRES_KEY) == Some(Decimal(nowMs + t.expiresIn * 1000))
       && forall k :: k !in {TOKEN_KEY, REFRESH_KEY, EXPIRES_KEY} ==> GetItem(r, k) == GetItem(b, k))
  {
    match b
    case NoWindow => b
    case Window(m) =>
      Window(m[TOKEN_KEY := t.token][REFRESH_KEY := t.refreshToken][EXPIRES_KEY := Decimal(nowMs + t.expiresIn * 1000)])
  }

  /** `clearAuthTokens`: the three keys are gone, every other key stays. */
  function ClearAuthTokens(b: Browser): (r: Browser)
    ensures b.NoWindow? ==> r == b
    ensures GetItem(r, TOKEN_KEY).None? && GetItem(r, REFRESH_KEY).None? && GetItem(r, EXPIRES_KEY).None?
    ensures forall k :: k !in {TOKEN_KEY, REFRESH_KEY, EXPIRES_KEY} ==> GetItem(r, k) == GetItem(b, k)
  {
    match b
    case NoWindow => b
    case Window(m) => Window(m - {TOKEN_KEY, REFRESH_KEY, EXPIRES_KEY})
  }

  /** `isTokenExpired`: expired without a window or without a stored expiry;
      otherwise expired once now is past the stored instant. A stored value
      `parseInt` cannot read compares as NaN, which is never exceeded. */
  function IsTokenExpired(b: Browser, nowMs: int): (expired: bool)
    ensures GetItem(b, EXPIRES_KEY).None? || GetItem(b, EXPIRES_KEY) == Some("") ==> expired
    ensures forall n: nat :: GetItem(b, EXPIRES_KEY) == Some(Decimal(n)) ==> (expired <==> nowMs > n)
  {
    match GetItem(b, EXPIRES_KEY)
    case None => true
    case Some(v) =>
      if v == "" then true
      else
        match ParseInt(v)
        case None => false
        case Some(at) =>
          assert forall n: nat :: v == Decimal(n) ==> at == n by {
            forall n: nat | v == Decimal(n) ensures at == n { ParseIntOfDecimal(n); }
          }
          nowMs > at
  }

  /** A stored expiry `parseInt` reads as NaN, such as a bare `0x`, never
      compares as passed, so the session is not expired by it. */
  lemma UnreadableExpiryNeverExpires(b: Browser, nowMs: int)
    requires GetItem(b, EXPIRES_KEY).Some? && GetItem(b, EXPIRES_KEY) != Some("")
    requires ParseInt(GetItem(b, EXPIRES_KEY).value).None?
    ensures !IsTokenExpired(b, nowMs)
  {
  }

  /** A stored expiry `parseInt` can read is passed once now exceeds it. */
  lemma ReadableExpiry(b: Browser, nowMs: int, at: int)
    requires GetItem(b, EXPIRES_KEY).Some? && GetItem(b, EXPIRES_KEY) != Some("")
    requires ParseInt(GetItem(b, EXPIRES_KEY).value) == Some(at)
    ensures IsTokenExpired(b, nowMs) <==> nowMs > at
  {
  }

  /** A hexadecimal expiry is read in base 16: `0x10` is the instant 16. */
  lemma HexExpiry(b: Browser, nowMs: int)
    requires GetItem(b, EXPIRES_KEY) == Some("0x10")
    ensures IsTokenExpired(b, nowMs) <==> nowMs > 16
  {
    ParseIntHexExamples();
    ReadableExpiry(b, nowMs, 16);
  }

  /** A bare `0x` is NaN to `parseInt`, so it never expires the session. */
  lemma BareHexPrefixExpiry(b: Browser, nowMs: int)
    requires GetItem(b, EXPIRES_KEY) == Some("0x")
    ensures !IsTokenExpired(b, nowMs)
  {
    ParseIntHexExamples();
    UnreadableExpiryNeverExpires(b, nowMs);
  }

  /** `getCurrentUser`: nobody without a stored token; an expired session is
      cleared from storage; otherwise whoever the token verifies as. */
  function GetCurrentUser(b: Browser, nowMs: int, codec: Codec<MockClaims>): (r: (Option<AdminUser>, Browser))
    ensures GetItem(b, TOKEN_KEY).None? || GetItem(b, TOKEN_KEY) == Some("") ==> r == (None, b)
    ensures GetItem(b, TOKEN_KEY).Some? && GetItem(b, TOKEN_KEY) != Some("") ==>
      if IsTokenExpired(b, nowMs) then r == (None, ClearAuthTokens(b))
      else r == (VerifyToken(GetItem(b, TOKEN_KEY).value, nowMs, codec), b)
  {
    match GetItem(b, TOKEN_KEY)
    case None => (None, b)
    case Some(token) =>
      if token == "" then (None, b)
      else if IsTokenExpired(b, nowMs) then (None, ClearAuthTokens(b))
      else (VerifyToken(token, nowMs, codec), b)
  }

  /** A session stored at a clock reading of `loginMs` reports the user exactly
      while less than an hour has passed; from the first millisecond past the
      hour it also clears the stored tokens. */
  lemma {:induction false} SessionLastsOneHour(m: map<string, string>, user: AdminUser, loginMs: nat, nowMs: int, codec: Codec<MockClaims>)
    requires RoundTrips(codec)
    requires loginMs != 0
    requires GenerateAuthTokens(user, loginMs, codec).token != ""
    ensures var b := StoreAuthTokens(Window(m), GenerateAuthTokens(user, loginMs, codec), loginMs);
      && (GetCurrentUser(b, nowMs, codec).0 == Some(user) <==> nowMs < loginMs + TOKEN_MS)
      && (nowMs > loginMs + TOKEN_MS ==> GetCurrentUser(b, nowMs, codec).1 == ClearAuthTokens(b))
      && (nowMs <= loginMs + TOKEN_MS ==> GetCurrentUser(b, nowMs, codec).1 == b)
  {
    var t := GenerateAuthTokens(user, loginMs, codec);
    var b := StoreAuthTokens(Window(m), t, loginMs);
    assert GetItem(b, EXPIRES_KEY) == Some(Decimal(loginMs + TOKEN_MS));
    assert IsTokenExpired(b, nowMs) <==> nowMs > loginMs + TOKEN_MS;
    GeneratedTokenVerifies(user, loginMs, nowMs, codec);
  }
}
