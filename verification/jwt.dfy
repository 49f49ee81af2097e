/** The admin session token as the `jsonwebtoken` library treats it: a set of
    claims signed with a key. Signatures are not computed; a token records the
    key that signed it, and verification compares keys. Times in claims are
    whole seconds (`Math.floor(Date.now() / 1000)`), the clock is in milliseconds. */
module Jwt {
  import opened Wrappers
  import opened Documents

  datatype Token = Token(claims: map<string, Value>, key: string)

  /** `expiresIn: '24h'` in seconds. */
  const DAY_SECONDS: nat := 86400

  /** The reasons `jwt.verify` throws. */
  datatype VerifyError =
    | MissingSecret     // no (or an empty) verification key
    | BadSignature      // signed with another key
    | InvalidNotBefore  // `nbf` present but not a number
    | NotYetValid       // `nbf` is in the future
    | InvalidExpiry     // `exp` present but not a number
    | Expired           // the clock has reached `exp`

  /** `Math.floor(ms / 1000)`: the second that millisecond `ms` falls in. */
  function Seconds(ms: int): (s: int)
    ensures s * 1000 <= ms < s * 1000 + 1000
  {
    ms / 1000
  }

  /** The secret is configured and non-empty, which `jwt.sign` and `jwt.verify` demand. */
  predicate UsableSecret(secret: Option<string>)
    ensures !UsableSecret(secret) <==> secret == None || secret == Some("")
  {
    secret.Some? && secret.value != ""
  }

  /** `jwt.sign({ admin: true, timestamp: Date.now() }, secret, { expiresIn: '24h' })`:
      the payload plus `iat` (issue second) and `exp` (a day later); no token
      when the secret is missing or empty (the library throws). */
  function IssueAdminToken(secret: Option<string>, nowMs: int): (r: Option<Token>)
    ensures r.Some? <==> UsableSecret(secret)
    ensures r.Some? ==> r.value.key == secret.value
    ensures r.Some? ==> FieldTruthy(r.value.claims, "admin")
    ensures r.Some? ==> "timestamp" in r.value.claims && r.value.claims["timestamp"] == VNum(nowMs)
    ensures r.Some? ==> "iat" in r.value.claims && r.value.claims["iat"] == VNum(Seconds(nowMs))
    ensures r.Some? ==> "exp" in r.value.claims && r.value.claims["exp"] == VNum(Seconds(nowMs) + DAY_SECONDS)
  {
    if UsableSecret(secret) then
      var iat := Seconds(nowMs);
      Some(Token(map["admin" := VBool(true), "timestamp" := VNum(nowMs), "iat" := VNum(iat), "exp" := VNum(iat + DAY_SECONDS)], secret.value))
    else None
  }

  /** `jwt.verify(token, secret)`: the key check, then `nbf`, then `exp`
      (expired once the current second reaches it); the claims on success. */
  function Verify(t: Token, secret: Option<string>, nowMs: int): (r: Result<map<string, Value>, VerifyError>)
    ensures r.Ok? <==>
      && UsableSecret(secret) && t.key == secret.value
      && ("nbf" in t.claims ==> t.claims["nbf"].VNum? && t.claims["nbf"].n <= Seconds(nowMs))
      && ("exp" in t.claims ==> t.claims["exp"].VNum? && Seconds(nowMs) < t.claims["exp"].n)
    ensures r.Ok? ==> r.value == t.claims
  {
    var now := Seconds(nowMs);
    if !UsableSecret(secret) then Err(MissingSecret)
    else if t.key != secret.value then Err(BadSignature)
    else if "nbf" in t.claims && !t.claims["nbf"].VNum? then Err(InvalidNotBefore)
    else if "nbf" in t.claims && t.claims["nbf"].n > now then Err(NotYetValid)
    else if "exp" in t.claims && !t.claims["exp"].VNum? then Err(InvalidExpiry)
    else if "exp" in t.claims && now >= t.claims["exp"].n then Err(Expired)
    else Ok(t.claims)
  }

  /** A token issued at `issuedMs` verifies under the same secret exactly until
      the start of the second 86400 seconds after its issue second. */
  lemma IssuedTokenWindow(secret: Option<string>, issuedMs: int, nowMs: int)
    requires UsableSecret(secret)
    ensures Verify(IssueAdminToken(secret, issuedMs).value, secret, nowMs).Ok?
        <==> nowMs < (Seconds(issuedMs) + DAY_SECONDS) * 1000
  {
  }

  /** Consequently a token is accepted up to 86399 seconds after issue and
      refused from exactly 24 hours after issue on. */
  lemma {:induction false} IssuedTokenLifetime(secret: Option<string>, issuedMs: int, nowMs: int)
    requires UsableSecret(secret)
    ensures nowMs <= issuedMs + (DAY_SECONDS - 1) * 1000 ==> Verify(IssueAdminToken(secret, issuedMs).value, secret, nowMs).Ok?
    ensures nowMs >= issuedMs + DAY_SECONDS * 1000 ==> Verify(IssueAdminToken(secret, issuedMs).value, secret, nowMs) == Err(Expired)
  {
    IssuedTokenWindow(secret, issuedMs, nowMs);
    assert Seconds(issuedMs) * 1000 <= issuedMs < Seconds(issuedMs) * 1000 + 1000;
  }

  /** A token is refused under any secret other than the one that signed it. */
  lemma OtherSecretRefused(secret: Option<string>, other: Option<string>, issuedMs: int, nowMs: int)
    requires UsableSecret(secret) && other != secret
    ensures Verify(IssueAdminToken(secret, issuedMs).value, other, nowMs).Err?
  {
  }
}
