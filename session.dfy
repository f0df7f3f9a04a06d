/**
 * The session signer. A token is an ideal MAC over its claims: it records
 * the claims, the issued-at and expiry times (JWT NumericDate seconds,
 * section 4.1.4 of RFC 7519), the key it was signed with and the algorithm
 * named in its protected header (HS256 is HMAC with SHA-256, section 3.2 of
 * RFC 7518). Verifying compares key and algorithm and checks expiry; a
 * string that is not a well-formed token is `Malformed`.
 */
module Session {
  import opened Wrappers
  import opened UserModel

  /** The signing secret; the server cannot start without a non-empty one. */
  type Secret = s: string | s != [] witness "k"

  const MissingSecretMessage := "Please define the JWT_SECRET environment variable inside .env.local"

  /** The startup check on the JWT_SECRET variable: absent or empty refuses to load. */
  function LoadSecret(env: Option<string>): (r: Result<Secret, string>)
    ensures r.Success? <==> env.Some? && env.value != []
    ensures r.Success? ==> r.value == env.value
    ensures r.Failure? ==> r.error == MissingSecretMessage
  {
    if env.None? || env.value == [] then Failure(MissingSecretMessage) else Success(env.value)
  }

  datatype Alg = HS256 | HS384 | HS512 | OtherAlg(name: string)

  /** The session payload: `userId`, `email` and `role`. */
  datatype Claims = Claims(userId: nat, email: string, role: Role)

  datatype Token =
    | Signed(claims: Claims, iat: int, exp: int, key: string, alg: Alg)
    | Malformed(raw: string)

  /** Seven days, in seconds: the `"7d"` expiration horizon. */
  const TokenLifetime := 7 * 24 * 60 * 60

  /** A JWT NumericDate: whole seconds, rounded down from the millisecond clock. */
  function Epoch(nowMs: int): int {
    nowMs / 1000
  }

  /** `createSession`: HS256 header, `iat` now, `exp` seven days later, signed with the server key. */
  function CreateSession(claims: Claims, key: Secret, nowMs: int): (t: Token)
    ensures t.Signed? && t.claims == claims && t.key == key && t.alg == HS256
    ensures t.iat == Epoch(nowMs) && t.exp == t.iat + TokenLifetime
  {
    var iat := Epoch(nowMs);
    Signed(claims, iat, iat + TokenLifetime, key, HS256)
  }

  /**
   * `verifySession`: with the algorithm pinned to HS256, a token verifies
   * when it is well formed, its signature is under the server key, and the
   * current NumericDate is before `exp`. Every failure is the same None.
   */
  function VerifySession(token: Token, key: Secret, nowMs: int): (r: Option<Claims>)
    ensures r.Some? ==> token.Signed? && r.value == token.claims
  {
    match token
    case Malformed(_) => None
    case Signed(claims, _, exp, k, alg) =>
      if k == key && alg == HS256 && Epoch(nowMs) < exp then Some(claims) else None
  }

  /**
   * The middleware's `jwtVerify` call, which passes no `algorithms` option:
   * any HMAC algorithm usable with a raw secret is accepted.
   */
  predicate MiddlewareVerifies(token: Token, key: string, nowMs: int) {
    && token.Signed?
    && token.key == key
    && token.alg in {HS256, HS384, HS512}
    && Epoch(nowMs) < token.exp
  }

  /** Round trip: a freshly minted token verifies under the same key exactly until its `exp`, giving back its claims. */
  lemma {:induction false} RoundTrip(claims: Claims, key: Secret, mintedAt: int, nowMs: int)
    ensures VerifySession(CreateSession(claims, key, mintedAt), key, nowMs) ==
      if Epoch(nowMs) < Epoch(mintedAt) + TokenLifetime then Some(claims) else None
  {
  }

  /**
   * Because `iat` is rounded down to the second, the token verifies for at
   * least seven days less one second after minting.
   */
  lemma {:induction false} ValidForSevenDays(claims: Claims, key: Secret, mintedAt: int, nowMs: int)
    requires mintedAt <= nowMs < mintedAt + (TokenLifetime - 1) * 1000
    ensures VerifySession(CreateSession(claims, key, mintedAt), key, nowMs) == Some(claims)
  {
    var last := mintedAt + (TokenLifetime - 1) * 1000 - 1;
    DivMonotone(nowMs, last);
    ShiftThousands(mintedAt - 1, TokenLifetime - 1);
    DivMonotone(mintedAt - 1, mintedAt);
  }

  /** Seven days (in milliseconds) after minting, the token no longer verifies. */
  lemma {:induction false} ExpiredAfterSevenDays(claims: Claims, key: Secret, mintedAt: int, nowMs: int)
    requires nowMs >= mintedAt + TokenLifetime * 1000
    ensures VerifySession(CreateSession(claims, key, mintedAt), key, nowMs) == None
  {
    ShiftThousands(mintedAt, TokenLifetime);
    DivMonotone(mintedAt + TokenLifetime * 1000, nowMs);
  }

  lemma DivMonotone(a: int, b: int)
    requires a <= b
    ensures a / 1000 <= b / 1000
  {
  }

  lemma ShiftThousands(a: int, k: int)
    ensures (a + k * 1000) / 1000 == a / 1000 + k
  {
  }

  /** A token signed with any other key never verifies. */
  lemma WrongKeyFails(token: Token, key: Secret, nowMs: int)
    requires token.Signed? && token.key != key
    ensures VerifySession(token, key, nowMs) == None
  {
  }

  /** A token whose header names any algorithm but HS256 never verifies, even under the right key. */
  lemma WrongAlgFails(token: Token, key: Secret, nowMs: int)
    requires token.Signed? && token.alg != HS256
    ensures VerifySession(token, key, nowMs) == None
  {
  }

  /**
   * Malformed, expired and wrongly signed tokens are not told apart: each
   * yields the same None.
   */
  lemma FailuresIndistinguishable(raw: string, expired: Token, forged: Token, key: Secret, nowMs: int)
    requires expired.Signed? && expired.exp <= Epoch(nowMs)
    requires forged.Signed? && forged.key != key
    ensures VerifySession(Malformed(raw), key, nowMs) == VerifySession(expired, key, nowMs)
    ensures VerifySession(expired, key, nowMs) == VerifySession(forged, key, nowMs)
    ensures VerifySession(forged, key, nowMs) == None
  {
  }

  /** Whatever `verifySession` accepts, the middleware accepts too. */
  lemma PinnedImpliesMiddleware(token: Token, key: Secret, nowMs: int)
    requires VerifySession(token, key, nowMs).Some?
    ensures MiddlewareVerifies(token, key, nowMs)
  {
  }

  /**
   * The converse fails: an HS384 token under the server key passes the
   * middleware but not `verifySession`.
   */
  lemma MiddlewareAcceptsUnpinnedAlg(claims: Claims, key: Secret, nowMs: int)
    ensures var t := Signed(claims, Epoch(nowMs), Epoch(nowMs) + 1, key, HS384);
      MiddlewareVerifies(t, key, nowMs) && VerifySession(t, key, nowMs).None?
  {
  }

  // ---- The session cookie (section 4.1.2 of RFC 6265 for its attributes) ----

  const CookieName := "session"

  /** Seven days, in seconds: the cookie's `maxAge`. */
  const CookieMaxAge := 60 * 60 * 24 * 7

  datatype SameSite = Lax | Strict | NoRestriction

  datatype Cookie = Cookie(value: Token, httpOnly: bool, secure: bool, sameSite: SameSite, maxAge: int, path: string)

  /** The cookie jar of the current request/response: cookie name to cookie. */
  type Jar = map<string, Cookie>

  /** The attributes `setSessionCookie` writes; `secure` only in production. */
  function SessionCookie(token: Token, production: bool): (c: Cookie)
    ensures c.value == token && c.httpOnly && c.sameSite == Lax && c.path == "/"
    ensures c.secure == production
    ensures c.maxAge == TokenLifetime
  {
    Cookie(token, true, production, Lax, CookieMaxAge, "/")
  }

  /** `getSession`: no "session" cookie gives None, otherwise `verifySession` of its value. */
  function GetSession(jar: Jar, key: Secret, nowMs: int): (r: Option<Claims>)
    ensures CookieName !in jar ==> r.None?
    ensures CookieName in jar ==> r == VerifySession(jar[CookieName].value, key, nowMs)
  {
    if CookieName !in jar then None else VerifySession(jar[CookieName].value, key, nowMs)
  }
}
