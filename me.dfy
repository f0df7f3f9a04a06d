/** GET /api/auth/me: the claims of the current session, or 401. */
module MeRoute {
  import opened Wrappers
  import opened Session
  import opened Http

  const NotAuthenticatedMessage := "Not authenticated"
  const SessionFailedMessage := "Failed to get session"

  /**
   * The reply for the jar the request carries; `cookieStoreThrows` stands
   * for `cookies()` throwing outside a request scope.
   */
  function Get(jar: Jar, key: Secret, nowMs: int, cookieStoreThrows: bool): (r: Reply)
    ensures r.status == 200 <==> !cookieStoreThrows && GetSession(jar, key, nowMs).Some?
    ensures r.status == 200 ==>
      var c := GetSession(jar, key, nowMs).value;
      r.body == UserBody(UserView(c.userId, c.email, c.role))
    ensures r.status == 401 <==> !cookieStoreThrows && GetSession(jar, key, nowMs).None?
    ensures r.status == 401 ==> r.body == ErrorBody(NotAuthenticatedMessage)
    ensures cookieStoreThrows ==> r == Reply(500, ErrorBody(SessionFailedMessage))
  {
    if cookieStoreThrows then Reply(500, ErrorBody(SessionFailedMessage))
    else match GetSession(jar, key, nowMs)
    case None => Reply(401, ErrorBody(NotAuthenticatedMessage))
    case Some(c) => Reply(200, UserBody(UserView(c.userId, c.email, c.role)))
  }

  /**
   * The route trusts the token alone: a jar holding a freshly minted
   * token answers with exactly the claims that were signed, and one
   * without a session cookie answers 401.
   */
  lemma {:induction false} AnswersSignedClaims(jar: Jar, claims: Claims, key: Secret, mintedAt: int, nowMs: int, production: bool)
    requires mintedAt <= nowMs < mintedAt + (TokenLifetime - 1) * 1000
    ensures var jar' := jar[CookieName := SessionCookie(CreateSession(claims, key, mintedAt), production)];
      Get(jar', key, nowMs, false) == Reply(200, UserBody(UserView(claims.userId, claims.email, claims.role)))
    ensures Get(jar - {CookieName}, key, nowMs, false) == Reply(401, ErrorBody(NotAuthenticatedMessage))
  {
    ValidForSevenDays(claims, key, mintedAt, nowMs);
  }
}
