/** POST /api/auth/logout: delete the session cookie. */
module LogoutRoute {
  import opened Wrappers
  import opened Session
  import opened Http
  import opened AppServer
  import MeRoute

  const LoggedOutMessage := "Logged out successfully"
  const LogoutFailedMessage := "Logout failed"

  /**
   * The handler; `cookieStoreThrows` stands for `cookies()` throwing, in
   * which case the jar is left as it was.
   */
  method Post(s: Server, cookieStoreThrows: bool) returns (reply: Reply)
    modifies s`cookies
    ensures cookieStoreThrows ==> s.cookies == old(s.cookies) && reply == Reply(500, ErrorBody(LogoutFailedMessage))
    ensures !cookieStoreThrows ==>
      && s.cookies == old(s.cookies) - {CookieName}
      && reply == Reply(200, MessageBody(LoggedOutMessage))
      && s.CurrentSession().None?
  {
    if cookieStoreThrows {
      return Reply(500, ErrorBody(LogoutFailedMessage));
    }
    s.ClearSessionCookie();
    return Reply(200, MessageBody(LoggedOutMessage));
  }

  /** After logout the session route answers 401, and other cookies survive. */
  lemma LogoutEndsSession(jar: Jar, key: Secret, nowMs: int, name: string)
    requires name != CookieName && name in jar
    ensures MeRoute.Get(jar - {CookieName}, key, nowMs, false).status == 401
    ensures name in jar - {CookieName} && (jar - {CookieName})[name] == jar[name]
  {
  }

  /**
   * Logout deletes the cookie and revokes nothing: the token itself still
   * verifies until its own expiry, so a copy kept elsewhere and sent again
   * restores the session.
   */
  lemma {:induction false} LogoutDoesNotRevoke(jar: Jar, key: Secret, nowMs: int, production: bool)
    requires CookieName in jar && GetSession(jar, key, nowMs).Some?
    ensures var replayed := (jar - {CookieName})[CookieName := SessionCookie(jar[CookieName].value, production)];
      GetSession(replayed, key, nowMs) == GetSession(jar, key, nowMs)
  {
  }
}
