/**
 * The edge middleware: which paths it runs on, and its redirect decision
 * from the path, the session cookie and the secret it read at start-up.
 */
module Middleware {
  import opened Wrappers
  import opened Text
  import opened Session

  const ProtectedPrefix := "/dashboard"
  const AuthPrefix := "/login"
  const LoginPath := "/login"
  const DashboardPath := "/dashboard"

  predicate IsProtected(path: string) {
    StartsWith(path, ProtectedPrefix)
  }

  predicate IsAuthRoute(path: string) {
    StartsWith(path, AuthPrefix)
  }

  /**
   * The matcher `/((?!api|_next/static|_next/image|favicon.ico|.*\..*|_next).*)`:
   * after the leading slash the rest must not begin with "api" or "_next",
   * must not begin with "favicon", any one character, "ico" (the dot is
   * unescaped), and must contain no dot at all.
   */
  predicate Matched(path: string) {
    && |path| >= 1 && path[0] == '/'
    && var rest := path[1..];
    && !StartsWith(rest, "api")
    && !StartsWith(rest, "_next")
    && !(|rest| >= 11 && rest[..7] == "favicon" && rest[8..11] == "ico")
    && !ContainsChar(rest, '.')
  }

  datatype Decision = Next | RedirectToLogin(redirect: string) | RedirectToDashboard

  /**
   * A session counts when a cookie is present, the secret is set and
   * non-empty, and the token verifies with any HMAC algorithm.
   */
  predicate SessionValid(cookie: Option<Token>, secret: Option<string>, nowMs: int) {
    cookie.Some? && secret.Some? && secret.value != [] && MiddlewareVerifies(cookie.value, secret.value, nowMs)
  }

  /** The middleware body, for a path the matcher selected. */
  function Decide(path: string, cookie: Option<Token>, secret: Option<string>, nowMs: int): (d: Decision)
    ensures d.RedirectToLogin? <==> IsProtected(path) && !SessionValid(cookie, secret, nowMs)
    ensures d.RedirectToLogin? ==> d.redirect == path
    ensures d.RedirectToDashboard? <==> IsAuthRoute(path) && SessionValid(cookie, secret, nowMs)
  {
    var valid := SessionValid(cookie, secret, nowMs);
    if IsProtected(path) && !valid then RedirectToLogin(path)
    else if IsAuthRoute(path) && valid then RedirectToDashboard
    else Next
  }

  /** A request: the middleware runs only on matched paths. */
  function Run(path: string, cookie: Option<Token>, secret: Option<string>, nowMs: int): (d: Decision)
    ensures d.RedirectToLogin? <==> Matched(path) && IsProtected(path) && !SessionValid(cookie, secret, nowMs)
    ensures d.RedirectToDashboard? <==> Matched(path) && IsAuthRoute(path) && SessionValid(cookie, secret, nowMs)
  {
    if Matched(path) then Decide(path, cookie, secret, nowMs) else Next
  }

  /** No path is both protected and an auth route. */
  lemma ProtectedAndAuthDisjoint(path: string)
    ensures !(IsProtected(path) && IsAuthRoute(path))
  {
    assert IsProtected(path) ==> path[1] == ProtectedPrefix[1];
    assert IsAuthRoute(path) ==> path[1] == AuthPrefix[1];
  }

  /** A string whose first character differs from the prefix's does not start with it. */
  lemma FirstCharDiffers(s: string, prefix: string)
    requires |s| > 0 && |prefix| > 0 && s[0] != prefix[0]
    ensures !StartsWith(s, prefix)
  {
    if |prefix| <= |s| {
      assert s[..|prefix|][0] == s[0];
    }
  }

  /** Every guarded page whose path has no dot is matched, so its guard runs. */
  lemma {:induction false} GuardedPagesMatched(path: string)
    requires IsProtected(path) || IsAuthRoute(path)
    requires !ContainsChar(path, '.')
    ensures Matched(path)
  {
    assert path[0] == path[..|AuthPrefix|][0];
    var rest := path[1..];
    assert rest[0] == path[1] && (rest[0] == 'd' || rest[0] == 'l') by {
      if IsProtected(path) { assert path[1] == path[..|ProtectedPrefix|][1]; }
      else { assert path[1] == path[..|AuthPrefix|][1]; }
    }
    FirstCharDiffers(rest, "api");
    FirstCharDiffers(rest, "_next");
    if |rest| >= 11 {
      assert rest[..7][0] == rest[0];
    }
    forall i | 0 <= i < |rest| ensures rest[i] != '.' {
      assert rest[i] == path[i + 1];
    }
  }

  /** An API path is never matched: the route handlers do their own session checks. */
  lemma {:induction false} ApiPathsUnmatched(path: string, cookie: Option<Token>, secret: Option<string>, nowMs: int)
    requires StartsWith(path, "/api")
    ensures !Matched(path) && Run(path, cookie, secret, nowMs) == Next
  {
    assert path[1..][..3] == path[..4][1..];
  }

  /**
   * A path with a dot after the leading slash is never matched, so it passes
   * with no session check, whatever its prefix.
   */
  lemma {:induction false} DottedPathsUnmatched(path: string, cookie: Option<Token>, secret: Option<string>, nowMs: int)
    requires |path| >= 1 && ContainsChar(path[1..], '.')
    ensures !Matched(path) && Run(path, cookie, secret, nowMs) == Next
  {
  }

  /** The two guarded pages are matched and classified as intended. */
  lemma {:induction false} DashboardMatched()
    ensures Matched(DashboardPath) && IsProtected(DashboardPath) && !IsAuthRoute(DashboardPath)
    ensures Matched(LoginPath) && IsAuthRoute(LoginPath) && !IsProtected(LoginPath)
  {
    var d := DashboardPath[1..];
    var l := LoginPath[1..];
    assert d[0] == 'd' && l[0] == 'l';
    FirstCharDiffers(d, "api");
    FirstCharDiffers(d, "_next");
    FirstCharDiffers(l, "api");
    FirstCharDiffers(l, "_next");
    assert !ContainsChar(d, '.');
    assert !ContainsChar(l, '.');
    assert DashboardPath[..|DashboardPath|] == DashboardPath;
    assert LoginPath[..|LoginPath|] == LoginPath;
    assert DashboardPath[..|AuthPrefix|] != AuthPrefix by { assert DashboardPath[1] != AuthPrefix[1]; }
  }

  /**
   * Redirects never loop: a redirect to the login page lands on a page that
   * is not protected, and a redirect to the dashboard, with the same
   * cookie, passes.
   */
  lemma {:induction false} NoRedirectLoop(path: string, cookie: Option<Token>, secret: Option<string>, nowMs: int)
    ensures Run(path, cookie, secret, nowMs).RedirectToLogin? ==> !Run(LoginPath, cookie, secret, nowMs).RedirectToLogin?
    ensures Run(path, cookie, secret, nowMs).RedirectToDashboard? ==> Run(DashboardPath, cookie, secret, nowMs) == Next
  {
    DashboardMatched();
  }

  /** A protected page is reached only with a session the middleware accepts. */
  lemma ProtectedNeedsSession(path: string, cookie: Option<Token>, secret: Option<string>, nowMs: int)
    requires Matched(path) && IsProtected(path)
    requires Run(path, cookie, secret, nowMs) == Next
    ensures cookie.Some? && secret.Some? && MiddlewareVerifies(cookie.value, secret.value, nowMs)
  {
  }

  /**
   * With no secret configured every session is rejected: protected pages
   * always redirect to login.
   */
  lemma NoSecretLocksDashboard(path: string, cookie: Option<Token>, nowMs: int)
    requires Matched(path) && IsProtected(path)
    ensures Run(path, cookie, None, nowMs) == RedirectToLogin(path)
    ensures Run(path, cookie, Some([]), nowMs) == RedirectToLogin(path)
  {
  }

  /**
   * Only "/dashboard..." is guarded: the history page and the API routes
   * pass through the middleware without any session.
   */
  lemma {:induction false} HistoryAndApiUnguarded(nowMs: int)
    ensures Run("/history", None, None, nowMs) == Next
    ensures !Matched("/api/history") && Run("/api/history", None, None, nowMs) == Next
  {
    var p := "/history";
    assert p[..|AuthPrefix|] != AuthPrefix by { assert p[1] != AuthPrefix[1]; }
    var q := "/api/history";
    assert StartsWith(q[1..], "api") by { assert q[1..][..3] == "api"; }
  }

  /** A session that the route handlers accept is accepted here too. */
  lemma {:induction false} RouteSessionPassesMiddleware(path: string, token: Token, key: Secret, nowMs: int)
    requires VerifySession(token, key, nowMs).Some?
    ensures Decide(path, Some(token), Some(key), nowMs) != RedirectToLogin(path)
  {
    PinnedImpliesMiddleware(token, key, nowMs);
  }
}
