/** The request gate of `src/middleware.js`: which requests pass, which are
    sent to the sign-in page and which to the inbox, from whether a session
    exists and the request path. */
module Middleware {

  datatype Decision =
    | PassThrough                          // NextResponse.next()
    | RedirectToLogin(redirectTo: string)  // /login?redirectTo=<path>
    | RedirectToInbox                      // /inbox

  const PublicPaths: seq<string> := ["/login", "/signup", "/api/webhooks"]
  const WebhookPrefix := "/api/webhooks/"

  /** `publicPaths.some(path => pathname.startsWith(path))`: a prefix test,
      so `/login-help` counts as public too. */
  predicate IsPublicPath(pathname: string) {
    exists i :: 0 <= i < |PublicPaths| && PublicPaths[i] <= pathname
  }

  /** The pages a signed-in user is sent away from. */
  predicate IsAuthPage(pathname: string) {
    pathname == "/login" || pathname == "/signup" || pathname == "/"
  }

  /** The middleware's answer, checks in the order the source makes them. */
  function Decide(hasSession: bool, pathname: string): (d: Decision)
    ensures WebhookPrefix <= pathname ==> d == PassThrough
    ensures d.RedirectToLogin? <==> !(WebhookPrefix <= pathname) && !hasSession && !IsPublicPath(pathname)
    ensures d.RedirectToLogin? ==> d.redirectTo == pathname
    ensures d == RedirectToInbox <==> !(WebhookPrefix <= pathname) && hasSession && IsAuthPage(pathname)
  {
    if WebhookPrefix <= pathname then PassThrough
    else if !hasSession && !IsPublicPath(pathname) then RedirectToLogin(pathname)
    else if hasSession && IsAuthPage(pathname) then RedirectToInbox
    else PassThrough
  }

  /** A signed-in user is never sent to sign in, and a signed-out user is
      never sent to the inbox. */
  lemma SessionDecidesRedirect(hasSession: bool, pathname: string)
    ensures hasSession ==> !Decide(hasSession, pathname).RedirectToLogin?
    ensures !hasSession ==> Decide(hasSession, pathname) != RedirectToInbox
  {
  }

  /** Every gateway callback path passes, session or not. */
  lemma WebhooksAlwaysPass(hasSession: bool, rest: string)
    ensures Decide(hasSession, WebhookPrefix + rest) == PassThrough
  {
    assert WebhookPrefix <= WebhookPrefix + rest;
  }

  /** Signed out: the root goes to sign-in with itself as the return path,
      while a path merely starting with a public prefix is let through. */
  lemma SignedOutExamples()
    ensures Decide(false, "/") == RedirectToLogin("/")
    ensures Decide(false, "/inbox") == RedirectToLogin("/inbox")
    ensures Decide(false, "/login-help") == PassThrough
    ensures Decide(false, "/login") == PassThrough
  {
    assert PublicPaths[0] <= "/login-help";
    assert PublicPaths[0] <= "/login";
    assert !IsPublicPath("/") by {
      forall i | 0 <= i < |PublicPaths| ensures !(PublicPaths[i] <= "/") {
        assert |PublicPaths[i]| > 1 && PublicPaths[i][1] != '/';
      }
    }
    assert !IsPublicPath("/inbox") by {
      forall i | 0 <= i < |PublicPaths| ensures !(PublicPaths[i] <= "/inbox") {
        assert PublicPaths[i][1] != "/inbox"[1];
      }
    }
  }
}
