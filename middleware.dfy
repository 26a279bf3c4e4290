/**
 * middleware.ts: the public-path test and the redirect decision taken for
 * every request, from the path and the presence of the `auth` cookie.
 */
module Middleware {
  import Text

  /** `isPublicPath`: three exact paths and four prefixes. */
  predicate IsPublicPath(path: string) {
    path == "/" || path == "/login" || path == "/register" ||
    Text.StartsWith(path, "/_next") || Text.StartsWith(path, "/api") ||
    Text.StartsWith(path, "/communities") || Text.StartsWith(path, "/discover")
  }

  /** What the middleware returns: `NextResponse.next()` or a redirect to a path. */
  datatype Response = Next | Redirect(to: string)

  /** `middleware(request)`, with `isAuthenticated` standing for `request.cookies.has("auth")`. */
  function Decide(path: string, isAuthenticated: bool): (r: Response)
    ensures r == Redirect("/feed") <==> path == "/" && isAuthenticated
    ensures r == Redirect("/") <==> !IsPublicPath(path) && !isAuthenticated
    ensures r == Next <==> (path != "/" || !isAuthenticated) && (IsPublicPath(path) || isAuthenticated)
  {
    if path == "/" && isAuthenticated then Redirect("/feed")
    else if !IsPublicPath(path) && !isAuthenticated then Redirect("/")
    else Next
  }

  /** A redirect target is let through under the same cookie: the gate never redirects twice. */
  lemma NoRedirectLoop(path: string, isAuthenticated: bool)
    ensures Decide(path, isAuthenticated).Redirect? ==> Decide(Decide(path, isAuthenticated).to, isAuthenticated) == Next
  {
    assert IsPublicPath("/");
    assert "/feed" != "/";
  }

  /** A visitor reaches exactly the public paths; every other path sends the visitor home. */
  lemma VisitorReachesOnlyPublic(path: string)
    ensures Decide(path, false) == Next <==> IsPublicPath(path)
    ensures !IsPublicPath(path) ==> Decide(path, false) == Redirect("/")
  {
  }

  /** A signed-in user is let through everywhere except the landing page. */
  lemma UserRedirectedOnlyFromHome(path: string)
    ensures Decide(path, true) == Next <==> path != "/"
  {
  }

  /** The prefixes are matched as plain prefixes: `/communitiesX` and `/discover/abc` are public, `/feed` and `/profile` are not. */
  lemma PrefixExamples()
    ensures IsPublicPath("/communitiesX") && IsPublicPath("/discover/abc") && IsPublicPath("/api/users")
    ensures !IsPublicPath("/feed") && !IsPublicPath("/profile") && !IsPublicPath("/settings")
  {
    assert "/communitiesX"[..|"/communities"|] == "/communities";
    assert "/discover/abc"[..|"/discover"|] == "/discover";
    assert "/api/users"[..|"/api"|] == "/api";
    assert "/feed"[1] == 'f';
    assert "/profile"[1] == 'p' && "/profile"[2] == 'r';
    assert "/settings"[1] == 's';
  }
}
