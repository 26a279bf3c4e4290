/**
 * components/navbar.tsx: the three navigation routes with their
 * active-route tests, the filter that hides non-public routes from
 * visitors, and the logo's link target.
 */
module Navbar {
  import Text
  import Middleware

  /** One navigation entry: link, label text, highlight and visibility; the icon is left out. */
  datatype Route = Route(href: string, text: string, active: bool, isPublic: bool)

  /** Feed is highlighted only on `/feed` itself. */
  predicate FeedActive(pathname: string) {
    pathname == "/feed"
  }

  /** Communities is highlighted on `/communities` and below it, not on other paths sharing the prefix. */
  predicate CommunitiesActive(pathname: string) {
    pathname == "/communities" || Text.StartsWith(pathname, "/communities/")
  }

  /** Discover is highlighted only on `/discover` itself. */
  predicate DiscoverActive(pathname: string) {
    pathname == "/discover"
  }

  /** `routes` for the current pathname. */
  function Routes(pathname: string): (rs: seq<Route>)
    ensures |rs| == 3
    ensures rs[0] == Route("/feed", "Feed", FeedActive(pathname), false)
    ensures rs[1] == Route("/communities", "Communities", CommunitiesActive(pathname), true)
    ensures rs[2] == Route("/discover", "Discover", DiscoverActive(pathname), true)
  {
    [ Route("/feed", "Feed", FeedActive(pathname), false),
      Route("/communities", "Communities", CommunitiesActive(pathname), true),
      Route("/discover", "Discover", DiscoverActive(pathname), true) ]
  }

  /** `routes.filter((route) => (user ? true : route.public))`. */
  function Filter(rs: seq<Route>, loggedIn: bool): (r: seq<Route>)
    ensures |r| <= |rs|
    ensures forall x :: x in r <==> x in rs && (loggedIn || x.isPublic)
    decreases |rs|
  {
    if rs == [] then []
    else if loggedIn || rs[0].isPublic then [rs[0]] + Filter(rs[1..], loggedIn)
    else Filter(rs[1..], loggedIn)
  }

  /** With a user the filter keeps everything. */
  lemma {:induction false} FilterKeepsAll(rs: seq<Route>)
    ensures Filter(rs, true) == rs
    decreases |rs|
  {
    if rs != [] {
      FilterKeepsAll(rs[1..]);
      assert rs == [rs[0]] + rs[1..];
    }
  }

  /** `filteredRoutes`. */
  function FilteredRoutes(pathname: string, loggedIn: bool): (r: seq<Route>)
    ensures |r| <= 3
    ensures forall i :: 0 <= i < |r| ==> loggedIn || r[i].isPublic
  {
    Filter(Routes(pathname), loggedIn)
  }

  /** A user sees all three routes in order; a visitor sees only Communities and Discover. */
  lemma FilteredRoutesShape(pathname: string, loggedIn: bool)
    ensures loggedIn ==> FilteredRoutes(pathname, loggedIn) == Routes(pathname)
    ensures !loggedIn ==> FilteredRoutes(pathname, loggedIn) == Routes(pathname)[1..]
  {
    var rs := Routes(pathname);
    if loggedIn {
      FilterKeepsAll(rs);
    } else {
      assert rs[1..][1..][1..] == [];
      assert Filter(rs[1..][1..], false) == [rs[2]];
      assert Filter(rs[1..], false) == [rs[1], rs[2]];
    }
  }

  /** At most one route is highlighted for any pathname. */
  lemma AtMostOneActive(pathname: string)
    ensures !(FeedActive(pathname) && CommunitiesActive(pathname))
    ensures !(FeedActive(pathname) && DiscoverActive(pathname))
    ensures !(CommunitiesActive(pathname) && DiscoverActive(pathname))
  {
    if Text.StartsWith(pathname, "/communities/") {
      assert pathname[1] == 'c';
    }
  }

  /** `/communitiesX` has the public prefix but does not highlight Communities; `/communities/7` does. */
  lemma CommunitiesActiveExamples()
    ensures !CommunitiesActive("/communitiesX") && Middleware.IsPublicPath("/communitiesX")
    ensures CommunitiesActive("/communities/7")
  {
    assert "/communitiesX"[12] == 'X';
    assert "/communitiesX"[..|"/communities"|] == "/communities";
    assert "/communities/7"[..|"/communities/"|] == "/communities/";
  }

  /** The logo's target in the desktop bar and the mobile menu. */
  function LogoHref(loggedIn: bool): (r: string)
    ensures loggedIn ==> r == "/feed"
    ensures !loggedIn ==> r == "/"
  {
    if loggedIn then "/feed" else "/"
  }

  /**
   * Wherever the navbar links, the middleware lets the same visitor or user
   * through without a redirect, provided the `auth` cookie is present
   * exactly when the navbar has a user.
   */
  lemma NavbarLinksPassTheGate(pathname: string, loggedIn: bool, hasAuthCookie: bool)
    requires hasAuthCookie == loggedIn
    ensures Middleware.Decide(LogoHref(loggedIn), hasAuthCookie) == Middleware.Next
    ensures forall r :: r in FilteredRoutes(pathname, loggedIn) ==> Middleware.Decide(r.href, hasAuthCookie) == Middleware.Next
  {
    FilteredRoutesShape(pathname, loggedIn);
    assert Middleware.IsPublicPath("/");
    assert "/communities"[..|"/communities"|] == "/communities";
    assert "/discover"[..|"/discover"|] == "/discover";
    assert Middleware.IsPublicPath("/communities") && Middleware.IsPublicPath("/discover");
    var rs := Routes(pathname);
    assert rs[1..] == [rs[1], rs[2]];
  }

  /**
   * The navbar's user comes from the auth context and the gate's from the
   * `auth` cookie. A signed-in user without the cookie is sent back to `/`
   * from the logo and from the Feed link.
   */
  lemma SignedInWithoutCookieIsTurnedBack(pathname: string)
    ensures Middleware.Decide(LogoHref(true), false) == Middleware.Redirect("/")
    ensures FilteredRoutes(pathname, true)[0].href == "/feed"
    ensures Middleware.Decide(FilteredRoutes(pathname, true)[0].href, false) == Middleware.Redirect("/")
  {
    FilteredRoutesShape(pathname, true);
    Middleware.PrefixExamples();
  }
}
