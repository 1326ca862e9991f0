/** The request middleware: which paths are guarded, where a request is redirected according to
    the presence of a session, and the matcher that decides which paths reach the middleware. */
module Middleware {
  import Strings

  const ProtectedRoutes: seq<string> := ["/planning", "/clients", "/chantiers", "/collaborateurs"]
  const AuthRoutes: seq<string> := ["/login", "/signup"]

  /** `routes.some(route => path.startsWith(route))`. */
  function StartsWithAny(path: string, routes: seq<string>): (b: bool)
    ensures b <==> exists k :: 0 <= k < |routes| && Strings.StartsWith(path, routes[k])
    decreases |routes|
  {
    if routes == [] then false
    else Strings.StartsWith(path, routes[0]) || StartsWithAny(path, routes[1..])
  }

  /** `protectedRoutes.some(route => path.startsWith(route))`. */
  predicate IsProtected(path: string)
    ensures IsProtected(path) <==> exists k :: 0 <= k < |ProtectedRoutes| && Strings.StartsWith(path, ProtectedRoutes[k])
  {
    StartsWithAny(path, ProtectedRoutes)
  }

  /** `authRoutes.some(route => path.startsWith(route))`. */
  predicate IsAuthRoute(path: string)
    ensures IsAuthRoute(path) <==> exists k :: 0 <= k < |AuthRoutes| && Strings.StartsWith(path, AuthRoutes[k])
  {
    StartsWithAny(path, AuthRoutes)
  }

  datatype Response = PassThrough | Redirect(path: string)

  /** The body of `middleware`: without a session a guarded path goes to the login page; with a
      session a login or sign-up path goes to the planning. */
  function Decide(path: string, hasSession: bool): (r: Response)
    ensures r == Redirect("/login") <==> IsProtected(path) && !hasSession
    ensures r == Redirect("/planning") <==> IsAuthRoute(path) && hasSession
    ensures r.PassThrough? || r == Redirect("/login") || r == Redirect("/planning")
  {
    if IsProtected(path) && !hasSession then Redirect("/login")
    else if IsAuthRoute(path) && hasSession then Redirect("/planning")
    else PassThrough
  }

  /** `config.matcher`: `/base/:path*` matches the base itself and anything below it; `/login`
      and `/signup` match only themselves. */
  predicate UnderBase(path: string, base: string) {
    path == base || Strings.StartsWith(path, base + "/")
  }

  predicate Matched(path: string) {
    || UnderBase(path, "/planning")
    || UnderBase(path, "/clients")
    || UnderBase(path, "/chantiers")
    || UnderBase(path, "/collaborateurs")
    || path == "/login"
    || path == "/signup"
  }

  /** What a request receives: paths outside the matcher never reach the middleware. */
  function Middleware(path: string, hasSession: bool): (r: Response)
    ensures !Matched(path) ==> r.PassThrough?
    ensures Matched(path) ==> r == Decide(path, hasSession)
  {
    if Matched(path) then Decide(path, hasSession) else PassThrough
  }

  // ---------------------------------------------------------------- properties

  /** A path starting with a route has the route's second character. */
  lemma SecondChar(path: string, route: string)
    requires Strings.StartsWith(path, route) && |route| >= 2
    ensures path[1] == route[1]
  {
    assert path[..|route|][1] == route[1];
  }

  /** No path is both guarded and an authentication page, so the two redirects never compete. */
  lemma GuardedAndAuthDisjoint(path: string)
    ensures !(IsProtected(path) && IsAuthRoute(path))
  {
    if IsProtected(path) {
      var k :| 0 <= k < |ProtectedRoutes| && Strings.StartsWith(path, ProtectedRoutes[k]);
      SecondChar(path, ProtectedRoutes[k]);
      assert path[1] == 'p' || path[1] == 'c';
      if IsAuthRoute(path) {
        var j :| 0 <= j < |AuthRoutes| && Strings.StartsWith(path, AuthRoutes[j]);
        SecondChar(path, AuthRoutes[j]);
      }
    }
  }

  /** A path at or below a base starts with the base. */
  lemma UnderBaseStartsWith(path: string, base: string)
    requires UnderBase(path, base)
    ensures Strings.StartsWith(path, base)
  {
    if path != base {
      assert path[..|base|] == path[..|base + "/"|][..|base|];
    }
  }

  /** Every matched path is guarded or an authentication page. */
  lemma MatchedPathsAreRoutes(path: string)
    requires Matched(path)
    ensures IsProtected(path) || IsAuthRoute(path)
  {
    if UnderBase(path, "/planning") {
      UnderBaseStartsWith(path, ProtectedRoutes[0]);
    } else if UnderBase(path, "/clients") {
      UnderBaseStartsWith(path, ProtectedRoutes[1]);
    } else if UnderBase(path, "/chantiers") {
      UnderBaseStartsWith(path, ProtectedRoutes[2]);
    } else if UnderBase(path, "/collaborateurs") {
      UnderBaseStartsWith(path, ProtectedRoutes[3]);
    } else if path == "/login" {
      assert Strings.StartsWith(path, AuthRoutes[0]);
    } else {
      assert Strings.StartsWith(path, AuthRoutes[1]);
    }
  }

  /** A redirect lands on a page the middleware lets through with the same session state: no
      redirect loop. */
  lemma RedirectSettles(path: string, hasSession: bool)
    requires Middleware(path, hasSession).Redirect?
    ensures Middleware(Middleware(path, hasSession).path, hasSession).PassThrough?
  {
    if hasSession {
      assert Strings.StartsWith("/planning", ProtectedRoutes[0]);
      GuardedAndAuthDisjoint("/planning");
    } else {
      assert Strings.StartsWith("/login", AuthRoutes[0]);
      GuardedAndAuthDisjoint("/login");
    }
  }

  /** Every page below a guarded base redirects to the login page without a session. */
  lemma GuardedSubpageNeedsSession(base: string, rest: string)
    requires base in ProtectedRoutes
    ensures Middleware(base + "/" + rest, false) == Redirect("/login")
  {
    var path := base + "/" + rest;
    assert path[..|base + "/"|] == base + "/";
    assert UnderBase(path, base);
    assert path[..|base|] == base;
    var k :| 0 <= k < |ProtectedRoutes| && ProtectedRoutes[k] == base;
    assert Strings.StartsWith(path, ProtectedRoutes[k]);
  }

  /** A path differing from a route at some position of the route does not start with it. */
  lemma DiffersAt(path: string, route: string, i: nat)
    requires i < |route| && i < |path| && path[i] != route[i]
    ensures !Strings.StartsWith(path, route)
  {
  }

  /** The prefix test alone would guard "/planningfoo"; the matcher keeps it out. */
  lemma PrefixTestWiderThanMatcher()
    ensures IsProtected("/planningfoo")
    ensures Decide("/planningfoo", false) == Redirect("/login")
    ensures Middleware("/planningfoo", false) == PassThrough
  {
    var path := "/planningfoo";
    assert Strings.StartsWith(path, ProtectedRoutes[0]);
    DiffersAt(path, "/planning/", 9);
    DiffersAt(path, "/clients/", 1);
    DiffersAt(path, "/chantiers/", 1);
    DiffersAt(path, "/collaborateurs/", 1);
  }

  /** A signed-in visitor (the recovery flow signs the user in) reaches the reset page: the
      prefix test would send them to the planning, but "/login" matches only itself. */
  lemma ResetPageReachableWithSession()
    ensures Decide("/login/reset-password", true) == Redirect("/planning")
    ensures Middleware("/login/reset-password", true) == PassThrough
  {
    var path := "/login/reset-password";
    assert Strings.StartsWith(path, AuthRoutes[0]);
    GuardedAndAuthDisjoint(path);
    DiffersAt(path, "/planning/", 1);
    DiffersAt(path, "/clients/", 1);
    DiffersAt(path, "/chantiers/", 1);
    DiffersAt(path, "/collaborateurs/", 1);
  }
}
