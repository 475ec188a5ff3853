/**
 * Route gating of src/proxy.ts: from the request path and the `auth-token`
 * cookie, decide whether to redirect to the login page, redirect home or let
 * the request through.
 */
module Proxy {
  import opened Optional

  /** Paths that require authentication. */
  const ProtectedRoutes: seq<string> := ["/", "/repository"]

  /** Paths that are only for guests. */
  const AuthRoutes: seq<string> := ["/login", "/signup"]

  /** The path is the route itself or lies below it. */
  predicate UnderRoute(path: string, route: string)
  {
    path == route || route + "/" <= path
  }

  /** The path is under some route of the list. */
  predicate SomeUnder(path: string, routes: seq<string>)
  {
    |routes| > 0 && (UnderRoute(path, routes[0]) || SomeUnder(path, routes[1..]))
  }

  /** Some route of the list is a plain prefix of the path. */
  predicate SomePrefix(path: string, routes: seq<string>)
  {
    |routes| > 0 && (routes[0] <= path || SomePrefix(path, routes[1..]))
  }

  predicate IsProtectedRoute(path: string)
  {
    SomeUnder(path, ProtectedRoutes)
  }

  predicate IsAuthRoute(path: string)
  {
    SomePrefix(path, AuthRoutes)
  }

  /** A missing cookie and an empty cookie value both count as signed out. */
  predicate HasToken(cookie: Option<string>)
  {
    cookie.Some? && cookie.value != ""
  }

  datatype Decision =
    | RedirectToLogin(callbackUrl: string)  // to "/login?callbackUrl=…"
    | RedirectHome                          // to "/"
    | PassThrough                           // NextResponse.next()

  /**
   * The middleware. `encode` stands for `encodeURIComponent`, which the model
   * does not interpret.
   */
  function Decide(path: string, cookie: Option<string>, encode: string -> string): Decision
  {
    if IsProtectedRoute(path) && !HasToken(cookie) then RedirectToLogin(encode(path))
    else if IsAuthRoute(path) && HasToken(cookie) then RedirectHome
    else PassThrough
  }

  /** A path is protected iff it is "/" or "/repository", or lies under "//" or "/repository/". */
  lemma ProtectedRouteIff(path: string)
    ensures IsProtectedRoute(path) <==>
      path == "/" || path == "/repository" || "//" <= path || "/repository/" <= path
  {
    var rest := ProtectedRoutes[1..];
    assert rest == ["/repository"] && rest[1..] == [];
    assert !SomeUnder(path, rest[1..]);
    assert SomeUnder(path, rest) == UnderRoute(path, "/repository");
    assert "/repository" + "/" == "/repository/";
    assert "/" + "/" == "//";
  }

  /** A path is an auth route iff it starts with "/login" or "/signup" (plain prefix). */
  lemma AuthRouteIff(path: string)
    ensures IsAuthRoute(path) <==> "/login" <= path || "/signup" <= path
  {
    var rest := AuthRoutes[1..];
    assert rest == ["/signup"] && rest[1..] == [];
    assert !SomePrefix(path, rest[1..]);
    assert SomePrefix(path, rest) == ("/signup" <= path);
  }

  /** Examples: a repository page is protected, look-alikes are not; "/login/help" is an auth route. */
  lemma RouteExamples()
    ensures IsProtectedRoute("/repository/7")
    ensures !IsProtectedRoute("/repositoryX") && !IsProtectedRoute("/login")
    ensures IsAuthRoute("/login/help") && IsAuthRoute("/signupx")
  {
    ProtectedRouteIff("/repository/7");
    ProtectedRouteIff("/repositoryX");
    assert !("/repository/" <= "/repositoryX") by { assert "/repository/"[11] != "/repositoryX"[11]; }
    RoutesDisjoint("/login");
    AuthRouteIff("/login/help");
    AuthRouteIff("/signupx");
  }

  /** No path is both protected and an auth route: the second character tells them apart. */
  lemma RoutesDisjoint(path: string)
    ensures !(IsProtectedRoute(path) && IsAuthRoute(path))
  {
    ProtectedRouteIff(path);
    AuthRouteIff(path);
    if IsAuthRoute(path) {
      SecondChar("/login", path);
      SecondChar("/signup", path);
      assert path[1] == 'l' || path[1] == 's';
      SecondChar("//", path);
      SecondChar("/repository/", path);
      assert path != "/repository" by { assert "/repository"[1] == 'r'; }
    }
  }

  /** A path that starts with a prefix of two or more characters has the prefix's second character. */
  lemma SecondChar(prefix: string, path: string)
    requires |prefix| >= 2
    ensures prefix <= path ==> |path| >= 2 && path[1] == prefix[1]
  {
    if prefix <= path {
      assert path[..|prefix|] == prefix;
    }
  }

  /** The three outcomes, each stated by its condition. */
  lemma DecideCases(path: string, cookie: Option<string>, encode: string -> string)
    ensures Decide(path, cookie, encode) == RedirectToLogin(encode(path))
      <==> IsProtectedRoute(path) && !HasToken(cookie)
    ensures Decide(path, cookie, encode) == RedirectHome
      <==> IsAuthRoute(path) && HasToken(cookie)
    ensures Decide(path, cookie, encode) == PassThrough
      <==> !(IsProtectedRoute(path) && !HasToken(cookie)) && !(IsAuthRoute(path) && HasToken(cookie))
  {
    RoutesDisjoint(path);
  }

  /**
   * No redirect loop: the page a redirect sends the browser to, asked again
   * with the same cookie, lets the request through.
   */
  lemma NoRedirectLoop(path: string, cookie: Option<string>, encode: string -> string)
    ensures Decide(path, cookie, encode).RedirectToLogin? ==> Decide("/login", cookie, encode) == PassThrough
    ensures Decide(path, cookie, encode).RedirectHome? ==> Decide("/", cookie, encode) == PassThrough
  {
    AuthRouteIff("/login");
    RoutesDisjoint("/login");
    AuthRouteIff("/");
    RoutesDisjoint("/");
  }
}
