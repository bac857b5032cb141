/** The client-side route guard: unauthenticated requests for protected pages go to the login page. */
module RouteGuard {

  const ProtectedRoutes: seq<string> := ["/dashboard", "/profile", "/settings"]

  const LoginPath: string := "/login"

  /** What the guard answers: let the request through, or redirect it. */
  datatype Decision = Next | Redirect(location: string)

  /** `String.prototype.startsWith`. */
  predicate StartsWith(s: string, prefix: string): (b: bool)
    ensures b <==> |prefix| <= |s| && forall i :: 0 <= i < |prefix| ==> s[i] == prefix[i]
  {
    |prefix| <= |s| && s[..|prefix|] == prefix
  }

  /** `routes.some(route => path.startsWith(route))`. */
  function AnyPrefix(routes: seq<string>, path: string): (b: bool)
    ensures b <==> exists i :: 0 <= i < |routes| && StartsWith(path, routes[i])
  {
    if routes == [] then false
    else StartsWith(path, routes[0]) || AnyPrefix(routes[1..], path)
  }

  /** A path the guard protects. */
  predicate IsProtected(path: string): (b: bool)
    ensures b <==> exists i :: 0 <= i < |ProtectedRoutes| && StartsWith(path, ProtectedRoutes[i])
  {
    AnyPrefix(ProtectedRoutes, path)
  }

  /** The protected paths are exactly those under one of the three prefixes. */
  lemma IsProtectedIff(path: string)
    ensures IsProtected(path) <==>
      StartsWith(path, "/dashboard") || StartsWith(path, "/profile") || StartsWith(path, "/settings")
  {
    assert ProtectedRoutes[0] == "/dashboard" && ProtectedRoutes[1] == "/profile" && ProtectedRoutes[2] == "/settings";
  }

  /** `middleware`: decided by the presence of the `accessToken` cookie and the pathname alone. */
  function Middleware(hasAccessToken: bool, pathname: string): (d: Decision)
    ensures d == Redirect(LoginPath) <==>
      !hasAccessToken &&
      (StartsWith(pathname, "/dashboard") || StartsWith(pathname, "/profile") || StartsWith(pathname, "/settings"))
    ensures d == Next || d == Redirect(LoginPath)
  {
    IsProtectedIff(pathname);
    if !hasAccessToken && IsProtected(pathname) then Redirect(LoginPath) else Next
  }

  /** With the cookie present every request passes, whatever its path. */
  lemma LoggedInAlwaysPasses(pathname: string)
    ensures Middleware(true, pathname) == Next
  {
  }

  /** A path under none of the protected prefixes passes with or without the cookie. */
  lemma UnprotectedAlwaysPasses(hasAccessToken: bool, pathname: string)
    requires !StartsWith(pathname, "/dashboard") && !StartsWith(pathname, "/profile") && !StartsWith(pathname, "/settings")
    ensures Middleware(hasAccessToken, pathname) == Next
  {
  }

  /** Everything below a protected prefix is protected, including the prefix itself. */
  lemma ExtensionsAreProtected(route: string, rest: string)
    requires route in ProtectedRoutes
    ensures Middleware(false, route + rest) == Redirect(LoginPath)
  {
    assert (route + rest)[..|route|] == route;
    var i :| 0 <= i < |ProtectedRoutes| && ProtectedRoutes[i] == route;
    assert StartsWith(route + rest, ProtectedRoutes[i]);
  }

  /** Prefix matching is textual: `/dashboardx` and `/profile-old` are protected too, `/login` and `/` are not. */
  lemma PlainPrefixExamples()
    ensures Middleware(false, "/dashboardx") == Redirect(LoginPath)
    ensures Middleware(false, "/profile-old") == Redirect(LoginPath)
    ensures Middleware(false, "/login") == Next
    ensures Middleware(false, "/") == Next
  {
    ExtensionsAreProtected("/dashboard", "x");
    assert "/dashboard" + "x" == "/dashboardx";
    ExtensionsAreProtected("/profile", "-old");
    assert "/profile" + "-old" == "/profile-old";
  }
}
