/**
 * The client's routing: the two guards and the route table, as decisions over
 * the auth provider's `loading` flag and `user`.
 */
module Routes {
  import opened Wrappers
  import opened Js
  import Auth

  datatype Page = Landing | LoginPage | RegisterPage | DashboardPage | CheckoutPage

  /** What a route element renders. */
  datatype Outcome = LoadingScreen | Show(page: Page) | Redirect(path: string)

  datatype Guard = Unguarded | Protected | Public

  const LoginPath := "/login"
  const DashboardPath := "/dashboard"

  /** `ProtectedRoute`: the loading screen while loading, then the page for a user and
      a redirect to the login page for everyone else. */
  function ProtectedRoute(loading: bool, user: Option<Auth.User>, page: Page): (o: Outcome)
    ensures loading <==> o == LoadingScreen
    ensures o.Show? <==> !loading && user.Some?
    ensures o.Show? ==> o.page == page
    ensures !loading && user.None? ==> o == Redirect(LoginPath)
  {
    if loading then LoadingScreen else if user.Some? then Show(page) else Redirect(LoginPath)
  }

  /** `PublicRoute`: the loading screen while loading, then a redirect to the dashboard
      for a user and the page for everyone else. */
  function PublicRoute(loading: bool, user: Option<Auth.User>, page: Page): (o: Outcome)
    ensures loading <==> o == LoadingScreen
    ensures o.Show? <==> !loading && user.None?
    ensures o.Show? ==> o.page == page
    ensures !loading && user.Some? ==> o == Redirect(DashboardPath)
  {
    if loading then LoadingScreen else if user.Some? then Redirect(DashboardPath) else Show(page)
  }

  /** How React Router v6 matches a route path that is not case-sensitive against
      the location's pathname: the pathname starts with the route path up to the case
      of ASCII letters and goes on with slashes only. */
  predicate PathMatches(route: string, path: string) {
    && |route| <= |path|
    && Lower(path[..|route|]) == route
    && forall i :: |route| <= i < |path| ==> path[i] == '/'
  }

  /** The second character of a matched pathname tells the five routes apart. */
  lemma SecondCharOfMatch(route: string, path: string)
    requires PathMatches(route, path)
    ensures |route| >= 2 ==> LowerChar(path[1]) == route[1]
    ensures |route| == 1 && |path| >= 2 ==> path[1] == '/'
  {
    if |route| >= 2 {
      assert Lower(path[..|route|])[1] == LowerChar(path[1]);
    }
  }

  /** A pathname matches at most one of the five routes. */
  lemma RoutesDisjoint(path: string)
    ensures PathMatches("/", path) ==>
      !PathMatches(LoginPath, path) && !PathMatches("/register", path) && !PathMatches(DashboardPath, path) && !PathMatches("/checkout", path)
    ensures PathMatches(LoginPath, path) || PathMatches("/register", path) ==>
      !PathMatches(DashboardPath, path) && !PathMatches("/checkout", path)
    ensures PathMatches(LoginPath, path) ==> !PathMatches("/register", path)
    ensures PathMatches(DashboardPath, path) ==> !PathMatches("/checkout", path)
  {
    var routes := ["/", LoginPath, "/register", DashboardPath, "/checkout"];
    forall k | 0 <= k < |routes| && PathMatches(routes[k], path)
      ensures |path| >= 2 ==> LowerChar(path[1]) == if k == 0 then '/' else routes[k][1]
    {
      SecondCharOfMatch(routes[k], path);
    }
    assert routes[0] == "/" && routes[1] == LoginPath && routes[2] == "/register";
    assert routes[3] == DashboardPath && routes[4] == "/checkout";
  }

  /** The route table: each path, its page and its guard; a pathname that matches
      none of the five routes renders nothing. */
  function RouteFor(path: string): (r: Option<(Page, Guard)>)
    ensures r.Some? <==>
      || PathMatches("/", path) || PathMatches(LoginPath, path) || PathMatches("/register", path)
      || PathMatches(DashboardPath, path) || PathMatches("/checkout", path)
    ensures r.Some? && r.value.1 == Protected <==> PathMatches(DashboardPath, path) || PathMatches("/checkout", path)
    ensures r.Some? && r.value.1 == Public <==> PathMatches(LoginPath, path) || PathMatches("/register", path)
    ensures r.Some? && r.value.1 == Unguarded <==> PathMatches("/", path)
    ensures PathMatches("/", path) ==> r == Some((Landing, Unguarded))
    ensures PathMatches(LoginPath, path) ==> r == Some((LoginPage, Public))
    ensures PathMatches("/register", path) ==> r == Some((RegisterPage, Public))
    ensures PathMatches(DashboardPath, path) ==> r == Some((DashboardPage, Protected))
    ensures PathMatches("/checkout", path) ==> r == Some((CheckoutPage, Protected))
  {
    RoutesDisjoint(path);
    if PathMatches("/", path) then Some((Landing, Unguarded))
    else if PathMatches(LoginPath, path) then Some((LoginPage, Public))
    else if PathMatches("/register", path) then Some((RegisterPage, Public))
    else if PathMatches(DashboardPath, path) then Some((DashboardPage, Protected))
    else if PathMatches("/checkout", path) then Some((CheckoutPage, Protected))
    else None
  }

  /** What navigating to `path` renders. */
  function Navigate(path: string, loading: bool, user: Option<Auth.User>): (o: Option<Outcome>)
    ensures o.Some? <==> RouteFor(path).Some?
    ensures o.Some? && o.value.Show? ==> o.value.page == RouteFor(path).value.0
    ensures o.Some? && o.value.Redirect? ==> o.value.path in {LoginPath, DashboardPath}
  {
    match RouteFor(path)
    case None => None
    case Some((page, guard)) =>
      Some(match guard
        case Unguarded => Show(page)
        case Protected => ProtectedRoute(loading, user, page)
        case Public => PublicRoute(loading, user, page))
  }

  /** Once loading is over, exactly one of the two guards shows its page. */
  lemma GuardsComplementary(user: Option<Auth.User>, p: Page, q: Page)
    ensures ProtectedRoute(false, user, p).Show? != PublicRoute(false, user, q).Show?
  {
  }

  /** The dashboard and the checkout are never shown without a user, whatever the
      case or trailing slashes of the pathname; the login and register pages never to
      one; the landing page always. */
  lemma NavigationGuarded(path: string, loading: bool, user: Option<Auth.User>)
    ensures (PathMatches(DashboardPath, path) || PathMatches("/checkout", path)) && Navigate(path, loading, user).value.Show? ==> user.Some?
    ensures (PathMatches(LoginPath, path) || PathMatches("/register", path)) && Navigate(path, loading, user).value.Show? ==> user.None?
    ensures PathMatches("/", path) ==> Navigate(path, loading, user) == Some(Show(Landing))
    ensures Navigate(path, loading, user).Some? ==>
      (Navigate(path, loading, user).value == LoadingScreen <==> loading && !PathMatches("/", path))
  {
    var r := RouteFor(path);
    if r.Some? {
      var (page, guard) := r.value;
      assert guard == Unguarded <==> PathMatches("/", path);
    }
  }

  /** Letter case in the pathname does not change what is routed, and neither does
      one more trailing slash. */
  lemma RouteIgnoresCaseAndTrailingSlash(path: string, other: string)
    requires |path| == |other|
    requires forall i :: 0 <= i < |path| ==> SameIgnoringCase(path[i], other[i])
    ensures RouteFor(path) == RouteFor(other)
    ensures path != "" ==> RouteFor(path + "/") == RouteFor(path)
  {
    var routes := ["/", LoginPath, "/register", DashboardPath, "/checkout"];
    forall k | 0 <= k < |routes|
      ensures PathMatches(routes[k], path) <==> PathMatches(routes[k], other)
      ensures path != "" ==> (PathMatches(routes[k], path + "/") <==> PathMatches(routes[k], path))
    {
      MatchIgnoresCase(routes[k], path, other);
      if path != "" {
        MatchIgnoresTrailingSlash(routes[k], path);
      }
    }
    assert routes[0] == "/" && routes[1] == LoginPath && routes[2] == "/register";
    assert routes[3] == DashboardPath && routes[4] == "/checkout";
  }

  lemma MatchIgnoresCase(route: string, path: string, other: string)
    requires |path| == |other|
    requires forall i :: 0 <= i < |path| ==> SameIgnoringCase(path[i], other[i])
    requires forall i :: 0 <= i < |route| ==> route[i] == '/' || 'a' <= route[i] <= 'z'
    ensures PathMatches(route, path) <==> PathMatches(route, other)
  {
    if |route| <= |path| {
      LowerIgnoresCase(path[..|route|], other[..|route|]);
      forall i | |route| <= i < |path|
        ensures path[i] == '/' <==> other[i] == '/'
      {
        assert SameIgnoringCase(path[i], other[i]);
      }
    }
  }

  lemma MatchIgnoresTrailingSlash(route: string, path: string)
    requires path != "" && route != "" && route[0] == '/'
    requires |route| == 1 || route[|route| - 1] != '/'
    ensures PathMatches(route, path + "/") <==> PathMatches(route, path)
  {
    var p := path + "/";
    if |route| <= |path| {
      assert p[..|route|] == path[..|route|];
      assert forall i :: |route| <= i < |p| ==> p[i] == if i < |path| then path[i] else '/';
    } else if |route| == |p| {
      assert p[..|route|] == p;
      assert Lower(p)[|route| - 1] == '/';
    }
  }

  /** A signed-in user who opens the login page lands on the dashboard, and the
      dashboard itself then shows; a signed-out visitor of the dashboard is sent to login. */
  lemma RedirectsConverge(user: Auth.User)
    ensures Navigate(LoginPath, false, Some(user)) == Some(Redirect(DashboardPath))
    ensures Navigate(DashboardPath, false, Some(user)) == Some(Show(DashboardPage))
    ensures Navigate(DashboardPath, false, None) == Some(Redirect(LoginPath))
    ensures Navigate(LoginPath, false, None) == Some(Show(LoginPage))
  {
    ExactPathMatches(LoginPath);
    ExactPathMatches(DashboardPath);
    RoutesDisjoint(LoginPath);
    RoutesDisjoint(DashboardPath);
    assert RouteFor(LoginPath) == Some((LoginPage, Public));
    assert RouteFor(DashboardPath) == Some((DashboardPage, Protected));
  }

  /** A route path without capitals matches itself. */
  lemma ExactPathMatches(route: string)
    requires forall i :: 0 <= i < |route| ==> !('A' <= route[i] <= 'Z')
    ensures PathMatches(route, route)
  {
    assert route[..|route|] == route;
  }
}
