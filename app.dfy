/** The route table and its guards: the record pages and the profile page
    need a signed-in user, the login and registration pages need a
    signed-out one, and every other path leads to the dashboard. */
module App {
  import opened Common
  import opened Session

  datatype Page = LoginPage | RegisterPage | DashboardPage | AddRecordPage | ViewRecordsPage | EditProfilePage

  datatype Outcome = Render(page: Page) | Redirect(to: string)

  /** `localStorage.getItem("isAuthenticated") === "true"`. */
  predicate IsAuthenticated(store: Store)
  {
    GetItem(store, AuthKey) == Some("true")
  }

  /** Only the exact text "true" counts: "True", "1" or an absent flag do not. */
  lemma AuthenticatedIffTrue(store: Store)
    ensures IsAuthenticated(store) <==> AuthKey in store.items && store.items[AuthKey] == "true"
    ensures IsAuthenticated(SetItem(store, AuthKey, "True")) == false
    ensures IsAuthenticated(RemoveItem(store, AuthKey)) == false
  {
  }

  /** Length of `path` without its trailing slashes. */
  function TrailingSlashStart(path: string): (n: nat)
    ensures n <= |path|
    ensures forall i :: n <= i < |path| ==> path[i] == '/'
    ensures n == 0 || path[n - 1] != '/'
  {
    if path != [] && path[|path| - 1] == '/' then TrailingSlashStart(path[..|path| - 1]) else |path|
  }

  /** The path as the router compares it with a route's path: trailing
      slashes are ignored and ASCII letters match in either case. */
  function RoutePath(path: string): string
  {
    Lower(path[..TrailingSlashStart(path)])
  }

  /** The normal form is the path, lower-cased, up to its trailing slashes. */
  lemma RoutePathSpec(path: string)
    ensures var r := RoutePath(path);
            |r| <= |path|
            && (forall i :: 0 <= i < |r| ==> r[i] == LowerChar(path[i]))
            && (forall i :: |r| <= i < |path| ==> path[i] == '/')
            && (r == [] || r[|r| - 1] != '/')
  {
  }

  /** A path already in lower case and without a trailing slash is compared
      as it is. */
  lemma RoutePathOfCanonical(path: string)
    requires path == [] || path[|path| - 1] != '/'
    requires forall i :: 0 <= i < |path| ==> !('A' <= path[i] <= 'Z')
    ensures RoutePath(path) == path
  {
    assert path[..|path|] == path;
    RoutePathSpec(path);
  }

  /** Normalising twice is normalising once. */
  lemma RoutePathIdempotent(path: string)
    ensures RoutePath(RoutePath(path)) == RoutePath(path)
  {
    var r := RoutePath(path);
    RoutePathSpec(path);
    forall i | 0 <= i < |r| ensures !('A' <= r[i] <= 'Z') {
      assert r[i] == LowerChar(path[i]);
    }
    RoutePathOfCanonical(r);
  }

  /** The page behind a guarded path, if the path is one of the six. */
  function GuardedPage(path: string): Option<Page>
  {
    PageAt(RoutePath(path))
  }

  /** The six paths of the route table, compared exactly. */
  function PageAt(p: string): Option<Page>
  {
    if p == "/login" then Some(LoginPage)
    else if p == "/register" then Some(RegisterPage)
    else if p == "/dashboard" then Some(DashboardPage)
    else if p == "/add-record" then Some(AddRecordPage)
    else if p == "/view-records" then Some(ViewRecordsPage)
    else if p == "/edit-profile" then Some(EditProfilePage)
    else None
  }

  predicate IsPublic(p: Page)
  {
    p == LoginPage || p == RegisterPage
  }

  /** What the route table does with `path`: a protected page renders only
      when signed in, a public one only when signed out, anything else
      (including "/") redirects to the dashboard. */
  function Route(path: string, authenticated: bool): (r: Outcome)
    ensures r.Render? ==> GuardedPage(path) == Some(r.page)
    ensures r.Redirect? ==> r.to in {"/login", "/dashboard"}
  {
    match GuardedPage(path)
    case None => Redirect("/dashboard")
    case Some(p) =>
      if IsPublic(p) then (if !authenticated then Render(p) else Redirect("/dashboard"))
      else (if authenticated then Render(p) else Redirect("/login"))
  }

  /** The four protected paths render exactly when signed in, and send a
      signed-out visitor to the login page. */
  lemma ProtectedPaths(path: string, authenticated: bool)
    requires RoutePath(path) in {"/dashboard", "/add-record", "/view-records", "/edit-profile"}
    ensures Route(path, authenticated).Render? <==> authenticated
    ensures !authenticated ==> Route(path, authenticated) == Redirect("/login")
  {
  }

  /** The two public paths render exactly when signed out, and send a
      signed-in user to the dashboard. */
  lemma PublicPaths(path: string, authenticated: bool)
    requires RoutePath(path) in {"/login", "/register"}
    ensures Route(path, authenticated).Render? <==> !authenticated
    ensures authenticated ==> Route(path, authenticated) == Redirect("/dashboard")
  {
  }

  /** "/" and every path outside the table go to the dashboard. */
  lemma OtherPathsGoToDashboard(path: string, authenticated: bool)
    requires RoutePath(path) !in {"/login", "/register", "/dashboard", "/add-record", "/view-records", "/edit-profile"}
    ensures Route(path, authenticated) == Redirect("/dashboard")
  {
  }

  /** Signed out, "/Login" shows the login page: letters match in either
      case. */
  lemma LoginInAnyCase()
    ensures Route("/Login", false) == Render(LoginPage)
  {
    var login := RoutePath("/Login");
    TrailingSlashStartOfPlain("/Login");
    assert "/Login"[..6] == "/Login";
    forall i | 0 <= i < 6 ensures login[i] == "/login"[i] {
    }
  }

  /** Signed out, "/register/" shows the registration page: a trailing
      slash is ignored. */
  lemma RegisterWithSlash()
    ensures Route("/register/", false) == Render(RegisterPage)
  {
    assert "/register/" == "/register" + "/";
    RoutePathDropsSlash("/register");
    RoutePathOfCanonical("/register");
  }

  /** A path is routed exactly like its normal form. */
  lemma RouteByNormalForm(path: string, authenticated: bool)
    ensures Route(path, authenticated) == Route(RoutePath(path), authenticated)
  {
    RoutePathIdempotent(path);
  }

  /** A trailing slash does not change how a path is routed. */
  lemma RoutePathDropsSlash(path: string)
    ensures RoutePath(path + "/") == RoutePath(path)
  {
    assert (path + "/")[..|path|] == path;
  }

  /** "/" is no page of its own: it goes to the dashboard. */
  lemma RootGoesToDashboard(authenticated: bool)
    ensures Route("/", authenticated) == Redirect("/dashboard")
  {
    assert RoutePath("/") == "";
  }

  /** A path that does not end in '/' keeps its full length. */
  lemma TrailingSlashStartOfPlain(path: string)
    requires path != [] && path[|path| - 1] != '/'
    ensures TrailingSlashStart(path) == |path|
  {
  }

  /** Following redirects from `path`, at most `fuel` of them. */
  function Follow(path: string, authenticated: bool, fuel: nat): Outcome
    decreases fuel
  {
    match Route(path, authenticated)
    case Render(p) => Render(p)
    case Redirect(to) => if fuel == 0 then Redirect(to) else Follow(to, authenticated, fuel - 1)
  }

  /** The two redirect targets are pages of the table. */
  lemma RedirectTargets()
    ensures GuardedPage("/dashboard") == Some(DashboardPage)
    ensures GuardedPage("/login") == Some(LoginPage)
  {
    RoutePathOfCanonical("/dashboard");
    RoutePathOfCanonical("/login");
  }

  /** From either redirect target a page is on screen after at most one
      more redirect. */
  lemma TargetsSettle(to: string, authenticated: bool)
    requires to == "/login" || to == "/dashboard"
    ensures Follow(to, authenticated, 1) == Render(if authenticated then DashboardPage else LoginPage)
  {
    RedirectTargets();
    var other := if to == "/login" then "/dashboard" else "/login";
    assert Route(other, authenticated).Render? || Route(to, authenticated).Render?;
  }

  /** Whatever the path and the session, a page is on screen after at most
      two redirects: the dashboard or the login page when the path is not
      itself renderable. */
  lemma RendersWithinTwoRedirects(path: string, authenticated: bool)
    ensures Follow(path, authenticated, 2).Render?
    ensures Route(path, authenticated).Redirect? ==>
              Follow(path, authenticated, 2).page == (if authenticated then DashboardPage else LoginPage)
  {
    match Route(path, authenticated)
    case Render(_) =>
    case Redirect(to) =>
      assert Follow(path, authenticated, 2) == Follow(to, authenticated, 1);
      TargetsSettle(to, authenticated);
  }
}
