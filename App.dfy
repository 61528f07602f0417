/** The route table and the two guards in front of the dashboard and the admin panel. */
module App {
  import opened Common

  /** What the authentication store exposes to the guards: whether the session is still being checked, and
      the signed-in user, if any. */
  datatype AuthState = AuthState(loading: bool, user: Option<User>)

  datatype Page = LoginPage | RegisterPage | DashboardPage | AdminPage

  /** What a route renders: the loading spinner, a page, a redirect, or nothing when no route matches. */
  datatype Outcome = Spinner | Show(page: Page) | Redirect(to: string) | NoMatch

  const LoginPath: string := "/login"
  const RegisterPath: string := "/register"
  const DashboardPath: string := "/dashboard"
  const AdminPath: string := "/admin"
  const RootPath: string := "/"

  /** `ProtectedRoute`: the spinner while loading, the page for any signed-in user, otherwise the login screen. */
  function ProtectedRoute(auth: AuthState, page: Page): (o: Outcome)
    ensures auth.loading ==> o == Spinner
    ensures !auth.loading ==> (o == Show(page) <==> auth.user.Some?)
    ensures !auth.loading && auth.user.None? ==> o == Redirect(LoginPath)
  {
    if auth.loading then Spinner
    else if auth.user.Some? then Show(page)
    else Redirect(LoginPath)
  }

  /** `AdminRoute`: the spinner while loading, the page for a signed-in administrator, otherwise the dashboard. */
  function AdminRoute(auth: AuthState, page: Page): (o: Outcome)
    ensures auth.loading ==> o == Spinner
    ensures !auth.loading ==> (o == Show(page) <==> auth.user.Some? && auth.user.value.isAdmin)
    ensures !auth.loading && !(auth.user.Some? && auth.user.value.isAdmin) ==> o == Redirect(DashboardPath)
  {
    if auth.loading then Spinner
    else if auth.user.Some? && auth.user.value.isAdmin then Show(page)
    else Redirect(DashboardPath)
  }

  /** `p` without its trailing slashes. */
  function StripTrailingSlashes(p: string): (r: string)
    ensures IsPrefix(r, p)
    ensures r == [] || r[|r| - 1] != '/'
    ensures forall i :: |r| <= i < |p| ==> p[i] == '/'
    decreases |p|
  {
    if p != [] && p[|p| - 1] == '/' then StripTrailingSlashes(p[..|p| - 1]) else p
  }

  /** Lower-casing keeps every slash and makes none, so the trailing slashes removed from the lower-cased
      location are slashes of the location itself, and nothing is left exactly when it is all slashes. */
  lemma StripLowerSlashes(path: string)
    ensures StripTrailingSlashes(Lower(path)) == [] <==> forall i :: 0 <= i < |path| ==> path[i] == '/'
    ensures forall i :: |StripTrailingSlashes(Lower(path))| <= i < |path| ==> path[i] == '/'
  {
    var low := Lower(path);
    var s := StripTrailingSlashes(low);
    forall i | 0 <= i < |path|
      ensures low[i] == '/' <==> path[i] == '/'
    {
      assert low[i] == LowerChar(path[i]);
    }
    if s != [] {
      assert low[|s| - 1] == s[|s| - 1];
    }
  }

  /** The form in which the router compares a location with a route path: case is ignored and trailing
      slashes do not matter. A location made only of slashes (or empty) is the root; any other compares as
      its lower-cased self with the trailing slashes removed. */
  function Canonical(path: string): (c: string)
    ensures c != []
    ensures c == RootPath || c[|c| - 1] != '/'
    ensures forall i :: 0 <= i < |c| ==> !('A' <= c[i] <= 'Z')
    ensures c == RootPath <==> forall i :: 0 <= i < |path| ==> path[i] == '/'
    ensures c != RootPath ==> IsPrefix(c, Lower(path)) && forall i :: |c| <= i < |path| ==> path[i] == '/'
  {
    LowerIdempotent(path);
    StripLowerSlashes(path);
    var s := StripTrailingSlashes(Lower(path));
    if s == [] then RootPath else s
  }

  /** The five route paths are already in canonical form. */
  lemma TablePathsCanonical()
    ensures Canonical(LoginPath) == LoginPath && Canonical(RegisterPath) == RegisterPath
    ensures Canonical(DashboardPath) == DashboardPath && Canonical(AdminPath) == AdminPath
    ensures Canonical(RootPath) == RootPath
  {
    assert Lower(LoginPath) == LoginPath;
    assert Lower(RegisterPath) == RegisterPath;
    assert Lower(DashboardPath) == DashboardPath;
    assert Lower(AdminPath) == AdminPath;
    assert Lower(RootPath) == RootPath;
    assert StripTrailingSlashes(RootPath) == [] by {
      assert RootPath[..0] == [];
    }
  }

  /** The `<Routes>` table: what each location renders. */
  function Route(path: string, auth: AuthState): (o: Outcome)
    ensures Canonical(path) == LoginPath ==> o == Show(LoginPage)
    ensures Canonical(path) == RegisterPath ==> o == Show(RegisterPage)
    ensures Canonical(path) == DashboardPath ==> o == ProtectedRoute(auth, DashboardPage)
    ensures Canonical(path) == AdminPath ==> o == AdminRoute(auth, AdminPage)
    ensures Canonical(path) == RootPath ==> o == Redirect(DashboardPath)
    ensures Canonical(path) !in {LoginPath, RegisterPath, DashboardPath, AdminPath, RootPath} ==> o == NoMatch
  {
    var c := Canonical(path);
    if c == LoginPath then Show(LoginPage)
    else if c == RegisterPath then Show(RegisterPage)
    else if c == DashboardPath then ProtectedRoute(auth, DashboardPage)
    else if c == AdminPath then AdminRoute(auth, AdminPage)
    else if c == RootPath then Redirect(DashboardPath)
    else NoMatch
  }

  /** A location renders the same whatever its letter case, and with or without a trailing slash. */
  lemma {:induction false} RouteIgnoresCaseAndTrailingSlash(path: string, auth: AuthState)
    ensures Route(Lower(path), auth) == Route(path, auth)
    ensures Route(path + "/", auth) == Route(path, auth)
  {
    LowerIdempotent(path);
    var low := Lower(path);
    assert Lower(path + "/") == low + "/";
    assert (low + "/")[..|low + "/"| - 1] == low;
  }

  /** Anyone the admin guard lets in, the dashboard guard lets in too; the admin guard never sends anyone to
      the login screen. */
  lemma AdminGuardStricter(auth: AuthState, page: Page)
    ensures AdminRoute(auth, page) == Show(page) ==> ProtectedRoute(auth, page) == Show(page)
    ensures AdminRoute(auth, page) != Redirect(LoginPath)
    ensures auth.loading <==> AdminRoute(auth, page) == Spinner && ProtectedRoute(auth, page) == Spinner
  {
  }

  /** Following redirects for at most `hops` steps from `path`. */
  function Settle(path: string, auth: AuthState, hops: nat): (o: Outcome)
    ensures hops == 0 ==> o == Route(path, auth)
    ensures o.Redirect? ==> o.to in {LoginPath, DashboardPath}
    decreases hops
  {
    var o := Route(path, auth);
    if o.Redirect? && hops > 0 then Settle(o.to, auth, hops - 1) else o
  }

  /** Redirects never loop: from any path, two hops reach a page, the spinner or no match. A signed-out
      visitor to the admin panel or the root ends at the login screen, a signed-in non-administrator at the
      dashboard. */
  lemma {:induction false} RedirectsSettle(path: string, auth: AuthState)
    ensures !Settle(path, auth, 2).Redirect?
    ensures !auth.loading && auth.user.None? && Canonical(path) in {AdminPath, RootPath, DashboardPath} ==>
      Settle(path, auth, 2) == Show(LoginPage)
    ensures !auth.loading && auth.user.Some? && !auth.user.value.isAdmin && Canonical(path) in {AdminPath, RootPath} ==>
      Settle(path, auth, 2) == Show(DashboardPage)
  {
    TablePathsCanonical();
    var o := Route(path, auth);
    if o.Redirect? {
      assert o.to in {LoginPath, DashboardPath};
      var o2 := Route(o.to, auth);
      if o2.Redirect? {
        assert o2.to == LoginPath;
        assert Settle(o2.to, auth, 0) == Show(LoginPage);
      }
    }
  }
}
