/** The router of the client (frontend/src/App.jsx:250-258) and the
    dashboard's session guard (frontend/src/Dashboard.jsx). The dashboard has
    no state of its own: what it shows is a function of the navigation state
    it was reached with. */
module Dashboard {
  import opened Wrappers
  import opened Js

  /** The `state` object that `navigate('/dashboard', { state })` carries.
      Each field is whatever the recognition response held, possibly
      `undefined`. */
  datatype NavState = NavState(name: Value, age: Value, height: Value, weight: Value, id: Value)

  /** A router location: a path and the navigation state, which is absent
      when the page is reached by `navigate(path)` or directly. */
  datatype Location = Location(path: string, state: Option<NavState>)

  /** What the `<Routes>` of `App` render. */
  datatype Page = HomePage | DashboardPage | NoPage

  /** The props of `<ChatComponent>`. */
  datatype ChatProps = ChatProps(name: Value, age: Value, height: Value, weight: Value, faceId: Value)

  /** What the dashboard does: redirect (and render nothing), or show the
      identity it destructured and a chat given props taken from it. */
  datatype View = Redirect(to: Location) | Show(identity: NavState, chat: ChatProps)

  /** The path of the dashboard route. */
  const DashboardRoute := "/dashboard"

  /** `navigate('/')` */
  const Root := Location("/", None)

  /** `s` consists of slashes only. */
  predicate AllSlashes(s: string) {
    forall k :: 0 <= k < |s| ==> s[k] == '/'
  }

  /** `s` without its trailing slashes. */
  function DropTrailingSlashes(s: string): (r: string)
    ensures r <= s && AllSlashes(s[|r|..])
    ensures r == [] || r[|r| - 1] != '/'
    decreases |s|
  {
    if s != [] && s[|s| - 1] == '/' then
      var r := DropTrailingSlashes(s[..|s| - 1]);
      assert s[|r|..] == s[..|s| - 1][|r|..] + ['/'];
      r
    else s
  }

  /** Dropping trailing slashes has one possible result: the prefix that
      ends in another character and leaves only slashes behind. */
  lemma DropTrailingSlashesUnique(s: string, r: string)
    requires r <= s && AllSlashes(s[|r|..])
    requires r == [] || r[|r| - 1] != '/'
    ensures DropTrailingSlashes(s) == r
  {
  }

  /** A route of the `<Routes>` matches `pathname` the way react-router's
      compiled pattern does (the route followed by any number of slashes,
      matched with the `i` flag): the route, in any ASCII case, then only
      slashes. The route is lower case
      and has no trailing slash, except the root route `/`. */
  predicate RouteMatches(route: string, pathname: string) {
    |route| <= |pathname| && LowerAscii(pathname[..|route|]) == route
    && AllSlashes(pathname[|route|..])
  }

  /** A path names a route after lower-casing and dropping trailing slashes. */
  function Normalized(path: string): string {
    DropTrailingSlashes(LowerAscii(path))
  }

  /** For a route that does not end in a slash, matching is equality after
      normalisation. */
  lemma RouteMatchesNormalized(route: string, pathname: string)
    requires route != [] && route[|route| - 1] != '/'
    ensures RouteMatches(route, pathname) <==> Normalized(pathname) == route
  {
    var l := LowerAscii(pathname);
    assert forall k :: 0 <= k < |pathname| ==> (l[k] == '/' <==> pathname[k] == '/');
    if RouteMatches(route, pathname) {
      assert l[..|route|] == LowerAscii(pathname[..|route|]);
      assert forall k :: |route| <= k < |l| ==> l[k] == '/' by {
        forall k | |route| <= k < |l|
          ensures l[k] == '/'
        {
          assert pathname[|route|..][k - |route|] == pathname[k];
        }
      }
      DropTrailingSlashesUnique(l, route);
    }
    if Normalized(pathname) == route {
      assert l[..|route|] == LowerAscii(pathname[..|route|]);
      forall k | 0 <= k < |pathname| - |route|
        ensures pathname[|route|..][k] == '/'
      {
        assert l[|route|..][k] == '/';
      }
    }
  }

  /** A non-empty pathname matches the root route exactly when it normalises
      to the empty text, that is when it is all slashes. */
  lemma RootMatchesNormalized(pathname: string)
    requires pathname != []
    ensures RouteMatches("/", pathname) <==> Normalized(pathname) == ""
  {
    var l := LowerAscii(pathname);
    assert forall k :: 0 <= k < |pathname| ==> (l[k] == '/' <==> pathname[k] == '/');
    if RouteMatches("/", pathname) {
      assert LowerAscii(pathname[..1])[0] == l[0];
      forall k | 0 <= k < |l|
        ensures l[k] == '/'
      {
        if k > 0 {
          assert pathname[1..][k - 1] == pathname[k];
        }
      }
      DropTrailingSlashesUnique(l, []);
    }
    if Normalized(pathname) == "" {
      assert l[..1] == [l[0]] == LowerAscii(pathname[..1]);
      forall k | 0 <= k < |pathname| - 1
        ensures pathname[1..][k] == '/'
      {
        assert l[k + 1] == '/';
      }
    }
  }

  /** The route table, matched as react-router matches it: `/` is the login
      screen and `/dashboard` the dashboard, in any ASCII case and with any
      number of trailing slashes; any other path matches no route. An empty
      pathname is read as `/`. */
  function PageAt(loc: Location): (p: Page)
    ensures p == HomePage <==> Normalized(loc.path) == ""
    ensures p == DashboardPage <==> Normalized(loc.path) == DashboardRoute
  {
    var pathname := if loc.path == "" then "/" else loc.path;
    RootMatchesNormalized(pathname);
    RouteMatchesNormalized(DashboardRoute, pathname);
    assert loc.path == "" ==> Normalized(loc.path) == "" && Normalized(pathname) == "";
    if RouteMatches("/", pathname) then HomePage
    else if RouteMatches(DashboardRoute, pathname) then DashboardPage
    else NoPage
  }

  /** `/Dashboard/` reaches the dashboard and `/dashboards` nothing. */
  lemma DashboardPathVariants()
    ensures PageAt(Location("/Dashboard/", None)) == DashboardPage
    ensures PageAt(Location("/dashboards", None)) == NoPage
  {
    var a, b := "/Dashboard/", "/dashboards";
    assert LowerAscii(a)[..10] == DashboardRoute;
    DropTrailingSlashesUnique(LowerAscii(a), DashboardRoute);
    assert LowerAscii(b) == ['/', 'd', 'a', 's', 'h', 'b', 'o', 'a', 'r', 'd', 's'];
  }

  /** `Dashboard()`: unless `state?.name` is truthy it navigates to `/` and
      renders nothing; otherwise it shows exactly the five fields of the
      state, and hands the same fields to the chat with `faceId` set to `id`.
      Only `name` is tested: `id` and the other fields may be `undefined`. */
  function ViewOf(state: Option<NavState>): (v: View)
    ensures v.Redirect? <==> state.None? || !Truthy(state.value.name)
    ensures v.Redirect? ==> v.to == Root
    ensures v.Show? ==> v.identity == state.value
    ensures v.Show? ==> (v.chat.name == v.identity.name && v.chat.age == v.identity.age
                         && v.chat.height == v.identity.height && v.chat.weight == v.identity.weight
                         && v.chat.faceId == v.identity.id)
  {
    match state
    case None => Redirect(Root)
    case Some(s) =>
      if !Truthy(s.name) then Redirect(Root)
      else Show(s, ChatProps(s.name, s.age, s.height, s.weight, s.id))
  }

  /** The guard admits a session without an `id`: a state holding only a
      name shows the dashboard, and the chat gets an undefined `faceId`. */
  lemma GuardAdmitsMissingId(name: string)
    requires name != ""
    ensures var v := ViewOf(Some(NavState(Str(name), Undefined, Undefined, Undefined, Undefined)));
            v.Show? && !Truthy(v.chat.faceId)
  {
  }

  /** Sign Out: `navigate('/')`, whatever the session holds. */
  function SignOut(session: NavState): (loc: Location)
    ensures PageAt(loc) == HomePage && loc.state.None?
    ensures ViewOf(loc.state).Redirect?
  {
    Root
  }
}
