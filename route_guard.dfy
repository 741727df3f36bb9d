/** The root layout's guard: which paths need a session and when to send the user to the login screen. */
module RouteGuard {
  import opened Wrappers
  import opened JsStrings
  import AuthSession

  /** `protectedRoutes`, in source order. */
  const ProtectedRoutes: seq<string> := ["rounds/new", "rounds/", "stats", "profile", "courses/create"]

  /** `segments.join('/')` */
  function PathOf(segments: seq<string>): string {
    Join(segments, "/")
  }

  /** `routes.some(route => path.includes(route))` */
  function SomeIncluded(path: string, routes: seq<string>): (r: bool)
    ensures r <==> exists k :: 0 <= k < |routes| && Includes(path, routes[k])
  {
    if routes == [] then false
    else Includes(path, routes[0]) || SomeIncluded(path, routes[1..])
  }

  predicate InProtectedRoute(segments: seq<string>) {
    SomeIncluded(PathOf(segments), ProtectedRoutes)
  }

  /** The replacement the guard asks the router for. */
  datatype Redirect = Redirect(pathname: string, returnTo: string)

  /**
   * The guard's effect: nothing while the session is loading; a redirect to
   * `/login`, carrying the current path, when the path is protected and there
   * is neither a token nor guest mode.
   */
  function GuardDecision(isLoading: bool, userToken: Option<string>, isGuest: bool, segments: seq<string>): (r: Option<Redirect>)
    ensures r.Some? <==> !isLoading && InProtectedRoute(segments) && !Truthy(userToken) && !isGuest
    ensures r.Some? ==> r.value == Redirect("/login", PathOf(segments))
  {
    if isLoading then None
    else if InProtectedRoute(segments) && !Truthy(userToken) && !isGuest then
      Some(Redirect("/login", PathOf(segments)))
    else None
  }

  /** A path is protected exactly when one of the five strings occurs in it. */
  lemma ProtectedMeaning(segments: seq<string>)
    ensures InProtectedRoute(segments) <==>
      exists route, i: nat :: route in ProtectedRoutes && OccursAt(PathOf(segments), route, i)
  {
    var path := PathOf(segments);
    forall route | route in ProtectedRoutes
      ensures Includes(path, route) <==> exists i: nat :: OccursAt(path, route, i)
    {
      IncludesIff(path, route);
    }
  }

  /** `'rounds/new'` adds nothing to the list: every path containing it also contains `'rounds/'`. */
  lemma RoundsNewIsRedundant(segments: seq<string>)
    ensures InProtectedRoute(segments) <==> SomeIncluded(PathOf(segments), ProtectedRoutes[1..])
  {
    var path := PathOf(segments);
    if Includes(path, "rounds/new") {
      IncludesPrefix(path, "rounds/new", "rounds/");
      assert ProtectedRoutes[1..][0] == "rounds/";
    }
  }

  /** A path in which the `k`-th protected string occurs at `i` is protected. */
  lemma ProtectedBy(segments: seq<string>, k: nat, i: nat)
    requires k < |ProtectedRoutes| && OccursAt(PathOf(segments), ProtectedRoutes[k], i)
    ensures InProtectedRoute(segments)
  {
    IncludesIff(PathOf(segments), ProtectedRoutes[k]);
  }

  /** A round's score card (`rounds/<id>`) is protected. */
  lemma RoundScreenProtected(id: string)
    ensures InProtectedRoute(["rounds", id])
  {
    assert ["rounds", id][1..] == [id];
    assert Join([id], "/") == id;
    assert "rounds" + "/" == "rounds/";
    assert PathOf(["rounds", id]) == "rounds/" + id;
    ProtectedBy(["rounds", id], 1, 0);
  }

  /** The statistics tab (`(tabs)/stats`) is protected. */
  lemma StatsTabProtected()
    ensures InProtectedRoute(["(tabs)", "stats"])
  {
    assert ["(tabs)", "stats"][1..] == ["stats"];
    assert PathOf(["(tabs)", "stats"]) == "(tabs)/stats";
    ProtectedBy(["(tabs)", "stats"], 2, 7);
  }

  /** A guest or a session with a non-empty token is never redirected, whatever the path. */
  lemma SignedInOrGuestNeverRedirected(s: AuthSession.Session, segments: seq<string>)
    requires s.isGuest || s.IsLoggedIn()
    ensures GuardDecision(s.isLoading, s.userToken, s.isGuest, segments) == None
  {
  }
}
