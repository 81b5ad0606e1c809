/** The client's route table and the three wrappers that gate it:
    `SetupCheck`, `ProtectedRoute` and `AdminRoute`. */
module Routing {
  import opened Wrappers
  import opened Store
  import opened Auth
  import opened AuthContext

  /** What a wrapper renders: the loading screen, a `<Navigate replace>`, or its children. */
  datatype Screen = Spinner | Redirect(to: string) | Render

  // ---------- SetupCheck ----------

  datatype SetupCheckState = SetupCheckState(checking: bool, needsSetup: bool)

  const SETUP_START := SetupCheckState(true, false)

  /** `checkSetup` settling: on success `needsSetup` is the negation of
      `is_setup_complete`; a failed request leaves it as it was. */
  function SetupResponse(s: SetupCheckState, response: Result<bool, HttpError>): (r: SetupCheckState)
    ensures !r.checking
    ensures response.Success? ==> r.needsSetup == !response.value
    ensures response.Failure? ==> r.needsSetup == s.needsSetup
  {
    match response
    case Success(complete) => SetupCheckState(false, !complete)
    case Failure(_) => s.(checking := false)
  }

  function SetupCheckView(s: SetupCheckState): (v: Screen)
    ensures v == Spinner <==> s.checking
    ensures v == Redirect("/setup") <==> !s.checking && s.needsSetup
    ensures v == Render <==> !s.checking && !s.needsSetup
  {
    if s.checking then Spinner
    else if s.needsSetup then Redirect("/setup")
    else Render
  }

  /** What a `SetupCheck` page shows once the status request settles: the
      page itself unless the server reports setup incomplete, so a failed
      request shows the page. */
  function SetupOutcome(response: Result<bool, HttpError>): (v: Screen)
    ensures v == Render <==> response.Failure? || response.value
    ensures v == Redirect("/setup") <==> response.Success? && !response.value
  {
    SetupCheckView(SetupResponse(SETUP_START, response))
  }

  /** Fed the server's own answer, a `SetupCheck` page redirects to `/setup`
      exactly while setup is incomplete, and renders once it is complete. */
  lemma SetupRedirectIffIncomplete(st: State)
    ensures SetupOutcome(Success(SetupStatus(st))) == Redirect("/setup") <==> !st.setupComplete
    ensures SetupOutcome(Success(SetupStatus(st))) == Render <==> st.setupComplete
  {
  }

  // ---------- ProtectedRoute and AdminRoute ----------

  /** Any signed-in user passes, whatever their approval status. */
  function ProtectedView(a: AuthState): (v: Screen)
    ensures v == Spinner <==> a.loading
    ensures v == Redirect("/login") <==> !a.loading && a.user.None?
    ensures v == Render <==> !a.loading && a.user.Some?
  {
    if a.loading then Spinner
    else if a.user.None? then Redirect("/login")
    else Render
  }

  /** Everyone who is not an admin goes to the dashboard, signed in or not. */
  function AdminView(a: AuthState): (v: Screen)
    ensures v == Spinner <==> a.loading
    ensures v == Redirect("/dashboard") <==> !a.loading && !IsAdmin(a)
    ensures v == Render <==> !a.loading && IsAdmin(a)
    ensures v != Redirect("/login")
  {
    if a.loading then Spinner
    else if a.user.None? || !IsAdmin(a) then Redirect("/dashboard")
    else Render
  }

  // ---------- the route table ----------

  datatype Route =
    | SetupPage
    | HomePage
    | LeadershipPage
    | SuccessPage
    | AnnouncementsPage
    | CoursesPage
    | LoginPage
    | SignupPage
    | DashboardPage
    | CourseDetailPage(courseId: string)
    | ModulePlayerPage(courseId: string, moduleId: string)
    | CoachPage
    | AdminPages(rest: seq<string>)

  datatype Guard = Unguarded | SetupGuard | SignedInGuard | AdminGuard

  /** Which wrapper guards a route: `/setup` alone is unguarded, everything
      under `/admin` is for admins, and the dashboard, course, module and
      coach pages need a signed-in user. */
  function GuardOf(r: Route): (g: Guard)
    ensures g == Unguarded <==> PathOf(r) == ["setup"]
    ensures g == AdminGuard <==> |PathOf(r)| > 0 && PathOf(r)[0] == "admin"
    ensures g == SignedInGuard <==>
      PathOf(r) == ["dashboard"] || PathOf(r) == ["coach"] || (|PathOf(r)| > 0 && PathOf(r)[0] == "course")
  {
    match r
    case SetupPage => Unguarded
    case HomePage => SetupGuard
    case LeadershipPage => SetupGuard
    case SuccessPage => SetupGuard
    case AnnouncementsPage => SetupGuard
    case CoursesPage => SetupGuard
    case LoginPage => SetupGuard
    case SignupPage => SetupGuard
    case DashboardPage => SignedInGuard
    case CourseDetailPage(_) => SignedInGuard
    case ModulePlayerPage(_, _) => SignedInGuard
    case CoachPage => SignedInGuard
    case AdminPages(rest) =>
      assert PathOf(r)[0] == "admin";
      AdminGuard
  }

  /** What the router shows for a route, given both wrappers' states. */
  function ViewOf(r: Route, setup: SetupCheckState, auth: AuthState): (v: Screen)
    ensures r == SetupPage ==> v == Render
    ensures GuardOf(r) == SetupGuard ==> v == SetupCheckView(setup)
    ensures GuardOf(r) == SignedInGuard ==> v == ProtectedView(auth)
    ensures GuardOf(r) == AdminGuard ==> v == AdminView(auth)
  {
    match GuardOf(r)
    case Unguarded => Render
    case SetupGuard => SetupCheckView(setup)
    case SignedInGuard => ProtectedView(auth)
    case AdminGuard => AdminView(auth)
  }

  /** A path parameter matches one non-empty segment. */
  predicate Param(s: string) {
    s != [] && '/' !in s
  }

  predicate WellFormed(r: Route) {
    match r
    case CourseDetailPage(c) => Param(c)
    case ModulePlayerPage(c, m) => Param(c) && Param(m)
    case AdminPages(rest) => forall i :: 0 <= i < |rest| ==> Param(rest[i])
    case _ => true
  }

  /** The path of a route, as its segments. */
  function PathOf(r: Route): seq<string> {
    match r
    case SetupPage => ["setup"]
    case HomePage => []
    case LeadershipPage => ["leadership"]
    case SuccessPage => ["success"]
    case AnnouncementsPage => ["announcements"]
    case CoursesPage => ["courses"]
    case LoginPage => ["login"]
    case SignupPage => ["signup"]
    case DashboardPage => ["dashboard"]
    case CourseDetailPage(c) => ["course", c]
    case ModulePlayerPage(c, m) => ["course", c, "module", m]
    case CoachPage => ["coach"]
    case AdminPages(rest) => ["admin"] + rest
  }

  /** ASCII lower case. `<Route>`s without `caseSensitive` compile to a
      regular expression with the `i` flag, which folds exactly the ASCII
      letters when the pattern is all ASCII, as every literal segment here is. */
  function LowerChar(c: char): char {
    if 'A' <= c <= 'Z' then (c as int + 32) as char else c
  }

  function Lower(s: string): (r: string)
    ensures |r| == |s|
    ensures forall i :: 0 <= i < |s| ==> r[i] == LowerChar(s[i])
  {
    seq(|s|, i requires 0 <= i < |s| => LowerChar(s[i]))
  }

  /** A path segment matches a literal segment of the table, ignoring case. */
  predicate Is(segment: string, literal: string) {
    Lower(segment) == Lower(literal)
  }

  /** Two paths that differ at most in the case of their letters. */
  predicate SameUpToCase(p: seq<string>, q: seq<string>) {
    |p| == |q| && forall i :: 0 <= i < |p| ==> Lower(p[i]) == Lower(q[i])
  }

  /** The route `<Routes>` matches for a path; the admin route takes any
      suffix. Literal segments match whatever their case; parameters keep the
      text as written. */
  function Resolve(p: seq<string>): (r: Option<Route>)
    ensures r.Some? && (forall i :: 0 <= i < |p| ==> Param(p[i])) ==> WellFormed(r.value)
  {
    if p == [] then Some(HomePage)
    else if Is(p[0], "admin") then Some(AdminPages(p[1..]))
    else if |p| == 1 then Page(p[0])
    else if |p| == 2 && Is(p[0], "course") then Some(CourseDetailPage(p[1]))
    else if |p| == 4 && Is(p[0], "course") && Is(p[2], "module") then Some(ModulePlayerPage(p[1], p[3]))
    else None
  }

  /** The one-segment routes. */
  function Page(name: string): (r: Option<Route>)
    ensures r.Some? ==> |PathOf(r.value)| == 1 && Is(name, PathOf(r.value)[0])
  {
    if Is(name, "setup") then Some(SetupPage)
    else if Is(name, "leadership") then Some(LeadershipPage)
    else if Is(name, "success") then Some(SuccessPage)
    else if Is(name, "announcements") then Some(AnnouncementsPage)
    else if Is(name, "courses") then Some(CoursesPage)
    else if Is(name, "login") then Some(LoginPage)
    else if Is(name, "signup") then Some(SignupPage)
    else if Is(name, "dashboard") then Some(DashboardPage)
    else if Is(name, "coach") then Some(CoachPage)
    else None
  }

  /** The table is unambiguous: every well-formed route is matched by its own
      path, and a path is matched only by a route whose path it is, up to the
      case of its letters. */
  lemma ResolvePathOf(r: Route)
    requires WellFormed(r)
    ensures Resolve(PathOf(r)) == Some(r)
  {
    var p := PathOf(r);
    match r
    case AdminPages(rest) =>
      assert p[1..] == rest;
    case LeadershipPage => LiteralsDiffer("leadership", "setup", 0);
    case SuccessPage => LiteralsDiffer("success", "courses", 0);
    case CoursesPage =>
      LiteralsDiffer("courses", "success", 0);
    case LoginPage => LiteralsDiffer("login", "setup", 0);
    case CoachPage =>
      LiteralsDiffer("coach", "setup", 0);
      LiteralsDiffer("coach", "login", 0);
    case _ =>
  }

  /** Literals that differ at a letter position differ ignoring case too. */
  lemma LiteralsDiffer(a: string, b: string, i: nat)
    requires i < |a| && i < |b|
    requires LowerChar(a[i]) != LowerChar(b[i])
    ensures !Is(a, b)
  {
    assert Lower(a)[i] != Lower(b)[i];
  }

  lemma PathOfResolve(p: seq<string>)
    requires Resolve(p).Some?
    ensures SameUpToCase(PathOf(Resolve(p).value), p)
  {
    var q := PathOf(Resolve(p).value);
    if p != [] && Is(p[0], "admin") {
      assert q == ["admin"] + p[1..];
      assert forall i :: 1 <= i < |p| ==> q[i] == p[i];
    } else if |p| == 2 {
      assert q == ["course", p[1]];
    } else if |p| == 4 {
      assert q == ["course", p[1], "module", p[3]];
    }
  }

  /** Changing the case of a path's letters never changes which wrapper
      guards it: `/Dashboard` is as protected as `/dashboard`. */
  lemma ResolveIgnoresCase(p: seq<string>, q: seq<string>)
    requires SameUpToCase(p, q)
    ensures Resolve(p).Some? <==> Resolve(q).Some?
    ensures Resolve(p).Some? ==> GuardOf(Resolve(p).value) == GuardOf(Resolve(q).value)
  {
    if p != [] {
      assert Lower(p[0]) == Lower(q[0]);
      if |p| == 4 {
        assert Lower(p[2]) == Lower(q[2]);
      }
    }
  }

  /** A signed-in user who is still pending reaches every student page;
      the approval gate sits in the pages and the server, not the router. */
  lemma PendingUserPassesRouter(r: Route, setup: SetupCheckState, auth: AuthState)
    requires GuardOf(r) == SignedInGuard
    requires !auth.loading && auth.user.Some? && auth.user.value.status == "pending"
    ensures ViewOf(r, setup, auth) == Render
  {
  }
}
