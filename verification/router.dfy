/** Route gating: the `ProtectedRoute` decision and the application's route
    table. */
module Router {
  import opened Wrappers
  import opened UserTypes

  /** What a guard does: show its page, or replace the location. */
  datatype Decision = Render | Redirect(to: string)

  /** `ProtectedRoute`: signed-out visitors go to /login; a non-admin on an
      admin route goes to /dashboard; an admin on a student route goes to
      /admin. */
  function ProtectedRoute(user: Option<UserRole>, requireAdmin: bool): (d: Decision)
    ensures d == Render <==> user.Some? && (user.value == Admin) == requireAdmin
    ensures user.None? ==> d == Redirect("/login")
    ensures user.Some? && d != Render ==> d == Redirect(if requireAdmin then "/dashboard" else "/admin")
  {
    if user.None? then Redirect("/login")
    else if requireAdmin && user.value != Admin then Redirect("/dashboard")
    else if !requireAdmin && user.value == Admin then Redirect("/admin")
    else Render
  }

  datatype Guard = Public | StudentOnly | AdminOnly

  datatype Page =
    | Landing | LoginForm | RegisterForm
    | Dashboard | LessonsList | LessonDetail(lessonId: string) | Projects | Resources | ProgressOverview
    | AdminHome | AdminLessons | AdminProjects | AdminResources

  /** A route pattern: a literal path showing a fixed page, or
      `/lessons/:id` with one non-empty segment. */
  datatype Pattern = Exact(path: string, page: Page) | LessonParam

  datatype Route = Route(pattern: Pattern, guard: Guard)

  /** The routes in declaration order; anything else falls through to the
      catch-all redirect to "/". */
  const Routes: seq<Route> := [
    Route(Exact("/", Landing), Public),
    Route(Exact("/login", LoginForm), Public),
    Route(Exact("/register", RegisterForm), Public),
    Route(Exact("/dashboard", Dashboard), StudentOnly),
    Route(Exact("/lessons", LessonsList), StudentOnly),
    Route(LessonParam, StudentOnly),
    Route(Exact("/projects", Projects), StudentOnly),
    Route(Exact("/resources", Resources), StudentOnly),
    Route(Exact("/progress", ProgressOverview), StudentOnly),
    Route(Exact("/admin", AdminHome), AdminOnly),
    Route(Exact("/admin/lessons", AdminLessons), AdminOnly),
    Route(Exact("/admin/projects", AdminProjects), AdminOnly),
    Route(Exact("/admin/resources", AdminResources), AdminOnly)
  ]

  const LessonsPrefix: string := "/lessons/"

  predicate MatchesPattern(p: Pattern, path: string) {
    match p
    case Exact(literal, _) => path == literal
    case LessonParam =>
      && |path| > |LessonsPrefix|
      && path[..|LessonsPrefix|] == LessonsPrefix
      && '/' !in path[|LessonsPrefix|..]
  }

  /** The page a matched route shows; a lesson route shows the lesson named
      by the last segment. */
  function PageOf(p: Pattern, path: string): Page
    requires MatchesPattern(p, path)
  {
    match p
    case LessonParam => LessonDetail(path[|LessonsPrefix|..])
    case Exact(_, page) => page
  }

  /** The first route whose pattern matches the path. */
  function FindRoute(routes: seq<Route>, path: string): (r: Option<Route>)
    ensures r.Some? ==> MatchesPattern(r.value.pattern, path)
    decreases |routes|
  {
    if routes == [] then None
    else if MatchesPattern(routes[0].pattern, path) then Some(routes[0])
    else FindRoute(routes[1..], path)
  }

  /** The lookup finds the first matching route, and nothing only when no
      route matches. */
  lemma {:induction false} FindRouteFirst(routes: seq<Route>, path: string)
    ensures FindRoute(routes, path).None? <==> forall i :: 0 <= i < |routes| ==> !MatchesPattern(routes[i].pattern, path)
    ensures FindRoute(routes, path).Some? ==>
              exists k :: 0 <= k < |routes| && routes[k] == FindRoute(routes, path).value
                          && forall j :: 0 <= j < k ==> !MatchesPattern(routes[j].pattern, path)
    decreases |routes|
  {
    if routes != [] && !MatchesPattern(routes[0].pattern, path) {
      FindRouteFirst(routes[1..], path);
      assert forall i :: 1 <= i < |routes| ==> routes[i] == routes[1..][i - 1];
      if FindRoute(routes, path).Some? {
        var k :| 0 <= k < |routes[1..]| && routes[1..][k] == FindRoute(routes, path).value
                 && forall j :: 0 <= j < k ==> !MatchesPattern(routes[1..][j].pattern, path);
        assert routes[k + 1] == FindRoute(routes, path).value;
      }
    } else if routes != [] {
      assert routes[0] == FindRoute(routes, path).value;
    }
  }

  /** What the visitor sees at a path. */
  datatype View = Show(page: Page) | Moved(to: string)

  /** Visiting a path: unmatched paths go to "/", public pages always show,
      guarded pages defer to `ProtectedRoute` with `requireAdmin` set exactly
      on admin routes. */
  function Navigate(path: string, user: Option<UserRole>): (v: View)
    ensures FindRoute(Routes, path).None? ==> v == Moved("/")
    ensures FindRoute(Routes, path).Some? && FindRoute(Routes, path).value.guard == Public ==> v.Show?
    ensures FindRoute(Routes, path).Some? && FindRoute(Routes, path).value.guard != Public ==>
              (v.Show? <==> ProtectedRoute(user, FindRoute(Routes, path).value.guard == AdminOnly) == Render)
    ensures v.Show? ==> FindRoute(Routes, path).Some? && v.page == PageOf(FindRoute(Routes, path).value.pattern, path)
    ensures v.Moved? && FindRoute(Routes, path).Some? ==>
              v.to == ProtectedRoute(user, FindRoute(Routes, path).value.guard == AdminOnly).to
  {
    match FindRoute(Routes, path)
    case None => Moved("/")
    case Some(route) =>
      var page := PageOf(route.pattern, path);
      if route.guard == Public then Show(page)
      else
        match ProtectedRoute(user, route.guard == AdminOnly)
        case Render => Show(page)
        case Redirect(to) => Moved(to)
  }

  /** Routes that cannot match are skipped by the lookup. */
  lemma {:induction false} FindRouteSkip(routes: seq<Route>, path: string, k: nat)
    requires k <= |routes|
    requires forall i :: 0 <= i < k ==> !MatchesPattern(routes[i].pattern, path)
    ensures FindRoute(routes, path) == FindRoute(routes[k..], path)
    decreases k
  {
    if k > 0 {
      assert routes[1..][k - 1..] == routes[k..];
      FindRouteSkip(routes[1..], path, k - 1);
    }
  }

  /** The places a guard redirects to show their page to the visitor
      redirected there. */
  lemma LandingShows(user: Option<UserRole>)
    ensures Navigate("/", user) == Show(Landing)
  {
    assert FindRoute(Routes, "/") == Some(Routes[0]);
  }

  lemma LoginShows(user: Option<UserRole>)
    ensures Navigate("/login", user) == Show(LoginForm)
  {
    FindRouteSkip(Routes, "/login", 1);
  }

  lemma DashboardShows()
    ensures Navigate("/dashboard", Some(Student)) == Show(Dashboard)
  {
    FindRouteSkip(Routes, "/dashboard", 3);
  }

  lemma AdminHomeShows()
    ensures Navigate("/admin", Some(Admin)) == Show(AdminHome)
  {
    var admin := Routes[9..];
    assert admin[0] == Route(Exact("/admin", AdminHome), AdminOnly);
    assert !MatchesPattern(LessonParam, "/admin");
    FindRouteSkip(Routes, "/admin", 9);
  }

  /** An admin who opens the student dashboard is sent on to /admin. */
  lemma AdminLeavesDashboard()
    ensures Navigate("/dashboard", Some(Admin)) == Moved("/admin")
  {
    FindRouteSkip(Routes, "/dashboard", 3);
  }

  /** Every redirect lands on a page that shows for the same visitor, so a
      visitor is never bounced twice. */
  lemma NoDoubleRedirect(path: string, user: Option<UserRole>)
    ensures Navigate(path, user).Moved? ==> Navigate(Navigate(path, user).to, user).Show?
  {
    var v := Navigate(path, user);
    if v.Moved? {
      LandingShows(user);
      LoginShows(user);
      if user == Some(Student) {
        DashboardShows();
      } else if user == Some(Admin) {
        AdminHomeShows();
      }
      if FindRoute(Routes, path).Some? {
        var admin := FindRoute(Routes, path).value.guard == AdminOnly;
        assert v.to == ProtectedRoute(user, admin).to;
        if user.Some? {
          assert v.to == (if admin then "/dashboard" else "/admin");
          assert user == Some(if admin then Student else Admin);
        }
      }
    }
  }

  /** Students see exactly the student pages and admins exactly the admin
      pages, besides the public ones. */
  lemma RolesPartitionPages(path: string, role: UserRole)
    requires FindRoute(Routes, path).Some?
    ensures Navigate(path, Some(role)).Show? <==>
              match FindRoute(Routes, path).value.guard
              case Public => true
              case StudentOnly => role == Student
              case AdminOnly => role == Admin
  {
  }

  /** A signed-out visitor sees only public pages and is otherwise sent to
      the sign-in form (or home, for unknown paths). */
  lemma SignedOutSeesOnlyPublic(path: string)
    ensures Navigate(path, None).Show? <==>
              FindRoute(Routes, path).Some? && FindRoute(Routes, path).value.guard == Public
    ensures Navigate(path, None).Moved? ==>
              Navigate(path, None).to == (if FindRoute(Routes, path).None? then "/" else "/login")
  {
  }

  /** A lesson link shows the detail page for that lesson id to a student. */
  lemma LessonLinkShowsLesson(id: string)
    requires id != [] && '/' !in id
    ensures Navigate(LessonsPrefix + id, Some(Student)) == Show(LessonDetail(id))
  {
    var path := LessonsPrefix + id;
    assert path[..|LessonsPrefix|] == LessonsPrefix;
    assert path[|LessonsPrefix|..] == id;
    assert MatchesPattern(LessonParam, path);
    assert path[1] == 'l';
    assert path != "/dashboard";
    FindRouteSkip(Routes, path, 5);
  }
}
