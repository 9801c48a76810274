/**
 * The application shell (App.tsx): the route guard, the mapping between
 * paths and sidebar routes, the redirect of a signed-out visitor, and the
 * credit handler the generator pages call.
 */
module App {
  import opened Common
  import opened Auth

  datatype AppRoute = Home | AssignmentRoute | ReportRoute | PresentationRoute | QuizRoute | SheetRoute
                    | SubscriptionRoute | SettingsRoute | ProfileRoute

  /** `getAppRouteFromPath`: the sidebar entry highlighted for a path; unknown paths highlight Home. */
  function RouteOfPath(path: string): AppRoute {
    if path == "/" then Home
    else if path == "/start" then Home
    else if path == "/assignment" then AssignmentRoute
    else if path == "/report" then ReportRoute
    else if path == "/presentation" then PresentationRoute
    else if path == "/quiz" then QuizRoute
    else if path == "/sheet" then SheetRoute
    else if path == "/subscription" then SubscriptionRoute
    else if path == "/settings" then SettingsRoute
    else Home
  }

  /** `pathMap` of `handleNavigate`: the path each route navigates to. */
  function PathOf(route: AppRoute): (p: string)
    ensures |p| > 0 && p[0] == '/'
  {
    match route
    case Home => "/"
    case AssignmentRoute => "/assignment"
    case ReportRoute => "/report"
    case PresentationRoute => "/presentation"
    case QuizRoute => "/quiz"
    case SheetRoute => "/sheet"
    case SubscriptionRoute => "/subscription"
    case SettingsRoute => "/settings"
    case ProfileRoute => "/profile"
  }

  /** Navigating to a route and reading the path back gives the route, for every route but Profile. */
  lemma PathRoundTrip(route: AppRoute)
    requires route != ProfileRoute
    ensures RouteOfPath(PathOf(route)) == route
  {
    match route
    case Home =>
    case AssignmentRoute => assert PathOf(route)[1] == 'a';
    case ReportRoute => assert PathOf(route)[1] == 'r';
    case PresentationRoute => assert PathOf(route)[1] == 'p';
    case QuizRoute => assert PathOf(route)[1] == 'q';
    case SheetRoute => assert PathOf(route)[2] == 'h';
    case SubscriptionRoute => assert PathOf(route)[2] == 'u';
    case SettingsRoute => assert PathOf(route)[2] == 'e';
  }

  /** '/profile' is not in the path switch: the Profile route is read back as Home. */
  lemma ProfileReadsAsHome()
    ensures RouteOfPath(PathOf(ProfileRoute)) == Home
  {
    var p := PathOf(ProfileRoute);
    assert p[1] == 'p' && p[2] == 'r' && |p| == 8;
  }

  /** Different routes navigate to different paths. */
  lemma PathsDistinct(a: AppRoute, b: AppRoute)
    requires a != b
    ensures PathOf(a) != PathOf(b)
  {
    if a != ProfileRoute && b != ProfileRoute {
      PathRoundTrip(a);
      PathRoundTrip(b);
    } else if a == ProfileRoute {
      ProfileVersusOthers(b);
    } else {
      ProfileVersusOthers(a);
    }
  }

  lemma ProfileVersusOthers(r: AppRoute)
    requires r != ProfileRoute
    ensures PathOf(r) != PathOf(ProfileRoute)
  {
    var p := PathOf(ProfileRoute);
    assert |p| == 8 && p[1] == 'p' && p[2] == 'r';
    if r == PresentationRoute {
      assert |PathOf(r)| == 13;
    }
  }

  /** What `ProtectedRoute` renders. */
  datatype Guarded = RedirectTo(path: string) | RenderChild

  /** `ProtectedRoute`: signed-out visitors go to the login page, non-administrators away from admin pages. */
  function ProtectedRoute(user: Option<Profile>, isAdminOnly: bool): (g: Guarded)
    ensures g == RenderChild <==> user.Some? && (!isAdminOnly || user.value.isAdmin)
    ensures user.None? ==> g == RedirectTo("/login")
    ensures user.Some? && isAdminOnly && !user.value.isAdmin ==> g == RedirectTo("/")
  {
    if user.None? then RedirectTo("/login")
    else if isAdminOnly && !user.value.isAdmin then RedirectTo("/")
    else RenderChild
  }

  /** The layout's redirect: a signed-out visitor anywhere but the login page is sent there. */
  function LayoutRedirect(user: Option<Profile>, pathname: string): (r: Option<string>)
    ensures r.Some? <==> user.None? && pathname != "/login"
    ensures r.Some? ==> r.value == "/login"
  {
    if user.None? && pathname != "/login" then Some("/login") else None
  }

  /** The layout and the guard agree: a signed-out visitor never sees a guarded page. */
  lemma SignedOutNeverRendered(pathname: string, isAdminOnly: bool)
    ensures ProtectedRoute(None, isAdminOnly) == RedirectTo("/login")
    ensures pathname != "/login" ==> LayoutRedirect(None, pathname) == Some("/login")
  {
  }

  /** The shell's copy of the signed-in profile and where the browser is. */
  class Shell {
    var userProfile: Option<Profile>
    var location: string

    constructor(userProfile: Option<Profile>, location: string)
      ensures this.userProfile == userProfile && this.location == location
    {
      this.userProfile := userProfile;
      this.location := location;
    }

    /** The local copy of the credits is not negative. */
    predicate LocalCreditsNonNegative()
      reads this
    {
      userProfile.Some? ==> userProfile.value.credits >= 0
    }

    /**
     * `handleDeductCredits`: with no profile, refuse. With credits left, ask
     * the store to deduct one; if the store throws, refuse and keep the local
     * credits, otherwise lower the local credits by one and allow, whatever
     * the store decided. With none left, send the user to the subscription
     * page and refuse.
     */
    method HandleDeductCredits(db: Backend) returns (allowed: bool)
      modifies this`userProfile, this`location, db`profiles
      ensures old(userProfile).None? ==>
        !allowed && userProfile == old(userProfile) && location == old(location) && db.profiles == old(db.profiles)
      ensures old(userProfile).Some? && old(userProfile).value.credits <= 0 ==>
        !allowed && location == "/subscription" && userProfile == old(userProfile) && db.profiles == old(db.profiles)
      ensures old(userProfile).Some? && old(userProfile).value.credits > 0 ==>
        location == old(location)
        && (allowed <==> old(userProfile).value.id in old(db.profiles))
        && userProfile == (if allowed then Some(old(userProfile).value.(credits := old(userProfile).value.credits - 1))
                           else old(userProfile))
      ensures old(userProfile).Some? && old(userProfile).value.credits > 0 ==>
        var id := old(userProfile).value.id;
        db.profiles == (if id in old(db.profiles) && old(db.profiles)[id].credits >= 1
                        then old(db.profiles)[id := old(db.profiles)[id].(credits := old(db.profiles)[id].credits - 1)]
                        else old(db.profiles))
      ensures old(LocalCreditsNonNegative()) ==> LocalCreditsNonNegative()
      ensures old(db.CreditsNonNegative()) ==> db.CreditsNonNegative()
    {
      if userProfile.None? {
        return false;
      }
      var profile := userProfile.value;
      if profile.credits > 0 {
        var r := db.DeductCredits(profile.id, 1);
        if r.Failure? {
          return false;
        }
        userProfile := Some(profile.(credits := profile.credits - 1));
        allowed := true;
      } else {
        location := "/subscription";
        allowed := false;
      }
    }
  }
}
