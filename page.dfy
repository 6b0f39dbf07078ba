/** The single-page shell: which of eight views is shown, and how handlers
    and the auth-state effect move between them. */
module Page {
  import opened Records
  import opened Store

  datatype View = Splash | Login | Register | DashboardPage | ApplicationsPage | AddApplicationPage | ResumesPage | SettingsPage

  /** The view `handleNavigate` selects for a page name, if any. */
  function NavTarget(page: string): (r: Option<View>)
    ensures r.Some? <==> page in ["Login", "Register", "Dashboard", "Applications", "AddApplication", "Resumes", "Settings"]
    ensures r != Some(Splash)
  {
    if page == "Login" then Some(Login)
    else if page == "Register" then Some(Register)
    else if page == "Dashboard" then Some(DashboardPage)
    else if page == "Applications" then Some(ApplicationsPage)
    else if page == "AddApplication" then Some(AddApplicationPage)
    else if page == "Resumes" then Some(ResumesPage)
    else if page == "Settings" then Some(SettingsPage)
    else None
  }

  /** The page name each view other than the splash is reached by. */
  function PageName(v: View): (name: string)
    requires v != Splash
    ensures NavTarget(name) == Some(v)
  {
    match v
    case Login => "Login"
    case Register => "Register"
    case DashboardPage => "Dashboard"
    case ApplicationsPage => "Applications"
    case AddApplicationPage => "AddApplication"
    case ResumesPage => "Resumes"
    case SettingsPage => "Settings"
  }

  /** Navigation reaches every view but the splash, and the seven names are
      the only ones it knows: each named view has exactly one name. */
  lemma NavTargetExact(page: string, v: View)
    ensures NavTarget(page) != Some(Splash)
    ensures NavTarget(page) == Some(v) <==> v != Splash && page == PageName(v)
  {
  }

  /** Whether the view is one of the two sign-in screens. */
  predicate IsAuthScreen(v: View) {
    v == Login || v == Register
  }

  /** The view after the auth-state effect: a sign-in screen gives way to the
      dashboard once the check has finished with a user; nothing else moves. */
  function Redirected(v: View, isLoading: bool, hasUser: bool): (r: View)
    ensures r != v <==> !isLoading && hasUser && IsAuthScreen(v)
    ensures r != v ==> r == DashboardPage
  {
    if !isLoading && hasUser && IsAuthScreen(v) then DashboardPage else v
  }

  /** Running the effect again changes nothing, and with no user no view is
      forced back to a sign-in screen. */
  lemma RedirectStable(v: View, isLoading: bool, hasUser: bool)
    ensures Redirected(Redirected(v, isLoading, hasUser), isLoading, hasUser) == Redirected(v, isLoading, hasUser)
    ensures !hasUser ==> Redirected(v, isLoading, hasUser) == v
  {
  }

  /** `Home`'s `view` state. */
  class ViewController {
    var view: View

    constructor ()
      ensures view == Splash
    {
      view := Splash;
    }

    /** `handleSplashFinish`. */
    method SplashFinish(hasUser: bool)
      modifies this
      ensures view == if hasUser then DashboardPage else Login
    {
      if hasUser {
        view := DashboardPage;
      } else {
        view := Login;
      }
    }

    /** `handleLogin`, the handler both the login and the register screens call. */
    method HandleLogin()
      modifies this
      ensures view == DashboardPage
    {
      view := DashboardPage;
    }

    /** `handleNavigate(page)`: seven independent comparisons. */
    method Navigate(page: string)
      modifies this
      ensures view == NavTarget(page).GetOr(old(view))
    {
      if page == "Login" { view := Login; }
      if page == "Register" { view := Register; }
      if page == "Dashboard" { view := DashboardPage; }
      if page == "Applications" { view := ApplicationsPage; }
      if page == "AddApplication" { view := AddApplicationPage; }
      if page == "Resumes" { view := ResumesPage; }
      if page == "Settings" { view := SettingsPage; }
    }

    /** The effect on `[user, isLoading, view]`, reading the store. */
    method Redirect(store: AppStore)
      modifies this
      ensures view == Redirected(old(view), store.isLoading, store.user.Some?)
    {
      if !store.isLoading {
        if store.user.Some? && (view == Login || view == Register) {
          view := DashboardPage;
        }
      }
    }

    /** Mounting: the store checks the session, then the effect runs. */
    method Mount(store: AppStore, reply: SessionReply)
      modifies this, store
      ensures store.user == UserAfterCheck(old(store.user), reply) && !store.isLoading && store.theme == old(store.theme)
      ensures view == Redirected(old(view), false, store.user.Some?)
    {
      store.CheckSession(reply);
      Redirect(store);
    }
  }
}
