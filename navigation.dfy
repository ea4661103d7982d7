/**
 * The route both `MainViewModel`s follow: the welcome screen hands over to
 * login when a password is set and to setup otherwise, and a successful
 * setup or login opens the dashboard. Each screen's event is raised only by
 * its own view model while it is shown (the welcome timer fires once, the
 * setup and login buttons belong to their screens), so an event raised on
 * another screen changes nothing here.
 */
module Navigation {

  datatype ScreenKind = WelcomeKind | SetupKind | LoginKind | DashboardKind

  datatype Event =
    | WelcomeElapsed(passwordSet: bool)  // the welcome delay ended; whether a password is stored
    | SetupSubmitted(success: bool)      // setup ran and reported success or not
    | LoginSubmitted(success: bool)      // login ran and reported success or not

  function Route(from: ScreenKind, e: Event): (to: ScreenKind)
    ensures to == DashboardKind <==>
      from == DashboardKind || (from == SetupKind && e == SetupSubmitted(true)) || (from == LoginKind && e == LoginSubmitted(true))
    ensures from == WelcomeKind && e.WelcomeElapsed? ==> to == (if e.passwordSet then LoginKind else SetupKind)
    ensures to == WelcomeKind ==> from == WelcomeKind
  {
    match (from, e)
    case (WelcomeKind, WelcomeElapsed(isSet)) => if isSet then LoginKind else SetupKind
    case (SetupKind, SetupSubmitted(ok)) => if ok then DashboardKind else SetupKind
    case (LoginKind, LoginSubmitted(ok)) => if ok then DashboardKind else LoginKind
    case _ => from
  }

  /** The screen after a run of events. */
  function Run(from: ScreenKind, events: seq<Event>): ScreenKind
    decreases |events|
  {
    if events == [] then from else Run(Route(from, events[0]), events[1..])
  }

  /** The one event that leaves the setup or the login screen. */
  function Success(k: ScreenKind): (e: Event)
    requires k == SetupKind || k == LoginKind
    ensures Route(k, e) == DashboardKind
  {
    if k == SetupKind then SetupSubmitted(true) else LoginSubmitted(true)
  }

  /** The dashboard is never left. */
  lemma {:induction false} DashboardStays(events: seq<Event>)
    ensures Run(DashboardKind, events) == DashboardKind
    decreases |events|
  {
    if events != [] {
      DashboardStays(events[1..]);
    }
  }

  /** Once past the welcome screen it is never shown again. */
  lemma {:induction false} WelcomeNotRevisited(from: ScreenKind, events: seq<Event>)
    requires from != WelcomeKind
    ensures Run(from, events) != WelcomeKind
    decreases |events|
  {
    if events != [] {
      WelcomeNotRevisited(Route(from, events[0]), events[1..]);
    }
  }

  /**
   * From the setup (login) screen the dashboard is reached exactly when a
   * setup (login) succeeds; until then the screen stays.
   */
  lemma {:induction false} OnlyOwnSuccessLeaves(k: ScreenKind, events: seq<Event>)
    requires k == SetupKind || k == LoginKind
    ensures Run(k, events) == k || Run(k, events) == DashboardKind
    ensures Run(k, events) == DashboardKind <==> Success(k) in events
    decreases |events|
  {
    if events != [] {
      if events[0] == Success(k) {
        DashboardStays(events[1..]);
      } else {
        OnlyOwnSuccessLeaves(k, events[1..]);
        assert Success(k) in events <==> Success(k) in events[1..] by {
          assert events == [events[0]] + events[1..];
        }
      }
    }
  }

  /**
   * Whether a password was stored when the welcome delay ended decides the
   * way in: with one, only a successful login opens the dashboard, without
   * one only a successful setup.
   */
  lemma PasswordDecidesTheWayIn(passwordSet: bool, rest: seq<Event>)
    ensures Run(WelcomeKind, [WelcomeElapsed(passwordSet)] + rest) == DashboardKind
      <==> (if passwordSet then LoginSubmitted(true) else SetupSubmitted(true)) in rest
  {
    var events := [WelcomeElapsed(passwordSet)] + rest;
    assert events[1..] == rest;
    OnlyOwnSuccessLeaves(if passwordSet then LoginKind else SetupKind, rest);
  }
}

/** The Windows `MainViewModel`. */
module WindowsShell {
  import opened Text
  import opened Navigation
  import opened SecurityPolicy
  import opened WindowsCredentials
  import opened LoginGate
  import Welcome
  import WindowsApps
  import WindowsSetup
  import WindowsLogin
  import SetupRules

  /** `CurrentViewModel`; the dashboard is represented by the apps it is opened with. */
  datatype Screen =
    | WelcomeScreen(welcome: Welcome.WelcomeViewModel)
    | SetupScreen(setup: WindowsSetup.SetupViewModel)
    | LoginScreen(login: WindowsLogin.LoginViewModel)
    | DashboardScreen(apps: seq<WindowsApps.AppEntry>)

  function KindOf(s: Screen): ScreenKind {
    match s
    case WelcomeScreen(_) => WelcomeKind
    case SetupScreen(_) => SetupKind
    case LoginScreen(_) => LoginKind
    case DashboardScreen(_) => DashboardKind
  }

  class MainViewModel {
    const authService: WindowsSecurityService
    const securityPolicy: SecurityPolicyService
    var currentViewModel: Screen
    /** `_cachedApps`, null (`None`) until the prefetch completes. */
    var cachedApps: Option<seq<WindowsApps.AppEntry>>

    /** The view model on screen shares this object's services. */
    ghost predicate Valid()
      reads this, securityPolicy
    {
      && securityPolicy.Valid()
      && (currentViewModel.SetupScreen? ==>
            currentViewModel.setup.authService == authService && currentViewModel.setup.securityPolicy == securityPolicy)
      && (currentViewModel.LoginScreen? ==>
            currentViewModel.login.authService == authService && currentViewModel.login.securityPolicy == securityPolicy)
    }

    /** The constructor shows the welcome screen built at `hour`; the prefetch is still running. */
    constructor (authService: WindowsSecurityService, securityPolicy: SecurityPolicyService, hour: Welcome.Hour)
      requires securityPolicy.Valid()
      ensures this.authService == authService && this.securityPolicy == securityPolicy
      ensures currentViewModel.WelcomeScreen? && fresh(currentViewModel.welcome)
      ensures currentViewModel.welcome.greeting == Welcome.Greeting(hour)
      ensures cachedApps == None && Valid()
    {
      this.authService := authService;
      this.securityPolicy := securityPolicy;
      var vm := new Welcome.WelcomeViewModel(hour);
      currentViewModel := WelcomeScreen(vm);
      cachedApps := None;
    }

    /** `PreFetchApps` completing: the scan of both registry hives is cached. */
    method PreFetchApps(localMachine: WindowsApps.Hive, currentUser: WindowsApps.Hive)
      requires Valid()
      modifies this
      ensures Valid() && currentViewModel == old(currentViewModel)
      ensures cachedApps == Some(WindowsApps.Collect([], WindowsApps.Scanned([localMachine, currentUser])))
    {
      var apps := WindowsApps.GetInstalledApps(localMachine, currentUser);
      cachedApps := Some(apps);
    }

    /** The `NavigationRequested` handler: login when a password is set, setup otherwise. */
    method OnNavigationRequested()
      requires Valid() && currentViewModel.WelcomeScreen?
      modifies this
      ensures Valid() && cachedApps == old(cachedApps)
      ensures KindOf(currentViewModel) == Route(old(KindOf(currentViewModel)), WelcomeElapsed(authService.IsPasswordSet()))
      ensures currentViewModel.SetupScreen? ==>
        fresh(currentViewModel.setup) && currentViewModel.setup.password == "" && currentViewModel.setup.confirmPassword == ""
      ensures currentViewModel.LoginScreen? ==>
        fresh(currentViewModel.login) && currentViewModel.login.password == ""
        && currentViewModel.login.attemptsRemaining == Remaining(securityPolicy.State())
    {
      if authService.IsPasswordSet() {
        var vm := new WindowsLogin.LoginViewModel(authService, securityPolicy);
        currentViewModel := LoginScreen(vm);
      } else {
        var vm := new WindowsSetup.SetupViewModel(authService, securityPolicy);
        currentViewModel := SetupScreen(vm);
      }
    }

    /** The setup button, then the `SetupSuccess` handler when setup succeeded. */
    method SubmitSetup()
      requires Valid() && currentViewModel.SetupScreen?
      modifies this, currentViewModel.setup, authService
      ensures Valid() && cachedApps == old(cachedApps)
      ensures var ok := SetupRules.WindowsSetupError(old(currentViewModel.setup.password), old(currentViewModel.setup.confirmPassword)).None?;
        && KindOf(currentViewModel) == Route(SetupKind, SetupSubmitted(ok))
        && (ok ==> authService.vault == AfterSetPassword(old(authService.vault), old(currentViewModel.setup.password)))
        && (!ok ==> authService.vault == old(authService.vault) && currentViewModel == old(currentViewModel))
      ensures currentViewModel.DashboardScreen? ==> currentViewModel.apps == cachedApps.GetOr([])
    {
      var vm := currentViewModel.setup;
      var ok := vm.ExecuteSetup();
      if ok {
        NavigateToDashboard();
      }
    }

    /** The login button at time `now`, then the `LoginSuccess` handler when the login succeeded. */
    method SubmitLogin(now: Time)
      requires Valid() && currentViewModel.LoginScreen?
      modifies this, currentViewModel.login, securityPolicy
      ensures Valid() && cachedApps == old(cachedApps)
      ensures var matches := Authenticates(authService.vault, old(currentViewModel.login.password));
        var o := Decide(old(securityPolicy.State()), now, matches);
        && KindOf(currentViewModel) == Route(LoginKind, LoginSubmitted(o == Succeeded))
        && securityPolicy.State() == After(old(securityPolicy.State()), now, matches)
        && (o != Succeeded ==> currentViewModel == old(currentViewModel))
      ensures currentViewModel.DashboardScreen? ==> currentViewModel.apps == cachedApps.GetOr([])
    {
      var vm := currentViewModel.login;
      var ok := vm.ExecuteLogin(now);
      if ok {
        NavigateToDashboard();
      }
    }

    /** `NavigateToDashboard`: the cached apps, if any, are added one by one to the dashboard's list. */
    method NavigateToDashboard()
      modifies this
      ensures currentViewModel == DashboardScreen(cachedApps.GetOr([]))
      ensures cachedApps == old(cachedApps)
    {
      var apps: seq<WindowsApps.AppEntry> := [];
      if cachedApps.Some? {
        var cached := cachedApps.value;
        for i := 0 to |cached|
          invariant apps == cached[..i]
        {
          apps := apps + [cached[i]];
        }
        assert cached[..|cached|] == cached;
      }
      currentViewModel := DashboardScreen(apps);
    }
  }
}

/** The macOS `MainViewModel`. */
module MacShell {
  import opened Text
  import opened Navigation
  import opened SecurityPolicy
  import opened MacCredentials
  import opened LoginGate
  import Welcome
  import MacApps
  import MacSetup
  import MacLogin
  import SetupRules

  /** `currentScreen`; the dashboard is represented by the apps it is opened with. */
  datatype Screen =
    | WelcomeScreen(welcome: Welcome.WelcomeViewModel)
    | SetupScreen(setup: MacSetup.SetupViewModel)
    | LoginScreen(login: MacLogin.LoginViewModel)
    | DashboardScreen(apps: seq<MacApps.AppEntry>)

  function KindOf(s: Screen): ScreenKind {
    match s
    case WelcomeScreen(_) => WelcomeKind
    case SetupScreen(_) => SetupKind
    case LoginScreen(_) => LoginKind
    case DashboardScreen(_) => DashboardKind
  }

  class MainViewModel {
    const authService: MacOSSecurityService
    const securityPolicy: SecurityPolicyService
    var currentScreen: Screen
    /** Empty until the prefetch completes. */
    var cachedApps: seq<MacApps.AppEntry>

    ghost predicate Valid()
      reads this, securityPolicy
    {
      && securityPolicy.Valid()
      && (currentScreen.SetupScreen? ==>
            currentScreen.setup.authService == authService && currentScreen.setup.securityPolicy == securityPolicy)
      && (currentScreen.LoginScreen? ==>
            currentScreen.login.authService == authService && currentScreen.login.securityPolicy == securityPolicy)
    }

    constructor (authService: MacOSSecurityService, securityPolicy: SecurityPolicyService, hour: Welcome.Hour)
      requires securityPolicy.Valid()
      ensures this.authService == authService && this.securityPolicy == securityPolicy
      ensures currentScreen.WelcomeScreen? && fresh(currentScreen.welcome)
      ensures currentScreen.welcome.greeting == Welcome.Greeting(hour)
      ensures cachedApps == [] && Valid()
    {
      this.authService := authService;
      this.securityPolicy := securityPolicy;
      cachedApps := [];
      var welcomeVM := new Welcome.WelcomeViewModel(hour);
      currentScreen := WelcomeScreen(welcomeVM);
    }

    /** `preFetchApps()` completing: the merged scan is cached. */
    method PreFetchApps(applications: Option<seq<string>>, systemApplications: Option<seq<string>>, systemFirst: bool)
      requires Valid()
      modifies this
      ensures Valid() && currentScreen == old(currentScreen)
      ensures var a := if applications.None? then [] else MacApps.Bundles(MacApps.ApplicationsDir, applications.value);
        var s := if systemApplications.None? then [] else MacApps.Bundles(MacApps.SystemApplicationsDir, systemApplications.value);
        cachedApps == MacApps.SortByName(if systemFirst then s + a else a + s)
    {
      var apps := MacApps.GetInstalledApps(applications, systemApplications, systemFirst);
      cachedApps := apps;
    }

    /** The `onNavigationRequested` callback. */
    method OnNavigationRequested()
      requires Valid() && currentScreen.WelcomeScreen?
      modifies this
      ensures Valid() && cachedApps == old(cachedApps)
      ensures KindOf(currentScreen) == Route(old(KindOf(currentScreen)), WelcomeElapsed(authService.IsPasswordSet()))
      ensures currentScreen.SetupScreen? ==>
        fresh(currentScreen.setup) && currentScreen.setup.password == "" && currentScreen.setup.confirmPassword == ""
      ensures currentScreen.LoginScreen? ==>
        fresh(currentScreen.login) && currentScreen.login.password == ""
        && currentScreen.login.attemptsRemaining == Remaining(securityPolicy.State())
    {
      if authService.IsPasswordSet() {
        NavigateToLogin();
      } else {
        NavigateToSetup();
      }
    }

    method NavigateToSetup()
      requires Valid()
      modifies this
      ensures Valid() && cachedApps == old(cachedApps)
      ensures currentScreen.SetupScreen? && fresh(currentScreen.setup)
      ensures currentScreen.setup.password == "" && currentScreen.setup.confirmPassword == ""
    {
      var setupVM := new MacSetup.SetupViewModel(authService, securityPolicy);
      currentScreen := SetupScreen(setupVM);
    }

    method NavigateToLogin()
      requires Valid()
      modifies this
      ensures Valid() && cachedApps == old(cachedApps)
      ensures currentScreen.LoginScreen? && fresh(currentScreen.login)
      ensures currentScreen.login.password == "" && currentScreen.login.attemptsRemaining == Remaining(securityPolicy.State())
    {
      var loginVM := new MacLogin.LoginViewModel(authService, securityPolicy);
      currentScreen := LoginScreen(loginVM);
    }

    /** The setup button, then the `onSetupSuccess` callback when setup succeeded. */
    method SubmitSetup()
      requires Valid() && currentScreen.SetupScreen?
      modifies this, currentScreen.setup, authService
      ensures Valid() && cachedApps == old(cachedApps)
      ensures var ok := SetupRules.MacSetupError(old(currentScreen.setup.password), old(currentScreen.setup.confirmPassword)).None?;
        && KindOf(currentScreen) == Route(SetupKind, SetupSubmitted(ok))
        && (ok ==> authService.keychain == AfterSetPassword(old(authService.keychain), old(currentScreen.setup.password)))
        && (!ok ==> authService.keychain == old(authService.keychain) && currentScreen == old(currentScreen))
      ensures currentScreen.DashboardScreen? ==> currentScreen.apps == cachedApps
    {
      var vm := currentScreen.setup;
      var ok := vm.Setup();
      if ok {
        NavigateToDashboard();
      }
    }

    /** The login button at time `now`, then the `onLoginSuccess` callback when the login succeeded. */
    method SubmitLogin(now: Time)
      requires Valid() && currentScreen.LoginScreen?
      modifies this, currentScreen.login, securityPolicy, authService
      ensures Valid() && cachedApps == old(cachedApps)
      ensures var matches := Matches(old(authService.keychain), old(currentScreen.login.password));
        var o := Decide(old(securityPolicy.State()), now, matches);
        && KindOf(currentScreen) == Route(LoginKind, LoginSubmitted(o == Succeeded))
        && securityPolicy.State() == After(old(securityPolicy.State()), now, matches)
        && (o != Succeeded ==> currentScreen == old(currentScreen))
      ensures currentScreen.DashboardScreen? ==> currentScreen.apps == cachedApps
    {
      var vm := currentScreen.login;
      var ok := vm.Login(now);
      if ok {
        NavigateToDashboard();
      }
    }

    /** `navigateToDashboard()`: a non-empty cache replaces the dashboard's (empty) list. */
    method NavigateToDashboard()
      modifies this
      ensures currentScreen == DashboardScreen(cachedApps) && cachedApps == old(cachedApps)
    {
      var apps: seq<MacApps.AppEntry> := [];
      if cachedApps != [] {
        apps := cachedApps;
      }
      currentScreen := DashboardScreen(apps);
    }
  }
}
