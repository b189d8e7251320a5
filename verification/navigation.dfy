/**
 * The application shell: which screen is showing, whether the user is logged in (and as a
 * guest), the auth form's mode, the notifications switch and the item an overlay is editing.
 * The prototype shell has the same state and the same handlers over a smaller set of screens.
 */
module Navigation {
  import opened Wrappers

  /** `ScreenName`. */
  datatype Screen =
    | AuthLogin | AuthRegister | AuthForgot
    | Calendar | Data | Profile
    | AddTransfusion | EditTransfusion | AddAnalysis | EditAnalysis | AddReminder | EditReminder
    | LegalTerms | LegalPrivacy | ChangePassword | ShareData | MyData
    | AddAnalysisTemplate | OnboardingScreen

  /** `'login' | 'register' | 'forgot'`. */
  datatype AuthMode = LoginMode | RegisterMode | ForgotMode

  /** The `type` argument of `handleEditItem`. */
  datatype EditKind = TransfusionKind | AnalysisKind | ReminderKind

  /** The three tabs of the bottom bar. */
  const TABS: seq<Screen> := [Calendar, Data, Profile]

  predicate IsTab(s: Screen)
  {
    s in TABS
  }

  /** The edit overlay `handleEditItem` opens for each kind of item. */
  function EditScreen(kind: EditKind): (s: Screen)
    ensures !IsTab(s) && s != AuthLogin
    ensures s == EditTransfusion || s == EditAnalysis || s == EditReminder
  {
    match kind
    case TransfusionKind => EditTransfusion
    case AnalysisKind => EditAnalysis
    case ReminderKind => EditReminder
  }

  /** Each kind of item has its own overlay. */
  lemma EditScreenInjective(a: EditKind, b: EditKind)
    ensures EditScreen(a) == EditScreen(b) <==> a == b
  {
  }

  /** The shell's state; `Item` is whatever record an overlay is opened on. */
  class App<Item> {
    var screen: Screen
    var authMode: AuthMode
    var loggedIn: bool
    var guest: bool
    var notificationsEnabled: bool
    var editing: Option<Item>

    /** The state the app starts in. */
    constructor ()
      ensures screen == AuthLogin && authMode == LoginMode
      ensures !loggedIn && !guest && !notificationsEnabled && editing == None
    {
      screen := AuthLogin;
      authMode := LoginMode;
      loggedIn := false;
      guest := false;
      notificationsEnabled := false;
      editing := None;
    }

    /** `showBottomNav`. */
    function ShowBottomNav(): (b: bool)
      reads this
      ensures b <==> loggedIn && (screen == Calendar || screen == Data || screen == Profile)
    {
      loggedIn && IsTab(screen)
    }

    /** `handleLogin`. */
    method Login()
      modifies this
      ensures loggedIn && !guest && screen == Calendar
      ensures authMode == old(authMode) && notificationsEnabled == old(notificationsEnabled) && editing == old(editing)
    {
      loggedIn := true;
      guest := false;
      screen := Calendar;
    }

    /** `handleGuestLogin`. */
    method GuestLogin()
      modifies this
      ensures loggedIn && guest && screen == Calendar
      ensures authMode == old(authMode) && notificationsEnabled == old(notificationsEnabled) && editing == old(editing)
    {
      loggedIn := true;
      guest := true;
      screen := Calendar;
    }

    /** `handleLogout`: the editing item and the notifications switch are left as they were. */
    method Logout()
      modifies this
      ensures !loggedIn && !guest && screen == AuthLogin && authMode == LoginMode
      ensures notificationsEnabled == old(notificationsEnabled) && editing == old(editing)
    {
      loggedIn := false;
      guest := false;
      screen := AuthLogin;
      authMode := LoginMode;
    }

    /** `handleEditItem(type, item)`. */
    method EditItem(kind: EditKind, item: Item)
      modifies this
      ensures editing == Some(item) && screen == EditScreen(kind)
      ensures loggedIn == old(loggedIn) && guest == old(guest) && authMode == old(authMode)
      ensures notificationsEnabled == old(notificationsEnabled)
    {
      editing := Some(item);
      if kind == TransfusionKind { screen := EditTransfusion; }
      if kind == AnalysisKind { screen := EditAnalysis; }
      if kind == ReminderKind { screen := EditReminder; }
    }

    /** `handleCloseOverlay`: whichever screen the overlay came from, it returns to the data screen. */
    method CloseOverlay()
      modifies this
      ensures editing == None && screen == Data
      ensures loggedIn == old(loggedIn) && guest == old(guest) && authMode == old(authMode)
      ensures notificationsEnabled == old(notificationsEnabled)
    {
      editing := None;
      screen := Data;
    }

    /**
     * `setCurrentScreen`, as the screens' `onNavigate`, the bottom bar's buttons and the add
     * overlays' `onClose` call it.
     */
    method Navigate(s: Screen)
      modifies this
      ensures screen == s
      ensures loggedIn == old(loggedIn) && guest == old(guest) && authMode == old(authMode)
      ensures notificationsEnabled == old(notificationsEnabled) && editing == old(editing)
    {
      screen := s;
    }

    /** `setAuthMode`, which the auth screen calls to switch between its forms. */
    method SetAuthMode(m: AuthMode)
      modifies this
      ensures authMode == m
      ensures screen == old(screen) && loggedIn == old(loggedIn) && guest == old(guest)
      ensures notificationsEnabled == old(notificationsEnabled) && editing == old(editing)
    {
      authMode := m;
    }
  }

  /** Before anyone logs in the bar is hidden; either login shows it, on the calendar. */
  method LoginShowsBottomNav(asGuest: bool) returns (before: bool, after: bool, screen: Screen, guest: bool)
    ensures !before && after && screen == Calendar && guest == asGuest
  {
    var app := new App<int>();
    before := app.ShowBottomNav();
    if asGuest {
      app.GuestLogin();
    } else {
      app.Login();
    }
    after := app.ShowBottomNav();
    screen, guest := app.screen, app.guest;
  }

  /** Logging out from any tab hides the bar and returns to the login form, guest or not. */
  method LogoutHidesBottomNav(asGuest: bool, tab: Screen) returns (before: bool, after: bool, screen: Screen, mode: AuthMode)
    requires IsTab(tab)
    ensures before && !after && screen == AuthLogin && mode == LoginMode
  {
    var app := new App<int>();
    if asGuest {
      app.GuestLogin();
    } else {
      app.Login();
    }
    app.Navigate(tab);
    before := app.ShowBottomNav();
    app.Logout();
    after := app.ShowBottomNav();
    screen, mode := app.screen, app.authMode;
  }

  /**
   * Opening an item hides the bar while its overlay is up; closing the overlay forgets the
   * item and lands on the data screen with the bar back, whichever tab the item was opened from.
   */
  method EditThenClose<Item>(tab: Screen, kind: EditKind, item: Item) returns (during: bool, after: bool, screen: Screen, editing: Option<Item>)
    requires IsTab(tab)
    ensures !during && after && screen == Data && editing == None
  {
    var app := new App<Item>();
    app.Login();
    app.Navigate(tab);
    app.EditItem(kind, item);
    during := app.ShowBottomNav();
    assert app.editing == Some(item);
    app.CloseOverlay();
    after := app.ShowBottomNav();
    screen, editing := app.screen, app.editing;
  }
}
