/**
 * The navbar visibility service (src/app/core/services/navbar-visibility.service.ts):
 * the navbar hides on the landing page only while the welcome section is
 * visible, and the back button shows on planet detail routes. Both are
 * Angular computeds: a computed runs on its first read and again only on a
 * read after a signal it read has changed value.
 */
module NavbarVisibility {
  import opened Options
  import opened JsStrings
  import opened Routes
  import NavigationState

  /**
   * A computed's remembered value, with the URL it was computed for. The
   * computeds read `router.url`, which is not a signal: the URL is not a
   * dependency, and the value stays until a signal the computed read
   * changes.
   */
  datatype Memo = Memo(url: string, value: bool)

  /**
   * `_isWelcomeVisible`, and what `shouldShowNavbar` and
   * `shouldShowBackButton` remember; None means the computed runs again at
   * its next read.
   */
  datatype NavbarState = NavbarState(welcomeVisible: bool, navbar: Option<Memo>, backButton: Option<Memo>)

  /** The welcome section starts out visible, and neither computed has run. */
  const InitialNavbarState := NavbarState(true, None, None)

  /**
   * The body of `shouldShowNavbar` for a URL. Only '/' counts as the landing
   * page here: the empty URL shows the navbar whatever the welcome flag says.
   */
  function ShouldShowNavbar(url: string, s: NavbarState): (show: bool)
    ensures url == "/" ==> (show <==> !s.welcomeVisible)
    ensures url != "/" ==> show
    ensures !show <==> url == "/" && s.welcomeVisible
  {
    if url == "/" then !s.welcomeVisible else true
  }

  /** The body of `shouldShowBackButton`: a detail route, "/planets/" and an id without '/'. */
  function ShouldShowBackButton(url: string): (show: bool)
    ensures show <==> StartsWith(url, DetailPrefix) && '/' !in url[|DetailPrefix|..]
  {
    DetailRouteShape(url);
    StartsWith(url, DetailPrefix) && |Split(url, '/')| == 3
  }

  /**
   * `setWelcomeVisibility`: the flag takes the given value. Setting the
   * value already held notifies nobody; a change makes `shouldShowNavbar`
   * run again at its next read. `shouldShowBackButton` read no signal and
   * is never told.
   */
  function SetWelcomeVisibility(s: NavbarState, isVisible: bool): (t: NavbarState)
    ensures IsWelcomeVisible(t) == isVisible
    ensures s.welcomeVisible == isVisible ==> t == s
    ensures s.welcomeVisible != isVisible ==> t.navbar.None?
    ensures t.backButton == s.backButton
  {
    if s.welcomeVisible == isVisible then s
    else s.(welcomeVisible := isVisible, navbar := None)
  }

  /** `isWelcomeVisible`. */
  function IsWelcomeVisible(s: NavbarState): bool {
    s.welcomeVisible
  }

  /** A read of a computed: the state after it and the value read. */
  datatype Read = Read(state: NavbarState, show: bool)

  /**
   * Reading `shouldShowNavbar()` while the router is at `url`, as written: a
   * remembered value is returned and nothing changes; otherwise the body runs
   * at `url` and its value is remembered. Either way the value read is the
   * body's value at the remembered URL, not necessarily at `url`.
   */
  function ReadNavbar(s: NavbarState, url: string): (r: Read)
    ensures s.navbar.Some? ==> r.state == s && r.show == s.navbar.value.value
    ensures s.navbar.None? ==> r.show == ShouldShowNavbar(url, s) && r.state == s.(navbar := Some(Memo(url, r.show)))
    ensures Consistent(s) ==> Consistent(r.state) && r.show == ShouldShowNavbar(r.state.navbar.value.url, s)
  {
    match s.navbar
    case Some(m) => Read(s, m.value)
    case None =>
      var v := ShouldShowNavbar(url, s);
      Read(s.(navbar := Some(Memo(url, v))), v)
  }

  /**
   * Reading `shouldShowBackButton()` while the router is at `url`, as
   * written: the first read runs the body and every later read returns its
   * value.
   */
  function ReadBackButton(s: NavbarState, url: string): (r: Read)
    ensures s.backButton.Some? ==> r.state == s && r.show == s.backButton.value.value
    ensures s.backButton.None? ==> r.show == ShouldShowBackButton(url) && r.state == s.(backButton := Some(Memo(url, r.show)))
    ensures Consistent(s) ==> Consistent(r.state) && r.show == ShouldShowBackButton(r.state.backButton.value.url)
  {
    match s.backButton
    case Some(m) => Read(s, m.value)
    case None =>
      var v := ShouldShowBackButton(url);
      Read(s.(backButton := Some(Memo(url, v))), v)
  }

  /**
   * The reads as evidently intended, with the URL a dependency too (as a
   * signal of the router's events would make it): a remembered value is
   * used only for the URL it was computed for.
   */
  function ReadNavbarTracked(s: NavbarState, url: string): (r: Read)
    ensures r.state.navbar == Some(Memo(url, r.show))
    ensures r.state.welcomeVisible == s.welcomeVisible && r.state.backButton == s.backButton
  {
    match s.navbar
    case Some(m) => if m.url == url then Read(s, m.value) else Read(s.(navbar := Some(Memo(url, ShouldShowNavbar(url, s)))), ShouldShowNavbar(url, s))
    case None => Read(s.(navbar := Some(Memo(url, ShouldShowNavbar(url, s)))), ShouldShowNavbar(url, s))
  }

  function ReadBackButtonTracked(s: NavbarState, url: string): (r: Read)
    ensures r.state.backButton == Some(Memo(url, r.show))
    ensures r.state.welcomeVisible == s.welcomeVisible && r.state.navbar == s.navbar
  {
    match s.backButton
    case Some(m) => if m.url == url then Read(s, m.value) else Read(s.(backButton := Some(Memo(url, ShouldShowBackButton(url)))), ShouldShowBackButton(url))
    case None => Read(s.(backButton := Some(Memo(url, ShouldShowBackButton(url)))), ShouldShowBackButton(url))
  }

  /** Every remembered value is the computed's body for the remembered URL and the current flag. */
  predicate Consistent(s: NavbarState) {
    && (s.navbar.Some? ==> s.navbar.value.value == ShouldShowNavbar(s.navbar.value.url, s))
    && (s.backButton.Some? ==> s.backButton.value.value == ShouldShowBackButton(s.backButton.value.url))
  }

  /** What can happen to the service: the welcome flag is set, or a computed is read at the router's URL. */
  datatype NavbarEvent = WelcomeSet(isVisible: bool) | NavbarRead(url: string) | BackButtonRead(url: string)

  function Step(s: NavbarState, e: NavbarEvent): NavbarState {
    match e
    case WelcomeSet(v) => SetWelcomeVisibility(s, v)
    case NavbarRead(url) => ReadNavbar(s, url).state
    case BackButtonRead(url) => ReadBackButton(s, url).state
  }

  function Run(s: NavbarState, events: seq<NavbarEvent>): NavbarState
    decreases |events|
  {
    if |events| == 0 then s else Run(Step(s, events[0]), events[1..])
  }

  /** The service only ever remembers what its computeds' bodies gave: every event keeps it consistent. */
  lemma {:induction false} RunKeepsConsistent(s: NavbarState, events: seq<NavbarEvent>)
    requires Consistent(s)
    ensures Consistent(Run(s, events))
    decreases |events|
  {
    if |events| > 0 {
      var t := Step(s, events[0]);
      assert Consistent(t);
      RunKeepsConsistent(t, events[1..]);
    }
  }

  /**
   * What a read of `shouldShowNavbar()` reports, as written: the navbar for
   * the URL of the first read since the welcome flag last changed, not for
   * the router's URL now.
   */
  lemma NavbarReadsFirstUrl(s: NavbarState, url: string)
    requires Consistent(s)
    ensures ReadNavbar(s, url).show == ShouldShowNavbar(if s.navbar.Some? then s.navbar.value.url else url, s)
    ensures Consistent(ReadNavbar(s, url).state)
    ensures ReadNavbar(s, url).state.welcomeVisible == s.welcomeVisible
  {
  }

  /** A change of the welcome flag makes the next read of `shouldShowNavbar()` current again. */
  lemma WelcomeChangeRefreshesNavbar(s: NavbarState, v: bool, url: string)
    requires v != s.welcomeVisible
    ensures ReadNavbar(SetWelcomeVisibility(s, v), url).show == ShouldShowNavbar(url, SetWelcomeVisibility(s, v))
  {
  }

  /**
   * `shouldShowBackButton()`, as written, keeps the value of its first read
   * for good: no later event makes it run again.
   */
  lemma {:induction false} BackButtonKeepsFirstRead(s: NavbarState, url: string, events: seq<NavbarEvent>, laterUrl: string)
    requires s.backButton.None?
    ensures var t := Run(ReadBackButton(s, url).state, events);
      ReadBackButton(t, laterUrl).show == ShouldShowBackButton(url)
    decreases |events|
  {
    if |events| > 0 {
      var r := ReadBackButton(s, url).state;
      var t := Step(r, events[0]);
      assert t.backButton == r.backButton;
      BackButtonStaysRemembered(t, events[1..], Memo(url, ShouldShowBackButton(url)));
    }
  }

  /** Once `shouldShowBackButton` has remembered a value, every later event keeps it. */
  lemma {:induction false} BackButtonStaysRemembered(s: NavbarState, events: seq<NavbarEvent>, m: Memo)
    requires s.backButton == Some(m)
    ensures Run(s, events).backButton == Some(m)
    decreases |events|
  {
    if |events| > 0 {
      BackButtonStaysRemembered(Step(s, events[0]), events[1..], m);
    }
  }

  /**
   * Start-up on the landing page, then a planet's page: the back button
   * stays hidden and the navbar keeps its landing-page value, both as
   * first read.
   */
  lemma StaleAfterNavigation()
    ensures var s := ReadBackButton(ReadNavbar(InitialNavbarState, "/").state, "/").state;
      && !ReadBackButton(s, "/planets/1").show
      && !ReadNavbar(s, "/planets/1").show
      && ShouldShowBackButton("/planets/1")
      && ShouldShowNavbar("/planets/1", s)
  {
    assert "/planets/1"[..|DetailPrefix|] == DetailPrefix;
    assert "/planets/1"[|DetailPrefix|..] == "1";
  }

  /** The tracked reads always report the computeds' bodies for the router's URL now, and keep the state consistent. */
  lemma TrackedReadsAreCurrent(s: NavbarState, url: string)
    requires Consistent(s)
    ensures ReadNavbarTracked(s, url).show == ShouldShowNavbar(url, s)
    ensures ReadBackButtonTracked(s, url).show == ShouldShowBackButton(url)
    ensures Consistent(ReadNavbarTracked(s, url).state) && Consistent(ReadBackButtonTracked(s, url).state)
  {
  }

  /** At start-up the navbar is hidden on the landing page and shown everywhere else. */
  lemma InitiallyHiddenOnlyOnHome(url: string)
    ensures ShouldShowNavbar(url, InitialNavbarState) <==> url != "/"
  {
  }

  /**
   * After `setWelcomeVisibility(v)` the navbar's visibility depends on v
   * alone: hidden on '/' exactly when v holds, whatever the flag was.
   */
  lemma VisibilityAfterSet(url: string, s: NavbarState, v: bool)
    ensures ShouldShowNavbar(url, SetWelcomeVisibility(s, v)) <==> url != "/" || !v
    ensures SetWelcomeVisibility(SetWelcomeVisibility(s, v), v) == SetWelcomeVisibility(s, v)
  {
  }

  /**
   * Consistency with the navigation state service: both services put the
   * back button on the same routes, and wherever that service shows
   * navigation this one shows the navbar.
   */
  lemma AgreesWithNavigationState(url: string, s: NavbarState)
    ensures ShouldShowBackButton(url) <==> NavigationState.ShouldShowBackButton(url)
    ensures NavigationState.ShouldShowNavigation(url) ==> ShouldShowNavbar(url, s)
  {
    DetailRouteShape(url);
  }

  /** The empty URL counts as the landing page for the navigation state service but not for the navbar. */
  lemma EmptyUrlShowsNavbar(s: NavbarState)
    ensures ShouldShowNavbar("", s)
    ensures IsHomePage("")
  {
  }
}
