/**
 * The first smart navigation service (src/app/core/services/smart-navigation.ts):
 * the active section, and whether the navigation bar shows on the landing
 * page. Hiding the welcome section does not show the bar at once: it starts a
 * 150 ms timer, and the bar becomes visible when that timer fires. The timer
 * is modelled as a count of pending timers and an explicit `TimerFired` event;
 * nothing ever cancels a pending timer.
 */
module SmartNavigation {
  import opened Options
  import opened NavigationModel
  import NavbarVisibility

  /**
   * The three signals, the pending timers, and what the computed
   * `shouldShowNavigation` remembers (None: it runs again at its next read).
   * It reads `router.url`, which is not a signal, so the URL is not one of
   * its dependencies.
   */
  datatype SmartNavState = SmartNavState(
    activeSection: NavigationSection,
    welcomeVisible: bool,
    navigationVisible: bool,
    pendingTimers: nat,
    navigation: Option<NavbarVisibility.Memo>)

  /** Start section active, welcome visible, navigation not yet visible, no timer running, nothing computed. */
  const InitialSmartNav := SmartNavState(Start, true, false, 0, None)

  /** The body of `shouldShowNavigation`: on '/' and '' only when the welcome section is gone and the timer has set the flag. */
  function ShouldShowNavigation(url: string, s: SmartNavState): (show: bool)
    ensures url != "/" && url != "" ==> show
    ensures url == "/" || url == "" ==> (show <==> !s.welcomeVisible && s.navigationVisible)
  {
    if url == "/" || url == "" then !s.welcomeVisible && s.navigationVisible else true
  }

  /**
   * `setWelcomeVisibility`. The value already held changes nothing. Showing
   * the welcome section hides the navigation at once; hiding it only starts
   * a timer. Either change makes `shouldShowNavigation` run again at its
   * next read.
   */
  function SetWelcomeVisibility(s: SmartNavState, isVisible: bool): (t: SmartNavState)
    ensures s.welcomeVisible == isVisible ==> t == s
    ensures s.welcomeVisible != isVisible ==> t.navigation.None?
    ensures t.welcomeVisible == isVisible && t.activeSection == s.activeSection
    ensures s.welcomeVisible != isVisible && isVisible ==>
      !t.navigationVisible && t.pendingTimers == s.pendingTimers
    ensures s.welcomeVisible != isVisible && !isVisible ==>
      t.navigationVisible == s.navigationVisible && t.pendingTimers == s.pendingTimers + 1
  {
    if s.welcomeVisible == isVisible then s
    else if isVisible then s.(welcomeVisible := true, navigationVisible := false, navigation := None)
    else s.(welcomeVisible := false, pendingTimers := s.pendingTimers + 1, navigation := None)
  }

  /**
   * One pending timer fires and sets the navigation flag, whatever the
   * welcome section does meanwhile. Only a flag that was down counts as a
   * change for `shouldShowNavigation`.
   */
  function TimerFired(s: SmartNavState): (t: SmartNavState)
    ensures s.pendingTimers == 0 ==> t == s
    ensures s.pendingTimers > 0 ==>
      && t.navigationVisible && t.pendingTimers == s.pendingTimers - 1
      && t.activeSection == s.activeSection && t.welcomeVisible == s.welcomeVisible
      && t.navigation == (if s.navigationVisible then s.navigation else None)
  {
    if s.pendingTimers == 0 then s
    else s.(navigationVisible := true, pendingTimers := s.pendingTimers - 1,
            navigation := if s.navigationVisible then s.navigation else None)
  }

  /** `initialize`: the start section becomes active. */
  function Initialize(s: SmartNavState): (t: SmartNavState)
    ensures t.activeSection == Start
    ensures t.(activeSection := s.activeSection) == s
  {
    s.(activeSection := Start)
  }

  /** `setActiveSection`. */
  function SetActiveSection(s: SmartNavState, section: NavigationSection): (t: SmartNavState)
    ensures t.activeSection == section
    ensures t.(activeSection := s.activeSection) == s
  {
    s.(activeSection := section)
  }

  /** A read of `shouldShowNavigation()`: the state after it and the value read. */
  datatype NavRead = NavRead(state: SmartNavState, show: bool)

  /**
   * Reading `shouldShowNavigation()` while the router is at `url`, as
   * written: a remembered value is returned and nothing changes; otherwise
   * the body runs at `url` and its value is remembered. Either way the value
   * read is the body's value at the remembered URL.
   */
  function ReadNavigation(s: SmartNavState, url: string): (r: NavRead)
    ensures s.navigation.Some? ==> r.state == s && r.show == s.navigation.value.value
    ensures s.navigation.None? ==>
      r.show == ShouldShowNavigation(url, s) && r.state == s.(navigation := Some(NavbarVisibility.Memo(url, r.show)))
    ensures Consistent(s) ==> Consistent(r.state) && r.show == ShouldShowNavigation(r.state.navigation.value.url, s)
  {
    match s.navigation
    case Some(m) => NavRead(s, m.value)
    case None =>
      var v := ShouldShowNavigation(url, s);
      NavRead(s.(navigation := Some(NavbarVisibility.Memo(url, v))), v)
  }

  /** The read as evidently intended: a remembered value is used only for the URL it was computed for. */
  function ReadNavigationTracked(s: SmartNavState, url: string): (r: NavRead)
    ensures r.state.navigation == Some(NavbarVisibility.Memo(url, r.show))
    ensures r.state.(navigation := s.navigation) == s
  {
    var v := ShouldShowNavigation(url, s);
    match s.navigation
    case Some(m) => if m.url == url then NavRead(s, m.value) else NavRead(s.(navigation := Some(NavbarVisibility.Memo(url, v))), v)
    case None => NavRead(s.(navigation := Some(NavbarVisibility.Memo(url, v))), v)
  }

  /** The remembered value is the computed's body for the remembered URL and the current signals. */
  predicate Consistent(s: SmartNavState) {
    s.navigation.Some? ==> s.navigation.value.value == ShouldShowNavigation(s.navigation.value.url, s)
  }

  /** What can happen to the service. */
  datatype SmartNavEvent =
    | WelcomeVisibility(isVisible: bool)
    | Fired
    | Initialized
    | SectionSelected(section: NavigationSection)
    | NavigationRead(url: string)

  function Step(s: SmartNavState, e: SmartNavEvent): SmartNavState {
    match e
    case WelcomeVisibility(v) => SetWelcomeVisibility(s, v)
    case Fired => TimerFired(s)
    case Initialized => Initialize(s)
    case SectionSelected(section) => SetActiveSection(s, section)
    case NavigationRead(url) => ReadNavigation(s, url).state
  }

  function Run(s: SmartNavState, events: seq<SmartNavEvent>): SmartNavState
    decreases |events|
  {
    if |events| == 0 then s else Run(Step(s, events[0]), events[1..])
  }

  /** At start-up the navigation is hidden on the landing page and shown on every other URL. */
  lemma InitiallyHiddenOnHome(url: string)
    ensures ShouldShowNavigation(url, InitialSmartNav) <==> url != "/" && url != ""
  {
  }

  /**
   * Until a timer fires, the navigation flag stays down: from a state where it
   * is down, no sequence of events without a timer firing shows the navigation
   * on the landing page.
   */
  lemma {:induction false} HiddenUntilTimerFires(s: SmartNavState, events: seq<SmartNavEvent>)
    requires !s.navigationVisible
    requires forall i :: 0 <= i < |events| ==> !events[i].Fired?
    ensures !Run(s, events).navigationVisible
    ensures !ShouldShowNavigation("/", Run(s, events))
    decreases |events|
  {
    if |events| > 0 {
      var t := Step(s, events[0]);
      assert !t.navigationVisible;
      HiddenUntilTimerFires(t, events[1..]);
    }
  }

  /** Scrolling past the welcome section and then the timer firing shows the navigation on the landing page. */
  lemma HideWelcomeThenTimerShowsNavigation()
    ensures !ShouldShowNavigation("/", SetWelcomeVisibility(InitialSmartNav, false))
    ensures ShouldShowNavigation("/", TimerFired(SetWelcomeVisibility(InitialSmartNav, false)))
  {
  }

  /**
   * A timer started before the welcome section came back still fires. It sets
   * the navigation flag while the welcome section is visible, which keeps the
   * navigation hidden; but the next time the welcome section goes away, the
   * navigation shows at once instead of after the delay.
   */
  lemma StaleTimer()
    ensures var s := TimerFired(SetWelcomeVisibility(SetWelcomeVisibility(InitialSmartNav, false), true));
      && s.navigationVisible && s.welcomeVisible
      && !ShouldShowNavigation("/", s)
      && ShouldShowNavigation("/", SetWelcomeVisibility(s, false))
  {
  }

  /** Section selection and the welcome flag never interfere. */
  lemma SectionIndependentOfVisibility(s: SmartNavState, section: NavigationSection, v: bool, url: string)
    ensures ShouldShowNavigation(url, SetActiveSection(s, section)) == ShouldShowNavigation(url, s)
    ensures SetWelcomeVisibility(s, v).activeSection == s.activeSection
    ensures TimerFired(s).activeSection == s.activeSection
  {
  }

  /** Every event keeps the remembered value consistent with the signals. */
  lemma {:induction false} RunKeepsConsistent(s: SmartNavState, events: seq<SmartNavEvent>)
    requires Consistent(s)
    ensures Consistent(Run(s, events))
    decreases |events|
  {
    if |events| > 0 {
      var t := Step(s, events[0]);
      assert Consistent(t);
      RunKeepsConsistent(t, events[1..]);
    }
  }

  /**
   * What a read of `shouldShowNavigation()` reports, as written: the
   * navigation for the URL of the first read since a signal it reads last
   * changed, not for the router's URL now.
   */
  lemma NavigationReadsFirstUrl(s: SmartNavState, url: string)
    requires Consistent(s)
    ensures ReadNavigation(s, url).show == ShouldShowNavigation(if s.navigation.Some? then s.navigation.value.url else url, s)
    ensures Consistent(ReadNavigation(s, url).state)
  {
  }

  /**
   * Start-up on the landing page, then the planets list: the navigation
   * stays hidden there although the list always shows it, until the welcome
   * flag or the navigation flag changes.
   */
  lemma StaleAfterLeavingHome()
    ensures var s := ReadNavigation(InitialSmartNav, "/").state;
      && !ReadNavigation(s, "/planets").show
      && ShouldShowNavigation("/planets", s)
  {
  }

  /** The tracked read always reports the computed's body for the router's URL now. */
  lemma TrackedReadIsCurrent(s: SmartNavState, url: string)
    requires Consistent(s)
    ensures ReadNavigationTracked(s, url).show == ShouldShowNavigation(url, s)
    ensures Consistent(ReadNavigationTracked(s, url).state)
  {
  }

  /** `findItemByTarget` over the service's two items. */
  function FindItem(targetId: string): (r: Option<NavigationItem>)
    ensures targetId == Welcome.Id() ==> r == Some(StartItem)
    ensures targetId == PlanetsList.Id() ==> r == Some(PlanetsItem)
    ensures r.None? <==> targetId != Welcome.Id() && targetId != PlanetsList.Id()
  {
    ItemTableLookup(targetId);
    FindItemByTarget(NavigationItems, targetId)
  }
}
