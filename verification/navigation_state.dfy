/**
 * The navigation state service (src/app/core/services/navigation-state.service.ts):
 * which navigation to show for a route, and a bounded history of visited
 * routes behind the back button.
 */
module NavigationState {
  import opened JsStrings
  import opened Routes

  /** Entries the history keeps (`slice(-10)`). */
  const MaxHistory := 10

  /** `route === '/planets' || route.startsWith('/planets/')`. */
  predicate ShouldShowNavigation(route: string) {
    route == "/planets" || StartsWith(route, DetailPrefix)
  }

  /** The back button shows on exactly the detail routes. */
  predicate ShouldShowBackButton(route: string) {
    IsPlanetDetailPage(route)
  }

  /** Navigation is hidden on the landing page and shown on the list and on every detail page. */
  lemma NavigationVisibilityByPage(route: string)
    ensures IsHomePage(route) ==> !ShouldShowNavigation(route)
    ensures IsPlanetsListPage(route) ==> ShouldShowNavigation(route)
    ensures IsPlanetDetailPage(route) ==> ShouldShowNavigation(route)
    ensures ShouldShowBackButton(route) ==> !IsPlanetsListPage(route) && !IsHomePage(route)
  {
  }

  /** `_currentRoute`, `_previousRoute` and `_navigationHistory`. */
  datatype NavState = NavState(current: string, previous: string, history: seq<string>)

  const EmptyNavState := NavState("", "", [])

  /** `history.slice(-10)`: the last ten entries, or all of them when there are fewer. */
  function LastEntries(h: seq<string>): (r: seq<string>)
    ensures |r| == if |h| <= MaxHistory then |h| else MaxHistory
    ensures r == h[|h| - |r|..]
  {
    if |h| <= MaxHistory then h else h[|h| - MaxHistory..]
  }

  /**
   * `updateNavigationState(url)`. The current URL again changes nothing.
   * A new URL becomes current, the old current route (when non-empty)
   * becomes previous, and the URL is appended to a history that keeps only
   * its last ten entries.
   */
  function UpdateNavigationState(s: NavState, url: string): (t: NavState)
    ensures url == s.current ==> t == s
    ensures url != s.current ==>
      && t.current == url
      && t.previous == (if s.current != "" then s.current else s.previous)
      && 1 <= |t.history| <= MaxHistory
      && |t.history| <= |s.history| + 1
      && t.history[|t.history| - 1] == url
      && t.history == (s.history + [url])[|s.history| + 1 - |t.history|..]
      && (|s.history| < MaxHistory ==> t.history == s.history + [url])
  {
    if s.current == url then s
    else
      var previous := if s.current != "" then s.current else s.previous;
      NavState(url, previous, LastEntries(s.history + [url]))
  }

  /** The constructor's two updates with the router's URL come down to one. */
  lemma InitialUpdatesCollapse(url: string)
    ensures UpdateNavigationState(UpdateNavigationState(EmptyNavState, url), url)
         == UpdateNavigationState(EmptyNavState, url)
  {
  }

  predicate CanGoBack(s: NavState) {
    |s.history| > 1
  }

  /** `backButtonText`: where the back button leads, judged from the second-to-last history entry. */
  function BackButtonText(s: NavState): (text: string)
    ensures |s.history| < 2 ==> text == "Back"
    ensures |s.history| >= 2 && IsHomePage(s.history[|s.history| - 2]) ==> text == "Home"
    ensures |s.history| >= 2 && IsPlanetsListPage(s.history[|s.history| - 2]) ==> text == "Planets"
    ensures text in {"Back", "Home", "Planets"}
    ensures text == "Back" <==> !CanGoBack(s) || !(IsHomePage(s.history[|s.history| - 2]) || IsPlanetsListPage(s.history[|s.history| - 2]))
  {
    if |s.history| < 2 then "Back"
    else
      var previousRoute := s.history[|s.history| - 2];
      if previousRoute == "/" || previousRoute == "" then "Home"
      else if previousRoute == "/planets" then "Planets"
      else "Back"
  }

  /** Where `goBack` sends the user. */
  datatype BackTarget = NavigateTo(route: string) | BrowserBack

  /**
   * `goBack`. With more than one history entry the last entry is dropped and
   * the one before it is the target. Otherwise the history is untouched and
   * the browser goes back when its own history has more than one entry
   * (`browserHistoryLength` stands for `window.history.length`), else to '/'.
   * Current and previous route are left to the router's next event.
   */
  function GoBack(s: NavState, browserHistoryLength: int): (r: (NavState, BackTarget))
    ensures r.0.current == s.current && r.0.previous == s.previous
    ensures CanGoBack(s) ==>
      && r.0.history == s.history[..|s.history| - 1]
      && r.1 == NavigateTo(s.history[|s.history| - 2])
    ensures !CanGoBack(s) ==> r.0 == s
    ensures !CanGoBack(s) && browserHistoryLength > 1 ==> r.1 == BrowserBack
    ensures !CanGoBack(s) && browserHistoryLength <= 1 ==> r.1 == NavigateTo("/")
  {
    if |s.history| > 1 then
      (s.(history := s.history[..|s.history| - 1]), NavigateTo(s.history[|s.history| - 2]))
    else if browserHistoryLength > 1 then (s, BrowserBack)
    else (s, NavigateTo("/"))
  }

  /** `reset`: no current or previous route and no history. */
  function Reset(s: NavState): (t: NavState)
    ensures t.current == "" && t.previous == "" && |t.history| == 0
  {
    EmptyNavState
  }

  /** The operations on the history. */
  datatype NavEvent = RouteChanged(url: string) | WentBack(browserHistoryLength: int) | WasReset

  function Step(s: NavState, e: NavEvent): NavState {
    match e
    case RouteChanged(url) => UpdateNavigationState(s, url)
    case WentBack(n) => GoBack(s, n).0
    case WasReset => Reset(s)
  }

  function Run(s: NavState, events: seq<NavEvent>): NavState
    decreases |events|
  {
    if |events| == 0 then s else Run(Step(s, events[0]), events[1..])
  }

  /** Whatever happens, the history never holds more than ten entries. */
  lemma {:induction false} HistoryStaysBounded(s: NavState, events: seq<NavEvent>)
    requires |s.history| <= MaxHistory
    ensures |Run(s, events).history| <= MaxHistory
    decreases |events|
  {
    if |events| > 0 {
      HistoryStaysBounded(Step(s, events[0]), events[1..]);
    }
  }

  /** Below ten entries, a new URL is simply appended to the history. */
  lemma UpdateBelowCapacity(s: NavState, url: string)
    requires url != s.current && |s.history| < MaxHistory
    ensures UpdateNavigationState(s, url) == NavState(url, if s.current != "" then s.current else s.previous, s.history + [url])
  {
  }

  /** Two visits in a row below capacity: the second page is current, the first previous, both appended to the history. */
  lemma TwoVisits(s: NavState, a: string, b: string)
    requires a != s.current && a != "" && b != a && |s.history| + 1 < MaxHistory
    ensures var t := UpdateNavigationState(UpdateNavigationState(s, a), b);
      t.current == b && t.previous == a && t.history == s.history + [a, b]
  {
    var s1 := UpdateNavigationState(s, a);
    UpdateBelowCapacity(s, a);
    UpdateBelowCapacity(s1, b);
  }

  /** '/' then a planet's page, from any earlier state below capacity: the back button shows and reads "Home". */
  lemma HomeToDetailBackButton(s: NavState, url: string)
    requires s.current != "/" && |s.history| + 1 < MaxHistory && IsPlanetDetailPage(url)
    ensures var t := UpdateNavigationState(UpdateNavigationState(s, "/"), url);
      ShouldShowBackButton(t.current) && BackButtonText(t) == "Home"
  {
    assert url != "/" by {
      assert |"/"| < |DetailPrefix| <= |url|;
    }
    TwoVisits(s, "/", url);
  }

  /**
   * Going back from that planet targets '/'. When the router then reports
   * '/', the update appends it once more, so the history ends in '/' twice.
   */
  lemma HomeToDetailGoBack(s: NavState, url: string, browserHistoryLength: int, browserUrl: string)
    requires s.current != "/" && |s.history| + 1 < MaxHistory && IsPlanetDetailPage(url)
    ensures var t := UpdateNavigationState(UpdateNavigationState(s, "/"), url);
      && GoBack(t, browserHistoryLength).1 == NavigateTo("/")
      && GoBack(t, browserHistoryLength).0.history == s.history + ["/"]
      && GoBackAndArrive(t, browserHistoryLength, browserUrl).current == "/"
      && GoBackAndArrive(t, browserHistoryLength, browserUrl).history == s.history + ["/", "/"]
  {
    assert url != "/" by {
      assert |"/"| < |DetailPrefix| <= |url|;
    }
    BackBetweenPagesStalls(s, "/", url, browserHistoryLength, browserUrl);
    TwoVisits(s, "/", url);
    var t := UpdateNavigationState(UpdateNavigationState(s, "/"), url);
    assert t.history[..|t.history| - 1] == s.history + ["/"];
  }

  /**
   * The back button names the page visited before the current one: after
   * visiting `a` and then a different `b`, it reads 'Home' when `a` is the
   * landing page, 'Planets' when it is the list and 'Back' otherwise, also
   * once the history is full.
   */
  lemma BackTextNamesPreviousPage(s: NavState, a: string, b: string)
    requires a != s.current && b != a
    ensures BackButtonText(UpdateNavigationState(UpdateNavigationState(s, a), b))
         == if IsHomePage(a) then "Home" else if IsPlanetsListPage(a) then "Planets" else "Back"
  {
    PreviousEntryAfterTwoVisits(s, a, b);
  }

  /** After a visit to `a` and then to a different `b`, the history has two entries or more and `a` is second to last. */
  lemma PreviousEntryAfterTwoVisits(s: NavState, a: string, b: string)
    requires a != s.current && b != a
    ensures var h := UpdateNavigationState(UpdateNavigationState(s, a), b).history;
      |h| >= 2 && h[|h| - 2] == a
  {
    PreviousEntryAfterVisit(UpdateNavigationState(s, a), b);
  }

  /** After a visit to a new URL, the entry that ended the history is second to last. */
  lemma PreviousEntryAfterVisit(s: NavState, b: string)
    requires |s.history| >= 1 && b != s.current
    ensures var h := UpdateNavigationState(s, b).history;
      |h| >= 2 && h[|h| - 2] == s.history[|s.history| - 1]
  {
    LastEntriesKeepsPrevious(s.history, b);
  }

  /** Appending to a non-empty history and keeping the last ten leaves the old last entry second to last. */
  lemma LastEntriesKeepsPrevious(h: seq<string>, x: string)
    requires |h| >= 1
    ensures var r := LastEntries(h + [x]);
      |r| >= 2 && r[|r| - 2] == h[|h| - 1]
  {
    var e := h + [x];
    var r := LastEntries(e);
    assert r[|r| - 2] == e[|e| - 2];
  }

  // ---------------------------------------------------------------------
  // Going back, then arriving

  /**
   * The router event a back step causes: the subscription hands the page
   * arrived at to `updateNavigationState`. `browserUrl` is the page the
   * browser's own back step lands on.
   */
  function Arrive(s: NavState, target: BackTarget, browserUrl: string): (t: NavState)
    ensures t.current == (if target.NavigateTo? then target.route else browserUrl)
  {
    match target
    case NavigateTo(route) => UpdateNavigationState(s, route)
    case BrowserBack => UpdateNavigationState(s, browserUrl)
  }

  /** `goBack` followed by the router's report of the page it led to, which becomes current. */
  function GoBackAndArrive(s: NavState, browserHistoryLength: int, browserUrl: string): (t: NavState)
    ensures CanGoBack(s) ==> t.current == s.history[|s.history| - 2]
    ensures !CanGoBack(s) && browserHistoryLength > 1 ==> t.current == browserUrl
    ensures !CanGoBack(s) && browserHistoryLength <= 1 ==> t.current == "/"
  {
    var r := GoBack(s, browserHistoryLength);
    Arrive(r.0, r.1, browserUrl)
  }

  /**
   * The history the service keeps when only its own updates touch it: at
   * most ten entries, the last one the current route, and no entry repeated
   * right after itself.
   */
  predicate Coherent(s: NavState) {
    && |s.history| <= MaxHistory
    && (|s.history| > 0 ==> s.history[|s.history| - 1] == s.current)
    && (forall i :: 0 <= i < |s.history| - 1 ==> DiffersFromNext(s.history, i))
  }

  /** Entry `i` of `h` has a next entry, and the two differ. */
  predicate DiffersFromNext(h: seq<string>, i: int) {
    0 <= i < |h| - 1 && h[i] != h[i + 1]
  }

  /** Route changes and resets keep the history coherent. */
  lemma UpdateKeepsCoherent(s: NavState, url: string)
    requires Coherent(s)
    ensures Coherent(UpdateNavigationState(s, url))
    ensures Coherent(Reset(s))
  {
    if url != s.current {
      var e := s.history + [url];
      forall i | 0 <= i < |e| - 1
        ensures DiffersFromNext(e, i)
      {
        if i == |s.history| - 1 {
          assert e[i] == s.current;
        } else {
          assert DiffersFromNext(s.history, i);
        }
      }
      var t := UpdateNavigationState(s, url);
      var k := |e| - |t.history|;
      assert t.history == e[k..];
      forall i | 0 <= i < |t.history| - 1
        ensures DiffersFromNext(t.history, i)
      {
        assert DiffersFromNext(e, k + i);
        assert t.history[i] == e[k + i] && t.history[i + 1] == e[k + i + 1];
      }
    }
  }

  /**
   * Between two pages, going back stalls: after visiting `a` and then `b`,
   * going back drops `b` and leads to `a`, and arriving at `a` appends `a`
   * again. The history then holds `a` twice in a row, and the next back
   * step targets the page already shown.
   */
  lemma BackBetweenPagesStalls(s: NavState, a: string, b: string, browserHistoryLength: int, browserUrl: string)
    requires a != s.current && a != "" && b != a && |s.history| + 1 < MaxHistory
    ensures var t := GoBackAndArrive(UpdateNavigationState(UpdateNavigationState(s, a), b), browserHistoryLength, browserUrl);
      && t.current == a
      && t.history == s.history + [a, a]
      && !Coherent(t)
      && GoBack(t, browserHistoryLength).1 == NavigateTo(t.current)
  {
    TwoVisits(s, a, b);
    var v := UpdateNavigationState(UpdateNavigationState(s, a), b);
    var r := GoBack(v, browserHistoryLength);
    assert r.0.history == s.history + [a];
    assert r.0.current == b;
    UpdateBelowCapacity(r.0, a);
    var t := GoBackAndArrive(v, browserHistoryLength, browserUrl);
    assert t.history == s.history + [a] + [a];
    assert !DiffersFromNext(t.history, |t.history| - 2);
  }

  /**
   * `goBack` as evidently intended: the arrival at the target appends it
   * again, so both the current entry and the target's entry are dropped
   * first.
   */
  function GoBackCorrected(s: NavState, browserHistoryLength: int): (r: (NavState, BackTarget))
    ensures r.0.current == s.current && r.0.previous == s.previous
    ensures CanGoBack(s) ==>
      && r.0.history == s.history[..|s.history| - 2]
      && r.1 == NavigateTo(s.history[|s.history| - 2])
    ensures !CanGoBack(s) ==> r == GoBack(s, browserHistoryLength)
  {
    if |s.history| > 1 then
      (s.(history := s.history[..|s.history| - 2]), NavigateTo(s.history[|s.history| - 2]))
    else GoBack(s, browserHistoryLength)
  }

  /**
   * The corrected back step followed by its router event. Whatever the
   * history holds, a back step inside it lands on the entry before the last.
   */
  function GoBackCorrectedAndArrive(s: NavState, browserHistoryLength: int, browserUrl: string): (t: NavState)
    ensures CanGoBack(s) ==> t.current == s.history[|s.history| - 2]
  {
    var r := GoBackCorrected(s, browserHistoryLength);
    Arrive(r.0, r.1, browserUrl)
  }

  /**
   * With the corrected back step, going back then arriving undoes the last
   * visit: the history loses exactly its last entry, the page before it is
   * current, and the history stays coherent.
   */
  lemma GoBackRestoresHistory(s: NavState, browserHistoryLength: int, browserUrl: string)
    requires Coherent(s) && CanGoBack(s)
    ensures var t := GoBackCorrectedAndArrive(s, browserHistoryLength, browserUrl);
      && t.current == s.history[|s.history| - 2]
      && t.history == s.history[..|s.history| - 1]
      && Coherent(t)
  {
    var h := s.history;
    var n := |h|;
    var r := GoBackCorrected(s, browserHistoryLength);
    assert DiffersFromNext(h, n - 2);
    assert r.0.current != h[n - 2];
    UpdateBelowCapacity(r.0, h[n - 2]);
    var t := GoBackCorrectedAndArrive(s, browserHistoryLength, browserUrl);
    assert t.history == h[..n - 2] + [h[n - 2]];
    assert t.history == h[..n - 1];
    PrefixKeepsCoherent(s, t);
  }

  /** A prefix of a coherent history, ending at its last entry as current, is coherent. */
  lemma PrefixKeepsCoherent(s: NavState, t: NavState)
    requires Coherent(s)
    requires 1 <= |t.history| <= |s.history| && t.history == s.history[..|t.history|]
    requires t.current == t.history[|t.history| - 1]
    ensures Coherent(t)
  {
    forall i | 0 <= i < |t.history| - 1
      ensures DiffersFromNext(t.history, i)
    {
      assert DiffersFromNext(s.history, i);
      assert t.history[i] == s.history[i] && t.history[i + 1] == s.history[i + 1];
    }
  }
}
