# Star Wars planets explorer — a Dafny model of its core

The application is an Angular front end that pages through the planets of
the Star Wars API and shows them as cards, a detail page and a landing
page with a section menu. This project models its core as pure Dafny
functions over immutable state and proves properties of them:

- **The planets store** (`PlanetsStore`, `PlanetModel`). It has a guarded
  `loadPlanets` that begins a request, and a completion step that appends a
  page, records "No planets found" or records the error message. Traces of
  loads and responses are replayed by `Run`.
- **The planets list and planet details pages** (`PlanetsList`,
  `PlanetDetails`). The list derives its view flags from the store and
  decides which loads to ask for. The details page looks a planet up by uid
  and derives its transition names.
- **Routes and navigation** (`Routes`, `NavigationState`, `NavbarVisibility`,
  `SmartNavigation`, `SmartNavigationService`, `NavigationModel`). This
  covers:
  - classifying a URL;
  - the bounded history behind the back button;
  - when the navigation bar shows on the landing page, including the
    150 ms timer that reveals it;
  - picking the active section from the intersection observer's entries.
- **The scroll position cache** (`ScrollPosition`). It holds at most
  twenty routes with a ten-minute time to live. When full, it evicts
  expired entries first and then the oldest.
- **The data formatters** (`PlanetData`, `PlanetViewModel`). The first pair
  of services turns a planet into titled sections of labelled fields. The
  second pair builds the detail page's view model, in which 'unknown' and
  'n/a' count as missing. The Spanish and English copies of each service
  share their logic. They differ only in a table of texts (`Labels`) or a
  `Language` argument.
- **The planet sphere** (`PlanetSphere`, `PlanetSphereComponent`). A fixed
  chain of keyword rules picks one of twelve looks from climate and
  terrain. The second component falls back to a hash of the name. Each
  look has its CSS classes.

Some parameters stand in for the runtime:
- the API is a function from the requested URL to its response, a
  `FetchOutcome`;
- the clock is a `now` argument;
- `window.history.length` is an integer argument;
- the page the browser's own back step lands on is a `browserUrl` argument;
- `parseFloat`, the printing of a float, `toFixed(1)`, `toLocaleString` and
  `toLocaleDateString` are fields of a `LocaleOps` or `NumberOps` value.

`JsStrings` models `parseInt` on decimal text, `trim`, `split`, `join`,
`includes`, `startsWith` and ASCII case mapping. Numbers there are
unbounded integers, not IEEE doubles (see "Left out").

TypeScript tells a planet's shape by which keys the object has. So every
view function takes a field-presence `Record`, a map from the keys present
to their strings. `PlanetModel.AsRecord` gives the record of each member of
the `Planet` union.

Behaviour of the code worth knowing before reading the model:
- the store keeps duplicate planets, and it does not refuse a second
  request while one is in flight;
- the navbar service treats only '/' as the landing page, while the
  navigation state service also counts the empty URL as the landing page;
- the computeds of the navbar service and of the first smart navigation
  service read `router.url`, which is not a signal, so they remember the
  URL of their first read (see "Findings");
- going back between two pages puts the target into the history twice
  (see "Findings");
- the planets service requests the API's base URL whatever URL the store
  hands it, so loading more receives the first page again (see "Findings").

## Model

| member | source | states |
|---|---|---|
| PlanetModel.AsRecord | src/app/features/planets/models/planet.model.ts:1-31 | A summary has exactly uid, name and url; a detail has every key but uid; a detail with uid has all thirteen keys. |
| PlanetModel.TransitionNamesIdentifyUid | src/app/features/planets/pages/planet-details/planet-details.ts:33-46 | The card, sphere and title transition names each determine the uid, and the three names of one planet differ from each other. |
| PlanetsStore.LoadPlanets | src/app/features/planets/store/planets.store.ts:20-33 | A call is dropped exactly when no URL is given and planets are already held. Otherwise the store is loading with no error and nothing else changes. The store passes the given URL, or else the stored cursor, to the request. |
| PlanetsStore.FailureMessage | src/app/features/planets/store/planets.store.ts:55-62 | The recorded error is never empty, and it is the error's own message whenever that message is non-empty. |
| PlanetsStore.Complete | src/app/features/planets/store/planets.store.ts:35-63 | A non-empty page is appended in order after the planets already held and its cursor replaces the old one. A missing or empty page, or a failure, leaves planets and cursor unchanged and records a non-empty error. Loading always ends; the selected planet is untouched. |
| PlanetsStore.RunAppend | src/app/features/planets/store/planets.store.ts:20-65 | Replaying two event traces one after the other equals replaying their concatenation. |
| PlanetsStore.Run | src/app/features/planets/store/planets.store.ts:20-65 | Replays loads and responses in order; `PlanetsStore.RunAppend`, `RunKeepsSelectedPlanet` and `RunKeepsPlanetsPrefix` state what every trace keeps. |
| PlanetsStore.HasPlanets | src/app/features/planets/components/planets-list/planets-list.ts:31-49 | The list's `hasPlanets()`: planets are held. |
| PlanetsStore.HasError | src/app/features/planets/components/planets-list/planets-list.ts:37-39 | The list's `hasError()`: an error is recorded. |
| PlanetsStore.IsLastPage | src/app/features/planets/components/planets-list/planets-list.ts:43-49 | The list's `isLastPage()`: no further cursor. |
| PlanetsStore.LoadWithoutUrlIsNoOp | src/app/features/planets/store/planets.store.ts:21-23 | Once planets are held, a load without a URL leaves the whole store unchanged. |
| PlanetsStore.NoInFlightGuard | src/app/features/planets/store/planets.store.ts:20-31 | A load with a URL starts even while another load is in flight. |
| PlanetsStore.RunKeepsSelectedPlanet | src/app/features/planets/store/planets.store.ts:20-65 | No trace of loads and responses ever changes the selected planet. |
| PlanetsStore.RunKeepsPlanetsPrefix | src/app/features/planets/store/planets.store.ts:45-53 | Planets are only appended: after any trace, the planets held before are still at the front, in place. |
| PlanetsStore.TwoPageScenario | src/app/features/planets/store/planets.store.ts:20-65 | From the empty store, a load with no URL that receives a ten-planet page, then a load given its cursor that receives a five-planet last page, leaves fifteen planets in order, on the last page, with no error. |
| PlanetsStore.SamePageTwiceIsKeptTwice | src/app/features/planets/store/planets.store.ts:45-53 | The store does not remove duplicates: a page delivered twice is held twice. |
| PlanetsStore.InitialStoreSignals | src/app/features/planets/models/planet.model.ts:89-95 | The empty store holds nothing, is not loading, has no error or cursor, and its first load starts with no URL. |
| PlanetsStore.RequestedUrl | src/app/features/planets/services/planets.ts:8-14 | As written, the request is for the API's base URL whatever URL the store hands on; `PlanetsStore.RoundTripIgnoresUrl` states the consequence. |
| PlanetsStore.RoundTripIgnoresUrl | src/app/features/planets/store/planets.store.ts:31-33 | As written, every load that starts receives the base URL's response, and after a successful one the cursor is the first page's, whatever URL was given. |
| PlanetsStore.LoadMoreRepeatsFirstPage | src/app/features/planets/store/planets.store.ts:31-53 | As written, loading more after the first page appends the first page again and leaves the cursor where it was. |
| PlanetsStore.RequestedUrlCorrected | src/app/features/planets/services/planets.ts:12-14 | The intended request: the URL handed on, or the base URL when none is. |
| PlanetsStore.LoadCursorFetchesItsPage | src/app/features/planets/store/planets.store.ts:31-53 | With the intended request, loading the cursor appends the page the API serves there and moves the cursor to that page's `next`. |
| PlanetsStore.TwoPagesThroughApi | src/app/features/planets/store/planets.store.ts:20-65 | With the intended request, the first page and then its cursor's last page leave both pages in order and no cursor. |
| PlanetsList.LoadingStateOf | src/app/features/planets/components/planets-list/planets-list.ts:31-35 | The indicator is 'none' exactly when not loading, 'initial' exactly when loading with no planets, 'more' exactly when loading with planets. |
| PlanetsList.ViewFlags | src/app/features/planets/components/planets-list/planets-list.ts:37-49 | The error view never shows during a load. With planets held, exactly one of the scroll sentinel and the end view shows; with none held, neither does. |
| PlanetsList.ShowError | src/app/features/planets/components/planets-list/planets-list.ts:37-39 | The error view shows when an error is recorded and no load is running; `PlanetsList.ViewFlags` relates the flags. |
| PlanetsList.ShowInfinityScroll | src/app/features/planets/components/planets-list/planets-list.ts:43-45 | The sentinel shows while planets are held and a further page exists. |
| PlanetsList.ShowEndState | src/app/features/planets/components/planets-list/planets-list.ts:47-49 | The end view shows when planets are held and no further page exists. |
| PlanetsList.LoadMorePlanets | src/app/features/planets/components/planets-list/planets-list.ts:55-61 | More is requested exactly when there is a non-empty cursor and no load in progress, and the request passes that cursor. |
| PlanetsList.LoadMoreAlwaysFetchesCursor | src/app/features/planets/components/planets-list/planets-list.ts:55-61 | Every request to load more passes the store's guard, and the store hands the stored cursor to the request. |
| PlanetsList.OnInit | src/app/features/planets/components/planets-list/planets-list.ts:51-53 | The page's initial load starts exactly when the store holds no planets. |
| PlanetsList.RetryLoadingAsWritten | src/app/features/planets/components/planets-list/planets-list.ts:66-69 | The retry as written is dropped whenever planets are held, and otherwise starts a load that hands on the cursor. |
| PlanetsList.RetryAfterFailedLoadMoreIsDropped | src/app/features/planets/components/planets-list/planets-list.ts:66-69 | After a failed load-more the error shows, and the retry as written does nothing. |
| PlanetsList.RetryLoading | src/app/features/planets/components/planets-list/planets-list.ts:66-69 | The corrected retry hands on the stored cursor whenever there is one, and starts a first load when nothing is held. |
| PlanetsList.RetryAfterFailedLoadMoreRefetches | src/app/features/planets/components/planets-list/planets-list.ts:66-69 | After a failed load-more the corrected retry hands the same cursor on again. |
| PlanetsList.TrackByPlanet | src/app/features/planets/components/planets-list/planets-list.ts:75-82 | The key is the uid when it is non-empty, otherwise the name (or 'unknown') followed by '-' and the index. |
| PlanetsList.TrackByPlanetSeparatesPositions | src/app/features/planets/components/planets-list/planets-list.ts:75-82 | Two uid-less rows with the same name at different positions get different keys. |
| PlanetDetails.FindIndex | src/app/features/planets/pages/planet-details/planet-details.ts:19-24 | The first position whose planet has a uid key equal to the id; none exactly when no planet has it. |
| PlanetDetails.FindPlanet | src/app/features/planets/pages/planet-details/planet-details.ts:19-24 | The planet found is in the store, has the requested uid, and no earlier planet has it; nothing is found exactly when no planet matches. |
| PlanetDetails.RecordsWithoutUidNeverMatch | src/app/features/planets/pages/planet-details/planet-details.ts:21-23 | A detail record without a uid key is never found, whatever id is requested. |
| PlanetDetails.FoundUid | src/app/features/planets/pages/planet-details/planet-details.ts:27-30 | A uid is read exactly when a planet was found and it has a uid key. |
| PlanetDetails.PlanetUid | src/app/features/planets/pages/planet-details/planet-details.ts:27-30 | The uid shown is the requested id when a planet matched, 'N/A' otherwise. |
| PlanetDetails.PageTransitions | src/app/features/planets/pages/planet-details/planet-details.ts:33-46 | With a match, the three names are their prefixes followed by the requested uid; without one, all three are empty. |
| PlanetDetails.OnInit | src/app/features/planets/pages/planet-details/planet-details.ts:48-53 | The first page is requested exactly when the store holds no planets. |
| PlanetDetails.BackRoute | src/app/features/planets/pages/planet-details/planet-details.ts:58-60 | The details page's back button always leads to '/'. |
| Routes.DetailRouteShape | src/app/core/services/navigation-state.service.ts:44-47 | A route is a detail route exactly when it is '/planets/' followed by an id containing no '/'. |
| Routes.PageKindsExclusive | src/app/core/services/navigation-state.service.ts:34-47 | No route is two of home, planets list and planet detail. |
| Routes.DetailRouteWithId | src/app/core/services/navigation-state.service.ts:44-47 | '/planets/42' is a detail route. |
| Routes.DetailRouteEmptyId | src/app/core/services/navigation-state.service.ts:44-47 | '/planets/' is a detail route too: the split gives an empty id, and the count of parts is still three. |
| Routes.NestedRouteIsNotDetail | src/app/core/services/navigation-state.service.ts:44-47 | '/planets/42/x' is not a detail route. |
| Routes.IsHomePage | src/app/core/services/navigation-state.service.ts:34-37 | The landing page is '/' or the empty URL, compared exactly. |
| Routes.IsPlanetsListPage | src/app/core/services/navigation-state.service.ts:39-42 | The list page is exactly '/planets'. |
| Routes.IsPlanetDetailPage | src/app/core/services/navigation-state.service.ts:44-47 | A detail page starts with '/planets/' and splits into three parts at '/'; `Routes.DetailRouteShape` shows this means an id without '/'. |
| NavigationState.NavigationVisibilityByPage | src/app/core/services/navigation-state.service.ts:49-64 | Navigation is hidden on the landing page and shown on the list and every detail page; the back button shows only off home and list. |
| NavigationState.LastEntries | src/app/core/services/navigation-state.service.ts:103-107 | The result is the last ten entries, or all of them when there are fewer. |
| NavigationState.UpdateNavigationState | src/app/core/services/navigation-state.service.ts:90-109 | The current URL again changes nothing. A new URL becomes current, the old non-empty current route becomes previous, and the history gains the URL at its end while keeping at most ten entries. |
| NavigationState.InitialUpdatesCollapse | src/app/core/services/navigation-state.service.ts:80-88 | The constructor's two updates with the same URL amount to one. |
| NavigationState.BackButtonText | src/app/core/services/navigation-state.service.ts:70-78 | 'Home' when the second-to-last history entry is the landing page, 'Planets' when it is the list, and 'Back' in every other case. |
| NavigationState.ShouldShowNavigation | src/app/core/services/navigation-state.service.ts:49-58 | Navigation shows on '/planets' and on every URL starting with '/planets/'; `NavigationState.NavigationVisibilityByPage` states it per page kind. |
| NavigationState.ShouldShowBackButton | src/app/core/services/navigation-state.service.ts:60-64 | The back button shows exactly on detail pages. |
| NavigationState.CanGoBack | src/app/core/services/navigation-state.service.ts:66-68 | The service's own history allows a back step when it holds more than one entry; `NavigationState.GoBack` states what the step does in either case. |
| NavigationState.GoBack | src/app/core/services/navigation-state.service.ts:114-132 | With more than one entry, the last entry is dropped and the one before is the target. Otherwise history is kept and the browser goes back if its history allows, else to '/'. |
| NavigationState.Reset | src/app/core/services/navigation-state.service.ts:158-162 | After a reset there is no current or previous route and no history. |
| NavigationState.HistoryStaysBounded | src/app/core/services/navigation-state.service.ts:90-132 | No sequence of route changes, back steps and resets takes the history past ten entries. |
| NavigationState.Run | src/app/core/services/navigation-state.service.ts:82-162 | Replays route changes, back steps and resets in order; `NavigationState.HistoryStaysBounded` states the bound it keeps. |
| NavigationState.UpdateBelowCapacity | src/app/core/services/navigation-state.service.ts:90-109 | Below ten entries, a new URL is appended to the history and nothing is dropped. |
| NavigationState.TwoVisits | src/app/core/services/navigation-state.service.ts:90-109 | Two different URLs in a row, below capacity: the second is current, the first previous, and both end the history in order. |
| NavigationState.HomeToDetailBackButton | src/app/core/services/navigation-state.service.ts:60-78 | After '/' and then any planet's page, from any earlier state below capacity, the back button shows and reads 'Home'. |
| NavigationState.HomeToDetailGoBack | src/app/core/services/navigation-state.service.ts:82-123 | Going back from there targets '/' and drops the planet's entry. Once the router reports '/', the update appends it again, so the history is the earlier one followed by '/' twice. |
| NavigationState.BackTextNamesPreviousPage | src/app/core/services/navigation-state.service.ts:70-109 | After a visit to a and then to a different b, also with a full history, the button names a's page kind: 'Home' for the landing page, 'Planets' for the list, 'Back' otherwise. |
| NavigationState.Arrive | src/app/core/services/navigation-state.service.ts:82-84 | After the router reports the page a back step led to, that page is current. |
| NavigationState.GoBackAndArrive | src/app/core/services/navigation-state.service.ts:82-132 | A back step followed by its router event makes the target current: the second-to-last entry, else the browser's page, else '/'. |
| NavigationState.UpdateKeepsCoherent | src/app/core/services/navigation-state.service.ts:90-109 | Route changes and resets keep the history coherent: at most ten entries, the last one the current route, no entry repeated right after itself. |
| NavigationState.Coherent | src/app/core/services/navigation-state.service.ts:90-109 | The shape the service's own updates give the history: at most ten entries, the last one the current route, no entry repeated right after itself. |
| NavigationState.BackBetweenPagesStalls | src/app/core/services/navigation-state.service.ts:114-123 | After a visit to a and then to b, going back and arriving makes a current with a history ending a, a. That history is not coherent, and the next back step targets the page already shown. |
| NavigationState.GoBackCorrected | src/app/core/services/navigation-state.service.ts:114-123 | The corrected back step drops both the current entry and the target's entry, and targets the second-to-last entry. |
| NavigationState.GoBackCorrectedAndArrive | src/app/core/services/navigation-state.service.ts:114-123 | The corrected back step and the router event after it: a back step inside the history lands on the entry before the last. |
| NavigationState.GoBackRestoresHistory | src/app/core/services/navigation-state.service.ts:114-123 | With the corrected back step, going back and arriving removes exactly the last entry of a coherent history. The entry before it becomes current, and the history stays coherent. |
| NavigationState.PrefixKeepsCoherent | src/app/core/services/navigation-state.service.ts:114-123 | Cutting a coherent history back to a prefix that ends at the current route keeps it coherent, which is what the corrected back step relies on. |
| NavbarVisibility.ShouldShowNavbar | src/app/core/services/navbar-visibility.service.ts:19-30 | The computed's body: the navbar is hidden exactly on '/' while the welcome section is visible. What a read returns is stated by `NavbarVisibility.NavbarReadsFirstUrl`. |
| NavbarVisibility.ShouldShowBackButton | src/app/core/services/navbar-visibility.service.ts:33-36 | The computed's body: the back button shows exactly on '/planets/' followed by an id without '/'. What a read returns is stated by `NavbarVisibility.BackButtonKeepsFirstRead`. |
| NavbarVisibility.SetWelcomeVisibility | src/app/core/services/navbar-visibility.service.ts:42-51 | After setting, reading the flag gives the value set. Setting the value already held changes nothing. A change makes `shouldShowNavbar` run again at its next read and leaves `shouldShowBackButton` as it was. |
| NavbarVisibility.ReadNavbar | src/app/core/services/navbar-visibility.service.ts:19-30 | A read returns the remembered value and changes nothing. Without one it runs the body at the router's URL and remembers it. The value read is the body's value at the remembered URL. |
| NavbarVisibility.ReadBackButton | src/app/core/services/navbar-visibility.service.ts:33-36 | The first read runs the body at the router's URL and remembers it. Every later read returns that value. |
| NavbarVisibility.ReadNavbarTracked | src/app/core/services/navbar-visibility.service.ts:19-30 | The intended read remembers its value for the URL just read; `NavbarVisibility.TrackedReadsAreCurrent` states it equals the body there. |
| NavbarVisibility.ReadBackButtonTracked | src/app/core/services/navbar-visibility.service.ts:33-36 | The intended back-button read remembers its value for the URL just read and leaves the navbar alone. |
| NavbarVisibility.VisibilityAfterSet | src/app/core/services/navbar-visibility.service.ts:19-44 | After setting the welcome flag, the navbar is hidden on '/' exactly when the flag was set true; setting twice is setting once. |
| NavbarVisibility.InitiallyHiddenOnlyOnHome | src/app/core/services/navbar-visibility.service.ts:16-30 | At start-up the navbar is hidden on '/' and shown everywhere else. |
| NavbarVisibility.AgreesWithNavigationState | src/app/core/services/navbar-visibility.service.ts:19-36 | The navbar service and the navigation state service show the back button on the same routes, and the navbar shows wherever that service shows navigation. |
| NavbarVisibility.EmptyUrlShowsNavbar | src/app/core/services/navbar-visibility.service.ts:24-29 | The empty URL shows the navbar, although the navigation state service counts it as the landing page. |
| NavbarVisibility.IsWelcomeVisible | src/app/core/services/navbar-visibility.service.ts:49-51 | Reads the welcome flag; `NavbarVisibility.SetWelcomeVisibility` states that it returns the value last set. |
| NavbarVisibility.RunKeepsConsistent | src/app/core/services/navbar-visibility.service.ts:16-44 | Whatever sets and reads happen, every value a computed remembers is its body's value for the URL it was computed at and the current flag. |
| NavbarVisibility.Run | src/app/core/services/navbar-visibility.service.ts:16-44 | Replays sets and reads in order; `NavbarVisibility.RunKeepsConsistent` states the invariant it keeps. |
| NavbarVisibility.NavbarReadsFirstUrl | src/app/core/services/navbar-visibility.service.ts:19-30 | A read of `shouldShowNavbar` reports the navbar for the URL of the first read since the welcome flag last changed, not for the router's URL now. |
| NavbarVisibility.WelcomeChangeRefreshesNavbar | src/app/core/services/navbar-visibility.service.ts:19-44 | After the welcome flag changes, the next read gives the body's value for the router's URL at that read. |
| NavbarVisibility.BackButtonKeepsFirstRead | src/app/core/services/navbar-visibility.service.ts:33-36 | After its first read, `shouldShowBackButton` returns that read's value at every later read, whatever happens in between. |
| NavbarVisibility.BackButtonStaysRemembered | src/app/core/services/navbar-visibility.service.ts:33-36 | No event ever clears the back button's remembered value. |
| NavbarVisibility.StaleAfterNavigation | src/app/core/services/navbar-visibility.service.ts:19-36 | Start on '/' and move to '/planets/1': both reads keep their landing-page values, no back button and no navbar, though both bodies give true for the new URL. |
| NavbarVisibility.TrackedReadsAreCurrent | src/app/core/services/navbar-visibility.service.ts:19-36 | With the URL tracked as a dependency, every read is the body's value for the router's URL now. |
| NavigationModel.FindItemIndex | src/app/core/services/smart-navigation.ts:148-150 | The first item whose target has the id; none exactly when no item has it. |
| NavigationModel.FindItemByTarget | src/app/core/services/smart-navigation.ts:148-150 | The item found is in the list, has the id, and no earlier item has it; none exactly when no item has the id. |
| NavigationModel.ItemTableLookup | src/app/core/services/smart-navigation.ts:29-42 | In the two-item table the welcome id finds the start item, the planets-list id finds the planets item, and no other id finds anything. |
| NavigationModel.ItemTableIsOnePerSection | src/app/core/services/smart-navigation.service.ts:17-30 | The table has one item per section and no two items share a section or a target. |
| SmartNavigation.ShouldShowNavigation | src/app/core/services/smart-navigation.ts:47-57 | The computed's body: off the landing page navigation always shows; on '/' and '' it shows exactly when the welcome section is gone and the timer has fired. What a read returns is stated by `SmartNavigation.NavigationReadsFirstUrl`. |
| SmartNavigation.SetWelcomeVisibility | src/app/core/services/smart-navigation.ts:59-77 | The value already held changes nothing. Showing the welcome section hides navigation at once; hiding it starts one more timer and leaves navigation as it was. Either change makes `shouldShowNavigation` run again at its next read. |
| SmartNavigation.TimerFired | src/app/core/services/smart-navigation.ts:70-75 | A pending timer fires by setting the navigation flag, whatever the welcome section is doing. `shouldShowNavigation` runs again at its next read only if the flag was down. |
| SmartNavigation.ReadNavigation | src/app/core/services/smart-navigation.ts:47-57 | A read returns the remembered value and changes nothing. Without one it runs the body at the router's URL and remembers it. The value read is the body's value at the remembered URL. |
| SmartNavigation.ReadNavigationTracked | src/app/core/services/smart-navigation.ts:47-57 | The intended read remembers its value for the URL just read and changes no signal; `SmartNavigation.TrackedReadIsCurrent` states it equals the body there. |
| SmartNavigation.Initialize | src/app/core/services/smart-navigation.ts:100-103 | Initialising makes the start section active and changes nothing else. |
| SmartNavigation.SetActiveSection | src/app/core/services/smart-navigation.ts:105-107 | Selecting a section changes only the active section. |
| SmartNavigation.InitiallyHiddenOnHome | src/app/core/services/smart-navigation.ts:15-57 | At start-up navigation is hidden on the landing page and shown on every other URL. |
| SmartNavigation.HiddenUntilTimerFires | src/app/core/services/smart-navigation.ts:59-77 | While no timer fires, no sequence of events shows navigation on the landing page. |
| SmartNavigation.HideWelcomeThenTimerShowsNavigation | src/app/core/services/smart-navigation.ts:59-77 | Hiding the welcome section shows navigation only after the timer fires. |
| SmartNavigation.StaleTimer | src/app/core/services/smart-navigation.ts:59-77 | A timer from an earlier hide still fires after the welcome section returns. The next hide then shows navigation at once, without the delay. |
| SmartNavigation.SectionIndependentOfVisibility | src/app/core/services/smart-navigation.ts:47-107 | Section selection never changes navigation visibility, and welcome changes and timers never change the section. |
| SmartNavigation.RunKeepsConsistent | src/app/core/services/smart-navigation.ts:47-107 | Every event keeps the remembered value equal to the body's value for its URL and the current signals. |
| SmartNavigation.Run | src/app/core/services/smart-navigation.ts:47-107 | Replays the service's events in order; `SmartNavigation.RunKeepsConsistent` and `HiddenUntilTimerFires` state what traces keep. |
| SmartNavigation.NavigationReadsFirstUrl | src/app/core/services/smart-navigation.ts:47-57 | A read reports navigation for the URL of the first read since the welcome or navigation flag last changed, not for the router's URL now. |
| SmartNavigation.StaleAfterLeavingHome | src/app/core/services/smart-navigation.ts:47-57 | Start on '/' and move to '/planets': navigation stays hidden there, though the body shows it on every URL but '/' and ''. |
| SmartNavigation.TrackedReadIsCurrent | src/app/core/services/smart-navigation.ts:47-57 | With the URL tracked as a dependency, every read is the body's value for the router's URL now. |
| SmartNavigation.FindItem | src/app/core/services/smart-navigation.ts:148-150 | The welcome id finds the start item, the planets-list id the planets item, and any other id nothing. |
| SmartNavigationService.SetActiveSection | src/app/core/services/smart-navigation.service.ts:49-51 | The given section becomes active. |
| SmartNavigationService.FindItem | src/app/core/services/smart-navigation.service.ts:100-102 | An item found is in the table and has the id; the two section ids find their items and every other id finds nothing. |
| SmartNavigationService.Observe | src/app/core/services/smart-navigation.service.ts:138-142 | An intersecting entry with a known id makes that id's section active. Any other entry leaves the state as it was. |
| SmartNavigationService.LastSelecting | src/app/core/services/smart-navigation.service.ts:136-148 | The position of the last entry that selects a section: that entry selects one, and no later entry does. It is -1 when no entry selects one. |
| SmartNavigationService.LastSelectorWins | src/app/core/services/smart-navigation.service.ts:136-148 | Observing the entries in order leaves the section of the last selecting entry active, or leaves the state unchanged when there is none. |
| SmartNavigationService.HandleIntersection | src/app/core/services/smart-navigation.service.ts:136-148 | Entries are handled in order. With no intersecting entry of a known section nothing changes; otherwise the last such entry's section is active. |
| ScrollPosition.Put | src/app/features/planets/services/scroll-position.service.ts:38 | After the put, the route maps to the new entry. A new route is appended; a known route keeps its place. Every other entry stays, and routes stay distinct. |
| ScrollPosition.Lookup | src/app/features/planets/services/scroll-position.service.ts:55 | `Map.get`: an entry found is in the cache under that route, and none is found exactly when no entry has the route. |
| ScrollPosition.Remove | src/app/features/planets/services/scroll-position.service.ts:66 | Exactly the entries of other routes remain, the route is gone, and the size drops by one exactly when the route was cached. |
| ScrollPosition.DropExpired | src/app/features/planets/services/scroll-position.service.ts:120-130 | Exactly the entries at most ten minutes old remain, and routes stay distinct. |
| ScrollPosition.FirstOldest | src/app/features/planets/services/scroll-position.service.ts:134-135 | The chosen entry has the smallest timestamp, and no earlier entry ties with it. |
| ScrollPosition.Evict | src/app/features/planets/services/scroll-position.service.ts:134-138 | Dropping the first k of a stable sort by timestamp: the kept positions stay in order, and every dropped one sorts before every kept one. |
| ScrollPosition.ClearOldPositions | src/app/features/planets/services/scroll-position.service.ts:119-140 | Expired entries go. If twenty or more remain, the oldest go until nineteen are left, and none that stays is older than one that went. The result is always under twenty. |
| ScrollPosition.Save | src/app/features/planets/services/scroll-position.service.ts:26-46 | Outside a browser or when disabled nothing changes. Otherwise the cache stays valid, the route maps to the position and time given, and below capacity every other route keeps its entry. |
| ScrollPosition.Restore | src/app/features/planets/services/scroll-position.service.ts:51-79 | An unknown route, or a disabled or non-browser service, restores nothing. A fresh entry restores its position; an expired one is deleted and nothing is restored. |
| ScrollPosition.ClearAll | src/app/features/planets/services/scroll-position.service.ts:159-164 | After clearing, no route is cached and the flags are kept. |
| ScrollPosition.SetEnabled | src/app/features/planets/services/scroll-position.service.ts:145-147 | Only the enabled flag changes. |
| ScrollPosition.Step | src/app/features/planets/services/scroll-position.service.ts:26-164 | Every operation keeps the cache at twenty entries or fewer, with distinct routes. |
| ScrollPosition.Run | src/app/features/planets/services/scroll-position.service.ts:26-164 | No sequence of operations takes the cache past twenty entries or gives a route two entries. |
| ScrollPosition.ResaveAtCapacityEvictsAnotherRoute | src/app/features/planets/services/scroll-position.service.ts:33-38 | Re-saving an already cached route into a full cache of fresh entries evicts some other route. |
| JsStrings.ParseInt | src/app/shared/services/planet-data.ts:241 | `parseInt` on decimal text: leading whitespace skipped, one sign accepted, then the longest digit run; None when no digit follows. |
| JsStrings.ParseIntOfIntToString | src/app/shared/services/planet-data.ts:256-260 | Reading back an integer's decimal text followed by a suffix that does not start with a digit gives the integer. |
| JsStrings.Trim | src/app/shared/services/planet-data.ts:237 | The result has no whitespace at either end and is a slice of the input. |
| JsStrings.Split | src/app/shared/services/planet-data.ts:237 | One more piece than there are separators, and no piece contains the separator. |
| JsStrings.Join | src/app/shared/services/planet-data.ts:237 | The pieces with the separator between them; `JsStrings.SplitJoin` states that splitting gives them back. |
| JsStrings.SplitJoin | src/app/shared/services/planet-data.ts:237 | Splitting a join at a one-character separator that no piece contains returns the pieces. |
| PlanetData.FormatGravity | src/app/shared/services/planet-data.ts:252-254 | The result always mentions 'standard', starts with the input, and is the input itself when the input already mentions it. |
| PlanetData.FormatValue | src/app/shared/services/planet-data.ts:236-238 | Splits at commas, trims each piece and joins with ', '; `PlanetData.FormatValueIdempotent` states what that keeps. |
| PlanetData.FormatPopulation | src/app/shared/services/planet-data.ts:240-244 | Text `parseInt` cannot read is kept; otherwise the locale's rendering of the number read. |
| PlanetData.FormatDiameter | src/app/shared/services/planet-data.ts:246-250 | Text `parseInt` cannot read is kept; otherwise the locale's rendering of the number read, then ' km'. |
| PlanetData.DiameterIsPopulationInKm | src/app/shared/services/planet-data.ts:240-250 | A diameter shows as the population formatter would show the same text, followed by ' km'; text that does not parse is kept by both. |
| PlanetData.LocaleFormattersReadNumberOnly | src/app/shared/services/planet-data.ts:240-250 | Two values that `parseInt` reads as the same number show the same population and the same diameter. |
| PlanetData.DatesInServiceLocale | src/app/shared/services/planet-data.service.ts:274-280 | The Spanish service renders dates in 'es-ES' and the English one in 'en-US'. |
| PlanetData.FormatInteger | src/app/shared/services/planet-data.ts:256-272 | Text `parseInt` cannot read is kept; otherwise the number read, in decimal, followed by the suffix. |
| PlanetData.FormatSurfaceWater | src/app/shared/services/planet-data.ts:256-260 | The integer formatter with '%'; `PlanetData.IntegerFormattersKeepNumber` states that the number survives. |
| PlanetData.FormatOrbitalPeriod | src/app/shared/services/planet-data.ts:262-266 | The integer formatter with the service's days label. |
| PlanetData.FormatRotationPeriod | src/app/shared/services/planet-data.ts:268-272 | The integer formatter with the service's hours label. |
| PlanetData.Caption | src/app/shared/services/planet-data.ts:92-234 | Each key has one label throughout a service. |
| PlanetData.MakeField | src/app/shared/services/planet-data.ts:92-122 | A field carries its key, the key's label and the key's formatted value. |
| PlanetData.Section | src/app/shared/services/planet-data.ts:32-72 | A section carries its kind's title and the getter's fields for its kind's keys; `PlanetData.SectionFieldsNonEmpty` states when it has any. |
| PlanetData.FormatGravityIdempotent | src/app/shared/services/planet-data.ts:252-254 | Formatting a gravity twice is formatting it once. |
| PlanetData.FormatValueIdempotent | src/app/shared/services/planet-data.ts:236-238 | Formatting keeps the number of comma-separated parts, and formatting twice is formatting once. |
| PlanetData.TrimmedPieces | src/app/shared/services/planet-data.ts:236-238 | After splitting at commas and trimming, no piece holds a comma or outer whitespace. |
| PlanetData.IntegerFormattersKeepNumber | src/app/shared/services/planet-data.ts:256-272 | Reading the surface-water, orbital-period or rotation-period text back gives the number read from the input, in both services. |
| PlanetData.FormatIntegerKeepsNumber | src/app/shared/services/planet-data.service.ts:256-272 | An integer formatter's output parses back to the input's number whenever the suffix does not start with a digit. |
| PlanetData.PresentKeys | src/app/shared/services/planet-data.ts:92-122 | Exactly the listed keys whose values are non-empty, in list order. |
| PlanetData.Fields | src/app/shared/services/planet-data.ts:124-154 | One field per non-empty listed key, in order, each with the key's label and formatted value. |
| PlanetData.GetFields | src/app/shared/services/planet-data.ts:156-234 | A record without the climate or terrain key gets no fields; any other record gets one per non-empty listed key. |
| PlanetData.GetFieldsNonEmpty | src/app/shared/services/planet-data.ts:82-90 | A getter returns fields exactly when the record has climate and terrain keys and one listed key is non-empty. |
| PlanetData.SectionFieldsNonEmpty | src/app/shared/services/planet-data.ts:32-72 | A section has fields exactly when the record has data for its kind. |
| PlanetData.KindsWithFields | src/app/shared/services/planet-data.ts:32-72 | The section kinds that have data, in their original order. |
| PlanetData.FormatForCard | src/app/shared/services/planet-data.ts:10-30 | At most an environment then a physical section, each non-empty. Environment is present exactly when climate or terrain is non-empty, physical exactly when population or diameter is. A record without climate and terrain keys gets none. |
| PlanetData.CardKindsFacts | src/app/shared/services/planet-data.ts:10-30 | The card's section kinds keep the order environment, then physical. Each appears exactly when its data check holds, and each has at least one field to show. |
| PlanetData.FormatForDetail | src/app/shared/services/planet-data.ts:32-72 | Quick stats, environmental, orbital and system sections, in that order, each present exactly when it has fields; none for a record without climate and terrain keys. |
| PlanetData.KeyShownInDetail | src/app/shared/services/planet-data.ts:32-72 | A non-empty key of a detail record appears, formatted, in every detail section that lists it. |
| PlanetData.KeyListed | src/app/shared/services/planet-data.ts:92-234 | A listed key that is non-empty in a detail record gets its field. |
| PlanetData.GravityShownTwice | src/app/shared/services/planet-data.ts:92-186 | A non-empty gravity is shown both among the quick stats and in the orbital data. |
| PlanetViewModel.FormatValue | src/app/features/planets/services/planet-data-formatter.ts:188-191 | A blank or unknown value gives the placeholder. Any other value keeps its length and its tail, with its first character upper-cased. |
| PlanetViewModel.FormatValueIdempotent | src/app/features/planets/services/planet-data-formatter.ts:188-195 | A formatted value is never blank or unknown, and formatting it again changes nothing. |
| PlanetViewModel.ScaleOf | src/app/features/planets/services/planet-data-formatter.ts:125-129 | Billions from 10^9, millions from 10^6, thousands from 10^3, units below. |
| PlanetViewModel.ScaleSuffix | src/app/features/planets/services/planet-data-formatter.ts:125-127 | The word after a scaled count, in each language. `PlanetViewModel.ScaleSuffixTellsScale` states it tells the scale. |
| PlanetViewModel.ScaleSuffixTellsScale | src/app/features/planets/services/planet-data-formatter.service.ts:132-134 | Within one language, equal words mean equal scales. |
| PlanetViewModel.ScaledCount | src/app/features/planets/services/planet-data-formatter.ts:125-129 | A count of a thousand or more is divided by its scale, given one decimal and the scale's word. A smaller count is written in the locale's style. |
| PlanetViewModel.ScaleMonotone | src/app/features/planets/services/planet-data-formatter.ts:125-129 | A larger count never gets a smaller scale. |
| PlanetViewModel.FormatPopulation | src/app/features/planets/services/planet-data-formatter.service.ts:126-137 | A blank or unknown value gives the placeholder, text that does not parse after comma removal is kept, and a number is written by its scale. |
| PlanetViewModel.PopulationIgnoresCommas | src/app/features/planets/services/planet-data-formatter.ts:119-130 | Thousands separators do not change how a population reads. |
| PlanetViewModel.FormatDiameter | src/app/features/planets/services/planet-data-formatter.ts:132-139 | The placeholder when blank; unparsable text kept; otherwise the locale's number and ' km'. |
| PlanetViewModel.FormatGravity | src/app/features/planets/services/planet-data-formatter.ts:141-150 | A blank value gives the placeholder and text mentioning 'standard' is kept. Otherwise a number gets the gravity unit and anything else is kept. |
| PlanetViewModel.GravityUnit | src/app/features/planets/services/planet-data-formatter.ts:147 | The unit after a parsed gravity: " standard G" or " G estándar". |
| PlanetViewModel.FormatPeriod | src/app/features/planets/services/planet-data-formatter.service.ts:159-169 | A number is followed by its unit, singular exactly when the number is 1. Blank values give the placeholder; unparsable text is kept. |
| PlanetViewModel.PeriodSingularOnlyForOne | src/app/features/planets/services/planet-data-formatter.ts:152-162 | In English the unit word gets its plural 's' exactly when the number is not 1. |
| PlanetViewModel.PeriodUnitText | src/app/features/planets/services/planet-data-formatter.service.ts:164 | The unit text for days and years, singular or plural, in each language. |
| PlanetViewModel.PeriodUnitTextTellsUnit | src/app/features/planets/services/planet-data-formatter.ts:157 | Within one language the unit text tells both the unit and whether it is singular. |
| PlanetViewModel.FormatSurfaceWater | src/app/features/planets/services/planet-data-formatter.ts:164-171 | The placeholder when blank; unparsable text kept; otherwise the number and '%'. |
| PlanetViewModel.FormatDate | src/app/features/planets/services/planet-data-formatter.ts:173-186 | The placeholder when blank or unknown, otherwise the locale's long date. |
| PlanetViewModel.IsUnknownValue | src/app/features/planets/services/planet-data-formatter.ts:193-195 | Exactly 'unknown' and 'n/a' are unknown, compared case-sensitively. |
| PlanetViewModel.HasValidProperty | src/app/features/planets/services/planet-data-formatter.ts:197-202 | A property is valid when present, non-empty and not unknown; `PlanetViewModel.ShownIffValid` states that exactly those are shown. |
| PlanetViewModel.FormattersNeverBlank | src/app/features/planets/services/planet-data-formatter.ts:132-186 | Diameter, gravity, period and surface water never come out empty, 'unknown' or 'n/a'; a date does not either when the locale's rendering of it does not. |
| PlanetViewModel.DiameterIgnoresCommas | src/app/features/planets/services/planet-data-formatter.ts:132-139 | A value that parses after comma removal formats like its comma-free form. |
| PlanetViewModel.GravityReformatStable | src/app/features/planets/services/planet-data-formatter.ts:141-150 | Formatting a formatted gravity again changes nothing, given that its number reads back. |
| PlanetViewModel.PeriodReformatStable | src/app/features/planets/services/planet-data-formatter.ts:152-162 | Formatting a formatted period again changes nothing, given that its number reads back. |
| PlanetViewModel.SurfaceWaterReformatStable | src/app/features/planets/services/planet-data-formatter.ts:164-171 | Formatting a formatted surface water value again changes nothing, given that its number reads back. |
| PlanetViewModel.DiameterReformatStable | src/app/features/planets/services/planet-data-formatter.ts:132-139 | Formatting a formatted diameter again changes nothing, given that the locale's rendering reads back. |
| PlanetViewModel.ShownDateIsRendered | src/app/features/planets/services/planet-data-formatter.ts:173-186 | A visible creation or edit date is the rendering of the record's own value in the service's locale, never the placeholder. |
| PlanetViewModel.Prop | src/app/features/planets/services/planet-data-formatter.ts:33 | A missing key reads as the empty string, which every formatter treats as blank. |
| PlanetViewModel.Candidate | src/app/features/planets/services/planet-data-formatter.ts:31-45 | A statistic carries its key's caption and is visible exactly when the property is valid. |
| PlanetViewModel.FilterVisible | src/app/features/planets/services/planet-data-formatter.ts:48 | Exactly the visible statistics, in their original order. |
| PlanetViewModel.ValidKeys | src/app/features/planets/services/planet-data-formatter.ts:197-202 | Exactly the keys with a present, non-empty, not-unknown value, in order. |
| PlanetViewModel.FilterCandidates | src/app/features/planets/services/planet-data-formatter.ts:29-49 | Filtering the statistic literals by visibility keeps exactly the statistics of the keys with valid properties, in key order. |
| PlanetViewModel.QuickStats | src/app/features/planets/services/planet-data-formatter.ts:29-49 | One visible statistic per valid property among population, diameter and gravity, in that order. |
| PlanetViewModel.Section | src/app/features/planets/services/planet-data-formatter.ts:51-117 | A section lists the valid properties of its keys in order, all visible. It is visible exactly when one of its keys has a valid property. |
| PlanetViewModel.VisibleCandidates | src/app/features/planets/services/planet-data-formatter.ts:29-49 | For any keys, the visible statistics are those of the keys with a valid property, all visible. There is one exactly when such a key exists. |
| PlanetViewModel.ShownIffValid | src/app/features/planets/services/planet-data-formatter.ts:29-117 | A key's statistic appears in the quick stats or its section exactly when its property is valid. |
| PlanetViewModel.CandidateIn | src/app/features/planets/services/planet-data-formatter.ts:29-117 | A key's statistic is among a key list's literals exactly when the key is in the list. |
| PlanetViewModel.CaptionsDistinct | src/app/features/planets/services/planet-data-formatter.service.ts:36-124 | Different keys never share a caption, in either language. |
| PlanetViewModel.LanguagesAgreeOnShape | src/app/features/planets/services/planet-data-formatter.service.ts:16-124 | The Spanish and English services show the same number of statistics and the same visible sections. |
| PlanetViewModel.CreatePlanetViewModel | src/app/features/planets/services/planet-data-formatter.ts:9-27 | The name and uid fall back to 'Unknown Planet' and 'N/A'. Transition names exist exactly when the record has a uid key. The sections are those of the record. |
| PlanetViewModel.EmptyUidKeepsTransitions | src/app/features/planets/services/planet-data-formatter.ts:11-20 | An empty uid shows 'N/A' but still gets transition names ending at their bare prefixes. |
| PlanetSphere.KeyType | src/app/features/planets/components/planet-sphere/planet-sphere.ts:58-71 | A key that names a look is that look's key. |
| PlanetSphere.KeyTypeOfTypeKey | src/app/features/planets/components/planet-sphere/planet-sphere.ts:58-71 | Every look's key is in the class table and names that look alone. |
| PlanetSphere.KeywordType | src/app/features/planets/components/planet-sphere/planet-sphere.ts:36-46 | The look of the first rule in the chain that fires; no earlier rule fires; none exactly when no rule fires. |
| PlanetSphere.Classify | src/app/features/planets/components/planet-sphere/planet-sphere.ts:27-51 | A record without climate and terrain keys is terrestrial; otherwise it gets the keyword look of its lower-cased texts, or terrestrial. |
| PlanetSphere.ClassifyIgnoresCase | src/app/features/planets/components/planet-sphere/planet-sphere.ts:32-33 | Records whose climate and terrain agree up to ASCII case get the same look. |
| PlanetSphere.RedundantKeywords | src/app/features/planets/components/planet-sphere/planet-sphere.ts:43-46 | The crystal rule fires exactly on 'crystal' and the rocky rule exactly on 'rock'; 'crystalline' and 'rocky' add nothing. |
| PlanetSphere.IceOnlyFromClimate | src/app/features/planets/components/planet-sphere/planet-sphere.ts:37 | The terrain never makes a planet icy. |
| PlanetSphere.PlanetClasses | src/app/features/planets/components/planet-sphere/planet-sphere.ts:54-74 | A key in the table gets its gradient; any other key gets the terrestrial gradient. |
| PlanetSphere.Gradient | src/app/features/planets/components/planet-sphere/planet-sphere.ts:58-71 | The twelve gradients of the class map; `PlanetSphere.PlanetClasses` and `PlanetSphereComponent.SwitchGradient` state where they are used. |
| PlanetSphere.ClassesOfClassified | src/app/features/planets/components/planet-sphere/planet-sphere.ts:54-74 | Every classified look has its own gradient, so the fallback is never used. |
| PlanetSphere.SizeClasses | src/app/features/planets/components/planet-sphere/planet-sphere.ts:77-87 | Small and large get their classes; every other size gets the medium ones. |
| PlanetSphere.SphereTransitionName | src/app/features/planets/components/planet-sphere/planet-sphere.ts:16-24 | A record with uid and url keys gets the detail page's sphere name for its uid; every other record gets none. |
| PlanetSphere.SphereNameByShape | src/app/features/planets/components/planet-sphere/planet-sphere.ts:16-24 | Summaries and details with a uid get the sphere name for their uid, and plain details get none. |
| PlanetSphereComponent.TypeListByRank | src/app/features/planets/components/planet-sphere/planet-sphere.component.ts:76-79 | The type list holds all twelve looks, each at its rule's position. |
| PlanetSphereComponent.CodeSumAppend | src/app/features/planets/components/planet-sphere/planet-sphere.component.ts:113 | The character-code sum of a concatenation is the sum of the two sums. |
| PlanetSphereComponent.CodeSum | src/app/features/planets/components/planet-sphere/planet-sphere.component.ts:113 | The character-code sum of the name; the empty name sums to 0, and `PlanetSphereComponent.CodeSumAppend` makes it additive. |
| PlanetSphereComponent.NameIndex | src/app/features/planets/components/planet-sphere/planet-sphere.component.ts:112-114 | The hash index is always inside the twelve-entry list. |
| PlanetSphereComponent.ComponentType | src/app/features/planets/components/planet-sphere/planet-sphere.component.ts:72-117 | A detail record that a rule fires on gets that rule's look. Every other record gets the look at its name hash modulo twelve. |
| PlanetSphereComponent.AgreesWithKeywordSphere | src/app/features/planets/components/planet-sphere/planet-sphere.component.ts:82-108 | Wherever the first sphere finds a keyword look, the second sphere finds the same one. |
| PlanetSphereComponent.NamelessIsDesert | src/app/features/planets/components/planet-sphere/planet-sphere.component.ts:112-116 | A record with no name and no keyword look is a desert. |
| PlanetSphereComponent.FallbackIgnoresOrder | src/app/features/planets/components/planet-sphere/planet-sphere.component.ts:112-116 | Swapping the two halves of a name keeps the fallback look. |
| PlanetSphereComponent.SwitchGradient | src/app/features/planets/components/planet-sphere/planet-sphere.component.ts:137-178 | The component's gradient table matches the first sphere's on every look. The exception is terrestrial outside the holographic variant, which gets a blue-green gradient. |
| PlanetSphereComponent.ComponentClasses | src/app/features/planets/components/planet-sphere/planet-sphere.component.ts:120-181 | The classes start with the variant's colour. Every look but terrestrial then takes the class-table gradient; terrestrial takes it only when holographic. |
| PlanetSphereComponent.PrefixTellsVariant | src/app/features/planets/components/planet-sphere/planet-sphere.component.ts:128-134 | No text starts with two different variant colours. |
| PlanetSphereComponent.VariantPrefix | src/app/features/planets/components/planet-sphere/planet-sphere.component.ts:128-134 | The text colour each variant starts its classes with; `PlanetSphereComponent.PrefixTellsVariant` states no text starts with two of them. |
| PlanetSphereComponent.ClassesTellVariant | src/app/features/planets/components/planet-sphere/planet-sphere.component.ts:128-134 | Equal classes mean equal variants. |

## Left out

- The HTTP layer and the global error interceptor. The API is a function from the requested URL to a `FetchOutcome`, and the observable pipeline (`tap`, `catchError`, `takeUntilDestroyed`) is reduced to its two synchronous phases.
- PlanetsStore.LoadPlanets: it states the URL the store hands on, not the URL requested. `Planets.getPlanets` declares no parameter and discards that URL, so the response to a load-more is really the first page again (see "Findings"). Row contracts that speak of the cursor's page assume the intended request of `PlanetsStore.RequestedUrlCorrected`.
- The DOM side of every service. This covers `scrollToSection`, `addClickAnimation`, the navigation animations, `updateNavigationStyles` and CSS class toggling on observed sections. These calls return nothing the model could observe.
- The intersection observer's set-up and teardown (`initialize`, `destroy` of the second smart navigation service). The observer's callback is modelled as `HandleIntersection` over a sequence of entries.
- The debounce subject of the first smart navigation service: it only restyles the header.
- `attemptScrollRestore`: it retries `window.scrollTo` on a timer. `Restore` returns the position it would be handed.
- `getDebugInfo`, `setDebugMode`, `getCurrentRouteInfo` and every debug log line: they only print.
- `goToPlanets`, `goToHome`, `goToPlanetDetail` and the details page's `goBack`: each is a single router call (its target route is `PlanetDetails.BackRoute` for `goBack`). `canUseBrowserBack` reads `window.history.length`, which is an argument of `GoBack`.
- The `try`/`catch` blocks of the scroll and date services. Nothing in the modelled code throws.
- Presentational components (cards, tables, loading, error and end states, the welcome page): they only render what the modelled services compute.
- `parseFloat`, the printing of a float, `toFixed(1)`, `toLocaleString` and `toLocaleDateString` are parameters. Their results, such as `parseFloat` accepting 'Infinity' or the locale's digit grouping, are not modelled.
- `parseInt` with a '0x' prefix is not modelled. The API sends decimal strings, and `JsStrings.ParseInt` reads an optional sign and decimal digits after leading whitespace.
- Case mapping covers ASCII letters only. The classifier and `formatValue` on non-ASCII input are not modelled beyond that.
- PlanetSphereComponent.CodeSum: it sums Unicode scalar values, where `charCodeAt` sums UTF-16 code units; the two differ only outside the Basic Multilingual Plane.
- PlanetsStore.Run: a trace may interleave loads and responses in any order, including a response with no load before it. Which responses the network can actually deliver, and in what order, is not constrained. A response dropped when the store is destroyed is not modelled.
- PlanetsStore.Complete: the store's separate `error.message || default` fallback covers a missing message and an empty one, which `Failed(None)` and `Failed(Some(""))` both represent. An error object whose message is not a string is not modelled.
- ScrollPosition.Save: below capacity it states that every other route keeps its entry. At capacity it states only that every surviving entry was there before and is fresh. Which ones go is stated by `ScrollPosition.ClearOldPositions`.
- PlanetViewModel.FormatPopulation: `toFixed(1)` is a parameter, so the rounding of the scaled count is not stated.
- PlanetData.IntegerFormattersKeepNumber: numbers are unbounded integers. In the browser `parseInt` returns a double, which rounds digits beyond 2^53, and `${num}` switches to exponent form from 1e21 ('1000000000000000000000' shows as '1e+21%', which reads back as 1). The property holds for the API's values, which stay far below 2^53.
- PlanetData.FormatIntegerKeepsNumber: the same limit; it holds for magnitudes below 2^53.
- PlanetData.FormatInteger: writes the unbounded integer in decimal, where the browser writes a double and uses exponent form from 1e21.
- PlanetsStore.HasPlanets, PlanetsStore.HasError, PlanetsStore.IsLastPage: the store file declares only `planets` and `selectedPlanet` as computeds. The list page calls these and `isLoading` and `nextPageUrl` on the store, and the source that defines them is not part of this model. They are defined here as the evident reading of the store's fields: planets non-empty, an error recorded, no next cursor.
- NavbarVisibility.ShouldShowNavbar, NavbarVisibility.ShouldShowBackButton, SmartNavigation.ShouldShowNavigation: each is the computed's body for a given URL. What the running computeds return is their remembered value, modelled by the `Read` functions and stated by the lemmas next to them.
- Angular's change detection and the order in which templates read the computeds are not modelled: reads are explicit events.

## Findings

| source | as written | input that shows it | evidently intended | confidence | as-written member | corrected member |
|---|---|---|---|---|---|---|
| src/app/features/planets/components/planets-list/planets-list.ts:66-69 | `retryLoading` calls `loadPlanets()` with no URL, and the store drops that call whenever planets are already held | A first page is loaded with a `next` cursor; loading more then fails, so the error view and its retry button show; pressing retry does nothing and the error stays | Retrying re-requests the stored cursor, as `loadMorePlanets` would | medium, not executed | PlanetsList.RetryAfterFailedLoadMoreIsDropped | PlanetsList.RetryAfterFailedLoadMoreRefetches |
| src/app/core/services/navbar-visibility.service.ts:19-36 | Both computeds read `router.url`, which is not a signal. `shouldShowBackButton` reads no signal at all, so it keeps its first value for good. `shouldShowNavbar` runs again only after the welcome flag changes. | The app starts on '/', where both are read, giving false. The user then opens '/planets/1' without the welcome flag changing, and both reads still give false | Both reflect the router's current URL, for instance through a signal of the router's events | medium, not executed | NavbarVisibility.StaleAfterNavigation | NavbarVisibility.TrackedReadsAreCurrent |
| src/app/core/services/smart-navigation.ts:47-57 | `shouldShowNavigation` reads `router.url`, which is not a signal, so it runs again only after the welcome or navigation flag changes | The app starts on '/', where the read gives false. The user then opens '/planets' with neither flag changing, and the read still gives false | Navigation shows on every URL but '/' and '' | medium, not executed | SmartNavigation.StaleAfterLeavingHome | SmartNavigation.TrackedReadIsCurrent |
| src/app/core/services/navigation-state.service.ts:114-123 | `goBack` drops only the current entry before navigating. The `NavigationEnd` that follows appends the target again, because the route being left is still current | The user visits '/planets/1' and then '/planets/2', then presses back: the history ends '/planets/1', '/planets/1', and the next back press targets the page already shown | One back press undoes one visit: the history loses its last entry | medium, not executed | NavigationState.BackBetweenPagesStalls | NavigationState.GoBackRestoresHistory |
| src/app/features/planets/services/planets.ts:12-14 | `getPlanets()` declares no parameter and always requests the API's base URL, so the cursor the store passes at planets.store.ts:33 is dropped (TypeScript also rejects the extra argument when it type-checks the call) | A first page with a `next` cursor is loaded; scrolling to the sentinel loads more, receives the first page again, appends it, and keeps the same cursor, so the list repeats page one for ever | The request goes to the URL handed on, or to the base URL when none is | medium, not executed | PlanetsStore.LoadMoreRepeatsFirstPage | PlanetsStore.LoadCursorFetchesItsPage |
