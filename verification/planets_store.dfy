/**
 * The planets store (src/app/features/planets/store/planets.store.ts).
 *
 * `loadPlanets` runs in two phases separated by the HTTP round trip: a
 * guarded "begin" that marks the store as loading, and a "complete" that
 * applies whatever the request delivered to the store as it is when the
 * response arrives. Each phase is a pure transition; the response is the
 * `FetchOutcome` handed to `Complete`. `LoadRoundTrip` joins the two through
 * the request of the planets service (src/app/features/planets/services/planets.ts).
 */
module PlanetsStore {
  import opened Options
  import opened PlanetModel

  const NoPlanetsFound := "No planets found"
  const LoadFailed := "Error in loading planets"

  // ---------------------------------------------------------------------
  // Read signals

  predicate HasPlanets(s: PlanetsState) {
    |s.planets| > 0
  }

  predicate HasError(s: PlanetsState) {
    s.error.Some?
  }

  /** No further page: the last response carried a null `next` cursor (or nothing was loaded yet). */
  predicate IsLastPage(s: PlanetsState) {
    s.nextPageUrl.None?
  }

  // ---------------------------------------------------------------------
  // loadPlanets

  /** `!!planetsUrl`: a URL was passed and it is not the empty string. */
  predicate GivenUrl(url: Option<string>) {
    url.Some? && url.value != ""
  }

  /** The outcome of the synchronous part of `loadPlanets`. */
  datatype LoadStep =
    | Skipped
    | Started(state: PlanetsState, fetchUrl: Option<string>)

  /**
   * The guard and the "begin" phase. The call is dropped only when no URL is
   * given and planets are already held; there is no check of `isLoading`. A
   * call that proceeds marks the store loading with no error, changes nothing
   * else, and hands the request the given URL or, without one, the stored
   * cursor.
   */
  function LoadPlanets(s: PlanetsState, url: Option<string>): (step: LoadStep)
    ensures step.Skipped? <==> !GivenUrl(url) && HasPlanets(s)
    ensures step.Started? ==> step.state.isLoading && step.state.error == None
    ensures step.Started? ==>
      && step.state.planets == s.planets
      && step.state.nextPageUrl == s.nextPageUrl
      && step.state.selectedPlanet == s.selectedPlanet
    ensures step.Started? && GivenUrl(url) ==> step.fetchUrl == url
    ensures step.Started? && !GivenUrl(url) ==> step.fetchUrl == s.nextPageUrl
  {
    if !(GivenUrl(url) || |s.planets| == 0) then Skipped
    else
      var begun := s.(isLoading := true, error := None);
      Started(begun, if GivenUrl(url) then url else begun.nextPageUrl)
  }

  /** `error.message || 'Error in loading planets'`. */
  function FailureMessage(message: Option<string>): (m: string)
    ensures m != ""
    ensures message.Some? && message.value != "" ==> m == message.value
  {
    if message.Some? && message.value != "" then message.value else LoadFailed
  }

  /**
   * The "complete" phase, applied to the store as it is when the response
   * arrives. A non-empty page is appended after the planets already held, in
   * order and without removing duplicates, and its cursor replaces the old
   * one. A missing or empty page and a failure leave planets and cursor alone
   * and record an error that is never empty. Loading always ends and the
   * selected planet is never touched.
   */
  function Complete(s: PlanetsState, outcome: FetchOutcome): (t: PlanetsState)
    ensures !t.isLoading
    ensures t.selectedPlanet == s.selectedPlanet
    ensures outcome.Delivered? && |outcome.results| > 0 ==>
      && |t.planets| == |s.planets| + |outcome.results|
      && t.planets[..|s.planets|] == s.planets
      && t.planets[|s.planets|..] == outcome.results
      && t.nextPageUrl == outcome.next
      && t.error == None
    ensures !(outcome.Delivered? && |outcome.results| > 0) ==>
      t.planets == s.planets && t.nextPageUrl == s.nextPageUrl && t.error.Some? && t.error.value != ""
    ensures outcome.NoData? || (outcome.Delivered? && |outcome.results| == 0) ==>
      t.error == Some(NoPlanetsFound)
    ensures outcome.Failed? ==> t.error == Some(FailureMessage(outcome.message))
  {
    match outcome
    case Delivered(results, next) =>
      if |results| == 0 then s.(isLoading := false, error := Some(NoPlanetsFound))
      else s.(planets := s.planets + results, nextPageUrl := next, isLoading := false, error := None)
    case NoData => s.(isLoading := false, error := Some(NoPlanetsFound))
    case Failed(message) => s.(isLoading := false, error := Some(FailureMessage(message)))
  }

  // ---------------------------------------------------------------------
  // Traces of store events

  /** What can happen to the store: a `loadPlanets` call or the arrival of a response. */
  datatype StoreEvent = Load(url: Option<string>) | Respond(outcome: FetchOutcome)

  function Apply(s: PlanetsState, e: StoreEvent): PlanetsState {
    match e
    case Load(url) =>
      (match LoadPlanets(s, url)
       case Skipped => s
       case Started(begun, _) => begun)
    case Respond(outcome) => Complete(s, outcome)
  }

  function Run(s: PlanetsState, events: seq<StoreEvent>): PlanetsState
    decreases |events|
  {
    if |events| == 0 then s else Run(Apply(s, events[0]), events[1..])
  }

  /** Running two traces one after the other is running their concatenation. */
  lemma {:induction false} RunAppend(s: PlanetsState, first: seq<StoreEvent>, second: seq<StoreEvent>)
    ensures Run(s, first + second) == Run(Run(s, first), second)
    decreases |first|
  {
    if |first| > 0 {
      assert (first + second)[1..] == first[1..] + second;
      RunAppend(Apply(s, first[0]), first[1..], second);
    } else {
      assert first + second == second;
    }
  }

  lemma RunOne(s: PlanetsState, e: StoreEvent)
    ensures Run(s, [e]) == Apply(s, e)
  {
    assert [e][1..] == [];
  }

  /** Calling `loadPlanets()` without a URL once planets are held leaves the whole store unchanged. */
  lemma LoadWithoutUrlIsNoOp(s: PlanetsState, url: Option<string>)
    requires HasPlanets(s) && !GivenUrl(url)
    ensures Apply(s, Load(url)) == s
  {
  }

  /** A call with a URL proceeds even while another load is in flight. */
  lemma NoInFlightGuard(s: PlanetsState, url: string)
    requires s.isLoading && url != ""
    ensures LoadPlanets(s, Some(url)).Started?
    ensures LoadPlanets(s, Some(url)).fetchUrl == Some(url)
  {
  }

  /** No sequence of store events ever changes the selected planet. */
  lemma {:induction false} RunKeepsSelectedPlanet(s: PlanetsState, events: seq<StoreEvent>)
    ensures Run(s, events).selectedPlanet == s.selectedPlanet
    decreases |events|
  {
    if |events| > 0 {
      RunKeepsSelectedPlanet(Apply(s, events[0]), events[1..]);
    }
  }

  /** Planets are only ever appended: what the store held stays, in place, at the front. */
  lemma {:induction false} RunKeepsPlanetsPrefix(s: PlanetsState, events: seq<StoreEvent>)
    ensures |s.planets| <= |Run(s, events).planets|
    ensures Run(s, events).planets[..|s.planets|] == s.planets
    decreases |events|
  {
    if |events| > 0 {
      var s1 := Apply(s, events[0]);
      assert |s.planets| <= |s1.planets| && s1.planets[..|s.planets|] == s.planets;
      RunKeepsPlanetsPrefix(s1, events[1..]);
      var t := Run(s1, events[1..]);
      assert t.planets[..|s.planets|] == t.planets[..|s1.planets|][..|s.planets|];
    }
  }

  /**
   * Two pages loaded one after the other from the empty store: the first
   * load is given no URL, the second the cursor the first returned. The store
   * ends with both pages in order and on its last page.
   */
  lemma TwoPageScenario(page1: seq<Planet>, page2: seq<Planet>)
    requires |page1| == 10 && |page2| == 5
    ensures var afterFirst := Run(EmptyPlanetStore, [Load(None), Respond(Delivered(page1, Some("page2")))]);
      && afterFirst.planets == page1 && !IsLastPage(afterFirst) && !afterFirst.isLoading
    ensures var s := Run(EmptyPlanetStore,
              [Load(None), Respond(Delivered(page1, Some("page2"))), Load(Some("page2")), Respond(Delivered(page2, None))]);
      && s.planets == page1 + page2 && |s.planets| == 15 && IsLastPage(s) && s.error == None
  {
    var e1, e2, e3, e4 := Load(None), Respond(Delivered(page1, Some("page2"))), Load(Some("page2")), Respond(Delivered(page2, None));
    var s1 := Apply(EmptyPlanetStore, e1);
    var s2 := Apply(s1, e2);
    assert s2.planets == page1;
    var s3 := Apply(s2, e3);
    var s4 := Apply(s3, e4);
    RunOne(EmptyPlanetStore, e1);
    RunOne(s1, e2);
    RunOne(s2, e3);
    RunOne(s3, e4);
    RunAppend(EmptyPlanetStore, [e1], [e2]);
    assert [e1] + [e2] == [e1, e2];
    RunAppend(EmptyPlanetStore, [e1, e2], [e3]);
    assert [e1, e2] + [e3] == [e1, e2, e3];
    RunAppend(EmptyPlanetStore, [e1, e2, e3], [e4]);
    assert [e1, e2, e3] + [e4] == [e1, e2, e3, e4];
  }

  /** The store does not deduplicate: the same page delivered twice is held twice. */
  lemma SamePageTwiceIsKeptTwice(s: PlanetsState, page: seq<Planet>, next: Option<string>)
    requires |page| > 0
    ensures Complete(Complete(s, Delivered(page, next)), Delivered(page, next)).planets == s.planets + page + page
  {
  }

  // ---------------------------------------------------------------------
  // The request (src/app/features/planets/services/planets.ts)

  const PlanetsApiUrl := "https://www.swapi.tech/api/planets"

  /** The API as the app sees it: the response a request for each URL gets. */
  type Api = string -> FetchOutcome

  /**
   * `getPlanets()` declares no parameter and always requests the API's base
   * URL: the URL the store hands it is dropped.
   */
  function RequestedUrl(fetchUrl: Option<string>): string {
    PlanetsApiUrl
  }

  /** The evidently intended request: the URL handed on, or the first page when there is none. */
  function RequestedUrlCorrected(fetchUrl: Option<string>): (u: string)
    ensures GivenUrl(fetchUrl) ==> u == fetchUrl.value
    ensures !GivenUrl(fetchUrl) ==> u == PlanetsApiUrl
  {
    if GivenUrl(fetchUrl) then fetchUrl.value else PlanetsApiUrl
  }

  /**
   * A `loadPlanets` call followed by the response to the request it makes,
   * with the request as written or, when `corrected` holds, as intended.
   */
  function LoadRoundTrip(s: PlanetsState, url: Option<string>, api: Api, corrected: bool): PlanetsState {
    match LoadPlanets(s, url)
    case Skipped => s
    case Started(begun, fetchUrl) =>
      Complete(begun, api(if corrected then RequestedUrlCorrected(fetchUrl) else RequestedUrl(fetchUrl)))
  }

  /**
   * As written, every load that starts receives the first page's response,
   * whatever URL it was given: after a successful one the cursor is always
   * the first page's.
   */
  lemma RoundTripIgnoresUrl(s: PlanetsState, url: Option<string>, api: Api)
    requires LoadPlanets(s, url).Started?
    ensures LoadRoundTrip(s, url, api, false) == Complete(LoadPlanets(s, url).state, api(PlanetsApiUrl))
    ensures api(PlanetsApiUrl).Delivered? && |api(PlanetsApiUrl).results| > 0 ==>
      LoadRoundTrip(s, url, api, false).nextPageUrl == api(PlanetsApiUrl).next
  {
  }

  /**
   * As written, loading more after the first page appends the first page
   * again and leaves the cursor where it was.
   */
  lemma LoadMoreRepeatsFirstPage(page1: seq<Planet>, next: string, api: Api)
    requires |page1| > 0 && next != ""
    requires api(PlanetsApiUrl) == Delivered(page1, Some(next))
    ensures var s1 := LoadRoundTrip(EmptyPlanetStore, None, api, false);
      && s1.planets == page1 && s1.nextPageUrl == Some(next)
      && LoadRoundTrip(s1, Some(next), api, false).planets == page1 + page1
      && LoadRoundTrip(s1, Some(next), api, false).nextPageUrl == Some(next)
  {
  }

  /**
   * With the intended request, loading a cursor appends the page the API
   * serves at that cursor and moves the cursor on to that page's `next`.
   */
  lemma LoadCursorFetchesItsPage(s: PlanetsState, api: Api)
    requires GivenUrl(s.nextPageUrl)
    requires api(s.nextPageUrl.value).Delivered? && |api(s.nextPageUrl.value).results| > 0
    ensures LoadRoundTrip(s, s.nextPageUrl, api, true).planets == s.planets + api(s.nextPageUrl.value).results
    ensures LoadRoundTrip(s, s.nextPageUrl, api, true).nextPageUrl == api(s.nextPageUrl.value).next
  {
  }

  /**
   * With the intended request, the first page and then its cursor's page end
   * with both pages in order and no cursor left.
   */
  lemma TwoPagesThroughApi(page1: seq<Planet>, page2: seq<Planet>, next: string, api: Api)
    requires |page1| > 0 && |page2| > 0 && next != ""
    requires api(PlanetsApiUrl) == Delivered(page1, Some(next))
    requires api(next) == Delivered(page2, None)
    ensures var s1 := LoadRoundTrip(EmptyPlanetStore, None, api, true);
      && s1.nextPageUrl == Some(next)
      && LoadRoundTrip(s1, Some(next), api, true).planets == page1 + page2
      && IsLastPage(LoadRoundTrip(s1, Some(next), api, true))
  {
  }

  /** The initial store holds nothing, is not loading, has no error and has no cursor. */
  lemma InitialStoreSignals()
    ensures !HasPlanets(EmptyPlanetStore) && !HasError(EmptyPlanetStore)
    ensures !EmptyPlanetStore.isLoading && IsLastPage(EmptyPlanetStore)
    ensures EmptyPlanetStore.selectedPlanet == None
    ensures LoadPlanets(EmptyPlanetStore, None) == Started(EmptyPlanetStore.(isLoading := true), None)
  {
  }
}
