/**
 * The planets list page (src/app/features/planets/components/planets-list/planets-list.ts):
 * the flags it derives from the store and the store calls it makes.
 */
module PlanetsList {
  import opened Options
  import opened JsStrings
  import opened PlanetModel
  import opened PlanetsStore

  /** `'none' | 'initial' | 'more'`. */
  datatype LoadingState = NotLoading | Initial | More

  /** Which loading indicator the page shows. */
  function LoadingStateOf(s: PlanetsState): (r: LoadingState)
    ensures r == NotLoading <==> !s.isLoading
    ensures r == Initial <==> s.isLoading && !HasPlanets(s)
    ensures r == More <==> s.isLoading && HasPlanets(s)
  {
    if !s.isLoading then NotLoading
    else if !HasPlanets(s) then Initial
    else More
  }

  predicate ShowError(s: PlanetsState) {
    HasError(s) && !s.isLoading
  }

  predicate ShowInfinityScroll(s: PlanetsState) {
    HasPlanets(s) && !IsLastPage(s)
  }

  predicate ShowEndState(s: PlanetsState) {
    IsLastPage(s) && HasPlanets(s)
  }

  /**
   * The error view never shows during a load; with planets held, exactly
   * one of the infinite-scroll sentinel and the end-of-list view shows, and
   * without planets neither does.
   */
  lemma ViewFlags(s: PlanetsState)
    ensures ShowError(s) ==> HasError(s) && LoadingStateOf(s) == NotLoading
    ensures !(ShowInfinityScroll(s) && ShowEndState(s))
    ensures HasPlanets(s) ==> ShowInfinityScroll(s) || ShowEndState(s)
    ensures !HasPlanets(s) ==> !ShowInfinityScroll(s) && !ShowEndState(s)
  {
  }

  /**
   * `loadMorePlanets`: the URL passed to `loadPlanets`, or None when no call
   * is made. A call is made only with a non-empty cursor and no load in
   * progress, and passes exactly that cursor.
   */
  function LoadMorePlanets(s: PlanetsState): (call: Option<string>)
    ensures call.Some? <==> GivenUrl(s.nextPageUrl) && !s.isLoading
    ensures call.Some? ==> call == s.nextPageUrl
  {
    if GivenUrl(s.nextPageUrl) && !s.isLoading then s.nextPageUrl else None
  }

  /** Every call `loadMorePlanets` makes gets past the store's guard and hands the stored cursor to the request. */
  lemma LoadMoreAlwaysFetchesCursor(s: PlanetsState)
    requires LoadMorePlanets(s).Some?
    ensures LoadPlanets(s, LoadMorePlanets(s)).Started?
    ensures LoadPlanets(s, LoadMorePlanets(s)).fetchUrl == s.nextPageUrl
  {
  }

  /** `ngOnInit`: one `loadPlanets()` with no URL. It starts a load only when the store is still empty. */
  function OnInit(s: PlanetsState): (step: LoadStep)
    ensures step.Started? <==> !HasPlanets(s)
    ensures step.Started? ==> step.fetchUrl == s.nextPageUrl && step.state.isLoading
  {
    LoadPlanets(s, None)
  }

  /**
   * `retryLoading` as written: `loadPlanets()` with no URL. Once any planets
   * are held the store's guard drops it, so after a failed "load more" the
   * retry button does nothing and the error stays on screen.
   */
  function RetryLoadingAsWritten(s: PlanetsState): (step: LoadStep)
    ensures HasPlanets(s) ==> step.Skipped?
    ensures !HasPlanets(s) ==> step.Started? && step.fetchUrl == s.nextPageUrl
  {
    LoadPlanets(s, None)
  }

  /** A failed "load more" followed by a retry: the retry is dropped and the error stays. */
  lemma RetryAfterFailedLoadMoreIsDropped(s: PlanetsState, message: Option<string>)
    requires HasPlanets(s) && LoadMorePlanets(s).Some?
    ensures var begun := LoadPlanets(s, LoadMorePlanets(s)).state;
      var failed := Complete(begun, Failed(message));
      && ShowError(failed)
      && RetryLoadingAsWritten(failed).Skipped?
  {
  }

  /**
   * `retryLoading` re-issuing the request that can still be made: the stored
   * cursor when there is one, otherwise the first page.
   */
  function RetryLoading(s: PlanetsState): (step: LoadStep)
    ensures GivenUrl(s.nextPageUrl) || !HasPlanets(s) ==> step.Started? && step.fetchUrl == s.nextPageUrl
    ensures !GivenUrl(s.nextPageUrl) && HasPlanets(s) ==> step.Skipped?
  {
    LoadPlanets(s, if GivenUrl(s.nextPageUrl) then s.nextPageUrl else None)
  }

  /** With the corrected retry, a failed "load more" can be retried: it hands the same cursor to the request again. */
  lemma RetryAfterFailedLoadMoreRefetches(s: PlanetsState, message: Option<string>)
    requires HasPlanets(s) && LoadMorePlanets(s).Some?
    ensures var begun := LoadPlanets(s, LoadMorePlanets(s)).state;
      var failed := Complete(begun, Failed(message));
      && RetryLoading(failed).Started?
      && RetryLoading(failed).fetchUrl == s.nextPageUrl
  {
  }

  /** `trackByPlanet`: the uid when it is non-empty, else `${name || 'unknown'}-${index}`. */
  function TrackByPlanet(index: nat, planet: Record): (key: string)
    ensures Truthy(planet, Uid) ==> key == planet[Uid]
    ensures !Truthy(planet, Uid) ==> key == ValueOr(planet, Name, "unknown") + "-" + IntToString(index)
  {
    if Truthy(planet, Uid) then planet[Uid]
    else ValueOr(planet, Name, "unknown") + "-" + IntToString(index)
  }

  /** Two rows without a uid and with the same name get different keys at different positions. */
  lemma TrackByPlanetSeparatesPositions(i: nat, j: nat, a: Record, b: Record)
    requires !Truthy(a, Uid) && !Truthy(b, Uid)
    requires ValueOr(a, Name, "unknown") == ValueOr(b, Name, "unknown")
    requires i != j
    ensures TrackByPlanet(i, a) != TrackByPlanet(j, b)
  {
    var prefix := ValueOr(a, Name, "unknown") + "-";
    if TrackByPlanet(i, a) == TrackByPlanet(j, b) {
      assert prefix + IntToString(i) == prefix + IntToString(j);
      assert IntToString(i) == (prefix + IntToString(i))[|prefix|..];
      assert IntToString(j) == (prefix + IntToString(j))[|prefix|..];
      IntToStringInjective(i, j);
    }
  }
}
