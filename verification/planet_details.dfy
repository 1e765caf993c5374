/**
 * The planet details page (src/app/features/planets/pages/planet-details/planet-details.ts):
 * looking a planet up in the store by uid and the names derived from it.
 */
module PlanetDetails {
  import opened Options
  import opened PlanetModel
  import opened PlanetsStore

  /** `'uid' in p && p.uid === planetId`. */
  predicate Matches(p: Planet, planetId: string) {
    var r := AsRecord(p);
    Uid in r && r[Uid] == planetId
  }

  /** Position of the first planet whose uid is `planetId` (`Array.prototype.findIndex`). */
  function FindIndex(planets: seq<Planet>, planetId: string): (r: Option<nat>)
    ensures r.Some? ==> r.value < |planets| && Matches(planets[r.value], planetId)
    ensures r.Some? ==> forall j :: 0 <= j < r.value ==> !Matches(planets[j], planetId)
    ensures r.None? <==> forall j :: 0 <= j < |planets| ==> !Matches(planets[j], planetId)
    decreases |planets|
  {
    if |planets| == 0 then None
    else if Matches(planets[0], planetId) then Some(0)
    else
      match FindIndex(planets[1..], planetId)
      case None => None
      case Some(k) => Some(k + 1)
  }

  /** The `planet` computed: the first stored planet with that uid, or null. */
  function FindPlanet(planets: seq<Planet>, planetId: string): (r: Option<Planet>)
    ensures r.Some? ==> r.value in planets && Matches(r.value, planetId)
    ensures r.None? <==> forall j :: 0 <= j < |planets| ==> !Matches(planets[j], planetId)
    ensures r.Some? ==>
      exists i :: 0 <= i < |planets| && planets[i] == r.value && forall j :: 0 <= j < i ==> !Matches(planets[j], planetId)
  {
    match FindIndex(planets, planetId)
    case None => None
    case Some(i) => Some(planets[i])
  }

  /** A detail record without a uid key is never found, whatever id is asked for. */
  lemma RecordsWithoutUidNeverMatch(p: Planet, planetId: string)
    requires p.Detail?
    ensures !Matches(p, planetId)
  {
  }

  /** The uid of the matched planet, when there is one and it has a uid key. */
  function FoundUid(found: Option<Planet>): (u: Option<string>)
    ensures u.Some? <==> found.Some? && !found.value.Detail?
    ensures u.Some? ==> u.value == found.value.uid
  {
    if found.Some? && Uid in AsRecord(found.value) then Some(AsRecord(found.value)[Uid]) else None
  }

  /** `planetUid`: the matched planet's uid, or 'N/A' when nothing matched. */
  function PlanetUid(planets: seq<Planet>, planetId: string): (u: string)
    ensures FindPlanet(planets, planetId).Some? ==> u == planetId
    ensures FindPlanet(planets, planetId).None? ==> u == "N/A"
  {
    FoundUid(FindPlanet(planets, planetId)).GetOr("N/A")
  }

  /**
   * The card, sphere and title transition names: the three prefixes followed
   * by the requested uid when a planet matched, all empty otherwise.
   */
  function PageTransitions(planets: seq<Planet>, planetId: string): (t: Transitions)
    ensures FindPlanet(planets, planetId).Some? ==> t == TransitionNames(Some(planetId))
    ensures FindPlanet(planets, planetId).None? ==> t == NoTransitions
  {
    TransitionNames(FoundUid(FindPlanet(planets, planetId)))
  }

  /** `ngOnInit`: the first page is requested only when the store holds no planets. */
  function OnInit(s: PlanetsState): (call: Option<LoadStep>)
    ensures call.Some? <==> !HasPlanets(s)
    ensures call.Some? ==> call.value.Started? && call.value.fetchUrl == s.nextPageUrl
  {
    if |s.planets| == 0 then Some(LoadPlanets(s, None)) else None
  }

  /** `goBack` navigates to the root route. */
  const BackRoute := "/"
}
