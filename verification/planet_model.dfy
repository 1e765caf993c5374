/**
 * The planet records the application holds and the state of the planets
 * store (src/app/features/planets/models/planet.model.ts).
 *
 * TypeScript tells the record shapes apart by which keys an object has
 * (`'uid' in planet`, `'climate' in planet`), so every view function works on
 * a field-presence `Record`: a map from the keys an object carries to their
 * string values. `Planet` is the declared union and `AsRecord` the object
 * each alternative is at run time.
 */
module PlanetModel {
  import opened Options

  /** The string-valued keys a planet object can carry. */
  datatype Field =
    | Uid | Name | Url
    | Climate | Terrain | Gravity | Population | Diameter
    | RotationPeriod | OrbitalPeriod | SurfaceWater | Created | Edited

  /** The property name of a field in the API's JSON. */
  function KeyName(f: Field): string {
    match f
    case Uid => "uid"
    case Name => "name"
    case Url => "url"
    case Climate => "climate"
    case Terrain => "terrain"
    case Gravity => "gravity"
    case Population => "population"
    case Diameter => "diameter"
    case RotationPeriod => "rotation_period"
    case OrbitalPeriod => "orbital_period"
    case SurfaceWater => "surface_water"
    case Created => "created"
    case Edited => "edited"
  }

  /** An object seen through the keys it has: `f in r` is `'f' in planet`. */
  type Record = map<Field, string>

  /** `!!planet[f]`: the key is present and its string is non-empty. */
  predicate Truthy(r: Record, f: Field) {
    f in r && r[f] != ""
  }

  /** `planet[f] || fallback`. */
  function ValueOr(r: Record, f: Field, fallback: string): (v: string)
    ensures Truthy(r, f) ==> v == r[f]
    ensures !Truthy(r, f) ==> v == fallback
  {
    if Truthy(r, f) then r[f] else fallback
  }

  /** `PlanetDetail`: the twelve string properties of a detailed planet. */
  datatype PlanetDetail = PlanetDetail(
    created: string, edited: string, climate: string, surfaceWater: string,
    name: string, diameter: string, rotationPeriod: string, terrain: string,
    gravity: string, orbitalPeriod: string, population: string, url: string)

  /** `Planet = PlanetDetail | PlanetSummary | (PlanetDetail & { uid: string })`. */
  datatype Planet =
    | Summary(uid: string, name: string, url: string)
    | Detail(detail: PlanetDetail)
    | DetailWithUid(detail: PlanetDetail, uid: string)

  function DetailRecord(d: PlanetDetail): (r: Record)
    ensures forall f :: f in r <==> f != Uid
  {
    var r := map[Created := d.created, Edited := d.edited, Climate := d.climate,
        SurfaceWater := d.surfaceWater, Name := d.name, Diameter := d.diameter,
        RotationPeriod := d.rotationPeriod, Terrain := d.terrain, Gravity := d.gravity,
        OrbitalPeriod := d.orbitalPeriod, Population := d.population, Url := d.url];
    assert forall f: Field :: f.Uid? || f in r;
    r
  }

  /**
   * The object each alternative of the union is at run time. A summary has
   * exactly uid, name and url; a detail has every key but uid; a detail with
   * uid has every key.
   */
  function AsRecord(p: Planet): (r: Record)
    ensures Name in r && Url in r
    ensures Uid in r <==> !p.Detail?
    ensures p.Summary? <==> Climate !in r
    ensures forall f :: f in r <==> (f in {Uid, Name, Url} || !p.Summary?) && (f != Uid || !p.Detail?)
    ensures Uid in r ==> r[Uid] == p.uid
  {
    match p
    case Summary(uid, name, url) => map[Uid := uid, Name := name, Url := url]
    case Detail(d) => DetailRecord(d)
    case DetailWithUid(d, uid) => DetailRecord(d)[Uid := uid]
  }

  /** The view-transition names of a planet's card, sphere and title. */
  datatype Transitions = Transitions(card: string, sphere: string, title: string)

  const NoTransitions := Transitions("", "", "")

  /**
   * The names used when a uid is known: one fixed prefix per element followed
   * by the same uid; all empty when there is no uid.
   */
  function TransitionNames(uid: Option<string>): (t: Transitions)
    ensures uid.None? ==> t == NoTransitions
    ensures uid.Some? ==>
      && t.card == "planet-card-" + uid.value
      && t.sphere == "planet-sphere-" + uid.value
      && t.title == "planet-title-" + uid.value
  {
    match uid
    case None => NoTransitions
    case Some(u) => Transitions("planet-card-" + u, "planet-sphere-" + u, "planet-title-" + u)
  }

  /** The names identify the planet: different uids never share a name, and the three names differ. */
  lemma TransitionNamesIdentifyUid(a: string, b: string)
    ensures TransitionNames(Some(a)).card == TransitionNames(Some(b)).card ==> a == b
    ensures TransitionNames(Some(a)).sphere == TransitionNames(Some(b)).sphere ==> a == b
    ensures TransitionNames(Some(a)).title == TransitionNames(Some(b)).title ==> a == b
    ensures var t := TransitionNames(Some(a)); t.card != t.sphere && t.sphere != t.title && t.card != t.title
  {
    var t, u := TransitionNames(Some(a)), TransitionNames(Some(b));
    assert t.card[12..] == a && u.card[12..] == b;
    assert t.sphere[14..] == a && u.sphere[14..] == b;
    assert t.title[13..] == a && u.title[13..] == b;
    assert t.card[7] == 'c' && t.sphere[7] == 's' && t.title[7] == 't';
  }

  /** `IPlanetsStore`. */
  datatype PlanetsState = PlanetsState(
    planets: seq<Planet>,
    selectedPlanet: Option<Planet>,
    nextPageUrl: Option<string>,
    isLoading: bool,
    error: Option<string>)

  /** `EMPTY_PLANET_STORE`. */
  const EmptyPlanetStore: PlanetsState := PlanetsState([], None, None, false, None)

  /**
   * What one `getPlanets` request delivers: a page of results with its
   * `next` cursor (null on the last page), a missing body, or an error
   * carrying its `message` (absent or empty when the error has none).
   */
  datatype FetchOutcome =
    | Delivered(results: seq<Planet>, next: Option<string>)
    | NoData
    | Failed(message: Option<string>)
}
