/**
 * The planet sphere (src/app/features/planets/components/planet-sphere/planet-sphere.ts):
 * a planet's look is picked from its climate and terrain by a fixed chain of
 * keyword rules, and the look's CSS classes come from a table.
 */
module PlanetSphere {
  import opened Options
  import opened JsStrings
  import opened PlanetModel

  /** The twelve planet looks. */
  datatype PlanetType =
    | Desert | Ice | Ocean | Forest | Urban | GasGiant
    | Volcanic | Crystal | Toxic | Swamp | Rocky | Terrestrial

  /** The name of each look, the key of the class table. */
  function TypeKey(t: PlanetType): string {
    match t
    case Desert => "desert"
    case Ice => "ice"
    case Ocean => "ocean"
    case Forest => "forest"
    case Urban => "urban"
    case GasGiant => "gas-giant"
    case Volcanic => "volcanic"
    case Crystal => "crystal"
    case Toxic => "toxic"
    case Swamp => "swamp"
    case Rocky => "rocky"
    case Terrestrial => "terrestrial"
  }

  /** The look a class-table key names, if any. */
  function KeyType(key: string): (t: Option<PlanetType>)
    ensures t.Some? ==> TypeKey(t.value) == key
  {
    if key == "desert" then Some(Desert)
    else if key == "ice" then Some(Ice)
    else if key == "ocean" then Some(Ocean)
    else if key == "forest" then Some(Forest)
    else if key == "urban" then Some(Urban)
    else if key == "gas-giant" then Some(GasGiant)
    else if key == "volcanic" then Some(Volcanic)
    else if key == "crystal" then Some(Crystal)
    else if key == "toxic" then Some(Toxic)
    else if key == "swamp" then Some(Swamp)
    else if key == "rocky" then Some(Rocky)
    else if key == "terrestrial" then Some(Terrestrial)
    else None
  }

  /** Every look's key is in the table, and names that look alone. */
  lemma KeyTypeOfTypeKey(t: PlanetType)
    ensures KeyType(TypeKey(t)) == Some(t)
  {
  }

  /** The position of each keyword rule in the chain; the terrestrial look has no rule and comes last. */
  function Rank(t: PlanetType): nat {
    match t
    case Desert => 0
    case Ice => 1
    case Ocean => 2
    case Forest => 3
    case Urban => 4
    case GasGiant => 5
    case Volcanic => 6
    case Crystal => 7
    case Toxic => 8
    case Swamp => 9
    case Rocky => 10
    case Terrestrial => 11
  }

  /** Whether a look's keyword rule fires on lower-cased climate `c` and terrain `tr`. */
  predicate Matches(t: PlanetType, c: string, tr: string) {
    match t
    case Desert => Contains(c, "desert") || Contains(tr, "desert")
    case Ice => Contains(c, "frozen") || Contains(c, "ice")
    case Ocean => Contains(tr, "ocean") || Contains(tr, "water")
    case Forest => Contains(tr, "forest") || Contains(tr, "jungle")
    case Urban => Contains(tr, "urban") || Contains(tr, "city")
    case GasGiant => Contains(tr, "gas") || Contains(c, "gas")
    case Volcanic => Contains(c, "volcanic") || Contains(tr, "volcanic")
    case Crystal => Contains(tr, "crystal") || Contains(tr, "crystalline")
    case Toxic => Contains(c, "toxic") || Contains(tr, "toxic")
    case Swamp => Contains(tr, "swamp") || Contains(tr, "marsh")
    case Rocky => Contains(tr, "rocky") || Contains(tr, "rock")
    case Terrestrial => false
  }

  /**
   * The keyword chain of `planetType`: the first rule, in chain order, that
   * fires on the lower-cased climate and terrain; none when no rule fires.
   */
  function KeywordType(c: string, tr: string): (k: Option<PlanetType>)
    ensures k.Some? ==> Matches(k.value, c, tr)
    ensures k.Some? ==> forall t :: Rank(t) < Rank(k.value) ==> !Matches(t, c, tr)
    ensures k.None? ==> forall t :: !Matches(t, c, tr)
  {
    if Contains(c, "desert") || Contains(tr, "desert") then Some(Desert)
    else if Contains(c, "frozen") || Contains(c, "ice") then Some(Ice)
    else if Contains(tr, "ocean") || Contains(tr, "water") then Some(Ocean)
    else if Contains(tr, "forest") || Contains(tr, "jungle") then Some(Forest)
    else if Contains(tr, "urban") || Contains(tr, "city") then Some(Urban)
    else if Contains(tr, "gas") || Contains(c, "gas") then Some(GasGiant)
    else if Contains(c, "volcanic") || Contains(tr, "volcanic") then Some(Volcanic)
    else if Contains(tr, "crystal") || Contains(tr, "crystalline") then Some(Crystal)
    else if Contains(c, "toxic") || Contains(tr, "toxic") then Some(Toxic)
    else if Contains(tr, "swamp") || Contains(tr, "marsh") then Some(Swamp)
    else if Contains(tr, "rocky") || Contains(tr, "rock") then Some(Rocky)
    else None
  }

  /** The lower-cased climate and terrain a detail record is classified by. */
  function LowerClimate(r: Record): string
    requires Climate in r
  {
    ToLower(r[Climate])
  }

  function LowerTerrain(r: Record): string
    requires Terrain in r
  {
    ToLower(r[Terrain])
  }

  /**
   * `planetType`: a record with climate and terrain keys gets the look of
   * the first keyword rule that fires; every other record, and a detail
   * record no rule fires on, is terrestrial.
   */
  function Classify(r: Record): (t: PlanetType)
    ensures !(Climate in r && Terrain in r) ==> t == Terrestrial
    ensures Climate in r && Terrain in r ==> t == KeywordType(LowerClimate(r), LowerTerrain(r)).GetOr(Terrestrial)
  {
    if Climate in r && Terrain in r then
      match KeywordType(LowerClimate(r), LowerTerrain(r))
      case Some(t) => t
      case None => Terrestrial
    else Terrestrial
  }

  /**
   * The classification is case-insensitive: records whose climates and
   * terrains agree up to ASCII case get the same look.
   */
  lemma ClassifyIgnoresCase(r: Record, s: Record)
    requires (Climate in r && Terrain in r) <==> (Climate in s && Terrain in s)
    requires Climate in r && Climate in s ==> ToLower(r[Climate]) == ToLower(s[Climate])
    requires Terrain in r && Terrain in s ==> ToLower(r[Terrain]) == ToLower(s[Terrain])
    ensures Classify(r) == Classify(s)
  {
  }

  /** A text containing `long` contains each of its prefixes. */
  lemma ContainsPrefixOf(s: string, long: string, short: string)
    requires StartsWith(long, short)
    requires Contains(s, long)
    ensures Contains(s, short)
  {
    var i := ContainsWitness(s, long);
    assert s[i..i + |short|] == long[..|short|];
    ContainsAt(s, short, i);
  }

  /**
   * Two of the chain's alternatives never decide anything: 'crystalline'
   * contains 'crystal' and 'rocky' contains 'rock', so the crystal and rocky
   * rules fire exactly on 'crystal' and on 'rock'.
   */
  lemma RedundantKeywords(c: string, tr: string)
    ensures Matches(Crystal, c, tr) <==> Contains(tr, "crystal")
    ensures Matches(Rocky, c, tr) <==> Contains(tr, "rock")
  {
    if Contains(tr, "crystalline") {
      ContainsPrefixOf(tr, "crystalline", "crystal");
    }
    if Contains(tr, "rocky") {
      ContainsPrefixOf(tr, "rocky", "rock");
    }
  }

  /** Ice is decided by the climate alone: the terrain never makes a planet icy. */
  lemma IceOnlyFromClimate(c: string, tr: string, tr2: string)
    ensures Matches(Ice, c, tr) == Matches(Ice, c, tr2)
  {
  }

  /** The gradient of each look in the class table. */
  function Gradient(t: PlanetType): string {
    match t
    case Desert => "bg-gradient-to-br from-yellow-300/80 via-orange-400/70 to-amber-600/60"
    case Ice => "bg-gradient-to-br from-blue-100/80 via-cyan-200/70 to-blue-300/60"
    case Ocean => "bg-gradient-to-br from-blue-300/80 via-blue-500/70 to-blue-700/60"
    case Forest => "bg-gradient-to-br from-green-300/80 via-green-500/70 to-green-700/60"
    case Urban => "bg-gradient-to-br from-gray-300/80 via-slate-400/70 to-gray-600/60"
    case GasGiant => "bg-gradient-to-br from-purple-300/80 via-pink-400/70 to-purple-600/60"
    case Volcanic => "bg-gradient-to-br from-red-400/80 via-orange-500/70 to-red-700/60"
    case Crystal => "bg-gradient-to-br from-pink-200/80 via-purple-300/70 to-indigo-400/60"
    case Toxic => "bg-gradient-to-br from-lime-300/80 via-green-400/70 to-emerald-600/60"
    case Swamp => "bg-gradient-to-br from-green-500/80 via-amber-600/70 to-green-800/60"
    case Rocky => "bg-gradient-to-br from-stone-300/80 via-gray-500/70 to-stone-700/60"
    case Terrestrial => "bg-gradient-to-br from-cyan-300/80 via-blue-400/70 to-purple-500/60"
  }

  /** `planetClasses`: the table's gradient for a key, the terrestrial one for a key not in the table. */
  function PlanetClasses(key: string): (classes: string)
    ensures KeyType(key).Some? ==> classes == Gradient(KeyType(key).value)
    ensures KeyType(key).None? ==> classes == Gradient(Terrestrial)
  {
    match KeyType(key)
    case Some(t) => Gradient(t)
    case None => Gradient(Terrestrial)
  }

  /** Every look the classifier produces has its own gradient: the fallback is never needed. */
  lemma ClassesOfClassified(r: Record)
    ensures PlanetClasses(TypeKey(Classify(r))) == Gradient(Classify(r))
  {
    KeyTypeOfTypeKey(Classify(r));
  }

  /** The `size` input. */
  const SmallSize := "w-16 h-16 sm:w-20 sm:h-20"
  const MediumSize := "w-20 h-20 sm:w-24 sm:h-24 md:w-28 md:h-28 lg:w-32 lg:h-32"
  const LargeSize := "w-32 h-32 sm:w-40 sm:h-40 md:w-48 md:h-48 lg:w-56 lg:h-56"

  /** `sizeClasses`: small, medium and large have their classes; anything else is medium. */
  function SizeClasses(size: string): (classes: string)
    ensures size == "small" ==> classes == SmallSize
    ensures size == "large" ==> classes == LargeSize
    ensures size != "small" && size != "large" ==> classes == MediumSize
  {
    if size == "small" then SmallSize
    else if size == "medium" then MediumSize
    else if size == "large" then LargeSize
    else MediumSize
  }

  /** `sphereTransitionName`: the sphere's name when the record has uid and url keys, else nothing. */
  function SphereTransitionName(r: Record): (name: string)
    ensures Uid in r && Url in r ==> name == TransitionNames(Some(r[Uid])).sphere
    ensures !(Uid in r && Url in r) ==> name == ""
  {
    if Uid in r && Url in r then "planet-sphere-" + r[Uid] else ""
  }

  /**
   * By the shape of the planet: summaries and details with a uid get the
   * sphere name the detail page uses for the same uid, plain details none.
   */
  lemma SphereNameByShape(p: Planet)
    ensures p.Detail? ==> SphereTransitionName(AsRecord(p)) == ""
    ensures !p.Detail? ==> SphereTransitionName(AsRecord(p)) == TransitionNames(Some(p.uid)).sphere
  {
  }
}

/**
 * The second planet sphere
 * (src/app/features/planets/components/planet-sphere/planet-sphere.component.ts):
 * the same keyword chain, but a record no rule fires on gets a look derived
 * from its name, and the classes depend on a display variant.
 */
module PlanetSphereComponent {
  import opened Options
  import opened JsStrings
  import opened PlanetModel
  import opened PlanetSphere

  /** The `planetTypes` list the name hash indexes. */
  const TypeList: seq<PlanetType> :=
    [Desert, Ice, Ocean, Forest, Urban, GasGiant, Volcanic, Crystal, Toxic, Swamp, Rocky, Terrestrial]

  /** The list holds every look once, each at its rank. */
  lemma TypeListByRank(t: PlanetType)
    ensures |TypeList| == 12 && TypeList[Rank(t)] == t
  {
  }

  /** `split('').reduce((acc, char) => acc + char.charCodeAt(0), 0)`. */
  function CodeSum(s: string): (n: nat)
    ensures |s| == 0 ==> n == 0
  {
    if |s| == 0 then 0 else CodeSum(s[..|s| - 1]) + s[|s| - 1] as nat
  }

  /** The sum over a concatenation is the sum of the sums. */
  lemma {:induction false} CodeSumAppend(a: string, b: string)
    ensures CodeSum(a + b) == CodeSum(a) + CodeSum(b)
    decreases |b|
  {
    if |b| > 0 {
      assert (a + b)[..|a + b| - 1] == a + b[..|b| - 1];
      assert (a + b)[|a + b| - 1] == b[|b| - 1];
      CodeSumAppend(a, b[..|b| - 1]);
    } else {
      assert a + b == a;
    }
  }

  /** The name the hash is taken of: the lower-cased name, or '' without one. */
  function HashedName(r: Record): string {
    ToLower(ValueOr(r, Name, ""))
  }

  /** `nameHash % planetTypes.length`. */
  function NameIndex(r: Record): (i: nat)
    ensures i < |TypeList|
  {
    CodeSum(HashedName(r)) % |TypeList|
  }

  /**
   * `planetType`: a detail record gets the look of the first keyword rule
   * that fires; otherwise the look at the name hash's index.
   */
  function ComponentType(r: Record): (t: PlanetType)
    ensures t in TypeList
    ensures Climate in r && Terrain in r && KeywordType(LowerClimate(r), LowerTerrain(r)).Some? ==>
      t == KeywordType(LowerClimate(r), LowerTerrain(r)).value
    ensures !(Climate in r && Terrain in r && KeywordType(LowerClimate(r), LowerTerrain(r)).Some?) ==>
      t == TypeList[CodeSum(HashedName(r)) % 12]
  {
    if Climate in r && Terrain in r then
      match KeywordType(LowerClimate(r), LowerTerrain(r))
      case Some(t) =>
        TypeListByRank(t);
        t
      case None => TypeList[NameIndex(r)]
    else TypeList[NameIndex(r)]
  }

  /** Wherever the first sphere finds a keyword look, the second finds the same one. */
  lemma AgreesWithKeywordSphere(r: Record)
    ensures Classify(r) != Terrestrial ==> ComponentType(r) == Classify(r)
    ensures Classify(r) == Terrestrial ==> ComponentType(r) == TypeList[NameIndex(r)]
  {
  }

  /** A record without a name, or with an empty one, that no rule fires on is a desert. */
  lemma NamelessIsDesert(r: Record)
    requires !Truthy(r, Name)
    requires !(Climate in r && Terrain in r) || KeywordType(LowerClimate(r), LowerTerrain(r)).None?
    ensures ComponentType(r) == Desert
  {
  }

  /**
   * The fallback depends on the name only, up to ASCII case and the order
   * of its two halves: swapping a name's halves keeps the look.
   */
  lemma FallbackIgnoresOrder(r: Record, s: Record, a: string, b: string)
    requires !(Climate in r && Terrain in r) && !(Climate in s && Terrain in s)
    requires HashedName(r) == a + b && HashedName(s) == b + a
    ensures ComponentType(r) == ComponentType(s)
  {
    CodeSumAppend(a, b);
    CodeSumAppend(b, a);
  }

  /** The `variant` input. */
  datatype Variant = Holographic | Realistic | Minimal

  /** The text colour each variant starts its classes with. */
  function VariantPrefix(v: Variant): string {
    match v
    case Holographic => "text-cyan-400 "
    case Realistic => "text-blue-400 "
    case Minimal => "text-gray-400 "
  }

  /** The terrestrial gradient outside the holographic variant. */
  const PlainTerrestrialGradient := "bg-gradient-to-br from-blue-300/80 via-blue-400/70 to-green-300/60"

  /**
   * The `switch` of `planetClasses`: the component's own gradient table.
   * It agrees with the first sphere's table on every look but the
   * terrestrial one, and on that one too in the holographic variant.
   */
  function SwitchGradient(t: PlanetType, v: Variant): (gradient: string)
    ensures t != Terrestrial || v == Holographic ==> gradient == Gradient(t)
    ensures t == Terrestrial && v != Holographic ==> gradient == PlainTerrestrialGradient
  {
    match t
    case Desert => "bg-gradient-to-br from-yellow-300/80 via-orange-400/70 to-amber-600/60"
    case Ice => "bg-gradient-to-br from-blue-100/80 via-cyan-200/70 to-blue-300/60"
    case Ocean => "bg-gradient-to-br from-blue-300/80 via-blue-500/70 to-blue-700/60"
    case Forest => "bg-gradient-to-br from-green-300/80 via-green-500/70 to-green-700/60"
    case Urban => "bg-gradient-to-br from-gray-300/80 via-slate-400/70 to-gray-600/60"
    case GasGiant => "bg-gradient-to-br from-purple-300/80 via-pink-400/70 to-purple-600/60"
    case Volcanic => "bg-gradient-to-br from-red-400/80 via-orange-500/70 to-red-700/60"
    case Crystal => "bg-gradient-to-br from-pink-200/80 via-purple-300/70 to-indigo-400/60"
    case Toxic => "bg-gradient-to-br from-lime-300/80 via-green-400/70 to-emerald-600/60"
    case Swamp => "bg-gradient-to-br from-green-500/80 via-amber-600/70 to-green-800/60"
    case Rocky => "bg-gradient-to-br from-stone-300/80 via-gray-500/70 to-stone-700/60"
    case Terrestrial =>
      if v == Holographic then "bg-gradient-to-br from-cyan-300/80 via-blue-400/70 to-purple-500/60"
      else PlainTerrestrialGradient
  }

  /**
   * `planetClasses`: the variant's colour, then the look's gradient. Every
   * look but the terrestrial one uses the first sphere's gradient; the
   * terrestrial one does too only in the holographic variant.
   */
  function ComponentClasses(t: PlanetType, v: Variant): (classes: string)
    ensures StartsWith(classes, VariantPrefix(v))
    ensures t != Terrestrial || v == Holographic ==> classes == VariantPrefix(v) + Gradient(t)
    ensures t == Terrestrial && v != Holographic ==> classes == VariantPrefix(v) + PlainTerrestrialGradient
  {
    var prefix := VariantPrefix(v);
    var classes := prefix + SwitchGradient(t, v);
    assert classes[..|prefix|] == prefix;
    classes
  }

  /** A class string starts with one variant colour only: the colours differ in their sixth character. */
  lemma PrefixTellsVariant(classes: string, v: Variant, w: Variant)
    requires StartsWith(classes, VariantPrefix(v)) && StartsWith(classes, VariantPrefix(w))
    ensures v == w
  {
    assert classes[5] == VariantPrefix(v)[5];
    assert classes[5] == VariantPrefix(w)[5];
  }

  /** The variant colours differ, so the classes tell the variant. */
  lemma ClassesTellVariant(t: PlanetType, u: PlanetType, v: Variant, w: Variant)
    requires ComponentClasses(t, v) == ComponentClasses(u, w)
    ensures v == w
  {
    PrefixTellsVariant(ComponentClasses(t, v), v, w);
  }
}
