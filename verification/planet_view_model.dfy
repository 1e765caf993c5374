/**
 * The planet data formatter services
 * (src/app/features/planets/services/planet-data-formatter.service.ts, Spanish,
 * and src/app/features/planets/services/planet-data-formatter.ts, English):
 * a planet record turned into the detail page's view model. Unlike the
 * planet data services, they treat the API's 'unknown' and 'n/a' as missing
 * and print a placeholder for them.
 *
 * The two files share their control flow and differ in their texts, so the
 * logic is written once over a `Language`. `parseFloat`, the rendering of a
 * floating-point number and the locale's number and date rendering are a
 * `NumberOps` parameter.
 */
module PlanetViewModel {
  import opened Options
  import opened Sequences
  import opened JsStrings
  import opened PlanetModel

  /** Which of the two services: planet-data-formatter.service.ts or planet-data-formatter.ts. */
  datatype Language = Spanish | English

  /** The unit argument of `formatPeriod`. */
  datatype PeriodUnit = Day | Year

  /**
   * The runtime's number and date handling: `parseFloat` (None for NaN),
   * `${num}` of a float, `num.toFixed(1)`, `num.toLocaleString()` and the
   * services' `toLocaleDateString` calls, which name the locale of their
   * language ('es-ES' or 'en-US').
   */
  datatype NumberOps = NumberOps(
    parseFloat: string -> Option<real>,
    numberText: real -> string,
    toFixed1: real -> string,
    toLocaleString: int -> string,
    formatDate: (Language, string) -> string)

  /** `PlanetStatistic`; `caption` is its `label`. */
  datatype Statistic = Statistic(caption: string, value: string, isVisible: bool)

  /** `PlanetDataSection`. */
  datatype SectionView = SectionView(title: string, fields: seq<Statistic>, isVisible: bool)

  /** `PlanetViewModel`. */
  datatype ViewModel = ViewModel(
    name: string, uid: string, transitions: Transitions,
    quickStats: seq<Statistic>,
    environmentalData: SectionView, orbitalData: SectionView, systemInfo: SectionView)

  // ---------------------------------------------------------------------
  // Texts

  /** The placeholder for a missing or unknown value. */
  function UnknownText(lang: Language): string {
    match lang
    case Spanish => "Desconocido"
    case English => "Unknown"
  }

  /** The name of a planet without one. */
  function UnknownPlanet(lang: Language): string {
    match lang
    case Spanish => "Planeta Desconocido"
    case English => "Unknown Planet"
  }

  /** The label of each statistic. */
  function Caption(lang: Language, f: Field): string {
    match (lang, f)
    case (Spanish, Population) => "Población"
    case (Spanish, Diameter) => "Diámetro"
    case (Spanish, Gravity) => "Gravedad"
    case (Spanish, Climate) => "Clima"
    case (Spanish, Terrain) => "Terreno"
    case (Spanish, SurfaceWater) => "Agua Superficial"
    case (Spanish, RotationPeriod) => "Período de Rotación"
    case (Spanish, OrbitalPeriod) => "Período Orbital"
    case (Spanish, Created) => "Fecha de Registro"
    case (Spanish, Edited) => "Última Actualización"
    case (English, Population) => "Population"
    case (English, Diameter) => "Diameter"
    case (English, Gravity) => "Gravity"
    case (English, Climate) => "Climate"
    case (English, Terrain) => "Terrain"
    case (English, SurfaceWater) => "Surface Water"
    case (English, RotationPeriod) => "Rotation Period"
    case (English, OrbitalPeriod) => "Orbital Period"
    case (English, Created) => "Registration Date"
    case (English, Edited) => "Last Updated"
    case (_, _) => KeyName(f)
  }

  /** The three sections of the view model. */
  datatype SectionKind = EnvironmentalSection | OrbitalSection | SystemSection

  function Title(lang: Language, kind: SectionKind): string {
    match (lang, kind)
    case (Spanish, EnvironmentalSection) => "Datos Ambientales"
    case (Spanish, OrbitalSection) => "Datos Orbitales"
    case (Spanish, SystemSection) => "Información del Sistema"
    case (English, EnvironmentalSection) => "Environmental Data"
    case (English, OrbitalSection) => "Orbital Data"
    case (English, SystemSection) => "System Information"
  }

  // ---------------------------------------------------------------------
  // Unknown values

  /** `isUnknownValue`: exactly 'unknown' or 'n/a', case-sensitive. */
  predicate IsUnknownValue(v: string) {
    v == "unknown" || v == "n/a"
  }

  /** The guard every formatter opens with: `!value || isUnknownValue(value)`. */
  predicate Blank(v: string) {
    v == "" || IsUnknownValue(v)
  }

  /** `hasValidProperty`: the key is present, its value non-empty and not unknown. */
  predicate HasValidProperty(r: Record, f: Field) {
    Truthy(r, f) && !IsUnknownValue(r[f])
  }

  /**
   * `planetData[f]` as a formatter receives it. A missing key reads as
   * `undefined`, which every formatter's guard treats like the empty string.
   */
  function Prop(r: Record, f: Field): (v: string)
    ensures f in r ==> v == r[f]
    ensures f !in r ==> v == ""
  {
    if f in r then r[f] else ""
  }

  // ---------------------------------------------------------------------
  // Formatters

  /**
   * `formatValue`: the placeholder for a blank value; otherwise the value
   * with its first character upper-cased and the rest unchanged.
   */
  function FormatValue(lang: Language, v: string): (r: string)
    ensures Blank(v) ==> r == UnknownText(lang)
    ensures !Blank(v) ==> |r| == |v| && r[0] == UpperChar(v[0]) && r[1..] == v[1..]
  {
    if Blank(v) then UnknownText(lang) else [UpperChar(v[0])] + v[1..]
  }

  /** The scale `formatPopulation` writes a count in. */
  datatype Scale = Billions | Millions | Thousands | Units

  /** The largest of 10^9, 10^6 and 10^3 that `n` reaches. */
  function ScaleOf(n: int): (s: Scale)
    ensures s == Billions <==> n >= 1000000000
    ensures s == Millions <==> 1000000 <= n < 1000000000
    ensures s == Thousands <==> 1000 <= n < 1000000
    ensures s == Units <==> n < 1000
  {
    if n >= 1000000000 then Billions
    else if n >= 1000000 then Millions
    else if n >= 1000 then Thousands
    else Units
  }

  /** The divisor of each scale. */
  function Divisor(s: Scale): int {
    match s
    case Billions => 1000000000
    case Millions => 1000000
    case Thousands => 1000
    case Units => 1
  }

  /** The word after a scaled count. */
  function ScaleSuffix(lang: Language, s: Scale): string {
    match (lang, s)
    case (Spanish, Billions) => " mil millones"
    case (Spanish, Millions) => " millones"
    case (English, Billions) => " billion"
    case (English, Millions) => " million"
    case (_, Thousands) => "K"
    case (_, Units) => ""
  }

  /**
   * The count part of `formatPopulation`: a count of a thousand or more is
   * divided by its scale, written with one decimal and followed by the
   * scale's word; a smaller one is written in the locale's style.
   */
  function ScaledCount(lang: Language, ops: NumberOps, n: int): (r: string)
    ensures ScaleOf(n) == Units ==> r == ops.toLocaleString(n)
    ensures ScaleOf(n) != Units ==>
      r == ops.toFixed1(n as real / Divisor(ScaleOf(n)) as real) + ScaleSuffix(lang, ScaleOf(n))
  {
    if n >= 1000000000 then ops.toFixed1(n as real / 1000000000.0) + ScaleSuffix(lang, Billions)
    else if n >= 1000000 then ops.toFixed1(n as real / 1000000.0) + ScaleSuffix(lang, Millions)
    else if n >= 1000 then ops.toFixed1(n as real / 1000.0) + ScaleSuffix(lang, Thousands)
    else ops.toLocaleString(n)
  }

  /**
   * `formatPopulation`: commas are stripped before `parseInt`, and the
   * count is written by its scale. Text that does not parse is kept as it
   * was.
   */
  function FormatPopulation(lang: Language, ops: NumberOps, v: string): (r: string)
    ensures Blank(v) ==> r == UnknownText(lang)
    ensures !Blank(v) && ParseInt(RemoveCommas(v)).None? ==> r == v
    ensures !Blank(v) && ParseInt(RemoveCommas(v)).Some? ==> r == ScaledCount(lang, ops, ParseInt(RemoveCommas(v)).value)
  {
    if Blank(v) then UnknownText(lang)
    else match ParseInt(RemoveCommas(v))
      case None => v
      case Some(n) => ScaledCount(lang, ops, n)
  }

  /** `formatDiameter`: commas stripped, `parseInt`, the locale's rendering and " km". */
  function FormatDiameter(lang: Language, ops: NumberOps, v: string): (r: string)
    ensures Blank(v) ==> r == UnknownText(lang)
    ensures !Blank(v) && ParseInt(RemoveCommas(v)).None? ==> r == v
    ensures !Blank(v) && ParseInt(RemoveCommas(v)).Some? ==>
      r == ops.toLocaleString(ParseInt(RemoveCommas(v)).value) + " km"
  {
    if Blank(v) then UnknownText(lang)
    else match ParseInt(RemoveCommas(v))
      case None => v
      case Some(n) => ops.toLocaleString(n) + " km"
  }

  /** Within one language the word after a scaled count tells the scale. */
  lemma ScaleSuffixTellsScale(lang: Language, a: Scale, b: Scale)
    requires ScaleSuffix(lang, a) == ScaleSuffix(lang, b)
    ensures a == b
  {
  }

  /** The text after a parsed gravity. */
  function GravityUnit(lang: Language): string {
    match lang
    case Spanish => " G estándar"
    case English => " standard G"
  }

  /**
   * `formatGravity`: the placeholder for a blank value; a value already
   * mentioning 'standard' is kept; a number is written with the standard
   * gravity unit; anything else is kept.
   */
  function FormatGravity(lang: Language, ops: NumberOps, v: string): (r: string)
    ensures Blank(v) ==> r == UnknownText(lang)
    ensures !Blank(v) && Contains(v, "standard") ==> r == v
    ensures !Blank(v) && !Contains(v, "standard") && ops.parseFloat(v).None? ==> r == v
    ensures !Blank(v) && !Contains(v, "standard") && ops.parseFloat(v).Some? ==>
      r == ops.numberText(ops.parseFloat(v).value) + GravityUnit(lang)
  {
    if Blank(v) then UnknownText(lang)
    else if Contains(v, "standard") then v
    else match ops.parseFloat(v)
      case Some(x) => ops.numberText(x) + GravityUnit(lang)
      case None => v
  }

  /** The unit text of `formatPeriod`: singular exactly for the number 1. */
  function PeriodUnitText(lang: Language, unit: PeriodUnit, singular: bool): string {
    match (lang, unit)
    case (Spanish, Day) => if singular then "día estándar" else "días estándares"
    case (Spanish, Year) => if singular then "año estándar" else "años estándares"
    case (English, Day) => if singular then "standard day" else "standard days"
    case (English, Year) => if singular then "standard year" else "standard years"
  }

  /** Within one language the unit text tells both the unit and whether it is singular. */
  lemma PeriodUnitTextTellsUnit(lang: Language, u1: PeriodUnit, singular1: bool, u2: PeriodUnit, singular2: bool)
    requires PeriodUnitText(lang, u1, singular1) == PeriodUnitText(lang, u2, singular2)
    ensures u1 == u2 && singular1 == singular2
  {
  }

  /** `formatPeriod`: a number followed by its unit, singular exactly when the number is 1. */
  function FormatPeriod(lang: Language, ops: NumberOps, v: string, unit: PeriodUnit): (r: string)
    ensures Blank(v) ==> r == UnknownText(lang)
    ensures !Blank(v) && ops.parseFloat(v).None? ==> r == v
    ensures !Blank(v) && ops.parseFloat(v).Some? ==>
      r == ops.numberText(ops.parseFloat(v).value) + " " + PeriodUnitText(lang, unit, ops.parseFloat(v).value == 1.0)
  {
    if Blank(v) then UnknownText(lang)
    else match ops.parseFloat(v)
      case Some(x) => ops.numberText(x) + " " + PeriodUnitText(lang, unit, x == 1.0)
      case None => v
  }

  /** `formatSurfaceWater`: a number followed by '%'. */
  function FormatSurfaceWater(lang: Language, ops: NumberOps, v: string): (r: string)
    ensures Blank(v) ==> r == UnknownText(lang)
    ensures !Blank(v) && ops.parseFloat(v).None? ==> r == v
    ensures !Blank(v) && ops.parseFloat(v).Some? ==> r == ops.numberText(ops.parseFloat(v).value) + "%"
  {
    if Blank(v) then UnknownText(lang)
    else match ops.parseFloat(v)
      case Some(x) => ops.numberText(x) + "%"
      case None => v
  }

  /** `formatDate`: the placeholder for a blank value, else the long date in the language's locale. */
  function FormatDate(lang: Language, ops: NumberOps, v: string): (r: string)
    ensures Blank(v) ==> r == UnknownText(lang)
    ensures !Blank(v) ==> r == ops.formatDate(lang, v)
  {
    if Blank(v) then UnknownText(lang) else ops.formatDate(lang, v)
  }

  /** The formatter each key's value goes through. */
  function FieldValue(lang: Language, ops: NumberOps, f: Field, v: string): string {
    match f
    case Population => FormatPopulation(lang, ops, v)
    case Diameter => FormatDiameter(lang, ops, v)
    case Gravity => FormatGravity(lang, ops, v)
    case Climate => FormatValue(lang, v)
    case Terrain => FormatValue(lang, v)
    case SurfaceWater => FormatSurfaceWater(lang, ops, v)
    case RotationPeriod => FormatPeriod(lang, ops, v, Day)
    case OrbitalPeriod => FormatPeriod(lang, ops, v, Year)
    case Created => FormatDate(lang, ops, v)
    case Edited => FormatDate(lang, ops, v)
    case _ => v
  }

  // ---------------------------------------------------------------------
  // Statistics and sections

  /** The statistic literal written for key `f`, before filtering. */
  function Candidate(lang: Language, ops: NumberOps, r: Record, f: Field): (s: Statistic)
    ensures s.caption == Caption(lang, f)
    ensures s.isVisible <==> HasValidProperty(r, f)
  {
    Statistic(Caption(lang, f), FieldValue(lang, ops, f, Prop(r, f)), HasValidProperty(r, f))
  }

  /** The statistic literals of `keys`, in order. */
  function Candidates(lang: Language, ops: NumberOps, r: Record, keys: seq<Field>): (c: seq<Statistic>)
    ensures |c| == |keys|
    ensures forall i :: 0 <= i < |keys| ==> c[i] == Candidate(lang, ops, r, keys[i])
  {
    seq(|keys|, i requires 0 <= i < |keys| => Candidate(lang, ops, r, keys[i]))
  }

  /** `.filter(stat => stat.isVisible)`. */
  function FilterVisible(stats: seq<Statistic>): (v: seq<Statistic>)
    ensures IsSubsequence(v, stats)
    ensures forall s :: s in v <==> s in stats && s.isVisible
    decreases |stats|
  {
    if |stats| == 0 then []
    else
      var rest := FilterVisible(stats[1..]);
      if stats[0].isVisible then
        var v := [stats[0]] + rest;
        assert v[1..] == rest;
        v
      else
        assert rest == [] || IsSubsequence(rest, stats[1..]);
        rest
  }

  /** The keys of `keys` with a valid property in `r`, in order. */
  function ValidKeys(r: Record, keys: seq<Field>): (vk: seq<Field>)
    ensures IsSubsequence(vk, keys)
    ensures forall f :: f in vk <==> f in keys && HasValidProperty(r, f)
    decreases |keys|
  {
    if |keys| == 0 then []
    else
      var rest := ValidKeys(r, keys[1..]);
      if HasValidProperty(r, keys[0]) then
        var vk := [keys[0]] + rest;
        assert vk[1..] == rest;
        vk
      else
        assert rest == [] || IsSubsequence(rest, keys[1..]);
        rest
  }

  /**
   * Filtering the literals by visibility keeps exactly the statistics of
   * the keys with a valid property, in key order.
   */
  lemma {:induction false} FilterCandidates(lang: Language, ops: NumberOps, r: Record, keys: seq<Field>)
    ensures FilterVisible(Candidates(lang, ops, r, keys)) == Candidates(lang, ops, r, ValidKeys(r, keys))
    decreases |keys|
  {
    if |keys| > 0 {
      var k, rest := keys[0], keys[1..];
      var c := Candidates(lang, ops, r, keys);
      CandidatesCons(lang, ops, r, keys);
      assert c[0] == Candidate(lang, ops, r, k) && c[1..] == Candidates(lang, ops, r, rest);
      FilterCandidates(lang, ops, r, rest);
      var vk := ValidKeys(r, keys);
      if HasValidProperty(r, k) {
        assert vk == [k] + ValidKeys(r, rest);
        CandidatesCons(lang, ops, r, vk);
      } else {
        assert vk == ValidKeys(r, rest);
      }
    }
  }

  /** The literals of a non-empty key list: the first key's, then the rest's. */
  lemma CandidatesCons(lang: Language, ops: NumberOps, r: Record, keys: seq<Field>)
    requires |keys| > 0
    ensures Candidates(lang, ops, r, keys) == [Candidate(lang, ops, r, keys[0])] + Candidates(lang, ops, r, keys[1..])
  {
    var c, t := Candidates(lang, ops, r, keys), Candidates(lang, ops, r, keys[1..]);
    assert forall i :: 1 <= i < |c| ==> c[i] == t[i - 1];
  }

  /** The keys of the quick statistics and of each section, in the source's order. */
  const QuickStatsKeys := [Population, Diameter, Gravity]

  function SectionKeys(kind: SectionKind): seq<Field> {
    match kind
    case EnvironmentalSection => [Climate, Terrain, SurfaceWater]
    case OrbitalSection => [RotationPeriod, OrbitalPeriod]
    case SystemSection => [Created, Edited]
  }

  /**
   * `createQuickStats`: one statistic per valid property among population,
   * diameter and gravity, in that order, each visible and carrying its
   * formatted value.
   */
  function QuickStats(lang: Language, ops: NumberOps, r: Record): (stats: seq<Statistic>)
    ensures stats == Candidates(lang, ops, r, ValidKeys(r, QuickStatsKeys))
    ensures forall i :: 0 <= i < |stats| ==> stats[i].isVisible
  {
    FilterCandidates(lang, ops, r, QuickStatsKeys);
    FilterVisible(Candidates(lang, ops, r, QuickStatsKeys))
  }

  /**
   * `createEnvironmentalData`, `createOrbitalData` and `createSystemInfo`:
   * the section's title, the statistics of its keys that have a valid
   * property, in key order, and `isVisible` exactly when there is one.
   */
  function Section(lang: Language, ops: NumberOps, r: Record, kind: SectionKind): (s: SectionView)
    ensures s.title == Title(lang, kind)
    ensures s.fields == Candidates(lang, ops, r, ValidKeys(r, SectionKeys(kind)))
    ensures forall i :: 0 <= i < |s.fields| ==> s.fields[i].isVisible
    ensures s.isVisible <==> |s.fields| > 0
    ensures s.isVisible <==> exists f :: f in SectionKeys(kind) && HasValidProperty(r, f)
  {
    var keys := SectionKeys(kind);
    VisibleCandidates(lang, ops, r, keys);
    var fields := FilterVisible(Candidates(lang, ops, r, keys));
    SectionView(Title(lang, kind), fields, |fields| > 0)
  }

  /**
   * The visible statistics of some keys are those of the keys with a valid
   * property, in key order; there is one exactly when such a key exists.
   */
  lemma VisibleCandidates(lang: Language, ops: NumberOps, r: Record, keys: seq<Field>)
    ensures var fields := FilterVisible(Candidates(lang, ops, r, keys));
      && fields == Candidates(lang, ops, r, ValidKeys(r, keys))
      && (forall i :: 0 <= i < |fields| ==> fields[i].isVisible)
      && (|fields| > 0 <==> exists f :: f in keys && HasValidProperty(r, f))
  {
    FilterCandidates(lang, ops, r, keys);
    var fields := FilterVisible(Candidates(lang, ops, r, keys));
    forall i | 0 <= i < |fields|
      ensures fields[i].isVisible
    {
      assert fields[i] in fields;
    }
    var vk := ValidKeys(r, keys);
    if exists f :: f in keys && HasValidProperty(r, f) {
      var f :| f in keys && HasValidProperty(r, f);
      assert f in vk;
    }
    if |vk| > 0 {
      assert vk[0] in vk;
    }
  }

  /**
   * `createPlanetViewModel`. The name falls back to the unknown-planet text
   * and the uid to 'N/A' when missing or empty; the transition names are
   * set whenever the record has a uid key, even an empty one.
   */
  function CreatePlanetViewModel(lang: Language, ops: NumberOps, r: Record): (vm: ViewModel)
    ensures Truthy(r, Name) ==> vm.name == r[Name]
    ensures !Truthy(r, Name) ==> vm.name == UnknownPlanet(lang)
    ensures Truthy(r, Uid) ==> vm.uid == r[Uid]
    ensures !Truthy(r, Uid) ==> vm.uid == "N/A"
    ensures Uid in r ==> vm.transitions == TransitionNames(Some(r[Uid]))
    ensures Uid !in r ==> vm.transitions == NoTransitions
    ensures vm.quickStats == QuickStats(lang, ops, r)
    ensures vm.environmentalData == Section(lang, ops, r, EnvironmentalSection)
    ensures vm.orbitalData == Section(lang, ops, r, OrbitalSection)
    ensures vm.systemInfo == Section(lang, ops, r, SystemSection)
  {
    var uid := if Uid in r then r[Uid] else "";
    ViewModel(
      ValueOr(r, Name, UnknownPlanet(lang)),
      if uid != "" then uid else "N/A",
      TransitionNames(if Uid in r then Some(uid) else None),
      QuickStats(lang, ops, r),
      Section(lang, ops, r, EnvironmentalSection),
      Section(lang, ops, r, OrbitalSection),
      Section(lang, ops, r, SystemSection))
  }

  // ---------------------------------------------------------------------
  // Properties

  /** Upper-casing a character twice is upper-casing it once, and never yields a lower-case letter. */
  lemma UpperCharFacts(c: char)
    ensures UpperChar(UpperChar(c)) == UpperChar(c)
    ensures !('a' <= UpperChar(c) <= 'z')
  {
  }

  /** A formatted value is never blank, and formatting it again changes nothing. */
  lemma FormatValueIdempotent(lang: Language, v: string)
    ensures !Blank(FormatValue(lang, v))
    ensures FormatValue(lang, FormatValue(lang, v)) == FormatValue(lang, v)
  {
    var r := FormatValue(lang, v);
    if !Blank(v) {
      UpperCharFacts(v[0]);
      assert r[0] != 'u' && r[0] != 'n';
      assert [UpperChar(r[0])] + r[1..] == r;
    }
  }

  /** Stripping commas leaves a comma-free string alone. */
  lemma {:induction false} RemoveCommasOfCommaFree(s: string)
    requires ',' !in s
    ensures RemoveCommas(s) == s
    decreases |s|
  {
    if |s| > 0 {
      assert ',' !in s[1..];
      RemoveCommasOfCommaFree(s[1..]);
    }
  }

  /**
   * Thousands separators do not change a population's reading: when a
   * value parses after comma removal, the value and its comma-free form
   * format alike.
   */
  lemma PopulationIgnoresCommas(lang: Language, ops: NumberOps, v: string)
    requires !Blank(v) && !Blank(RemoveCommas(v))
    requires ParseInt(RemoveCommas(v)).Some?
    ensures FormatPopulation(lang, ops, RemoveCommas(v)) == FormatPopulation(lang, ops, v)
  {
    RemoveCommasOfCommaFree(RemoveCommas(v));
  }

  /** Text ending in a character other than 'n' and 'a' is neither empty nor an unknown value. */
  lemma NotBlankWithEnding(p: string, ending: string)
    requires |ending| > 0 && ending[|ending| - 1] != 'n' && ending[|ending| - 1] != 'a'
    ensures !Blank(p + ending)
  {
    var t := p + ending;
    assert t[|t| - 1] == ending[|ending| - 1];
  }

  /**
   * The numeric formatters never produce a blank value: the placeholder,
   * the kept input and every unit-suffixed number are all non-empty and
   * not 'unknown' or 'n/a'. A date is not blank when the locale's rendering
   * of it is not.
   */
  lemma FormattersNeverBlank(lang: Language, ops: NumberOps, v: string, unit: PeriodUnit)
    ensures !Blank(FormatDiameter(lang, ops, v))
    ensures !Blank(FormatGravity(lang, ops, v))
    ensures !Blank(FormatPeriod(lang, ops, v, unit))
    ensures !Blank(FormatSurfaceWater(lang, ops, v))
    ensures !Blank(ops.formatDate(lang, v)) ==> !Blank(FormatDate(lang, ops, v))
  {
    DiameterNeverBlank(lang, ops, v);
    FloatFormattersNeverBlank(lang, ops, v, unit);
  }

  lemma DiameterNeverBlank(lang: Language, ops: NumberOps, v: string)
    ensures !Blank(FormatDiameter(lang, ops, v))
  {
    if !Blank(v) && ParseInt(RemoveCommas(v)).Some? {
      NotBlankWithEnding(ops.toLocaleString(ParseInt(RemoveCommas(v)).value), " km");
    }
  }

  lemma FloatFormattersNeverBlank(lang: Language, ops: NumberOps, v: string, unit: PeriodUnit)
    ensures !Blank(FormatGravity(lang, ops, v))
    ensures !Blank(FormatPeriod(lang, ops, v, unit))
    ensures !Blank(FormatSurfaceWater(lang, ops, v))
  {
    if !Blank(v) && ops.parseFloat(v).Some? {
      var x := ops.parseFloat(v).value;
      NotBlankWithEnding(ops.numberText(x), GravityUnit(lang));
      NotBlankWithEnding(ops.numberText(x) + " ", PeriodUnitText(lang, unit, x == 1.0));
      NotBlankWithEnding(ops.numberText(x), "%");
    }
  }

  /**
   * Thousands separators do not change a diameter's reading: when a value
   * parses after comma removal, the value and its comma-free form format
   * alike.
   */
  lemma DiameterIgnoresCommas(lang: Language, ops: NumberOps, v: string)
    requires !Blank(v) && !Blank(RemoveCommas(v))
    requires ParseInt(RemoveCommas(v)).Some?
    ensures FormatDiameter(lang, ops, RemoveCommas(v)) == FormatDiameter(lang, ops, v)
  {
    RemoveCommasOfCommaFree(RemoveCommas(v));
  }

  /** The rendered number `x` followed by `suffix` reads back as `x`, as `parseFloat` reads a leading number. */
  predicate ReadsBack(ops: NumberOps, x: real, suffix: string) {
    ops.parseFloat(ops.numberText(x) + suffix) == Some(x)
  }

  /** A formatted gravity formats to itself again, given that its number reads back. */
  lemma GravityReformatStable(lang: Language, ops: NumberOps, v: string)
    requires !Blank(v) && !Contains(v, "standard") && ops.parseFloat(v).Some?
    requires ReadsBack(ops, ops.parseFloat(v).value, GravityUnit(lang))
    ensures FormatGravity(lang, ops, FormatGravity(lang, ops, v)) == FormatGravity(lang, ops, v)
  {
    NotBlankWithEnding(ops.numberText(ops.parseFloat(v).value), GravityUnit(lang));
  }

  /** A formatted period formats to itself again, given that its number reads back. */
  lemma PeriodReformatStable(lang: Language, ops: NumberOps, v: string, unit: PeriodUnit)
    requires !Blank(v) && ops.parseFloat(v).Some?
    requires var x := ops.parseFloat(v).value;
      ReadsBack(ops, x, " " + PeriodUnitText(lang, unit, x == 1.0))
    ensures FormatPeriod(lang, ops, FormatPeriod(lang, ops, v, unit), unit) == FormatPeriod(lang, ops, v, unit)
  {
    var x := ops.parseFloat(v).value;
    NotBlankWithEnding(ops.numberText(x) + " ", PeriodUnitText(lang, unit, x == 1.0));
    assert ops.numberText(x) + " " + PeriodUnitText(lang, unit, x == 1.0)
        == ops.numberText(x) + (" " + PeriodUnitText(lang, unit, x == 1.0));
  }

  /** A formatted surface water value formats to itself again, given that its number reads back. */
  lemma SurfaceWaterReformatStable(lang: Language, ops: NumberOps, v: string)
    requires !Blank(v) && ops.parseFloat(v).Some?
    requires ReadsBack(ops, ops.parseFloat(v).value, "%")
    ensures FormatSurfaceWater(lang, ops, FormatSurfaceWater(lang, ops, v)) == FormatSurfaceWater(lang, ops, v)
  {
    NotBlankWithEnding(ops.numberText(ops.parseFloat(v).value), "%");
  }

  /** A formatted diameter formats to itself again, given that the locale's rendering reads back. */
  lemma DiameterReformatStable(lang: Language, ops: NumberOps, v: string)
    requires !Blank(v) && ParseInt(RemoveCommas(v)).Some?
    requires var n := ParseInt(RemoveCommas(v)).value;
      ParseInt(RemoveCommas(ops.toLocaleString(n) + " km")) == Some(n)
    ensures FormatDiameter(lang, ops, FormatDiameter(lang, ops, v)) == FormatDiameter(lang, ops, v)
  {
    NotBlankWithEnding(ops.toLocaleString(ParseInt(RemoveCommas(v)).value), " km");
  }

  /**
   * A shown creation or edit date is the locale's rendering of the
   * record's own value: a statistic that is visible never carries the
   * placeholder branch of `formatDate`.
   */
  lemma ShownDateIsRendered(lang: Language, ops: NumberOps, r: Record, f: Field)
    requires f == Created || f == Edited
    requires Candidate(lang, ops, r, f).isVisible
    ensures Candidate(lang, ops, r, f).value == ops.formatDate(lang, r[f])
  {
  }

  /** Larger counts never get a smaller scale. */
  lemma ScaleMonotone(a: int, b: int)
    requires a <= b
    ensures Divisor(ScaleOf(a)) <= Divisor(ScaleOf(b))
  {
  }

  /** A period reads in the singular exactly when it parses to 1. */
  lemma PeriodSingularOnlyForOne(ops: NumberOps, v: string, unit: PeriodUnit)
    requires !Blank(v) && ops.parseFloat(v).Some?
    ensures FormatPeriod(English, ops, v, unit) ==
      ops.numberText(ops.parseFloat(v).value) + " standard " + (if unit == Day then "day" else "year")
        + (if ops.parseFloat(v).value == 1.0 then "" else "s")
  {
  }

  /**
   * The statistics shown are exactly the valid properties: a key's
   * statistic appears in the quick stats or its section if and only if its
   * property is present, non-empty and not unknown.
   */
  lemma ShownIffValid(lang: Language, ops: NumberOps, r: Record, f: Field)
    ensures f in QuickStatsKeys ==>
      (Candidate(lang, ops, r, f) in QuickStats(lang, ops, r) <==> HasValidProperty(r, f))
    ensures forall kind :: f in SectionKeys(kind) ==>
      (Candidate(lang, ops, r, f) in Section(lang, ops, r, kind).fields <==> HasValidProperty(r, f))
  {
    CandidateIn(lang, ops, r, f, ValidKeys(r, QuickStatsKeys));
    forall kind | f in SectionKeys(kind)
      ensures Candidate(lang, ops, r, f) in Section(lang, ops, r, kind).fields <==> HasValidProperty(r, f)
    {
      CandidateIn(lang, ops, r, f, ValidKeys(r, SectionKeys(kind)));
    }
  }

  /** Within one service a key's statistic is found among the literals of a key list exactly when the key is in it. */
  lemma CandidateIn(lang: Language, ops: NumberOps, r: Record, f: Field, keys: seq<Field>)
    ensures Candidate(lang, ops, r, f) in Candidates(lang, ops, r, keys) <==> f in keys
  {
    var c := Candidates(lang, ops, r, keys);
    if Candidate(lang, ops, r, f) in c {
      var i :| 0 <= i < |c| && c[i] == Candidate(lang, ops, r, f);
      CaptionsDistinct(lang, f, keys[i]);
      assert keys[i] == f;
    }
    if f in keys {
      var i :| 0 <= i < |keys| && keys[i] == f;
      assert c[i] == Candidate(lang, ops, r, f);
    }
  }

  /** Different keys of the view model have different captions in either language. */
  lemma CaptionsDistinct(lang: Language, f: Field, g: Field)
    ensures Caption(lang, f) == Caption(lang, g) ==> f == g
  {
  }

  /**
   * The two services agree on everything but text: the same statistics
   * are shown, in the same order, and the same sections are visible.
   */
  lemma LanguagesAgreeOnShape(ops: NumberOps, r: Record)
    ensures |QuickStats(Spanish, ops, r)| == |QuickStats(English, ops, r)|
    ensures forall kind :: Section(Spanish, ops, r, kind).isVisible == Section(English, ops, r, kind).isVisible
    ensures forall kind :: |Section(Spanish, ops, r, kind).fields| == |Section(English, ops, r, kind).fields|
  {
  }

  /** A record with an empty uid shows 'N/A' but still gets transition names, all ending at their prefix. */
  lemma EmptyUidKeepsTransitions(lang: Language, ops: NumberOps, r: Record)
    requires Uid in r && r[Uid] == ""
    ensures CreatePlanetViewModel(lang, ops, r).uid == "N/A"
    ensures CreatePlanetViewModel(lang, ops, r).transitions == Transitions("planet-card-", "planet-sphere-", "planet-title-")
  {
    var vm := CreatePlanetViewModel(lang, ops, r);
    assert vm.transitions == TransitionNames(Some(""));
    assert "planet-card-" + "" == "planet-card-";
    assert "planet-sphere-" + "" == "planet-sphere-";
    assert "planet-title-" + "" == "planet-title-";
  }
}
