/**
 * The planet data services (src/app/shared/services/planet-data.service.ts,
 * Spanish, and src/app/shared/services/planet-data.ts, English): a planet
 * record turned into titled sections of labelled, formatted fields for the
 * card and the detail page.
 *
 * The two files differ only in their labels, so the logic is written once
 * over a `Labels` table and each file is one table. Locale-dependent
 * rendering (`toLocaleString`, `toLocaleDateString`) is a `LocaleOps`
 * parameter.
 */
module PlanetData {
  import opened Options
  import opened JsStrings
  import opened PlanetModel
  import opened Sequences

  /** `'card' | 'detail'`, the variants these services give their sections. */
  datatype SectionVariant = CardSection | DetailSection

  /** `DataField`; `caption` is its `label`. */
  datatype DataField = DataField(caption: string, value: string, key: Field)

  /** Which of a service's sections a section is; the services tell them apart by title only. */
  datatype SectionKind = Environment | Physical | QuickStats | Environmental | Orbital | System

  /** `DataSection`, with the kind its title stands for. */
  datatype DataSection = DataSection(kind: SectionKind, title: string, fields: seq<DataField>, variant: SectionVariant)

  /** Every text a service shows. */
  datatype Labels = Labels(
    environmentTitle: string, physicalTitle: string,
    quickStatsTitle: string, environmentalTitle: string, orbitalTitle: string, systemTitle: string,
    population: string, diameter: string, gravity: string,
    climate: string, terrain: string, surfaceWater: string,
    orbitalPeriod: string, rotationPeriod: string,
    created: string, edited: string,
    days: string, hours: string,
    locale: string)

  /** The labels of planet-data.service.ts. */
  const Spanish := Labels(
    "Ambiente", "Físico",
    "Estadísticas Rápidas", "Datos Ambientales", "Datos Orbitales", "Información del Sistema",
    "Población", "Diámetro", "Gravedad",
    "Clima", "Terreno", "Agua Superficial",
    "Período Orbital", "Período de Rotación",
    "Creado", "Editado",
    " días", " horas",
    "es-ES")

  /** The labels of planet-data.ts. */
  const English := Labels(
    "Environment", "Physical",
    "Quick Stats", "Environmental Data", "Orbital Data", "System Information",
    "Population", "Diameter", "Gravity",
    "Climate", "Terrain", "Surface Water",
    "Orbital Period", "Rotation Period",
    "Created", "Edited",
    " days", " hours",
    "en-US")

  /**
   * The runtime's locale rendering: `num.toLocaleString()`, which uses the
   * runtime's default locale, and `new Date(d).toLocaleDateString(locale, ...)`,
   * which names the service's locale.
   */
  datatype LocaleOps = LocaleOps(toLocaleString: int -> string, formatDate: (string, string) -> string)

  // ---------------------------------------------------------------------
  // String formatters

  /** `parts.map(v => v.trim())`. */
  function TrimAll(parts: seq<string>): (q: seq<string>)
    ensures |q| == |parts|
    ensures forall i :: 0 <= i < |parts| ==> q[i] == Trim(parts[i])
  {
    seq(|parts|, i requires 0 <= i < |parts| => Trim(parts[i]))
  }

  /** `value.split(',').map(v => v.trim()).join(', ')`. */
  function FormatValue(value: string): string {
    Join(TrimAll(Split(value, ',')), ", ")
  }

  /** `parseInt`, then the locale rendering; text that does not parse is kept. */
  function FormatPopulation(ops: LocaleOps, population: string): (r: string)
    ensures ParseInt(population).None? ==> r == population
    ensures ParseInt(population).Some? ==> r == ops.toLocaleString(ParseInt(population).value)
  {
    match ParseInt(population)
    case None => population
    case Some(n) => ops.toLocaleString(n)
  }

  /** `parseInt`, then the locale rendering and " km"; text that does not parse is kept. */
  function FormatDiameter(ops: LocaleOps, diameter: string): (r: string)
    ensures ParseInt(diameter).None? ==> r == diameter
    ensures ParseInt(diameter).Some? ==> r == ops.toLocaleString(ParseInt(diameter).value) + " km"
  {
    match ParseInt(diameter)
    case None => diameter
    case Some(n) => ops.toLocaleString(n) + " km"
  }

  /** Gravity already stated in standard units is kept; otherwise " standard" is appended. */
  function FormatGravity(gravity: string): (r: string)
    ensures Contains(r, "standard")
    ensures Contains(gravity, "standard") ==> r == gravity
    ensures StartsWith(r, gravity)
  {
    if Contains(gravity, "standard") then gravity
    else
      ContainsInContext(gravity + " ", "standard", "", "standard");
      assert gravity + " " + "standard" + "" == gravity + " standard";
      gravity + " standard"
  }

  /** `parseInt`, then the integer followed by `suffix`; text that does not parse is kept. */
  function FormatInteger(value: string, suffix: string): (r: string)
    ensures ParseInt(value).None? ==> r == value
    ensures ParseInt(value).Some? ==> r == IntToString(ParseInt(value).value) + suffix
  {
    match ParseInt(value)
    case None => value
    case Some(n) => IntToString(n) + suffix
  }

  function FormatSurfaceWater(water: string): string {
    FormatInteger(water, "%")
  }

  function FormatOrbitalPeriod(L: Labels, period: string): string {
    FormatInteger(period, L.days)
  }

  function FormatRotationPeriod(L: Labels, period: string): string {
    FormatInteger(period, L.hours)
  }

  // ---------------------------------------------------------------------
  // Fields and sections

  /** `'climate' in planet && 'terrain' in planet`. */
  predicate IsPlanetDetail(r: Record) {
    Climate in r && Terrain in r
  }

  /** The label each key is shown with; every key has one label throughout a service. */
  function Caption(L: Labels, f: Field): string {
    match f
    case Population => L.population
    case Diameter => L.diameter
    case Gravity => L.gravity
    case Climate => L.climate
    case Terrain => L.terrain
    case SurfaceWater => L.surfaceWater
    case OrbitalPeriod => L.orbitalPeriod
    case RotationPeriod => L.rotationPeriod
    case Created => L.created
    case Edited => L.edited
    case _ => KeyName(f)
  }

  /** The formatter each key's value goes through. */
  function FieldValue(L: Labels, ops: LocaleOps, f: Field, v: string): string {
    match f
    case Population => FormatPopulation(ops, v)
    case Diameter => FormatDiameter(ops, v)
    case Gravity => FormatGravity(v)
    case Climate => FormatValue(v)
    case Terrain => FormatValue(v)
    case SurfaceWater => FormatSurfaceWater(v)
    case OrbitalPeriod => FormatOrbitalPeriod(L, v)
    case RotationPeriod => FormatRotationPeriod(L, v)
    case Created => ops.formatDate(L.locale, v)
    case Edited => ops.formatDate(L.locale, v)
    case _ => v
  }

  /** The field pushed for key `f` of record `r`. */
  function MakeField(L: Labels, ops: LocaleOps, r: Record, f: Field): DataField
    requires f in r
  {
    DataField(Caption(L, f), FieldValue(L, ops, f, r[f]), f)
  }

  predicate DistinctKeys(keys: seq<Field>) {
    forall i, j :: 0 <= i < j < |keys| ==> keys[i] != keys[j]
  }

  /**
   * The keys of `keys` whose value in `r` is present and non-empty, in the
   * order of `keys`: one `if (planet.k)` test per key.
   */
  function PresentKeys(r: Record, keys: seq<Field>): (ks: seq<Field>)
    requires DistinctKeys(keys)
    ensures forall i :: 0 <= i < |ks| ==> ks[i] in keys && Truthy(r, ks[i])
    ensures forall f :: f in keys && Truthy(r, f) ==> f in ks
    ensures IsSubsequence(ks, keys)
    ensures |ks| <= |keys|
    decreases |keys|
  {
    if |keys| == 0 then []
    else
      var rest := PresentKeys(r, keys[1..]);
      if Truthy(r, keys[0]) then
        var ks := [keys[0]] + rest;
        assert ks[1..] == rest;
        ks
      else
        assert rest == [] || IsSubsequence(rest, keys[1..]);
        rest
  }

  /** The fields pushed for `keys`: one per present key, in order, with the key's label and formatted value. */
  function Fields(L: Labels, ops: LocaleOps, r: Record, keys: seq<Field>): (fs: seq<DataField>)
    requires DistinctKeys(keys)
    ensures |fs| == |PresentKeys(r, keys)|
    ensures forall i :: 0 <= i < |fs| ==> fs[i].key == PresentKeys(r, keys)[i] && fs[i] == MakeField(L, ops, r, fs[i].key)
  {
    var ks := PresentKeys(r, keys);
    seq(|ks|, i requires 0 <= i < |ks| => MakeField(L, ops, r, ks[i]))
  }

  /** A getter: nothing unless the record is a detail record, else one field per non-empty key. */
  function GetFields(L: Labels, ops: LocaleOps, r: Record, keys: seq<Field>): (fs: seq<DataField>)
    requires DistinctKeys(keys)
    ensures !IsPlanetDetail(r) ==> fs == []
    ensures IsPlanetDetail(r) ==> fs == Fields(L, ops, r, keys)
  {
    if IsPlanetDetail(r) then Fields(L, ops, r, keys) else []
  }

  const QuickStatsKeys := [Population, Diameter, Gravity]
  const EnvironmentalKeys := [Climate, Terrain, SurfaceWater]
  const OrbitalKeys := [OrbitalPeriod, RotationPeriod, Gravity]
  const PhysicalKeys := [Population, Diameter]
  const SystemKeys := [Created, Edited]

  lemma KeyListsDistinct()
    ensures DistinctKeys(QuickStatsKeys) && DistinctKeys(EnvironmentalKeys) && DistinctKeys(OrbitalKeys)
    ensures DistinctKeys(PhysicalKeys) && DistinctKeys(SystemKeys)
  {
  }

  /** A getter returns something exactly when the record is a detail record with one of its keys non-empty. */
  lemma GetFieldsNonEmpty(L: Labels, ops: LocaleOps, r: Record, keys: seq<Field>)
    requires DistinctKeys(keys)
    ensures |GetFields(L, ops, r, keys)| > 0 <==> IsPlanetDetail(r) && exists i :: 0 <= i < |keys| && Truthy(r, keys[i])
  {
    var ks := PresentKeys(r, keys);
    if IsPlanetDetail(r) && exists i :: 0 <= i < |keys| && Truthy(r, keys[i]) {
      var i :| 0 <= i < |keys| && Truthy(r, keys[i]);
      assert keys[i] in ks;
    }
    if |ks| > 0 {
      assert ks[0] in keys;
    }
  }

  /** The title each section kind carries. */
  function Title(L: Labels, kind: SectionKind): string {
    match kind
    case Environment => L.environmentTitle
    case Physical => L.physicalTitle
    case QuickStats => L.quickStatsTitle
    case Environmental => L.environmentalTitle
    case Orbital => L.orbitalTitle
    case System => L.systemTitle
  }

  /** The keys each section kind lists. */
  function SectionKeys(kind: SectionKind): (keys: seq<Field>)
    ensures DistinctKeys(keys)
  {
    match kind
    case Environment => EnvironmentalKeys
    case Physical => PhysicalKeys
    case QuickStats => QuickStatsKeys
    case Environmental => EnvironmentalKeys
    case Orbital => OrbitalKeys
    case System => SystemKeys
  }

  /** The section of a kind, with its title, its fields and the given variant. */
  function Section(L: Labels, ops: LocaleOps, r: Record, kind: SectionKind, variant: SectionVariant): DataSection {
    DataSection(kind, Title(L, kind), GetFields(L, ops, r, SectionKeys(kind)), variant)
  }

  function KindsOf(secs: seq<DataSection>): (ks: seq<SectionKind>)
    ensures |ks| == |secs| && forall i :: 0 <= i < |secs| ==> ks[i] == secs[i].kind
  {
    seq(|secs|, i requires 0 <= i < |secs| => secs[i].kind)
  }

  /** Whether a kind's section would have data for `r`: a detail record with one of the kind's keys non-empty. */
  predicate HasFields(r: Record, kind: SectionKind) {
    IsPlanetDetail(r) && exists i :: 0 <= i < |SectionKeys(kind)| && Truthy(r, SectionKeys(kind)[i])
  }

  /** A section has fields exactly when `HasFields` says so. */
  lemma SectionFieldsNonEmpty(L: Labels, ops: LocaleOps, r: Record, kind: SectionKind, variant: SectionVariant)
    ensures |Section(L, ops, r, kind, variant).fields| > 0 <==> HasFields(r, kind)
  {
    GetFieldsNonEmpty(L, ops, r, SectionKeys(kind));
  }

  /** The sections of the given kinds, in order, all of one variant. */
  function SectionsOf(L: Labels, ops: LocaleOps, r: Record, kinds: seq<SectionKind>, variant: SectionVariant): (secs: seq<DataSection>)
    ensures KindsOf(secs) == kinds
    ensures forall i :: 0 <= i < |secs| ==> secs[i] == Section(L, ops, r, kinds[i], variant)
  {
    seq(|kinds|, i requires 0 <= i < |kinds| => Section(L, ops, r, kinds[i], variant))
  }

  /** The kinds of `kinds` whose getter returns fields, in order. */
  function KindsWithFields(r: Record, kinds: seq<SectionKind>): (ks: seq<SectionKind>)
    ensures IsSubsequence(ks, kinds)
    ensures forall k :: k in ks <==> k in kinds && HasFields(r, k)
    decreases |kinds|
  {
    if |kinds| == 0 then []
    else
      var rest := KindsWithFields(r, kinds[1..]);
      if HasFields(r, kinds[0]) then
        var ks := [kinds[0]] + rest;
        assert ks[1..] == rest;
        ks
      else
        assert rest == [] || IsSubsequence(rest, kinds[1..]);
        rest
  }

  /** The card's section kinds: environment when climate or terrain is non-empty, then physical when population or diameter is. */
  function CardKinds(r: Record): seq<SectionKind> {
    (if IsPlanetDetail(r) && (Truthy(r, Climate) || Truthy(r, Terrain)) then [Environment] else [])
      + (if IsPlanetDetail(r) && (Truthy(r, Population) || Truthy(r, Diameter)) then [Physical] else [])
  }

  /** The card's kinds come in order, each under its own condition, and each has data. */
  lemma CardKindsFacts(r: Record)
    ensures IsSubsequence(CardKinds(r), [Environment, Physical])
    ensures Environment in CardKinds(r) <==> IsPlanetDetail(r) && (Truthy(r, Climate) || Truthy(r, Terrain))
    ensures Physical in CardKinds(r) <==> IsPlanetDetail(r) && (Truthy(r, Population) || Truthy(r, Diameter))
    ensures forall k :: k in CardKinds(r) ==> HasFields(r, k)
  {
    var e := IsPlanetDetail(r) && (Truthy(r, Climate) || Truthy(r, Terrain));
    var p := IsPlanetDetail(r) && (Truthy(r, Population) || Truthy(r, Diameter));
    var ks := CardKinds(r);
    if e {
      assert HasFields(r, Environment) by {
        if Truthy(r, Climate) { assert Truthy(r, SectionKeys(Environment)[0]); }
        else { assert Truthy(r, SectionKeys(Environment)[1]); }
      }
    }
    if p {
      assert HasFields(r, Physical) by {
        if Truthy(r, Population) { assert Truthy(r, SectionKeys(Physical)[0]); }
        else { assert Truthy(r, SectionKeys(Physical)[1]); }
      }
    }
    assert IsSubsequence([Physical], [Physical]) by { assert IsSubsequence([], [Physical][1..]); }
    if e && p {
      assert ks == [Environment, Physical];
      assert [Environment, Physical][1..] == [Physical];
    } else if e {
      assert ks == [Environment];
      assert IsSubsequence([], [Environment, Physical][1..]);
    } else if p {
      assert ks == [Physical];
      assert [Environment, Physical][1..] == [Physical];
    } else {
      assert ks == [];
    }
  }

  /**
   * `formatForCard`: at most two card sections, environment before
   * physical. The environment section is there exactly when climate or
   * terrain is non-empty, the physical one exactly when population or
   * diameter is; a record without the climate or terrain key gets none.
   * Every section shown has at least one field.
   */
  function FormatForCard(L: Labels, ops: LocaleOps, r: Record): (secs: seq<DataSection>)
    ensures IsSubsequence(KindsOf(secs), [Environment, Physical])
    ensures !IsPlanetDetail(r) ==> secs == []
    ensures Environment in KindsOf(secs) <==> IsPlanetDetail(r) && (Truthy(r, Climate) || Truthy(r, Terrain))
    ensures Physical in KindsOf(secs) <==> IsPlanetDetail(r) && (Truthy(r, Population) || Truthy(r, Diameter))
    ensures forall i :: 0 <= i < |secs| ==> secs[i] == Section(L, ops, r, secs[i].kind, CardSection)
    ensures forall i :: 0 <= i < |secs| ==> |secs[i].fields| > 0
  {
    var ks := CardKinds(r);
    CardKindsFacts(r);
    var secs := SectionsOf(L, ops, r, ks, CardSection);
    assert forall i :: 0 <= i < |secs| ==> |secs[i].fields| > 0 by {
      forall i | 0 <= i < |secs| ensures |secs[i].fields| > 0 {
        assert ks[i] in ks;
        SectionFieldsNonEmpty(L, ops, r, ks[i], CardSection);
      }
    }
    secs
  }

  /** The detail page's sections, in display order. */
  const DetailKinds := [QuickStats, Environmental, Orbital, System]

  /**
   * `formatForDetail`: quick stats, environmental, orbital and system
   * sections, in that order, each present exactly when its fields are not
   * empty, all of the detail variant; a record without the climate or
   * terrain key gets none.
   */
  function FormatForDetail(L: Labels, ops: LocaleOps, r: Record): (secs: seq<DataSection>)
    ensures IsSubsequence(KindsOf(secs), DetailKinds)
    ensures !IsPlanetDetail(r) ==> secs == []
    ensures forall k :: k in DetailKinds ==> (k in KindsOf(secs) <==> HasFields(r, k))
    ensures forall i :: 0 <= i < |secs| ==> secs[i] == Section(L, ops, r, secs[i].kind, DetailSection)
    ensures forall i :: 0 <= i < |secs| ==> |secs[i].fields| > 0
  {
    var ks := KindsWithFields(r, DetailKinds);
    var secs := SectionsOf(L, ops, r, ks, DetailSection);
    assert forall i :: 0 <= i < |secs| ==> |secs[i].fields| > 0 by {
      forall i | 0 <= i < |secs| ensures |secs[i].fields| > 0 {
        SectionFieldsNonEmpty(L, ops, r, ks[i], DetailSection);
        assert ks[i] in ks;
      }
    }
    secs
  }

  // ---------------------------------------------------------------------
  // Properties of the formatters

  /** Applying `formatGravity` twice is applying it once. */
  lemma FormatGravityIdempotent(gravity: string)
    ensures FormatGravity(FormatGravity(gravity)) == FormatGravity(gravity)
  {
  }

  /** The trimmed pieces of a comma-separated value: no commas, no outer whitespace. */
  lemma TrimmedPieces(value: string)
    ensures var q := TrimAll(Split(value, ','));
      forall i :: 0 <= i < |q| ==> ',' !in q[i] && Trimmed(q[i])
  {
    var parts := Split(value, ',');
    forall i | 0 <= i < |parts| ensures ',' !in Trim(parts[i]) {
      TrimKeepsOut(parts[i], ',');
    }
  }

  /**
   * `formatValue` keeps the number of comma-separated parts, and applying it
   * twice is applying it once.
   */
  lemma {:induction false} FormatValueIdempotent(value: string)
    ensures |Split(FormatValue(value), ',')| == |Split(value, ',')|
    ensures FormatValue(FormatValue(value)) == FormatValue(value)
  {
    var q := TrimAll(Split(value, ','));
    TrimmedPieces(value);
    SplitJoinCommaSpace(q);
    TrimAllOfSpaced(q);
  }

  /** Trimming the pieces of `Spaced(q)` gives back `q` when its pieces are trimmed. */
  lemma TrimAllOfSpaced(q: seq<string>)
    requires forall i :: 0 <= i < |q| ==> Trimmed(q[i])
    ensures TrimAll(Spaced(q)) == q
  {
    var q2 := TrimAll(Spaced(q));
    forall i | 0 <= i < |q| ensures q2[i] == q[i] {
      if i == 0 {
        TrimOfTrimmed(q[0]);
      } else {
        TrimSpaced(q[i]);
      }
    }
  }

  /** Re-reading a formatted integer gives back the number read from the input. */
  lemma FormatIntegerKeepsNumber(value: string, suffix: string)
    requires |suffix| == 0 || !IsDigit(suffix[0])
    ensures ParseInt(FormatInteger(value, suffix)) == ParseInt(value)
  {
    if ParseInt(value).Some? {
      ParseIntOfIntToString(ParseInt(value).value, suffix);
    }
  }

  /** The three integer formatters of both services keep the number their input holds. */
  lemma IntegerFormattersKeepNumber(value: string)
    ensures ParseInt(FormatSurfaceWater(value)) == ParseInt(value)
    ensures ParseInt(FormatOrbitalPeriod(Spanish, value)) == ParseInt(value)
    ensures ParseInt(FormatRotationPeriod(Spanish, value)) == ParseInt(value)
    ensures ParseInt(FormatOrbitalPeriod(English, value)) == ParseInt(value)
    ensures ParseInt(FormatRotationPeriod(English, value)) == ParseInt(value)
  {
    FormatIntegerKeepsNumber(value, "%");
    FormatIntegerKeepsNumber(value, " días");
    FormatIntegerKeepsNumber(value, " horas");
    FormatIntegerKeepsNumber(value, " days");
    FormatIntegerKeepsNumber(value, " hours");
  }

  /** A diameter is shown as a population would be, followed by " km"; text that does not parse is kept as it is by both. */
  lemma DiameterIsPopulationInKm(ops: LocaleOps, value: string)
    ensures FormatDiameter(ops, value) == if ParseInt(value).Some? then FormatPopulation(ops, value) + " km" else value
    ensures ParseInt(value).None? ==> FormatPopulation(ops, value) == value
  {
  }

  /**
   * Population and diameter depend on their input only through the number
   * `parseInt` reads: two values that read as the same number show alike,
   * whatever follows the digits.
   */
  lemma LocaleFormattersReadNumberOnly(ops: LocaleOps, a: string, b: string)
    requires ParseInt(a).Some? && ParseInt(a) == ParseInt(b)
    ensures FormatPopulation(ops, a) == FormatPopulation(ops, b)
    ensures FormatDiameter(ops, a) == FormatDiameter(ops, b)
  {
  }

  /** Both services show a date in their own locale: Spanish dates in 'es-ES', English ones in 'en-US'. */
  lemma DatesInServiceLocale(ops: LocaleOps, v: string)
    ensures FieldValue(Spanish, ops, Created, v) == ops.formatDate("es-ES", v)
    ensures FieldValue(English, ops, Edited, v) == ops.formatDate("en-US", v)
  {
  }

  /** A non-empty gravity of a detail record is shown both among the quick stats and in the orbital data. */
  lemma GravityShownTwice(L: Labels, ops: LocaleOps, r: Record)
    requires IsPlanetDetail(r) && Truthy(r, Gravity)
    ensures var secs := FormatForDetail(L, ops, r);
      && QuickStats in KindsOf(secs) && Orbital in KindsOf(secs)
      && MakeField(L, ops, r, Gravity) in Section(L, ops, r, QuickStats, DetailSection).fields
      && MakeField(L, ops, r, Gravity) in Section(L, ops, r, Orbital, DetailSection).fields
  {
    assert Gravity in SectionKeys(QuickStats) && Gravity in SectionKeys(Orbital);
    KeyShownInDetail(L, ops, r, QuickStats, Gravity);
    KeyShownInDetail(L, ops, r, Orbital, Gravity);
  }

  /** A non-empty key of a detail record puts its field into every detail section that lists the key. */
  lemma KeyShownInDetail(L: Labels, ops: LocaleOps, r: Record, kind: SectionKind, key: Field)
    requires kind in DetailKinds && key in SectionKeys(kind)
    requires IsPlanetDetail(r) && Truthy(r, key)
    ensures kind in KindsOf(FormatForDetail(L, ops, r))
    ensures MakeField(L, ops, r, key) in Section(L, ops, r, kind, DetailSection).fields
  {
    var fs := Section(L, ops, r, kind, DetailSection).fields;
    KeyListed(L, ops, r, SectionKeys(kind), key);
    assert |fs| > 0;
  }

  /** A key listed by a getter and non-empty in a detail record gets its field. */
  lemma KeyListed(L: Labels, ops: LocaleOps, r: Record, keys: seq<Field>, key: Field)
    requires DistinctKeys(keys) && key in keys
    requires IsPlanetDetail(r) && Truthy(r, key)
    ensures MakeField(L, ops, r, key) in GetFields(L, ops, r, keys)
  {
    var ks := PresentKeys(r, keys);
    var fs := GetFields(L, ops, r, keys);
    assert key in ks;
    var i :| 0 <= i < |ks| && ks[i] == key;
    assert fs[i] == MakeField(L, ops, r, key);
  }
}
