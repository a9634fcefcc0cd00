/**
 * The mapper from MLIT region names to the frontend vocabulary, backend/app/region_names.py.
 * The vocabulary and the three constant tables are parameters: what follows holds for any.
 */
module RegionNames {
  import opened Common

  /** `_CHAR_MAP`, `PREFECTURE_NAME_MAP` and `_EXPLICIT_CITY_OVERRIDES` */
  datatype Tables = Tables(
    charMap: map<char, char>,
    prefectureMap: map<string, string>,
    overrides: map<(string, string), string>)

  /** web/field-options.json */
  datatype Options = Options(
    prefectures: seq<string>,
    cities: map<string, seq<string>>,
    wards: map<string, seq<string>>)

  type Match = (Option<string>, Option<string>)

  // ---------------------------------------------------------------------------------------
  // Folding and stripping
  // ---------------------------------------------------------------------------------------

  /** `simplify_japanese`: one character for one character. */
  function Fold(t: Tables, s: string): (r: string)
    ensures |r| == |s|
  {
    seq(|s|, i requires 0 <= i < |s| => if s[i] in t.charMap then t.charMap[s[i]] else s[i])
  }

  /** The characters `^.+郡` would swallow: up to the last 郡 that follows at least one character,
      none of them a line break; 0 when there is no match. */
  function CountyEnd(s: string, n: nat): (e: nat)
    requires n <= |s|
    ensures e <= n
  {
    if n <= 1 then 0
    else if s[n - 1] == '郡' && '\n' !in s[..n - 1] then n
    else CountyEnd(s, n - 1)
  }

  /** `re.sub(r"^.+郡", "", s, count=1)` */
  function WithoutCounty(s: string): string {
    s[CountyEnd(s, |s|)..]
  }

  ghost predicate CountyPrefix(s: string, e: nat) {
    2 <= e <= |s| && s[e - 1] == '郡' && '\n' !in s[..e - 1]
  }

  /** The greedy match: what is stripped is the longest county prefix, and nothing is stripped
      exactly when there is none. */
  lemma {:induction false} CountyEndIsGreedy(s: string, n: nat)
    requires n <= |s|
    ensures var e := CountyEnd(s, n);
            && (e == 0 || CountyPrefix(s, e))
            && (forall k: nat :: k <= n && CountyPrefix(s, k) ==> k <= e)
    decreases n
  {
    if n > 1 {
      CountyEndIsGreedy(s, n - 1);
    }
  }

  // ---------------------------------------------------------------------------------------
  // Prefecture
  // ---------------------------------------------------------------------------------------

  /** `next((item for item in items if simplify_japanese(item) == folded), None)` */
  function FirstWithFold(t: Tables, items: seq<string>, folded: string): (r: Option<string>)
    ensures r.Some? ==> r.value in items && Fold(t, r.value) == folded
    ensures r == None ==> forall x :: x in items ==> Fold(t, x) != folded
  {
    if items == [] then None
    else if Fold(t, items[0]) == folded then Some(items[0])
    else FirstWithFold(t, items[1..], folded)
  }

  function TargetPrefecture(t: Tables, source: string, options: Options): (r: Option<string>)
    ensures r.Some? ==> r.value in options.prefectures
  {
    if source in t.prefectureMap && t.prefectureMap[source] in options.prefectures
    then Some(t.prefectureMap[source])
    else FirstWithFold(t, options.prefectures, Fold(t, source))
  }

  // ---------------------------------------------------------------------------------------
  // City and ward
  // ---------------------------------------------------------------------------------------

  function CitiesOf(options: Options, prefecture: string): seq<string> {
    if prefecture in options.cities then options.cities[prefecture] else []
  }

  function WardsOf(options: Options, prefecture: string, city: string): seq<string> {
    var key := prefecture + "::" + city;
    if key in options.wards then options.wards[key] else []
  }

  /** The empty string is falsy in the source, so it never counts as a match. */
  function Truthy(r: Option<string>): Option<string> {
    if r == Some("") then None else r
  }

  function InsertLonger(city: string, cities: seq<string>): (r: seq<string>)
    ensures |r| == |cities| + 1
    ensures forall x :: x in r <==> x == city || x in cities
  {
    if cities == [] || |cities[0]| <= |city| then [city] + cities
    else [cities[0]] + InsertLonger(city, cities[1..])
  }

  /** `sorted(candidates, key=lambda pair: len(pair[1]), reverse=True)`: folding keeps lengths,
      and equally long names keep their vocabulary order. */
  function LongestFirst(cities: seq<string>): (r: seq<string>)
    ensures |r| == |cities|
    ensures forall x :: x in r <==> x in cities
  {
    if cities == [] then [] else InsertLonger(cities[0], LongestFirst(cities[1..]))
  }

  ghost predicate Descending(cities: seq<string>) {
    |cities| <= 1 || (|cities[0]| >= |cities[1]| && Descending(cities[1..]))
  }

  lemma {:induction false} InsertLongerDescends(city: string, cities: seq<string>)
    requires Descending(cities)
    ensures Descending(InsertLonger(city, cities))
  {
    if cities == [] || |cities[0]| <= |city| {
      assert ([city] + cities)[1..] == cities;
    } else {
      InsertLongerDescends(city, cities[1..]);
      var tail := InsertLonger(city, cities[1..]);
      assert ([cities[0]] + tail)[1..] == tail;
    }
  }

  lemma {:induction false} LongestFirstDescends(cities: seq<string>)
    ensures Descending(LongestFirst(cities))
  {
    if cities == [] {
    } else {
      LongestFirstDescends(cities[1..]);
      InsertLongerDescends(cities[0], LongestFirst(cities[1..]));
    }
  }

  lemma {:induction false} FirstIsLongest(cities: seq<string>, c: string)
    requires Descending(cities) && c in cities
    ensures |c| <= |cities[0]|
  {
    if c != cities[0] {
      FirstIsLongest(cities[1..], c);
    }
  }

  function OfLength(cities: seq<string>, n: nat): seq<string> {
    Filter(cities, (c: string) => |c| == n)
  }

  lemma OfLengthCons(city: string, cities: seq<string>, n: nat)
    ensures OfLength([city] + cities, n) == (if |city| == n then [city] else []) + OfLength(cities, n)
  {
    assert ([city] + cities)[1..] == cities;
  }

  lemma {:induction false} InsertLongerIsStable(city: string, cities: seq<string>, n: nat)
    requires Descending(cities)
    ensures OfLength(InsertLonger(city, cities), n) == OfLength([city] + cities, n)
  {
    hide OfLength;
    if cities == [] || |cities[0]| <= |city| {
    } else {
      InsertLongerIsStable(city, cities[1..], n);
      assert cities == [cities[0]] + cities[1..];
      OfLengthCons(cities[0], InsertLonger(city, cities[1..]), n);
      OfLengthCons(city, cities[1..], n);
      OfLengthCons(cities[0], cities[1..], n);
      OfLengthCons(city, cities, n);
    }
  }

  /** Names of one length stay in vocabulary order, so among equally long decompositions the one
      listed first wins. */
  lemma {:induction false} LongestFirstIsStable(cities: seq<string>, n: nat)
    ensures OfLength(LongestFirst(cities), n) == OfLength(cities, n)
  {
    if cities == [] {
    } else {
      LongestFirstIsStable(cities[1..], n);
      LongestFirstDescends(cities[1..]);
      var tail := LongestFirst(cities[1..]);
      InsertLongerIsStable(cities[0], tail, n);
      assert ([cities[0]] + tail)[1..] == tail;
    }
  }

  /** The ward the loop finds for one city, if the city is a prefix at all. */
  function WardFor(t: Tables, options: Options, prefecture: string, municipality: string, city: string): Option<string> {
    var folded, c := Fold(t, municipality), Fold(t, city);
    if c <= folded
    then Truthy(FirstWithFold(t, WardsOf(options, prefecture, city), folded[|c|..]))
    else None
  }

  function Decompose(t: Tables, options: Options, prefecture: string, municipality: string, cities: seq<string>): Match {
    if cities == [] then (None, None)
    else
      var ward := WardFor(t, options, prefecture, municipality, cities[0]);
      if ward.Some? then (Some(cities[0]), ward)
      else Decompose(t, options, prefecture, municipality, cities[1..])
  }

  /** `_target_city` */
  function TargetCity(t: Tables, source: string, prefecture: string, municipality: string, options: Options): Match {
    var cities := CitiesOf(options, prefecture);
    var key := (source, municipality);
    if key in t.overrides && t.overrides[key] in cities then (Some(t.overrides[key]), None)
    else
      var exact := Truthy(FirstWithFold(t, cities, Fold(t, municipality)));
      if exact.Some? then (exact, None)
      else
        var rest := WithoutCounty(municipality);
        var stripped := if rest == municipality then None else Truthy(FirstWithFold(t, cities, Fold(t, rest)));
        if stripped.Some? then (stripped, None)
        else Decompose(t, options, prefecture, municipality, LongestFirst(cities))
  }

  // What a caller can ask about a municipality, without reference to the search ---------------

  ghost predicate HasOverride(t: Tables, source: string, municipality: string, cities: seq<string>) {
    (source, municipality) in t.overrides && t.overrides[(source, municipality)] in cities
  }

  /** Some non-empty city of the vocabulary folds to the same name. */
  ghost predicate HasExact(t: Tables, name: string, cities: seq<string>) {
    exists c :: c in cities && c != "" && Fold(t, c) == Fold(t, name)
  }

  ghost predicate Splits(t: Tables, options: Options, prefecture: string, municipality: string, city: string, ward: string) {
    && ward in WardsOf(options, prefecture, city) && ward != ""
    && Fold(t, city) + Fold(t, ward) == Fold(t, municipality)
  }

  ghost predicate Decomposable(t: Tables, options: Options, prefecture: string, municipality: string, city: string) {
    exists ward :: Splits(t, options, prefecture, municipality, city, ward)
  }

  lemma Suffix(a: string, b: string)
    ensures a <= a + b && (a + b)[|a|..] == b
  {
  }

  lemma WardForMeansSplit(t: Tables, options: Options, prefecture: string, municipality: string, city: string)
    ensures var r := WardFor(t, options, prefecture, municipality, city);
            && (r.Some? ==> Splits(t, options, prefecture, municipality, city, r.value))
            && (r == None ==> !Decomposable(t, options, prefecture, municipality, city))
  {
    var folded, c := Fold(t, municipality), Fold(t, city);
    var wards := WardsOf(options, prefecture, city);
    assert |Fold(t, "")| == 0;
    if WardFor(t, options, prefecture, municipality, city) == None {
      forall ward | ward in wards && ward != "" ensures c + Fold(t, ward) != folded {
        Suffix(c, Fold(t, ward));
      }
    }
  }

  lemma {:induction false} DecomposeFindsLongest(
      t: Tables, options: Options, prefecture: string, municipality: string, cities: seq<string>)
    requires Descending(cities)
    ensures var (city, ward) := Decompose(t, options, prefecture, municipality, cities);
            && (city.Some? <==> ward.Some?)
            && (city.Some? ==>
                  && city.value in cities
                  && Splits(t, options, prefecture, municipality, city.value, ward.value)
                  && forall c :: c in cities && Decomposable(t, options, prefecture, municipality, c) ==> |c| <= |city.value|)
            && (city == None ==> forall c :: c in cities ==> !Decomposable(t, options, prefecture, municipality, c))
  {
    hide WardFor, Fold, Splits, Decomposable;
    if cities != [] {
      WardForMeansSplit(t, options, prefecture, municipality, cities[0]);
      if WardFor(t, options, prefecture, municipality, cities[0]).Some? {
        forall c | c in cities ensures |c| <= |cities[0]| {
          FirstIsLongest(cities, c);
        }
      } else {
        DecomposeFindsLongest(t, options, prefecture, municipality, cities[1..]);
        assert forall c :: c in cities ==> c == cities[0] || c in cities[1..];
      }
    }
  }

  lemma TruthyFirstMeansExact(t: Tables, cities: seq<string>, name: string)
    ensures var r := Truthy(FirstWithFold(t, cities, Fold(t, name)));
            && (r.Some? <==> HasExact(t, name, cities))
            && (r.Some? ==> r.value in cities && r.value != "" && Fold(t, r.value) == Fold(t, name))
  {
    var first := FirstWithFold(t, cities, Fold(t, name));
    if first == Some("") {
      assert |Fold(t, name)| == |Fold(t, "")| == 0;
      forall c | c in cities && c != "" ensures Fold(t, c) != Fold(t, name) {
        assert |Fold(t, c)| == |c| > 0;
      }
    }
  }

  /** A returned city is in the vocabulary; a returned ward belongs to it, is not empty, and the
      two names together fold to the municipality, with no longer city that would also do; and
      nothing is returned exactly when no override, no exact name, no county-stripped name and no
      decomposition exists. */
  lemma TargetCityIsSoundAndComplete(t: Tables, source: string, prefecture: string, municipality: string, options: Options)
    ensures var (city, ward) := TargetCity(t, source, prefecture, municipality, options);
            var cities := CitiesOf(options, prefecture);
            var rest := WithoutCounty(municipality);
            && (city.Some? ==> city.value in cities)
            && (ward.Some? ==>
                  && city.Some?
                  && Splits(t, options, prefecture, municipality, city.value, ward.value)
                  && forall c :: c in cities && Decomposable(t, options, prefecture, municipality, c) ==> |c| <= |city.value|)
            && (city == None <==>
                  && !HasOverride(t, source, municipality, cities)
                  && !HasExact(t, municipality, cities)
                  && !(rest != municipality && HasExact(t, rest, cities))
                  && forall c :: c in cities ==> !Decomposable(t, options, prefecture, municipality, c))
  {
    hide Fold, Splits, Decomposable, HasExact, FirstWithFold, WithoutCounty;
    var cities := CitiesOf(options, prefecture);
    TruthyFirstMeansExact(t, cities, municipality);
    TruthyFirstMeansExact(t, cities, WithoutCounty(municipality));
    LongestFirstDescends(cities);
    DecomposeFindsLongest(t, options, prefecture, municipality, LongestFirst(cities));
    var (city, ward) := TargetCity(t, source, prefecture, municipality, options);
    if ward.Some? {
      assert Decomposable(t, options, prefecture, municipality, city.value) by {
        DecomposableIntro(t, options, prefecture, municipality, city.value, ward.value);
      }
    } else if city == None {
    } else if !HasOverride(t, source, municipality, cities) {
      assert city == Truthy(FirstWithFold(t, cities, Fold(t, municipality)))
          || city == Truthy(FirstWithFold(t, cities, Fold(t, WithoutCounty(municipality))));
    }
  }

  lemma DecomposableIntro(t: Tables, options: Options, prefecture: string, municipality: string, city: string, ward: string)
    requires Splits(t, options, prefecture, municipality, city, ward)
    ensures Decomposable(t, options, prefecture, municipality, city)
  {
  }

  /** Without a ward the match is the override, the exact name or the county-stripped name, tried
      in that order. */
  lemma CityAlonePriority(t: Tables, source: string, prefecture: string, municipality: string, options: Options)
    ensures var (city, ward) := TargetCity(t, source, prefecture, municipality, options);
            var cities := CitiesOf(options, prefecture);
            var rest := WithoutCounty(municipality);
            && (HasOverride(t, source, municipality, cities) ==>
                  (city, ward) == (Some(t.overrides[(source, municipality)]), None))
            && (!HasOverride(t, source, municipality, cities) && HasExact(t, municipality, cities) ==>
                  ward == None && city.Some? && Fold(t, city.value) == Fold(t, municipality))
            && (!HasOverride(t, source, municipality, cities) && !HasExact(t, municipality, cities)
                && rest != municipality && HasExact(t, rest, cities) ==>
                  ward == None && city.Some? && Fold(t, city.value) == Fold(t, rest))
  {
    hide Fold, FirstWithFold, WithoutCounty, HasExact, Decompose;
    var cities := CitiesOf(options, prefecture);
    TruthyFirstMeansExact(t, cities, municipality);
    TruthyFirstMeansExact(t, cities, WithoutCounty(municipality));
  }

  // ---------------------------------------------------------------------------------------
  // The report
  // ---------------------------------------------------------------------------------------

  const SAMPLE_LIMIT := 10

  /** `_add_sample` */
  function AddSample(samples: seq<string>, value: string): seq<string> {
    if value != "" && value !in samples && |samples| < SAMPLE_LIMIT then samples + [value] else samples
  }

  /** The samples after `values` have been reported one after the other */
  function SamplesFrom(samples: seq<string>, values: seq<string>): seq<string> {
    if values == [] then samples
    else AddSample(SamplesFrom(samples, values[..|values| - 1]), values[|values| - 1])
  }

  function Samples(values: seq<string>): seq<string> {
    SamplesFrom([], values)
  }

  /** Page after page is the same as all at once. */
  lemma {:induction false} SamplesOfPages(samples: seq<string>, a: seq<string>, b: seq<string>)
    ensures SamplesFrom(SamplesFrom(samples, a), b) == SamplesFrom(samples, a + b)
    decreases |b|
  {
    if b == [] {
      assert a + b == a;
    } else {
      assert (a + b)[..|a + b| - 1] == a + b[..|b| - 1];
      SamplesOfPages(samples, a, b[..|b| - 1]);
    }
  }

  /** The distinct non-empty values in the order they first occur. */
  function DistinctValues(values: seq<string>): seq<string> {
    if values == [] then []
    else
      var init, last := DistinctValues(values[..|values| - 1]), values[|values| - 1];
      if last == "" || last in init then init else init + [last]
  }

  /** Whatever is reported, the samples are the first ten distinct non-empty values. */
  lemma {:induction false} SamplesAreFirstDistinct(values: seq<string>)
    ensures var all := DistinctValues(values);
            Samples(values) == if |all| <= SAMPLE_LIMIT then all else all[..SAMPLE_LIMIT]
    decreases |values|
  {
    if values == [] {
    } else {
      SamplesAreFirstDistinct(values[..|values| - 1]);
    }
  }

  class RegionMappingReport {
    var unmappedPrefecture: nat
    var unmappedCity: nat
    var prefectureSamples: seq<string>
    var citySamples: seq<string>
    var typeSamples: seq<string>

    constructor ()
      ensures unmappedPrefecture == 0 && unmappedCity == 0
      ensures prefectureSamples == [] && citySamples == [] && typeSamples == []
    {
      unmappedPrefecture, unmappedCity := 0, 0;
      prefectureSamples, citySamples, typeSamples := [], [], [];
    }
  }

  // ---------------------------------------------------------------------------------------
  // Mapping a row's names
  // ---------------------------------------------------------------------------------------

  datatype Mapped = Mapped(prefecture: Option<string>, city: Option<string>, ward: Option<string>)

  /** `map_region_names` without its re-checks; `options` is None when the vocabulary file is unusable. */
  function MapNames(t: Tables, options: Option<Options>, sourcePrefecture: string, sourceMunicipality: string): Mapped {
    match options
    case None => Mapped(None, None, None)
    case Some(o) =>
      var source, municipality := Strip(sourcePrefecture), Strip(sourceMunicipality);
      match TargetPrefecture(t, source, o)
      case None => Mapped(None, None, None)
      case Some(prefecture) =>
        var (city, ward) := TargetCity(t, source, prefecture, municipality, o);
        Mapped(Some(prefecture), city, ward)
  }

  /** `_target_city` as the loop it is: the first candidate, longest first, whose remainder is a ward. */
  method FindCity(t: Tables, source: string, prefecture: string, municipality: string, options: Options)
    returns (city: Option<string>, ward: Option<string>)
    ensures (city, ward) == TargetCity(t, source, prefecture, municipality, options)
  {
    hide Fold, FirstWithFold, WithoutCounty, LongestFirst;
    var cities := CitiesOf(options, prefecture);
    var key := (source, municipality);
    if key in t.overrides && t.overrides[key] in cities {
      return Some(t.overrides[key]), None;
    }
    city := Truthy(FirstWithFold(t, cities, Fold(t, municipality)));
    if city.Some? {
      return city, None;
    }
    var rest := WithoutCounty(municipality);
    if rest != municipality {
      city := Truthy(FirstWithFold(t, cities, Fold(t, rest)));
      if city.Some? {
        return city, None;
      }
    }
    var candidates := LongestFirst(cities);
    for i := 0 to |candidates|
      invariant Decompose(t, options, prefecture, municipality, candidates)
             == Decompose(t, options, prefecture, municipality, candidates[i..])
    {
      assert candidates[i..][0] == candidates[i] && candidates[i..][1..] == candidates[i + 1..];
      var folded := Fold(t, candidates[i]);
      if !(folded <= Fold(t, municipality)) {
        continue;
      }
      var remainder := Fold(t, municipality)[|folded|..];
      var found := Truthy(FirstWithFold(t, WardsOf(options, prefecture, candidates[i]), remainder));
      if found.Some? {
        return Some(candidates[i]), found;
      }
    }
    return None, None;
  }

  /** `map_region_names`: the result is `MapNames`, so neither re-check ever fires, and the report
      changes by exactly one counter and at most one sample. */
  method MapRegionNames(
      t: Tables, options: Option<Options>, sourcePrefecture: string, sourceMunicipality: string,
      report: RegionMappingReport?)
    returns (r: Mapped)
    modifies report
    ensures r == MapNames(t, options, sourcePrefecture, sourceMunicipality)
    ensures report != null ==>
              var noPrefecture := options.Some? && r.prefecture == None;
              var noCity := r.prefecture.Some? && r.city == None;
              && report.unmappedPrefecture == old(report.unmappedPrefecture) + (if noPrefecture then 1 else 0)
              && report.unmappedCity == old(report.unmappedCity) + (if noCity then 1 else 0)
              && report.prefectureSamples
                 == (if noPrefecture then AddSample(old(report.prefectureSamples), Strip(sourcePrefecture))
                     else old(report.prefectureSamples))
              && report.citySamples
                 == (if noCity then AddSample(old(report.citySamples), Strip(sourceMunicipality))
                     else old(report.citySamples))
              && report.typeSamples == old(report.typeSamples)
  {
    hide TargetCity, TargetPrefecture, Splits, Decomposable, HasOverride, HasExact;
    var source, municipality := Strip(sourcePrefecture), Strip(sourceMunicipality);
    if options == None {
      return Mapped(None, None, None);
    }
    var o := options.value;
    var prefecture := TargetPrefecture(t, source, o);
    if prefecture == None {
      if report != null {
        report.unmappedPrefecture := report.unmappedPrefecture + 1;
        report.prefectureSamples := AddSample(report.prefectureSamples, source);
      }
      return Mapped(None, None, None);
    }
    var city, ward := FindCity(t, source, prefecture.value, municipality, o);
    VocabularyPair(t, source, prefecture.value, municipality, o);
    if city == None {
      if report != null {
        report.unmappedCity := report.unmappedCity + 1;
        report.citySamples := AddSample(report.citySamples, municipality);
      }
      return Mapped(prefecture, None, None);
    }
    if city.value !in CitiesOf(o, prefecture.value) {
      assert false;
    }
    if ward.Some? && ward.value !in WardsOf(o, prefecture.value, city.value) {
      assert false;
    }
    return Mapped(prefecture, city, ward);
  }

  /** Why the re-checks are unreachable. */
  lemma VocabularyPair(t: Tables, source: string, prefecture: string, municipality: string, options: Options)
    ensures var (city, ward) := TargetCity(t, source, prefecture, municipality, options);
            && (city == None ==> ward == None)
            && (city.Some? ==> city.value in CitiesOf(options, prefecture))
            && (ward.Some? ==> ward.value in WardsOf(options, prefecture, city.value))
  {
    hide TargetCity, Fold, WithoutCounty, HasOverride, HasExact, Decomposable;
    TargetCityIsSoundAndComplete(t, source, prefecture, municipality, options);
  }

  // ---------------------------------------------------------------------------------------
  // Normalising the names of a statistics query
  // ---------------------------------------------------------------------------------------

  function OrElse(r: Option<string>, fallback: string): string {
    if r.Some? && r.value != "" then r.value else fallback
  }

  /** `normalize_region_stats_names` */
  function NormalizeStatsNames(t: Tables, options: Option<Options>, prefecture: string, city: string, ward: Option<string>)
    : (string, string, Option<string>)
  {
    match options
    case None => (prefecture, city, ward)
    case Some(o) =>
      var mapped := MapNames(t, options, prefecture, city);
      var p, c := OrElse(mapped.prefecture, prefecture), OrElse(mapped.city, city);
      var w := if ward.Some? then Strip(ward.value) else "";
      (p, c, if w == "" then None
             else
               var known := FirstWithFold(t, WardsOf(o, p, c), Fold(t, w));
               Some(if known.Some? then known.value else w))
  }

  ghost predicate UniqueFold(t: Tables, items: seq<string>) {
    forall x, y :: x in items && y in items && Fold(t, x) == Fold(t, y) ==> x == y
  }

  /** Conditions under which a vocabulary name is its own normal form. */
  ghost predicate Canonical(t: Tables, o: Options, prefecture: string, city: string, ward: Option<string>) {
    && prefecture in o.prefectures && prefecture != "" && Trimmed(prefecture) && UniqueFold(t, o.prefectures)
    && (prefecture in t.prefectureMap && t.prefectureMap[prefecture] in o.prefectures ==>
          t.prefectureMap[prefecture] == prefecture)
    && city in CitiesOf(o, prefecture) && city != "" && Trimmed(city) && UniqueFold(t, CitiesOf(o, prefecture))
    && (HasOverride(t, prefecture, city, CitiesOf(o, prefecture)) ==> t.overrides[(prefecture, city)] == city)
    && (ward.Some? ==>
          && ward.value in WardsOf(o, prefecture, city) && ward.value != "" && Trimmed(ward.value)
          && UniqueFold(t, WardsOf(o, prefecture, city)))
  }

  /** Names already in the vocabulary pass through unchanged. */
  lemma VocabularyNamesAreFixed(t: Tables, o: Options, prefecture: string, city: string, ward: Option<string>)
    requires Canonical(t, o, prefecture, city, ward)
    ensures NormalizeStatsNames(t, Some(o), prefecture, city, ward) == (prefecture, city, ward)
  {
    hide Fold, TargetCity, Decompose, WithoutCounty, HasExact, Strip;
    assert FirstWithFold(t, o.prefectures, Fold(t, prefecture)) == Some(prefecture);
    assert TargetPrefecture(t, prefecture, o) == Some(prefecture);
    hide FirstWithFold, TargetPrefecture;
    var cities := CitiesOf(o, prefecture);
    assert HasExact(t, city, cities) by { ExactIntro(t, city, city, cities); }
    CityAlonePriority(t, prefecture, prefecture, city, o);
    VocabularyPair(t, prefecture, prefecture, city, o);
    assert TargetCity(t, prefecture, prefecture, city, o).0 == Some(city);
  }

  lemma ExactIntro(t: Tables, name: string, c: string, cities: seq<string>)
    requires c in cities && c != "" && Fold(t, c) == Fold(t, name)
    ensures HasExact(t, name, cities)
  {
  }

  /** Unknown names are kept, and a replaced ward folds to the ward that was asked for. */
  lemma UnknownNamesAreKept(t: Tables, o: Options, prefecture: string, city: string, ward: Option<string>)
    ensures NormalizeStatsNames(t, None, prefecture, city, ward) == (prefecture, city, ward)
    ensures var (p, c, w) := NormalizeStatsNames(t, Some(o), prefecture, city, ward);
            var mapped := MapNames(t, Some(o), prefecture, city);
            && (mapped.prefecture == None ==> p == prefecture && c == city)
            && (mapped.city == None ==> c == city)
            && (w.Some? <==> ward.Some? && Strip(ward.value) != "")
            && (w.Some? ==> Fold(t, w.value) == Fold(t, Strip(ward.value)))
            && (w.Some? && w.value !in WardsOf(o, p, c) ==> w.value == Strip(ward.value))
  {
    hide Fold, TargetCity;
  }

  // ---------------------------------------------------------------------------------------
  // The mapping over characters, without folding
  // ---------------------------------------------------------------------------------------

  /** The character map makes the two characters equal; a character outside it stands for itself. */
  predicate SameImage(t: Tables, a: char, b: char) {
    (if a in t.charMap then t.charMap[a] else a) == (if b in t.charMap then t.charMap[b] else b)
  }

  /** Two spellings of one name */
  predicate Similar(t: Tables, a: string, b: string) {
    |a| == |b| && forall i :: 0 <= i < |a| ==> SameImage(t, a[i], b[i])
  }

  lemma SimilarIffSameFold(t: Tables, a: string, b: string)
    ensures Fold(t, a) == Fold(t, b) <==> Similar(t, a, b)
  {
    if Fold(t, a) == Fold(t, b) {
      assert |a| == |b|;
      forall i | 0 <= i < |a| ensures SameImage(t, a[i], b[i]) {
        assert Fold(t, a)[i] == Fold(t, b)[i];
      }
    }
    if Similar(t, a, b) {
      forall i | 0 <= i < |a| ensures Fold(t, a)[i] == Fold(t, b)[i] {
        assert SameImage(t, a[i], b[i]);
      }
      assert Fold(t, a) == Fold(t, b);
    }
  }

  lemma FoldConcat(t: Tables, a: string, b: string)
    ensures Fold(t, a + b) == Fold(t, a) + Fold(t, b)
  {
  }

  /** The search takes the first similar name of the list, and finds one exactly when there is one. */
  lemma {:induction false} FirstSimilar(t: Tables, items: seq<string>, name: string)
    ensures var r := FirstWithFold(t, items, Fold(t, name));
            && (r == None <==> forall x :: x in items ==> !Similar(t, x, name))
            && (r.Some? ==> exists i ::
                  && 0 <= i < |items| && items[i] == r.value && Similar(t, items[i], name)
                  && forall j :: 0 <= j < i ==> !Similar(t, items[j], name))
  {
    hide Fold, Similar;
    if items == [] {
    } else {
      SimilarIffSameFold(t, items[0], name);
      FirstSimilar(t, items[1..], name);
      var r := FirstWithFold(t, items[1..], Fold(t, name));
      if !Similar(t, items[0], name) && r.Some? {
        var i :| 0 <= i < |items[1..]| && items[1..][i] == r.value && Similar(t, items[1..][i], name)
                 && forall j :: 0 <= j < i ==> !Similar(t, items[1..][j], name);
        forall j | 0 <= j < i + 1 ensures !Similar(t, items[j], name) {
          assert j > 0 ==> items[j] == items[1..][j - 1];
        }
        assert items[i + 1] == r.value;
      }
    }
  }

  /** What is left of a name without its county: all of it, or what follows its longest county prefix. */
  lemma WithoutCountyMeans(s: string)
    ensures WithoutCounty(s) == s <==> forall e: nat :: !CountyPrefix(s, e)
    ensures WithoutCounty(s) != s ==> exists e: nat ::
              && CountyPrefix(s, e) && WithoutCounty(s) == s[e..]
              && forall k: nat :: CountyPrefix(s, k) ==> k <= e
  {
    CountyEndIsGreedy(s, |s|);
  }

  /** A city spelt like the name, up to mapped characters */
  ghost predicate Spells(t: Tables, name: string, cities: seq<string>) {
    exists c :: c in cities && c != "" && Similar(t, c, name)
  }

  /** City and ward of the vocabulary that make up the name, up to mapped characters */
  ghost predicate MakesUp(t: Tables, o: Options, prefecture: string, name: string, city: string, ward: string) {
    var key := prefecture + "::" + city;
    key in o.wards && ward in o.wards[key] && ward != "" && Similar(t, city + ward, name)
  }

  lemma SpellsIffExact(t: Tables, name: string, cities: seq<string>)
    ensures Spells(t, name, cities) <==> HasExact(t, name, cities)
  {
    hide Fold, Similar;
    forall c ensures Fold(t, c) == Fold(t, name) <==> Similar(t, c, name) {
      SimilarIffSameFold(t, c, name);
    }
  }

  lemma MakesUpIffSplits(t: Tables, o: Options, prefecture: string, name: string, city: string, ward: string)
    ensures MakesUp(t, o, prefecture, name, city, ward) <==> Splits(t, o, prefecture, name, city, ward)
  {
    FoldConcat(t, city, ward);
    SimilarIffSameFold(t, city + ward, name);
    hide Fold, Similar;
  }

  lemma DecomposableIff(t: Tables, o: Options, prefecture: string, name: string, city: string)
    ensures Decomposable(t, o, prefecture, name, city) <==> exists ward :: MakesUp(t, o, prefecture, name, city, ward)
  {
    hide MakesUp, Splits;
    forall ward ensures MakesUp(t, o, prefecture, name, city, ward) <==> Splits(t, o, prefecture, name, city, ward) {
      MakesUpIffSplits(t, o, prefecture, name, city, ward);
    }
  }

  /** The city and ward found for a trimmed municipality, over characters: an override; else a city
      spelt like it; else a city spelt like what follows its county; else the longest city that makes it
      up with one of its wards; else nothing. */
  lemma CityOverCharacters(t: Tables, source: string, prefecture: string, name: string, o: Options)
    ensures var (city, ward) := TargetCity(t, source, prefecture, name, o);
            var cities := if prefecture in o.cities then o.cities[prefecture] else [];
            var rest := WithoutCounty(name);
            var overridden := (source, name) in t.overrides && t.overrides[(source, name)] in cities;
            && (city.Some? ==> city.value in cities)
            && (overridden ==> city == Some(t.overrides[(source, name)]) && ward == None)
            && (!overridden && Spells(t, name, cities) ==> city.Some? && ward == None && Similar(t, city.value, name))
            && (!overridden && !Spells(t, name, cities) && rest != name && Spells(t, rest, cities) ==>
                  city.Some? && ward == None && Similar(t, city.value, rest))
            && (ward.Some? ==>
                  && city.Some? && MakesUp(t, o, prefecture, name, city.value, ward.value)
                  && forall c, w :: c in cities && MakesUp(t, o, prefecture, name, c, w) ==> |c| <= |city.value|)
            && (city == None <==>
                  && !overridden && !Spells(t, name, cities) && !(rest != name && Spells(t, rest, cities))
                  && forall c, w :: c in cities ==> !MakesUp(t, o, prefecture, name, c, w))
  {
    hide Fold, Similar, Spells, MakesUp, TargetCity, HasExact, Splits, Decomposable, WithoutCounty;
    var (city, ward) := TargetCity(t, source, prefecture, name, o);
    var cities, rest := CitiesOf(o, prefecture), WithoutCounty(name);
    TargetCityIsSoundAndComplete(t, source, prefecture, name, o);
    CityAlonePriority(t, source, prefecture, name, o);
    SpellsIffExact(t, name, cities);
    SpellsIffExact(t, rest, cities);
    if city.Some? {
      SimilarIffSameFold(t, city.value, name);
      SimilarIffSameFold(t, city.value, rest);
      if ward.Some? {
        MakesUpIffSplits(t, o, prefecture, name, city.value, ward.value);
      }
    }
    forall c ensures Decomposable(t, o, prefecture, name, c) <==> exists w :: MakesUp(t, o, prefecture, name, c, w) {
      DecomposableIff(t, o, prefecture, name, c);
    }
  }

  /** The prefecture over characters: the listed translation if the vocabulary has it, else the first
      similar name. */
  lemma PrefectureOverCharacters(t: Tables, source: string, o: Options)
    ensures var r := TargetPrefecture(t, source, o);
            var direct := source in t.prefectureMap && t.prefectureMap[source] in o.prefectures;
            && (direct ==> r == Some(t.prefectureMap[source]))
            && (!direct && r.Some? ==> r.value in o.prefectures && Similar(t, r.value, source))
            && (r == None <==> !direct && forall p :: p in o.prefectures ==> !Similar(t, p, source))
  {
    hide Fold, Similar;
    FirstSimilar(t, o.prefectures, source);
  }

  /** `map_region_names` as a whole looks up the trimmed names. */
  lemma MapNamesLooksUp(t: Tables, o: Options, sourcePrefecture: string, sourceMunicipality: string, p: string, m: string)
    requires Padded(sourcePrefecture, p) && Trimmed(p) && Padded(sourceMunicipality, m) && Trimmed(m)
    ensures var mapped := MapNames(t, Some(o), sourcePrefecture, sourceMunicipality);
            var found := TargetPrefecture(t, p, o);
            && mapped.prefecture == found
            && (found == None ==> mapped.city == None && mapped.ward == None)
            && (found.Some? ==> (mapped.city, mapped.ward) == TargetCity(t, p, found.value, m, o))
  {
    hide TargetCity, TargetPrefecture, Padded;
    PaddedIsStripped(sourcePrefecture, p);
    PaddedIsStripped(sourceMunicipality, m);
  }

  /** A municipality that differs from a city of its prefecture only by mapped characters, and has no
      override, is mapped to a city spelt like it. */
  lemma SpellingsAreMapped(t: Tables, o: Options, sourcePrefecture: string, sourceMunicipality: string,
                           p: string, m: string, city: string)
    requires Padded(sourcePrefecture, p) && Trimmed(p) && Padded(sourceMunicipality, m) && Trimmed(m)
    requires var found := TargetPrefecture(t, p, o);
             && found.Some? && found.value in o.cities && city in o.cities[found.value]
             && !((p, m) in t.overrides && t.overrides[(p, m)] in o.cities[found.value])
    requires city != "" && Similar(t, city, m)
    ensures var mapped := MapNames(t, Some(o), sourcePrefecture, sourceMunicipality);
            && mapped.city.Some? && mapped.ward == None && Similar(t, mapped.city.value, m)
            && mapped.city.value in o.cities[TargetPrefecture(t, p, o).value]
  {
    hide TargetCity, TargetPrefecture, Padded, MakesUp, Similar, Fold;
    var found := TargetPrefecture(t, p, o).value;
    MapNamesLooksUp(t, o, sourcePrefecture, sourceMunicipality, p, m);
    assert Spells(t, m, o.cities[found]);
    CityOverCharacters(t, p, found, m, o);
  }

  /** The names of a statistics query over characters: mapped names replace unknown ones, and the first
      similar ward replaces the one asked for. */
  lemma StatsNamesOverCharacters(t: Tables, o: Options, prefecture: string, city: string, ward: Option<string>)
    ensures var (p, c, w) := NormalizeStatsNames(t, Some(o), prefecture, city, ward);
            var mapped := MapNames(t, Some(o), prefecture, city);
            var wards := if p + "::" + c in o.wards then o.wards[p + "::" + c] else [];
            && p == (if mapped.prefecture.Some? && mapped.prefecture.value != "" then mapped.prefecture.value else prefecture)
            && c == (if mapped.city.Some? && mapped.city.value != "" then mapped.city.value else city)
            && (w.Some? <==> ward.Some? && Strip(ward.value) != "")
            && (w.Some? ==> Similar(t, w.value, Strip(ward.value)))
            && (w.Some? && (exists x :: x in wards && Similar(t, x, Strip(ward.value))) ==> w.value in wards)
  {
    hide Fold, Similar, MapNames, Strip;
    var (p, c, w) := NormalizeStatsNames(t, Some(o), prefecture, city, ward);
    if w.Some? {
      FirstSimilar(t, WardsOf(o, p, c), Strip(ward.value));
      SimilarIffSameFold(t, Strip(ward.value), Strip(ward.value));
    }
  }
}
