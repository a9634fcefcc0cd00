/**
 * The row normalisers of scripts/import_mlit_transactions.py: what the importer hands to the
 * upsert, and why equal source keys there mean equal rows.
 */
module MlitNormalize {
  import opened Common
  import opened MlitImport
  import RegionNames
  import TradeQuarter
  import Decimal

  type Raw = map<string, string>

  /** What the normalisers take from outside: the vocabulary and tables of the region mapper,
      Python's `float`, and SHA-256 over the canonical JSON text of a record. */
  datatype Env = Env(
    tables: RegionNames.Tables,
    options: Option<RegionNames.Options>,
    parseFloat: string -> Option<real>,
    sha256: Raw -> string)

  const SOURCE_ID := "bf4b6d56-f7ed-4e66-b599-3900e22001d6"
  const TRANSFORMATION_VERSION := "mlit-xit001-normalizer-v1"
  const SOURCE_URL := "https://www.reinfolib.mlit.go.jp/realEstatePrices/"
  const LIMITATIONS :=
    "Official closed-transaction observations; exclude incomplete or nonpositive price and area fields."
  const MISSING_VALUE_POLICY := "exclude_missing_or_nonpositive_price_or_area"

  /** `row.get(name) or ""` */
  function Get(raw: Raw, name: string): (r: string)
    ensures name in raw ==> r == raw[name]
    ensures name !in raw ==> r == ""
  {
    if name in raw then raw[name] else ""
  }

  function MapAssetType(kind: string): Option<string> {
    var k := Strip(kind);
    if k == "中古マンション等" then Some("公寓")
    else if k == "宅地(土地と建物)" then Some("独栋")
    else if k == "宅地(土地)" || k == "土地" then Some("土地")
    else None
  }

  function WithoutCommas(s: string): string {
    Filter(s, (c: char) => c != ',')
  }

  /** `_number` */
  function Number(env: Env, value: string): (r: Option<real>)
    ensures r.Some? ==> r.value > 0.0
  {
    var text := WithoutCommas(Strip(value));
    if text == "" || text == "-" || text == "不明" then None
    else
      var n := env.parseFloat(text);
      if n.Some? && n.value > 0.0 then n else None
  }

  function NoneIfEmpty(s: string): Option<string> {
    if s == "" then None else Some(s)
  }

  /** `int(x or 0) or None` */
  function WholeMinutes(n: Option<real>): Option<int> {
    if n.Some? && n.value.Floor != 0 then Some(n.value.Floor) else None
  }

  /** The part both normalisers share, once their fields are read. */
  function BuildRow(env: Env, raw: Raw, at: int, kind: string, assetType: string, year: int, quarter: string,
                    price: real, area: real, unitPrice: real, names: RegionNames.Mapped,
                    station: Option<string>, minutes: Option<int>, layout: Option<string>): Option<Row> {
    if RegionNames.Truthy(names.prefecture) == None || RegionNames.Truthy(names.city) == None then None
    else
      Some(Row(Key(SOURCE_ID, env.sha256(raw)),
        Columns(names.prefecture.value, names.city.value, names.ward, kind, assetType,
                RoundHalfEven(price), area, unitPrice, quarter, year, station, minutes, layout, raw, at,
                "verified_observation", SOURCE_URL, at, quarter, TRANSFORMATION_VERSION,
                "rights_confirmed", "yes", LIMITATIONS, MISSING_VALUE_POLICY)))
  }

  /** `normalize_xit001_row` */
  function NormalizeXit001(env: Env, raw: Raw, at: int): Option<Row> {
    var kind := Strip(Get(raw, "Type"));
    var assetType := MapAssetType(kind);
    var quarter := TradeQuarter.ImportedQuarter(Strip(Get(raw, "Period")));
    var price, area := Number(env, Get(raw, "TradePrice")), Number(env, Get(raw, "Area"));
    if assetType == None || quarter == None || price == None || area == None then None
    else
      var names := RegionNames.MapNames(env.tables, env.options, Get(raw, "Prefecture"),
                                        Strip(Get(raw, "Municipality")));
      var unit := Number(env, Get(raw, "UnitPrice"));
      BuildRow(env, raw, at, kind, assetType.value, quarter.value.0, quarter.value.1, price.value, area.value,
               if unit.Some? then unit.value else price.value / area.value, names,
               None, None, NoneIfEmpty(Strip(Get(raw, "FloorPlan"))))
  }

  /** `normalize_row`, for the CSV column names */
  function NormalizeCsv(env: Env, raw: Raw, at: int): Option<Row> {
    var kind := Strip(Get(raw, "種類"));
    var assetType := MapAssetType(kind);
    var quarter := TradeQuarter.ImportedQuarter(Strip(Get(raw, "取引時期")));
    var price, area := Number(env, Get(raw, "取引価格（総額）")), Number(env, Get(raw, "面積（㎡）"));
    if assetType == None || quarter == None || price == None || area == None then None
    else
      var names := RegionNames.MapNames(env.tables, env.options, Strip(Get(raw, "都道府県名")),
                                        Strip(Get(raw, "市区町村名")));
      BuildRow(env, raw, at, kind, assetType.value, quarter.value.0, quarter.value.1, price.value, area.value,
               price.value / area.value, names,
               NoneIfEmpty(Strip(Get(raw, "最寄駅：名称"))),
               WholeMinutes(Number(env, Get(raw, "最寄駅：距離（分）"))),
               NoneIfEmpty(Strip(Get(raw, "間取り"))))
  }

  datatype Source = Api | Csv

  function Normalize(env: Env, source: Source, raw: Raw, at: int): Option<Row> {
    match source case Api => NormalizeXit001(env, raw, at) case Csv => NormalizeCsv(env, raw, at)
  }

  /** The rows of one import run: one source, one import time. */
  function NormalizeAll(env: Env, source: Source, raws: seq<Raw>, at: int): seq<Row> {
    if raws == [] then []
    else
      var r := Normalize(env, source, raws[|raws| - 1], at);
      NormalizeAll(env, source, raws[..|raws| - 1], at) + (if r.Some? then [r.value] else [])
  }

  /** What an emitted row promises: keyed by its whole record, positive amounts, vocabulary region. */
  ghost predicate GoodRow(env: Env, raw: Raw, at: int, row: Row) {
    var c := row.columns;
    && row.key == Key(SOURCE_ID, env.sha256(raw)) && c.raw == raw
    && c.areaSqm > 0.0 && c.unitPrice > 0.0 && c.priceJpy >= 0
    && c.retrievedAt == c.importedAt == at
    && c.prefecture != "" && c.city != ""
    && env.options.Some?
    && c.prefecture in env.options.value.prefectures
    && c.city in RegionNames.CitiesOf(env.options.value, c.prefecture)
    && (c.ward.Some? ==> c.ward.value in RegionNames.WardsOf(env.options.value, c.prefecture, c.city))
  }

  lemma BuiltRow(env: Env, raw: Raw, at: int, kind: string, assetType: string, year: int, quarter: string,
                 price: real, area: real, unitPrice: real, prefecture: string, municipality: string,
                 station: Option<string>, minutes: Option<int>, layout: Option<string>)
    requires price > 0.0 && area > 0.0 && unitPrice > 0.0
    ensures var names := RegionNames.MapNames(env.tables, env.options, prefecture, municipality);
            var row := BuildRow(env, raw, at, kind, assetType, year, quarter, price, area, unitPrice, names,
                                station, minutes, layout);
            row.Some? ==> GoodRow(env, raw, at, row.value)
  {
    hide RegionNames.MapNames, RegionNames.CitiesOf, RegionNames.WardsOf;
    MappedNamesAreInVocabulary(env, prefecture, municipality);
  }

  lemma RatioPositive(a: real, b: real)
    requires a > 0.0 && b > 0.0
    ensures a / b > 0.0
  {
  }

  /** An emitted row is keyed by its whole record, carries positive amounts and a vocabulary region. */
  lemma EmittedRow(env: Env, source: Source, raw: Raw, at: int)
    requires Normalize(env, source, raw, at).Some?
    ensures GoodRow(env, raw, at, Normalize(env, source, raw, at).value)
  {
    hide RegionNames.MapNames, Strip, Number, MapAssetType, TradeQuarter.ImportedQuarter, BuildRow,
      GoodRow, Get, WholeMinutes, NoneIfEmpty;
    match source
    case Api =>
      var kind := Strip(Get(raw, "Type"));
      var quarter := TradeQuarter.ImportedQuarter(Strip(Get(raw, "Period"))).value;
      var price, area := Number(env, Get(raw, "TradePrice")).value, Number(env, Get(raw, "Area")).value;
      var unit := Number(env, Get(raw, "UnitPrice"));
      RatioPositive(price, area);
      BuiltRow(env, raw, at, kind, MapAssetType(kind).value, quarter.0, quarter.1, price, area,
               if unit.Some? then unit.value else price / area, Get(raw, "Prefecture"),
               Strip(Get(raw, "Municipality")),
               None, None, NoneIfEmpty(Strip(Get(raw, "FloorPlan"))));
    case Csv =>
      var kind := Strip(Get(raw, "種類"));
      var quarter := TradeQuarter.ImportedQuarter(Strip(Get(raw, "取引時期"))).value;
      var price, area := Number(env, Get(raw, "取引価格（総額）")).value, Number(env, Get(raw, "面積（㎡）")).value;
      RatioPositive(price, area);
      BuiltRow(env, raw, at, kind, MapAssetType(kind).value, quarter.0, quarter.1, price, area, price / area,
               Strip(Get(raw, "都道府県名")), Strip(Get(raw, "市区町村名")),
               NoneIfEmpty(Strip(Get(raw, "最寄駅：名称"))),
               WholeMinutes(Number(env, Get(raw, "最寄駅：距離（分）"))),
               NoneIfEmpty(Strip(Get(raw, "間取り"))));
  }

  lemma MappedNamesAreInVocabulary(env: Env, prefecture: string, municipality: string)
    ensures var m := RegionNames.MapNames(env.tables, env.options, prefecture, municipality);
            && (m.prefecture.Some? ==> env.options.Some? && m.prefecture.value in env.options.value.prefectures)
            && (m.city.Some? ==>
                  m.prefecture.Some? && m.city.value in RegionNames.CitiesOf(env.options.value, m.prefecture.value))
            && (m.ward.Some? ==>
                  m.city.Some? && m.ward.value in
                    RegionNames.WardsOf(env.options.value, m.prefecture.value, m.city.value))
  {
    hide RegionNames.TargetPrefecture, RegionNames.TargetCity, RegionNames.CitiesOf, RegionNames.WardsOf;
    if env.options.Some? {
      var o := env.options.value;
      var source := Strip(prefecture);
      var p := RegionNames.TargetPrefecture(env.tables, source, o);
      if p.Some? {
        RegionNames.VocabularyPair(env.tables, source, p.value, Strip(municipality), o);
      }
    }
  }

  ghost predicate Injective(f: Raw -> string) {
    forall a, b :: f(a) == f(b) ==> a == b
  }

  ghost predicate FromRecords(env: Env, source: Source, rows: seq<Row>, at: int) {
    forall i :: 0 <= i < |rows| ==> Normalize(env, source, rows[i].columns.raw, at) == Some(rows[i])
  }

  lemma {:induction false} RowsComeFromRecords(env: Env, source: Source, raws: seq<Raw>, at: int)
    ensures FromRecords(env, source, NormalizeAll(env, source, raws, at), at)
    decreases |raws|
  {
    hide Normalize;
    if raws != [] {
      var last := raws[|raws| - 1];
      RowsComeFromRecords(env, source, raws[..|raws| - 1], at);
      if Normalize(env, source, last, at).Some? {
        EmittedRow(env, source, last, at);
      }
    }
  }

  /** Within one import run equal source keys mean equal rows, provided the hash is injective; so
      chunking is invisible there, whatever was downloaded. */
  lemma ImportedRowsAreChunkable(env: Env, source: Source, raws: seq<Raw>, at: int)
    requires Injective(env.sha256)
    ensures var rows := NormalizeAll(env, source, raws, at);
            && (forall i, j :: 0 <= i < |rows| && 0 <= j < |rows| && rows[i].key == rows[j].key ==> rows[i] == rows[j])
            && KeysDetermineCompared(rows)
            && ChunkingInvisible(rows)
            && OneSource(rows)
  {
    hide Normalize, NormalizeAll, ChunkingInvisible;
    var rows := NormalizeAll(env, source, raws, at);
    RowsComeFromRecords(env, source, raws, at);
    forall i, j | 0 <= i < |rows| && 0 <= j < |rows| && rows[i].key == rows[j].key ensures rows[i] == rows[j] {
      EmittedRow(env, source, rows[i].columns.raw, at);
      EmittedRow(env, source, rows[j].columns.raw, at);
    }
    forall i | 0 <= i < |rows| ensures rows[i].key.sourceId == SOURCE_ID {
      EmittedRow(env, source, rows[i].columns.raw, at);
    }
    ChunkingInvisibleIff(rows);
  }

  // ---------------------------------------------------------------------------------------
  // The API loop
  // ---------------------------------------------------------------------------------------

  /** Records whose type has no asset class. */
  function Unmapped(raws: seq<Raw>): seq<string> {
    if raws == [] then []
    else
      var kind := Strip(Get(raws[|raws| - 1], "Type"));
      Unmapped(raws[..|raws| - 1]) + (if MapAssetType(kind) == None then [kind] else [])
  }

  predicate TypeIsMapped(raw: Raw) {
    MapAssetType(Strip(Get(raw, "Type"))).Some?
  }

  lemma OneMoreRecord(env: Env, raws: seq<Raw>, raw: Raw, at: int)
    ensures var r := NormalizeXit001(env, raw, at);
            && NormalizeAll(env, Api, raws + [raw], at)
               == NormalizeAll(env, Api, raws, at) + (if r.Some? then [r.value] else [])
            && (!TypeIsMapped(raw) ==> r == None)
    ensures Unmapped(raws + [raw])
         == if TypeIsMapped(raw) then Unmapped(raws) else Unmapped(raws) + [Strip(Get(raw, "Type"))]
    ensures !TypeIsMapped(raw) ==>
              forall samples ::
                RegionNames.SamplesFrom(samples, Unmapped(raws + [raw]))
                == RegionNames.AddSample(RegionNames.SamplesFrom(samples, Unmapped(raws)), Strip(Get(raw, "Type")))
  {
    hide Strip, RegionNames.AddSample, MapAssetType, Number, TradeQuarter.ImportedQuarter, BuildRow,
      RegionNames.MapNames, Get;
    assert (raws + [raw])[..|raws|] == raws;
    var kind := Strip(Get(raw, "Type"));
    assert (Unmapped(raws) + [kind])[..|Unmapped(raws)|] == Unmapped(raws);
  }

  /** `normalize_xit001_rows`: the loop skips and counts unmapped types and normalises the rest. */
  method NormalizeXit001Rows(env: Env, raws: seq<Raw>, at: int, report: RegionNames.RegionMappingReport?)
    returns (normalized: seq<Row>, skippedUnmapped: nat)
    modifies report
    ensures normalized == NormalizeAll(env, Api, raws, at)
    ensures skippedUnmapped == |Unmapped(raws)| && |normalized| + skippedUnmapped <= |raws|
    ensures report != null ==>
              report.typeSamples == RegionNames.SamplesFrom(old(report.typeSamples), Unmapped(raws))
  {
    hide NormalizeAll, Unmapped, NormalizeXit001, RegionNames.AddSample, RegionNames.SamplesFrom, Strip,
      MapAssetType, Get;
    normalized, skippedUnmapped := [], 0;
    NothingRead(env, at);
    for i := 0 to |raws|
      invariant normalized == NormalizeAll(env, Api, raws[..i], at)
      invariant skippedUnmapped == |Unmapped(raws[..i])| && |normalized| + skippedUnmapped <= i
      invariant report != null ==>
                  report.typeSamples == RegionNames.SamplesFrom(old(report.typeSamples), Unmapped(raws[..i]))
    {
      var raw := raws[i];
      assert raws[..i + 1] == raws[..i] + [raw];
      OneMoreRecord(env, raws[..i], raw, at);
      var kind := Strip(Get(raw, "Type"));
      if MapAssetType(kind) == None {
        skippedUnmapped := skippedUnmapped + 1;
        if report != null {
          report.typeSamples := RegionNames.AddSample(report.typeSamples, kind);
        }
        continue;
      }
      var item := NormalizeXit001Row(env, raw, at, report);
      if item.Some? {
        normalized := normalized + [item.value];
      }
    }
    assert raws[..|raws|] == raws;
  }

  lemma NothingRead(env: Env, at: int)
    ensures NormalizeAll(env, Api, [], at) == [] && Unmapped([]) == []
    ensures forall samples :: RegionNames.SamplesFrom(samples, []) == samples
  {
  }

  method NormalizeXit001Row(env: Env, raw: Raw, at: int, report: RegionNames.RegionMappingReport?)
    returns (r: Option<Row>)
    modifies report
    ensures r == NormalizeXit001(env, raw, at)
    ensures report != null ==> report.typeSamples == old(report.typeSamples)
  {
    hide RegionNames.MapNames, RegionNames.AddSample, Strip, MapAssetType, Number,
      TradeQuarter.ImportedQuarter, BuildRow, Get;
    var kind := Strip(Get(raw, "Type"));
    var assetType := MapAssetType(kind);
    var quarter := TradeQuarter.ImportedQuarter(Strip(Get(raw, "Period")));
    var price, area := Number(env, Get(raw, "TradePrice")), Number(env, Get(raw, "Area"));
    if assetType == None || quarter == None || price == None || area == None {
      return None;
    }
    var names := RegionNames.MapRegionNames(env.tables, env.options, Get(raw, "Prefecture"),
                                            Strip(Get(raw, "Municipality")), report);
    var unit := Number(env, Get(raw, "UnitPrice"));
    r := BuildRow(env, raw, at, kind, assetType.value, quarter.value.0, quarter.value.1, price.value, area.value,
                  if unit.Some? then unit.value else price.value / area.value, names,
                  None, None, NoneIfEmpty(Strip(Get(raw, "FloorPlan"))));
  }

  // ---------------------------------------------------------------------------------------
  // What each column says of the raw texts
  // ---------------------------------------------------------------------------------------

  /** The field names of one source; `unitPrice`, `station` and `minutes` are missing in one of them. */
  datatype Labels = Labels(
    kind: string, period: string, price: string, area: string, prefecture: string, municipality: string,
    layout: string, unitPrice: Option<string>, station: Option<string>, minutes: Option<string>)

  const API_LABELS := Labels("Type", "Period", "TradePrice", "Area", "Prefecture", "Municipality", "FloorPlan",
                             Some("UnitPrice"), None, None)

  const CSV_LABELS := Labels("種類", "取引時期", "取引価格（総額）", "面積（㎡）", "都道府県名", "市区町村名", "間取り",
                             None, Some("最寄駅：名称"), Some("最寄駅：距離（分）"))

  function LabelsOf(source: Source): Labels {
    match source case Api => API_LABELS case Csv => CSV_LABELS
  }

  /** Without surrounding blanks and commas the text is a number above zero, namely `x`. */
  ghost predicate ReadsAs(env: Env, text: string, x: real) {
    exists trimmed :: Padded(text, trimmed) && Trimmed(trimmed) && IsAmount(env, trimmed, x)
  }

  ghost predicate IsAmount(env: Env, trimmed: string, x: real) {
    var bare := Filter(trimmed, (c: char) => c != ',');
    bare !in {"", "-", "不明"} && env.parseFloat(bare) == Some(x) && x > 0.0
  }

  lemma ReadsAsIff(env: Env, text: string, x: real)
    ensures ReadsAs(env, text, x) <==> Number(env, text) == Some(x)
  {
    hide Padded, Strip, Filter;
    StripMeans(text);
    if ReadsAs(env, text, x) {
      var trimmed :| Padded(text, trimmed) && Trimmed(trimmed) && IsAmount(env, trimmed, x);
      PaddedIsStripped(text, trimmed);
    }
    if Number(env, text) == Some(x) {
      assert IsAmount(env, Strip(text), x);
    }
  }

  /** The four kinds that have an asset class. */
  predicate HasClass(kind: string, assetType: string) {
    (kind, assetType) in {
      ("中古マンション等", "公寓"), ("宅地(土地と建物)", "独栋"), ("宅地(土地)", "土地"), ("土地", "土地")}
  }

  lemma ClassIff(kind: string, assetType: string)
    requires Trimmed(kind)
    ensures MapAssetType(kind) == Some(assetType) <==> HasClass(kind, assetType)
  {
    assert "公寓"[0] != "独栋"[0] && "公寓"[0] != "土地"[0] && "独栋"[0] != "土地"[0];
    hide IsSpace;
  }

  /** A period such as 2025年第1四半期 */
  ghost predicate IsPeriod(text: string, year: string, quarter: char) {
    && |year| == 4 && Decimal.AllDigits(year) && '1' <= quarter <= '4'
    && text == year + "年第" + [quarter] + "四半期"
  }

  lemma PeriodIff(text: string)
    ensures TradeQuarter.ImportedQuarter(text).Some? <==> exists year, quarter :: IsPeriod(text, year, quarter)
    ensures forall year, quarter :: IsPeriod(text, year, quarter) ==>
              TradeQuarter.ImportedQuarter(text)
              == Some((Decimal.ParseNat(year), Decimal.Digits(Decimal.ParseNat(year)) + "Q" + [quarter]))
  {
    forall year, quarter | IsPeriod(text, year, quarter)
      ensures TradeQuarter.ImportedQuarter(text)
           == Some((Decimal.ParseNat(year), Decimal.Digits(Decimal.ParseNat(year)) + "Q" + [quarter]))
    {
      assert text[..4] == year && text[4..6] == "年第" && text[6] == quarter && text[7..] == "四半期";
    }
    if TradeQuarter.ImportedQuarter(text).Some? {
      assert text == text[..4] + text[4..6] + [text[6]] + text[7..];
      assert IsPeriod(text, text[..4], text[6]);
    }
  }

  /** The whole minutes of an amount, if there is at least one. */
  ghost predicate MinutesSay(env: Env, text: string, minutes: Option<int>) {
    && (minutes.Some? ==> minutes.value >= 1 && exists x :: ReadsAs(env, text, x) && minutes.value as real <= x < minutes.value as real + 1.0)
    && (minutes == None ==> forall x :: ReadsAs(env, text, x) ==> x < 1.0)
  }

  lemma MinutesMean(env: Env, text: string)
    ensures MinutesSay(env, text, WholeMinutes(Number(env, text)))
  {
    hide ReadsAs, Number;
    forall x ensures ReadsAs(env, text, x) <==> Number(env, text) == Some(x) {
      ReadsAsIff(env, text, x);
    }
    if Number(env, text).Some? {
      assert Number(env, text).value > 0.0;
    }
  }

  ghost predicate KindSays(text: string, kind: string, assetType: string) {
    Padded(text, kind) && Trimmed(kind) && HasClass(kind, assetType)
  }

  lemma KindMeans(text: string, assetType: string)
    ensures MapAssetType(Strip(text)) == Some(assetType) ==> KindSays(text, Strip(text), assetType)
    ensures (exists kind :: KindSays(text, kind, assetType)) ==> MapAssetType(Strip(text)) == Some(assetType)
  {
    hide Padded, Strip, MapAssetType, HasClass;
    StripMeans(text);
    ClassIff(Strip(text), assetType);
    if kind :| KindSays(text, kind, assetType) {
      PaddedIsStripped(text, kind);
    }
  }

  ghost predicate PeriodSays(text: string, year: string, quarter: char) {
    exists trimmed :: Padded(text, trimmed) && Trimmed(trimmed) && IsPeriod(trimmed, year, quarter)
  }

  /** Year and stored quarter of a period text; the statistics read the quarter back unless the year has a
      leading zero. */
  ghost predicate QuarterSays(text: string, tradeYear: int, tradeQuarter: string) {
    exists year, quarter ::
      && PeriodSays(text, year, quarter)
      && tradeYear == Decimal.ParseNat(year) && tradeQuarter == Decimal.Digits(Decimal.ParseNat(year)) + "Q" + [quarter]
      && (year[0] != '0' ==>
            TradeQuarter.ParseTradeQuarter(tradeQuarter)
            == Some(TradeQuarter.Quarter(Decimal.ParseNat(year), Decimal.DigitValue(quarter))))
  }

  lemma PeriodMeans(text: string)
    ensures var q := TradeQuarter.ImportedQuarter(Strip(text));
            && (q.Some? ==> QuarterSays(text, q.value.0, q.value.1))
            && (q == None ==> forall year, quarter :: !PeriodSays(text, year, quarter))
  {
    hide Padded, Strip, TradeQuarter.ImportedQuarter, IsPeriod, TradeQuarter.ParseTradeQuarter;
    var t := Strip(text);
    StripMeans(text);
    PeriodIff(t);
    if TradeQuarter.ImportedQuarter(t).Some? {
      var year, quarter :| IsPeriod(t, year, quarter);
      assert PeriodSays(text, year, quarter);
      ReadBack(t, year, quarter);
    } else {
      forall year, quarter ensures !PeriodSays(text, year, quarter) {
        if PeriodSays(text, year, quarter) {
          var trimmed :| Padded(text, trimmed) && Trimmed(trimmed) && IsPeriod(trimmed, year, quarter);
          PaddedIsStripped(text, trimmed);
        }
      }
    }
  }

  lemma ReadBack(t: string, year: string, quarter: char)
    requires IsPeriod(t, year, quarter)
    ensures |year| == 4 && Decimal.AllDigits(year) && '1' <= quarter <= '4'
    ensures year[0] != '0' ==>
              TradeQuarter.ParseTradeQuarter(Decimal.Digits(Decimal.ParseNat(year)) + "Q" + [quarter])
              == Some(TradeQuarter.Quarter(Decimal.ParseNat(year), Decimal.DigitValue(quarter)))
  {
    PeriodIff(t);
    assert t[0] == year[0] && t[6] == quarter;
    TradeQuarter.StoredQuarterReadsBackIff(t);
  }

  /** The trimmed text, and nothing for a blank one */
  ghost predicate TextSays(text: string, r: Option<string>) {
    && (r == None <==> AllSpaces(text))
    && (r.Some? ==> r.value != "" && Padded(text, r.value) && Trimmed(r.value))
  }

  lemma TextMeans(text: string)
    ensures TextSays(text, NoneIfEmpty(Strip(text)))
  {
    hide Strip;
    StripMeans(text);
    if AllSpaces(text) {
      assert text == "" + "" + text;
      PaddedIsStripped(text, "");
    }
    if Strip(text) == "" {
      var before, after :| AllSpaces(before) && AllSpaces(after) && text == before + Strip(text) + after;
      assert text == before + after;
    }
  }

  /** The unit price is the amount of its own field where there is one, otherwise the price by the area. */
  ghost predicate UnitSays(env: Env, labels: Labels, raw: Raw, x: real, y: real, unitPrice: real) {
    if labels.unitPrice.Some? && exists z :: ReadsAs(env, Get(raw, labels.unitPrice.value), z)
    then ReadsAs(env, Get(raw, labels.unitPrice.value), unitPrice)
    else unitPrice * y == x
  }

  ghost predicate AmountsSay(env: Env, labels: Labels, raw: Raw, c: Columns) {
    && ReadsAs(env, Get(raw, labels.area), c.areaSqm)
    && exists x ::
         && ReadsAs(env, Get(raw, labels.price), x)
         && -0.5 <= c.priceJpy as real - x <= 0.5
         && UnitSays(env, labels, raw, x, c.areaSqm, c.unitPrice)
  }

  ghost predicate NamesSay(env: Env, labels: Labels, raw: Raw, c: Columns) {
    var names := RegionNames.MapNames(env.tables, env.options, Get(raw, labels.prefecture), Get(raw, labels.municipality));
    names == RegionNames.Mapped(Some(c.prefecture), Some(c.city), c.ward) && c.prefecture != "" && c.city != ""
  }

  /** Every column of a row, in terms of the raw texts */
  ghost predicate ColumnsSay(env: Env, labels: Labels, raw: Raw, at: int, row: Row) {
    var c := row.columns;
    && row.key == Key(SOURCE_ID, env.sha256(raw)) && c.raw == raw
    && KindSays(Get(raw, labels.kind), c.assetKind, c.assetType)
    && QuarterSays(Get(raw, labels.period), c.tradeYear, c.tradeQuarter) && c.sourcePeriod == c.tradeQuarter
    && AmountsSay(env, labels, raw, c)
    && NamesSay(env, labels, raw, c)
    && TextSays(Get(raw, labels.layout), c.layout)
    && (labels.station.Some? ==> TextSays(Get(raw, labels.station.value), c.nearestStation))
    && (labels.station == None ==> c.nearestStation == None)
    && (labels.minutes.Some? ==> MinutesSay(env, Get(raw, labels.minutes.value), c.distanceMinutes))
    && (labels.minutes == None ==> c.distanceMinutes == None)
    && c.importedAt == at && c.retrievedAt == at
    && FixedSay(c)
  }

  /** The columns that are the same in every row */
  predicate FixedSay(c: Columns) {
    && c.dataClass == "verified_observation" && c.rightsStatus == "rights_confirmed" && c.rightsConfirmed == "yes"
    && c.sourceUrl == SOURCE_URL && c.transformationVersion == TRANSFORMATION_VERSION
    && c.limitations == LIMITATIONS && c.missingValuePolicy == MISSING_VALUE_POLICY
  }

  lemma NamesOfTrimmed(env: Env, prefecture: string, municipality: string)
    ensures RegionNames.MapNames(env.tables, env.options, prefecture, Strip(municipality))
         == RegionNames.MapNames(env.tables, env.options, prefecture, municipality)
    ensures RegionNames.MapNames(env.tables, env.options, Strip(prefecture), Strip(municipality))
         == RegionNames.MapNames(env.tables, env.options, prefecture, municipality)
  {
    hide RegionNames.TargetPrefecture, RegionNames.TargetCity;
  }

  lemma AmountReadIff(env: Env, text: string)
    ensures Number(env, text).Some? <==> exists x :: ReadsAs(env, text, x)
  {
    hide Number, ReadsAs;
    if Number(env, text).Some? {
      ReadsAsIff(env, text, Number(env, text).value);
    }
    if x :| ReadsAs(env, text, x) {
      ReadsAsIff(env, text, x);
    }
  }

  lemma AmountsMean(env: Env, labels: Labels, raw: Raw, c: Columns, x: real, y: real)
    requires Number(env, Get(raw, labels.price)) == Some(x) && Number(env, Get(raw, labels.area)) == Some(y)
    requires c.priceJpy == RoundHalfEven(x) && c.areaSqm == y
    requires var unit := if labels.unitPrice == None then None else Number(env, Get(raw, labels.unitPrice.value));
             c.unitPrice == if unit.Some? then unit.value else x / y
    ensures AmountsSay(env, labels, raw, c)
  {
    hide Number, ReadsAs, Get;
    ReadsAsIff(env, Get(raw, labels.price), x);
    ReadsAsIff(env, Get(raw, labels.area), y);
    UnitMeans(env, labels, raw, x, y, c.unitPrice);
    hide UnitSays, RoundHalfEven;
    assert -0.5 <= c.priceJpy as real - x <= 0.5;
  }

  lemma UnitMeans(env: Env, labels: Labels, raw: Raw, x: real, y: real, unitPrice: real)
    requires y > 0.0
    requires var unit := if labels.unitPrice == None then None else Number(env, Get(raw, labels.unitPrice.value));
             unitPrice == if unit.Some? then unit.value else x / y
    ensures UnitSays(env, labels, raw, x, y, unitPrice)
  {
    hide Number, ReadsAs, Get;
    if labels.unitPrice.Some? {
      var text := Get(raw, labels.unitPrice.value);
      AmountReadIff(env, text);
      if Number(env, text).Some? {
        ReadsAsIff(env, text, Number(env, text).value);
      } else {
        UnitIsRatio(unitPrice, x, y);
      }
    } else {
      UnitIsRatio(unitPrice, x, y);
    }
  }

  lemma UnitIsRatio(u: real, x: real, y: real)
    requires y > 0.0
    ensures u == x / y ==> u * y == x
  {
  }

  lemma BuiltSays(env: Env, labels: Labels, raw: Raw, at: int, kind: string, assetType: string, year: int, quarter: string,
                  x: real, y: real, unitPrice: real, station: Option<string>, minutes: Option<int>, layout: Option<string>)
    requires kind == Strip(Get(raw, labels.kind)) && MapAssetType(kind) == Some(assetType)
    requires TradeQuarter.ImportedQuarter(Strip(Get(raw, labels.period))) == Some((year, quarter))
    requires Number(env, Get(raw, labels.price)) == Some(x) && Number(env, Get(raw, labels.area)) == Some(y)
    requires var unit := if labels.unitPrice == None then None else Number(env, Get(raw, labels.unitPrice.value));
             unitPrice == if unit.Some? then unit.value else x / y
    requires layout == NoneIfEmpty(Strip(Get(raw, labels.layout)))
    requires station == if labels.station == None then None else NoneIfEmpty(Strip(Get(raw, labels.station.value)))
    requires minutes == if labels.minutes == None then None else WholeMinutes(Number(env, Get(raw, labels.minutes.value)))
    ensures var names := RegionNames.MapNames(env.tables, env.options, Get(raw, labels.prefecture), Get(raw, labels.municipality));
            var r := BuildRow(env, raw, at, kind, assetType, year, quarter, x, y, unitPrice, names, station, minutes, layout);
            r.Some? ==> ColumnsSay(env, labels, raw, at, r.value)
  {
    hide Number, Get, Strip, MapAssetType, TradeQuarter.ImportedQuarter, RegionNames.MapNames, NoneIfEmpty, WholeMinutes,
      KindSays, QuarterSays, AmountsSay, TextSays, MinutesSay, RoundHalfEven;
    KindMeans(Get(raw, labels.kind), assetType);
    PeriodMeans(Get(raw, labels.period));
    TextMeans(Get(raw, labels.layout));
    if labels.station.Some? {
      TextMeans(Get(raw, labels.station.value));
    }
    if labels.minutes.Some? {
      MinutesMean(env, Get(raw, labels.minutes.value));
    }
    var names := RegionNames.MapNames(env.tables, env.options, Get(raw, labels.prefecture), Get(raw, labels.municipality));
    var r := BuildRow(env, raw, at, kind, assetType, year, quarter, x, y, unitPrice, names, station, minutes, layout);
    if r.Some? {
      AmountsMean(env, labels, raw, r.value.columns, x, y);
    }
  }

  /** An emitted row says in every column what its raw texts say, in both sources. */
  lemma RowSays(env: Env, source: Source, raw: Raw, at: int)
    requires Normalize(env, source, raw, at).Some?
    ensures ColumnsSay(env, LabelsOf(source), raw, at, Normalize(env, source, raw, at).value)
  {
    hide RegionNames.MapNames, Strip, Number, MapAssetType, TradeQuarter.ImportedQuarter, BuildRow,
      ColumnsSay, Get, WholeMinutes, NoneIfEmpty;
    var labels := LabelsOf(source);
    var kind := Strip(Get(raw, labels.kind));
    var quarter := TradeQuarter.ImportedQuarter(Strip(Get(raw, labels.period))).value;
    var x, y := Number(env, Get(raw, labels.price)).value, Number(env, Get(raw, labels.area)).value;
    NamesOfTrimmed(env, Get(raw, labels.prefecture), Get(raw, labels.municipality));
    match source
    case Api =>
      var unit := Number(env, Get(raw, "UnitPrice"));
      BuiltSays(env, labels, raw, at, kind, MapAssetType(kind).value, quarter.0, quarter.1, x, y,
                if unit.Some? then unit.value else x / y, None, None, NoneIfEmpty(Strip(Get(raw, "FloorPlan"))));
    case Csv =>
      BuiltSays(env, labels, raw, at, kind, MapAssetType(kind).value, quarter.0, quarter.1, x, y, x / y,
                NoneIfEmpty(Strip(Get(raw, "最寄駅：名称"))), WholeMinutes(Number(env, Get(raw, "最寄駅：距離（分）"))),
                NoneIfEmpty(Strip(Get(raw, "間取り"))));
  }

  lemma KindIff(text: string)
    ensures MapAssetType(Strip(text)).Some? <==> exists kind, assetType :: KindSays(text, kind, assetType)
  {
    hide MapAssetType, Strip, KindSays;
    if MapAssetType(Strip(text)).Some? {
      KindMeans(text, MapAssetType(Strip(text)).value);
    }
    if kind, assetType :| KindSays(text, kind, assetType) {
      KindMeans(text, assetType);
    }
  }

  lemma PeriodReadIff(text: string)
    ensures TradeQuarter.ImportedQuarter(Strip(text)).Some? <==> exists year, quarter :: PeriodSays(text, year, quarter)
  {
    hide TradeQuarter.ImportedQuarter, Strip, PeriodSays;
    PeriodMeans(text);
  }

  /** A row is emitted exactly when kind, period, price and area can be read and the region is mapped. */
  lemma EmittedIff(env: Env, source: Source, raw: Raw, at: int)
    ensures var labels := LabelsOf(source);
            var names := RegionNames.MapNames(env.tables, env.options, Get(raw, labels.prefecture), Get(raw, labels.municipality));
            Normalize(env, source, raw, at).Some? <==>
            && (exists kind, assetType :: KindSays(Get(raw, labels.kind), kind, assetType))
            && (exists year, quarter :: PeriodSays(Get(raw, labels.period), year, quarter))
            && (exists x :: ReadsAs(env, Get(raw, labels.price), x))
            && (exists y :: ReadsAs(env, Get(raw, labels.area), y))
            && names.prefecture.Some? && names.prefecture.value != "" && names.city.Some? && names.city.value != ""
  {
    hide RegionNames.MapNames, Strip, Number, MapAssetType, TradeQuarter.ImportedQuarter, KindSays, PeriodSays, ReadsAs,
      Get, WholeMinutes, NoneIfEmpty, RoundHalfEven;
    var labels := LabelsOf(source);
    NamesOfTrimmed(env, Get(raw, labels.prefecture), Get(raw, labels.municipality));
    KindIff(Get(raw, labels.kind));
    PeriodReadIff(Get(raw, labels.period));
    AmountReadIff(env, Get(raw, labels.price));
    AmountReadIff(env, Get(raw, labels.area));
  }
}
