/**
 * The chronological series of backend/app/region_stats.py, `aggregate_region_trend_rows`.
 */
module RegionTrend {
  import opened Common
  import opened RegionStats
  import opened TradeQuarter

  datatype Reason = InvalidTradeQuarter | InsufficientSample | OnlyOneComparablePeriod

  datatype Excluded = Excluded(period: string, reason: Reason, sampleSize: nat)

  datatype Accepted = Accepted(aggregate: Aggregate, supportingRows: seq<Row>)

  datatype Trend = Trend(ok: bool, periodCount: nat, periods: seq<Accepted>, excluded: seq<Excluded>)

  // ---------------------------------------------------------------------------------------
  // Grouping
  // ---------------------------------------------------------------------------------------

  predicate Valid(r: Row) { IsTradeQuarter(r.tradeQuarter) }

  function RowsOf(rows: seq<Row>, period: string): seq<Row> {
    Filter(rows, (r: Row) => r.tradeQuarter == period)
  }

  ghost predicate Distinct(ps: seq<string>) {
    forall i, j :: 0 <= i < j < |ps| ==> ps[i] != ps[j]
  }

  /** The periods of the valid (or of the invalid) rows, in the order they first occur: the key
      order of the dictionary that the loop fills. */
  function Periods(rows: seq<Row>, valid: bool): (ps: seq<string>)
    ensures forall p :: p in ps <==> exists r :: r in rows && r.tradeQuarter == p && Valid(r) == valid
    ensures Distinct(ps)
  {
    if rows == [] then []
    else
      var init, last := rows[..|rows| - 1], rows[|rows| - 1];
      assert rows == init + [last];
      var ps := Periods(init, valid);
      if Valid(last) != valid || last.tradeQuarter in ps then ps else ps + [last.tradeQuarter]
  }

  /** Rows of one period, all of them or only those with a positive price. */
  function CountOf(rows: seq<Row>, period: string, priced: bool): nat {
    if rows == [] then 0
    else (if rows[0].tradeQuarter == period && (priced ==> Priced(rows[0])) then 1 else 0)
         + CountOf(rows[1..], period, priced)
  }

  function CountValid(rows: seq<Row>, valid: bool, priced: bool): nat {
    if rows == [] then 0
    else (if Valid(rows[0]) == valid && (priced ==> Priced(rows[0])) then 1 else 0)
         + CountValid(rows[1..], valid, priced)
  }

  function SumOf(ps: seq<string>, rows: seq<Row>, priced: bool): nat {
    if ps == [] then 0 else CountOf(rows, ps[0], priced) + SumOf(ps[1..], rows, priced)
  }

  lemma {:induction false} SumOfNoRows(ps: seq<string>, priced: bool)
    ensures SumOf(ps, [], priced) == 0
  {
    if ps != [] { SumOfNoRows(ps[1..], priced); }
  }

  lemma {:induction false} SumOfOneMoreRow(ps: seq<string>, r: Row, rest: seq<Row>, priced: bool)
    requires Distinct(ps)
    ensures SumOf(ps, [r] + rest, priced)
         == SumOf(ps, rest, priced) + if r.tradeQuarter in ps && (priced ==> Priced(r)) then 1 else 0
  {
    if ps == [] {
    } else {
      assert ([r] + rest)[1..] == rest;
      assert ps == [ps[0]] + ps[1..];
      SumOfOneMoreRow(ps[1..], r, rest, priced);
    }
  }

  /** Summing the group sizes over distinct periods counts every row of those periods once. */
  lemma {:induction false} GroupsPartitionRows(ps: seq<string>, rows: seq<Row>, valid: bool, priced: bool)
    requires Distinct(ps)
    requires forall r :: r in rows ==> (r.tradeQuarter in ps <==> Valid(r) == valid)
    ensures SumOf(ps, rows, priced) == CountValid(rows, valid, priced)
    decreases |rows|
  {
    if rows == [] {
      SumOfNoRows(ps, priced);
    } else {
      assert rows == [rows[0]] + rows[1..];
      GroupsPartitionRows(ps, rows[1..], valid, priced);
      SumOfOneMoreRow(ps, rows[0], rows[1..], priced);
    }
  }

  lemma {:induction false} SampleSizeIsCount(rows: seq<Row>, period: string)
    ensures |Prices(RowsOf(rows, period))| == CountOf(rows, period, true)
  {
    if rows == [] {
    } else {
      SampleSizeIsCount(rows[1..], period);
      if rows[0].tradeQuarter == period {
        assert RowsOf(rows, period) == [rows[0]] + RowsOf(rows[1..], period);
        assert RowsOf(rows, period)[1..] == RowsOf(rows[1..], period);
      }
    }
  }

  // ---------------------------------------------------------------------------------------
  // Stable sorting by the quarter key
  // ---------------------------------------------------------------------------------------

  function InsertPeriod(p: string, ps: seq<string>): (r: seq<string>)
    ensures |r| == |ps| + 1 && r[0] in [p] + ps
    ensures forall x :: x in r <==> x == p || x in ps
  {
    if ps == [] || !Before(SortKey(ps[0]), SortKey(p)) then [p] + ps
    else [ps[0]] + InsertPeriod(p, ps[1..])
  }

  /** `sorted(grouped, key=...)` */
  function SortPeriods(ps: seq<string>): (r: seq<string>)
    ensures |r| == |ps|
    ensures forall x :: x in r <==> x in ps
  {
    if ps == [] then [] else InsertPeriod(ps[0], SortPeriods(ps[1..]))
  }

  ghost predicate StrictlyChronological(ps: seq<string>) {
    |ps| <= 1 || (Before(SortKey(ps[0]), SortKey(ps[1])) && StrictlyChronological(ps[1..]))
  }

  lemma {:induction false} ChronologicalAt(ps: seq<string>, i: nat, j: nat)
    requires StrictlyChronological(ps) && i < j < |ps|
    ensures Before(SortKey(ps[i]), SortKey(ps[j]))
    decreases j
  {
    if i > 0 {
      ChronologicalAt(ps[1..], i - 1, j - 1);
    } else if j > 1 {
      ChronologicalAt(ps[1..], 0, j - 1);
    }
  }

  lemma {:induction false} ChronologicalIsDistinct(ps: seq<string>)
    requires StrictlyChronological(ps)
    ensures Distinct(ps)
  {
    forall i, j | 0 <= i < j < |ps| ensures ps[i] != ps[j] {
      ChronologicalAt(ps, i, j);
    }
  }

  ghost predicate AllValid(ps: seq<string>) {
    forall p :: p in ps ==> IsTradeQuarter(p)
  }

  lemma {:induction false} InsertKeepsOrder(p: string, ps: seq<string>)
    requires StrictlyChronological(ps) && AllValid([p] + ps) && p !in ps
    ensures StrictlyChronological(InsertPeriod(p, ps))
  {
    if ps == [] {
    } else if !Before(SortKey(ps[0]), SortKey(p)) {
      if SortKey(ps[0]) == SortKey(p) {
        SortKeyInjective(ps[0], p);
      }
      assert ([p] + ps)[1..] == ps;
    } else {
      InsertKeepsOrder(p, ps[1..]);
      var tail := InsertPeriod(p, ps[1..]);
      assert ([ps[0]] + tail)[1..] == tail;
      if |ps| > 1 && tail[0] != p {
        assert tail[0] == ps[1];
      }
    }
  }

  lemma {:induction false} SortPeriodsChronological(ps: seq<string>)
    requires Distinct(ps) && AllValid(ps)
    ensures StrictlyChronological(SortPeriods(ps))
  {
    if ps == [] {
    } else {
      assert ps == [ps[0]] + ps[1..];
      SortPeriodsChronological(ps[1..]);
      InsertKeepsOrder(ps[0], SortPeriods(ps[1..]));
    }
  }

  function InsertExcluded(e: Excluded, es: seq<Excluded>): (r: seq<Excluded>)
    ensures |r| == |es| + 1 && (r[0] == e || (es != [] && r[0] == es[0]))
    ensures forall x :: x in r <==> x == e || x in es
  {
    if es == [] || !Before(SortKey(es[0].period), SortKey(e.period)) then [e] + es
    else [es[0]] + InsertExcluded(e, es[1..])
  }

  /** `sorted(excluded, key=...)`: entries with equal keys keep their order. */
  function SortExcluded(es: seq<Excluded>): (r: seq<Excluded>)
    ensures |r| == |es|
    ensures forall x :: x in r <==> x in es
  {
    if es == [] then [] else InsertExcluded(es[0], SortExcluded(es[1..]))
  }

  ghost predicate Chronological(es: seq<Excluded>) {
    |es| <= 1 || (!Before(SortKey(es[1].period), SortKey(es[0].period)) && Chronological(es[1..]))
  }

  lemma {:induction false} InsertExcludedKeepsOrder(e: Excluded, es: seq<Excluded>)
    requires Chronological(es)
    ensures Chronological(InsertExcluded(e, es))
    ensures SumSizes(InsertExcluded(e, es)) == e.sampleSize + SumSizes(es)
  {
    if es == [] || !Before(SortKey(es[0].period), SortKey(e.period)) {
      assert ([e] + es)[1..] == es;
    } else {
      InsertExcludedKeepsOrder(e, es[1..]);
      var tail := InsertExcluded(e, es[1..]);
      assert ([es[0]] + tail)[1..] == tail;
    }
  }

  lemma {:induction false} SortExcludedIsSorted(es: seq<Excluded>)
    ensures Chronological(SortExcluded(es))
    ensures SumSizes(SortExcluded(es)) == SumSizes(es)
  {
    if es == [] {
    } else {
      SortExcludedIsSorted(es[1..]);
      InsertExcludedKeepsOrder(es[0], SortExcluded(es[1..]));
    }
  }

  function WithKey(es: seq<Excluded>, k: Quarter): seq<Excluded> {
    Filter(es, (e: Excluded) => SortKey(e.period) == k)
  }

  lemma WithKeyCons(e: Excluded, es: seq<Excluded>, k: Quarter)
    ensures WithKey([e] + es, k) == (if SortKey(e.period) == k then [e] else []) + WithKey(es, k)
  {
    assert ([e] + es)[1..] == es;
  }

  lemma {:induction false} InsertExcludedIsStable(e: Excluded, es: seq<Excluded>, k: Quarter)
    ensures WithKey(InsertExcluded(e, es), k) == WithKey([e] + es, k)
  {
    hide WithKey, SortKey;
    if es == [] || !Before(SortKey(es[0].period), SortKey(e.period)) {
    } else {
      InsertExcludedIsStable(e, es[1..], k);
      assert es == [es[0]] + es[1..];
      WithKeyCons(es[0], InsertExcluded(e, es[1..]), k);
      WithKeyCons(e, es[1..], k);
      WithKeyCons(es[0], es[1..], k);
      WithKeyCons(e, es, k);
    }
  }

  /** Entries with equal keys, all invalid periods among them, keep the order they were added in. */
  lemma {:induction false} SortExcludedIsStable(es: seq<Excluded>, k: Quarter)
    ensures WithKey(SortExcluded(es), k) == WithKey(es, k)
  {
    if es == [] {
    } else {
      SortExcludedIsStable(es[1..], k);
      var tail := SortExcluded(es[1..]);
      InsertExcludedIsStable(es[0], tail, k);
      assert ([es[0]] + tail)[1..] == tail;
    }
  }

  function SumSizes(es: seq<Excluded>): nat {
    if es == [] then 0 else es[0].sampleSize + SumSizes(es[1..])
  }

  function SumAccepted(ps: seq<Accepted>): nat {
    if ps == [] then 0 else ps[0].aggregate.sampleSize + SumAccepted(ps[1..])
  }

  lemma {:induction false} SumSizesConcat(a: seq<Excluded>, b: seq<Excluded>)
    ensures SumSizes(a + b) == SumSizes(a) + SumSizes(b)
  {
    if a == [] {
      assert a + b == b;
    } else {
      assert (a + b)[1..] == a[1..] + b;
      SumSizesConcat(a[1..], b);
    }
  }

  lemma {:induction false} SumAcceptedConcat(a: seq<Accepted>, b: seq<Accepted>)
    ensures SumAccepted(a + b) == SumAccepted(a) + SumAccepted(b)
  {
    if a == [] {
      assert a + b == b;
    } else {
      assert (a + b)[1..] == a[1..] + b;
      SumAcceptedConcat(a[1..], b);
    }
  }

  // ---------------------------------------------------------------------------------------
  // The series
  // ---------------------------------------------------------------------------------------

  function AggregateOf(rows: seq<Row>, assetType: string, period: string): Aggregate {
    AggregateRegionRows(RowsOf(rows, period), assetType, period)
  }

  /** The accepted periods among `ps`, in the order of `ps`. */
  function AcceptedOf(rows: seq<Row>, assetType: string, ps: seq<string>): seq<Accepted> {
    if ps == [] then []
    else
      var init, last := ps[..|ps| - 1], ps[|ps| - 1];
      AcceptedOf(rows, assetType, init)
      + (if AggregateOf(rows, assetType, last).Ok()
         then [Accepted(AggregateOf(rows, assetType, last), RowsOf(rows, last))] else [])
  }

  /** The valid periods among `ps` that have too few samples. */
  function RejectedOf(rows: seq<Row>, assetType: string, ps: seq<string>): seq<Excluded> {
    if ps == [] then []
    else
      var init, last := ps[..|ps| - 1], ps[|ps| - 1];
      RejectedOf(rows, assetType, init)
      + (if AggregateOf(rows, assetType, last).Ok() then []
         else [Excluded(last, InsufficientSample, AggregateOf(rows, assetType, last).sampleSize)])
  }

  function InvalidOf(rows: seq<Row>, ps: seq<string>): seq<Excluded> {
    seq(|ps|, i requires 0 <= i < |ps| => Excluded(ps[i], InvalidTradeQuarter, CountOf(rows, ps[i], false)))
  }

  function Lonely(accepted: seq<Accepted>): seq<Excluded> {
    seq(|accepted|, i requires 0 <= i < |accepted| =>
      Excluded(accepted[i].aggregate.period, OnlyOneComparablePeriod, accepted[i].aggregate.sampleSize))
  }

  function TrendOf(rows: seq<Row>, assetType: string): Trend {
    var ordered := SortPeriods(Periods(rows, true));
    var accepted := AcceptedOf(rows, assetType, ordered);
    var excluded := InvalidOf(rows, Periods(rows, false)) + RejectedOf(rows, assetType, ordered);
    if |accepted| < 2 then Trend(false, |accepted|, [], SortExcluded(excluded + Lonely(accepted)))
    else Trend(true, |accepted|, accepted, SortExcluded(excluded))
  }

  lemma {:induction false} AcceptedPlusRejected(rows: seq<Row>, assetType: string, ps: seq<string>)
    ensures SumAccepted(AcceptedOf(rows, assetType, ps)) + SumSizes(RejectedOf(rows, assetType, ps))
         == SumOf(ps, rows, true)
  {
    hide AggregateRegionRows, RowsOf, Prices;
    if ps != [] {
      var init, last := ps[..|ps| - 1], ps[|ps| - 1];
      AcceptedPlusRejected(rows, assetType, init);
      SumOfSnoc(init, last, rows, true);
      assert ps == init + [last];
      AggregateSize(rows, assetType, last);
      var a := AggregateOf(rows, assetType, last);
      assert SumSizes([]) == 0 && SumAccepted([]) == 0;
      SumAcceptedConcat(AcceptedOf(rows, assetType, init), []);
      SumSizesConcat(RejectedOf(rows, assetType, init), []);
      if a.Ok() {
        SumAcceptedConcat(AcceptedOf(rows, assetType, init), [Accepted(a, RowsOf(rows, last))]);
      } else {
        SumSizesConcat(RejectedOf(rows, assetType, init), [Excluded(last, InsufficientSample, a.sampleSize)]);
      }
    }
  }

  lemma AggregateSize(rows: seq<Row>, assetType: string, period: string)
    ensures AggregateOf(rows, assetType, period).sampleSize == CountOf(rows, period, true)
  {
    SampleSizeIsCount(rows, period);
  }

  lemma {:induction false} SumOfSnoc(ps: seq<string>, p: string, rows: seq<Row>, priced: bool)
    ensures SumOf(ps + [p], rows, priced) == SumOf(ps, rows, priced) + CountOf(rows, p, priced)
  {
    if ps == [] {
      assert [] + [p] == [p];
    } else {
      assert (ps + [p])[1..] == ps[1..] + [p];
      SumOfSnoc(ps[1..], p, rows, priced);
    }
  }

  lemma {:induction false} InvalidSizes(rows: seq<Row>, ps: seq<string>)
    ensures SumSizes(InvalidOf(rows, ps)) == SumOf(ps, rows, false)
  {
    if ps == [] {
    } else {
      assert InvalidOf(rows, ps)[1..] == InvalidOf(rows, ps[1..]);
      InvalidSizes(rows, ps[1..]);
    }
  }

  lemma {:induction false} LonelySizes(accepted: seq<Accepted>)
    ensures SumSizes(Lonely(accepted)) == SumAccepted(accepted)
  {
    if accepted == [] {
    } else {
      assert Lonely(accepted)[1..] == Lonely(accepted[1..]);
      LonelySizes(accepted[1..]);
    }
  }

  /** No sample is lost: accepted and excluded sample sizes add up to the rows with an invalid
      quarter plus the valid-quarter rows with a positive price, in either outcome. */
  lemma NoSampleIsLost(rows: seq<Row>, assetType: string)
    ensures var t := TrendOf(rows, assetType);
            SumAccepted(t.periods) + SumSizes(t.excluded)
            == CountValid(rows, false, false) + CountValid(rows, true, true)
  {
    hide CountValid, SortExcluded, Lonely, AcceptedOf, RejectedOf, InvalidOf, Periods, SortPeriods;
    var ordered := SortPeriods(Periods(rows, true));
    var invalid := Periods(rows, false);
    SortPeriodsChronological(Periods(rows, true));
    ChronologicalIsDistinct(ordered);
    GroupsPartitionRows(ordered, rows, true, true);
    GroupsPartitionRows(invalid, rows, false, false);
    AcceptedPlusRejected(rows, assetType, ordered);
    InvalidSizes(rows, invalid);
    var accepted := AcceptedOf(rows, assetType, ordered);
    var rejected := RejectedOf(rows, assetType, ordered);
    SumSizesConcat(InvalidOf(rows, invalid), rejected);
    SumSizesConcat(InvalidOf(rows, invalid) + rejected, Lonely(accepted));
    LonelySizes(accepted);
    SortExcludedIsSorted(InvalidOf(rows, invalid) + rejected);
    SortExcludedIsSorted(InvalidOf(rows, invalid) + rejected + Lonely(accepted));
  }

  function PeriodsOf(accepted: seq<Accepted>): (ps: seq<string>)
    ensures |ps| == |accepted|
    ensures forall i :: 0 <= i < |ps| ==> ps[i] == accepted[i].aggregate.period
  {
    seq(|accepted|, i requires 0 <= i < |accepted| => accepted[i].aggregate.period)
  }

  /** Every accepted entry is the exact aggregate of exactly its period's rows. */
  ghost predicate Exact(a: Accepted, rows: seq<Row>, assetType: string) {
    var p := a.aggregate.period;
    && IsTradeQuarter(p)
    && a.supportingRows == RowsOf(rows, p)
    && a.aggregate == AggregateRegionRows(a.supportingRows, assetType, p)
    && a.aggregate.sampleSize >= MIN_SAMPLE_SIZE
  }

  lemma {:induction false} AcceptedAreExact(rows: seq<Row>, assetType: string, ps: seq<string>)
    requires AllValid(ps)
    ensures forall a :: a in AcceptedOf(rows, assetType, ps) ==> Exact(a, rows, assetType) && a.aggregate.period in ps
    ensures forall p :: p in ps && |Prices(RowsOf(rows, p))| >= MIN_SAMPLE_SIZE ==>
              exists a :: a in AcceptedOf(rows, assetType, ps) && a.aggregate.period == p
  {
    if ps == [] {
    } else {
      var init, last := ps[..|ps| - 1], ps[|ps| - 1];
      assert ps == init + [last];
      AcceptedAreExact(rows, assetType, init);
      if AggregateOf(rows, assetType, last).Ok() {
        assert Accepted(AggregateOf(rows, assetType, last), RowsOf(rows, last)) in AcceptedOf(rows, assetType, ps);
      }
    }
  }

  ghost predicate InOrder(ps: seq<string>) {
    forall i, j :: 0 <= i < j < |ps| ==> Before(SortKey(ps[i]), SortKey(ps[j]))
  }

  lemma {:induction false} AcceptedInOrder(rows: seq<Row>, assetType: string, ps: seq<string>)
    requires InOrder(ps)
    ensures var qs := PeriodsOf(AcceptedOf(rows, assetType, ps));
            InOrder(qs) && (forall q :: q in qs ==> q in ps)
  {
    hide AggregateOf, RowsOf, InOrder;
    if ps != [] {
      var init, last := ps[..|ps| - 1], ps[|ps| - 1];
      assert ps == init + [last];
      OrderedPrefix(ps, |ps| - 1);
      AcceptedInOrder(rows, assetType, init);
      var accepted, bs := AcceptedOf(rows, assetType, init), AcceptedOf(rows, assetType, ps);
      if AggregateOf(rows, assetType, last).Ok() {
        PeriodNamed(rows, assetType, last);
        PeriodsOfSnoc(accepted, Accepted(AggregateOf(rows, assetType, last), RowsOf(rows, last)));
        OrderedSnoc(PeriodsOf(accepted), ps);
      } else {
        assert bs == accepted;
      }
    }
  }

  lemma PeriodNamed(rows: seq<Row>, assetType: string, period: string)
    ensures AggregateOf(rows, assetType, period).period == period
  {
  }

  lemma PeriodsOfSnoc(accepted: seq<Accepted>, a: Accepted)
    ensures PeriodsOf(accepted + [a]) == PeriodsOf(accepted) + [a.aggregate.period]
  {
  }

  lemma OrderedPrefix(ps: seq<string>, n: nat)
    requires InOrder(ps) && n <= |ps|
    ensures InOrder(ps[..n])
  {
  }

  lemma OrderedSnoc(qs: seq<string>, ps: seq<string>)
    requires ps != [] && InOrder(ps) && InOrder(qs)
    requires forall q :: q in qs ==> q in ps[..|ps| - 1]
    ensures InOrder(qs + [ps[|ps| - 1]])
  {
    hide SortKey, Before;
    forall i | 0 <= i < |qs| ensures Before(SortKey(qs[i]), SortKey(ps[|ps| - 1])) {
      assert qs[i] in qs;
      var k :| 0 <= k < |ps| - 1 && ps[..|ps| - 1][k] == qs[i];
      assert ps[k] == qs[i];
    }
  }

  /** The published series holds exactly the valid periods with at least five positive prices,
      each with its exact aggregate, strictly in chronological order; with fewer than two such
      periods nothing is published and they move to the excluded list. */
  lemma SeriesIsExact(rows: seq<Row>, assetType: string)
    ensures var t := TrendOf(rows, assetType);
            && (t.ok <==> t.periodCount >= 2)
            && (!t.ok ==> t.periods == [])
            && (t.ok ==> |t.periods| == t.periodCount)
            && Chronological(t.excluded)
            && (forall a :: a in t.periods ==> Exact(a, rows, assetType))
            && InOrder(PeriodsOf(t.periods))
            && (t.ok ==> forall r :: r in rows && Valid(r) && |Prices(RowsOf(rows, r.tradeQuarter))| >= MIN_SAMPLE_SIZE ==>
                  exists a :: a in t.periods && a.aggregate.period == r.tradeQuarter)
  {
    hide SortPeriods, SortKey, Before, StrictlyChronological, SortExcluded, Chronological, Exact, AcceptedOf,
      RejectedOf, InvalidOf, Lonely, Periods, RowsOf;
    var ordered := SortPeriods(Periods(rows, true));
    SortPeriodsChronological(Periods(rows, true));
    forall i, j | 0 <= i < j < |ordered| ensures Before(SortKey(ordered[i]), SortKey(ordered[j])) {
      ChronologicalAt(ordered, i, j);
    }
    AcceptedAreExact(rows, assetType, ordered);
    AcceptedInOrder(rows, assetType, ordered);
    var accepted := AcceptedOf(rows, assetType, ordered);
    var qs := PeriodsOf(accepted);
    var excluded := InvalidOf(rows, Periods(rows, false)) + RejectedOf(rows, assetType, ordered);
    SortExcludedIsSorted(excluded);
    SortExcludedIsSorted(excluded + Lonely(accepted));
  }

  /** What an excluded entry says about its period is exact. */
  ghost predicate ExactExclusion(e: Excluded, rows: seq<Row>, ok: bool) {
    match e.reason
    case InvalidTradeQuarter => !IsTradeQuarter(e.period) && e.sampleSize == CountOf(rows, e.period, false)
    case InsufficientSample =>
      IsTradeQuarter(e.period) && e.sampleSize == |Prices(RowsOf(rows, e.period))| < MIN_SAMPLE_SIZE
    case OnlyOneComparablePeriod =>
      !ok && IsTradeQuarter(e.period) && e.sampleSize == |Prices(RowsOf(rows, e.period))| >= MIN_SAMPLE_SIZE
  }

  ghost predicate Reported(p: string, t: Trend) {
    || (exists a :: a in t.periods && a.aggregate.period == p)
    || (exists e :: e in t.excluded && e.period == p)
  }

  lemma {:induction false} RejectedAreExact(rows: seq<Row>, assetType: string, ps: seq<string>)
    requires AllValid(ps)
    ensures forall e :: e in RejectedOf(rows, assetType, ps) ==> ExactExclusion(e, rows, true) && e.reason.InsufficientSample?
    ensures forall p :: p in ps && |Prices(RowsOf(rows, p))| < MIN_SAMPLE_SIZE ==>
              exists e :: e in RejectedOf(rows, assetType, ps) && e.period == p
  {
    if ps == [] {
    } else {
      var init, last := ps[..|ps| - 1], ps[|ps| - 1];
      assert ps == init + [last];
      RejectedAreExact(rows, assetType, init);
      if !AggregateOf(rows, assetType, last).Ok() {
        var e := Excluded(last, InsufficientSample, AggregateOf(rows, assetType, last).sampleSize);
        assert e in RejectedOf(rows, assetType, ps);
      }
    }
  }

  lemma LonelyAreExact(rows: seq<Row>, assetType: string, accepted: seq<Accepted>)
    requires forall a :: a in accepted ==> Exact(a, rows, assetType)
    ensures forall e :: e in Lonely(accepted) ==> ExactExclusion(e, rows, false)
    ensures forall a :: a in accepted ==> exists e :: e in Lonely(accepted) && e.period == a.aggregate.period
  {
    forall a | a in accepted ensures exists e :: e in Lonely(accepted) && e.period == a.aggregate.period {
      var i :| 0 <= i < |accepted| && accepted[i] == a;
      assert Lonely(accepted)[i].period == a.aggregate.period;
    }
  }

  lemma InvalidAreExact(rows: seq<Row>)
    ensures var es := InvalidOf(rows, Periods(rows, false));
            && (forall e :: e in es ==> ExactExclusion(e, rows, true))
            && (forall p :: p in Periods(rows, false) ==> exists e :: e in es && e.period == p)
  {
    var ps := Periods(rows, false);
    var es := InvalidOf(rows, ps);
    forall i | 0 <= i < |es| ensures ExactExclusion(es[i], rows, true) {
      assert ps[i] in ps;
    }
    forall p | p in ps ensures exists e :: e in es && e.period == p {
      var i :| 0 <= i < |ps| && ps[i] == p;
      assert es[i].period == p;
    }
  }

  /** Every period that occurs in the rows is reported, and every exclusion states the exact
      number of samples and the reason that applies. */
  lemma EveryPeriodIsReported(rows: seq<Row>, assetType: string)
    ensures var t := TrendOf(rows, assetType);
            && (forall e :: e in t.excluded ==> ExactExclusion(e, rows, t.ok))
            && (forall r :: r in rows ==> Reported(r.tradeQuarter, t))
  {
    hide SortPeriods, SortExcluded, Exact, AcceptedOf, RejectedOf, InvalidOf, Lonely, Periods, RowsOf, Prices,
      IsTradeQuarter;
    var valid, invalid := Periods(rows, true), Periods(rows, false);
    var ordered := SortPeriods(valid);
    var accepted := AcceptedOf(rows, assetType, ordered);
    AcceptedAreExact(rows, assetType, ordered);
    RejectedAreExact(rows, assetType, ordered);
    LonelyAreExact(rows, assetType, accepted);
    InvalidAreExact(rows);
    var t := TrendOf(rows, assetType);
    var es := InvalidOf(rows, invalid) + RejectedOf(rows, assetType, ordered);
    forall e | e in t.excluded ensures ExactExclusion(e, rows, t.ok) {
      assert e in es || (!t.ok && e in Lonely(accepted));
      assert e in es ==> e in InvalidOf(rows, invalid) || e in RejectedOf(rows, assetType, ordered);
      if e in es {
        assert ExactExclusion(e, rows, true);
        assert ExactExclusion(e, rows, t.ok);
      } else {
        assert ExactExclusion(e, rows, false);
      }
    }
    forall r | r in rows ensures Reported(r.tradeQuarter, TrendOf(rows, assetType)) {
      assert r.tradeQuarter in Periods(rows, Valid(r));
    }
  }

  // ---------------------------------------------------------------------------------------
  // The loops
  // ---------------------------------------------------------------------------------------

  lemma {:induction false} CountOfSnoc(rows: seq<Row>, r: Row, period: string, priced: bool)
    ensures CountOf(rows + [r], period, priced)
         == CountOf(rows, period, priced) + if r.tradeQuarter == period && (priced ==> Priced(r)) then 1 else 0
  {
    if rows == [] {
      assert [] + [r] == [r];
    } else {
      assert (rows + [r])[1..] == rows[1..] + [r];
      CountOfSnoc(rows[1..], r, period, priced);
    }
  }

  lemma RowsOfSnoc(rows: seq<Row>, r: Row, period: string)
    ensures RowsOf(rows + [r], period) == RowsOf(rows, period) + if r.tradeQuarter == period then [r] else []
  {
    FilterConcat(rows, [r], (x: Row) => x.tradeQuarter == period);
  }

  /** `grouped.setdefault(period, []).append(row)` on the map part of the dictionary */
  function Appended(grouped: map<string, seq<Row>>, row: Row): map<string, seq<Row>> {
    var p := row.tradeQuarter;
    grouped[p := (if p in grouped then grouped[p] else []) + [row]]
  }

  /** `counts[period] = counts.get(period, 0) + 1` */
  function Counted(counts: map<string, nat>, p: string): map<string, nat> {
    counts[p := (if p in counts then counts[p] else 0) + 1]
  }

  ghost predicate GroupedBy(rows: seq<Row>, grouped: map<string, seq<Row>>) {
    forall p :: (p in grouped <==> p in Periods(rows, true)) && (p in grouped ==> grouped[p] == RowsOf(rows, p))
  }

  ghost predicate CountedBy(rows: seq<Row>, counts: map<string, nat>) {
    forall p :: (p in counts <==> p in Periods(rows, false)) && (p in counts ==> counts[p] == CountOf(rows, p, false))
  }

  lemma PeriodsSnoc(rows: seq<Row>, row: Row, valid: bool)
    ensures Periods(rows + [row], valid)
         == if Valid(row) != valid || row.tradeQuarter in Periods(rows, valid) then Periods(rows, valid)
            else Periods(rows, valid) + [row.tradeQuarter]
  {
    assert (rows + [row])[..|rows|] == rows;
  }

  lemma GroupedStep(rows: seq<Row>, row: Row, grouped: map<string, seq<Row>>)
    requires GroupedBy(rows, grouped)
    ensures GroupedBy(rows + [row], if Valid(row) then Appended(grouped, row) else grouped)
  {
    hide CountOf, RowsOf, Periods, IsTradeQuarter;
    PeriodsSnoc(rows, row, true);
    forall p ensures RowsOf(rows + [row], p) == RowsOf(rows, p) + if row.tradeQuarter == p then [row] else []
    {
      RowsOfSnoc(rows, row, p);
    }
    if Valid(row) && row.tradeQuarter !in Periods(rows, true) {
      NoRowsCounted(rows, row.tradeQuarter);
    }
  }

  lemma CountedStep(rows: seq<Row>, row: Row, counts: map<string, nat>)
    requires CountedBy(rows, counts)
    ensures CountedBy(rows + [row], if Valid(row) then counts else Counted(counts, row.tradeQuarter))
  {
    hide CountOf, RowsOf, Periods, IsTradeQuarter;
    PeriodsSnoc(rows, row, false);
    forall p ensures CountOf(rows + [row], p, false)
                  == CountOf(rows, p, false) + if row.tradeQuarter == p then 1 else 0
    {
      CountOfSnoc(rows, row, p, false);
    }
    if !Valid(row) && row.tradeQuarter !in Periods(rows, false) {
      NoRowsCounted(rows, row.tradeQuarter);
    }
  }

  lemma GroupStep(rows: seq<Row>, row: Row, grouped: map<string, seq<Row>>, counts: map<string, nat>)
    requires GroupedBy(rows, grouped) && CountedBy(rows, counts)
    ensures GroupedBy(rows + [row], if Valid(row) then Appended(grouped, row) else grouped)
    ensures CountedBy(rows + [row], if Valid(row) then counts else Counted(counts, row.tradeQuarter))
  {
    hide GroupedBy, CountedBy;
    GroupedStep(rows, row, grouped);
    CountedStep(rows, row, counts);
  }

  /** The first loop.  A dictionary is its key sequence, in insertion order, and a map. */
  method GroupRows(rows: seq<Row>)
    returns (periods: seq<string>, grouped: map<string, seq<Row>>, invalid: seq<string>, invalidRows: map<string, nat>)
    ensures periods == Periods(rows, true) && invalid == Periods(rows, false)
    ensures forall p :: p in periods ==> p in grouped && grouped[p] == RowsOf(rows, p)
    ensures forall p :: p in invalid ==> p in invalidRows && invalidRows[p] == CountOf(rows, p, false)
  {
    hide CountOf, RowsOf;
    periods, grouped, invalid, invalidRows := [], map[], [], map[];
    for i := 0 to |rows|
      invariant periods == Periods(rows[..i], true) && invalid == Periods(rows[..i], false)
      invariant GroupedBy(rows[..i], grouped) && CountedBy(rows[..i], invalidRows)
    {
      hide Periods, GroupedBy, CountedBy;
      var row := rows[i];
      var period := row.tradeQuarter;
      assert rows[..i + 1] == rows[..i] + [row];
      GroupStep(rows[..i], row, grouped, invalidRows);
      PeriodsSnoc(rows[..i], row, true);
      PeriodsSnoc(rows[..i], row, false);
      if !IsTradeQuarter(period) {
        if period !in invalid {
          invalid := invalid + [period];
        }
        invalidRows := Counted(invalidRows, period);
        continue;
      }
      if period !in periods {
        periods := periods + [period];
      }
      grouped := Appended(grouped, row);
    }
    assert rows[..|rows|] == rows;
  }

  /** `aggregate_region_trend_rows` */
  method AggregateTrend(rows: seq<Row>, assetType: string) returns (t: Trend)
    ensures t == TrendOf(rows, assetType)
  {
    hide CountOf, RowsOf, Periods, SortPeriods, SortExcluded, AggregateRegionRows;
    var periods, grouped, invalid, invalidRows := GroupRows(rows);
    var accepted: seq<Accepted> := [];
    var excluded := seq(|invalid|, i requires 0 <= i < |invalid| && invalid[i] in invalidRows =>
      Excluded(invalid[i], InvalidTradeQuarter, invalidRows[invalid[i]]));
    assert excluded == InvalidOf(rows, invalid);
    var ordered := SortPeriods(periods);
    for i := 0 to |ordered|
      invariant accepted == AcceptedOf(rows, assetType, ordered[..i])
      invariant excluded == InvalidOf(rows, invalid) + RejectedOf(rows, assetType, ordered[..i])
    {
      var period := ordered[i];
      assert ordered[..i + 1][..i] == ordered[..i];
      assert period in ordered && period in periods;
      var aggregate := AggregateRegionRows(grouped[period], assetType, period);
      if aggregate.Ok() {
        accepted := accepted + [Accepted(aggregate, grouped[period])];
      } else {
        excluded := excluded + [Excluded(period, InsufficientSample, aggregate.sampleSize)];
      }
    }
    assert ordered[..|ordered|] == ordered;
    if |accepted| < 2 {
      return Trend(false, |accepted|, [], SortExcluded(excluded + Lonely(accepted)));
    }
    return Trend(true, |accepted|, accepted, SortExcluded(excluded));
  }

  lemma {:induction false} NoRowsCounted(rows: seq<Row>, period: string)
    requires forall r :: r in rows ==> r.tradeQuarter != period
    ensures CountOf(rows, period, false) == 0 && RowsOf(rows, period) == []
  {
    if rows == [] {
    } else {
      NoRowsCounted(rows[1..], period);
    }
  }

  // ---------------------------------------------------------------------------------------
  // The number of comparable periods
  // ---------------------------------------------------------------------------------------

  /** The valid periods with at least five positive prices */
  function Comparable(rows: seq<Row>): set<string> {
    set r | r in rows && Valid(r) && |Prices(RowsOf(rows, r.tradeQuarter))| >= 5 :: r.tradeQuarter
  }

  lemma {:induction false} DistinctCount(ps: seq<string>)
    requires Distinct(ps)
    ensures |(set p | p in ps)| == |ps|
  {
    if ps == [] {
    } else {
      var rest := ps[1..];
      DistinctCount(rest);
      assert ps == [ps[0]] + rest;
      assert (set p | p in ps) == {ps[0]} + (set p | p in rest);
    }
  }

  lemma InOrderIsDistinct(ps: seq<string>)
    requires InOrder(ps)
    ensures Distinct(ps)
  {
    forall i, j | 0 <= i < j < |ps| ensures ps[i] != ps[j] {
      assert Before(SortKey(ps[i]), SortKey(ps[j]));
    }
  }

  /** The reported number of periods is the number of comparable ones, whether or not they are published. */
  lemma PeriodCountIsExact(rows: seq<Row>, assetType: string)
    ensures TrendOf(rows, assetType).periodCount == |Comparable(rows)|
  {
    hide SortPeriods, SortExcluded, InvalidOf, RejectedOf, Lonely, AcceptedOf, Periods, RowsOf, Prices, SortKey, Before,
      IsTradeQuarter, Comparable;
    var ordered := SortPeriods(Periods(rows, true));
    SortPeriodsChronological(Periods(rows, true));
    forall i, j | 0 <= i < j < |ordered| ensures Before(SortKey(ordered[i]), SortKey(ordered[j])) {
      ChronologicalAt(ordered, i, j);
    }
    AcceptedInOrder(rows, assetType, ordered);
    var accepted := AcceptedOf(rows, assetType, ordered);
    var qs := PeriodsOf(accepted);
    InOrderIsDistinct(qs);
    DistinctCount(qs);
    AcceptedAreComparable(rows, assetType, ordered);
  }

  lemma AcceptedAreComparable(rows: seq<Row>, assetType: string, ordered: seq<string>)
    requires AllValid(ordered) && forall p :: p in ordered <==> p in Periods(rows, true)
    ensures (set p | p in PeriodsOf(AcceptedOf(rows, assetType, ordered))) == Comparable(rows)
  {
    hide Prices, AcceptedOf, AggregateRegionRows, RowsOf, IsTradeQuarter;
    var accepted := AcceptedOf(rows, assetType, ordered);
    var qs := PeriodsOf(accepted);
    AcceptedAreExact(rows, assetType, ordered);
    forall p ensures p in qs <==> p in Comparable(rows) {
      if p in qs {
        var i :| 0 <= i < |qs| && qs[i] == p;
        assert accepted[i] in accepted && accepted[i].aggregate.period == p;
        SizeIsPrices(accepted[i].supportingRows, assetType, p);
      }
      if p in Comparable(rows) {
        var r :| r in rows && Valid(r) && |Prices(RowsOf(rows, r.tradeQuarter))| >= 5 && r.tradeQuarter == p;
        assert p in ordered;
        var a :| a in accepted && a.aggregate.period == p;
        var i :| 0 <= i < |accepted| && accepted[i] == a;
        assert qs[i] == p;
      }
    }
  }

  lemma SizeIsPrices(rows: seq<Row>, assetType: string, period: string)
    ensures AggregateRegionRows(rows, assetType, period).sampleSize == |Prices(rows)|
  {
  }
}
