/**
 * Regional sale-price statistics of backend/app/region_stats.py, with prices as reals.
 */
module RegionStats {
  import opened Common

  const MIN_SAMPLE_SIZE := 5

  // ---------------------------------------------------------------------------------------
  // Sorting
  // ---------------------------------------------------------------------------------------

  ghost predicate Sorted(s: seq<real>) {
    |s| <= 1 || (s[0] <= s[1] && Sorted(s[1..]))
  }

  lemma {:induction false} SortedAt(s: seq<real>, i: nat, j: nat)
    requires Sorted(s) && i <= j < |s|
    ensures s[i] <= s[j]
    decreases j
  {
    if i > 0 {
      SortedAt(s[1..], i - 1, j - 1);
    } else if j > 0 {
      SortedAt(s[1..], 0, j - 1);
    }
  }

  lemma SortedEverywhere(s: seq<real>)
    requires Sorted(s)
    ensures forall i, j :: 0 <= i <= j < |s| ==> s[i] <= s[j]
  {
    forall i, j | 0 <= i <= j < |s| ensures s[i] <= s[j] {
      SortedAt(s, i, j);
    }
  }

  function Insert(x: real, s: seq<real>): (r: seq<real>)
    ensures |r| == |s| + 1
    ensures r[0] == if s == [] || x <= s[0] then x else s[0]
    ensures Sorted(s) ==> Sorted(r)
  {
    if s == [] || x <= s[0] then [x] + s else [s[0]] + Insert(x, s[1..])
  }

  lemma {:induction false} InsertAdds(x: real, s: seq<real>)
    ensures multiset(Insert(x, s)) == multiset(s) + multiset{x}
  {
    if s == [] || x <= s[0] {
    } else {
      InsertAdds(x, s[1..]);
      assert s == [s[0]] + s[1..];
    }
  }

  /** `sorted(values)` */
  function Sort(s: seq<real>): (r: seq<real>)
    ensures |r| == |s| && Sorted(r)
  {
    if s == [] then [] else Insert(s[0], Sort(s[1..]))
  }

  lemma {:induction false} SortKeepsMultiset(s: seq<real>)
    ensures multiset(Sort(s)) == multiset(s)
  {
    if s == [] {
    } else {
      SortKeepsMultiset(s[1..]);
      InsertAdds(s[0], Sort(s[1..]));
      assert s == [s[0]] + s[1..];
    }
  }

  lemma HeadIsLeast(s: seq<real>, x: real)
    requires Sorted(s) && s != [] && x in multiset(s)
    ensures s[0] <= x
  {
    var i :| 0 <= i < |s| && s[i] == x;
    SortedAt(s, 0, i);
  }

  lemma SameLength<T>(a: seq<T>, b: seq<T>)
    requires multiset(a) == multiset(b)
    ensures |a| == |b|
  {
    assert |multiset(a)| == |a| && |multiset(b)| == |b|;
  }

  lemma WithoutHead(s: seq<real>)
    requires s != []
    ensures multiset(s[1..]) == multiset(s) - multiset{s[0]}
  {
    assert s == [s[0]] + s[1..];
  }

  lemma SameHead(a: seq<real>, b: seq<real>)
    requires Sorted(a) && Sorted(b) && multiset(a) == multiset(b) && a != [] && b != []
    ensures a[0] == b[0] && multiset(a[1..]) == multiset(b[1..])
  {
    hide Sorted;
    assert b[0] in multiset(b) && a[0] in multiset(a);
    HeadIsLeast(a, b[0]);
    HeadIsLeast(b, a[0]);
    WithoutHead(a);
    WithoutHead(b);
  }

  lemma {:induction false} SortedIsUnique(a: seq<real>, b: seq<real>)
    requires Sorted(a) && Sorted(b) && multiset(a) == multiset(b)
    ensures a == b
  {
    SameLength(a, b);
    if a != [] {
      SameHead(a, b);
      SortedIsUnique(a[1..], b[1..]);
      assert a == [a[0]] + a[1..] && b == [b[0]] + b[1..];
    }
  }

  // ---------------------------------------------------------------------------------------
  // Interpolated percentiles
  // ---------------------------------------------------------------------------------------

  /** Position of the `fraction` percentile among `n` sorted values. */
  function Position(n: nat, fraction: real): (p: real)
    requires n > 0 && 0.0 <= fraction <= 1.0
    ensures 0.0 <= p <= (n - 1) as real
  {
    Scaled((n - 1) as real, fraction);
    Weigh((n - 1) as real, fraction)
  }

  lemma Scaled(x: real, f: real)
    requires x >= 0.0 && 0.0 <= f <= 1.0
    ensures 0.0 <= Weigh(x, f) <= x
  {
  }

  function Weigh(d: real, w: real): real {
    d * w
  }

  function Interpolate(a: real, b: real, w: real): real {
    a + Weigh(b - a, w)
  }

  /** `_percentile`: the values must be sorted by the caller for the result to mean anything. */
  function Percentile(values: seq<real>, fraction: real): real
    requires |values| > 0 && 0.0 <= fraction <= 1.0
  {
    var position := Position(|values|, fraction);
    var low := position.Floor;
    var high := if low + 1 < |values| - 1 then low + 1 else |values| - 1;
    Interpolate(values[low], values[high], position - low as real)
  }

  lemma Between(a: real, b: real, w: real)
    requires a <= b && 0.0 <= w <= 1.0
    ensures a <= Interpolate(a, b, w) <= b
  {
    hide Weigh;
    Scaled(b - a, w);
  }

  lemma InterpolateMonotone(a: real, b: real, v: real, w: real)
    requires a <= b && 0.0 <= v <= w
    ensures Interpolate(a, b, v) <= Interpolate(a, b, w)
  {
    Product(b - a, w - v);
    assert (b - a) * (w - v) == (b - a) * w - (b - a) * v;
  }

  lemma PercentileBetween(values: seq<real>, fraction: real)
    requires |values| > 0 && 0.0 <= fraction <= 1.0 && Sorted(values)
    ensures var low := Position(|values|, fraction).Floor;
            && 0 <= low < |values|
            && values[low] <= Percentile(values, fraction)
            && (low + 1 < |values| ==> Percentile(values, fraction) <= values[low + 1])
            && (low as real == Position(|values|, fraction) ==> Percentile(values, fraction) == values[low])
  {
    hide Interpolate, Sorted;
    var position := Position(|values|, fraction);
    var low := position.Floor;
    var high := if low + 1 < |values| - 1 then low + 1 else |values| - 1;
    SortedAt(values, low, high);
    Between(values[low], values[high], position - low as real);
    InterpolateAtZero(values[low], values[high]);
  }

  lemma InterpolateAtZero(a: real, b: real)
    ensures Interpolate(a, b, 0.0) == a
  {
  }

  lemma PositionMonotone(n: nat, f: real, g: real)
    requires n > 0 && 0.0 <= f <= g <= 1.0
    ensures Position(n, f) <= Position(n, g)
  {
    var m := (n - 1) as real;
    Product(m, g - f);
    assert m * (g - f) == m * g - m * f;
  }

  /** A larger fraction never has a smaller percentile. */
  lemma PercentileMonotone(values: seq<real>, f: real, g: real)
    requires |values| > 0 && 0.0 <= f <= g <= 1.0 && Sorted(values)
    ensures Percentile(values, f) <= Percentile(values, g)
  {
    hide Interpolate, Position, Sorted;
    PositionMonotone(|values|, f, g);
    var p, q := Position(|values|, f), Position(|values|, g);
    if p.Floor == q.Floor {
      var low := p.Floor;
      var high := if low + 1 < |values| - 1 then low + 1 else |values| - 1;
      SortedAt(values, low, high);
      InterpolateMonotone(values[low], values[high], p - low as real, q - low as real);
    } else {
      PercentileBetween(values, f);
      PercentileBetween(values, g);
      SortedAt(values, p.Floor + 1, q.Floor);
    }
  }

  lemma Product(a: real, b: real)
    requires a >= 0.0 && b >= 0.0
    ensures a * b >= 0.0
  {
  }

  lemma PercentileEnds(values: seq<real>)
    requires |values| > 0
    ensures Percentile(values, 0.0) == values[0]
    ensures Percentile(values, 1.0) == values[|values| - 1]
  {
    assert Position(|values|, 0.0) == 0.0;
    assert Position(|values|, 1.0) == (|values| - 1) as real;
    assert ((|values| - 1) as real).Floor == |values| - 1;
  }

  /** The value itself: at position i + w it lies the share w of the way from values[i] to values[i + 1]. */
  lemma PercentileExact(values: seq<real>, fraction: real, i: nat, w: real)
    requires i < |values| && 0.0 <= fraction <= 1.0 && 0.0 <= w < 1.0
    requires (|values| - 1) as real * fraction == i as real + w
    ensures w == 0.0 ==> Percentile(values, fraction) == values[i]
    ensures w > 0.0 ==> i + 1 < |values| && Percentile(values, fraction) - values[i] == w * (values[i + 1] - values[i])
  {
    var position := Position(|values|, fraction);
    assert position == i as real + w;
    assert position.Floor == i;
    if w > 0.0 {
      assert i as real < (|values| - 1) as real;
      SwapFactors(values[i + 1] - values[i], w);
    } else {
      InterpolateAtZero(values[i], values[if i + 1 < |values| - 1 then i + 1 else |values| - 1]);
    }
  }

  lemma SwapFactors(d: real, w: real)
    ensures Weigh(d, w) == w * d
  {
  }

  /** At a position of m quarters. */
  lemma PercentileAtQuarters(values: seq<real>, fraction: real, m: nat)
    requires |values| > 0 && 0.0 <= fraction <= 1.0
    requires 4.0 * ((|values| - 1) as real * fraction) == m as real
    ensures AtQuarters(values, m, Percentile(values, fraction))
  {
    hide Percentile;
    var i, rest := m / 4, m % 4;
    var w := rest as real / 4.0;
    Share((|values| - 1) as real, fraction);
    QuarterSplit((|values| - 1) as real * fraction, m, |values| - 1);
    PercentileExact(values, fraction, i, w);
    if rest > 0 {
      FourTimes(Percentile(values, fraction) - values[i], w, values[i + 1] - values[i], rest);
    }
  }

  lemma QuarterSplit(at: real, m: nat, n: nat)
    requires 4.0 * at == m as real && at <= n as real
    ensures at == (m / 4) as real + (m % 4) as real / 4.0
    ensures m / 4 <= n && (m % 4 > 0 ==> m / 4 < n)
  {
    assert m == 4 * (m / 4) + m % 4;
    assert m as real == 4.0 * (m / 4) as real + (m % 4) as real;
  }

  lemma Share(n: real, fraction: real)
    requires n >= 0.0 && 0.0 <= fraction <= 1.0
    ensures n * fraction <= n
  {
  }

  lemma FourTimes(p: real, w: real, d: real, rest: nat)
    requires p == w * d && w == rest as real / 4.0
    ensures 4.0 * p == rest as real * d
  {
    assert 4.0 * (w * d) == (4.0 * w) * d;
  }

  /** `p` lies m quarters of a step from the first value. */
  predicate AtQuarters(values: seq<real>, m: nat, p: real) {
    var i, rest := m / 4, m % 4;
    && i < |values|
    && (rest == 0 ==> p == values[i])
    && (rest > 0 ==> i + 1 < |values| && 4.0 * (p - values[i]) == rest as real * (values[i + 1] - values[i]))
  }

  /** The median is the middle value, or half the sum of the two middle ones. */
  lemma MedianOf(values: seq<real>)
    requires |values| > 0
    ensures |values| % 2 == 1 ==> Percentile(values, 0.5) == values[|values| / 2]
    ensures |values| % 2 == 0 ==>
              Percentile(values, 0.5) == (values[|values| / 2 - 1] + values[|values| / 2]) / 2.0
  {
    hide Percentile;
    PercentileAtQuarters(values, 0.5, 2 * (|values| - 1));
    var n := |values|;
    if n % 2 == 0 {
      assert 2 * (n - 1) / 4 == n / 2 - 1 && 2 * (n - 1) % 4 == 2;
    } else {
      assert 2 * (n - 1) / 4 == n / 2 && 2 * (n - 1) % 4 == 0;
    }
  }

  /** On equally spaced values every percentile lies at its share of the whole range. */
  lemma PercentileOfProgression(values: seq<real>, fraction: real, a: real, d: real)
    requires |values| > 0 && 0.0 <= fraction <= 1.0
    requires forall k :: 0 <= k < |values| ==> values[k] == a + k as real * d
    ensures Percentile(values, fraction) == a + (|values| - 1) as real * fraction * d
  {
    hide Percentile;
    var position := Position(|values|, fraction);
    var i, w := position.Floor, position - position.Floor as real;
    PercentileExact(values, fraction, i, w);
    assert position * d == (i as real + w) * d == i as real * d + w * d;
    if w > 0.0 {
      assert values[i + 1] - values[i] == d by {
        assert (i as real + 1.0) * d == i as real * d + d;
        assert (i + 1) as real == i as real + 1.0;
      }
    }
  }

  function CountAtMost(values: seq<real>, bound: real): (n: nat)
    ensures n <= |values|
  {
    if values == [] then 0
    else (if values[0] <= bound then 1 else 0) + CountAtMost(values[1..], bound)
  }

  function CountAtLeast(values: seq<real>, bound: real): (n: nat)
    ensures n <= |values|
  {
    if values == [] then 0
    else (if values[0] >= bound then 1 else 0) + CountAtLeast(values[1..], bound)
  }

  /** Both count what their names say. */
  lemma {:induction false} CountsAre(values: seq<real>, bound: real)
    ensures CountAtMost(values, bound) == |Filter(values, (x: real) => x <= bound)|
    ensures CountAtLeast(values, bound) == |Filter(values, (x: real) => x >= bound)|
  {
    if values == [] {
    } else {
      CountsAre(values[1..], bound);
    }
  }

  lemma {:induction false} PrefixCounted(values: seq<real>, m: nat, bound: real)
    requires m <= |values| && forall i :: 0 <= i < m ==> values[i] <= bound
    ensures CountAtMost(values, bound) >= m
    decreases m
  {
    if m == 0 {
    } else {
      PrefixCounted(values[1..], m - 1, bound);
    }
  }

  lemma {:induction false} SuffixCounted(values: seq<real>, m: nat, bound: real)
    requires m <= |values| && forall i :: m <= i < |values| ==> values[i] >= bound
    ensures CountAtLeast(values, bound) >= |values| - m
    decreases |values|
  {
    if values == [] {
    } else {
      SuffixCounted(values[1..], if m > 0 then m - 1 else 0, bound);
    }
  }

  /** The rank meaning of the interpolated value: floor((n-1)f)+1 values lie at or below it, and
      the values from the next rank on lie at or above it. */
  lemma PercentileRank(values: seq<real>, fraction: real)
    requires |values| > 0 && 0.0 <= fraction <= 1.0 && Sorted(values)
    ensures var p := Percentile(values, fraction);
            var position := Position(|values|, fraction);
            && CountAtMost(values, p) >= position.Floor + 1
            && CountAtLeast(values, p) >= |values| - 1 - position.Floor
            && (position == position.Floor as real ==>
                  p == values[position.Floor] && CountAtLeast(values, p) >= |values| - position.Floor)
  {
    PercentileBetween(values, fraction);
    var p := Percentile(values, fraction);
    var low := Position(|values|, fraction).Floor;
    SortedEverywhere(values);
    PrefixCounted(values, low + 1, p);
    SuffixCounted(values, low + 1, p);
    if Position(|values|, fraction) == low as real {
      SuffixCounted(values, low, p);
    }
  }

  // ---------------------------------------------------------------------------------------
  // Mean and distribution
  // ---------------------------------------------------------------------------------------

  function Sum(values: seq<real>): real {
    if values == [] then 0.0 else values[0] + Sum(values[1..])
  }

  function Mean(values: seq<real>): real
    requires |values| > 0
  {
    Sum(values) / |values| as real
  }

  lemma {:induction false} SumBounds(values: seq<real>, lo: real, hi: real)
    requires forall i :: 0 <= i < |values| ==> lo <= values[i] <= hi
    ensures |values| as real * lo <= Sum(values) <= |values| as real * hi
  {
    if values == [] {
    } else {
      var rest := values[1..];
      SumBounds(rest, lo, hi);
      assert |values| as real == |rest| as real + 1.0;
      assert (|rest| as real + 1.0) * lo == |rest| as real * lo + lo;
      assert (|rest| as real + 1.0) * hi == |rest| as real * hi + hi;
    }
  }

  lemma DivideBounds(n: real, lo: real, s: real, hi: real)
    requires n > 0.0 && n * lo <= s <= n * hi
    ensures lo <= s / n <= hi
  {
    var q := s / n;
    assert q * n == s;
    if q < lo {
      PositiveProduct(n, lo - q);
    }
    if q > hi {
      PositiveProduct(n, q - hi);
    }
  }

  lemma PositiveProduct(a: real, b: real)
    requires a > 0.0 && b > 0.0
    ensures a * b > 0.0
  {
  }

  lemma MeanBetween(values: seq<real>)
    requires |values| > 0 && Sorted(values)
    ensures values[0] <= Mean(values) <= values[|values| - 1]
  {
    SortedEverywhere(values);
    SumBounds(values, values[0], values[|values| - 1]);
    DivideBounds(|values| as real, values[0], Sum(values), values[|values| - 1]);
  }

  datatype Bucket = Bucket(lower: real, upper: Option<real>) {
    predicate Holds(value: real) {
      match upper
      case Some(u) => lower <= value < u
      case None => lower <= value
    }
  }

  const BUCKETS := [
    Bucket(0.0, Some(250000.0)), Bucket(250000.0, Some(500000.0)),
    Bucket(500000.0, Some(1000000.0)), Bucket(1000000.0, None)]

  function CountIn(values: seq<real>, b: Bucket): (n: nat) {
    if values == [] then 0
    else (if b.Holds(values[0]) then 1 else 0) + CountIn(values[1..], b)
  }

  function Distribution(values: seq<real>): (d: seq<nat>)
    ensures |d| == |BUCKETS|
  {
    seq(|BUCKETS|, i requires 0 <= i < |BUCKETS| => CountIn(values, BUCKETS[i]))
  }

  function Total(counts: seq<nat>): nat {
    if counts == [] then 0 else counts[0] + Total(counts[1..])
  }

  lemma FourBuckets(values: seq<real>)
    ensures Total(Distribution(values))
         == CountIn(values, BUCKETS[0]) + CountIn(values, BUCKETS[1])
            + CountIn(values, BUCKETS[2]) + CountIn(values, BUCKETS[3])
  {
    var d := Distribution(values);
    assert d == [d[0], d[1], d[2], d[3]];
    assert Total(d) == d[0] + Total(d[1..]) && d[1..] == [d[1], d[2], d[3]];
    assert Total(d[1..]) == d[1] + Total(d[1..][1..]) && d[1..][1..] == [d[2], d[3]];
    assert Total([d[2], d[3]]) == d[2] + Total([d[2], d[3]][1..]) && [d[2], d[3]][1..] == [d[3]];
    assert Total([d[3]]) == d[3];
  }

  lemma {:induction false} CountsCoverPositives(values: seq<real>)
    requires forall i :: 0 <= i < |values| ==> values[i] > 0.0
    ensures CountIn(values, BUCKETS[0]) + CountIn(values, BUCKETS[1])
            + CountIn(values, BUCKETS[2]) + CountIn(values, BUCKETS[3]) == |values|
  {
    if values == [] {
    } else {
      CountsCoverPositives(values[1..]);
    }
  }

  // ---------------------------------------------------------------------------------------
  // Aggregating rows
  // ---------------------------------------------------------------------------------------

  /** The fields of a transaction row that the statistics read. */
  datatype Row = Row(tradeQuarter: string, unitPrice: Option<real>, supporting: nat)

  predicate Priced(r: Row) {
    r.unitPrice.Some? && r.unitPrice.value > 0.0
  }

  /** The positive prices, in row order. */
  function Prices(rows: seq<Row>): (ps: seq<real>)
    ensures forall i :: 0 <= i < |ps| ==> ps[i] > 0.0
  {
    if rows == [] then []
    else if Priced(rows[0]) then [rows[0].unitPrice.value] + Prices(rows[1..])
    else Prices(rows[1..])
  }

  datatype Statistics = Statistics(mean: real, median: real, p25: real, p75: real, distribution: seq<nat>)

  datatype Aggregate = Aggregate(sampleSize: nat, period: string, assetType: string, statistics: Option<Statistics>) {
    predicate Ok() { statistics.Some? }
  }

  function AggregateRegionRows(rows: seq<Row>, assetType: string, period: string): Aggregate {
    var values := Sort(Prices(rows));
    Aggregate(|values|, period, assetType,
      if |values| < MIN_SAMPLE_SIZE then None
      else Some(Statistics(Mean(values), Percentile(values, 0.5), Percentile(values, 0.25),
                           Percentile(values, 0.75), Distribution(values))))
  }

  /** The aggregate depends only on the multiset of positive prices. */
  lemma OrderIsIrrelevant(rows: seq<Row>, other: seq<Row>, assetType: string, period: string)
    requires multiset(Prices(rows)) == multiset(Prices(other))
    ensures AggregateRegionRows(rows, assetType, period) == AggregateRegionRows(other, assetType, period)
  {
    SortKeepsMultiset(Prices(rows));
    SortKeepsMultiset(Prices(other));
    SortedIsUnique(Sort(Prices(rows)), Sort(Prices(other)));
  }

  ghost predicate IsLeast(m: real, values: seq<real>) {
    m in values && forall v :: v in values ==> m <= v
  }

  ghost predicate IsGreatest(m: real, values: seq<real>) {
    m in values && forall v :: v in values ==> v <= m
  }

  /** Five or more positive prices give ordered statistics that stay between the smallest and the
      largest price, and a distribution that counts every price once. */
  lemma AggregateIsSound(rows: seq<Row>, assetType: string, period: string, least: real, greatest: real)
    requires IsLeast(least, Prices(rows)) && IsGreatest(greatest, Prices(rows))
    ensures var a := AggregateRegionRows(rows, assetType, period);
            && a.sampleSize == |Prices(rows)|
            && (a.Ok() <==> |Prices(rows)| >= 5)
            && (a.Ok() ==>
                  var s := a.statistics.value;
                  && least <= s.p25 <= s.median <= s.p75 <= greatest
                  && least <= s.mean <= greatest
                  && s.mean * a.sampleSize as real == Sum(Prices(rows))
                  && Total(s.distribution) == a.sampleSize)
  {
    hide Sort, Percentile, Sorted, Distribution, CountIn, Total, Mean, Sum, IsLeast, IsGreatest, Prices;
    var prices := Prices(rows);
    if |prices| >= MIN_SAMPLE_SIZE {
      EndsOfSorted(prices, least, greatest);
      QuartilesOrdered(Sort(prices));
      MeanOfSorted(prices);
      DistributionCountsAll(prices);
    }
  }

  lemma QuartilesOrdered(values: seq<real>)
    requires |values| > 0 && Sorted(values)
    ensures values[0] <= Percentile(values, 0.25) <= Percentile(values, 0.5)
            <= Percentile(values, 0.75) <= values[|values| - 1]
  {
    hide Percentile, Sorted;
    PercentileEnds(values);
    PercentileMonotone(values, 0.0, 0.25);
    PercentileMonotone(values, 0.25, 0.5);
    PercentileMonotone(values, 0.5, 0.75);
    PercentileMonotone(values, 0.75, 1.0);
  }

  lemma MeanOfSorted(prices: seq<real>)
    requires |prices| > 0
    ensures var values := Sort(prices);
            && values[0] <= Mean(values) <= values[|values| - 1]
            && Mean(values) * |prices| as real == Sum(prices)
  {
    hide Sort, Sorted, Sum, Mean;
    var values := Sort(prices);
    SumSorted(prices);
    MeanBetween(values);
    MeanTimesSize(values);
  }

  lemma MeanTimesSize(values: seq<real>)
    requires |values| > 0
    ensures Mean(values) * |values| as real == Sum(values)
  {
    hide Sum;
  }

  lemma EndsOfSorted(prices: seq<real>, least: real, greatest: real)
    requires IsLeast(least, prices) && IsGreatest(greatest, prices)
    ensures Sort(prices)[0] == least && Sort(prices)[|prices| - 1] == greatest
  {
    hide Sort;
    var values := Sort(prices);
    SortKeepsMultiset(prices);
    HeadIsLeast(values, least);
    assert values[0] in multiset(prices) && values[|values| - 1] in multiset(prices);
    assert values[0] in prices && values[|values| - 1] in prices;
    assert greatest in multiset(values);
    var i :| 0 <= i < |values| && values[i] == greatest;
    SortedAt(values, i, |values| - 1);
  }

  lemma DistributionCountsAll(prices: seq<real>)
    requires forall i :: 0 <= i < |prices| ==> prices[i] > 0.0
    ensures Total(Distribution(Sort(prices))) == |prices|
  {
    hide Sort, Distribution, CountIn, Total;
    var values := Sort(prices);
    SortKeepsMultiset(prices);
    forall i | 0 <= i < |values| ensures values[i] > 0.0 {
      assert values[i] in multiset(prices);
    }
    FourBuckets(values);
    CountsCoverPositives(values);
  }

  lemma {:induction false} SumInsert(x: real, s: seq<real>)
    ensures Sum(Insert(x, s)) == x + Sum(s)
  {
    if s == [] || x <= s[0] {
      assert ([x] + s)[1..] == s;
    } else {
      SumInsert(x, s[1..]);
      var tail := Insert(x, s[1..]);
      assert ([s[0]] + tail)[1..] == tail;
    }
  }

  lemma {:induction false} SumSorted(s: seq<real>)
    ensures Sum(Sort(s)) == Sum(s)
  {
    if s == [] {
    } else {
      SumSorted(s[1..]);
      SumInsert(s[0], Sort(s[1..]));
    }
  }

  // ---------------------------------------------------------------------------------------
  // What the statistics are, over the prices themselves
  // ---------------------------------------------------------------------------------------

  /** Every positive price of the rows is there as often as rows carry it, and nothing else is. */
  lemma {:induction false} PricesAreThePositive(rows: seq<Row>, x: real)
    ensures multiset(Prices(rows))[x] == |Filter(rows, (r: Row) => r.unitPrice == Some(x) && x > 0.0)|
  {
    if rows == [] {
    } else {
      PricesAreThePositive(rows[1..], x);
      var rest := Prices(rows[1..]);
      if Priced(rows[0]) {
        assert multiset([rows[0].unitPrice.value] + rest) == multiset{rows[0].unitPrice.value} + multiset(rest);
      }
    }
  }

  lemma QuartilesAt(values: seq<real>)
    requires |values| > 0
    ensures AtQuarters(values, |values| - 1, Percentile(values, 0.25))
    ensures AtQuarters(values, 2 * (|values| - 1), Percentile(values, 0.5))
    ensures AtQuarters(values, 3 * (|values| - 1), Percentile(values, 0.75))
  {
    hide Percentile, AtQuarters;
    PercentileAtQuarters(values, 0.25, |values| - 1);
    PercentileAtQuarters(values, 0.5, 2 * (|values| - 1));
    PercentileAtQuarters(values, 0.75, 3 * (|values| - 1));
  }

  /** Whoever sorts the prices finds median and quartiles at their exact places between neighbours. */
  lemma QuartilesOfAggregate(rows: seq<Row>, assetType: string, period: string, values: seq<real>)
    requires Sorted(values) && multiset(values) == multiset(Prices(rows)) && |values| >= 5
    ensures var a := AggregateRegionRows(rows, assetType, period);
            && a.Ok() && a.sampleSize == |values| && a.period == period && a.assetType == assetType
            && AtQuarters(values, |values| - 1, a.statistics.value.p25)
            && AtQuarters(values, 2 * (|values| - 1), a.statistics.value.median)
            && AtQuarters(values, 3 * (|values| - 1), a.statistics.value.p75)
            && (|values| % 2 == 1 ==> a.statistics.value.median == values[|values| / 2])
            && (|values| % 2 == 0 ==>
                  a.statistics.value.median == (values[|values| / 2 - 1] + values[|values| / 2]) / 2.0)
  {
    hide Percentile, Sorted, AtQuarters, Distribution, Mean, Sort, Prices;
    SortKeepsMultiset(Prices(rows));
    SortedIsUnique(Sort(Prices(rows)), values);
    QuartilesAt(values);
    MedianOf(values);
  }

  lemma {:induction false} CountInIsFilter(values: seq<real>, b: Bucket)
    ensures CountIn(values, b) == |Filter(values, (x: real) => b.Holds(x))|
  {
    if values == [] {
    } else {
      CountInIsFilter(values[1..], b);
    }
  }

  lemma {:induction false} CountInInserted(x: real, values: seq<real>, b: Bucket)
    ensures CountIn(Insert(x, values), b) == (if b.Holds(x) then 1 else 0) + CountIn(values, b)
  {
    if values == [] || x <= values[0] {
      assert ([x] + values)[1..] == values;
    } else {
      CountInInserted(x, values[1..], b);
      var tail := Insert(x, values[1..]);
      assert ([values[0]] + tail)[1..] == tail;
    }
  }

  lemma {:induction false} CountInSorted(values: seq<real>, b: Bucket)
    ensures CountIn(Sort(values), b) == CountIn(values, b)
  {
    if values == [] {
    } else {
      CountInSorted(values[1..], b);
      CountInInserted(values[0], Sort(values[1..]), b);
    }
  }

  lemma {:induction false} SameFilter(values: seq<real>, p: real -> bool, q: real -> bool)
    requires forall i :: 0 <= i < |values| ==> p(values[i]) == q(values[i])
    ensures Filter(values, p) == Filter(values, q)
  {
    if values == [] {
    } else {
      SameFilter(values[1..], p, q);
    }
  }

  /** The distribution counts the prices below a quarter million, from there below a half, from there
      below one million, and from one million on. */
  lemma DistributionOfAggregate(rows: seq<Row>, assetType: string, period: string)
    requires |Prices(rows)| >= 5
    ensures var prices := Prices(rows);
            AggregateRegionRows(rows, assetType, period).statistics.value.distribution ==
            [|Filter(prices, (x: real) => x < 250000.0)|,
             |Filter(prices, (x: real) => 250000.0 <= x < 500000.0)|,
             |Filter(prices, (x: real) => 500000.0 <= x < 1000000.0)|,
             |Filter(prices, (x: real) => 1000000.0 <= x)|]
  {
    hide Percentile, Mean, Filter, Sort, CountIn, Prices;
    var prices := Prices(rows);
    forall b: Bucket ensures CountIn(Sort(prices), b) == |Filter(prices, (x: real) => b.Holds(x))| {
      CountInSorted(prices, b);
      CountInIsFilter(prices, b);
    }
    SameFilter(prices, (x: real) => BUCKETS[0].Holds(x), (x: real) => x < 250000.0);
    SameFilter(prices, (x: real) => BUCKETS[1].Holds(x), (x: real) => 250000.0 <= x < 500000.0);
    SameFilter(prices, (x: real) => BUCKETS[2].Holds(x), (x: real) => 500000.0 <= x < 1000000.0);
    SameFilter(prices, (x: real) => BUCKETS[3].Holds(x), (x: real) => 1000000.0 <= x);
  }
}
