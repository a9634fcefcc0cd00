/**
 * Amounts printed as text and read back in scripts/build_jphouse_23ku.py.  Rents and ratios are
 * reals; a printed amount is an exact decimal.
 */
module PriceText {
  import opened Common
  import opened Decimal

  // ---------------------------------------------------------------------------------------
  // Thousands separators
  // ---------------------------------------------------------------------------------------

  function Pad3(n: nat): (s: string)
    requires n < 1000
    ensures |s| == 3 && AllDigits(s)
  {
    [DigitChar(n / 100), DigitChar(n / 10 % 10), DigitChar(n % 10)]
  }

  /** `f"{n:,}"` */
  function Grouped(n: nat): (s: string)
    ensures s != ""
  {
    if n < 1000 then Digits(n) else Grouped(n / 1000) + "," + Pad3(n % 1000)
  }

  /** `re.sub(r"[^0-9]", "", s)` */
  function OnlyDigits(s: string): (r: string)
    ensures AllDigits(r)
  {
    if s == "" then ""
    else if IsDigit(s[0]) then [s[0]] + OnlyDigits(s[1..]) else OnlyDigits(s[1..])
  }

  lemma {:induction false} OnlyDigitsConcat(a: string, b: string)
    ensures OnlyDigits(a + b) == OnlyDigits(a) + OnlyDigits(b)
  {
    if a == "" {
      assert a + b == b;
    } else {
      assert (a + b)[1..] == a[1..] + b;
      OnlyDigitsConcat(a[1..], b);
    }
  }

  lemma {:induction false} OnlyDigitsOfDigits(s: string)
    requires AllDigits(s)
    ensures OnlyDigits(s) == s
  {
    if s == "" {
    } else {
      OnlyDigitsOfDigits(s[1..]);
    }
  }

  lemma DigitsInThrees(n: nat)
    requires n >= 1000
    ensures Digits(n) == Digits(n / 1000) + Pad3(n % 1000)
  {
    hide Digits, DigitChar;
    var a := n / 10;
    var b := a / 10;
    ThreeDigits(n);
    LastDigit(n);
    LastDigit(a);
    LastDigit(b);
    var front := Digits(b / 10);
    assert front + [DigitChar(b % 10)] + [DigitChar(a % 10)] + [DigitChar(n % 10)]
        == front + [DigitChar(b % 10), DigitChar(a % 10), DigitChar(n % 10)];
  }

  lemma LastDigit(n: nat)
    requires n >= 10
    ensures Digits(n) == Digits(n / 10) + [DigitChar(n % 10)]
  {
  }

  lemma ThreeDigits(n: nat)
    ensures n / 10 / 10 / 10 == n / 1000
    ensures n % 1000 / 100 == n / 10 / 10 % 10 && n % 1000 / 10 % 10 == n / 10 % 10 && n % 1000 % 10 == n % 10
  {
  }

  /** The separators hide nothing: without them a printed number is its plain numeral. */
  lemma {:induction false} GroupedDigits(n: nat)
    ensures OnlyDigits(Grouped(n)) == Digits(n)
  {
    if n < 1000 {
      OnlyDigitsOfDigits(Digits(n));
    } else {
      GroupedDigits(n / 1000);
      var g, p := Grouped(n / 1000), Pad3(n % 1000);
      OnlyDigitsConcat(g + ",", p);
      OnlyDigitsConcat(g, ",");
      assert OnlyDigits(",") == "";
      OnlyDigitsOfDigits(p);
      DigitsInThrees(n);
    }
  }

  lemma GroupedUnfold(n: nat)
    requires n >= 1000
    ensures Grouped(n) == Grouped(n / 1000) + "," + Pad3(n % 1000)
  {
  }

  lemma ShortNumeral(n: nat)
    requires n < 1000
    ensures |Digits(n)| <= 3
  {
    assert Power10(3) == 10 * Power10(2) && Power10(2) == 10 * Power10(1) && Power10(1) == 10 * Power10(0);
    DigitsAreShort(n, 3);
  }

  /** Counted from the right, every fourth character is a comma and every other one a digit. */
  ghost predicate InGroups(s: string) {
    forall i :: 0 <= i < |s| ==> if (|s| - i) % 4 == 0 then s[i] == ',' else IsDigit(s[i])
  }

  lemma OneMoreGroup(g: string, p: string)
    requires InGroups(g) && |p| == 3 && AllDigits(p)
    ensures InGroups(g + "," + p)
  {
    var s := g + "," + p;
    forall i | 0 <= i < |s|
      ensures if (|s| - i) % 4 == 0 then s[i] == ',' else IsDigit(s[i])
    {
      if i < |g| {
        assert |s| - i == |g| - i + 4;
        assert s[i] == g[i];
      } else if i > |g| {
        assert s[i] == p[i - |g| - 1];
        assert 0 < |s| - i < 4;
      }
    }
  }

  lemma {:induction false} CommasEveryThreeDigits(n: nat)
    ensures InGroups(Grouped(n))
  {
    if n < 1000 {
      ShortNumeral(n);
    } else {
      hide Pad3, Grouped, InGroups;
      GroupedUnfold(n);
      CommasEveryThreeDigits(n / 1000);
      OneMoreGroup(Grouped(n / 1000), Pad3(n % 1000));
    }
  }

  // ---------------------------------------------------------------------------------------
  // Prices
  // ---------------------------------------------------------------------------------------

  /** `f"{n:,}"` for any integer */
  function GroupedInt(n: int): string {
    if n < 0 then "-" + Grouped(-n) else Grouped(n)
  }

  /** `f"约{price:,}万日元"` */
  function SaleText(price: int): string {
    "约" + GroupedInt(price) + "万日元"
  }

  /** `int(re.sub(r"[^0-9]", "", text))`; None where `int` would raise. */
  function ReadPrice(text: string): Option<nat> {
    var digits := OnlyDigits(text);
    if digits == "" then None else Some(ParseNat(digits))
  }

  lemma SaleTextDigits(price: int)
    ensures OnlyDigits(SaleText(price)) == Digits(if price < 0 then -price else price)
  {
    var g := GroupedInt(price);
    OnlyDigitsConcat("约" + g, "万日元");
    OnlyDigitsConcat("约", g);
    assert OnlyDigits("约") == "" by { assert "约"[1..] == ""; }
    assert OnlyDigits("万日元") == "" by {
      assert "万日元"[1..] == "日元" && "日元"[1..] == "元" && "元"[1..] == "";
    }
    if price < 0 {
      OnlyDigitsConcat("-", Grouped(-price));
      assert OnlyDigits("-") == "" by { assert "-"[1..] == ""; }
      GroupedDigits(-price);
    } else {
      GroupedDigits(price);
    }
  }

  /** A printed price is read back as itself exactly when it is not negative; a negative one loses
      its sign. */
  lemma PrintedPriceReadsBackIff(price: int)
    ensures ReadPrice(SaleText(price)) == Some(if price < 0 then -price else price)
    ensures (exists n: nat :: ReadPrice(SaleText(price)) == Some(n) && n == price) <==> price >= 0
  {
    SaleTextDigits(price);
    ParseDigits(if price < 0 then -price else price);
  }

  /** The sign of a price is printed before its digits, exactly when it is negative. */
  lemma PrintedSign(price: int)
    ensures price >= 0 ==> SaleText(price) == "约" + Grouped(price) + "万日元" && SaleText(price)[1] != '-'
    ensures price < 0 ==> SaleText(price) == "约" + "-" + Grouped(-price) + "万日元"
  {
    if price >= 0 {
      StartsWithDigit(price);
    } else {
      assert "约" + ("-" + Grouped(-price)) == "约" + "-" + Grouped(-price);
    }
  }

  lemma {:induction false} StartsWithDigit(n: nat)
    ensures Grouped(n) != "" && IsDigit(Grouped(n)[0])
  {
    if n >= 1000 {
      StartsWithDigit(n / 1000);
    }
  }

  /** A text without any digit is no price. */
  lemma PriceReadIff(text: string)
    ensures ReadPrice(text) == None <==> forall i :: 0 <= i < |text| ==> !IsDigit(text[i])
  {
    OnlyDigitsEmptyIff(text);
  }

  // ---------------------------------------------------------------------------------------
  // Rents
  // ---------------------------------------------------------------------------------------

  const NO_SAMPLE := "暂无样本"

  /** `f"{rent:.1f}万日元/月"` */
  function RentText(rent: real): string
    requires rent >= 0.0
  {
    var tenths := RoundHalfEven(rent * 10.0);
    Digits(tenths / 10) + "." + [DigitChar(tenths % 10)] + "万日元/月"
  }

  /** `text.split("万")[0]` */
  function BeforeWan(text: string): (r: string)
    ensures r <= text
  {
    if text == "" || text[0] == '万' then "" else [text[0]] + BeforeWan(text[1..])
  }

  /** Position of the decimal point, or the length of the text. */
  function PointAt(s: string): (n: nat)
    ensures n <= |s|
  {
    if s == "" || s[0] == '.' then 0 else 1 + PointAt(s[1..])
  }

  /** `float(s)` for plain decimals; None where the text has another form. */
  function ReadDecimal(s: string): Option<real> {
    var p := PointAt(s);
    var fraction := if p < |s| then s[p + 1..] else "";
    if s == "" || !AllDigits(s[..p]) || !AllDigits(fraction) then None
    else Some(ParseNat(s[..p]) as real + ParseNat(fraction) as real / Power10(|fraction|) as real)
  }

  lemma {:induction false} BeforeWanStops(a: string, b: string)
    requires '万' !in a
    ensures BeforeWan(a + "万" + b) == a
  {
    if a == "" {
      assert a + "万" + b == "万" + b;
    } else {
      assert a[0] in a;
      assert (a + "万" + b)[1..] == a[1..] + "万" + b;
      BeforeWanStops(a[1..], b);
      assert a == [a[0]] + a[1..];
    }
  }

  lemma {:induction false} PointAfterDigits(a: string, b: string)
    requires AllDigits(a)
    ensures PointAt(a + "." + b) == |a|
  {
    if a == "" {
      assert a + "." + b == "." + b;
    } else {
      assert (a + "." + b)[1..] == a[1..] + "." + b;
      PointAfterDigits(a[1..], b);
    }
  }

  /** The printed rent is read back as the rent rounded to tenths. */
  lemma PrintedRentReadsBack(rent: real)
    requires rent >= 0.0
    ensures var tenths := RoundHalfEven(rent * 10.0);
            ReadDecimal(BeforeWan(RentText(rent))) == Some(tenths as real / 10.0)
    ensures RentText(rent) != NO_SAMPLE
  {
    var tenths := RoundHalfEven(rent * 10.0);
    var whole, digit := Digits(tenths / 10), DigitChar(tenths % 10);
    hide RoundHalfEven, Digits, DigitChar;
    RentTextParts(rent);
    NumberBeforeWan(whole, digit);
    hide RentText, BeforeWan, ReadDecimal;
    OneDecimal(whole, digit);
    ParseDigits(tenths / 10);
    Tenths(tenths / 10, tenths % 10, tenths);
  }

  lemma RentTextParts(rent: real)
    requires rent >= 0.0
    ensures var tenths := RoundHalfEven(rent * 10.0);
            RentText(rent) == Digits(tenths / 10) + "." + [DigitChar(tenths % 10)] + "万" + "日元/月"
    ensures RentText(rent) != NO_SAMPLE
  {
    hide RoundHalfEven, Digits, DigitChar;
    var tenths := RoundHalfEven(rent * 10.0);
    var number := Digits(tenths / 10) + "." + [DigitChar(tenths % 10)];
    assert "万日元/月" == "万" + "日元/月";
    assert number + "万日元/月" == number + "万" + "日元/月";
    assert RentText(rent)[0] == Digits(tenths / 10)[0] != NO_SAMPLE[0];
  }

  lemma NumberBeforeWan(whole: string, digit: char)
    requires AllDigits(whole) && IsDigit(digit)
    ensures BeforeWan(whole + "." + [digit] + "万" + "日元/月") == whole + "." + [digit]
  {
    assert '万' !in whole + "." + [digit];
    hide BeforeWan;
    BeforeWanStops(whole + "." + [digit], "日元/月");
  }

  lemma ReadAtPoint(s: string, p: nat)
    requires p < |s| && PointAt(s) == p && AllDigits(s[..p]) && AllDigits(s[p + 1..])
    ensures ReadDecimal(s)
         == Some(ParseNat(s[..p]) as real + ParseNat(s[p + 1..]) as real / Power10(|s| - p - 1) as real)
  {
    hide PointAt, ParseNat, Power10;
  }

  lemma Parts(whole: string, fraction: string)
    ensures var s := whole + "." + fraction; s[..|whole|] == whole && s[|whole| + 1..] == fraction
  {
  }

  lemma ReadParts(whole: string, fraction: string)
    requires AllDigits(whole) && AllDigits(fraction)
    ensures ReadDecimal(whole + "." + fraction)
         == Some(ParseNat(whole) as real + ParseNat(fraction) as real / Power10(|fraction|) as real)
  {
    hide PointAt, ParseNat, Power10, ReadDecimal, AllDigits;
    PointAfterDigits(whole, fraction);
    Parts(whole, fraction);
    ReadAtPoint(whole + "." + fraction, |whole|);
  }

  lemma TenthsPlace(fraction: string)
    requires |fraction| == 1
    ensures Power10(|fraction|) as real == 10.0
  {
    assert Power10(1) == 10 * Power10(0) == 10;
  }

  lemma AllDigitsOne(digit: char)
    ensures AllDigits([digit]) <==> IsDigit(digit)
  {
    assert [digit][0] == digit;
  }

  lemma OneDecimal(whole: string, digit: char)
    requires whole != "" && AllDigits(whole) && IsDigit(digit)
    ensures ReadDecimal(whole + "." + [digit]) == Some(ParseNat(whole) as real + DigitValue(digit) as real / 10.0)
  {
    var fraction := [digit];
    TenthsPlace(fraction);
    hide ReadDecimal, ParseNat, DigitValue, Power10, AllDigits;
    AllDigitsOne(digit);
    ReadParts(whole, fraction);
    OneDigitText(digit);
  }

  lemma Tenths(whole: nat, digit: nat, tenths: nat)
    requires tenths == 10 * whole + digit
    ensures whole as real + digit as real / 10.0 == tenths as real / 10.0
  {
    assert tenths as real == 10.0 * whole as real + digit as real;
  }

  // ---------------------------------------------------------------------------------------
  // The ratio
  // ---------------------------------------------------------------------------------------

  /** `rent_man * 12 / price_man * 100` */
  function Ratio(rent: real, price: nat): real
    requires price > 0
  {
    rent * 12.0 / price as real * 100.0
  }

  /** The ratio is the yearly rent as a percentage of the price. */
  lemma RatioMeans(rent: real, price: nat)
    requires price > 0
    ensures Ratio(rent, price) * price as real == 1200.0 * rent
  {
    var p := price as real;
    assert rent * 12.0 / p * p == rent * 12.0;
    assert rent * 12.0 / p * 100.0 * p == rent * 12.0 / p * p * 100.0;
  }

  lemma RatioOfDifference(a: real, b: real, price: nat)
    requires price > 0
    ensures Ratio(a, price) - Ratio(b, price) == (a - b) * 1200.0 / price as real
  {
    var p := price as real;
    assert a * 12.0 / p * 100.0 == a * 1200.0 / p;
    assert b * 12.0 / p * 100.0 == b * 1200.0 / p;
    assert (a - b) * 1200.0 == a * 1200.0 - b * 1200.0;
  }

  lemma DivideMonotone(a: real, b: real, p: real)
    requires p > 0.0 && a <= b
    ensures a / p <= b / p
  {
    assert (b - a) / p >= 0.0;
    assert (b - a) / p == b / p - a / p;
  }

  /** The ratio computed from the printed rent is within 60/price of the exact one. */
  lemma PrintedRatioError(rent: real, price: nat)
    requires rent >= 0.0 && price > 0
    ensures var printed := RoundHalfEven(rent * 10.0) as real / 10.0;
            && Ratio(printed, price) - Ratio(rent, price) <= 60.0 / price as real
            && Ratio(rent, price) - Ratio(printed, price) <= 60.0 / price as real
  {
    var printed := RoundHalfEven(rent * 10.0) as real / 10.0;
    assert -0.05 <= printed - rent <= 0.05;
    RatioOfDifference(printed, rent, price);
    RatioOfDifference(rent, printed, price);
    DivideMonotone((printed - rent) * 1200.0, 60.0, price as real);
    DivideMonotone((rent - printed) * 1200.0, 60.0, price as real);
  }

  // ---------------------------------------------------------------------------------------
  // The configuration's ratio line
  // ---------------------------------------------------------------------------------------

  datatype RentRow = RentRow(layout: string, amountJpy: string)

  datatype SaleRow = SaleRow(layout: string, amountJpy: string)

  datatype ConfigError = DivisionByZero

  const LAYOUTS := ["1LDK", "2LDK", "3LDK"]

  /** `rent_row`, the printed amount */
  function MakeRentRow(layout: string, rent: Option<real>): RentRow
    requires rent.Some? ==> rent.value >= 0.0
  {
    RentRow(layout, if rent == None then NO_SAMPLE else RentText(rent.value))
  }

  ghost predicate Inputs(rents: map<string, Option<real>>, prices: map<string, nat>) {
    forall i :: 0 <= i < |LAYOUTS| ==>
      && LAYOUTS[i] in rents && LAYOUTS[i] in prices
      && (rents[LAYOUTS[i]].Some? ==> rents[LAYOUTS[i]].value >= 0.0)
  }

  /** The ratio reported for one layout: none without a rent sample, and otherwise the yearly printed
      rent as a percentage of the price. */
  ghost predicate Reported(entry: (string, Option<real>), layout: string, rent: Option<real>, price: nat) {
    && entry.0 == layout
    && (rent == None ==> entry.1 == None)
    && (rent.Some? && price > 0 ==>
          && entry.1 == Some(Ratio(RoundHalfEven(rent.value * 10.0) as real / 10.0, price))
          && -60.0 / price as real <= entry.1.value - Ratio(rent.value, price) <= 60.0 / price as real)
  }

  /** The rows and ratios of `make_config`: printed amounts are read back out of the rows.  It fails
      exactly when some layout with a rent has price zero. */
  method MakeRatios(rents: map<string, Option<real>>, prices: map<string, nat>)
    returns (r: Result<seq<(string, Option<real>)>, ConfigError>)
    requires Inputs(rents, prices)
    ensures r.Err? <==> exists i :: 0 <= i < |LAYOUTS| && rents[LAYOUTS[i]].Some? && prices[LAYOUTS[i]] == 0
    ensures r.Ok? ==> |r.value| == |LAYOUTS| && forall i :: 0 <= i < |LAYOUTS| ==>
              Reported(r.value[i], LAYOUTS[i], rents[LAYOUTS[i]], prices[LAYOUTS[i]])
  {
    hide RentText, ReadPrice, SaleText, ReadDecimal, BeforeWan, Ratio;
    var rentalRows: seq<RentRow> := [];
    var saleRows: seq<SaleRow> := [];
    for i := 0 to |LAYOUTS|
      invariant |rentalRows| == |saleRows| == i
      invariant forall j :: 0 <= j < i ==> rentalRows[j] == MakeRentRow(LAYOUTS[j], rents[LAYOUTS[j]])
      invariant forall j :: 0 <= j < i ==> saleRows[j] == SaleRow(LAYOUTS[j], SaleText(prices[LAYOUTS[j]]))
    {
      rentalRows := rentalRows + [MakeRentRow(LAYOUTS[i], rents[LAYOUTS[i]])];
      saleRows := saleRows + [SaleRow(LAYOUTS[i], SaleText(prices[LAYOUTS[i]]))];
    }
    var ratios: seq<(string, Option<real>)> := [];
    for i := 0 to |LAYOUTS|
      invariant |ratios| == i
      invariant forall j :: 0 <= j < i ==> !(rents[LAYOUTS[j]].Some? && prices[LAYOUTS[j]] == 0)
      invariant forall j :: 0 <= j < i ==> Reported(ratios[j], LAYOUTS[j], rents[LAYOUTS[j]], prices[LAYOUTS[j]])
    {
      ghost var rent, price := rents[LAYOUTS[i]], prices[LAYOUTS[i]];
      if rent.Some? {
        PrintedRentReadsBack(rent.value);
      }
      PrintedPriceReadsBackIff(price);
      if rentalRows[i].amountJpy == NO_SAMPLE {
        ratios := ratios + [(rentalRows[i].layout, None)];
        continue;
      }
      var rentMan := ReadDecimal(BeforeWan(rentalRows[i].amountJpy));
      var priceMan := ReadPrice(saleRows[i].amountJpy);
      if priceMan.value == 0 {
        return Err(DivisionByZero);
      }
      PrintedRatioError(rent.value, price);
      ratios := ratios + [(rentalRows[i].layout, Some(Ratio(rentMan.value, priceMan.value)))];
    }
    return Ok(ratios);
  }

  // ---------------------------------------------------------------------------------------
  // Reading source prices
  // ---------------------------------------------------------------------------------------

  function DigitRun(s: string): (n: nat)
    ensures n <= |s| && AllDigits(s[..n])
    ensures n < |s| ==> !IsDigit(s[n])
  {
    if s == "" || !IsDigit(s[0]) then 0
    else
      var n := DigitRun(s[1..]);
      assert s[..n + 1] == [s[0]] + s[1..][..n];
      1 + n
  }

  /** `re.search(r"([0-9]+)" + unit, s)`: the first maximal run of digits right before the unit. */
  function SearchAmount(s: string, unit: char): Option<nat>
    decreases |s|
  {
    if s == "" then None
    else
      var n := DigitRun(s);
      if n == 0 then SearchAmount(s[1..], unit)
      else if n < |s| && s[n] == unit then Some(ParseNat(s[..n]))
      else SearchAmount(s[n..], unit)
  }

  /** A run of `n` digits at `i`, followed by the unit */
  predicate AmountAt(s: string, i: nat, n: nat, unit: char) {
    n > 0 && i + n < |s| && s[i + n] == unit && forall x :: i <= x < i + n ==> IsDigit(s[x])
  }

  /** No amount in this unit starts further left. */
  ghost predicate LeftmostAmount(s: string, i: nat, n: nat, unit: char) {
    AmountAt(s, i, n, unit) && forall x: nat, y: nat :: AmountAt(s, x, y, unit) ==> i <= x
  }

  function AmountValue(s: string, i: nat, n: nat, unit: char): nat
    requires AmountAt(s, i, n, unit)
  {
    ParseNat(s[i..i + n])
  }

  lemma RunOfDigits(s: string)
    ensures forall x :: 0 <= x < DigitRun(s) ==> IsDigit(s[x])
  {
    assert forall x :: 0 <= x < DigitRun(s) ==> s[..DigitRun(s)][x] == s[x];
  }

  lemma AmountShifts(s: string, k: nat, i: nat, n: nat, unit: char)
    requires k <= |s|
    ensures AmountAt(s[k..], i, n, unit) <==> AmountAt(s, i + k, n, unit)
    ensures AmountAt(s[k..], i, n, unit) ==> AmountValue(s[k..], i, n, unit) == AmountValue(s, i + k, n, unit)
  {
    if i + k + n < |s| {
      assert s[k..][i..i + n] == s[i + k..i + k + n];
      assert forall x :: i <= x < i + n ==> s[k..][x] == s[x + k];
      assert forall x :: i + k <= x < i + k + n ==> s[x] == s[k..][x - k];
    }
  }

  /** The characters the search passes over without a match hold no start of an amount. */
  lemma NothingPassedOver(s: string, unit: char, k: nat, i: nat, n: nat)
    requires s != "" && !IsDigit(unit) && k == (if DigitRun(s) == 0 then 1 else DigitRun(s))
    requires !(0 < DigitRun(s) < |s| && s[DigitRun(s)] == unit) && AmountAt(s, i, n, unit)
    ensures k <= i
  {
    RunOfDigits(s);
    assert IsDigit(s[i]) && !IsDigit(s[i + n]);
  }

  lemma LeftmostShifts(s: string, k: nat, i: nat, n: nat, unit: char)
    requires k <= |s| && LeftmostAmount(s[k..], i, n, unit)
    requires forall x: nat, y: nat :: AmountAt(s, x, y, unit) ==> k <= x
    ensures LeftmostAmount(s, i + k, n, unit)
    ensures AmountValue(s, i + k, n, unit) == AmountValue(s[k..], i, n, unit)
  {
    hide AmountAt, AmountValue;
    AmountShifts(s, k, i, n, unit);
    forall x: nat, y: nat | AmountAt(s, x, y, unit) ensures i + k <= x {
      AmountShifts(s, k, x - k, y, unit);
    }
  }

  lemma SearchPasses(s: string, unit: char, k: nat)
    requires s != "" && k == (if DigitRun(s) == 0 then 1 else DigitRun(s))
    requires !(0 < DigitRun(s) < |s| && s[DigitRun(s)] == unit)
    ensures SearchAmount(s, unit) == SearchAmount(s[k..], unit)
  {
  }

  lemma SearchStops(s: string, unit: char)
    requires 0 < DigitRun(s) < |s| && s[DigitRun(s)] == unit
    ensures LeftmostAmount(s, 0, DigitRun(s), unit)
    ensures SearchAmount(s, unit) == Some(AmountValue(s, 0, DigitRun(s), unit))
  {
    RunOfDigits(s);
    assert s[0..0 + DigitRun(s)] == s[..DigitRun(s)];
  }

  /** What the search yields: the leftmost amount in this unit, and nothing exactly when there is none. */
  lemma {:induction false} SearchIsLeftmost(s: string, unit: char)
    requires !IsDigit(unit)
    ensures SearchAmount(s, unit) == None <==> forall i: nat, n: nat :: !AmountAt(s, i, n, unit)
    ensures SearchAmount(s, unit).Some? ==> exists i: nat, n: nat ::
              LeftmostAmount(s, i, n, unit) && SearchAmount(s, unit).value == AmountValue(s, i, n, unit)
    decreases |s|
  {
    var run := DigitRun(s);
    if s == "" {
    } else if 0 < run < |s| && s[run] == unit {
      SearchStops(s, unit);
      hide SearchAmount, AmountValue, DigitRun;
      assert LeftmostAmount(s, 0, run, unit);
    } else {
      var k := if run == 0 then 1 else run;
      SearchIsLeftmost(s[k..], unit);
      hide SearchAmount, AmountValue, DigitRun, AmountAt, LeftmostAmount;
      SearchPasses(s, unit, k);
      forall i: nat, n: nat | AmountAt(s, i, n, unit) ensures k <= i {
        NothingPassedOver(s, unit, k, i, n);
      }
      SearchedTail(s, k, unit);
    }
  }

  lemma SearchedTail(s: string, k: nat, unit: char)
    requires k <= |s| && SearchAmount(s, unit) == SearchAmount(s[k..], unit)
    requires forall x: nat, y: nat :: AmountAt(s, x, y, unit) ==> k <= x
    requires SearchAmount(s[k..], unit) == None <==> forall i: nat, n: nat :: !AmountAt(s[k..], i, n, unit)
    requires SearchAmount(s[k..], unit).Some? ==> exists i: nat, n: nat ::
               LeftmostAmount(s[k..], i, n, unit) && SearchAmount(s[k..], unit).value == AmountValue(s[k..], i, n, unit)
    ensures SearchAmount(s, unit) == None <==> forall i: nat, n: nat :: !AmountAt(s, i, n, unit)
    ensures SearchAmount(s, unit).Some? ==> exists i: nat, n: nat ::
              LeftmostAmount(s, i, n, unit) && SearchAmount(s, unit).value == AmountValue(s, i, n, unit)
  {
    hide SearchAmount, AmountValue, AmountAt, DigitRun;
    if SearchAmount(s, unit) == None {
      forall i: nat, n: nat ensures !AmountAt(s, i, n, unit) {
        if AmountAt(s, i, n, unit) {
          AmountShifts(s, k, i - k, n, unit);
        }
      }
    } else {
      var i: nat, n: nat :|
        LeftmostAmount(s[k..], i, n, unit) && SearchAmount(s[k..], unit).value == AmountValue(s[k..], i, n, unit);
      LeftmostShifts(s, k, i, n, unit);
    }
  }

  /** A text is read as an amount exactly when it holds a digit. */
  lemma ReadIffDigit(text: string)
    ensures ManYen(text) == None <==> forall i :: 0 <= i < |text| ==> !IsDigit(text[i])
  {
    OnlyDigitsEmptyIff(text);
    SearchIsLeftmost(text, '億');
    SearchIsLeftmost(text, '万');
    hide SearchAmount, OnlyDigits, ParseNat, LeftmostAmount;
    assert forall i: nat, n: nat, unit: char :: AmountAt(text, i, n, unit) ==> IsDigit(text[i]);
  }

  lemma {:induction false} OnlyDigitsEmptyIff(s: string)
    ensures OnlyDigits(s) == "" <==> forall i :: 0 <= i < |s| ==> !IsDigit(s[i])
  {
    if s == "" {
    } else {
      OnlyDigitsEmptyIff(s[1..]);
      assert forall i :: 0 < i < |s| ==> s[i] == s[1..][i - 1];
    }
  }

  /** Without either unit the digits are yen, rounded to the nearest ten thousand. */
  lemma PlainYenRounds(text: string)
    requires forall i: nat, n: nat :: !AmountAt(text, i, n, '億') && !AmountAt(text, i, n, '万')
    requires exists i :: 0 <= i < |text| && IsDigit(text[i])
    ensures ManYen(text).Some?
    ensures -5000 <= 10000 * ManYen(text).value - ParseNat(OnlyDigits(text)) <= 5000
  {
    SearchIsLeftmost(text, '億');
    SearchIsLeftmost(text, '万');
    OnlyDigitsEmptyIff(text);
    hide SearchAmount, OnlyDigits, ParseNat, AmountAt, LeftmostAmount;
    NearestTenThousand(ParseNat(OnlyDigits(text)));
  }

  lemma NearestTenThousand(n: nat)
    ensures -5000 <= 10000 * RoundHalfEven(n as real / 10000.0) - n <= 5000
  {
    var r := RoundHalfEven(n as real / 10000.0);
    assert -0.5 <= r as real - n as real / 10000.0 <= 0.5;
    assert 10000.0 * (n as real / 10000.0) == n as real;
    assert (10000 * r - n) as real == 10000.0 * r as real - n as real;
  }

  lemma LeftmostIsFound(text: string, i: nat, n: nat, unit: char)
    requires !IsDigit(unit) && LeftmostAmount(text, i, n, unit)
    ensures SearchAmount(text, unit) == Some(AmountValue(text, i, n, unit))
  {
    SearchIsLeftmost(text, unit);
    hide SearchAmount, AmountValue;
    var x: nat, y: nat :| LeftmostAmount(text, x, y, unit) && SearchAmount(text, unit).value == AmountValue(text, x, y, unit);
    assert x == i;
    assert text[i + n] == unit && text[i + y] == unit;
    assert forall k :: i <= k < i + n ==> text[k] != unit;
    assert forall k :: i <= k < i + y ==> text[k] != unit;
  }

  /** The leftmost amounts in 億 and in 万 add up; a unit that does not occur counts for nothing. */
  lemma AmountsAddUp(text: string, i: nat, n: nat, x: nat, y: nat)
    ensures LeftmostAmount(text, i, n, '億') && LeftmostAmount(text, x, y, '万') ==>
              ManYen(text) == Some(10000 * AmountValue(text, i, n, '億') + AmountValue(text, x, y, '万'))
    ensures LeftmostAmount(text, i, n, '億') && (forall a: nat, b: nat :: !AmountAt(text, a, b, '万')) ==>
              ManYen(text) == Some(10000 * AmountValue(text, i, n, '億'))
    ensures LeftmostAmount(text, x, y, '万') && (forall a: nat, b: nat :: !AmountAt(text, a, b, '億')) ==>
              ManYen(text) == Some(AmountValue(text, x, y, '万'))
  {
    SearchIsLeftmost(text, '億');
    SearchIsLeftmost(text, '万');
    hide SearchAmount, AmountValue, LeftmostAmount, AmountAt, OnlyDigits;
    if LeftmostAmount(text, i, n, '億') {
      LeftmostIsFound(text, i, n, '億');
    }
    if LeftmostAmount(text, x, y, '万') {
      LeftmostIsFound(text, x, y, '万');
    }
  }

  /** `yen_text_to_man_yen` */
  method YenTextToManYen(text: string) returns (r: Option<int>)
    ensures r == ManYen(text)
    ensures r == None <==> forall i :: 0 <= i < |text| ==> !IsDigit(text[i])
  {
    ReadIffDigit(text);
    var oku, man := 0, 0;
    var matchOku, matchMan := SearchAmount(text, '億'), SearchAmount(text, '万');
    if matchOku.Some? {
      oku := matchOku.value * 10000;
    }
    if matchMan.Some? {
      man := matchMan.value;
    }
    if matchOku == None && matchMan == None {
      var digits := OnlyDigits(text);
      return if digits == "" then None else Some(RoundHalfEven(ParseNat(digits) as real / 10000.0));
    }
    return Some(oku + man);
  }

  function ManYen(text: string): Option<int> {
    match (SearchAmount(text, '億'), SearchAmount(text, '万'))
    case (None, None) =>
      if OnlyDigits(text) == "" then None
      else Some(RoundHalfEven(ParseNat(OnlyDigits(text)) as real / 10000.0))
    case (Some(oku), None) => Some(oku * 10000)
    case (None, Some(man)) => Some(man)
    case (Some(oku), Some(man)) => Some(oku * 10000 + man)
  }

  lemma {:induction false} RunBeforeOther(s: string, c: char, rest: string)
    requires AllDigits(s) && !IsDigit(c)
    ensures DigitRun(s + [c] + rest) == |s|
  {
    if s == "" {
      assert s + [c] + rest == [c] + rest;
    } else {
      assert (s + [c] + rest)[1..] == s[1..] + [c] + rest;
      RunBeforeOther(s[1..], c, rest);
    }
  }

  lemma SearchAfterRun(s: string, c: char, rest: string, unit: char)
    requires AllDigits(s) && s != "" && !IsDigit(c) && !IsDigit(unit)
    ensures SearchAmount(s + [c] + rest, unit)
         == if c == unit then Some(ParseNat(s)) else SearchAmount(rest, unit)
  {
    var all := s + [c] + rest;
    RunBeforeOther(s, c, rest);
    assert all[..|s|] == s && all[|s|..] == [c] + rest && ([c] + rest)[1..] == rest;
    assert DigitRun([c] + rest) == 0;
  }

  lemma SearchNothing(unit: char)
    ensures SearchAmount("", unit) == None
  {
  }

  /** An amount written in 億 and 万 is read as its value in 万. */
  lemma OkuAndManRead(oku: nat, man: nat)
    ensures ManYen(Digits(oku) + "億" + Digits(man) + "万") == Some(oku * 10000 + man)
    ensures ManYen(Digits(oku) + "億") == Some(oku * 10000)
    ensures ManYen(Digits(man) + "万") == Some(man)
  {
    var a, b := Digits(oku), Digits(man);
    ParseDigits(oku);
    ParseDigits(man);
    var tail := b + "万";
    assert a + "億" + b + "万" == a + ['億'] + tail;
    assert tail == b + ['万'] + "";
    assert a + "億" == a + ['億'] + "";
    SearchAfterRun(a, '億', tail, '億');
    SearchAfterRun(a, '億', tail, '万');
    SearchAfterRun(b, '万', "", '万');
    SearchAfterRun(b, '万', "", '億');
    SearchAfterRun(a, '億', "", '億');
    SearchAfterRun(a, '億', "", '万');
    SearchNothing('億');
    SearchNothing('万');
  }

  lemma {:induction false} GroupsAreSkipped(n: nat, rest: string, unit: char)
    requires unit != ',' && !IsDigit(unit)
    ensures SearchAmount(Grouped(n) + "," + rest, unit) == SearchAmount(rest, unit)
    decreases n
  {
    if n < 1000 {
      assert Grouped(n) + "," + rest == Digits(n) + [','] + rest;
      SearchAfterRun(Digits(n), ',', rest, unit);
    } else {
      var p := Pad3(n % 1000);
      var tail := p + [','] + rest;
      assert Grouped(n) + "," + rest == Grouped(n / 1000) + "," + tail;
      GroupsAreSkipped(n / 1000, tail, unit);
      SearchAfterRun(p, ',', rest, unit);
    }
  }

  lemma ThreePlaces(n: nat)
    ensures n == 100 * (n / 100) + 10 * (n / 10 % 10) + n % 10
  {
    assert n / 10 / 10 == n / 100;
  }

  lemma OneDigitText(x: char)
    requires IsDigit(x)
    ensures ParseNat([x]) == DigitValue(x)
  {
    assert [x][..0] == "";
  }

  lemma LastDigitText(s: string)
    requires AllDigits(s) && |s| > 0
    ensures ParseNat(s) == 10 * ParseNat(s[..|s| - 1]) + DigitValue(s[|s| - 1])
  {
  }

  lemma ThreeDigitText(x: char, y: char, z: char)
    requires IsDigit(x) && IsDigit(y) && IsDigit(z)
    ensures ParseNat([x, y, z]) == 100 * DigitValue(x) + 10 * DigitValue(y) + DigitValue(z)
  {
    hide ParseNat, DigitValue, IsDigit;
    OneDigitText(x);
    LastDigitText([x, y]);
    assert [x, y][..1] == [x];
    LastDigitText([x, y, z]);
    assert [x, y, z][..2] == [x, y];
  }

  lemma Pad3Value(n: nat)
    requires n < 1000
    ensures ParseNat(Pad3(n)) == n
  {
    hide ParseNat, DigitChar, DigitValue;
    ThreeDigitText(DigitChar(n / 100), DigitChar(n / 10 % 10), DigitChar(n % 10));
    ThreePlaces(n);
  }

  /** An amount printed with thousands separators before 万 keeps only its last group; it is read
      back as itself exactly below one thousand. */
  lemma GroupedManReadIff(man: nat)
    ensures ManYen(Grouped(man) + "万") == Some(man % 1000)
    ensures ManYen(Grouped(man) + "万") == Some(man) <==> man < 1000
  {
    if man < 1000 {
      OkuAndManRead(0, man);
    } else {
      GroupedUnfold(man);
      hide Grouped, Pad3, SearchAmount, OnlyDigits;
      var p := Pad3(man % 1000);
      var tail := p + ['万'] + "";
      assert Grouped(man) + "万" == Grouped(man / 1000) + "," + tail;
      GroupsAreSkipped(man / 1000, tail, '万');
      GroupsAreSkipped(man / 1000, tail, '億');
      SearchAfterRun(p, '万', "", '万');
      SearchAfterRun(p, '万', "", '億');
      SearchNothing('億');
      Pad3Value(man % 1000);
    }
  }
}
