/**
 * Trade quarters: the importer prints them (`_quarter` in scripts/import_mlit_transactions.py)
 * and the statistics read them back (`parse_trade_quarter` in backend/app/region_stats.py).
 */
module TradeQuarter {
  import opened Common
  import opened Decimal

  datatype Quarter = Quarter(year: nat, quarter: nat)

  predicate IsQuarterDigit(c: char) { '1' <= c <= '4' }

  /** `^(\d{4})Q([1-4])$` over ASCII digits */
  predicate IsTradeQuarter(s: string) {
    |s| == 6 && AllDigits(s[..4]) && s[4] == 'Q' && IsQuarterDigit(s[5])
  }

  function ParseTradeQuarter(s: string): (r: Option<Quarter>)
    ensures r.Some? ==> r.value.year < 10000 && 1 <= r.value.quarter <= 4
  {
    if IsTradeQuarter(s) then
      FourDigits(s[..4]);
      Some(Quarter(ParseNat(s[..4]), DigitValue(s[5])))
    else None
  }

  lemma FourDigits(s: string)
    requires |s| == 4 && AllDigits(s)
    ensures ParseNat(s) == 1000 * DigitValue(s[0]) + 100 * DigitValue(s[1]) + 10 * DigitValue(s[2]) + DigitValue(s[3])
    ensures ParseNat(s) < 10000
  {
    ParseStep(s, 1);
    ParseStep(s, 2);
    ParseStep(s, 3);
    ParseStep(s, 4);
    assert s[..0] == "" && s[..4] == s;
  }

  lemma ParseStep(s: string, k: nat)
    requires AllDigits(s) && 0 < k <= |s|
    ensures ParseNat(s[..k]) == 10 * ParseNat(s[..k - 1]) + DigitValue(s[k - 1])
  {
    assert s[..k][..k - 1] == s[..k - 1];
  }

  /** The importer's reading of a period such as 2025年第1四半期: the year and the stored text. */
  function ImportedQuarter(text: string): Option<(nat, string)> {
    if |text| == 10 && AllDigits(text[..4]) && text[4..6] == "年第" && IsQuarterDigit(text[6])
       && text[7..] == "四半期"
    then
      var year := ParseNat(text[..4]);
      Some((year, Digits(year) + "Q" + [text[6]]))
    else None
  }

  /** The stored quarter is read back as the imported year and quarter exactly when the year was
      written without a leading zero; otherwise the statistics reject it. */
  lemma StoredQuarterReadsBackIff(text: string)
    requires ImportedQuarter(text).Some?
    ensures var (year, stored) := ImportedQuarter(text).value;
            && (text[0] != '0' ==> ParseTradeQuarter(stored) == Some(Quarter(year, DigitValue(text[6]))))
            && (text[0] == '0' ==> ParseTradeQuarter(stored) == None)
  {
    var digits := text[..4];
    var (year, stored) := ImportedQuarter(text).value;
    FourDigits(digits);
    if text[0] != '0' {
      DigitsOfParse(digits);
      assert stored[..4] == digits;
    } else {
      LeadingZero(digits);
      assert Power10(3) == 10 * Power10(2) && Power10(2) == 10 * Power10(1) && Power10(1) == 10 * Power10(0);
      DigitsAreShort(year, 3);
    }
  }

  lemma LeadingZero(s: string)
    requires |s| == 4 && AllDigits(s) && s[0] == '0'
    ensures ParseNat(s) < 1000
  {
    FourDigits(s);
  }

  /** The sort key of a period: its (year, quarter) pair, and (0, 0) for a period that has none. */
  function SortKey(s: string): Quarter {
    var q := ParseTradeQuarter(s);
    if q.Some? then q.value else Quarter(0, 0)
  }

  predicate Before(a: Quarter, b: Quarter) {
    a.year < b.year || (a.year == b.year && a.quarter < b.quarter)
  }

  /** Two different valid periods never share a sort key. */
  lemma SortKeyInjective(a: string, b: string)
    requires IsTradeQuarter(a) && IsTradeQuarter(b) && SortKey(a) == SortKey(b)
    ensures a == b
  {
    SameNumeral(a[..4], b[..4]);
    assert a == a[..4] + [a[4], a[5]] && b == b[..4] + [b[4], b[5]];
  }

  lemma {:induction false} SameNumeral(a: string, b: string)
    requires AllDigits(a) && AllDigits(b) && |a| == |b| && ParseNat(a) == ParseNat(b)
    ensures a == b
    decreases |a|
  {
    if a == "" {
    } else {
      var n := |a| - 1;
      SameNumeral(a[..n], b[..n]);
      assert a == a[..n] + [a[n]] && b == b[..n] + [b[n]];
    }
  }

  /** Texts that are no period share one key, before that of every period. */
  lemma InvalidComesFirst(a: string, b: string)
    requires !IsTradeQuarter(a)
    ensures IsTradeQuarter(b) ==> Before(SortKey(a), SortKey(b))
    ensures !IsTradeQuarter(b) ==> SortKey(a) == SortKey(b)
  {
  }

  lemma {:induction false} SmallerNumeral(a: string, b: string)
    requires AllDigits(a) && AllDigits(b) && |a| == |b|
    ensures ParseNat(a) < ParseNat(b) <==> EarlierText(a, b)
    decreases |a|
  {
    if a == "" {
    } else {
      var n := |a| - 1;
      SmallerNumeral(a[..n], b[..n]);
      EarlierSnoc(a, b);
      if ParseNat(a[..n]) == ParseNat(b[..n]) {
        SameNumeral(a[..n], b[..n]);
      }
      hide EarlierText;
    }
  }

  lemma EarlierSnoc(a: string, b: string)
    requires |a| == |b| > 0
    ensures var n := |a| - 1;
            EarlierText(a, b) <==> EarlierText(a[..n], b[..n]) || (a[..n] == b[..n] && a[n] < b[n])
  {
    var n := |a| - 1;
    var x, y := a[..n], b[..n];
    if EarlierText(a, b) {
      var i :| 0 <= i < |a| && (forall j :: 0 <= j < i ==> a[j] == b[j]) && a[i] < b[i];
      assert i < n ==> x[i] < y[i];
    }
    if EarlierText(x, y) {
      var i :| 0 <= i < n && (forall j :: 0 <= j < i ==> x[j] == y[j]) && x[i] < y[i];
      assert a[i] < b[i];
      assert forall j :: 0 <= j < i ==> a[j] == x[j] && b[j] == y[j];
    }
    if x == y {
      assert forall j :: 0 <= j < n ==> a[j] == x[j] && b[j] == y[j];
    }
  }

  /** Sorting periods by their key is sorting them by the calendar, and that is the order of their texts: the
      first character that differs decides. */
  lemma SortKeyIsCalendarOrder(a: string, b: string)
    requires IsTradeQuarter(a) && IsTradeQuarter(b)
    ensures Before(SortKey(a), SortKey(b)) <==> EarlierText(a, b)
  {
    SmallerNumeral(a[..4], b[..4]);
    if ParseNat(a[..4]) < ParseNat(b[..4]) {
      var i :| 0 <= i < 4 && a[..4][..i] == b[..4][..i] && a[..4][i] < b[..4][i];
      assert a[..i] == a[..4][..i] && b[..i] == b[..4][..i];
    } else if ParseNat(a[..4]) == ParseNat(b[..4]) {
      SameNumeral(a[..4], b[..4]);
      assert a[..5] == a[..4] + [a[4]] && b[..5] == b[..4] + [b[4]];
    }
    if EarlierText(a, b) {
      var i :| 0 <= i < 6 && a[..i] == b[..i] && a[i] < b[i];
      if i < 4 {
        assert a[..4][..i] == a[..i] && b[..4][..i] == b[..i] && a[..4][i] < b[..4][i];
        assert EarlierText(a[..4], b[..4]);
      } else {
        assert i == 5;
        assert a[..4] == a[..5][..4] && b[..4] == b[..5][..4];
      }
    }
  }
}
