/** Small definitions shared by the modules of this project. */
module Common {

  datatype Option<+T> = None | Some(value: T)

  datatype Result<+T, +E> = Ok(value: T) | Err(error: E)

  /** Nearest integer, ties to the even neighbour, as Python's `round`. */
  function RoundHalfEven(x: real): (n: int)
    ensures -0.5 <= n as real - x <= 0.5
    ensures (n as real - x == 0.5 || x - n as real == 0.5) ==> n % 2 == 0
  {
    var low := x.Floor;
    var rest := x - low as real;
    if rest < 0.5 then low
    else if rest > 0.5 then low + 1
    else if low % 2 == 0 then low else low + 1
  }

  /** Keeps the elements of `s` that satisfy `p`, in order. */
  function Filter<T(!new)>(s: seq<T>, p: T -> bool): (r: seq<T>)
    ensures forall x :: x in r <==> x in s && p(x)
    ensures |r| <= |s|
  {
    if s == [] then []
    else if p(s[0]) then [s[0]] + Filter(s[1..], p)
    else Filter(s[1..], p)
  }

  lemma FilterConcat<T(!new)>(a: seq<T>, b: seq<T>, p: T -> bool)
    ensures Filter(a + b, p) == Filter(a, p) + Filter(b, p)
  {
    if a == [] {
      assert a + b == b;
    } else {
      assert (a + b)[1..] == a[1..] + b;
      FilterConcat(a[1..], b, p);
    }
  }

  predicate IsSpace(c: char) {
    var n := c as int;
    9 <= n <= 13 || 28 <= n <= 32 || n == 0x85 || n == 0xa0 || n == 0x1680 || 0x2000 <= n <= 0x200a
    || n == 0x2028 || n == 0x2029 || n == 0x202f || n == 0x205f || n == 0x3000
  }

  /** The blanks are the 29 characters Python strips. */
  lemma BlanksAre(c: char)
    ensures IsSpace(c) <==>
            c as int in {0x09, 0x0a, 0x0b, 0x0c, 0x0d, 0x1c, 0x1d, 0x1e, 0x1f, 0x20, 0x85, 0xa0, 0x1680,
                         0x2000, 0x2001, 0x2002, 0x2003, 0x2004, 0x2005, 0x2006, 0x2007, 0x2008, 0x2009, 0x200a,
                         0x2028, 0x2029, 0x202f, 0x205f, 0x3000}
  {
    var n := c as int;
    assert 28 <= n <= 32 ==> n == 28 || n == 29 || n == 30 || n == 31 || n == 32;
  }

  /** `value.strip()` */
  function Strip(s: string): (r: string)
    ensures r == "" || (!IsSpace(r[0]) && !IsSpace(r[|r| - 1]))
    ensures s == "" || (!IsSpace(s[0]) && !IsSpace(s[|s| - 1])) ==> r == s
  {
    if s == "" then ""
    else if IsSpace(s[0]) then Strip(s[1..])
    else if IsSpace(s[|s| - 1]) then Strip(s[..|s| - 1])
    else s
  }

  /** `value.lower()` and `value.upper()` on ASCII letters */
  function Lower(s: string): string {
    seq(|s|, i requires 0 <= i < |s| => if 'A' <= s[i] <= 'Z' then (s[i] as int + 32) as char else s[i])
  }

  function Upper(s: string): string {
    seq(|s|, i requires 0 <= i < |s| => if 'a' <= s[i] <= 'z' then (s[i] as int - 32) as char else s[i])
  }

  /** `r` between blanks */
  ghost predicate Padded(s: string, r: string) {
    exists before, after :: AllSpaces(before) && AllSpaces(after) && s == before + r + after
  }

  lemma PaddedMore(c: char, s: string, r: string)
    requires Padded(s, r) && IsSpace(c)
    ensures Padded([c] + s, r) && Padded(s + [c], r)
  {
    var before, after :| AllSpaces(before) && AllSpaces(after) && s == before + r + after;
    var front, back := [c] + before, after + [c];
    assert AllSpaces(front) && AllSpaces(back);
    assert [c] + s == front + r + after;
    assert s + [c] == before + r + back;
  }

  lemma PaddedPlain(s: string)
    ensures Padded(s, s)
  {
    assert AllSpaces("") && s == "" + s + "";
  }

  /** Only blanks are stripped, from both ends. */
  lemma {:induction false} StripMeans(s: string)
    ensures Padded(s, Strip(s)) && Trimmed(Strip(s))
    decreases |s|
  {
    hide Padded;
    if s == "" {
      PaddedPlain(s);
    } else if IsSpace(s[0]) {
      StripMeans(s[1..]);
      assert s == [s[0]] + s[1..];
      PaddedMore(s[0], s[1..], Strip(s));
    } else if IsSpace(s[|s| - 1]) {
      var n := |s| - 1;
      StripMeans(s[..n]);
      assert s == s[..n] + [s[n]];
      PaddedMore(s[n], s[..n], Strip(s));
    } else {
      PaddedPlain(s);
    }
  }

  predicate AllSpaces(s: string) {
    forall i :: 0 <= i < |s| ==> IsSpace(s[i])
  }

  predicate Trimmed(s: string) {
    s == "" || (!IsSpace(s[0]) && !IsSpace(s[|s| - 1]))
  }

  /** A text between blanks is what stripping leaves. */
  lemma PaddedIsStripped(s: string, r: string)
    requires Padded(s, r) && Trimmed(r)
    ensures Strip(s) == r
  {
    var before, after :| AllSpaces(before) && AllSpaces(after) && s == before + r + after;
    StripPadded(before, r, after);
  }

  lemma StripFront(c: char, s: string)
    requires IsSpace(c)
    ensures Strip([c] + s) == Strip(s)
  {
    assert ([c] + s)[1..] == s;
  }

  lemma StripBack(s: string, c: char)
    requires IsSpace(c) && (s == "" || !IsSpace(s[0]))
    ensures Strip(s + [c]) == Strip(s)
  {
    assert (s + [c])[..|s|] == s;
    assert s == "" ==> (s + [c])[1..] == s;
  }

  lemma {:induction false} StripPadded(before: string, s: string, after: string)
    requires AllSpaces(before) && AllSpaces(after) && Trimmed(s)
    ensures Strip(before + s + after) == s
    decreases |before| + |after|
  {
    hide IsSpace, Strip;
    if before != "" {
      StripPadded(before[1..], s, after);
      StripFront(before[0], before[1..] + s + after);
      assert before + s + after == [before[0]] + (before[1..] + s + after);
    } else if after != "" && s == "" {
      StripPadded(before, s, after[1..]);
      StripFront(after[0], after[1..]);
      assert after[1..] == before + s + after[1..];
      assert before + s + after == [after[0]] + after[1..];
    } else if after != "" {
      var n := |after| - 1;
      StripPadded(before, s, after[..n]);
      StripBack(s + after[..n], after[n]);
      assert s + after[..n] == before + s + after[..n];
      assert before + s + after == (s + after[..n]) + [after[n]];
    } else {
      assert before + s + after == s;
      StripTrimmed(s);
    }
  }

  lemma StripTrimmed(s: string)
    requires Trimmed(s)
    ensures Strip(s) == s
  {
  }

  const SMALL := "abcdefghijklmnopqrstuvwxyz"
  const CAPITAL := "ABCDEFGHIJKLMNOPQRSTUVWXYZ"

  /** The two characters are equal or the two cases of one letter of the alphabet. */
  ghost predicate SameLetter(a: char, b: char) {
    a == b || exists k :: 0 <= k < 26 && (a == SMALL[k] || a == CAPITAL[k]) && (b == SMALL[k] || b == CAPITAL[k])
  }

  /** The same text up to the case of its letters */
  ghost predicate CaseVariant(a: string, b: string) {
    |a| == |b| && forall i :: 0 <= i < |a| ==> SameLetter(a[i], b[i])
  }

  lemma Alphabet(k: nat)
    requires k < 26
    ensures SMALL[k] as int == 'a' as int + k && CAPITAL[k] as int == 'A' as int + k
  {
  }

  lemma SameLetterMeans(a: char, b: char)
    ensures SameLetter(a, b) <==> a == b || ('a' <= a <= 'z' && b as int == a as int - 32) || ('A' <= a <= 'Z' && b as int == a as int + 32)
  {
    forall k | 0 <= k < 26 ensures SMALL[k] as int == 'a' as int + k && CAPITAL[k] as int == 'A' as int + k {
      Alphabet(k);
    }
    if 'a' <= a <= 'z' && b as int == a as int - 32 {
      var k := a as int - 'a' as int;
      assert a == SMALL[k] && b == CAPITAL[k];
    }
    if 'A' <= a <= 'Z' && b as int == a as int + 32 {
      var k := a as int - 'A' as int;
      assert a == CAPITAL[k] && b == SMALL[k];
    }
  }

  predicate NoCapital(s: string) {
    forall i :: 0 <= i < |s| ==> !('A' <= s[i] <= 'Z')
  }

  predicate NoSmall(s: string) {
    forall i :: 0 <= i < |s| ==> !('a' <= s[i] <= 'z')
  }

  /** Lowering turns a text into the one variant of it without capitals. */
  lemma LowerMeans(s: string, t: string)
    requires NoCapital(t)
    ensures Lower(s) == t <==> CaseVariant(s, t)
  {
    hide SameLetter;
    forall a, b ensures SameLetter(a, b) <==> a == b || ('a' <= a <= 'z' && b as int == a as int - 32)
                                              || ('A' <= a <= 'Z' && b as int == a as int + 32) {
      SameLetterMeans(a, b);
    }
    if CaseVariant(s, t) {
      assert forall i :: 0 <= i < |s| ==> Lower(s)[i] == t[i];
    }
  }

  lemma UpperMeans(s: string, t: string)
    requires NoSmall(t)
    ensures Upper(s) == t <==> CaseVariant(s, t)
  {
    hide SameLetter;
    forall a, b ensures SameLetter(a, b) <==> a == b || ('a' <= a <= 'z' && b as int == a as int - 32)
                                              || ('A' <= a <= 'Z' && b as int == a as int + 32) {
      SameLetterMeans(a, b);
    }
    if CaseVariant(s, t) {
      assert forall i :: 0 <= i < |s| ==> Upper(s)[i] == t[i];
    }
  }

  predicate IsSha256(s: string) {
    |s| == 64 && forall i :: 0 <= i < |s| ==> '0' <= s[i] <= '9' || 'a' <= s[i] <= 'f'
  }

  /** 64 lower-case hexadecimal digits */
  lemma IsSha256Iff(s: string)
    ensures IsSha256(s) <==> |s| == 64 && forall i :: 0 <= i < |s| ==> s[i] in "0123456789abcdef"
  {
    forall i | 0 <= i < |s| ensures s[i] in "0123456789abcdef" <==> '0' <= s[i] <= '9' || 'a' <= s[i] <= 'f' {
      HexDigit(s[i]);
    }
  }

  lemma HexDigit(c: char)
    ensures c in "0123456789abcdef" <==> '0' <= c <= '9' || 'a' <= c <= 'f'
  {
    var hex := "0123456789abcdef";
    assert forall k :: 0 <= k < 10 ==> hex[k] as int == '0' as int + k;
    assert forall k :: 10 <= k < 16 ==> hex[k] as int == 'a' as int + k - 10;
    if '0' <= c <= '9' {
      assert hex[c as int - '0' as int] == c;
    }
    if 'a' <= c <= 'f' {
      assert hex[c as int - 'a' as int + 10] == c;
    }
  }

  /** The first character that differs is smaller in `a`. */
  ghost predicate EarlierText(a: string, b: string) {
    exists i :: 0 <= i < |a| && i < |b| && (forall j :: 0 <= j < i ==> a[j] == b[j]) && a[i] < b[i]
  }

  /** The setting is this word in any letter case, with blanks around it. */
  ghost predicate Names(setting: string, word: string) {
    exists text :: Padded(setting, text) && CaseVariant(text, word)
  }

  predicate IsWordChar(c: char) {
    'a' <= c <= 'z' || c == '_'
  }

  predicate IsWord(word: string) {
    word != "" && forall i :: 0 <= i < |word| ==> IsWordChar(word[i])
  }

  lemma VariantIsTrimmed(text: string, word: string)
    requires IsWord(word) && CaseVariant(text, word)
    ensures text != "" && Trimmed(text)
  {
    hide SameLetter, IsSpace, IsWordChar;
    WordLetterIsNoSpace(text[0], word[0]);
    WordLetterIsNoSpace(text[|text| - 1], word[|word| - 1]);
  }

  lemma WordLetterIsNoSpace(a: char, b: char)
    requires IsWordChar(b) && SameLetter(a, b)
    ensures !IsSpace(a)
  {
    SameLetterMeans(a, b);
    hide SameLetter;
  }

  /** Stripped and lowered, a setting is a word exactly when it names it. */
  lemma NamesIff(setting: string, word: string)
    requires IsWord(word)
    ensures Lower(Strip(setting)) == word <==> Names(setting, word)
  {
    hide CaseVariant, Padded, Strip, Lower;
    StripMeans(setting);
    LowerMeans(Strip(setting), word);
    if Names(setting, word) {
      var text :| Padded(setting, text) && CaseVariant(text, word);
      VariantIsTrimmed(text, word);
      PaddedIsStripped(setting, text);
    }
  }

  lemma StripsToNothingIff(s: string)
    ensures Strip(s) == "" <==> AllSpaces(s)
  {
    hide Strip;
    StripMeans(s);
    if AllSpaces(s) {
      assert s == "" + "" + s;
      PaddedIsStripped(s, "");
    }
    if Strip(s) == "" {
      var before, after :| AllSpaces(before) && AllSpaces(after) && s == before + Strip(s) + after;
      assert s == before + after;
    }
  }
}
