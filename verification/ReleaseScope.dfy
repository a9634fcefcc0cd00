/**
 * The release gate of backend/app/release_scope.py: path templates compiled to patterns, and the
 * allow-list decision.  The pattern language is the fragment `_compile_rule` produces: escaped
 * and plain literal characters and `[^/]+`.
 */
module ReleaseScope {
  import opened Common
  import opened PathSegments

  /** One character; one or more characters other than '/'; or an operator of the pattern language that the
      compiler never leaves in its output, and that is not given a meaning here. */
  datatype Atom = Literal(c: char) | Segment | Operator(c: char)

  // ---------------------------------------------------------------------------------------
  // The text-level compiler
  // ---------------------------------------------------------------------------------------

  /** The characters `re.escape` puts a backslash before. */
  predicate IsSpecial(c: char) {
    c in "()[]{}?*+-|^$\\.&~# \t\n\r" || c as int == 11 || c as int == 12
  }

  /** `re.escape` */
  function Escape(s: string): string {
    if s == "" then ""
    else (if IsSpecial(s[0]) then ['\\', s[0]] else [s[0]]) + Escape(s[1..])
  }

  predicate IsNameStart(c: char) { 'a' <= c <= 'z' || 'A' <= c <= 'Z' || c == '_' }

  predicate IsNameChar(c: char) { IsNameStart(c) || '0' <= c <= '9' }

  lemma NameCharsAre(c: char)
    ensures IsNameStart(c) <==> c in SMALL || c in CAPITAL || c == '_'
    ensures IsNameChar(c) <==> IsNameStart(c) || c in "0123456789"
  {
    forall k | 0 <= k < 26 ensures SMALL[k] as int == 'a' as int + k && CAPITAL[k] as int == 'A' as int + k {
      Alphabet(k);
    }
    hide SMALL, CAPITAL;
    if 'a' <= c <= 'z' {
      assert SMALL[c as int - 'a' as int] == c;
    } else if 'A' <= c <= 'Z' {
      assert CAPITAL[c as int - 'A' as int] == c;
    } else if '0' <= c <= '9' {
      assert "0123456789"[c as int - '0' as int] == c;
    }
  }

  function NameChars(s: string): (n: nat)
    ensures n <= |s|
    ensures n < |s| ==> !IsNameChar(s[n])
    ensures forall i :: 0 <= i < n ==> IsNameChar(s[i])
  {
    if s == "" || !IsNameChar(s[0]) then 0 else 1 + NameChars(s[1..])
  }

  /** Length of the placeholder `{name}` that `s` starts with, or 0. */
  function Placeholder(s: string): (n: nat)
    ensures n <= |s| && (n > 0 ==> n >= 3)
  {
    if s == "" || s[0] != '{' then 0
    else
      var k := NameChars(s[1..]);
      if k > 0 && IsNameStart(s[1]) && k + 1 < |s| && s[k + 1] == '}' then k + 2 else 0
  }

  /** Length of the escaped placeholder `\{name\}` that `s` starts with, or 0. */
  function EscapedPlaceholder(s: string): (n: nat)
    ensures n <= |s| && (n > 0 ==> n >= 5)
  {
    if |s| < 2 || s[0] != '\\' || s[1] != '{' then 0
    else
      var k := NameChars(s[2..]);
      if k > 0 && IsNameStart(s[2]) && k + 3 < |s| && s[k + 2] == '\\' && s[k + 3] == '}' then k + 4 else 0
  }

  const SEGMENT := "[^/]+"

  /** `re.sub(r"\\\{[a-zA-Z_][a-zA-Z0-9_]*\\\}", r"[^/]+", s)` */
  function Substitute(s: string): string {
    if s == "" then ""
    else
      var n := EscapedPlaceholder(s);
      if n > 0 then SEGMENT + Substitute(s[n..]) else [s[0]] + Substitute(s[1..])
  }

  /** Characters that a regular expression does not read as themselves. */
  predicate IsOperator(c: char) {
    c in ".^$*+?{}[]|()\\"
  }

  /** How the regular-expression engine reads the produced text. */
  function ParsePattern(p: string): seq<Atom> {
    if p == "" then []
    else if SEGMENT <= p then [Segment] + ParsePattern(p[|SEGMENT|..])
    else if p[0] == '\\' && |p| >= 2 then [Literal(p[1])] + ParsePattern(p[2..])
    else [if IsOperator(p[0]) then Operator(p[0]) else Literal(p[0])] + ParsePattern(p[1..])
  }

  /** `_compile_rule`, path part */
  function CompilePath(path: string): seq<Atom> {
    ParsePattern(Substitute(Escape(path)))
  }

  // ---------------------------------------------------------------------------------------
  // The direct reading of a template, and why the text-level compiler agrees with it
  // ---------------------------------------------------------------------------------------

  function Template(t: string): seq<Atom> {
    if t == "" then []
    else
      var n := Placeholder(t);
      if n > 0 then [Segment] + Template(t[n..]) else [Literal(t[0])] + Template(t[1..])
  }

  lemma {:induction false} EscapeOpensSafely(s: string)
    ensures Escape(s) != "" ==> Escape(s)[0] != '{' && Escape(s)[0] != '['
    ensures Escape(s) == "" <==> s == ""
  {
  }

  lemma NameCharsArePlain(c: char)
    ensures IsNameChar(c) ==> !IsSpecial(c)
    ensures !IsNameChar('\\')
  {
  }

  lemma EscapeCons(c: char, rest: string)
    ensures Escape([c] + rest) == (if IsSpecial(c) then ['\\', c] else [c]) + Escape(rest)
  {
    assert ([c] + rest)[1..] == rest;
  }

  lemma NameCharsCons(c: char, rest: string)
    ensures NameChars([c] + rest) == if IsNameChar(c) then 1 + NameChars(rest) else 0
  {
    assert ([c] + rest)[1..] == rest;
  }

  lemma SlicesCons(c: char, s: string, k: nat)
    requires k <= |s|
    ensures ([c] + s)[..k + 1] == [c] + s[..k] && ([c] + s)[k + 1..] == s[k..]
  {
  }

  lemma NoNameAt(c: char, rest: string)
    requires !IsNameChar(c)
    ensures NameChars([c] + rest) == 0 && NameChars(Escape([c] + rest)) == 0
  {
    hide IsSpecial, IsNameChar, Escape, NameChars;
    NameCharsArePlain(c);
    EscapeCons(c, rest);
    var e := Escape(rest);
    NameCharsCons(c, rest);
    NameCharsCons(c, e);
    NameCharsCons('\\', [c] + e);
    assert ['\\'] + ([c] + e) == ['\\', c] + e;
  }

  lemma {:induction false} NamesAreNotEscaped(s: string)
    ensures var k := NameChars(s);
            NameChars(Escape(s)) == k && k <= |Escape(s)| && Escape(s)[..k] == s[..k]
            && Escape(s)[k..] == Escape(s[k..])
  {
    if s == "" {
    } else {
      hide IsSpecial, IsNameChar, Escape, NameChars;
      var c, rest := s[0], s[1..];
      assert s == [c] + rest;
      if IsNameChar(c) {
        NamesAreNotEscaped(rest);
        NameCharsArePlain(c);
        EscapeCons(c, rest);
        NameCharsCons(c, rest);
        NameCharsCons(c, Escape(rest));
        SlicesCons(c, Escape(rest), NameChars(rest));
        SlicesCons(c, rest, NameChars(rest));
      } else {
        NoNameAt(c, rest);
      }
    }
  }

  lemma SpecialCharacters()
    ensures IsSpecial('{') && IsSpecial('}') && IsSpecial('\\')
  {
    var specials := "()[]{}?*+-|^$\\.&~# \t\n\r";
    assert specials[4] == '{' && specials[5] == '}' && specials[13] == '\\';
  }

  lemma EscapedBrace(c: char, rest: string)
    ensures var e := Escape([c] + rest);
            && (c == '}' <==> |e| >= 2 && e[0] == '\\' && e[1] == '}')
            && (c == '}' ==> e[2..] == Escape(rest))
  {
    hide IsSpecial, Escape;
    SpecialCharacters();
    EscapeCons(c, rest);
  }

  /** After its name characters, escaped text closes a placeholder exactly where the text does. */
  lemma EscapedNameCloses(s: string)
    ensures var e, k := Escape(s), NameChars(s);
            && k <= |e| && (k > 0 ==> e[0] == s[0])
            && ((k < |s| && s[k] == '}') <==> (k + 1 < |e| && e[k] == '\\' && e[k + 1] == '}'))
            && (k < |s| && s[k] == '}' ==> e[k + 2..] == Escape(s[k + 1..]))
  {
    assert Escape("") == "";
    hide IsSpecial, NameChars, Escape;
    NamesAreNotEscaped(s);
    var e, k := Escape(s), NameChars(s);
    if k > 0 {
      assert e[..k][0] == s[..k][0];
    }
    var tail := e[k..];
    if k < |s| {
      assert s[k..] == [s[k]] + s[k + 1..];
      EscapedBrace(s[k], s[k + 1..]);
      assert |tail| >= 2 ==> tail[0] == e[k] && tail[1] == e[k + 1] && tail[2..] == e[k + 2..];
    } else {
      assert s[k..] == "";
    }
  }

  /** Name characters, the first of which may start a name, up to a closing brace. */
  predicate NameCloses(s: string) {
    var k := NameChars(s);
    0 < k < |s| && IsNameStart(s[0]) && s[k] == '}'
  }

  predicate EscapedCloses(e: string) {
    var k := NameChars(e);
    0 < k < |e| - 1 && IsNameStart(e[0]) && e[k] == '\\' && e[k + 1] == '}'
  }

  lemma PlaceholderAt(rest: string)
    ensures Placeholder(['{'] + rest) == if NameCloses(rest) then NameChars(rest) + 2 else 0
  {
    hide NameChars, IsNameStart;
    assert (['{'] + rest)[1..] == rest;
  }

  lemma EscapedPlaceholderAt(e: string)
    ensures EscapedPlaceholder(['\\', '{'] + e) == if EscapedCloses(e) then NameChars(e) + 4 else 0
  {
    hide NameChars, IsNameStart;
    assert (['\\', '{'] + e)[2..] == e;
  }

  lemma EscapeKeepsNames(rest: string)
    ensures var e := Escape(rest);
            && NameChars(e) == NameChars(rest) && (EscapedCloses(e) <==> NameCloses(rest))
            && (NameCloses(rest) ==> e[NameChars(e) + 2..] == Escape(rest[NameChars(rest) + 1..]))
  {
    hide NameChars, IsNameStart, Escape;
    NamesAreNotEscaped(rest);
    EscapedNameCloses(rest);
  }

  /** Escaping keeps placeholders recognisable, and creates none. */
  lemma EscapedPlaceholderAgrees(t: string)
    requires t != "" && t[0] == '{'
    ensures var n, m := Placeholder(t), EscapedPlaceholder(Escape(t));
            && (n > 0 <==> m > 0)
            && (n > 0 ==> m == n + 2 && Escape(t)[m..] == Escape(t[n..]))
  {
    var rest := t[1..];
    assert t == ['{'] + rest;
    hide IsSpecial, NameChars, Escape, Placeholder, EscapedPlaceholder, EscapedCloses, NameCloses;
    SpecialCharacters();
    EscapeCons('{', rest);
    var e, k := Escape(rest), NameChars(rest);
    PlaceholderAt(rest);
    EscapedPlaceholderAt(e);
    EscapeKeepsNames(rest);
    if NameCloses(rest) {
      assert (['\\', '{'] + e)[k + 4..] == e[k + 2..];
      assert t[k + 2..] == rest[k + 1..];
    }
  }

  lemma SubstituteFirst(s: string)
    requires s != "" && EscapedPlaceholder(s) == 0
    ensures Substitute(s) == [s[0]] + Substitute(s[1..])
  {
  }

  lemma SubstituteEscaped(c: char, rest: string)
    requires IsSpecial(c)
    requires EscapedPlaceholder(['\\', c] + Escape(rest)) == 0
    ensures Substitute(['\\', c] + Escape(rest)) == ['\\', c] + Substitute(Escape(rest))
  {
    hide IsSpecial, NameChars, IsNameStart, Escape, Substitute;
    var s := ['\\', c] + Escape(rest);
    EscapeOpensSafely(rest);
    var t := s[1..];
    assert t == [c] + Escape(rest) && t[1..] == Escape(rest);
    assert EscapedPlaceholder(t) == 0 by { assert |t| >= 2 ==> t[1] == Escape(rest)[0]; }
    SubstituteFirst(t);
    SubstituteFirst(s);
    assert ['\\'] + ([c] + Substitute(t[1..])) == ['\\', c] + Substitute(t[1..]);
  }

  /** Escaping, substituting and parsing a template reads it exactly as written: placeholders become
      segments and every other character itself. */
  lemma {:induction false} CompilerReadsTemplate(t: string)
    ensures CompilePath(t) == Template(t)
    decreases |t|
  {
    if t == "" {
    } else if t[0] == '{' && Placeholder(t) > 0 {
      CompilerReadsTemplate(t[Placeholder(t)..]);
      ReadsPlaceholder(t);
    } else {
      CompilerReadsTemplate(t[1..]);
      if IsSpecial(t[0]) {
        ReadsSpecial(t);
      } else {
        ReadsPlain(t);
      }
    }
  }

  lemma ReadsPlaceholder(t: string)
    requires t != "" && t[0] == '{' && Placeholder(t) > 0
    requires CompilePath(t[Placeholder(t)..]) == Template(t[Placeholder(t)..])
    ensures CompilePath(t) == Template(t)
  {
    var n := Placeholder(t);
    EscapedPlaceholderAgrees(t);
    var tail := Substitute(Escape(t[n..]));
    assert Substitute(Escape(t)) == SEGMENT + tail;
    assert (SEGMENT + tail)[|SEGMENT|..] == tail;
  }

  lemma ReadsSpecial(t: string)
    requires t != "" && IsSpecial(t[0]) && !(t[0] == '{' && Placeholder(t) > 0)
    requires CompilePath(t[1..]) == Template(t[1..])
    ensures CompilePath(t) == Template(t)
  {
    var c, rest := t[0], t[1..];
    if c == '{' {
      EscapedPlaceholderAgrees(t);
    }
    SubstituteEscaped(c, rest);
    var tail := Substitute(Escape(rest));
    assert (['\\', c] + tail)[2..] == tail;
  }

  lemma ReadsPlain(t: string)
    requires t != "" && !IsSpecial(t[0])
    requires CompilePath(t[1..]) == Template(t[1..])
    ensures CompilePath(t) == Template(t)
  {
    var c, rest := t[0], t[1..];
    var e := Escape(t);
    assert e == [c] + Escape(rest);
    assert e[1..] == Escape(rest);
    var tail := Substitute(Escape(rest));
    assert Substitute(e) == [c] + tail;
    assert ([c] + tail)[1..] == tail;
  }

  // ---------------------------------------------------------------------------------------
  // Matching
  // ---------------------------------------------------------------------------------------

  /** `pattern.fullmatch(s)` */
  ghost predicate Matches(p: seq<Atom>, s: string)
    decreases |p|
  {
    if p == [] then s == ""
    else match p[0]
      case Literal(c) => s != "" && s[0] == c && Matches(p[1..], s[1..])
      case Operator(_) => false
      case Segment => exists k :: 1 <= k <= |s| && NoSlash(s[..k]) && Matches(p[1..], s[k..])
  }

  /** A bare operator is never read as a character: only escaped text matches itself. */
  lemma BareOperatorMatchesNothing(c: char, rest: string, s: string)
    requires c in ".^$*+?{}[]|()" && !(SEGMENT <= [c] + rest)
    ensures !Matches(ParsePattern([c] + rest), s)
  {
    assert c != '\\' && IsOperator(c);
    assert ParsePattern([c] + rest)[0] == Operator(c);
  }

  lemma {:induction false} MatchSplits(a: seq<Atom>, b: seq<Atom>, s: string)
    requires Matches(a + b, s)
    ensures exists k :: 0 <= k <= |s| && Matches(a, s[..k]) && Matches(b, s[k..])
    decreases |a|
  {
    if a == [] {
      assert a + b == b && s[..0] == "" && s[0..] == s;
      assert Matches(a, s[..0]) && Matches(b, s[0..]);
    } else {
      assert (a + b)[1..] == a[1..] + b && (a + b)[0] == a[0];
      var j := if a[0].Segment? then (var k :| 1 <= k <= |s| && NoSlash(s[..k]) && Matches((a + b)[1..], s[k..]); k) else 1;
      MatchSplits(a[1..], b, s[j..]);
      hide Matches;
      var k :| 0 <= k <= |s[j..]| && Matches(a[1..], s[j..][..k]) && Matches(b, s[j..][k..]);
      Joined(a, s, j, k);
      assert s[j..][k..] == s[j + k..];
    }
  }

  lemma {:induction false} MatchJoins(a: seq<Atom>, b: seq<Atom>, s: string, k: nat)
    requires k <= |s| && Matches(a, s[..k]) && Matches(b, s[k..])
    ensures Matches(a + b, s)
    decreases |a|
  {
    if a == [] {
      assert a + b == b && s[0..] == s;
    } else {
      assert (a + b)[1..] == a[1..] + b && (a + b)[0] == a[0];
      var j := if a[0].Segment? then (var i :| 1 <= i <= k && NoSlash(s[..k][..i]) && Matches(a[1..], s[..k][i..]); i) else 1;
      assert s[..k][j..] == s[j..][..k - j] && s[j..][k - j..] == s[k..];
      assert s[..k][..j] == s[..j];
      MatchJoins(a[1..], b, s[j..], k - j);
    }
  }

  lemma MatchesConcat(a: seq<Atom>, b: seq<Atom>, s: string)
    ensures Matches(a + b, s) <==> exists k :: 0 <= k <= |s| && Matches(a, s[..k]) && Matches(b, s[k..])
  {
    hide Matches;
    if Matches(a + b, s) {
      MatchSplits(a, b, s);
    }
    if k :| 0 <= k <= |s| && Matches(a, s[..k]) && Matches(b, s[k..]) {
      MatchJoins(a, b, s, k);
    }
  }

  lemma Joined(a: seq<Atom>, s: string, j: nat, k: nat)
    requires a != [] && 1 <= j && j + k <= |s| && Matches(a[1..], s[j..][..k])
    requires a[0].Segment? ==> NoSlash(s[..j])
    requires a[0].Literal? ==> j == 1 && s[0] == a[0].c
    requires !a[0].Operator?
    ensures Matches(a, s[..j + k])
  {
    var t := s[..j + k];
    assert t[j..] == s[j..][..k] && t[..j] == s[..j];
  }

  predicate SlashFree(p: seq<Atom>) { Literal('/') !in p }

  lemma {:induction false} SlashFreeMatchesSegment(p: seq<Atom>, s: string)
    requires SlashFree(p) && Matches(p, s)
    ensures NoSlash(s)
    decreases |p|
  {
    if p == [] {
    } else {
      var j := if p[0].Segment? then (var k :| 1 <= k <= |s| && NoSlash(s[..k]) && Matches(p[1..], s[k..]); k) else 1;
      SlashFreeMatchesSegment(p[1..], s[j..]);
      assert s == s[..j] + s[j..];
      if p[0].Literal? {
        assert p[0] in p;
        assert s[..1] == [s[0]];
      }
    }
  }

  // Segments --------------------------------------------------------------------------------

  /** A pattern cut at its literal slashes. */
  function SplitPattern(p: seq<Atom>): (r: seq<seq<Atom>>)
    ensures |r| >= 1
    ensures forall x :: x in r ==> SlashFree(x)
  {
    if p == [] then [[]]
    else
      var rest := SplitPattern(p[1..]);
      assert SlashFree(rest[0]);
      if p[0] == Literal('/') then [[]] + rest else [[p[0]] + rest[0]] + rest[1..]
  }

  ghost predicate SegmentsAgree(ps: seq<seq<Atom>>, ss: seq<string>) {
    |ps| == |ss| && forall i :: 0 <= i < |ps| ==> Matches(ps[i], ss[i])
  }

  /** The pattern up to its first slash, and what follows. */
  lemma SplitPatternCons(a: Atom, rest: seq<Atom>)
    ensures var tail := SplitPattern(rest);
            SplitPattern([a] + rest)
            == if a == Literal('/') then [[]] + tail else [[a] + tail[0]] + tail[1..]
  {
    assert ([a] + rest)[1..] == rest;
  }

  lemma {:induction false} SplitPatternHead(p: seq<Atom>)
    ensures var ps := SplitPattern(p);
            if |ps| == 1 then p == ps[0]
            else exists q :: p == ps[0] + [Literal('/')] + q && SplitPattern(q) == ps[1..]
    decreases |p|
  {
    if p == [] {
    } else {
      var a, tail := p[0], p[1..];
      SplitPatternHead(tail);
      SplitPatternCons(a, tail);
      assert p == [a] + tail;
      hide SplitPattern;
      var rest, ps := SplitPattern(tail), SplitPattern(p);
      if a == Literal('/') {
        assert ps[1..] == rest;
        assert p == ps[0] + [Literal('/')] + tail;
      } else if |rest| > 1 {
        var q :| tail == rest[0] + [Literal('/')] + q && SplitPattern(q) == rest[1..];
        FirstAtom(a, rest[0], q);
        assert ps[1..] == rest[1..];
      }
    }
  }

  lemma FirstAtom(a: Atom, head: seq<Atom>, q: seq<Atom>)
    ensures [a] + (head + [Literal('/')] + q) == ([a] + head) + [Literal('/')] + q
  {
  }

  lemma MatchesSlash(b: seq<Atom>, t: string)
    ensures Matches([Literal('/')] + b, t) <==> t != "" && t[0] == '/' && Matches(b, t[1..])
  {
    assert ([Literal('/')] + b)[1..] == b;
  }

  lemma MatchBeforeSlash(a: seq<Atom>, b: seq<Atom>, s: string)
    requires SlashFree(a) && Matches(a + [Literal('/')] + b, s)
    ensures |Split(s)| > 1 && Matches(a, Split(s)[0])
    ensures exists u :: s == Split(s)[0] + "/" + u && Split(u) == Split(s)[1..] && Matches(b, u)
  {
    hide Matches, Split, SlashFree;
    var c := [Literal('/')] + b;
    assert a + [Literal('/')] + b == a + c;
    MatchesConcat(a, c, s);
    var k :| 0 <= k <= |s| && Matches(a, s[..k]) && Matches(c, s[k..]);
    MatchesSlash(b, s[k..]);
    SlashFreeMatchesSegment(a, s[..k]);
    var u := s[k..][1..];
    assert s == s[..k] + "/" + u;
    SplitAtSlash(s[..k], u);
  }

  lemma MatchAcrossSlash(a: seq<Atom>, b: seq<Atom>, h: string, u: string)
    requires Matches(a, h) && Matches(b, u)
    ensures Matches(a + [Literal('/')] + b, h + "/" + u)
  {
    hide Matches;
    var c := [Literal('/')] + b;
    var s, k := h + "/" + u, |h|;
    assert a + [Literal('/')] + b == a + c;
    assert s[..k] == h && s[k..] == "/" + u && s[k..][1..] == u;
    MatchesSlash(b, s[k..]);
    MatchesConcat(a, c, s);
  }

  /** A pattern matches a path exactly when both have the same number of segments and each segment
      of the path matches its segment of the pattern. */
  lemma {:induction false} MatchesSegmentwise(p: seq<Atom>, s: string)
    ensures Matches(p, s) <==> SegmentsAgree(SplitPattern(p), Split(s))
    decreases |p|
  {
    hide Matches, Split, SplitPattern, SlashFree, NoSlash;
    var ps, ss := SplitPattern(p), Split(s);
    SplitPatternHead(p);
    SplitHead(s);
    if |ps| == 1 {
      assert ps[0] in ps;
      assert p == ps[0] && SlashFree(p);
      if Matches(p, s) {
        SlashFreeMatchesSegment(p, s);
        NoSlashSplit(s);
      }
    } else {
      var q :| p == ps[0] + [Literal('/')] + q && SplitPattern(q) == ps[1..];
      assert ps[0] in ps && SlashFree(ps[0]);
      if Matches(p, s) {
        MatchBeforeSlash(ps[0], q, s);
        var u :| s == ss[0] + "/" + u && Split(u) == ss[1..] && Matches(q, u);
        MatchesSegmentwise(q, u);
        HeadAndTail(ps, ss);
      }
      if SegmentsAgree(ps, ss) {
        var u :| s == ss[0] + "/" + u && Split(u) == ss[1..];
        HeadAndTail(ps, ss);
        MatchesSegmentwise(q, u);
        MatchAcrossSlash(ps[0], q, ss[0], u);
      }
    }
  }

  lemma HeadAndTail(ps: seq<seq<Atom>>, ss: seq<string>)
    requires |ps| > 1 && |ss| > 1
    ensures SegmentsAgree(ps, ss) <==> Matches(ps[0], ss[0]) && SegmentsAgree(ps[1..], ss[1..])
  {
    hide Matches;
    if Matches(ps[0], ss[0]) && SegmentsAgree(ps[1..], ss[1..]) {
      forall i | 0 <= i < |ps| ensures Matches(ps[i], ss[i]) {
        if i > 0 {
          assert ps[1..][i - 1] == ps[i] && ss[1..][i - 1] == ss[i];
        }
      }
    }
    if SegmentsAgree(ps, ss) {
      assert forall i :: 0 <= i < |ps[1..]| ==> ps[1..][i] == ps[i + 1] && ss[1..][i] == ss[i + 1];
    }
  }

  // ---------------------------------------------------------------------------------------
  // Templates by segment
  // ---------------------------------------------------------------------------------------

  lemma {:induction false} NameCharsStopAtSlash(x: string, y: string)
    ensures NameChars(x + "/" + y) == NameChars(x)
  {
    if x == "" {
      assert x + "/" + y == "/" + y;
    } else {
      assert (x + "/" + y)[1..] == x[1..] + "/" + y;
      NameCharsStopAtSlash(x[1..], y);
    }
  }

  lemma PlaceholderStopsAtSlash(x: string, y: string)
    requires x != ""
    ensures Placeholder(x + "/" + y) == Placeholder(x)
  {
    assert (x + "/" + y)[1..] == x[1..] + "/" + y;
    NameCharsStopAtSlash(x[1..], y);
  }

  /** Placeholders never span a slash: a template compiles segment by segment. */
  lemma {:induction false} TemplateAtSlash(x: string, y: string)
    requires NoSlash(x)
    ensures Template(x + "/" + y) == Template(x) + [Literal('/')] + Template(y)
    ensures SlashFree(Template(x))
    decreases |x|
  {
    hide Placeholder;
    var t := x + "/" + y;
    if x == "" {
      assert t == "/" + y && t[1..] == y;
      SlashIsLiteral(y);
    } else {
      PlaceholderStopsAtSlash(x, y);
      var n := if Placeholder(x) > 0 then Placeholder(x) else 1;
      assert t[n..] == x[n..] + "/" + y;
      assert x[0] in x;
      TemplateAtSlash(x[n..], y);
      var head := if Placeholder(x) > 0 then Segment else Literal(x[0]);
      assert Template(x) == [head] + Template(x[n..]);
      assert Template(t) == [head] + Template(t[n..]);
    }
  }

  lemma SlashIsLiteral(y: string)
    ensures Template("/" + y) == [Literal('/')] + Template(y)
  {
    assert ("/" + y)[1..] == y;
  }

  lemma {:induction false} SplitPatternAtSlash(a: seq<Atom>, b: seq<Atom>)
    requires SlashFree(a)
    ensures SplitPattern(a + [Literal('/')] + b) == [a] + SplitPattern(b)
    ensures SplitPattern(a) == [a]
    decreases |a|
  {
    if a == [] {
      assert a + [Literal('/')] + b == [Literal('/')] + b;
      assert ([Literal('/')] + b)[1..] == b;
    } else {
      assert (a + [Literal('/')] + b)[1..] == a[1..] + [Literal('/')] + b;
      assert a[0] in a;
      SplitPatternAtSlash(a[1..], b);
      assert a == [a[0]] + a[1..];
    }
  }

  function TemplateSegments(t: string): (r: seq<seq<Atom>>)
    ensures |r| == |Split(t)| && forall i :: 0 <= i < |r| ==> r[i] == Template(Split(t)[i])
  {
    var ss := Split(t);
    seq(|ss|, i requires 0 <= i < |ss| => Template(ss[i]))
  }

  lemma {:induction false} TemplateSplits(t: string)
    ensures SplitPattern(Template(t)) == TemplateSegments(t)
    decreases |t|
  {
    hide Template, SplitPattern, Split;
    SplitHead(t);
    var ss := Split(t);
    if |ss| == 1 {
      assert ss[0] in ss;
      TemplateAtSlash(t, "");
      SplitPatternAtSlash(Template(t), []);
      assert TemplateSegments(t) == [Template(t)];
    } else {
      var u :| t == ss[0] + "/" + u && Split(u) == ss[1..];
      assert ss[0] in ss;
      TemplateAtSlash(ss[0], u);
      SplitPatternAtSlash(Template(ss[0]), Template(u));
      TemplateSplits(u);
      assert forall i :: 0 <= i < |Split(u)| ==> Split(u)[i] == ss[i + 1];
      assert TemplateSegments(t) == [Template(ss[0])] + TemplateSegments(u);
    }
  }

  /** For any template, a path matches the compiled pattern exactly when they have the same number of
      segments and each path segment matches the template segment in its place. */
  lemma TemplateMatchesSegmentwise(t: string, path: string)
    ensures Matches(CompilePath(t), path) <==> SegmentsAgree(TemplateSegments(t), Split(path))
  {
    CompilerReadsTemplate(t);
    TemplateSplits(t);
    MatchesSegmentwise(Template(t), path);
  }

  /** A segment that is one whole placeholder. */
  predicate IsPlaceholder(s: string) { s != "" && Placeholder(s) == |s| }

  predicate IsPlain(s: string) { '{' !in s }

  /** Every placeholder is a whole path segment. */
  predicate WholeSegments(t: string) {
    var ss := Split(t);
    forall i :: 0 <= i < |ss| ==> IsPlaceholder(ss[i]) || IsPlain(ss[i])
  }

  lemma PlaceholderSegment(s: string, text: string)
    requires IsPlaceholder(s) && NoSlash(text)
    ensures Matches(Template(s), text) <==> text != ""
  {
    assert s[|s|..] == "";
    assert Template(s) == [Segment] + Template("");
    assert Template(s) == [Segment];
    assert text[|text|..] == "" && text[..|text|] == text;
  }

  lemma PlainFirst(s: string)
    requires IsPlain(s) && s != ""
    ensures Template(s) == [Literal(s[0])] + Template(s[1..])
  {
    assert s[0] in s;
  }

  lemma MatchesLiteral(c: char, b: seq<Atom>, t: string)
    ensures Matches([Literal(c)] + b, t) <==> t != "" && t[0] == c && Matches(b, t[1..])
  {
    assert ([Literal(c)] + b)[1..] == b;
  }

  lemma {:induction false} PlainSegment(s: string, text: string)
    requires IsPlain(s)
    ensures Matches(Template(s), text) <==> text == s
    decreases |s|
  {
    if s == "" {
    } else {
      PlainFirst(s);
      assert IsPlain(s[1..]);
      MatchesLiteral(s[0], Template(s[1..]), text);
      hide Matches, Template, IsPlain;
      if text != "" {
        PlainSegment(s[1..], text[1..]);
        assert text == [text[0]] + text[1..];
      }
      assert s == [s[0]] + s[1..];
    }
  }

  /** One template segment against one path segment. */
  predicate SegmentFits(template: string, text: string) {
    if IsPlaceholder(template) then text != "" else text == template
  }

  predicate PathFits(template: string, path: string) {
    var ts, ps := Split(template), Split(path);
    |ts| == |ps| && forall i :: 0 <= i < |ts| ==> SegmentFits(ts[i], ps[i])
  }

  /** With whole-segment placeholders, a path is accepted exactly when its slash-separated segments
      agree one by one, a placeholder standing for any non-empty segment. */
  lemma WholeSegmentTemplates(t: string, path: string)
    requires WholeSegments(t)
    ensures Matches(CompilePath(t), path) <==> PathFits(t, path)
  {
    hide Matches, Template, IsPlaceholder, IsPlain, NoSlash, CompilePath;
    TemplateMatchesSegmentwise(t, path);
    var ts, ps, cs := Split(t), Split(path), TemplateSegments(t);
    if |ts| == |ps| {
      forall i | 0 <= i < |ts| ensures Matches(cs[i], ps[i]) <==> SegmentFits(ts[i], ps[i]) {
        assert ps[i] in ps && NoSlash(ps[i]);
        if IsPlaceholder(ts[i]) {
          PlaceholderSegment(ts[i], ps[i]);
        } else {
          PlainSegment(ts[i], ps[i]);
        }
      }
    }
  }

  /** A template without a brace accepts itself and nothing else. */
  lemma PlainTemplate(t: string, path: string)
    requires IsPlain(t)
    ensures Matches(CompilePath(t), path) <==> path == t
  {
    CompilerReadsTemplate(t);
    PlainSegment(t, path);
  }

  // ---------------------------------------------------------------------------------------
  // The decision
  // ---------------------------------------------------------------------------------------

  const PHASE_ONE := "consumer_intake_preview"
  const CONSUMER_ACTIVE := "consumer_active"
  const CONSUMER_LAUNCH := "consumer_launch"
  const DEVELOPMENT := "development"

  /** `_ALWAYS_ALLOWED`, the first four phase-one contracts */
  const ALWAYS_ALLOWED := [
    "GET /health", "GET /health/live", "GET /health/ready", "GET /internal/provenance/diagnostics"]

  /** `current_release_phase`, given the two environment settings */
  function CurrentPhase(releasePhase: string, environment: string): string {
    var configured := Lower(Strip(releasePhase));
    if configured != "" then configured
    else if Lower(Strip(environment)) in {"staging", "production"} then "unconfigured_managed"
    else DEVELOPMENT
  }

  datatype Rule = Rule(verb: string, pattern: seq<Atom>)

  /** `contract.split(" ", 1)` */
  function MethodLength(contract: string): (n: nat)
    ensures n <= |contract|
    ensures forall i :: 0 <= i < n ==> contract[i] != ' '
    ensures n < |contract| ==> contract[n] == ' '
  {
    if contract == "" || contract[0] == ' ' then 0 else 1 + MethodLength(contract[1..])
  }

  function CompileRule(contract: string): Rule
    requires ' ' in contract
  {
    var n := MethodLength(contract);
    Rule(contract[..n], CompilePath(contract[n + 1..]))
  }

  ghost predicate Accepts(contract: string, verb: string, path: string)
    requires ' ' in contract
  {
    verb == CompileRule(contract).verb && Matches(CompileRule(contract).pattern, path)
  }

  predicate Contracts(cs: seq<string>) {
    forall c :: c in cs ==> ' ' in c
  }

  /** The two allow-lists of the release, each of which begins with the always-allowed contracts. */
  datatype Release = Release(phaseOne: seq<string>, consumerLaunch: seq<string>) {
    ghost predicate Valid() {
      Contracts(phaseOne) && Contracts(consumerLaunch) && ALWAYS_ALLOWED <= phaseOne
    }
  }

  ghost predicate AnyAccepts(cs: seq<string>, verb: string, path: string)
    requires Contracts(cs)
  {
    exists c :: c in cs && Accepts(c, verb, path)
  }

  /** `request_allowed` */
  ghost predicate RequestAllowed(r: Release, phase: string, verb: string, path: string)
    requires r.Valid()
  {
    var m := Upper(verb);
    if m == "OPTIONS" then true
    else if AnyAccepts(r.phaseOne[..4], m, path) then true
    else if phase == DEVELOPMENT || phase == CONSUMER_ACTIVE then true
    else if phase == CONSUMER_LAUNCH then AnyAccepts(r.consumerLaunch, m, path)
    else if phase != PHASE_ONE then false
    else AnyAccepts(r.phaseOne, m, path)
  }

  lemma {:induction false} MethodEndsAtSpace(verb: string, path: string)
    requires ' ' !in verb
    ensures MethodLength(verb + " " + path) == |verb|
  {
    if verb == "" {
      assert verb + " " + path == " " + path;
    } else {
      assert verb[0] in verb;
      assert (verb + " " + path)[1..] == verb[1..] + " " + path;
      MethodEndsAtSpace(verb[1..], path);
    }
  }

  lemma SplitContract(verb: string, path: string)
    requires ' ' !in verb
    ensures MethodLength(verb + " " + path) == |verb|
    ensures ' ' in verb + " " + path
    ensures (verb + " " + path)[..|verb|] == verb && (verb + " " + path)[|verb| + 1..] == path
  {
    MethodEndsAtSpace(verb, path);
    assert (verb + " " + path)[|verb|] == ' ';
  }

  /** A contract with a plain path accepts exactly its method on exactly its path. */
  lemma PlainContract(contract: string, verb: string, path: string, m: string, p: string)
    requires contract == verb + " " + path && ' ' !in verb && IsPlain(path)
    ensures ' ' in contract && (Accepts(contract, m, p) <==> m == verb && p == path)
  {
    hide Matches, CompilePath;
    SplitContract(verb, path);
    PlainTemplate(path, p);
  }

  /** The four contracts that every phase allows. */
  lemma AlwaysAllowedContracts(m: string, path: string)
    ensures Contracts(ALWAYS_ALLOWED)
    ensures AnyAccepts(ALWAYS_ALLOWED, m, path) <==>
            m == "GET" && path in {"/health", "/health/live", "/health/ready", "/internal/provenance/diagnostics"}
  {
    hide Accepts;
    assert ' ' !in "GET";
    HealthText();
    LiveText();
    ReadyText();
    DiagnosticsText();
    PlainContract("GET /health", "GET", "/health", m, path);
    PlainContract("GET /health/live", "GET", "/health/live", m, path);
    PlainContract("GET /health/ready", "GET", "/health/ready", m, path);
    PlainContract("GET /internal/provenance/diagnostics", "GET", "/internal/provenance/diagnostics", m, path);
    FourMembers("GET /health", "GET /health/live", "GET /health/ready", "GET /internal/provenance/diagnostics", m, path);
  }

  lemma FourMembers(a: string, b: string, c: string, d: string, m: string, path: string)
    requires ' ' in a && ' ' in b && ' ' in c && ' ' in d
    ensures Contracts([a, b, c, d])
    ensures AnyAccepts([a, b, c, d], m, path) <==>
            Accepts(a, m, path) || Accepts(b, m, path) || Accepts(c, m, path) || Accepts(d, m, path)
  {
    hide Accepts;
    var cs := [a, b, c, d];
    assert cs[0] in cs && cs[1] in cs && cs[2] in cs && cs[3] in cs;
  }

  lemma HealthText()
    ensures "GET /health" == "GET" + " " + "/health" && IsPlain("/health")
  {
  }

  lemma LiveText()
    ensures "GET /health/live" == "GET" + " " + "/health/live" && IsPlain("/health/live")
  {
  }

  lemma ReadyText()
    ensures "GET /health/ready" == "GET" + " " + "/health/ready" && IsPlain("/health/ready")
  {
  }

  lemma DiagnosticsText()
    ensures "GET /internal/provenance/diagnostics" == "GET" + " " + "/internal/provenance/diagnostics"
    ensures IsPlain("/internal/provenance/diagnostics")
  {
  }

  predicate Recognised(phase: string) {
    phase in {DEVELOPMENT, CONSUMER_ACTIVE, CONSUMER_LAUNCH, PHASE_ONE}
  }

  /** A phase the gate does not know allows exactly OPTIONS and the four always-allowed contracts. */
  lemma UnrecognisedPhase(r: Release, phase: string, verb: string, path: string)
    requires r.Valid() && !Recognised(phase)
    ensures RequestAllowed(r, phase, verb, path) <==>
            || Upper(verb) == "OPTIONS"
            || (Upper(verb) == "GET"
                && path in {"/health", "/health/live", "/health/ready", "/internal/provenance/diagnostics"})
  {
    hide Accepts, Upper;
    AlwaysAllowedContracts(Upper(verb), path);
    assert r.phaseOne[..4] == ALWAYS_ALLOWED;
  }

  /** A managed environment without a release phase is such a phase. */
  lemma UnconfiguredManagedIsUnrecognised(environment: string)
    requires Names(environment, "staging") || Names(environment, "production")
    ensures !Recognised(CurrentPhase("", environment))
  {
    assert AllSpaces("");
    BlankSetting("", environment);
  }

  lemma DevelopmentIsAWord()
    ensures IsWord(DEVELOPMENT)
  {
  }

  lemma ActiveIsAWord()
    ensures IsWord(CONSUMER_ACTIVE)
  {
  }

  lemma LaunchIsAWord()
    ensures IsWord(CONSUMER_LAUNCH)
  {
  }

  lemma PhaseOneIsAWord()
    ensures IsWord(PHASE_ONE)
  {
  }

  lemma EnvironmentsAreWords()
    ensures IsWord("staging") && IsWord("production")
  {
  }

  lemma PhasesAreWords(phase: string)
    requires Recognised(phase)
    ensures IsWord(phase)
  {
    hide IsWord;
    DevelopmentIsAWord();
    ActiveIsAWord();
    LaunchIsAWord();
    PhaseOneIsAWord();
  }

  lemma BlankIff(setting: string)
    ensures Lower(Strip(setting)) == "" <==> AllSpaces(setting)
  {
    StripsToNothingIff(setting);
    hide Strip;
    assert Lower(Strip(setting)) == "" <==> Strip(setting) == "";
  }

  /** A setting that names one of the four phases, in any case and between blanks, is that phase. */
  lemma NamedPhase(setting: string, environment: string, phase: string)
    requires Recognised(phase) && Names(setting, phase)
    ensures CurrentPhase(setting, environment) == phase
  {
    hide Names, IsWord, Strip, Lower;
    PhasesAreWords(phase);
    NamesIff(setting, phase);
  }

  /** Any other setting that is not blank gives a phase the gate does not know. */
  lemma OtherSetting(setting: string, environment: string)
    requires !AllSpaces(setting) && forall phase :: Recognised(phase) ==> !Names(setting, phase)
    ensures !Recognised(CurrentPhase(setting, environment))
  {
    hide Names, IsWord, Strip, Lower;
    BlankIff(setting);
    var phase := CurrentPhase(setting, environment);
    if Recognised(phase) {
      PhasesAreWords(phase);
      NamesIff(setting, phase);
    }
  }

  /** A blank setting is development exactly outside staging and production, and otherwise unknown. */
  lemma BlankSetting(setting: string, environment: string)
    requires AllSpaces(setting)
    ensures var managed := Names(environment, "staging") || Names(environment, "production");
            && (!managed ==> CurrentPhase(setting, environment) == DEVELOPMENT)
            && (managed ==> CurrentPhase(setting, environment) == "unconfigured_managed")
            && (managed ==> !Recognised(CurrentPhase(setting, environment)))
  {
    hide Names, IsWord, Strip, Lower;
    EnvironmentsAreWords();
    BlankIff(setting);
    NamesIff(environment, "staging");
    NamesIff(environment, "production");
  }

  lemma MethodIff(verb: string)
    ensures Upper(verb) == "OPTIONS" <==> CaseVariant(verb, "OPTIONS")
    ensures Upper(verb) == "GET" <==> CaseVariant(verb, "GET")
  {
    UpperMeans(verb, "OPTIONS");
    UpperMeans(verb, "GET");
    hide Upper, CaseVariant;
  }

  predicate IsOpenPath(path: string) {
    path in {"/health", "/health/live", "/health/ready", "/internal/provenance/diagnostics"}
  }

  /** With the launch setting a request passes exactly when it is OPTIONS, one of the four open contracts,
      or matches a contract of the launch list. */
  lemma LaunchSetting(r: Release, setting: string, environment: string, verb: string, path: string)
    requires r.Valid() && Names(setting, CONSUMER_LAUNCH)
    ensures RequestAllowed(r, CurrentPhase(setting, environment), verb, path) <==>
              || CaseVariant(verb, "OPTIONS") || (CaseVariant(verb, "GET") && IsOpenPath(path))
              || AnyAccepts(r.consumerLaunch, Upper(verb), path)
  {
    hide Names, RequestAllowed, CaseVariant, Accepts, Upper;
    NamedPhase(setting, environment, CONSUMER_LAUNCH);
    PhasesOnlyAdd(r, CONSUMER_LAUNCH, "", verb, path);
    UnrecognisedPhase(r, "", verb, path);
    MethodIff(verb);
  }

  /** With a setting the gate does not know only OPTIONS and the four open contracts pass. */
  lemma UnknownSetting(r: Release, setting: string, environment: string, verb: string, path: string)
    requires r.Valid() && !AllSpaces(setting) && forall phase :: Recognised(phase) ==> !Names(setting, phase)
    ensures RequestAllowed(r, CurrentPhase(setting, environment), verb, path) <==>
              CaseVariant(verb, "OPTIONS") || (CaseVariant(verb, "GET") && IsOpenPath(path))
  {
    hide Names, RequestAllowed, CaseVariant, Accepts, Upper;
    OtherSetting(setting, environment);
    UnrecognisedPhase(r, CurrentPhase(setting, environment), verb, path);
    MethodIff(verb);
  }

  /** What an unrecognised phase allows, every phase allows; development and the active phase allow
      everything; the two allow-list phases add exactly their own contracts. */
  lemma PhasesOnlyAdd(r: Release, phase: string, other: string, verb: string, path: string)
    requires r.Valid() && !Recognised(other)
    ensures RequestAllowed(r, other, verb, path) ==> RequestAllowed(r, phase, verb, path)
    ensures phase == DEVELOPMENT || phase == CONSUMER_ACTIVE ==> RequestAllowed(r, phase, verb, path)
    ensures phase == CONSUMER_LAUNCH ==>
              (RequestAllowed(r, phase, verb, path) <==>
                 RequestAllowed(r, other, verb, path) || AnyAccepts(r.consumerLaunch, Upper(verb), path))
    ensures phase == PHASE_ONE ==>
              (RequestAllowed(r, phase, verb, path) <==>
                 Upper(verb) == "OPTIONS" || AnyAccepts(r.phaseOne, Upper(verb), path))
  {
    hide Accepts, Upper;
  }

  /** A listed contract with whole-segment placeholders accepts a request exactly when the methods
      are equal and the segments agree. */
  lemma ListedContract(verb: string, template: string, m: string, path: string)
    requires ' ' !in verb && WholeSegments(template)
    ensures var contract := verb + " " + template;
            ' ' in contract && (Accepts(contract, m, path) <==> m == verb && PathFits(template, path))
  {
    hide Matches, CompilePath, WholeSegments, PathFits;
    SplitContract(verb, template);
    WholeSegmentTemplates(template, path);
  }
}
