/**
 * The pointer walk of scripts/check_migration_ledger_offline.py, `_pointer`: the subset of
 * RFC 6901 the migration ledger uses to find recorded values in evidence documents.
 */
module JsonPointer {
  import opened Common
  import opened Decimal
  import opened JsonValues
  import opened PathSegments

  // ---------------------------------------------------------------------------------------
  // Escaping one token: sections 3 and 4 of RFC 6901
  // ---------------------------------------------------------------------------------------

  /** `token.replace("~" + x, r)`: occurrences are taken from the left and do not overlap. */
  function Replace(s: string, x: char, r: char): string {
    if s == "" then ""
    else if s[0] == '~' && |s| >= 2 && s[1] == x then [r] + Replace(s[2..], x, r)
    else [s[0]] + Replace(s[1..], x, r)
  }

  /** The walk decodes ~1 first and ~0 second. */
  function Unescape(token: string): string {
    Replace(Replace(token, '1', '/'), '0', '~')
  }

  function EscapeTilde(s: string): string {
    if s == "" then "" else (if s[0] == '~' then "~0" else [s[0]]) + EscapeTilde(s[1..])
  }

  function EscapeSlash(s: string): string {
    if s == "" then "" else (if s[0] == '/' then "~1" else [s[0]]) + EscapeSlash(s[1..])
  }

  /** What section 3 of RFC 6901 writes for a token: ~0 for a tilde and ~1 for a slash. */
  function Escape(s: string): (r: string)
    ensures NoSlash(r)
    ensures r == "" <==> s == ""
  {
    if s == "" then ""
    else (if s[0] == '~' then "~0" else if s[0] == '/' then "~1" else [s[0]]) + Escape(s[1..])
  }

  lemma ReplaceCons(c: char, rest: string, x: char, r: char)
    ensures c != '~' ==> Replace([c] + rest, x, r) == [c] + Replace(rest, x, r)
    ensures Replace(['~', x] + rest, x, r) == [r] + Replace(rest, x, r)
  {
    assert ([c] + rest)[1..] == rest;
    assert (['~', x] + rest)[2..] == rest;
  }

  lemma ReplaceKeeps(c: char, rest: string, x: char, r: char)
    requires c != x && c != '~'
    ensures Replace(['~', c] + rest, x, r) == ['~', c] + Replace(rest, x, r)
  {
    var s := ['~', c] + rest;
    assert s[1..] == [c] + rest && ([c] + rest)[1..] == rest;
    assert ['~'] + ([c] + Replace(rest, x, r)) == ['~', c] + Replace(rest, x, r);
  }

  lemma {:induction false} DecodeSlashes(s: string)
    ensures Replace(Escape(s), '1', '/') == EscapeTilde(s)
  {
    if s == "" {
    } else {
      DecodeSlashes(s[1..]);
      hide Replace;
      var e := Escape(s[1..]);
      if s[0] == '~' {
        ReplaceKeeps('0', e, '1', '/');
      } else {
        ReplaceCons(s[0], e, '1', '/');
      }
    }
  }

  lemma {:induction false} DecodeTildes(s: string)
    ensures Replace(EscapeTilde(s), '0', '~') == s
  {
    if s == "" {
    } else {
      DecodeTildes(s[1..]);
      var e := EscapeTilde(s[1..]);
      if s[0] == '~' {
        assert ("~0" + e)[2..] == e;
      } else {
        assert ([s[0]] + e)[1..] == e;
      }
    }
  }

  /** Every token survives escaping and the walk's unescaping. */
  lemma UnescapeInverts(s: string)
    ensures Unescape(Escape(s)) == s
  {
    DecodeSlashes(s);
    DecodeTildes(s);
  }

  /** The other order of the two replacements. */
  function UnescapeSwapped(token: string): string {
    Replace(Replace(token, '0', '~'), '1', '/')
  }

  predicate HasTildeOne(s: string) {
    exists i :: 0 <= i < |s| - 1 && s[i] == '~' && s[i + 1] == '1'
  }

  lemma {:induction false} SwappedFirstStep(s: string)
    ensures Replace(Escape(s), '0', '~') == EscapeSlash(s)
  {
    if s == "" {
    } else {
      SwappedFirstStep(s[1..]);
      var e := Escape(s[1..]);
      if s[0] == '~' {
        assert ("~0" + e)[2..] == e;
      } else if s[0] == '/' {
        assert ("~1" + e)[1..] == "1" + e && ("1" + e)[1..] == e;
      } else {
        assert ([s[0]] + e)[1..] == e;
      }
    }
  }

  lemma HasTildeOneCons(s: string)
    requires s != ""
    ensures HasTildeOne(s) <==> (|s| >= 2 && s[0] == '~' && s[1] == '1') || HasTildeOne(s[1..])
  {
    if HasTildeOne(s) {
      var i :| 0 <= i < |s| - 1 && s[i] == '~' && s[i + 1] == '1';
      if i > 0 {
        assert s[1..][i - 1] == '~' && s[1..][i - 1 + 1] == '1';
      }
    }
    if HasTildeOne(s[1..]) {
      var i :| 0 <= i < |s[1..]| - 1 && s[1..][i] == '~' && s[1..][i + 1] == '1';
      assert s[i + 1] == '~' && s[i + 1 + 1] == '1';
    }
    if |s| >= 2 && s[0] == '~' && s[1] == '1' {
      assert s[0 + 1] == '1';
    }
  }

  lemma {:induction false} SwappedSecondStep(s: string)
    ensures Replace(EscapeSlash(s), '1', '/') == s <==> !HasTildeOne(s)
    decreases |s|
  {
    if s == "" {
    } else {
      HasTildeOneCons(s);
      SwappedSecondStep(s[1..]);
      var e := EscapeSlash(s[1..]);
      assert s == [s[0]] + s[1..];
      if s[0] == '/' {
        assert ("~1" + e)[2..] == e;
        assert Replace(EscapeSlash(s), '1', '/') == "/" + Replace(e, '1', '/');
      } else {
        assert EscapeSlash(s) == [s[0]] + e && ([s[0]] + e)[1..] == e;
      }
    }
  }

  /** The order is what section 4 of RFC 6901 asks for: swapped, exactly the tokens that contain
      the two characters ~1 are read wrongly. */
  lemma SwappedOrderFailsIff(s: string)
    ensures UnescapeSwapped(Escape(s)) == s <==> !HasTildeOne(s)
  {
    SwappedFirstStep(s);
    SwappedSecondStep(s);
  }

  // ---------------------------------------------------------------------------------------
  // Splitting a pointer into tokens
  // ---------------------------------------------------------------------------------------

  /** `pointer.lstrip("/")` */
  function LStrip(s: string): string {
    if s != "" && s[0] == '/' then LStrip(s[1..]) else s
  }

  function UnescapeAll(parts: seq<string>): (r: seq<string>)
    ensures |r| == |parts| && forall i :: 0 <= i < |r| ==> r[i] == Unescape(parts[i])
  {
    seq(|parts|, i requires 0 <= i < |parts| => Unescape(parts[i]))
  }

  function EscapeAll(tokens: seq<string>): (r: seq<string>)
    ensures |r| == |tokens| && forall i :: 0 <= i < |r| ==> r[i] == Escape(tokens[i])
  {
    seq(|tokens|, i requires 0 <= i < |tokens| => Escape(tokens[i]))
  }

  /** The tokens the walk visits. */
  function Tokens(pointer: string): seq<string> {
    if pointer == "" || pointer == "/" then [] else UnescapeAll(Split(LStrip(pointer)))
  }

  /** The pointer that section 3 of RFC 6901 writes for a list of tokens. */
  function Encode(tokens: seq<string>): string {
    if tokens == [] then "" else "/" + Escape(tokens[0]) + Encode(tokens[1..])
  }

  lemma {:induction false} EncodeIsJoin(tokens: seq<string>)
    requires tokens != []
    ensures Encode(tokens) == "/" + Join(EscapeAll(tokens))
    decreases |tokens|
  {
    if |tokens| > 1 {
      EncodeIsJoin(tokens[1..]);
      assert EscapeAll(tokens)[1..] == EscapeAll(tokens[1..]);
    }
  }

  lemma TokensOfEscaped(tokens: seq<string>)
    requires tokens != []
    ensures UnescapeAll(Split(Join(EscapeAll(tokens)))) == tokens
  {
    var es := EscapeAll(tokens);
    assert forall x :: x in es ==> NoSlash(x);
    SplitOfJoin(es);
    forall i | 0 <= i < |tokens| ensures Unescape(es[i]) == tokens[i] {
      UnescapeInverts(tokens[i]);
    }
  }

  /** Tokens without the empty ones at the front; of a list of empty tokens the last one stays,
      unless it is the only one. */
  function WithoutLeadingEmpty(tokens: seq<string>): (r: seq<string>)
    ensures tokens != [] ==> r != []
  {
    if tokens == [] || tokens[0] != "" then tokens
    else if |tokens| == 1 then tokens
    else WithoutLeadingEmpty(tokens[1..])
  }

  lemma {:induction false} StrippedPointer(tokens: seq<string>)
    requires tokens != []
    ensures LStrip(Encode(tokens)) == Join(EscapeAll(WithoutLeadingEmpty(tokens)))
    decreases |tokens|
  {
    EncodeIsJoin(tokens);
    var joined := Join(EscapeAll(tokens));
    assert Encode(tokens)[1..] == joined;
    if tokens[0] != "" {
      var e := Escape(tokens[0]);
      assert e[0] in e;
      assert joined[0] == e[0];
    } else if |tokens| == 1 {
      assert joined == "";
    } else {
      StrippedPointer(tokens[1..]);
      EncodeIsJoin(tokens[1..]);
      assert EscapeAll(tokens)[1..] == EscapeAll(tokens[1..]);
      assert joined == Encode(tokens[1..]);
    }
  }

  lemma {:induction false} WithoutLeadingEmptyShape(tokens: seq<string>)
    requires tokens != []
    ensures |WithoutLeadingEmpty(tokens)| <= |tokens|
    ensures tokens[0] == "" && |tokens| > 1 ==> |WithoutLeadingEmpty(tokens)| < |tokens|
    decreases |tokens|
  {
    if tokens[0] == "" && |tokens| > 1 {
      WithoutLeadingEmptyShape(tokens[1..]);
    }
  }

  /** What the walk reads from an encoded pointer: a lone empty token disappears, and so do empty
      tokens at the front, because `lstrip` removes every leading slash. */
  lemma TokensOfEncoded(tokens: seq<string>)
    ensures Tokens(Encode(tokens)) == if tokens == [""] then [] else WithoutLeadingEmpty(tokens)
  {
    if tokens == [""] {
      assert Encode([""]) == "/" + Escape("") + Encode([]);
    } else if tokens != [] {
      EncodeIsJoin(tokens);
      StrippedPointer(tokens);
      WithoutLeadingEmptyShape(tokens);
      TokensOfEscaped(WithoutLeadingEmpty(tokens));
      assert Encode(tokens) != "" && Encode(tokens) != "/" by {
        if |tokens| == 1 {
          assert Escape(tokens[0]) != "";
        } else {
          assert |Encode(tokens[1..])| >= 1;
        }
      }
    }
  }

  /** The walk splits and unescapes an encoded pointer back to its tokens exactly when the list is
      empty or its first token is not. */
  lemma RoundTripIff(tokens: seq<string>)
    ensures Tokens(Encode(tokens)) == tokens <==> (tokens == [] || tokens[0] != "")
  {
    TokensOfEncoded(tokens);
    if tokens != [] {
      WithoutLeadingEmptyShape(tokens);
    }
  }

  // ---------------------------------------------------------------------------------------
  // Walking the document
  // ---------------------------------------------------------------------------------------

  datatype PointerError = NotAnInteger | OutOfRange | NoSuchKey | CannotDescend

  /** `int(token)` over ASCII digits with an optional sign */
  function ParseInt(token: string): Option<int> {
    if token != "" && AllDigits(token) then Some(ParseNat(token))
    else if |token| >= 2 && token[0] in "+-" && AllDigits(token[1..]) then
      var n: int := ParseNat(token[1..]);
      Some(if token[0] == '-' then -n else n)
    else None
  }

  /** `node[token]`, or `node[int(token)]` on a list, where negative indexes count from the end */
  function Step(node: Json, token: string): Result<Json, PointerError> {
    match node
    case List(items) =>
      var i := ParseInt(token);
      if i == None then Err(NotAnInteger)
      else if 0 <= i.value < |items| then Ok(items[i.value])
      else if -|items| <= i.value < 0 then Ok(items[|items| + i.value])
      else Err(OutOfRange)
    case Object(fields) => if token in fields then Ok(fields[token]) else Err(NoSuchKey)
    case _ => Err(CannotDescend)
  }

  /** The value reached by descending the tokens one after the other. */
  function Descend(node: Json, tokens: seq<string>): Result<Json, PointerError> {
    if tokens == [] then Ok(node)
    else
      var next := Step(node, tokens[0]);
      if next.Err? then next else Descend(next.value, tokens[1..])
  }

  function Resolve(document: Json, pointer: string): Result<Json, PointerError> {
    Descend(document, Tokens(pointer))
  }

  lemma {:induction false} DescendSnoc(node: Json, tokens: seq<string>, token: string)
    ensures Descend(node, tokens + [token])
         == (var r := Descend(node, tokens); if r.Err? then r else Step(r.value, token))
    decreases |tokens|
  {
    if tokens == [] {
      assert [] + [token] == [token];
      assert [token][1..] == [];
    } else {
      assert (tokens + [token])[1..] == tokens[1..] + [token];
      if Step(node, tokens[0]).Ok? {
        DescendSnoc(Step(node, tokens[0]).value, tokens[1..], token);
      }
    }
  }

  /** `_pointer`: the loop reassigns the node token by token. */
  method Pointer(document: Json, pointer: string) returns (r: Result<Json, PointerError>)
    ensures r == Resolve(document, pointer)
  {
    if pointer == "" || pointer == "/" {
      return Ok(document);
    }
    var node := document;
    var parts := Split(LStrip(pointer));
    ghost var tokens := UnescapeAll(parts);
    for i := 0 to |parts|
      invariant Descend(document, tokens[..i]) == Ok(node)
    {
      var token := Unescape(parts[i]);
      assert tokens[..i + 1] == tokens[..i] + [token];
      DescendSnoc(document, tokens[..i], token);
      var next := Step(node, token);
      if next.Err? {
        DescendStopsAtError(document, tokens, i + 1);
        return next;
      }
      node := next.value;
    }
    assert tokens[..|parts|] == tokens;
    return Ok(node);
  }

  lemma {:induction false} DescendStopsAtError(node: Json, tokens: seq<string>, k: nat)
    requires k <= |tokens| && Descend(node, tokens[..k]).Err?
    ensures Descend(node, tokens) == Descend(node, tokens[..k])
    decreases k
  {
    if k == 0 {
    } else {
      assert tokens[..k][0] == tokens[0] && tokens[..k][1..] == tokens[1..][..k - 1];
      if Step(node, tokens[0]).Ok? {
        DescendStopsAtError(Step(node, tokens[0]).value, tokens[1..], k - 1);
      }
    }
  }

  /** For every list of tokens whose first token is not empty, the encoded pointer resolves to the
      value reached by descending exactly those tokens. */
  lemma EncodedPointerResolves(document: Json, tokens: seq<string>)
    requires tokens == [] || tokens[0] != ""
    ensures Resolve(document, Encode(tokens)) == Descend(document, tokens)
  {
    RoundTripIff(tokens);
  }

  /** A list position written in decimal reaches exactly that element. */
  lemma ListPosition(items: seq<Json>, i: nat)
    ensures Step(List(items), Digits(i)) == if i < |items| then Ok(items[i]) else Err(OutOfRange)
  {
    ParseDigits(i);
  }

  /** A negative position counts from the end; a token that is no number reaches nothing in a list. */
  lemma ListPositionFromEnd(items: seq<Json>, i: nat)
    requires i >= 1
    ensures Step(List(items), "-" + Digits(i)) == if i <= |items| then Ok(items[|items| - i]) else Err(OutOfRange)
  {
    ParseDigits(i);
    var token := "-" + Digits(i);
    assert token[0] == '-' && token[1..] == Digits(i);
    assert !AllDigits(token);
  }

  /** In an object a token reaches the field of that name, and a leaf has nothing below it. */
  lemma ObjectMember(fields: map<string, Json>, node: Json, token: string)
    ensures Step(Object(fields), token) == if token in fields then Ok(fields[token]) else Err(NoSuchKey)
    ensures !node.List? && !node.Object? ==> Step(node, token) == Err(CannotDescend)
  {
  }
}
