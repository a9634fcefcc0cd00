/** Splitting text at slashes, as Python's `text.split("/")`. */
module PathSegments {

  predicate NoSlash(s: string) { '/' !in s }

  /** `s.split("/")` */
  function Split(s: string): (r: seq<string>)
    ensures |r| >= 1
    ensures forall x :: x in r ==> NoSlash(x)
  {
    if s == "" then [""]
    else
      var rest := Split(s[1..]);
      assert NoSlash(rest[0]);
      if s[0] == '/' then [""] + rest else [[s[0]] + rest[0]] + rest[1..]
  }

  lemma {:induction false} SplitHead(s: string)
    ensures var ss := Split(s);
            if |ss| == 1 then s == ss[0]
            else exists u :: s == ss[0] + "/" + u && Split(u) == ss[1..]
    decreases |s|
  {
    if s == "" {
    } else {
      var rest := Split(s[1..]);
      SplitHead(s[1..]);
      var ss := Split(s);
      assert s == [s[0]] + s[1..];
      if s[0] == '/' {
        assert ss[1..] == rest;
        assert s == ss[0] + "/" + s[1..];
      } else if |rest| > 1 {
        var u :| s[1..] == rest[0] + "/" + u && Split(u) == rest[1..];
        assert s == ss[0] + "/" + u;
        assert ss[1..] == rest[1..];
      }
    }
  }

  lemma {:induction false} SplitAtSlash(a: string, u: string)
    requires NoSlash(a)
    ensures Split(a + "/" + u) == [a] + Split(u)
    decreases |a|
  {
    if a == "" {
      assert a + "/" + u == "/" + u;
      assert ("/" + u)[1..] == u;
    } else {
      assert (a + "/" + u)[1..] == a[1..] + "/" + u;
      SplitAtSlash(a[1..], u);
      assert a == [a[0]] + a[1..];
      var rest := Split(a[1..] + "/" + u);
      assert rest[0] == a[1..] && rest[1..] == Split(u);
    }
  }

  lemma {:induction false} NoSlashSplit(s: string)
    requires NoSlash(s)
    ensures Split(s) == [s]
    decreases |s|
  {
    if s == "" {
    } else {
      NoSlashSplit(s[1..]);
      assert s == [s[0]] + s[1..];
    }
  }

  /** `"/".join(parts)` */
  function Join(parts: seq<string>): string
    requires parts != []
  {
    if |parts| == 1 then parts[0] else parts[0] + "/" + Join(parts[1..])
  }

  /** Splitting undoes joining, and joining undoes splitting. */
  lemma {:induction false} SplitOfJoin(parts: seq<string>)
    requires parts != [] && forall x :: x in parts ==> NoSlash(x)
    ensures Split(Join(parts)) == parts
    decreases |parts|
  {
    assert parts[0] in parts;
    if |parts| == 1 {
      NoSlashSplit(parts[0]);
    } else {
      assert forall x :: x in parts[1..] ==> x in parts;
      SplitOfJoin(parts[1..]);
      SplitAtSlash(parts[0], Join(parts[1..]));
    }
  }

  lemma {:induction false} JoinOfSplit(s: string)
    ensures Join(Split(s)) == s
    decreases |s|
  {
    SplitHead(s);
    if |Split(s)| > 1 {
      var u :| s == Split(s)[0] + "/" + u && Split(u) == Split(s)[1..];
      JoinOfSplit(u);
    }
  }
}
