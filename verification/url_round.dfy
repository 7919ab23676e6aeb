/**
 What parse makes of what make prints: Parse(Make(u)) is u exactly for the well-formed u.
 */
module UrlRound {
  import opened UrlModel

  // ---------------------------------------------------------------- strchr

  lemma FindAt(a: string, c: char, b: string)
    requires c !in a
    ensures Find(a + [c] + b, c) == |a|
  {
    var s := a + [c] + b;
    assert s[|a|] == c;
    assert forall i | 0 <= i < |a| :: s[i] == a[i];
  }

  lemma FindNone(s: string, c: char)
    ensures Find(s, c) == |s| <==> c !in s
  {
  }

  lemma FindBefore(s: string, c: char)
    ensures c !in s[..Find(s, c)]
    ensures Find(s, c) < |s| ==> s == s[..Find(s, c)] + [c] + s[Find(s, c) + 1..]
  {
  }

  lemma CStrIs(s: string)
    ensures '\0' !in CStr(s)
    ensures CStr(s) <= s
    ensures '\0' !in s ==> CStr(s) == s
  {
    FindNone(s, '\0');
  }

  // ---------------------------------------------------------------- port

  lemma DigitsShift(s: string, t: string, acc: nat)
    requires forall c | c in s :: IsDigit(c)
    ensures DigitsOf(s + t, acc) == DigitsOf(t, DigitsOf(s, acc))
  {
    if s != [] {
      assert (s + t)[1..] == s[1..] + t;
    } else {
      assert s + t == t;
    }
  }

  lemma {:induction false} DigitsOfDecimal(n: nat)
    ensures DigitsOf(Decimal(n), 0) == n
  {
    var last := [('0' as int + n % 10) as char];
    assert DigitsOf(last, n / 10) == n by {
      assert last[1..] == "";
    }
    if n >= 10 {
      DigitsOfDecimal(n / 10);
      DigitsShift(Decimal(n / 10), last, 0);
    } else {
      assert Decimal(n) == last;
    }
  }

  lemma SignedDigits(s: string)
    requires s != [] && IsDigit(s[0])
    ensures Signed(SkipSpace(s)) == DigitsOf(s, 0)
  {
    hide DigitsOf;
  }

  lemma SmallFits(v: int)
    requires 0 <= v < 0x8000_0000
    ensures ToInt32(Clamp(v)) == v
  {
  }

  lemma AtolDecimal(n: nat)
    requires n < 0x8000_0000
    ensures Atol(Decimal(n)) == n
  {
    hide DigitsOf, Decimal, SkipSpace, Signed, Clamp, ToInt32, IsDigit;
    DigitsOfDecimal(n);
    assert Decimal(n)[0] in Decimal(n);
    SignedDigits(Decimal(n));
    SmallFits(n);
  }

  ghost function Ten(k: nat): nat {
    if k == 0 then 1 else 10 * Ten(k - 1)
  }

  lemma Times(a: nat, b: nat, k: nat)
    requires a <= b
    ensures a * k <= b * k
  {
  }

  lemma TenTimes(a: nat, t: nat)
    ensures (10 * a + 10) * t == (a + 1) * (10 * t)
  {
  }

  lemma {:induction false} DigitsSmall(s: string, acc: nat)
    ensures DigitsOf(s, acc) < (acc + 1) * Ten(|s|)
  {
    if s != [] && IsDigit(s[0]) {
      var d := (s[0] - '0') as nat;
      var t := Ten(|s| - 1);
      DigitsSmall(s[1..], 10 * acc + d);
      Times(10 * acc + d + 1, 10 * acc + 10, t);
      TenTimes(acc, t);
    } else {
      TenPositive(|s|);
      Times(1, Ten(|s|), acc + 1);
    }
  }

  lemma TenPositive(k: nat)
    ensures Ten(k) >= 1
  {
  }

  lemma DecimalShort(n: nat, k: nat)
    requires 0 < n < Ten(k)
    ensures |Decimal(n)| <= k
  {
    if n >= 10 {
      DecimalShort(n / 10, k - 1);
    }
  }

  lemma SkipShort(s: string)
    ensures |SkipSpace(s)| <= |s|
  {
  }

  /** A positive port is never printed longer than the text it was read from. */
  lemma {:induction false} PortShort(s: string)
    requires Atol(s) > 0
    ensures |Decimal(Atol(s))| <= |s|
  {
    hide DigitsOf, Decimal, SkipSpace;
    var t := SkipSpace(s);
    SkipShort(s);
    var digits := if t != [] && (t[0] == '-' || t[0] == '+') then t[1..] else t;
    var v := DigitsOf(digits, 0);
    DigitsSmall(digits, 0);
    assert Atol(s) <= v;
    DecimalShort(Atol(s), |digits|);
  }

  // ---------------------------------------------------------------- query

  lemma {:induction false} MapCons(p: (string, string), ps: seq<(string, string)>)
    ensures MapOf([p] + ps) == map[p.0 := p.1] + MapOf(ps)
  {
    if ps == [] {
      assert [p] + ps == [p] && [p][..0] == [];
    } else {
      var n := |ps|;
      assert ([p] + ps)[..n] == [p] + ps[..n - 1];
      MapCons(p, ps[..n - 1]);
    }
  }

  /** Cutting at a delimiter that is not in the first part. */
  lemma Cut(a: string, c: char, b: string)
    requires c !in a
    ensures var s := a + [c] + b; Find(s, c) == |a| < |s| && s[..|a|] == a && s[|a| + 1..] == b
  {
    hide Find;
    FindAt(a, c, b);
  }

  lemma PairFlat(k: string, v: string, rest: string)
    ensures Pair(k, v) + rest == k + ['='] + (v + ['&'] + rest)
  {
  }

  lemma {:induction false} ParsePair(k: string, v: string, rest: string)
    requires '=' !in k && '&' !in v
    ensures ParseQuery(Pair(k, v) + rest) == [(k, v)] + ParseQuery(rest)
  {
    hide Find, Pair, ParseQuery;
    PairFlat(k, v, rest);
    Cut(k, '=', v + ['&'] + rest);
    Cut(v, '&', rest);
    ParseFirst(Pair(k, v) + rest);
  }

  /** One turn of parse_query. */
  lemma {:induction false} ParseFirst(q: string)
    ensures var e := Find(q, '=');
            if e == |q| then ParseQuery(q) == [] else
              var a := Find(q[e + 1..], '&');
              if a == |q[e + 1..]| then ParseQuery(q) == [(q[..e], q[e + 1..])]
              else ParseQuery(q) == [(q[..e], q[e + 1..][..a])] + ParseQuery(q[e + 1..][a + 1..])
  {
    hide Find;
  }

  predicate Delimited(query: map<string, string>) {
    forall k | k in query :: '=' !in k && '&' !in query[k]
  }

  lemma PairsNext(query: map<string, string>)
    requires query != map[]
    ensures var k := Least(query.Keys);
            k in query && Pairs(query) == Pair(k, query[k]) + Pairs(query - {k})
  {
    hide Pair;
  }

  lemma LessOne(query: map<string, string>, k: string)
    requires k in query
    ensures query == map[k := query[k]] + (query - {k}) && |query - {k}| < |query|
  {
    assert (query - {k}).Keys == query.Keys - {k};
  }

  lemma Associates(a: string, b: string, c: string)
    ensures (a + b) + c == a + (b + c)
  {
  }

  lemma {:induction false} ParsePairs(query: map<string, string>)
    requires Delimited(query)
    ensures MapOf(ParseQuery(Pairs(query))) == query
    decreases |query|
  {
    hide Find, ParseQuery, Pair, Pairs, MapOf;
    if query == map[] {
      NoPairs();
    } else {
      PairsNext(query);
      var k := Least(query.Keys);
      var less := query - {k};
      LessOne(query, k);
      ParsePairs(less);
      ParsePair(k, query[k], Pairs(less));
      MapCons((k, query[k]), ParseQuery(Pairs(less)));
    }
  }

  lemma NoPairs()
    ensures MapOf(ParseQuery(Pairs(map[]))) == map[]
  {
    hide Find, ParseQuery;
    ParseFirst("");
  }

  lemma PairFree(k: string, v: string, c: char)
    requires c != '=' && c != '&'
    ensures c !in Pair(k, v) <==> c !in k && c !in v
  {
    var t := Pair(k, v);
    assert t == k + (['='] + v + ['&']);
  }

  lemma {:induction false} PairsFree(query: map<string, string>, c: char)
    requires c != '=' && c != '&'
    ensures c !in Pairs(query) <==> QueryFree(query, c)
    decreases |query|
  {
    if query != map[] {
      var k := Least(query.Keys);
      var less := query - {k};
      PairsFree(less, c);
      PairFree(k, query[k], c);
      assert forall x | x in query :: x == k || x in less;
    }
  }

  predicate PairOk(p: (string, string), c: char) {
    '=' !in p.0 && '&' !in p.1 && c !in p.0 && c !in p.1
  }

  lemma FirstOk(q: string, c: char)
    requires c !in q && Find(q, '=') < |q|
    ensures PairOk(ParseQuery(q)[0], c)
  {
    var e := Find(q, '=');
    FindBefore(q, '=');
    FindBefore(q[e + 1..], '&');
  }

  lemma {:induction false} ParsedOk(q: string, c: char)
    requires c !in q
    ensures forall p | p in ParseQuery(q) :: PairOk(p, c)
    decreases |q|
  {
    hide PairOk, Find, ParseQuery;
    ParseFirst(q);
    var e := Find(q, '=');
    if e < |q| {
      var rest := q[e + 1..];
      var a := Find(rest, '&');
      FirstOk(q, c);
      if a < |rest| {
        ParsedOk(rest[a + 1..], c);
      }
    }
  }

  lemma {:induction false} MapOk(ps: seq<(string, string)>, c: char)
    requires forall p | p in ps :: PairOk(p, c)
    ensures Delimited(MapOf(ps)) && QueryFree(MapOf(ps), c)
  {
    if ps != [] {
      MapOk(ps[..|ps| - 1], c);
      assert PairOk(ps[|ps| - 1], c);
    }
  }

  /** What parse_query yields has its delimiters in neither names nor values, nor any c its text lacks. */
  lemma QueryOk(q: string, c: char)
    requires c !in q
    ensures Delimited(MapOf(ParseQuery(q))) && QueryFree(MapOf(ParseQuery(q)), c)
  {
    ParsedOk(q, c);
    MapOk(ParseQuery(q), c);
  }

  // ---------------------------------------------------------------- lengths

  lemma {:induction false} PairsLess(query: map<string, string>, k: string)
    requires k in query
    ensures |Pairs(query)| == |Pairs(query - {k})| + |k| + |query[k]| + 2
    decreases |query|
  {
    var l := Least(query.Keys);
    if l != k {
      var less := query - {l};
      PairsLess(less, k);
      var both := query - {k};
      LeastUnique(both.Keys, l, Least(both.Keys));
      assert both - {l} == less - {k};
      assert query[l] == both[l];
    }
  }

  lemma PairsMore(query: map<string, string>, k: string, v: string)
    ensures |Pairs(query[k := v])| <= |Pairs(query)| + |k| + |v| + 2
  {
    PairsLess(query[k := v], k);
    if k in query {
      PairsLess(query, k);
      assert query[k := v] - {k} == query - {k};
    } else {
      assert query[k := v] - {k} == query;
    }
  }

  ghost function Length(ps: seq<(string, string)>): nat {
    if ps == [] then 0 else
      var last := ps[|ps| - 1];
      Length(ps[..|ps| - 1]) + |last.0| + |last.1| + 2
  }

  lemma {:induction false} MapShort(ps: seq<(string, string)>)
    ensures |Pairs(MapOf(ps))| <= Length(ps)
  {
    if ps != [] {
      var front := ps[..|ps| - 1];
      MapShort(front);
      PairsMore(MapOf(front), ps[|ps| - 1].0, ps[|ps| - 1].1);
    }
  }

  lemma {:induction false} LengthCons(p: (string, string), ps: seq<(string, string)>)
    ensures Length([p] + ps) == |p.0| + |p.1| + 2 + Length(ps)
  {
    if ps == [] {
      assert [p] + ps == [p] && [p][..0] == [];
    } else {
      assert ([p] + ps)[..|ps|] == [p] + ps[..|ps| - 1];
      LengthCons(p, ps[..|ps| - 1]);
    }
  }

  lemma LengthNil()
    ensures Length([]) == 0
  {
  }

  lemma {:induction false} ParsedShort(q: string)
    ensures Length(ParseQuery(q)) <= |q| + 1
    decreases |q|
  {
    hide Find, ParseQuery, Length;
    ParseFirst(q);
    LengthNil();
    var e := Find(q, '=');
    if e < |q| {
      var rest := q[e + 1..];
      var a := Find(rest, '&');
      if a < |rest| {
        ParsedShort(rest[a + 1..]);
        LengthCons((q[..e], rest[..a]), ParseQuery(rest[a + 1..]));
      } else {
        LengthCons((q[..e], rest), []);
        assert [(q[..e], rest)] + [] == ParseQuery(q);
      }
    }
  }

  /** Printing a parsed query takes at most one character more than the text had. */
  lemma QueryShort(q: string)
    ensures |Pairs(MapOf(ParseQuery(q)))| <= |q| + 1
  {
    MapShort(ParseQuery(q));
    ParsedShort(q);
  }
}
