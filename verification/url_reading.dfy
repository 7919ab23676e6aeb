/**
 What TinyURL::parse makes of the parts of a text: numbers as strtol reads them, the last of the values
 of a name, nothing behind a NUL. And what make prints of a query and a port.
 */
module UrlReading {
  import opened Options
  import opened UrlModel
  import opened UrlRound
  import opened UrlTheorem
  import opened UrlGrammar

  // ---------------------------------------------------------------- the slash behind the host

  lemma SlashHost(rest: string)
    requires '/' !in rest && (rest == "" || rest[0] != '[')
    ensures SplitHost(rest + "/") == SplitHost(rest) && SplitHost(rest).Some? && SplitHost(rest).value.2 == ""
  {
    hide SplitHost;
    PlainBack(rest);
    var (host, port, tail) := SplitHost(rest).value;
    NoSlashNoTail(rest, host, port, tail);
    PlainForth(rest + "/", host, port, "");
  }

  lemma SlashIn(s: string, front: string, tail: string)
    requires s == front + "/" + tail
    ensures '/' in s
  {
    assert s[|front|] == '/';
  }

  lemma NoSlashNoTail(s: string, host: string, port: Option<string>, tail: string)
    requires '/' !in s && PlainSpelled(s, host, port, tail)
    ensures tail == "" && PlainSpelled(s + "/", host, port, "")
  {
    var front := host + if port.Some? then ":" + port.value else "";
    if port.Some? {
      assert front == host + ":" + port.value;
    } else {
      assert front == host;
    }
    if s == front + "/" + tail {
      SlashIn(s, front, tail);
    }
    assert s + "/" == s + "/" + "";
  }

  /** A host, with a port or without, may do without the '/' behind it, with user info or without. */
  lemma SlashOptional(schema: string, user: Option<(string, string)>, rest: string)
    requires ':' !in schema && '/' !in rest && (rest == "" || rest[0] != '[')
    requires user.Some? ==> ':' !in user.value.0 && '@' !in user.value.1
    requires user.None? ==> '@' !in rest
    ensures var front := schema + "://" + if user.Some? then user.value.0 + ":" + user.value.1 + "@" else "";
            UrlParse(front + rest + "/") == UrlParse(front + rest)
  {
    hide SplitSchema, SplitUser, SplitHost, SplitTail, UrlParse;
    var info := if user.Some? then user.value.0 + ":" + user.value.1 + "@" else "";
    var front := schema + "://" + info;
    assert front + rest == schema + "://" + (info + rest);
    assert front + rest + "/" == schema + "://" + (info + (rest + "/"));
    SchemaBack(schema, info + rest);
    SchemaBack(schema, info + (rest + "/"));
    UserAlike(user, rest, info);
    UserAlike(user, rest + "/", info);
    SlashHost(rest);
    SameReading(front + rest + "/", front + rest, schema, info + (rest + "/"), info + rest, user, rest + "/", rest);
  }

  lemma UserAlike(user: Option<(string, string)>, rest: string, info: string)
    requires user.Some? ==> ':' !in user.value.0 && '@' !in user.value.1
    requires user.None? ==> '@' !in rest
    requires info == if user.Some? then user.value.0 + ":" + user.value.1 + "@" else ""
    ensures SplitUser(info + rest) == Some((user, rest))
  {
    hide SplitUser;
    match user {
      case None =>
        assert info + rest == rest;
        UserNone(rest);
      case Some((name, word)) =>
        assert info + rest == name + ":" + word + "@" + rest;
        UserBack(name, word, rest);
    }
  }

  lemma SameReading(s: string, t: string, schema: string, s1: string, t1: string, user: Option<(string, string)>, s2: string, t2: string)
    requires SplitSchema(s) == Some((schema, s1)) && SplitSchema(t) == Some((schema, t1))
    requires SplitUser(s1) == Some((user, s2)) && SplitUser(t1) == Some((user, t2)) && SplitHost(s2) == SplitHost(t2)
    ensures UrlParse(s) == UrlParse(t)
  {
    hide SplitSchema, SplitUser, SplitHost, SplitTail;
  }

  // ---------------------------------------------------------------- numbers

  predicate AllDigits(s: string) {
    forall i | 0 <= i < |s| :: '0' <= s[i] <= '9'
  }

  /** A row of decimal digits as a number. */
  function Value(digits: string): int {
    if digits == "" then 0 else 10 * Value(digits[..|digits| - 1]) + (digits[|digits| - 1] as int - '0' as int)
  }

  predicate Blank(c: char) {
    c == ' ' || c == '\t' || c == '\n' || c == 11 as char || c == 12 as char || c == '\r'
  }

  predicate AllBlank(s: string) {
    forall i | 0 <= i < |s| :: Blank(s[i])
  }

  /** White space, a sign perhaps, the longest row of digits, and whatever follows. */
  predicate NumberSpelled(s: string, white: string, sign: string, digits: string, rest: string) {
    && s == white + sign + digits + rest
    && AllBlank(white)
    && (sign == "" || sign == "+" || sign == "-")
    && AllDigits(digits)
    && (rest != "" ==> !('0' <= rest[0] <= '9'))
    && (sign == "" && digits == "" && rest != "" ==> !Blank(rest[0]) && rest[0] != '+' && rest[0] != '-')
  }

  /** v is n, or the limit of a 64-bit long on its side, cut down to 32 bits. */
  predicate Int32Of(n: int, v: int) {
    var c := if n > 9223372036854775807 then 9223372036854775807 else if n < -9223372036854775808 then -9223372036854775808 else n;
    -2147483648 <= v <= 2147483647 && (v - c) % 4294967296 == 0
  }

  lemma Int32Is(n: int)
    ensures forall v :: Int32Of(n, v) <==> v == ToInt32(Clamp(n))
  {
    forall v ensures Int32Of(n, v) <==> v == ToInt32(Clamp(n)) {
      LowBits(Clamp(n), v);
    }
  }

  lemma LowBits(c: int, v: int)
    ensures -2147483648 <= v <= 2147483647 && (v - c) % 4294967296 == 0 <==> v == ToInt32(c)
  {
    var low := c % 4294967296;
    assert c == 4294967296 * (c / 4294967296) + low;
    if -2147483648 <= v <= 2147483647 && (v - c) % 4294967296 == 0 {
      assert v - c == 4294967296 * ((v - c) / 4294967296);
      var k := (v - c) / 4294967296 + c / 4294967296;
      assert v == 4294967296 * k + low;
    }
    if v == ToInt32(c) {
      var k := if low < 0x8000_0000 then - (c / 4294967296) else - (c / 4294967296) - 1;
      assert v - c == 4294967296 * k;
    }
  }

  lemma {:induction false} DigitsValue(digits: string)
    requires AllDigits(digits)
    ensures DigitsOf(digits, 0) == Value(digits)
  {
    if digits != "" {
      var n := |digits| - 1;
      var last := digits[n..];
      DigitsValue(digits[..n]);
      DigitsShift(digits[..n], last, 0);
      assert digits == digits[..n] + last && last[1..] == "" && '0' <= last[0] <= '9';
      assert DigitsOf(last, DigitsOf(digits[..n], 0)) == DigitsOf("", 10 * DigitsOf(digits[..n], 0) + (last[0] - '0') as nat);
    }
  }

  lemma DigitsUpTo(digits: string, rest: string)
    requires AllDigits(digits) && (rest != "" ==> !('0' <= rest[0] <= '9'))
    ensures DigitsOf(digits + rest, 0) == Value(digits)
  {
    DigitsShift(digits, rest, 0);
    DigitsValue(digits);
  }

  lemma {:induction false} WhiteSkipped(white: string, s: string)
    requires AllBlank(white) && (s != "" ==> !Blank(s[0]))
    ensures SkipSpace(white + s) == s
  {
    if white == "" {
      assert white + s == s;
    } else {
      assert IsSpace(white[0]);
      assert (white + s)[1..] == white[1..] + s;
      WhiteSkipped(white[1..], s);
    }
  }

  lemma SignedIs(sign: string, digits: string, rest: string)
    requires NumberSpelled("" + sign + digits + rest, "", sign, digits, rest)
    ensures Signed(sign + digits + rest) == if sign == "-" then 0 - Value(digits) else Value(digits)
  {
    var s := sign + digits + rest;
    DigitsUpTo(digits, rest);
    assert s == sign + (digits + rest) && s[|sign|..] == digits + rest;
    if sign == "" && s != "" {
      assert s[0] == if digits != "" then digits[0] else rest[0];
    }
  }

  lemma NumberForth(s: string, white: string, sign: string, digits: string, rest: string)
    requires NumberSpelled(s, white, sign, digits, rest)
    ensures Signed(SkipSpace(s)) == if sign == "-" then 0 - Value(digits) else Value(digits)
  {
    hide SkipSpace, Signed, Value;
    var t := sign + digits + rest;
    assert s == white + t && t == "" + sign + digits + rest;
    if t != "" {
      assert t[0] == if sign != "" then sign[0] else if digits != "" then digits[0] else rest[0];
    }
    WhiteSkipped(white, sign + digits + rest);
    SignedIs(sign, digits, rest);
  }

  lemma {:induction false} WhiteCut(s: string) returns (white: string)
    ensures s == white + SkipSpace(s) && AllBlank(white)
    ensures SkipSpace(s) != "" ==> !Blank(SkipSpace(s)[0])
  {
    if s != "" && IsSpace(s[0]) {
      white := WhiteCut(s[1..]);
      white := [s[0]] + white;
    } else {
      white := "";
    }
  }

  lemma {:induction false} DigitsCut(s: string) returns (digits: string, rest: string)
    ensures s == digits + rest && AllDigits(digits)
    ensures rest != "" ==> !('0' <= rest[0] <= '9')
  {
    if s != "" && '0' <= s[0] <= '9' {
      digits, rest := DigitsCut(s[1..]);
      digits := [s[0]] + digits;
    } else {
      digits, rest := "", s;
    }
  }

  /** Every text is a number with something behind it. */
  lemma SomeNumber(s: string) returns (white: string, sign: string, digits: string, rest: string)
    ensures NumberSpelled(s, white, sign, digits, rest)
  {
    hide SkipSpace;
    white := WhiteCut(s);
    var t := SkipSpace(s);
    sign := if t != "" && (t[0] == '+' || t[0] == '-') then [t[0]] else "";
    var u := t[|sign|..];
    assert t == sign + u;
    digits, rest := DigitsCut(u);
    assert s == white + sign + digits + rest;
  }

  ghost predicate NumberReads(s: string, v: int) {
    exists white, sign, digits, rest | NumberSpelled(s, white, sign, digits, rest) ::
      Int32Of(if sign == "-" then 0 - Value(digits) else Value(digits), v)
  }

  /** atol and the conversion to int, for every text: overflow, wrap-around and garbage included. */
  lemma AtolIs(s: string, v: int)
    ensures Atol(s) == v <==> NumberReads(s, v)
  {
    hide SkipSpace, Signed, Value, ToInt32, Clamp, Int32Of, NumberSpelled;
    if NumberReads(s, v) {
      var white, sign, digits, rest :| NumberSpelled(s, white, sign, digits, rest)
        && Int32Of(if sign == "-" then 0 - Value(digits) else Value(digits), v);
      NumberForth(s, white, sign, digits, rest);
      Int32Is(if sign == "-" then 0 - Value(digits) else Value(digits));
    } else {
      var white, sign, digits, rest := SomeNumber(s);
      NumberForth(s, white, sign, digits, rest);
      Int32Is(if sign == "-" then 0 - Value(digits) else Value(digits));
    }
  }

  // ---------------------------------------------------------------- the query map

  /** The value of k is that of the last pair named k. */
  predicate LastOf(pairs: seq<(string, string)>, k: string, v: string) {
    exists i :: 0 <= i < |pairs| && pairs[i] == (k, v) && forall j | i < j < |pairs| :: pairs[j].0 != k
  }

  lemma LastSnoc(pairs: seq<(string, string)>, p: (string, string), k: string, v: string)
    ensures LastOf(pairs + [p], k, v) <==> if p.0 == k then p.1 == v else LastOf(pairs, k, v)
  {
    var more := pairs + [p];
    assert more[|pairs|] == p;
    if LastOf(pairs, k, v) && p.0 != k {
      var i :| 0 <= i < |pairs| && pairs[i] == (k, v) && forall j | i < j < |pairs| :: pairs[j].0 != k;
      assert more[i] == (k, v);
    }
    if LastOf(more, k, v) && p.0 != k {
      var i :| 0 <= i < |more| && more[i] == (k, v) && forall j | i < j < |more| :: more[j].0 != k;
      assert pairs[i] == (k, v);
      assert forall j | i < j < |pairs| :: more[j] == pairs[j];
    }
  }

  /** Of several pairs with one name the last one counts. */
  lemma {:induction false} LastWins(pairs: seq<(string, string)>, k: string, v: string)
    ensures k in MapOf(pairs) && MapOf(pairs)[k] == v <==> LastOf(pairs, k, v)
  {
    hide LastOf;
    if pairs == [] {
      NoneLast(k, v);
    } else {
      var n := |pairs| - 1;
      LastWins(pairs[..n], k, v);
      LastSnoc(pairs[..n], pairs[n], k, v);
      assert pairs == pairs[..n] + [pairs[n]];
    }
  }

  lemma NoneLast(k: string, v: string)
    ensures !LastOf([], k, v)
  {
  }

  // ---------------------------------------------------------------- parse

  predicate Maps(m: map<string, string>, k: string, v: string) {
    k in m && m[k] == v
  }

  function Text(o: Option<string>): string {
    match o
    case None => ""
    case Some(t) => t
  }

  /** u holds what the reading f says: nothing for a missing part, the port as a number, the last value of a name. */
  ghost predicate Holds(u: Url, f: UrlField) {
    && u.schema == f.schema && u.username == Text(f.username) && u.password == Text(f.password) && u.host == f.host
    && (if f.port.Some? then NumberReads(f.port.value, u.port) else u.port == 0)
    && u.path == Text(f.path) && u.fragment == Text(f.fragment)
    && (forall k, v :: Maps(u.query, k, v) <==> LastOf(f.query, k, v))
  }

  lemma HoldsIs(u: Url, f: UrlField)
    ensures u == UrlOf(f) <==> Holds(u, f)
  {
    hide LastOf, NumberReads, Atol, MapOf;
    if f.port.Some? {
      AtolIs(f.port.value, u.port);
    }
    forall k, v ensures Maps(MapOf(f.query), k, v) <==> LastOf(f.query, k, v) {
      LastWins(f.query, k, v);
    }
    if Holds(u, f) {
      SameMap(u.query, MapOf(f.query));
    }
  }

  lemma SameMap(a: map<string, string>, b: map<string, string>)
    requires forall k, v :: Maps(a, k, v) <==> Maps(b, k, v)
    ensures a == b
  {
    forall k | k in a ensures k in b && b[k] == a[k] {
      assert Maps(a, k, a[k]);
    }
    forall k | k in b ensures k in a && a[k] == b[k] {
      assert Maps(b, k, b[k]);
    }
  }

  /** What is behind a NUL is not looked at. */
  lemma NulEnds(s: string, rest: string)
    requires '\0' !in s
    ensures CStr(s) == s && CStr(s + ['\0'] + rest) == s
  {
    hide Find;
    FindNone(s, '\0');
    assert s[..|s|] == s;
    Cut(s, '\0', rest);
  }

  /**
   parse, for every text: s is the text up to its first NUL. It gives u if and only if s is spelled by the
   grammar as some reading whose parts u holds.
   */
  lemma ParseIff(text: string, s: string, u: Url)
    requires '\0' !in s && (text == s || exists rest :: text == s + ['\0'] + rest)
    ensures Parse(text) == Some(u) <==> exists f :: Spelled(s, f) && Holds(u, f)
  {
    hide CStr, Spelled, Holds, UrlParse, UrlOf;
    if text == s {
      NulEnds(s, "");
    } else {
      var rest :| text == s + ['\0'] + rest;
      NulEnds(s, rest);
    }
    forall f ensures (UrlParse(s) == Some(f) <==> Spelled(s, f)) && (u == UrlOf(f) <==> Holds(u, f)) {
      ReadsIff(s, f);
      HoldsIs(u, f);
    }
    if Parse(text) == Some(u) {
      var f := UrlParse(s).value;
      assert Spelled(s, f) && Holds(u, f);
    }
  }

  // ---------------------------------------------------------------- make

  ghost function Smaller(query: map<string, string>, k: string): map<string, string> {
    map x | x in query && Before(x, k) :: query[x]
  }

  ghost function Greater(query: map<string, string>, k: string): map<string, string> {
    map x | x in query && Before(k, x) :: query[x]
  }

  /** A query is printed in the order of its names: around each pair the smaller ones and the greater ones. */
  lemma PairsInOrder(query: map<string, string>, k: string)
    requires k in query
    ensures Pairs(query) == Pairs(Smaller(query, k)) + (k + "=" + query[k] + "&") + Pairs(Greater(query, k))
  {
    hide Pairs;
    PairsAround(query, k);
  }

  lemma {:induction false} PairsAround(query: map<string, string>, k: string)
    requires k in query
    ensures Pairs(query) == Pairs(Smaller(query, k)) + Pair(k, query[k]) + Pairs(Greater(query, k))
    decreases |query|
  {
    hide Pairs, Before, Pair, Smaller, Greater;
    PairsNext(query);
    var l := Least(query.Keys);
    var less := query - {l};
    LessOne(query, l);
    if l == k {
      LeastSmaller(query, l);
      NoPairsPrinted();
      assert "" + Pair(k, query[k]) == Pair(k, query[k]);
    } else {
      PairsAround(less, k);
      LeastInFront(query, l, k);
      var smaller := Smaller(query, k);
      PairsNext(smaller);
      LeastUnique(smaller.Keys, l, Least(smaller.Keys));
      FourPieces(Pair(l, query[l]), Pairs(Smaller(less, k)), Pair(k, query[k]), Pairs(Greater(query, k)));
    }
  }

  lemma FourPieces(a: string, b: string, c: string, d: string)
    ensures a + (b + c + d) == (a + b) + c + d
  {
  }

  lemma NoPairsPrinted()
    ensures Pairs(map[]) == ""
  {
  }

  lemma LeastSmaller(query: map<string, string>, l: string)
    requires IsLeast(query.Keys, l)
    ensures Smaller(query, l) == map[] && Greater(query, l) == query - {l}
  {
    hide Before;
    forall x | x in query ensures !Before(x, l) && (Before(l, x) <==> x != l) {
      BeforeIrreflexive(l);
      if Before(x, l) {
        BeforeTrans(x, l, x);
        BeforeIrreflexive(x);
      }
    }
  }

  lemma LeastInFront(query: map<string, string>, l: string, k: string)
    requires IsLeast(query.Keys, l) && k in query && k != l
    ensures l in Smaller(query, k) && IsLeast(Smaller(query, k).Keys, l)
    ensures Smaller(query, k) - {l} == Smaller(query - {l}, k) && Greater(query, k) == Greater(query - {l}, k)
    ensures Smaller(query, k)[l] == query[l] && Smaller(query, k) != map[]
  {
    hide Before;
    if Before(k, l) {
      BeforeTrans(l, k, l);
      BeforeIrreflexive(l);
    }
  }

  /** The first i chars are the same, then that of a is smaller. */
  predicate Differ(a: string, b: string, i: int) {
    0 <= i < |a| && i < |b| && a[..i] == b[..i] && a[i] < b[i]
  }

  /** The order of the names: at the first place where they differ the smaller char decides, and a part of a name is smaller. */
  lemma {:induction false} BeforeIff(a: string, b: string)
    ensures Before(a, b) <==> a < b || exists i :: Differ(a, b, i)
    decreases |a|
  {
    if a != "" && b != "" && a[0] == b[0] {
      BeforeIff(a[1..], b[1..]);
      assert a == [a[0]] + a[1..] && b == [a[0]] + b[1..];
      DifferLater(a[0], a[1..], b[1..]);
    } else if a != "" && b != "" {
      assert a[..0] == b[..0];
      assert a[0] < b[0] ==> Differ(a, b, 0);
    }
  }

  /** A common first char moves the first difference on by one. */
  lemma DifferLater(x: char, c: string, d: string)
    ensures var a, b := [x] + c, [x] + d;
            && (a < b <==> c < d)
            && ((exists i :: Differ(a, b, i)) <==> (exists i :: Differ(c, d, i)))
  {
    var a, b := [x] + c, [x] + d;
    assert a[1..] == c && b[1..] == d;
    if i :| Differ(c, d, i) {
      assert a[..i + 1] == [x] + c[..i] && b[..i + 1] == [x] + d[..i];
      assert Differ(a, b, i + 1);
    }
    if i :| Differ(a, b, i) {
      assert c[..i - 1] == a[..i][1..] && d[..i - 1] == b[..i][1..];
      assert Differ(c, d, i - 1);
    }
  }

  /** A port is printed if it is positive, by its digits without leading zeros. */
  lemma PortPrinted(u: Url) returns (digits: string)
    ensures HostPart(u) == u.host + (if u.port > 0 then ":" + digits else "") + "/" + TailPart(u)
    ensures u.port > 0 ==> digits != "" && AllDigits(digits) && Value(digits) == u.port && digits[0] != '0'
  {
    hide Decimal, TailPart, Value;
    digits := "";
    if u.port > 0 {
      digits := Decimal(u.port);
      DigitsOfDecimal(u.port);
      assert forall i | 0 <= i < |digits| :: digits[i] in digits;
      DigitsValue(digits);
      NoLeadingZero(u.port);
    }
  }

  lemma {:induction false} NoLeadingZero(n: nat)
    requires n > 0
    ensures Decimal(n)[0] != '0'
  {
    if n >= 10 {
      NoLeadingZero(n / 10);
    }
  }
}
