/**
 common/url.cpp as functions on strings: what url_parse cuts out of a text, what TinyURL::parse
 makes of it, and what TinyURL::make prints.
 */
module UrlModel {
  import opened Options

  // ---------------------------------------------------------------- C strings

  /** strchr: the position of the first c, or |s| if there is none. */
  function Find(s: string, c: char): (i: nat)
    ensures i <= |s|
    ensures forall j | 0 <= j < i :: s[j] != c
    ensures i < |s| ==> s[i] == c
  {
    if s == [] || s[0] == c then 0 else 1 + Find(s[1..], c)
  }

  /** What a C function sees of a std::string passed by c_str(). */
  function CStr(s: string): string {
    s[..Find(s, '\0')]
  }

  predicate IsDigit(c: char) {
    '0' <= c <= '9'
  }

  predicate IsSpace(c: char) {
    c == ' ' || '\t' <= c <= '\r'
  }

  function DigitsOf(s: string, acc: nat): nat {
    if s == [] || !IsDigit(s[0]) then acc else DigitsOf(s[1..], 10 * acc + (s[0] - '0') as nat)
  }

  const LONG_MAX: int := 0x7FFF_FFFF_FFFF_FFFF

  /** strtol stops at the limits of long. */
  function Clamp(v: int): int {
    if v > LONG_MAX then LONG_MAX else if v < -LONG_MAX - 1 then -LONG_MAX - 1 else v
  }

  function Signed(s: string): int {
    if s != [] && s[0] == '-' then 0 - DigitsOf(s[1..], 0)
    else if s != [] && s[0] == '+' then DigitsOf(s[1..], 0)
    else DigitsOf(s, 0)
  }

  function SkipSpace(s: string): string {
    if s != [] && IsSpace(s[0]) then SkipSpace(s[1..]) else s
  }

  /** The conversion from long to int keeps the low 32 bits. */
  function ToInt32(v: int): int {
    var low := v % 0x1_0000_0000;
    if low < 0x8000_0000 then low else low - 0x1_0000_0000
  }

  function Atol(s: string): int {
    ToInt32(Clamp(Signed(SkipSpace(s))))
  }

  /** A non-negative number as std::ostream prints it. */
  function Decimal(n: nat): (s: string)
    ensures s != []
    ensures forall c | c in s :: IsDigit(c)
  {
    (if n < 10 then "" else Decimal(n / 10)) + [('0' as int + n % 10) as char]
  }

  // ---------------------------------------------------------------- url_parse

  datatype UrlField = UrlField(
    schema: string, username: Option<string>, password: Option<string>, host: string,
    port: Option<string>, path: Option<string>, query: seq<(string, string)>, fragment: Option<string>)

  function SplitSchema(s: string): Option<(string, string)> {
    var i := Find(s, ':');
    if i + 2 < |s| && s[i + 1] == '/' && s[i + 2] == '/' then Some((s[..i], s[i + 3..])) else None
  }

  /** username:password@ in front of the host; an '@' anywhere makes it mandatory. */
  function SplitUser(s: string): Option<(Option<(string, string)>, string)> {
    if Find(s, '@') == |s| then Some((None, s)) else
      var i := Find(s, ':');
      if i == |s| then None else
        var t := s[i + 1..];
        var j := Find(t, '@');
        if j == |t| then None else Some((Some((s[..i], t[..j])), t[j + 1..]))
  }

  /** The port up to the next '/', and what follows that. */
  function SplitPort(s: string): (string, string) {
    var i := Find(s, '/');
    (s[..i], if i < |s| then s[i + 1..] else "")
  }

  function SplitHost(s: string): Option<(string, Option<string>, string)> {
    if s != [] && s[0] == '[' then
      var t := s[1..];
      var i := Find(t, ']');
      if i == |t| then None else
        var rest := t[i + 1..];
        if rest != [] && rest[0] == ':' then
          var (port, tail) := SplitPort(rest[1..]);
          Some((t[..i], Some(port), tail))
        else Some((t[..i], None, rest))
    else
      var colon, slash := Find(s, ':'), Find(s, '/');
      if colon < slash then
        var (port, tail) := SplitPort(s[colon + 1..]);
        Some((s[..colon], Some(port), tail))
      else Some((s[..slash], None, if slash < |s| then s[slash + 1..] else ""))
  }

  /** parse_query: name up to '=', value up to '&'. */
  function ParseQuery(q: string): seq<(string, string)>
    decreases |q|
  {
    var e := Find(q, '=');
    if e == |q| then [] else
      var name, rest := q[..e], q[e + 1..];
      var a := Find(rest, '&');
      if a == |rest| then [(name, rest)]
      else [(name, rest[..a])] + ParseQuery(rest[a + 1..])
  }

  function SplitTail(s: string): (Option<string>, seq<(string, string)>, Option<string>) {
    var q, h := Find(s, '?'), Find(s, '#');
    if s == [] then (None, [], None)
    else if q < |s| then
      var rest := s[q + 1..];
      var f := Find(rest, '#');
      (Some(s[..q]), ParseQuery(rest[..f]), if f < |rest| then Some(rest[f + 1..]) else None)
    else (Some(s[..h]), [], if h < |s| then Some(s[h + 1..]) else None)
  }

  function UrlParse(s: string): Option<UrlField> {
    match SplitSchema(s)
    case None => None
    case Some((schema, s1)) =>
      match SplitUser(s1)
      case None => None
      case Some((user, s2)) =>
        match SplitHost(s2)
        case None => None
        case Some((host, port, s3)) =>
          var (path, query, fragment) := SplitTail(s3);
          Some(UrlField(schema,
                        if user.Some? then Some(user.value.0) else None,
                        if user.Some? then Some(user.value.1) else None,
                        host, port, path, query, fragment))
  }

  // ---------------------------------------------------------------- TinyURL

  datatype Url = Url(
    schema: string, username: string, password: string, host: string, port: int,
    path: string, query: map<string, string>, fragment: string)

  function Or(o: Option<string>): string {
    if o.Some? then o.value else ""
  }

  /** query[name] = value, pair after pair. */
  function MapOf(pairs: seq<(string, string)>): map<string, string> {
    if pairs == [] then map[] else
      var last := pairs[|pairs| - 1];
      MapOf(pairs[..|pairs| - 1])[last.0 := last.1]
  }

  function UrlOf(f: UrlField): Url {
    Url(f.schema, Or(f.username), Or(f.password), f.host, if f.port.Some? then Atol(f.port.value) else 0,
        Or(f.path), MapOf(f.query), Or(f.fragment))
  }

  /** TinyURL::parse; None is the result false. */
  function Parse(text: string): Option<Url> {
    var f := UrlParse(CStr(text));
    if f.Some? then Some(UrlOf(f.value)) else None
  }

  // ---------------------------------------------------------------- the order of std::map<std::string, _>

  predicate Before(a: string, b: string) {
    b != [] && (a == [] || a[0] < b[0] || (a[0] == b[0] && Before(a[1..], b[1..])))
  }

  lemma BeforeTotal(a: string, b: string)
    ensures a == b || Before(a, b) || Before(b, a)
  {
    if a != [] && b != [] && a[0] == b[0] {
      BeforeTotal(a[1..], b[1..]);
      assert a == [a[0]] + a[1..] && b == [b[0]] + b[1..];
    }
  }

  lemma BeforeTrans(a: string, b: string, c: string)
    requires Before(a, b) && Before(b, c)
    ensures Before(a, c)
  {
  }

  lemma BeforeIrreflexive(a: string)
    ensures !Before(a, a)
  {
  }

  predicate IsLeast(ks: set<string>, k: string) {
    k in ks && forall x | x in ks :: x == k || Before(k, x)
  }

  lemma LeastExists(ks: set<string>)
    requires ks != {}
    ensures exists k :: IsLeast(ks, k)
  {
    var y :| y in ks;
    if ks == {y} {
      assert IsLeast(ks, y);
    } else {
      LeastExists(ks - {y});
      var k :| IsLeast(ks - {y}, k);
      BeforeTotal(y, k);
      var m := if Before(y, k) then y else k;
      forall x | x in ks ensures x == m || Before(m, x) {
        if x != y && Before(y, k) && x != k {
          BeforeTrans(y, k, x);
        }
      }
      assert IsLeast(ks, m);
    }
  }

  lemma LeastUnique(ks: set<string>, j: string, k: string)
    requires IsLeast(ks, j) && IsLeast(ks, k)
    ensures j == k
  {
    if j != k {
      BeforeTrans(j, k, j);
      BeforeIrreflexive(j);
    }
  }

  ghost function Least(ks: set<string>): (k: string)
    requires ks != {}
    ensures IsLeast(ks, k)
  {
    LeastExists(ks);
    var k :| IsLeast(ks, k);
    k
  }

  // ---------------------------------------------------------------- TinyURL::make

  function Pair(k: string, v: string): string {
    k + "=" + v + "&"
  }

  /** The query map, in key order, every pair followed by '&'. */
  ghost function Pairs(query: map<string, string>): string
    decreases |query|
  {
    if query == map[] then "" else
      var k := Least(query.Keys);
      Pair(k, query[k]) + Pairs(query - {k})
  }

  function UserPart(u: Url): string {
    if u.username != [] && u.password != [] then u.username + ":" + u.password + "@" else ""
  }

  function PortPart(port: int): string {
    if port > 0 then ":" + Decimal(port) else ""
  }

  ghost function QueryPart(query: map<string, string>): string {
    if query == map[] then "" else "?" + Pairs(query)
  }

  function FragmentPart(fragment: string): string {
    if fragment == [] then "" else "#" + fragment
  }

  ghost function TailPart(u: Url): string {
    u.path + QueryPart(u.query) + FragmentPart(u.fragment)
  }

  ghost function HostPart(u: Url): string {
    u.host + PortPart(u.port) + "/" + TailPart(u)
  }

  ghost function Make(u: Url): string {
    u.schema + "://" + UserPart(u) + HostPart(u)
  }

  // ---------------------------------------------------------------- when make can be undone

  predicate QueryFree(query: map<string, string>, c: char) {
    forall k | k in query :: c !in k && c !in query[k]
  }

  predicate Free(u: Url, c: char) {
    c !in u.host && c !in u.path && c !in u.fragment && QueryFree(u.query, c)
  }

  /** The Url values that parse gives back from what make prints. */
  predicate WellFormed(u: Url) {
    && '\0' !in u.schema && '\0' !in u.username && '\0' !in u.password && Free(u, '\0')
    && ':' !in u.schema
    && (u.username == [] <==> u.password == [])
    && (u.username != [] ==> ':' !in u.username && '@' !in u.password)
    && (u.username == [] ==> Free(u, '@'))
    && ':' !in u.host && '/' !in u.host && (u.host == [] || u.host[0] != '[')
    && u.port >= 0
    && '?' !in u.path
    && (u.query == map[] ==> '#' !in u.path && '?' !in u.fragment)
    && (forall k | k in u.query :: '=' !in k && '#' !in k && '&' !in u.query[k] && '#' !in u.query[k])
  }
}
