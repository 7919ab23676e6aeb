/**
 The grammar of the texts that url_parse accepts, written down as concatenations, and the theorem that
 it reads exactly these: a text has a reading if and only if it is spelled that way, part by part.
 */
module UrlGrammar {
  import opened Options
  import opened UrlModel
  import opened UrlRound
  import opened UrlTheorem

  // ---------------------------------------------------------------- the grammar

  /** With an '@' anywhere the name, without ':', and the password, without '@', are mandatory. */
  predicate UserSpelled(s: string, user: Option<(string, string)>, rest: string) {
    match user
    case None => s == rest && '@' !in s
    case Some((name, word)) => s == name + ":" + word + "@" + rest && ':' !in name && '@' !in word
  }

  /** What ends a host or a port: '/' and the tail, or the end of the text. */
  predicate Ended(s: string, front: string, tail: string) {
    s == front + "/" + tail || (s == front && tail == "")
  }

  /** A host in brackets: the tail behind it needs no '/'. */
  predicate BracketSpelled(s: string, host: string, port: Option<string>, tail: string) {
    ']' !in host &&
    match port
    case None => s == "[" + host + "]" + tail && (tail == "" || tail[0] != ':')
    case Some(p) => Ended(s, "[" + host + "]:" + p, tail) && '/' !in p
  }

  predicate PlainSpelled(s: string, host: string, port: Option<string>, tail: string) {
    (s == "" || s[0] != '[') && ':' !in host && '/' !in host &&
    match port
    case None => Ended(s, host, tail)
    case Some(p) => Ended(s, host + ":" + p, tail) && '/' !in p
  }

  predicate HostSpelled(s: string, host: string, port: Option<string>, tail: string) {
    BracketSpelled(s, host, port, tail) || PlainSpelled(s, host, port, tail)
  }

  /** name=value, divided by '&'; what has no '=' at the end is dropped. */
  ghost predicate QuerySpelled(q: string, pairs: seq<(string, string)>)
    decreases |pairs|
  {
    if pairs == [] then '=' !in q else
      var (name, value) := pairs[0];
      && '=' !in name && '&' !in value
      && (|| (|pairs| == 1 && q == name + "=" + value)
          || exists rest :: q == name + "=" + value + "&" + rest && QuerySpelled(rest, pairs[1..]))
  }

  predicate FragmentSpelled(s: string, front: string, fragment: Option<string>) {
    match fragment
    case None => s == front
    case Some(f) => s == front + "#" + f
  }

  /** The path up to the first '?', the query up to the next '#', the fragment; without '?' the path up to '#'. */
  ghost predicate TailSpelled(s: string, path: Option<string>, query: seq<(string, string)>, fragment: Option<string>) {
    match path
    case None => s == "" && query == [] && fragment == None
    case Some(p) =>
      && s != ""
      && (|| (exists q :: '?' !in p && '#' !in q && QuerySpelled(q, query) && FragmentSpelled(s, p + "?" + q, fragment))
          || ('?' !in s && '#' !in p && query == [] && FragmentSpelled(s, p, fragment)))
  }

  ghost predicate Spelled(s: string, f: UrlField) {
    exists authority, rest, tail :: SpelledAs(s, f, authority, rest, tail)
  }

  ghost predicate SpelledAs(s: string, f: UrlField, authority: string, rest: string, tail: string) {
    && s == f.schema + "://" + authority && ':' !in f.schema
    && f.username.Some? == f.password.Some?
    && UserSpelled(authority, if f.username.Some? && f.password.Some? then Some((f.username.value, f.password.value)) else None, rest)
    && HostSpelled(rest, f.host, f.port, tail)
    && TailSpelled(tail, f.path, f.query, f.fragment)
  }

  // ---------------------------------------------------------------- schema and user info

  lemma SchemaReads(s: string, schema: string, rest: string)
    ensures SplitSchema(s) == Some((schema, rest)) <==> s == schema + "://" + rest && ':' !in schema
  {
    hide SplitSchema;
    if SplitSchema(s).Some? {
      SchemaCuts(s);
    }
    if ':' !in schema {
      SchemaBack(schema, rest);
    }
  }

  lemma UserReads(s: string, user: Option<(string, string)>, rest: string)
    ensures SplitUser(s) == Some((user, rest)) <==> UserSpelled(s, user, rest)
  {
    hide SplitUser;
    UserCuts(s);
    match user {
      case None =>
        if '@' !in s {
          UserNone(s);
        }
      case Some((name, word)) =>
        if ':' !in name && '@' !in word {
          UserBack(name, word, rest);
        }
    }
  }

  // ---------------------------------------------------------------- host and port

  lemma PortReads(s: string, port: string, tail: string)
    ensures SplitPort(s) == (port, tail) <==> Ended(s, port, tail) && '/' !in port
  {
    hide Find;
    FindBefore(s, '/');
    FindNone(s, '/');
    assert s[..|s|] == s;
    if '/' !in port && s == port + "/" + tail {
      assert s == port + ['/'] + tail;
      Cut(port, '/', tail);
    }
  }

  /** What stands in front of a port matters to nobody. */
  lemma EndedBehind(front: string, s: string, port: string, tail: string)
    ensures Ended(front + s, front + port, tail) <==> Ended(s, port, tail)
  {
    assert front + port + "/" + tail == front + (port + "/" + tail);
    assert (front + s)[|front|..] == s;
    assert (front + port)[|front|..] == port;
    assert (front + (port + "/" + tail))[|front|..] == port + "/" + tail;
  }

  lemma BracketReads(t: string, host: string, port: Option<string>, tail: string)
    ensures SplitHost("[" + t) == Some((host, port, tail)) <==> BracketSpelled("[" + t, host, port, tail)
  {
    hide Find, SplitPort, Ended;
    var s := "[" + t;
    assert s[1..] == t;
    var i := Find(t, ']');
    FindBefore(t, ']');
    FindNone(t, ']');
    if ']' in t {
      BracketInside(t, t[..i], t[i + 1..], host, port, tail);
    } else if BracketSpelled(s, host, port, tail) {
      BracketIn(t, host, port, tail);
    }
  }

  lemma BracketIn(t: string, host: string, port: Option<string>, tail: string)
    requires BracketSpelled("[" + t, host, port, tail)
    ensures |host| < |t| && t[|host|] == ']' && t[..|host|] == host && ']' !in host
  {
    var s := "[" + t;
    assert s[|host| + 1] == ']' && s[1..|host| + 1] == host;
  }

  lemma BracketInside(t: string, h: string, rest: string, host: string, port: Option<string>, tail: string)
    requires ']' !in h && t == h + [']'] + rest
    ensures var (p, end) := SplitPort(if rest != [] then rest[1..] else "");
            BracketSpelled("[" + t, host, port, tail) <==>
              host == h && if rest != [] && rest[0] == ':' then port == Some(p) && tail == end else port == None && tail == rest
  {
    hide SplitPort, Ended;
    var s := "[" + t;
    if BracketSpelled(s, host, port, tail) {
      SameBracket(t, h, rest, host, port, tail);
    }
    if port.Some? && host == h {
      var front := "[" + h + "]:";
      EndedIn(s, front, port.value, tail);
      if rest != [] && rest[0] == ':' {
        assert rest == ":" + rest[1..];
        assert s == front + rest[1..];
        EndedBehind(front, rest[1..], port.value, tail);
        PortReads(rest[1..], port.value, tail);
      } else if BracketSpelled(s, host, port, tail) {
        ColonIsNext(s, h, rest);
      }
    }
    if port.None? && host == h {
      assert s == "[" + h + "]" + rest;
      Behind("[" + h + "]", tail, rest);
    }
  }

  lemma Behind(front: string, a: string, b: string)
    ensures front + a == front + b <==> a == b
  {
    assert (front + a)[|front|..] == a;
    assert (front + b)[|front|..] == b;
  }

  lemma EndedIn(s: string, front: string, port: string, tail: string)
    ensures Ended(s, front + port, tail) ==> front <= s
  {
  }

  lemma ColonIsNext(s: string, h: string, rest: string)
    requires s == "[" + (h + [']'] + rest) && "[" + h + "]:" <= s
    ensures rest != "" && rest[0] == ':'
  {
    var front := "[" + h + "]:";
    assert s[|h| + 2] == front[|h| + 2] == ':';
  }

  /** The first ']' is the one behind the host. */
  lemma SameBracket(t: string, h: string, rest: string, host: string, port: Option<string>, tail: string)
    requires ']' !in h && t == h + [']'] + rest && BracketSpelled("[" + t, host, port, tail)
    ensures host == h
  {
    hide BracketSpelled;
    BracketIn(t, host, port, tail);
    assert t == host + [']'] + t[|host| + 1..];
    OneCut(host, ']', t[|host| + 1..], h, rest);
  }

  lemma PlainReads(s: string, host: string, port: Option<string>, tail: string)
    requires s == "" || s[0] != '['
    ensures SplitHost(s) == Some((host, port, tail)) <==> PlainSpelled(s, host, port, tail)
  {
    hide SplitHost;
    if PlainSpelled(s, host, port, tail) {
      PlainForth(s, host, port, tail);
    }
    PlainBack(s);
  }

  lemma PlainForth(s: string, host: string, port: Option<string>, tail: string)
    requires (s == "" || s[0] != '[') && PlainSpelled(s, host, port, tail)
    ensures SplitHost(s) == Some((host, port, tail))
  {
    hide SplitHost;
    if port.Some? {
      PlainPortForth(s, host, port.value, tail);
    } else {
      PlainHostForth(s, host, tail);
    }
  }

  lemma PlainHostForth(s: string, host: string, tail: string)
    requires (s == "" || s[0] != '[') && ':' !in host && '/' !in host && Ended(s, host, tail)
    ensures SplitHost(s) == Some((host, None, tail))
  {
    hide Find, SplitPort;
    FindNone(s, ':');
    FindNone(s, '/');
    assert s[..|s|] == s;
    if s == host + "/" + tail {
      assert s == host + ['/'] + tail;
      Cut(host, '/', tail);
      SlashAfter(host, s, ':');
    }
  }

  lemma PlainPortForth(s: string, host: string, port: string, tail: string)
    requires (s == "" || s[0] != '[') && ':' !in host && '/' !in host && '/' !in port && Ended(s, host + ":" + port, tail)
    ensures SplitHost(s) == Some((host, Some(port), tail))
  {
    hide Find, SplitPort;
    ColonIn(s, host, port, tail);
    var t := s[|host| + 1..];
    Cut(host, ':', t);
    SlashAfter(host, s, '/');
    EndedBehind(host + ":", t, port, tail);
    PortReads(t, port, tail);
  }

  lemma ColonIn(s: string, host: string, port: string, tail: string)
    requires Ended(s, host + ":" + port, tail)
    ensures |host| < |s| && s == host + [':'] + s[|host| + 1..]
  {
    assert s[|host|] == ':' && s[..|host|] == host;
  }

  lemma PlainBack(s: string)
    requires s == "" || s[0] != '['
    ensures var r := SplitHost(s); r.Some? && PlainSpelled(s, r.value.0, r.value.1, r.value.2)
  {
    hide Find, SplitPort;
    var colon, slash := Find(s, ':'), Find(s, '/');
    FindBefore(s, ':');
    FindBefore(s, '/');
    if colon < slash {
      var host, t := s[..colon], s[colon + 1..];
      var (port, tail) := SplitPort(t);
      PortReads(t, port, tail);
      EndedBehind(host + ":", t, port, tail);
      assert s == host + ":" + t;
      NotBefore(s, '/', colon);
    } else {
      NotBefore(s, ':', slash);
    }
  }

  lemma NotBefore(s: string, c: char, i: nat)
    requires i <= Find(s, c)
    ensures i <= |s| && c !in s[..i]
  {
  }

  lemma HostReads(s: string, host: string, port: Option<string>, tail: string)
    ensures SplitHost(s) == Some((host, port, tail)) <==> HostSpelled(s, host, port, tail)
  {
    hide SplitHost, Ended;
    if s != "" && s[0] == '[' {
      assert s == "[" + s[1..];
      BracketReads(s[1..], host, port, tail);
    } else {
      PlainReads(s, host, port, tail);
      PlainNoBracket(s, host, port, tail);
    }
  }

  lemma BracketFirst(s: string, host: string, port: Option<string>, tail: string)
    requires BracketSpelled(s, host, port, tail)
    ensures s != "" && s[0] == '['
  {
  }

  lemma PlainNoBracket(s: string, host: string, port: Option<string>, tail: string)
    requires s == "" || s[0] != '['
    ensures !BracketSpelled(s, host, port, tail)
  {
    if BracketSpelled(s, host, port, tail) {
      BracketFirst(s, host, port, tail);
    }
  }

  // ---------------------------------------------------------------- the tail

  lemma {:induction false} QueryReads(q: string, pairs: seq<(string, string)>)
    ensures ParseQuery(q) == pairs <==> QuerySpelled(q, pairs)
    decreases |q|
  {
    hide ParseQuery, Find, QuerySpelled;
    ParseFirst(q);
    FindNone(q, '=');
    FindBefore(q, '=');
    if '=' in q {
      var e := Find(q, '=');
      var name, v := q[..e], q[e + 1..];
      FindNone(v, '&');
      FindBefore(v, '&');
      if '&' in v {
        var a := Find(v, '&');
        var value, rest := v[..a], v[a + 1..];
        if pairs != [] {
          QueryReads(rest, pairs[1..]);
        }
        assert v == value + ['&'] + rest && q == name + ['='] + v;
        SpelledMore(q, name, value, rest, pairs);
        assert pairs != [] ==> pairs == [pairs[0]] + pairs[1..];
      } else {
        SpelledLast(q, name, v, pairs);
        assert pairs != [] ==> pairs == [pairs[0]] + pairs[1..];
      }
    } else {
      SpelledNone(q, pairs);
    }
  }

  lemma SpelledNone(q: string, pairs: seq<(string, string)>)
    requires '=' !in q
    ensures QuerySpelled(q, pairs) <==> pairs == []
  {
    hide QuerySpelled;
    NothingSpelled(q);
    if QuerySpelled(q, pairs) && pairs != [] {
      var v := PairInFront(q, pairs);
    }
  }

  lemma NothingSpelled(q: string)
    ensures QuerySpelled(q, []) <==> '=' !in q
  {
  }

  /** A query that has pairs starts with the first; it is the last one if no '&' follows. */
  lemma PairInFront(q: string, pairs: seq<(string, string)>) returns (v: string)
    requires QuerySpelled(q, pairs) && pairs != []
    ensures q == pairs[0].0 + ['='] + v && '=' !in pairs[0].0 && '&' !in pairs[0].1 && '=' in q
    ensures if '&' in v then exists r :: v == pairs[0].1 + ['&'] + r && QuerySpelled(r, pairs[1..])
            else |pairs| == 1 && v == pairs[0].1
  {
    var (name, value) := pairs[0];
    if |pairs| == 1 && q == name + "=" + value {
      v := value;
    } else {
      var r :| q == name + "=" + value + "&" + r && QuerySpelled(r, pairs[1..]);
      v := value + ['&'] + r;
      assert v[|value|] == '&';
    }
    assert q == name + ['='] + v;
    assert q[|name|] == '=';
  }

  /** Two ways to cut at the first c are one. */
  lemma OneCut(a: string, c: char, b: string, d: string, e: string)
    requires c !in a && c !in d && a + [c] + b == d + [c] + e
    ensures a == d && b == e
  {
    hide Find;
    Cut(a, c, b);
    Cut(d, c, e);
  }

  lemma SpelledLast(q: string, name: string, value: string, pairs: seq<(string, string)>)
    requires q == name + ['='] + value && '=' !in name && '&' !in value
    ensures QuerySpelled(q, pairs) <==> |pairs| == 1 && pairs[0] == (name, value)
  {
    if |pairs| == 1 && pairs[0] == (name, value) {
      assert q == name + "=" + value;
    }
    hide QuerySpelled;
    assert q[|name|] == '=';
    NothingSpelled(q);
    if QuerySpelled(q, pairs) && pairs != [] {
      var v := PairInFront(q, pairs);
      OneCut(name, '=', value, pairs[0].0, v);
    }
  }

  lemma SpelledMore(q: string, name: string, value: string, rest: string, pairs: seq<(string, string)>)
    requires q == name + ['='] + (value + ['&'] + rest) && '=' !in name && '&' !in value
    ensures QuerySpelled(q, pairs) <==> pairs != [] && pairs[0] == (name, value) && QuerySpelled(rest, pairs[1..])
  {
    if pairs != [] && pairs[0] == (name, value) && QuerySpelled(rest, pairs[1..]) {
      assert q == name + "=" + value + "&" + rest;
    }
    hide QuerySpelled;
    var t := value + ['&'] + rest;
    assert q[|name|] == '=' && t[|value|] == '&';
    NothingSpelled(q);
    if QuerySpelled(q, pairs) && pairs != [] {
      var v := PairInFront(q, pairs);
      OneCut(name, '=', t, pairs[0].0, v);
      var r :| v == pairs[0].1 + ['&'] + r && QuerySpelled(r, pairs[1..]);
      OneCut(value, '&', rest, pairs[0].1, r);
    }
  }

  lemma TailReads(s: string, path: Option<string>, query: seq<(string, string)>, fragment: Option<string>)
    ensures SplitTail(s) == (path, query, fragment) <==> TailSpelled(s, path, query, fragment)
  {
    hide Find, ParseQuery, QuerySpelled;
    FindNone(s, '?');
    if s != "" {
      if '?' in s {
        QueryTailReads(s, path, query, fragment);
      } else {
        PlainTailReads(s, path, query, fragment);
      }
    }
  }

  lemma PlainTailReads(s: string, path: Option<string>, query: seq<(string, string)>, fragment: Option<string>)
    requires s != "" && '?' !in s
    ensures SplitTail(s) == (path, query, fragment) <==> TailSpelled(s, path, query, fragment)
  {
    hide Find, ParseQuery, QuerySpelled, FragmentSpelled;
    FindNone(s, '?');
    if path.Some? {
      var p := path.value;
      if q :| FragmentSpelled(s, p + "?" + q, fragment) {
        MarkIn(s, p, q, fragment);
      }
      HashReads(s, p, fragment);
    }
  }

  lemma MarkIn(s: string, p: string, q: string, fragment: Option<string>)
    requires FragmentSpelled(s, p + "?" + q, fragment)
    ensures '?' in s
  {
    FragmentFlat(s, p, q, fragment);
    assert s[|p|] == '?';
  }

  lemma HashReads(s: string, p: string, fragment: Option<string>)
    ensures var h := Find(s, '#');
            s[..h] == p && fragment == (if h < |s| then Some(s[h + 1..]) else None)
            <==> '#' !in p && FragmentSpelled(s, p, fragment)
  {
    hide Find;
    FindNone(s, '#');
    FindBefore(s, '#');
    assert s[..|s|] == s;
    if fragment.Some? && '#' !in p && s == p + "#" + fragment.value {
      assert s == p + ['#'] + fragment.value;
      Cut(p, '#', fragment.value);
    }
  }

  lemma QueryTailReads(s: string, path: Option<string>, query: seq<(string, string)>, fragment: Option<string>)
    requires '?' in s
    ensures SplitTail(s) == (path, query, fragment) <==> TailSpelled(s, path, query, fragment)
  {
    hide Find, ParseQuery, QuerySpelled, FragmentSpelled;
    FindNone(s, '?');
    FindBefore(s, '?');
    if path.Some? {
      var p, rest := s[..Find(s, '?')], s[Find(s, '?') + 1..];
      QueryForth(s, p, rest, query);
      if TailSpelled(s, path, query, fragment) {
        var r :| '?' !in path.value && '#' !in r && QuerySpelled(r, query) && FragmentSpelled(s, path.value + "?" + r, fragment);
        FragmentFlat(s, path.value, r, fragment);
        OneCut(p, '?', rest, path.value, r + HashOf(fragment));
        QueryBack(rest, r, query, fragment);
      }
    }
  }

  /** What is cut out is spelled so. */
  lemma QueryForth(s: string, p: string, rest: string, query: seq<(string, string)>)
    requires s == p + ['?'] + rest
    ensures var f := Find(rest, '#');
            var q, end := rest[..f], if f < |rest| then Some(rest[f + 1..]) else None;
            '#' !in q && (ParseQuery(q) == query ==> QuerySpelled(q, query)) && FragmentSpelled(s, p + "?" + q, end)
  {
    hide Find, ParseQuery, QuerySpelled;
    var f := Find(rest, '#');
    FindBefore(rest, '#');
    FindNone(rest, '#');
    QueryReads(rest[..f], query);
    assert rest[..|rest|] == rest;
  }

  /** What is spelled so is cut out. */
  lemma QueryBack(rest: string, q: string, query: seq<(string, string)>, fragment: Option<string>)
    requires '#' !in q && QuerySpelled(q, query) && rest == q + HashOf(fragment)
    ensures var f := Find(rest, '#');
            ParseQuery(rest[..f]) == query && fragment == if f < |rest| then Some(rest[f + 1..]) else None
  {
    hide Find, ParseQuery, QuerySpelled;
    QueryReads(q, query);
    HashReads(rest, q, fragment);
  }

  lemma FragmentFlat(s: string, p: string, q: string, f: Option<string>)
    ensures FragmentSpelled(s, p + "?" + q, f) <==> s == p + ['?'] + (q + HashOf(f))
  {
    match f {
      case None =>
      case Some(t) => assert p + "?" + q + "#" + t == p + ['?'] + (q + ("#" + t));
    }
  }

  function HashOf(f: Option<string>): string {
    match f
    case None => ""
    case Some(t) => "#" + t
  }

  // ---------------------------------------------------------------- the whole text

  /** url_parse reads f from a text if and only if the text is spelled as the grammar says. */
  lemma ReadsIff(s: string, f: UrlField)
    ensures UrlParse(s) == Some(f) <==> Spelled(s, f)
  {
    hide SplitSchema, SplitUser, SplitHost, SplitTail, UserSpelled, HostSpelled, TailSpelled;
    if Spelled(s, f) {
      var authority, rest, tail :| SpelledAs(s, f, authority, rest, tail);
      SpelledReads(s, f, authority, rest, tail);
    }
    if UrlParse(s) == Some(f) {
      ReadsSpelled(s, f);
    }
  }

  function UserOf(f: UrlField): Option<(string, string)> {
    if f.username.Some? && f.password.Some? then Some((f.username.value, f.password.value)) else None
  }

  lemma SpelledReads(s: string, f: UrlField, authority: string, rest: string, tail: string)
    requires SpelledAs(s, f, authority, rest, tail)
    ensures UrlParse(s) == Some(f)
  {
    hide SplitSchema, SplitUser, SplitHost, SplitTail, UserSpelled, HostSpelled, TailSpelled;
    SchemaReads(s, f.schema, authority);
    UserReads(authority, UserOf(f), rest);
    HostReads(rest, f.host, f.port, tail);
    TailReads(tail, f.path, f.query, f.fragment);
  }

  lemma ReadsSpelled(s: string, f: UrlField)
    requires UrlParse(s) == Some(f)
    ensures Spelled(s, f)
  {
    hide SplitSchema, SplitUser, SplitHost, SplitTail, UserSpelled, HostSpelled, TailSpelled;
    var authority := SplitSchema(s).value.1;
    var rest := SplitUser(authority).value.1;
    var tail := SplitHost(rest).value.2;
    SchemaReads(s, f.schema, authority);
    UserReads(authority, UserOf(f), rest);
    HostReads(rest, f.host, f.port, tail);
    TailReads(tail, f.path, f.query, f.fragment);
    assert SpelledAs(s, f, authority, rest, tail);
  }
}
