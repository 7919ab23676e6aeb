/**
 The round trip of TinyURL: part by part, then as a whole, and exactly when it holds.
 */
module UrlTheorem {
  import opened Options
  import opened UrlModel
  import opened UrlRound

  // ---------------------------------------------------------------- path, query and fragment

  function TailOf(s: string): (string, map<string, string>, string) {
    var (path, query, fragment) := SplitTail(s);
    (Or(path), MapOf(query), Or(fragment))
  }

  predicate TailGood(u: Url) {
    && '?' !in u.path
    && (u.query == map[] ==> '#' !in u.path && '?' !in u.fragment)
    && Delimited(u.query) && QueryFree(u.query, '#')
  }

  lemma TailBack(u: Url)
    requires TailGood(u)
    ensures TailOf(TailPart(u)) == (u.path, u.query, u.fragment)
  {
    if u.query == map[] {
      PlainTailBack(u);
    } else {
      QueryTailBack(u);
    }
  }

  lemma SplitAtQuery(path: string, rest: string)
    requires '?' !in path
    ensures var f := Find(rest, '#');
            TailOf(path + ['?'] + rest) == (path, MapOf(ParseQuery(rest[..f])), if f < |rest| then rest[f + 1..] else "")
  {
    hide ParseQuery, MapOf, Find;
    Cut(path, '?', rest);
  }

  lemma QueryTailBack(u: Url)
    requires u.query != map[] && TailGood(u)
    ensures TailOf(TailPart(u)) == (u.path, u.query, u.fragment)
  {
    hide Pairs, ParseQuery, MapOf, Find, FragmentPart, QueryFree, Delimited, TailOf;
    var rest := Pairs(u.query) + FragmentPart(u.fragment);
    assert TailPart(u) == u.path + ['?'] + rest;
    SplitAtQuery(u.path, rest);
    PairsFree(u.query, '#');
    HashBack(Pairs(u.query), u.fragment);
    ParsePairs(u.query);
  }

  /** The text in front of a printed fragment, and the fragment, are found again. */
  lemma HashBack(a: string, fragment: string)
    requires '#' !in a
    ensures var s := a + FragmentPart(fragment); var f := Find(s, '#');
            s[..f] == a && (if f < |s| then s[f + 1..] else "") == fragment
  {
    var s := a + FragmentPart(fragment);
    FindNone(a, '#');
    if fragment != [] {
      assert s == a + ['#'] + fragment;
      FindAt(a, '#', fragment);
    }
  }

  lemma PlainTailBack(u: Url)
    requires u.query == map[] && TailGood(u)
    ensures TailOf(TailPart(u)) == (u.path, u.query, u.fragment)
  {
    var s := TailPart(u);
    assert s == u.path + FragmentPart(u.fragment);
    assert '?' !in s;
    FindNone(s, '?');
    HashBack(u.path, u.fragment);
  }

  lemma TailForth(u: Url)
    requires TailOf(TailPart(u)) == (u.path, u.query, u.fragment)
    ensures TailGood(u)
  {
    var s := TailPart(u);
    var q, h := Find(s, '?'), Find(s, '#');
    FindBefore(s, '?');
    FindBefore(s, '#');
    if q < |s| {
      var rest := s[q + 1..];
      var f := Find(rest, '#');
      FindBefore(rest, '#');
      QueryOk(rest[..f], '#');
      assert u.path == s[..q];
      assert u.query == map[] ==> s == u.path + FragmentPart(u.fragment);
    } else {
      assert u.query == map[];
      assert s == u.path + FragmentPart(u.fragment);
      FindNone(s, '?');
      if u.fragment != [] {
        assert s[|u.path| + 1..] == u.fragment;
      }
    }
  }

  // ---------------------------------------------------------------- host and port

  function PortOf(port: Option<string>): int {
    if port.Some? then Atol(port.value) else 0
  }

  predicate HostGood(u: Url) {
    ':' !in u.host && '/' !in u.host && (u.host == [] || u.host[0] != '[') && u.port >= 0
  }

  lemma HostFlat(host: string, digits: string, tail: string)
    ensures host + (":" + digits) + "/" + tail == host + [':'] + (digits + ['/'] + tail)
    ensures host + "" + "/" + tail == host + ['/'] + tail
  {
  }

  lemma HostBack(u: Url)
    requires HostGood(u) && u.port < 0x8000_0000
    ensures var r := SplitHost(HostPart(u));
            r.Some? && r.value.0 == u.host && PortOf(r.value.1) == u.port && r.value.2 == TailPart(u)
  {
    hide Find, TailPart, Atol, Decimal, SplitHost;
    HostFlat(u.host, Decimal(u.port), TailPart(u));
    if u.port > 0 {
      PortBack(u.host, Decimal(u.port), TailPart(u));
      AtolDecimal(u.port);
    } else {
      NoPortBack(u.host, TailPart(u));
    }
  }

  lemma NoPortBack(host: string, tail: string)
    requires ':' !in host && '/' !in host && (host == [] || host[0] != '[')
    ensures SplitHost(host + ['/'] + tail) == Some((host, None, tail))
  {
    hide Find;
    var s := host + ['/'] + tail;
    assert s[0] == if host == [] then '/' else host[0];
    FindAt(host, '/', tail);
    SlashAfter(host, s, ':');
    assert s[..|host|] == host && s[|host| + 1..] == tail;
  }

  lemma PortBack(host: string, digits: string, tail: string)
    requires ':' !in host && '/' !in host && (host == [] || host[0] != '[')
    requires forall c | c in digits :: IsDigit(c)
    ensures SplitHost(host + [':'] + (digits + ['/'] + tail)) == Some((host, Some(digits), tail))
  {
    hide Find;
    var rest := digits + ['/'] + tail;
    var s := host + [':'] + rest;
    assert s[0] == if host == [] then ':' else host[0];
    FindAt(host, ':', rest);
    SlashAfter(host, s, '/');
    FindAt(digits, '/', tail);
    assert s[..|host|] == host && s[|host| + 1..] == rest;
    assert rest[..|digits|] == digits && rest[|digits| + 1..] == tail;
  }

  lemma SlashAfter(host: string, s: string, c: char)
    requires host < s && s[|host|] != c && c !in host
    ensures Find(s, c) > |host|
  {
    assert forall i | 0 <= i < |host| :: s[i] == host[i];
  }

  /** A printed host that starts with '[' is never read back: the bracket would be dropped. */
  lemma NoBracket(u: Url)
    requires u.host != [] && u.host[0] == '['
    ensures var r := SplitHost(HostPart(u)); r.Some? ==> r.value.0 != u.host
  {
    var s := HostPart(u);
    var r := SplitHost(s);
    assert s[|u.host|] == if u.port > 0 then ':' else '/';
    if r.Some? && r.value.0 == u.host {
      assert u.host == s[1..][..|u.host|];
      forall k | 0 <= k <= |u.host| ensures s[k] == '[' {
        AllBrackets(u.host, s, k);
      }
    }
  }

  lemma {:induction false} AllBrackets(host: string, s: string, k: nat)
    requires k <= |host| < |s| && s[0] == '[' && host == s[..|host|] && host == s[1..|host| + 1]
    ensures s[k] == '['
  {
    if k > 0 {
      AllBrackets(host, s, k - 1);
      assert host[k - 1] == s[k - 1] && host[k - 1] == s[k];
    }
  }

  lemma HostForth(u: Url)
    requires -0x8000_0000 <= u.port
    requires var r := SplitHost(HostPart(u)); r.Some? && r.value.0 == u.host && PortOf(r.value.1) == u.port
    ensures HostGood(u)
  {
    var s := HostPart(u);
    if u.host != [] && u.host[0] == '[' {
      NoBracket(u);
    }
    assert s[0] == if u.host != [] then u.host[0] else if u.port > 0 then ':' else '/';
    var colon, slash := Find(s, ':'), Find(s, '/');
    FindBefore(s, ':');
    FindBefore(s, '/');
    PlainHost(s);
  }

  lemma PlainHost(s: string)
    requires s != [] && s[0] != '['
    ensures var r := SplitHost(s); r.Some? && ':' !in r.value.0 && '/' !in r.value.0
  {
  }

  // ---------------------------------------------------------------- user info

  lemma UserBack(username: string, password: string, rest: string)
    requires ':' !in username && '@' !in password
    ensures SplitUser(username + ":" + password + "@" + rest) == Some((Some((username, password)), rest))
  {
    hide Find;
    var s, t := username + ":" + password + "@" + rest, password + "@" + rest;
    assert s == username + [':'] + t && t == password + ['@'] + rest;
    FindAt(username, ':', t);
    FindAt(password, '@', rest);
    assert s[..|username|] == username && s[|username| + 1..] == t;
    assert t[..|password|] == password && t[|password| + 1..] == rest;
    FindNone(s, '@');
    assert s[|username| + 1 + |password|] == '@';
  }

  lemma UserNone(s: string)
    requires '@' !in s
    ensures SplitUser(s) == Some((None, s))
  {
    FindNone(s, '@');
  }

  /** SplitUser cuts, it drops nothing but the two delimiters. */
  lemma UserCuts(s: string)
    ensures var r := SplitUser(s);
            r.Some? ==> match r.value.0
              case None => r.value.1 == s && '@' !in s
              case Some((name, word)) =>
                s == name + ":" + word + "@" + r.value.1 && ':' !in name && '@' !in word
  {
    hide Find;
    FindNone(s, '@');
    var i := Find(s, ':');
    if Find(s, '@') < |s| && i < |s| {
      var t := s[i + 1..];
      var j := Find(t, '@');
      FindBefore(s, ':');
      FindBefore(t, '@');
      if j < |t| {
        assert s == s[..i] + [':'] + (t[..j] + ['@'] + t[j + 1..]);
        UserFlat(s[..i], t[..j], t[j + 1..]);
      }
    }
  }

  lemma UserFlat(name: string, word: string, rest: string)
    ensures name + [':'] + (word + ['@'] + rest) == name + ":" + word + "@" + rest
  {
  }

  // ---------------------------------------------------------------- what is parsed prints short

  lemma TailShort(s: string, u: Url)
    requires TailOf(s) == (u.path, u.query, u.fragment)
    ensures |TailPart(u)| <= if s == [] then 0 else |s| + 1
  {
    var q := Find(s, '?');
    if q < |s| {
      QueryShort(s[q + 1..][..Find(s[q + 1..], '#')]);
    }
  }

  lemma HostShort(s: string, u: Url)
    requires var r := SplitHost(s); r.Some? && r.value.0 == u.host && PortOf(r.value.1) == u.port
                                    && TailOf(r.value.2) == (u.path, u.query, u.fragment)
    ensures |HostPart(u)| <= |s| + 1
  {
    hide Find, SplitTail, MapOf, Pairs, Atol, Decimal;
    var (host, port, tail) := SplitHost(s).value;
    TailShort(tail, u);
    if u.port > 0 {
      PortShort(port.value);
    }
  }

  // ---------------------------------------------------------------- a character the text lacks

  lemma NoQuery(c: char)
    ensures QueryFree(MapOf([]), c)
  {
  }

  lemma TailFree(s: string, c: char)
    requires c !in s
    ensures var (path, query, fragment) := TailOf(s); c !in path && QueryFree(query, c) && c !in fragment
  {
    hide Find, ParseQuery, MapOf, QueryFree;
    var q := Find(s, '?');
    NoQuery(c);
    if q < |s| {
      QueryOk(s[q + 1..][..Find(s[q + 1..], '#')], c);
    }
  }

  lemma HostFree(s: string, c: char)
    requires c !in s && SplitHost(s).Some?
    ensures c !in SplitHost(s).value.0 && c !in SplitHost(s).value.2
  {
    hide Find;
  }

  // ---------------------------------------------------------------- the whole

  /** What parse makes of the text behind user info, host for host and tail for tail. */
  predicate RestIs(s: string, u: Url) {
    var r := SplitHost(s);
    r.Some? && r.value.0 == u.host && PortOf(r.value.1) == u.port
    && TailOf(r.value.2) == (u.path, u.query, u.fragment)
  }

  predicate UserIs(user: Option<(string, string)>, u: Url) {
    if user.Some? then user.value == (u.username, u.password) else u.username == [] && u.password == []
  }

  /** parse, seen as a condition on its result. */
  lemma ParseIs(text: string, u: Url)
    ensures Parse(text) == Some(u) <==>
              var a := SplitSchema(CStr(text));
              a.Some? && a.value.0 == u.schema && SplitUser(a.value.1).Some?
              && UserIs(SplitUser(a.value.1).value.0, u) && RestIs(SplitUser(a.value.1).value.1, u)
  {
    hide CStr, SplitSchema, SplitUser, SplitHost, SplitTail, Atol, MapOf;
  }

  lemma SchemaBack(schema: string, rest: string)
    requires ':' !in schema
    ensures SplitSchema(schema + "://" + rest) == Some((schema, rest))
  {
    hide Find;
    var s := schema + "://" + rest;
    assert s == schema + [':'] + ("//" + rest);
    FindAt(schema, ':', "//" + rest);
    assert s[..|schema|] == schema && s[|schema| + 3..] == rest;
  }

  lemma SchemaCuts(s: string)
    requires SplitSchema(s).Some?
    ensures var (schema, rest) := SplitSchema(s).value; s == schema + "://" + rest && ':' !in schema
  {
    hide Find;
    FindBefore(s, ':');
  }

  /** The rest of a printed URL is read back exactly when host, port and tail are good. */
  lemma RestIff(u: Url)
    requires -0x8000_0000 <= u.port < 0x8000_0000
    ensures RestIs(HostPart(u), u) <==> HostGood(u) && TailGood(u)
  {
    hide HostPart, TailPart, HostGood, TailGood, SplitHost, TailOf, PortOf;
    if HostGood(u) {
      HostBack(u);
      if TailGood(u) {
        TailBack(u);
      }
    }
    if RestIs(HostPart(u), u) {
      HostForth(u);
      HostBack(u);
      TailForth(u);
    }
  }

  ghost predicate UserGood(u: Url) {
    if u.username == [] || u.password == [] then u.username == u.password && '@' !in HostPart(u)
    else ':' !in u.username && '@' !in u.password
  }

  lemma UserForth(u: Url)
    requires var r := SplitUser(UserPart(u) + HostPart(u));
             r.Some? && UserIs(r.value.0, u) && RestIs(r.value.1, u)
    ensures UserGood(u)
  {
    hide SplitUser, HostPart, RestIs;
    var s := UserPart(u) + HostPart(u);
    var (user, rest) := SplitUser(s).value;
    UserCuts(s);
    if user.Some? && UserPart(u) == [] {
      // '@' was read from host or tail: but then what was read is too short to print as long as s
      assert s == HostPart(u);
      RestShort(rest, u);
    } else if UserPart(u) == [] {
      assert s == HostPart(u);
    }
  }

  lemma RestShort(s: string, u: Url)
    requires RestIs(s, u)
    ensures |HostPart(u)| <= |s| + 1
  {
    hide SplitHost, TailOf, PortOf, HostPart;
    HostShort(s, u);
  }

  lemma UserIff(u: Url)
    requires -0x8000_0000 <= u.port < 0x8000_0000
    ensures (var r := SplitUser(UserPart(u) + HostPart(u));
             r.Some? && UserIs(r.value.0, u) && RestIs(r.value.1, u))
            <==> UserGood(u) && HostGood(u) && TailGood(u)
  {
    hide SplitUser, HostPart, RestIs, HostGood, TailGood;
    var s := UserPart(u) + HostPart(u);
    RestIff(u);
    if UserGood(u) {
      if UserPart(u) == [] {
        assert s == HostPart(u);
        UserNone(s);
      } else {
        UserBack(u.username, u.password, HostPart(u));
      }
    }
    if SplitUser(s).Some? && UserIs(SplitUser(s).value.0, u) && RestIs(SplitUser(s).value.1, u) {
      UserForth(u);
    }
  }

  // ---------------------------------------------------------------- NUL

  lemma PrintedFree(u: Url, c: char)
    requires c !in u.schema && c !in u.username && c !in u.password && Free(u, c)
    requires c !in "=&?#:/@" && !IsDigit(c)
    ensures c !in Make(u)
  {
    hide Pairs, Decimal, QueryFree;
    PairsFree(u.query, c);
  }

  /** Host, path, query and fragment are all in the text, so what the text lacks they lack. */
  lemma HostPartFree(u: Url, c: char)
    requires c !in "=&?#:/" && !IsDigit(c)
    ensures c !in HostPart(u) <==> Free(u, c)
  {
    hide Pairs, Decimal, QueryFree;
    PairsFree(u.query, c);
    QueryFreeIs(u.query, c);
    assert HostPart(u) == u.host + (PortPart(u.port) + "/") + u.path + QueryPart(u.query) + FragmentPart(u.fragment);
  }

  lemma ParsedFree(text: string, u: Url)
    requires Parse(text) == Some(u)
    ensures '\0' !in u.schema && '\0' !in u.username && '\0' !in u.password && Free(u, '\0')
  {
    hide CStr, SplitSchema, SplitUser, SplitHost, TailOf, PortOf, Parse, QueryFree;
    var s := CStr(text);
    CStrIs(text);
    ParseIs(text, u);
    SchemaCuts(s);
    var s1 := SplitSchema(s).value.1;
    UserCuts(s1);
    var s2 := SplitUser(s1).value.1;
    HostFree(s2, '\0');
    TailFree(SplitHost(s2).value.2, '\0');
  }

  lemma WellFormedIs(u: Url)
    ensures WellFormed(u) <==>
              '\0' !in u.schema && '\0' !in u.username && '\0' !in u.password && Free(u, '\0')
              && ':' !in u.schema && UserGood(u) && HostGood(u) && TailGood(u)
  {
    hide QueryFree, HostPart;
    HostPartFree(u, '@');
    assert (forall k | k in u.query :: '#' !in k && '#' !in u.query[k]) <==> QueryFree(u.query, '#') by {
      QueryFreeIs(u.query, '#');
    }
  }

  lemma QueryFreeIs(query: map<string, string>, c: char)
    ensures QueryFree(query, c) <==> forall k | k in query :: c !in k && c !in query[k]
  {
  }

  /**
   The round trip, and its exact domain: parse gives back what make printed if and only if u is
   well-formed.
   */
  lemma RoundTrip(u: Url)
    requires -0x8000_0000 <= u.port < 0x8000_0000
    ensures Parse(Make(u)) == Some(u) <==> WellFormed(u)
  {
    hide CStr, SplitSchema, SplitUser, RestIs, UserPart, HostPart, Free, WellFormed, UserGood, HostGood, TailGood, Parse;
    var s, rest := Make(u), UserPart(u) + HostPart(u);
    assert s == u.schema + "://" + rest;
    WellFormedIs(u);
    UserIff(u);
    ParseIs(s, u);
    CStrIs(s);
    if Parse(s) == Some(u) {
      ParsedFree(s, u);
      SchemaCuts(CStr(s));
    }
    if '\0' !in u.schema && '\0' !in u.username && '\0' !in u.password && Free(u, '\0') {
      PrintedFree(u, '\0');
    }
    if ':' !in u.schema {
      SchemaBack(u.schema, rest);
    }
  }
}
