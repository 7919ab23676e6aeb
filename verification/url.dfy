/**
 common/url.cpp in its own form: url_parse walking over the text and filling in a url_field_t,
 and class TinyURL. Each method is proved to do what UrlModel says.
 */
module UrlClass {
  import opened Options
  import opened UrlModel
  import opened UrlRound

  /** url_field_t; None is a null pointer. */
  class UrlRecord {
    var schema: string
    var username: Option<string>
    var password: Option<string>
    var host: string
    var port: Option<string>
    var path: Option<string>
    var query: seq<(string, string)>
    var fragment: Option<string>

    constructor ()
      ensures Fields() == UrlField("", None, None, "", None, None, [], None)
    {
      schema, username, password, host := "", None, None, "";
      port, path, query, fragment := None, None, [], None;
    }

    ghost function Fields(): UrlField
      reads this
    {
      UrlField(schema, username, password, host, port, path, query, fragment)
    }

    /** parse_query: appends one entry per name=value pair. */
    method ReadQuery(text: string)
      modifies this`query
      ensures query == old(query) + ParseQuery(text)
    {
      hide Find, ParseQuery;
      var rest := text;
      var chr := Find(rest, '=');
      assert query + ParseQuery(rest) == old(query) + ParseQuery(text);
      while chr < |rest|
        invariant chr == Find(rest, '=')
        invariant query + ParseQuery(rest) == old(query) + ParseQuery(text)
        decreases |rest|
      {
        var name := rest[..chr];
        ParseFirst(rest);
        ghost var before := rest;
        rest := rest[chr + 1..];
        chr := Find(rest, '&');
        if chr < |rest| {
          assert ParseQuery(before) == [(name, rest[..chr])] + ParseQuery(rest[chr + 1..]);
          query := query + [(name, rest[..chr])];
          rest := rest[chr + 1..];
          chr := Find(rest, '=');
        } else {
          query := query + [(name, rest)];
          return;
        }
      }
      ParseFirst(rest);
    }

    /** schema:// */
    method ReadSchema(s: string) returns (ok: bool, rest: string)
      modifies this`schema
      ensures var r := SplitSchema(s); ok == r.Some? && (ok ==> (schema, rest) == r.value)
    {
      var pch := Find(s, ':');
      rest := "";
      ok := pch + 2 < |s| && s[pch + 1] == '/' && s[pch + 2] == '/';
      if ok {
        schema := s[..pch];
        rest := s[pch + 3..];
      }
    }

    /** username:password@ */
    method ReadUser(s: string) returns (ok: bool, rest: string)
      modifies this`username, this`password
      ensures ok == SplitUser(s).Some?
      ensures ok ==> rest == SplitUser(s).value.1
      ensures ok ==> match SplitUser(s).value.0
              case None => username == old(username) && password == old(password)
              case Some((name, word)) => username == Some(name) && password == Some(word)
    {
      ok, rest := true, s;
      var pch := Find(s, '@');
      if pch < |s| {
        pch := Find(s, ':');
        if pch == |s| {
          return false, "";
        }
        username := Some(s[..pch]);
        rest := s[pch + 1..];
        pch := Find(rest, '@');
        if pch == |rest| {
          return false, "";
        }
        password := Some(rest[..pch]);
        rest := rest[pch + 1..];
      }
    }

    /** The port behind a colon. */
    method ReadPort(s: string) returns (rest: string)
      modifies this`port
      ensures port == Some(SplitPort(s).0) && rest == SplitPort(s).1
    {
      var pch := Find(s, '/');
      assert s[..|s|] == s;
      if pch < |s| {
        port := Some(s[..pch]);
        rest := s[pch + 1..];
      } else {
        port := Some(s);
        rest := "";
      }
    }

    /** host:port/ or [host]:port/ */
    method ReadHost(s: string) returns (ok: bool, rest: string)
      requires port == None
      modifies this`host, this`port
      ensures var r := SplitHost(s); ok == r.Some? && (ok ==> (host, port, rest) == r.value)
    {
      ok, rest := true, s;
      if s != [] && s[0] == '[' {
        rest := s[1..];
        var pch := Find(rest, ']');
        if pch == |rest| {
          return false, "";
        }
        host := rest[..pch];
        rest := rest[pch + 1..];
        if rest != [] && rest[0] == ':' {
          rest := ReadPort(rest[1..]);
        }
      } else {
        var pch, slash := Find(s, ':'), Find(s, '/');
        assert s[..|s|] == s;
        if pch < slash {
          host := s[..pch];
          rest := ReadPort(s[pch + 1..]);
        } else if slash < |s| {
          host := s[..slash];
          rest := s[slash + 1..];
        } else {
          host := s;
          rest := "";
        }
      }
    }

    /** path?query#fragment */
    method ReadTail(s: string)
      requires path == None && query == [] && fragment == None
      modifies this`path, this`query, this`fragment
      ensures (path, query, fragment) == SplitTail(s)
    {
      hide Find, ParseQuery;
      if s != [] {
        assert s[..|s|] == s;
        var pch := Find(s, '?');
        if pch < |s| {
          path := Some(s[..pch]);
          var rest := s[pch + 1..];
          pch := Find(rest, '#');
          var text := rest[..pch];
          if pch < |rest| {
            fragment := Some(rest[pch + 1..]);
          }
          ReadQuery(text);
          assert query == ParseQuery(text);
        } else {
          pch := Find(s, '#');
          path := Some(s[..pch]);
          if pch < |s| {
            fragment := Some(s[pch + 1..]);
          }
        }
      }
    }
  }

  /** url_parse: null if schema, user info or host cannot be read. */
  method ReadUrl(s: string) returns (url: UrlRecord?)
    ensures (url != null) == UrlParse(s).Some?
    ensures url != null ==> fresh(url) && url.Fields() == UrlParse(s).value
  {
    hide SplitSchema, SplitUser, SplitHost, SplitTail;
    var record := new UrlRecord();
    url := null;
    var ok, rest := record.ReadSchema(s);
    if ok {
      ok, rest := record.ReadUser(rest);
      if ok {
        ok, rest := record.ReadHost(rest);
        if ok {
          record.ReadTail(rest);
          url := record;
        }
      }
    }
  }

  /** One turn of the loop in TinyURL::parse. */
  lemma MapSnoc(ps: seq<(string, string)>, i: nat)
    ensures MapOf(ps[..0]) == map[]
    ensures i < |ps| ==> MapOf(ps[..i + 1]) == MapOf(ps[..i])[ps[i].0 := ps[i].1]
  {
    assert i < |ps| ==> ps[..i + 1][..i] == ps[..i];
  }

  class TinyURL {
    var schema: string
    var username: string
    var password: string
    var host: string
    var port: int
    var path: string
    var query: map<string, string>
    var fragment: string

    ghost function Value(): Url
      reads this
    {
      Url(schema, username, password, host, port, path, query, fragment)
    }

    constructor ()
      ensures Value() == Url("", "", "", "", 0, "", map[], "")
    {
      schema, username, password, host, port, path, query, fragment := "", "", "", "", 0, "", map[], "";
    }

    method Reset()
      modifies this
      ensures Value() == Url("", "", "", "", 0, "", map[], "")
    {
      schema, username, password, host, port, path, query, fragment := "", "", "", "", 0, "", map[], "";
    }

    /** parse: on failure the object is left empty. */
    method ReadFrom(text: string) returns (ok: bool)
      modifies this
      ensures ok == Parse(text).Some?
      ensures Value() == if ok then Parse(text).value else Url("", "", "", "", 0, "", map[], "")
    {
      hide UrlParse, CStr, Atol, MapOf;
      Reset();
      var url := ReadUrl(CStr(text));
      if url == null {
        return false;
      }
      schema, username, password, host := url.schema, Or(url.username), Or(url.password), url.host;
      if url.port.Some? {
        port := Atol(url.port.value);
      }
      path, fragment := Or(url.path), Or(url.fragment);
      var i := 0;
      MapSnoc(url.query, 0);
      while i < |url.query|
        invariant 0 <= i <= |url.query|
        invariant query == MapOf(url.query[..i])
        modifies `query
      {
        MapSnoc(url.query, i);
        query := query[url.query[i].0 := url.query[i].1];
        i := i + 1;
      }
      assert url.query[..|url.query|] == url.query;
      assert Value() == UrlOf(url.Fields());
      return true;
    }

    /** make up to the path. */
    method PrintFront() returns (text: string)
      ensures text == schema + "://" + UserPart(Value()) + host + PortPart(port) + "/" + path
    {
      hide Decimal, UserPart, PortPart;
      PartsAre(Value());
      text := schema + "://";
      if |username| > 0 && |password| > 0 {
        text := text + username + ":" + password + "@";
        Joined4(schema + "://", username, ":", password, "@");
      }
      assert text == schema + "://" + UserPart(Value());
      text := text + host;
      ghost var before := text;
      if port > 0 {
        text := text + ":" + Decimal(port);
      }
      assert text == before + PortPart(port);
      text := text + "/";
      text := text + path;
    }

    /** make; the loop is over the map, in key order. */
    method Print() returns (text: string)
      ensures text == Make(Value())
    {
      hide Pairs, Make, UserPart, PortPart, QueryPart, FragmentPart;
      var front := PrintFront();
      text := front;
      if |query| > 0 {
        text := text + "?";
      }
      var pairs := PrintQuery();
      text := text + pairs;
      QueryIs(front, query);
      if |fragment| > 0 {
        text := text + "#" + fragment;
      }
      FragmentIs(front + QueryPart(query), fragment);
      MakeFlat(Value());
    }

    /** The loop of make. */
    method PrintQuery() returns (text: string)
      ensures text == Pairs(query)
    {
      hide Pairs, Least, IsLeast;
      text := "";
      var left := query;
      assert "" + Pairs(query) == Pairs(query);
      while left != map[]
        invariant text + Pairs(left) == Pairs(query)
        decreases |left|
      {
        PairLine(text, left);
        var k := First(left.Keys);
        LessOne(left, k);
        text := text + k + "=" + left[k] + "&";
        left := left - {k};
      }
      NoPair(text);
    }
  }

  lemma QueryIs(front: string, query: map<string, string>)
    ensures front + QueryPart(query) == if |query| > 0 then front + "?" + Pairs(query) else front + Pairs(query)
  {
    hide Pairs;
    Associates(front, "?", Pairs(query));
    NoPair(front);
  }

  lemma FragmentIs(front: string, fragment: string)
    ensures front + FragmentPart(fragment) == if |fragment| > 0 then front + "#" + fragment else front
  {
  }

  lemma NoPair(text: string)
    ensures text + Pairs(map[]) == text
  {
  }

  lemma Joined4(a: string, b: string, c: string, d: string, e: string)
    ensures a + b + c + d + e == a + (b + c + d + e)
  {
  }

  lemma PairLine(text: string, left: map<string, string>)
    requires left != map[]
    ensures var k := Least(left.Keys);
            k in left && (text + k + "=" + left[k] + "&") + Pairs(left - {k}) == text + Pairs(left)
  {
    hide Pairs, Pair, Least, IsLeast;
    PairsNext(left);
    var k := Least(left.Keys);
    PairIs(text, k, left[k]);
    Associates(text, Pair(k, left[k]), Pairs(left - {k}));
  }

  lemma PairIs(text: string, k: string, v: string)
    ensures text + k + "=" + v + "&" == text + Pair(k, v)
  {
  }

  lemma MakeFlat(u: Url)
    ensures Make(u) == u.schema + "://" + UserPart(u) + u.host + PortPart(u.port) + "/" + u.path
                       + QueryPart(u.query) + FragmentPart(u.fragment)
  {
    hide Pairs, Decimal, UserPart, PortPart, QueryPart, FragmentPart;
  }

  lemma PartsAre(u: Url)
    ensures UserPart(u) == if |u.username| > 0 && |u.password| > 0 then u.username + ":" + u.password + "@" else ""
    ensures PortPart(u.port) == if u.port > 0 then ":" + Decimal(u.port) else ""
    ensures QueryPart(u.query) == (if |u.query| > 0 then "?" else "") + Pairs(u.query)
    ensures FragmentPart(u.fragment) == if |u.fragment| > 0 then "#" + u.fragment else ""
  {
    hide Decimal;
  }

  /** std::map::begin: the least key. */
  method First(ks: set<string>) returns (k: string)
    requires ks != {}
    ensures k == Least(ks)
  {
    LeastExists(ks);
    k :| IsLeast(ks, k);
    LeastUnique(ks, k, Least(ks));
  }
}
