/** vecToStr and strToVec of common/redis.cpp. */
module Split {

  /** vecToStr: the delimiter between the elements. */
  function Joined(v: seq<string>, d: char): string
    requires v != []
  {
    if |v| == 1 then v[0] else v[0] + [d] + Joined(v[1..], d)
  }

  /** The part up to the first delimiter, and the parts behind it. */
  function Parts(s: string, d: char): (v: seq<string>)
    ensures v != []
  {
    if s == [] then [""]
    else if s[0] == d then [""] + Parts(s[1..], d)
    else
      var rest := Parts(s[1..], d);
      [[s[0]] + rest[0]] + rest[1..]
  }

  lemma PartsEnd(s: string, d: char)
    requires d !in s
    ensures Parts(s, d) == [s]
  {
    if s != [] {
      PartsEnd(s[1..], d);
      assert s == [s[0]] + s[1..];
    }
  }

  lemma {:induction false} PartsFirst(x: string, d: char, rest: string)
    requires d !in x
    ensures Parts(x + [d] + rest, d) == [x] + Parts(rest, d)
  {
    var s := x + [d] + rest;
    if x == [] {
      assert s[1..] == rest;
    } else {
      assert s[1..] == x[1..] + [d] + rest;
      PartsFirst(x[1..], d, rest);
      assert [x[0]] + x[1..] == x;
    }
  }

  lemma JoinedFirst(c: char, v: seq<string>, d: char)
    requires v != []
    ensures Joined([[c] + v[0]] + v[1..], d) == [c] + Joined(v, d)
  {
    var w := [[c] + v[0]] + v[1..];
    assert w[1..] == v[1..];
    assert |v| > 1 ==> [c] + v[0] + [d] + Joined(v[1..], d) == [c] + (v[0] + [d] + Joined(v[1..], d));
  }

  /** Splitting and joining gives back every text. */
  lemma {:induction false} JoinSplit(s: string, d: char)
    ensures Joined(Parts(s, d), d) == s
  {
    if s != [] {
      var rest := Parts(s[1..], d);
      JoinSplit(s[1..], d);
      if s[0] == d {
        assert ([""] + rest)[1..] == rest;
      } else {
        JoinedFirst(s[0], rest, d);
      }
    }
  }

  /** Joining and splitting gives back a list exactly if no element has the delimiter. */
  lemma {:induction false} SplitJoin(v: seq<string>, d: char)
    requires v != []
    ensures Parts(Joined(v, d), d) == v <==> forall x | x in v :: d !in x
  {
    PartsFree(Joined(v, d), d);
    if forall x | x in v :: d !in x {
      SplitJoined(v, d);
    }
  }

  lemma {:induction false} SplitJoined(v: seq<string>, d: char)
    requires v != [] && forall x | x in v :: d !in x
    ensures Parts(Joined(v, d), d) == v
  {
    if |v| == 1 {
      PartsEnd(v[0], d);
    } else {
      PartsFirst(v[0], d, Joined(v[1..], d));
      SplitJoined(v[1..], d);
    }
  }

  /** No part has the delimiter. */
  lemma {:induction false} PartsFree(s: string, d: char)
    ensures forall x | x in Parts(s, d) :: d !in x
  {
    if s != [] {
      PartsFree(s[1..], d);
    }
  }

  function Count(s: string, d: char): nat {
    if s == [] then 0 else (if s[0] == d then 1 else 0) + Count(s[1..], d)
  }

  /** In text order: part k stands behind k delimiters and in front of the next one or the end. */
  lemma {:induction false} PartAt(s: string, d: char, k: nat) returns (front: string, back: string)
    requires k < |Parts(s, d)|
    ensures s == front + Parts(s, d)[k] + back && d !in Parts(s, d)[k]
    ensures Count(front, d) == k && (front != "" ==> front[|front| - 1] == d) && (back != "" ==> back[0] == d)
    ensures |Parts(s, d)| == Count(s, d) + 1
  {
    PartsFree(s, d);
    if s == [] {
      front, back := "", "";
    } else {
      var rest := Parts(s[1..], d);
      if s[0] == d {
        front, back := PartAt(s[1..], d, if k == 0 then 0 else k - 1);
        if k == 0 {
          front, back := "", s;
        } else {
          front := [d] + front;
          assert front[1..] + rest[k - 1] + back == s[1..];
        }
      } else {
        front, back := PartAt(s[1..], d, k);
        if front != "" {
          EndCounts(front, d);
        }
        if k > 0 {
          front := [s[0]] + front;
          assert front[1..] + rest[k] + back == s[1..];
        }
      }
    }
  }

  /** What ends with d has one. */
  lemma {:induction false} EndCounts(front: string, d: char)
    requires front != "" && front[|front| - 1] == d
    ensures Count(front, d) > 0
  {
    if |front| > 1 {
      EndCounts(front[1..], d);
    }
  }

  /** std::string::find from a position. */
  function Find(s: string, d: char, from: nat): (i: nat)
    requires from <= |s|
    ensures from <= i <= |s| && (i < |s| ==> s[i] == d)
    ensures d !in s[from..i]
    decreases |s| - from
  {
    if from == |s| || s[from] == d then from
    else
      var i := Find(s, d, from + 1);
      assert s[from..i] == [s[from]] + s[from + 1..i];
      i
  }

  /** strToVec. */
  method StrToVec(s: string, d: char) returns (v: seq<string>)
    ensures v == Parts(s, d)
  {
    hide Parts;
    v := [];
    var last := 0;
    var next := Find(s, d, 0);
    while next < |s|
      invariant last <= |s| && next == Find(s, d, last)
      invariant v + Parts(s[last..], d) == Parts(s, d)
      decreases |s| - last
    {
      assert s[last..] == s[last..next] + [d] + s[next + 1..];
      PartsFirst(s[last..next], d, s[next + 1..]);
      v := v + [s[last..next]];
      last := next + 1;
      next := Find(s, d, last);
    }
    assert s[last..next] == s[last..];
    PartsEnd(s[last..], d);
    v := v + [s[last..]];
  }

  /** vecToStr; an empty vector would be read out of bounds. */
  method VecToStr(v: seq<string>, d: char) returns (s: string)
    requires v != []
    ensures s == Joined(v, d)
  {
    s := "";
    for i := 0 to |v| - 1
      invariant s + Joined(v[i..], d) == Joined(v, d)
    {
      assert v[i..][0] == v[i] && v[i..][1..] == v[i + 1..];
      s := s + v[i] + [d];
    }
    s := s + v[|v| - 1];
  }
}
