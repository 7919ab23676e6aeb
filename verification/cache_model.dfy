/**
 The multi-level cache of common/mycache2.in.h on values: the loop of SyncMyCache, and the chain of
 AutoGet callbacks by which AsyncMyCache does the same one level at a time.
 */
module CacheModel {
  import opened Options

  type Key = string

  type Value = string

  /** What every connected level holds; level 0 is the memory of the process and is always there. */
  type Levels = s: map<nat, map<Key, Value>> | 0 in s witness map[0 := map[]]

  const LV_GLOBAL := 2

  function MaxLevel(maxlevel: int): int {
    if maxlevel == -1 then LV_GLOBAL else maxlevel
  }

  // ---------------------------------------------------------------- one level

  function GetFrom(s: Levels, key: Key, level: nat): Option<Value> {
    if level in s && key in s[level] then Some(s[level][key]) else None
  }

  /** set_to: a level without a connection stays as it is. */
  function SetTo(s: Levels, key: Key, value: Value, level: nat): Levels {
    if level in s then s[level := s[level][key := value]] else s
  }

  function DelFrom(s: Levels, key: Key, level: nat): Levels {
    if level in s then s[level := s[level] - {key}] else s
  }

  // ---------------------------------------------------------------- SyncMyCache

  /** The first level from lv up to maxlv that has the key, or one beyond. */
  function Hit(s: Levels, key: Key, lv: nat, maxlv: int): (h: nat)
    ensures h >= lv
    ensures forall j | lv <= j < h :: GetFrom(s, key, j) == None
    ensures h <= maxlv ==> GetFrom(s, key, h).Some?
    decreases maxlv - lv
  {
    if lv > maxlv || GetFrom(s, key, lv).Some? then lv else Hit(s, key, lv + 1, maxlv)
  }

  /** get. */
  function Get(s: Levels, key: Key, maxlevel: int): Option<Value> {
    var h := Hit(s, key, 0, MaxLevel(maxlevel));
    if h <= MaxLevel(maxlevel) then GetFrom(s, key, h) else None
  }

  /** set_to on the levels from i to upto. */
  function Filled(s: Levels, key: Key, value: Value, i: nat, upto: int): Levels
    decreases upto - i
  {
    if i > upto then s else Filled(SetTo(s, key, value, i), key, value, i + 1, upto)
  }

  /** What get_and_cache leaves behind. */
  function Cached(s: Levels, key: Key, cachelv: int, maxlevel: int): Levels {
    var h := Hit(s, key, 0, MaxLevel(maxlevel));
    if 0 < h <= MaxLevel(maxlevel) then Filled(s, key, GetFrom(s, key, h).value, 0, cachelv) else s
  }

  /** del on the levels from i to maxlv. */
  function Deleted(s: Levels, key: Key, i: nat, maxlv: int): Levels
    decreases maxlv - i
  {
    if i > maxlv then s else Deleted(DelFrom(s, key, i), key, i + 1, maxlv)
  }

  // ---------------------------------------------------------------- AsyncMyCache

  /** What AutoGet makes happen: the user's callback gets its result, or a level is written. */
  datatype Effect = Result(value: Option<Value>) | Write(level: nat)

  /** One AutoGet whose level has been asked, or none. */
  datatype Chain = Asking(level: nat, effects: seq<Effect>) | Over(effects: seq<Effect>)

  function Writes(i: nat, upto: int): seq<Effect>
    decreases upto - i
  {
    if i > upto then [] else [Write(i)] + Writes(i + 1, upto)
  }

  /** AutoGet::result with what the level answered. */
  function Answered(c: Chain, answer: Option<Value>, maxlevel: int, cacheit: int): Chain
    requires c.Asking?
  {
    if answer.Some? then
      Over(c.effects + [Result(answer)] + if c.level != 0 && cacheit != -1 then Writes(0, cacheit) else [])
    else if c.level < maxlevel then Asking(c.level + 1, c.effects)
    else Over(c.effects + [Result(None)])
  }

  /** The chain after n answers, with the levels as they are. */
  function Chained(s: Levels, key: Key, c: Chain, maxlevel: int, cacheit: int, n: nat): Chain
    decreases n
  {
    if n == 0 || c.Over? then c
    else Chained(s, key, Answered(c, GetFrom(s, key, c.level), maxlevel, cacheit), maxlevel, cacheit, n - 1)
  }

  /** The levels after the writes among the effects. */
  function Applied(s: Levels, key: Key, value: Value, effects: seq<Effect>): Levels {
    if effects == [] then s
    else Applied(if effects[0].Write? then SetTo(s, key, value, effects[0].level) else s, key, value, effects[1..])
  }

  // ---------------------------------------------------------------- asynchronous is synchronous

  lemma {:induction false} ChainEnds(s: Levels, key: Key, lv: nat, maxlv: int, cacheit: int)
    requires lv <= maxlv
    ensures var h := Hit(s, key, lv, maxlv);
            var n := maxlv - lv + 1;
            Chained(s, key, Asking(lv, []), maxlv, cacheit, n)
            == Over(if h > maxlv then [Result(None)]
                    else [Result(GetFrom(s, key, h))] + if h != 0 && cacheit != -1 then Writes(0, cacheit) else [])
    decreases maxlv - lv
  {
    if GetFrom(s, key, lv).None? && lv < maxlv {
      ChainEnds(s, key, lv + 1, maxlv, cacheit);
    }
  }

  lemma {:induction false} WritesFill(s: Levels, key: Key, value: Value, i: nat, upto: int)
    ensures Applied(s, key, value, Writes(i, upto)) == Filled(s, key, value, i, upto)
    decreases upto - i
  {
    if i <= upto {
      WritesFill(SetTo(s, key, value, i), key, value, i + 1, upto);
    }
  }

  /**
   With a fixed store the chain ends after at most maxlevel + 1 answers; it delivers exactly one result,
   first, and it is the one of SyncMyCache::get; its writes are those of get_and_cache.
   */
  lemma AsyncIsSync(s: Levels, key: Key, maxlevel: int, cacheit: int)
    requires maxlevel >= -1
    ensures var maxlv := MaxLevel(maxlevel);
            var c := Chained(s, key, Asking(0, []), maxlv, cacheit, maxlv + 1);
            && c.Over? && |c.effects| > 0 && c.effects[0] == Result(Get(s, key, maxlevel))
            && (forall k | 0 < k < |c.effects| :: c.effects[k].Write?)
            && (Get(s, key, maxlevel).None? ==> |c.effects| == 1)
            && (Get(s, key, maxlevel).Some? ==>
                  Applied(s, key, Get(s, key, maxlevel).value, c.effects) == Cached(s, key, cacheit, maxlevel))
  {
    var maxlv := MaxLevel(maxlevel);
    ChainEnds(s, key, 0, maxlv, cacheit);
    OnlyWrites(0, cacheit);
    var c := Chained(s, key, Asking(0, []), maxlv, cacheit, maxlv + 1);
    if Get(s, key, maxlevel).Some? {
      WritesFill(s, key, Get(s, key, maxlevel).value, 0, cacheit);
      assert c.effects[1..] == if Hit(s, key, 0, maxlv) != 0 && cacheit != -1 then Writes(0, cacheit) else [];
    }
  }

  lemma OnlyWrites(i: nat, upto: int)
    ensures forall k | 0 <= k < |Writes(i, upto)| :: Writes(i, upto)[k].Write?
    decreases upto - i
  {
  }

  // ---------------------------------------------------------------- what the cache promises

  /** All levels that hold the key hold the same value. */
  predicate Agrees(s: Levels, key: Key) {
    forall i, j | i in s && j in s && key in s[i] && key in s[j] :: s[i][key] == s[j][key]
  }

  lemma {:induction false} FilledIs(s: Levels, key: Key, value: Value, i: nat, upto: int)
    ensures var t := Filled(s, key, value, i, upto);
            && t.Keys == s.Keys
            && forall l | l in s :: t[l] == if i <= l <= upto then s[l][key := value] else s[l]
    decreases upto - i
  {
    if i <= upto {
      FilledIs(SetTo(s, key, value, i), key, value, i + 1, upto);
    }
  }

  lemma {:induction false} DeletedIs(s: Levels, key: Key, i: nat, maxlv: int)
    ensures var t := Deleted(s, key, i, maxlv);
            && t.Keys == s.Keys
            && forall l | l in s :: t[l] == if i <= l <= maxlv then s[l] - {key} else s[l]
    decreases maxlv - i
  {
    if i <= maxlv {
      DeletedIs(DelFrom(s, key, i), key, i + 1, maxlv);
    }
  }

  /** The level of a hit is the first one, whoever says so. */
  lemma HitIs(s: Levels, key: Key, maxlv: int, l: nat)
    requires l <= maxlv && GetFrom(s, key, l).Some? && forall j | 0 <= j < l :: GetFrom(s, key, j).None?
    ensures Hit(s, key, 0, maxlv) == l
  {
    var h := Hit(s, key, 0, maxlv);
  }

  /** get_and_cache keeps agreement, for its key and for every other. */
  lemma CachingKeepsAgreement(s: Levels, key: Key, cachelv: int, maxlevel: int, other: Key)
    requires Agrees(s, other)
    ensures Agrees(Cached(s, key, cachelv, maxlevel), other)
  {
    var h := Hit(s, key, 0, MaxLevel(maxlevel));
    if 0 < h <= MaxLevel(maxlevel) {
      FilledIs(s, key, GetFrom(s, key, h).value, 0, cachelv);
    }
  }

  /** It changes the visible value of no key, at whatever depth one looks, if the key was visible there. */
  lemma CachingChangesNothing(s: Levels, key: Key, cachelv: int, maxlevel: int, other: Key, depth: int)
    requires Get(s, other, depth).Some?
    ensures Get(Cached(s, key, cachelv, maxlevel), other, depth) == Get(s, other, depth)
  {
    var h := Hit(s, key, 0, MaxLevel(maxlevel));
    if 0 < h <= MaxLevel(maxlevel) {
      var t := Cached(s, key, cachelv, maxlevel);
      FilledIs(s, key, GetFrom(s, key, h).value, 0, cachelv);
      var d := Hit(s, other, 0, MaxLevel(depth));
      if other != key {
        assert forall j: nat :: GetFrom(t, other, j) == GetFrom(s, other, j);
        HitIs(t, other, MaxLevel(depth), d);
      } else {
        HitIs(s, key, MaxLevel(depth), d);
        assert d == h;
        assert GetFrom(t, other, d).Some?;
        var e := Hit(t, other, 0, MaxLevel(depth));
        assert e <= d;
      }
    }
  }

  /** After a hit every get that looks at all finds the same value in level 0. */
  lemma CachedAtLevelZero(s: Levels, key: Key, cachelv: int, maxlevel: int, depth: int)
    requires cachelv >= 0 && Get(s, key, maxlevel).Some? && MaxLevel(depth) >= 0
    ensures var t := Cached(s, key, cachelv, maxlevel);
            Hit(t, key, 0, MaxLevel(depth)) == 0 && Get(t, key, depth) == Get(s, key, maxlevel)
  {
    var h := Hit(s, key, 0, MaxLevel(maxlevel));
    if h > 0 {
      FilledIs(s, key, GetFrom(s, key, h).value, 0, cachelv);
    }
  }

  /** After a del down to some level, a get down to that level misses, and no other key is touched. */
  lemma DeletedMisses(s: Levels, key: Key, maxlevel: int, other: Key, depth: int)
    ensures var t := Deleted(s, key, 0, MaxLevel(maxlevel));
            && Get(t, key, maxlevel).None?
            && (other != key ==> Get(t, other, depth) == Get(s, other, depth))
  {
    var t := Deleted(s, key, 0, MaxLevel(maxlevel));
    DeletedIs(s, key, 0, MaxLevel(maxlevel));
    assert forall j: nat | j <= MaxLevel(maxlevel) :: GetFrom(t, key, j).None?;
    if other != key {
      assert forall j: nat :: GetFrom(t, other, j) == GetFrom(s, other, j);
      SameHits(s, t, other, 0, MaxLevel(depth));
    }
  }

  lemma SameHits(s: Levels, t: Levels, key: Key, lv: nat, maxlv: int)
    requires forall j: nat :: GetFrom(t, key, j) == GetFrom(s, key, j)
    ensures Hit(t, key, lv, maxlv) == Hit(s, key, lv, maxlv)
    decreases maxlv - lv
  {
  }

  // ---------------------------------------------------------------- how deep it looks

  /** Level l has the key with this value, and no level before it has the key. */
  predicate FirstAt(s: Levels, key: Key, l: nat, value: Value) {
    l in s && key in s[l] && s[l][key] == value && forall j: nat | j < l :: !(j in s && key in s[j])
  }

  /**
   get looks into the levels 0, 1 and 2 if no depth is given (-1), and else down to that depth: what it
   finds is in the first of them that has the key.
   */
  lemma GetIff(s: Levels, key: Key, maxlevel: int, value: Value)
    ensures Get(s, key, maxlevel) == Some(value) <==>
              exists l: nat :: l <= (if maxlevel == -1 then 2 else maxlevel) && FirstAt(s, key, l, value)
  {
    var maxlv := if maxlevel == -1 then 2 else maxlevel;
    if l: nat :| l <= maxlv && FirstAt(s, key, l, value) {
      HitIs(s, key, maxlv, l);
    }
    hide Hit;
    var h := Hit(s, key, 0, maxlv);
    if h <= maxlv {
      forall j: nat | j < h ensures !(j in s && key in s[j]) {
        assert GetFrom(s, key, j) == None;
      }
      assert FirstAt(s, key, h, GetFrom(s, key, h).value);
    }
  }

  /**
   get_and_cache writes the value of a hit that is not in level 0 to every connected level from 0 to
   cachelv, and leaves everything else alone.
   */
  lemma CachedIs(s: Levels, key: Key, cachelv: int, maxlevel: int)
    ensures var t := Cached(s, key, cachelv, maxlevel);
            && t.Keys == s.Keys
            && forall l | l in s ::
                 t[l] == if key !in s[0] && Get(s, key, maxlevel).Some? && l <= cachelv then s[l][key := Get(s, key, maxlevel).value] else s[l]
  {
    var maxlv := MaxLevel(maxlevel);
    var h := Hit(s, key, 0, maxlv);
    assert GetFrom(s, key, 0).Some? <==> key in s[0];
    if 0 < h <= maxlv {
      FilledIs(s, key, GetFrom(s, key, h).value, 0, cachelv);
    }
  }

  /** del takes the key out of the levels 0, 1 and 2, or down to the depth given, and does no more. */
  lemma DeletedFrom(s: Levels, key: Key, maxlevel: int)
    ensures var t := Deleted(s, key, 0, MaxLevel(maxlevel));
            && t.Keys == s.Keys
            && forall l | l in s :: t[l] == if l <= (if maxlevel == -1 then 2 else maxlevel) then s[l] - {key} else s[l]
  {
    DeletedIs(s, key, 0, MaxLevel(maxlevel));
  }
}
