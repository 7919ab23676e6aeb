/** SyncMyCache and the AutoGet chain of AsyncMyCache in their own form: loops over levels that are written in place. */
module CacheObjects {
  import opened Options
  import opened CacheModel

  class SyncMyCache {
    var levels: Levels

    constructor (levels: Levels)
      ensures this.levels == levels
    {
      this.levels := levels;
    }

    /** set_to; for level 0 the result is false although the value is stored. */
    method Set(key: Key, value: Value, level: nat) returns (ok: bool)
      modifies this
      ensures levels == SetTo(old(levels), key, value, level) && ok == (level != 0 && level in old(levels))
    {
      ok := false;
      if level in levels {
        levels := levels[level := levels[level][key := value]];
        ok := level != 0;
      }
    }

    /** get. */
    method Lookup(key: Key, maxlevel: int) returns (value: Option<Value>)
      ensures value == Get(levels, key, maxlevel)
    {
      var maxlv := MaxLevel(maxlevel);
      var lv := 0;
      while lv <= maxlv
        invariant Hit(levels, key, lv, maxlv) == Hit(levels, key, 0, maxlv)
        decreases maxlv - lv
      {
        value := GetFrom(levels, key, lv);
        if value.Some? {
          return;
        }
        lv := lv + 1;
      }
      value := None;
    }

    /** get_and_cache. */
    method GetAndCache(key: Key, cachelv: int, maxlevel: int) returns (value: Option<Value>)
      modifies this
      ensures value == Get(old(levels), key, maxlevel) && levels == Cached(old(levels), key, cachelv, maxlevel)
    {
      var maxlv := MaxLevel(maxlevel);
      var lv := 0;
      while lv <= maxlv
        invariant levels == old(levels) && Hit(levels, key, lv, maxlv) == Hit(levels, key, 0, maxlv)
        decreases maxlv - lv
      {
        value := GetFrom(levels, key, lv);
        if value.Some? {
          if lv != 0 {
            Fill(key, value.value, cachelv);
          }
          return;
        }
        lv := lv + 1;
      }
      value := None;
    }

    /** The inner loop of get_and_cache. */
    method Fill(key: Key, value: Value, cachelv: int)
      modifies this
      ensures levels == Filled(old(levels), key, value, 0, cachelv)
    {
      var i := 0;
      while i <= cachelv
        invariant Filled(levels, key, value, i, cachelv) == Filled(old(levels), key, value, 0, cachelv)
        decreases cachelv - i
      {
        var _ := Set(key, value, i);
        i := i + 1;
      }
    }

    /** del_from: whether the level had the key. */
    method DeleteFrom(key: Key, level: nat) returns (ok: bool)
      modifies this
      ensures levels == DelFrom(old(levels), key, level) && ok == GetFrom(old(levels), key, level).Some?
    {
      ok := level in levels && key in levels[level];
      if level in levels {
        levels := levels[level := levels[level] - {key}];
      }
    }

    /** del. The result is that of the last level only: true without levels, false if just the others had the key. */
    method Delete(key: Key, maxlevel: int) returns (ok: bool)
      modifies this
      ensures levels == Deleted(old(levels), key, 0, MaxLevel(maxlevel))
      ensures ok <==> MaxLevel(maxlevel) < 0 || GetFrom(old(levels), key, MaxLevel(maxlevel)).Some?
    {
      var maxlv := MaxLevel(maxlevel);
      var lv := 0;
      ok := true;
      while lv <= maxlv
        invariant Deleted(levels, key, lv, maxlv) == Deleted(old(levels), key, 0, maxlv)
        invariant forall l: nat | lv <= l :: GetFrom(levels, key, l) == GetFrom(old(levels), key, l)
        invariant 0 < lv ==> lv <= maxlv + 1 && ok == GetFrom(old(levels), key, lv - 1).Some?
        invariant lv == 0 ==> ok
        decreases maxlv - lv
      {
        ok := DeleteFrom(key, lv);
        lv := lv + 1;
      }
    }
  }

  /** One callback of AsyncMyCache::get; a miss makes the next. */
  class AutoGet {
    const key: Key
    const level: nat
    const maxlevel: int
    const cacheit: int
    const cache: SyncMyCache

    constructor (key: Key, level: nat, maxlevel: int, cacheit: int, cache: SyncMyCache)
      ensures this.key == key && this.level == level && this.maxlevel == maxlevel && this.cacheit == cacheit && this.cache == cache
    {
      this.key, this.level, this.maxlevel, this.cacheit, this.cache := key, level, maxlevel, cacheit, cache;
    }

    /** result, with the answer of this level: the callback's value, or the next AutoGet. */
    method OnResult(answer: Option<Value>) returns (next: AutoGet?, delivered: seq<Option<Value>>)
      modifies cache
      ensures answer.Some? ==>
                next == null && delivered == [answer]
                && cache.levels == if level != 0 then Filled(old(cache.levels), key, answer.value, 0, cacheit) else old(cache.levels)
      ensures answer.None? ==> cache.levels == old(cache.levels)
      ensures answer.None? && level < maxlevel ==>
                next != null && fresh(next) && next.level == level + 1 && delivered == []
                && next.key == key && next.maxlevel == maxlevel && next.cacheit == cacheit && next.cache == cache
      ensures answer.None? && level >= maxlevel ==> next == null && delivered == [None]
    {
      next, delivered := null, [];
      if answer.Some? {
        delivered := [answer];
        if level != 0 && cacheit != -1 {
          cache.Fill(key, answer.value, cacheit);
        }
      } else if level < maxlevel {
        next := new AutoGet(key, level + 1, maxlevel, cacheit, cache);
      } else {
        delivered := [None];
      }
    }
  }

  /** AsyncMyCache::get and the answers that follow: one result, and the levels as get_and_cache leaves them. */
  method AsyncGet(cache: SyncMyCache, key: Key, maxlevel: int, cacheit: int) returns (delivered: seq<Option<Value>>)
    requires maxlevel >= -1
    modifies cache
    ensures delivered == [Get(old(cache.levels), key, maxlevel)]
    ensures cache.levels == Cached(old(cache.levels), key, cacheit, maxlevel)
  {
    var maxlv := MaxLevel(maxlevel);
    var getcb: AutoGet? := new AutoGet(key, 0, maxlv, cacheit, cache);
    delivered := [];
    while getcb != null
      invariant getcb != null ==>
                  fresh(getcb) && getcb.level <= maxlv && getcb.key == key && getcb.maxlevel == maxlv && getcb.cacheit == cacheit
                  && getcb.cache == cache && cache.levels == old(cache.levels) && delivered == []
                  && Hit(cache.levels, key, getcb.level, maxlv) == Hit(cache.levels, key, 0, maxlv)
      invariant getcb == null ==> delivered == [Get(old(cache.levels), key, maxlevel)]
      invariant getcb == null ==> cache.levels == Cached(old(cache.levels), key, cacheit, maxlevel)
      decreases if getcb == null then -1 else maxlv - getcb.level
    {
      var answer := GetFrom(cache.levels, key, getcb.level);
      getcb, delivered := getcb.OnResult(answer);
    }
  }
}
