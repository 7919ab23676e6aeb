/** ConnectionPool and ConnectionPoolWithLimit as objects, used by one thread. */
module PoolObjects {
  import opened Options
  import opened PoolModel
  import opened PoolTheorems

  class ConnectionPool {
    var pool: Pool
    var next: Conn

    constructor ()
      ensures pool == [] && next == 0
    {
      pool, next := [], 0;
    }

    /** The loop of std::max_element over the pool. */
    method MaxElement() returns (m: nat)
      requires pool != []
      ensures IsMax(pool, m)
    {
      m := 0;
      for k := 1 to |pool|
        invariant IsMax(pool[..k], m)
      {
        assert forall j | 0 <= j < k :: pool[..k][j] == pool[j];
        if Less(pool[m], pool[k]) {
          m := k;
        }
        assert forall j | 0 <= j < k + 1 :: pool[..k + 1][j] == pool[j];
      }
      assert pool[..|pool|] == pool;
    }

    /** grab: the free connection used last, or a new one. */
    method Grab(now: int) returns (c: Conn)
      modifies this
      ensures (pool, c) == Grabbed(old(pool), old(next), now)
      ensures next == if c == old(next) then old(next) + 1 else old(next)
    {
      var mru := |pool|;
      if pool != [] {
        mru := MaxElement();
        MaxUnique(pool, mru, Max(pool));
        if pool[mru].inUse {
          mru := |pool|;
        }
      }
      if mru < |pool| {
        c := pool[mru].conn;
        pool := pool[mru := pool[mru].(inUse := true)];
      } else {
        pool := pool + [Info(next, now, true)];
        c := next;
      }
      if c == next {
        next := next + 1;
      }
    }

    /** release: the loop stops at the first entry with the connection. */
    method Release(c: Conn, now: int)
      modifies `pool
      ensures pool == Released(old(pool), c, now)
    {
      var k := 0;
      while k < |pool|
        invariant 0 <= k <= |pool| && pool == old(pool)
        invariant forall j | 0 <= j < k :: pool[j].conn != c
      {
        if pool[k].conn == c {
          FindUnique(pool, c, k);
          pool := pool[k := pool[k].(inUse := false, lastUsed := now)];
          return;
        }
        k := k + 1;
      }
    }
  }

  lemma MaxUnique(pool: Pool, j: nat, k: nat)
    requires IsMax(pool, j) && IsMax(pool, k)
    ensures j == k
  {
    var less, greater := Less(pool[j], pool[k]), Less(pool[k], pool[j]);
  }

  lemma FindUnique(pool: Pool, c: Conn, k: nat)
    requires k < |pool| && pool[k].conn == c && forall j | 0 <= j < k :: pool[j].conn != c
    ensures Find(pool, c) == k
  {
  }

  class ConnectionPoolWithLimit {
    const base: ConnectionPool
    var connsInUse: int
    var connsMax: nat
    var grabWaittime: int

    constructor (maxconn: nat)
      ensures fresh(base) && base.pool == [] && connsInUse == 0 && connsMax == maxconn && grabWaittime == -1
      ensures Valid()
    {
      base := new ConnectionPool();
      connsInUse, connsMax, grabWaittime := 0, maxconn, -1;
    }

    ghost predicate Valid()
      reads this, base
    {
      && connsInUse == InUse(base.pool)
      && (forall k | 0 <= k < |base.pool| :: base.pool[k].conn < base.next)
      && (forall j, k | 0 <= j < k < |base.pool| :: base.pool[j].conn != base.pool[k].conn)
    }

    /**
     grab. With one thread nothing is released while it waits: waiting without a limit for a full pool
     would not end, waiting with a limit ends in NULL.
     */
    method Grab(now: int) returns (c: Option<Conn>)
      requires Valid() && (connsInUse < connsMax || grabWaittime >= 0)
      modifies this`connsInUse, base
      ensures Valid() && c.Some? == (old(connsInUse) < connsMax)
      ensures c.None? ==> base.pool == old(base.pool) && connsInUse == old(connsInUse)
      ensures c.Some? ==> connsInUse == old(connsInUse) + 1
                          && (base.pool, c.value) == Grabbed(old(base.pool), old(base.next), now)
                          && InPool(base.pool, c.value, true) && !InPool(old(base.pool), c.value, true)
                          && (forall d | d != c.value :: InPool(base.pool, d, true) <==> InPool(old(base.pool), d, true))
    {
      hide InUse, InPool;
      if connsInUse >= connsMax {
        return None;
      }
      GrabbedIs(base.pool, base.next, now);
      connsInUse := connsInUse + 1;
      var conn := base.Grab(now);
      c := Some(conn);
    }

    /**
     release. The counter goes down whatever is given back: afterwards it is right again exactly if the
     connection was in use.
     */
    method Release(c: Conn, now: int)
      requires Valid()
      modifies this`connsInUse, base`pool
      ensures base.pool == Released(old(base.pool), c, now) && connsInUse == old(connsInUse) - 1
      ensures |base.pool| == |old(base.pool)| && !InPool(base.pool, c, true)
      ensures forall d | d != c :: InPool(base.pool, d, true) <==> InPool(old(base.pool), d, true)
      ensures Valid() <==> old(InPool(base.pool, c, true))
    {
      hide InUse, InPool, Released;
      if InPool(base.pool, c, true) {
        ReleasedIs(base.pool, c, now);
      } else {
        ReleasedIdle(base.pool, c, now);
      }
      base.Release(c, now);
      connsInUse := connsInUse - 1;
    }

    /**
     createAll: grabs connections up to the limit and puts them all back. The pool then has as many
     connections as the limit allows at once, and the ones in use are the ones that were.
     */
    method CreateAll(now: int)
      requires Valid() && (connsInUse == 0 || grabWaittime >= 0)
      modifies this`connsInUse, base
      ensures Valid() && connsInUse == old(connsInUse)
      ensures forall d :: InPool(base.pool, d, true) <==> InPool(old(base.pool), d, true)
      ensures |base.pool| == Most(|old(base.pool)|, connsMax)
    {
      hide InUse, InPool, Grabbed, Released;
      ghost var before := base.pool;
      var conns: seq<Conn> := [];
      InUseBound(before);
      for i := 0 to connsMax
        invariant Valid() && connsInUse == old(connsInUse) + |conns|
        invariant |conns| == if old(connsInUse) + i <= connsMax then i else Most(0, connsMax - old(connsInUse))
        invariant Taken(before, base.pool, conns) && |base.pool| == Most(|before|, connsInUse)
      {
        GrabbedSize(base.pool, base.next, now);
        var c := Grab(now);
        if c.Some? {
          conns := conns + [c.value];
        }
      }
      for i := 0 to |conns|
        invariant Valid() && connsInUse == old(connsInUse) + |conns| - i
        invariant Taken(before, base.pool, conns[i..]) && |base.pool| == Most(|before|, old(connsInUse) + |conns|)
      {
        assert conns[i] == conns[i..][0] && conns[i..][1..] == conns[i + 1..];
        assert InPool(base.pool, conns[i], true);
        Release(conns[i], now);
      }
    }
  }

  function Most(a: int, b: int): int {
    if a <= b then b else a
  }

  /** The connections in use are those that were, and the new ones. */
  ghost predicate Taken(before: Pool, pool: Pool, conns: seq<Conn>) {
    && (forall d :: InPool(pool, d, true) <==> InPool(before, d, true) || d in conns)
    && (forall c | c in conns :: !InPool(before, c, true))
    && (forall j, k | 0 <= j < k < |conns| :: conns[j] != conns[k])
  }

  lemma InUseBound(pool: Pool)
    ensures InUse(pool) <= |pool|
    ensures (exists k :: 0 <= k < |pool| && !pool[k].inUse) ==> InUse(pool) < |pool|
  {
    if pool != [] {
      InUseBound(pool[1..]);
      if k :| 0 <= k < |pool| && !pool[k].inUse {
        if k > 0 {
          assert !pool[1..][k - 1].inUse;
        }
      }
    }
  }

  lemma GrabbedSize(pool: Pool, next: Conn, now: int)
    ensures |Grabbed(pool, next, now).0| == Most(|pool|, InUse(pool) + 1)
  {
    InUseBound(pool);
    if FindMru(pool) == |pool| {
      AllInUse(pool);
    }
  }
}
