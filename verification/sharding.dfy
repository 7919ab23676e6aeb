/** common/sharding.h: which shard a 32-bit hash code goes to, and which codes go nowhere. */
module ShardingModel {
  const CODES: nat := 0x1_0000_0000

  /** getShardByHash: the shard number for a code. */
  function Index(code: nat, n: nat): nat
    requires 1 <= n <= CODES
  {
    code / (CODES / n)
  }

  lemma Quotient(n: nat)
    requires 1 <= n <= CODES
    ensures CODES / n >= 1 && CODES == n * (CODES / n) + CODES % n
  {
  }

  lemma DivIs(code: nat, q: nat, i: nat)
    requires q >= 1
    ensures code / q == i <==> i * q <= code < (i + 1) * q
  {
    var d := code / q;
    assert d * q <= code < (d + 1) * q;
    if i < d {
      Product(i + 1, d, q);
    } else if d < i {
      Product(d + 1, i, q);
    }
  }

  lemma Product(a: nat, b: nat, q: nat)
    requires a <= b
    ensures a * q <= b * q
  {
  }

  /** Shard i owns exactly the codes of one interval of 2^32 / n. */
  lemma Interval(code: nat, n: nat, i: nat)
    requires 1 <= n <= 0x1_0000_0000
    ensures Index(code, n) == i <==> i * (0x1_0000_0000 / n) <= code < (i + 1) * (0x1_0000_0000 / n)
  {
    Quotient(n);
    DivIs(code, CODES / n, i);
  }

  lemma Monotone(a: nat, b: nat, n: nat)
    requires 1 <= n <= CODES && a <= b
    ensures Index(a, n) <= Index(b, n)
  {
    hide Index;
    Quotient(n);
    var i, j := Index(a, n), Index(b, n);
    Interval(a, n, i);
    Interval(b, n, j);
    if j < i {
      Product(j + 1, i, CODES / n);
    }
  }

  /** Exactly the last 2^32 mod n codes fall behind the last shard. */
  lemma BehindTheLast(code: nat, n: nat)
    requires 1 <= n <= 0x1_0000_0000 && code < 0x1_0000_0000
    ensures Index(code, n) >= n <==> code >= 0x1_0000_0000 - 0x1_0000_0000 % n
  {
    Quotient(n);
    var q := CODES / n;
    DivIs(code, q, code / q);
    if code / q >= n {
      Product(n, code / q, q);
    } else {
      Product(code / q + 1, n, q);
    }
  }

  // ---------------------------------------------------------------- powers of two

  predicate PowerOfTwo(n: nat)
    decreases n
  {
    n == 1 || (n > 1 && n % 2 == 0 && PowerOfTwo(n / 2))
  }

  function Two(k: nat): nat {
    if k == 0 then 1 else 2 * Two(k - 1)
  }

  lemma OddTimes(n: nat, q: nat)
    requires n % 2 == 1 && n * q % 2 == 0
    ensures q % 2 == 0
  {
    assert n * q == 2 * (n / 2 * q) + q;
  }

  lemma HalfProduct(n: nat, q: nat, t: nat)
    requires n % 2 == 0 && n * q == 2 * t
    ensures n / 2 * q == t
  {
    var m := n / 2;
    assert n * q == 2 * (m * q);
  }

  /** Every divisor of a power of two is one. */
  lemma {:induction false} Divisor(n: nat, q: nat, k: nat)
    requires n * q == Two(k)
    ensures PowerOfTwo(n)
    decreases k
  {
    if k == 0 {
      Factor(n, q);
    } else if n % 2 == 1 {
      OddTimes(n, q);
      HalfProduct(q, n, Two(k - 1));
      Divisor(n, q / 2, k - 1);
    } else {
      HalfProduct(n, q, Two(k - 1));
      Positive(k);
      Divisor(n / 2, q, k - 1);
      assert n != 0;
    }
  }

  lemma Factor(n: nat, q: nat)
    requires n * q == 1
    ensures n == 1
  {
    if n > 1 {
      if q >= 1 {
        Product(1, q, n);
      }
    }
  }

  lemma Positive(k: nat)
    ensures Two(k) >= 1
  {
  }

  lemma {:induction false} PowerDivides(n: nat, k: nat)
    requires PowerOfTwo(n) && n <= Two(k)
    ensures Two(k) % n == 0
    decreases k
  {
    if n > 1 {
      assert k > 0;
      PowerDivides(n / 2, k - 1);
      var q := Two(k - 1) / (n / 2);
      assert Two(k - 1) == n / 2 * q;
      assert Two(k) == n * q;
      Multiple(n, q);
    }
  }

  lemma Multiple(n: nat, q: nat)
    requires n >= 1
    ensures n * q % n == 0
  {
    var m := n * q;
    assert m == n * (m / n) + m % n;
    if m / n < q {
      Product(m / n + 1, q, n);
    } else if m / n > q {
      Product(q + 1, m / n, n);
    }
  }

  lemma TwoTo32()
    ensures Two(32) == CODES
  {
    assert Two(8) == 0x100;
    assert Two(16) == 0x1_0000;
    assert Two(24) == 0x100_0000;
  }

  /** Every code has a shard if and only if the number of shards is a power of two. */
  lemma EveryCodeIff(n: nat)
    requires 1 <= n <= CODES
    ensures (forall code: nat | code < CODES :: Index(code, n) < n) <==> PowerOfTwo(n)
  {
    TwoTo32();
    Quotient(n);
    if PowerOfTwo(n) {
      PowerDivides(n, 32);
      forall code: nat | code < CODES ensures Index(code, n) < n {
        BehindTheLast(code, n);
      }
    } else {
      if CODES % n == 0 {
        Divisor(n, CODES / n, 32);
      }
      BehindTheLast(CODES - 1, n);
      assert Index(CODES - 1, n) >= n;
    }
  }
}

module ShardingObjects {
  import opened Options
  import opened ShardingModel

  /** A shard, by the number it gives itself. */
  datatype Shard = Shard(shard: int, name: string)

  class Sharding {
    var shards: map<int, Shard>
    var shardnum: nat

    constructor (shardnum: nat)
      requires shardnum < 0x8000_0000
      ensures shards == map[] && this.shardnum == shardnum
    {
      shards, this.shardnum := map[], shardnum;
    }

    predicate Ready()
      reads this
    {
      forall i | 0 <= i < shardnum :: i in shards
    }

    /** isReady. */
    method IsReady() returns (ready: bool)
      ensures ready == Ready()
    {
      for i := 0 to shardnum
        invariant forall j | 0 <= j < i :: j in shards
      {
        if i !in shards {
          return false;
        }
      }
      return true;
    }

    /** addShard: a number is taken once, and -1 never. */
    method AddShard(shard: Shard) returns (ok: bool)
      modifies this
      ensures ok == (shard.shard != -1 && shard.shard !in old(shards)) && shardnum == old(shardnum)
      ensures shards == if ok then old(shards)[shard.shard := shard] else old(shards)
    {
      if shard.shard == -1 || shard.shard in shards {
        return false;
      }
      shards := shards[shard.shard := shard];
      return true;
    }

    /**
     getShardByHash: once all shards are there, a code finds its shard, except the codes behind the
     last one.
     */
    method ShardByHash(code: nat) returns (found: Option<Shard>)
      requires code < CODES && shardnum < 0x8000_0000
      ensures shardnum == 0 ==> found == None
      ensures shardnum > 0 ==> found == if Index(code, shardnum) in shards then Some(shards[Index(code, shardnum)]) else None
      ensures shardnum > 0 && Ready() && code < CODES - CODES % shardnum ==> found.Some?
    {
      if shardnum == 0 {
        return None;
      }
      Quotient(shardnum);
      BehindTheLast(code, shardnum);
      var i := code / (CODES / shardnum);
      if i in shards {
        return Some(shards[i]);
      }
      return None;
    }
  }
}
