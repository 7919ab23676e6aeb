/** What every interleaving of the threads keeps to, and how far the limit can be overrun. */
module PoolTheorems {
  import opened Options
  import opened PoolModel

  // ---------------------------------------------------------------- sums over the threads

  /** What a thread adds to conns_in_use_: what it holds, and a step half done. */
  function Share(t: Thread): nat {
    |t.held| + if t.phase == Counted || t.phase == Freed then 1 else 0
  }

  function Shares(ts: seq<Thread>): nat {
    if ts == [] then 0 else Share(ts[0]) + Shares(ts[1..])
  }

  function Held(ts: seq<Thread>): nat {
    if ts == [] then 0 else |ts[0].held| + Held(ts[1..])
  }

  /** How many threads have passed the check and not counted yet. */
  function Ahead(ts: seq<Thread>): nat {
    if ts == [] then 0 else (if ts[0].phase == Passed then 1 else 0) + Ahead(ts[1..])
  }

  function One(t: Thread): nat {
    if t.phase == Passed then 1 else 0
  }

  lemma {:induction false} SumsUpdate(ts: seq<Thread>, t: nat, x: Thread)
    requires t < |ts|
    ensures Shares(ts[t := x]) == Shares(ts) - Share(ts[t]) + Share(x)
    ensures Held(ts[t := x]) == Held(ts) - |ts[t].held| + |x.held|
    ensures Ahead(ts[t := x]) == Ahead(ts) - One(ts[t]) + One(x)
  {
    if t == 0 {
      assert ts[0 := x][1..] == ts[1..];
    } else {
      assert ts[t := x][1..] == ts[1..][t - 1 := x];
      SumsUpdate(ts[1..], t - 1, x);
    }
  }

  lemma SumsBound(ts: seq<Thread>)
    ensures Ahead(ts) <= |ts| && Held(ts) <= Shares(ts)
  {
  }

  lemma AheadBound(ts: seq<Thread>, t: nat)
    requires t < |ts| && ts[t].phase != Passed
    ensures Ahead(ts) < |ts|
  {
    if t > 0 {
      AheadBound(ts[1..], t - 1);
    }
    SumsBound(ts[1..]);
  }

  lemma CountedShare(ts: seq<Thread>, t: nat)
    requires t < |ts|
    ensures Share(ts[t]) - |ts[t].held| + Held(ts) <= Shares(ts)
  {
    SumsBound(ts[1..]);
    if t > 0 {
      CountedShare(ts[1..], t - 1);
    }
  }

  /** The entries in use. */
  function InUse(pool: Pool): nat {
    if pool == [] then 0 else (if pool[0].inUse then 1 else 0) + InUse(pool[1..])
  }

  lemma {:induction false} InUseUpdate(pool: Pool, k: nat, x: Info)
    requires k < |pool|
    ensures InUse(pool[k := x]) == InUse(pool) - (if pool[k].inUse then 1 else 0) + if x.inUse then 1 else 0
  {
    if k == 0 {
      assert pool[0 := x][1..] == pool[1..];
    } else {
      assert pool[k := x][1..] == pool[1..][k - 1 := x];
      InUseUpdate(pool[1..], k - 1, x);
    }
  }

  lemma {:induction false} InUseSnoc(pool: Pool, x: Info)
    ensures InUse(pool + [x]) == InUse(pool) + if x.inUse then 1 else 0
  {
    if pool != [] {
      assert (pool + [x])[1..] == pool[1..] + [x];
      InUseSnoc(pool[1..], x);
    }
  }

  lemma AllInUse(pool: Pool)
    requires forall k | 0 <= k < |pool| :: pool[k].inUse
    ensures InUse(pool) == |pool|
  {
  }

  // ---------------------------------------------------------------- the invariant

  predicate EntriesOk(w: World) {
    && (forall k | 0 <= k < |w.pool| :: w.pool[k].conn < w.next)
    && (forall j, k | 0 <= j < k < |w.pool| :: w.pool[j].conn != w.pool[k].conn)
  }

  predicate InPool(pool: Pool, c: Conn, inUse: bool) {
    exists k :: 0 <= k < |pool| && pool[k].conn == c && pool[k].inUse == inUse
  }

  predicate HoldersOk(w: World) {
    && (forall t, c | 0 <= t < |w.threads| && c in w.threads[t].held :: InPool(w.pool, c, true))
    && (forall s, t | 0 <= s < t < |w.threads| :: w.threads[s].held !! w.threads[t].held)
  }

  predicate CountsOk(w: World) {
    && w.count == Shares(w.threads)
    && InUse(w.pool) == Held(w.threads)
    && w.count + Ahead(w.threads) <= w.max - 1 + |w.threads|
    && |w.pool| <= w.max - 1 + |w.threads|
  }

  predicate Inv(w: World) {
    w.max >= 1 && |w.threads| >= 1 && EntriesOk(w) && HoldersOk(w) && CountsOk(w)
  }

  // ---------------------------------------------------------------- grab and release of the base pool

  lemma GrabbedIs(pool: Pool, next: Conn, now: int)
    requires forall j, k | 0 <= j < k < |pool| :: pool[j].conn != pool[k].conn
    requires forall k | 0 <= k < |pool| :: pool[k].conn < next
    ensures var (after, c) := Grabbed(pool, next, now);
            && InPool(after, c, true) && !InPool(pool, c, true)
            && (forall d | d != c :: InPool(after, d, true) <==> InPool(pool, d, true))
            && InUse(after) == InUse(pool) + 1
            && (|after| == |pool| || (|after| == |pool| + 1 && InUse(pool) == |pool| && c == next))
            && (|after| == |pool| ==> c < next)
            && (forall k | 0 <= k < |pool| :: after[k].conn == pool[k].conn)
  {
    var m := FindMru(pool);
    var (after, c) := Grabbed(pool, next, now);
    if m < |pool| {
      InUseUpdate(pool, m, pool[m].(inUse := true));
      assert after[m].conn == c;
      SameElsewhere(pool, after, m);
    } else {
      InUseSnoc(pool, Info(next, now, true));
      AllInUse(pool);
      assert after[|pool|].conn == next;
      SnocElsewhere(pool, Info(next, now, true));
    }
  }

  lemma SameElsewhere(pool: Pool, after: Pool, m: nat)
    requires m < |pool| == |after| && after == pool[m := after[m]] && after[m].conn == pool[m].conn
    requires forall j, k | 0 <= j < k < |pool| :: pool[j].conn != pool[k].conn
    ensures forall d, u | d != pool[m].conn :: InPool(after, d, u) <==> InPool(pool, d, u)
    ensures forall u :: InPool(after, pool[m].conn, u) <==> after[m].inUse == u
    ensures forall u :: InPool(pool, pool[m].conn, u) <==> pool[m].inUse == u
  {
    forall d, u | d != pool[m].conn ensures InPool(after, d, u) <==> InPool(pool, d, u) {
      if InPool(after, d, u) {
        var k :| 0 <= k < |after| && after[k].conn == d && after[k].inUse == u;
        assert pool[k] == after[k];
      }
      if InPool(pool, d, u) {
        var k :| 0 <= k < |pool| && pool[k].conn == d && pool[k].inUse == u;
        assert pool[k] == after[k];
      }
    }
    assert pool[m].conn == after[m].conn;
  }

  lemma SnocElsewhere(pool: Pool, x: Info)
    requires forall k | 0 <= k < |pool| :: pool[k].conn < x.conn
    ensures forall d, u | d != x.conn :: InPool(pool + [x], d, u) <==> InPool(pool, d, u)
    ensures forall u :: !InPool(pool, x.conn, u)
  {
    forall d, u | d != x.conn && InPool(pool, d, u) ensures InPool(pool + [x], d, u) {
      var k :| 0 <= k < |pool| && pool[k].conn == d && pool[k].inUse == u;
      assert (pool + [x])[k] == pool[k];
    }
  }

  lemma ReleasedIs(pool: Pool, c: Conn, now: int)
    requires forall j, k | 0 <= j < k < |pool| :: pool[j].conn != pool[k].conn
    requires InPool(pool, c, true)
    ensures var after := Released(pool, c, now);
            && (forall d | d != c :: InPool(after, d, true) <==> InPool(pool, d, true)) && !InPool(after, c, true)
            && InUse(after) == InUse(pool) - 1 && |after| == |pool|
            && (forall k | 0 <= k < |pool| :: after[k].conn == pool[k].conn)
  {
    var k := Find(pool, c);
    var after := Released(pool, c, now);
    InUseUpdate(pool, k, pool[k].(inUse := false, lastUsed := now));
    SameElsewhere(pool, after, k);
  }

  /** Giving back what is not in use. */
  lemma ReleasedIdle(pool: Pool, c: Conn, now: int)
    requires forall j, k | 0 <= j < k < |pool| :: pool[j].conn != pool[k].conn
    requires !InPool(pool, c, true)
    ensures var after := Released(pool, c, now);
            && (forall d :: InPool(after, d, true) <==> InPool(pool, d, true)) && InUse(after) == InUse(pool) && |after| == |pool|
            && (forall k | 0 <= k < |pool| :: after[k].conn == pool[k].conn)
  {
    var k := Find(pool, c);
    if k < |pool| {
      var after := Released(pool, c, now);
      InUseUpdate(pool, k, pool[k].(inUse := false, lastUsed := now));
      SameElsewhere(pool, after, k);
    }
  }

  // ---------------------------------------------------------------- steps

  lemma PhaseKeeps(w: World, s: Step)
    requires Inv(w) && Enabled(w, s) && (s.Check? || s.Increment? || s.Decrement?)
    ensures Inv(Apply(w, s))
  {
    hide Held, Shares, Ahead, InUse, InPool;
    var v := Apply(w, s);
    SumsUpdate(w.threads, s.t, v.threads[s.t]);
    assert v.threads == w.threads[s.t := v.threads[s.t]];
    assert forall t | 0 <= t < |w.threads| :: v.threads[t].held == w.threads[t].held;
    if s.Check? {
      AheadBound(w.threads, s.t);
    }
  }

  lemma TakeKeeps(w: World, t: nat, now: int)
    requires Inv(w) && Enabled(w, Take(t, now))
    ensures Inv(Apply(w, Take(t, now)))
  {
    hide Held, Shares, Ahead, InUse, InPool, Grabbed;
    var v := Apply(w, Take(t, now));
    var c := Grabbed(w.pool, w.next, now).1;
    GrabbedIs(w.pool, w.next, now);
    assert c !in w.threads[t].held;
    SumsUpdate(w.threads, t, v.threads[t]);
    CountedShare(w.threads, t);
    forall s, d | 0 <= s < |v.threads| && d in v.threads[s].held ensures InPool(v.pool, d, true) {
      if d != c {
        assert d in w.threads[s].held;
      }
    }
    forall s, u | 0 <= s < u < |v.threads| ensures v.threads[s].held !! v.threads[u].held {
      assert w.threads[s].held !! w.threads[u].held;
      assert forall k | 0 <= k < |w.threads| :: c !in w.threads[k].held;
    }
  }

  lemma GiveBackKeeps(w: World, t: nat, c: Conn, now: int)
    requires Inv(w) && Enabled(w, GiveBack(t, c, now))
    ensures Inv(Apply(w, GiveBack(t, c, now)))
  {
    hide Held, Shares, Ahead, InUse, InPool, Released;
    var v := Apply(w, GiveBack(t, c, now));
    ReleasedIs(w.pool, c, now);
    SumsUpdate(w.threads, t, v.threads[t]);
    forall s, d | 0 <= s < |v.threads| && d in v.threads[s].held ensures InPool(v.pool, d, true) {
      assert d in w.threads[s].held;
      if s != t {
        assert w.threads[s].held !! w.threads[t].held;
      }
    }
    forall s, u | 0 <= s < u < |v.threads| ensures v.threads[s].held !! v.threads[u].held {
      assert w.threads[s].held !! w.threads[u].held;
    }
  }

  lemma InitialInv(max: nat, threads: nat)
    requires max >= 1 && threads >= 1
    ensures Inv(Initial(max, threads))
  {
    NoShares(Initial(max, threads).threads);
  }

  lemma NoShares(ts: seq<Thread>)
    requires forall k | 0 <= k < |ts| :: ts[k] == Thread(Idle, {})
    ensures Shares(ts) == 0 && Held(ts) == 0 && Ahead(ts) == 0
  {
  }

  lemma {:induction false} AfterInv(max: nat, threads: nat, steps: seq<Step>)
    requires max >= 1 && threads >= 1 && After(max, threads, steps).Some?
    ensures var w := After(max, threads, steps).value; Inv(w) && w.max == max && |w.threads| == threads
  {
    hide Inv, Apply;
    if steps == [] {
      InitialInv(max, threads);
    } else {
      var front, s := steps[..|steps| - 1], steps[|steps| - 1];
      AfterInv(max, threads, front);
      StepKeeps(After(max, threads, front).value, s);
    }
  }

  lemma StepKeeps(w: World, s: Step)
    requires Inv(w) && Enabled(w, s)
    ensures Inv(Apply(w, s)) && Apply(w, s).max == w.max && |Apply(w, s).threads| == |w.threads|
  {
    hide Inv;
    match s
    case Take(t, now) => TakeKeeps(w, t, now);
    case GiveBack(t, c, now) => GiveBackKeeps(w, t, c, now);
    case _ => PhaseKeeps(w, s);
  }

  // ---------------------------------------------------------------- theorems

  /**
   For every interleaving: conns_in_use_ counts at least the connections in use and never wraps below
   zero; it and the size of the pool never exceed conns_max_ - 1 plus the number of threads.
   */
  lemma LimitOverrun(max: nat, threads: nat, steps: seq<Step>)
    requires max >= 1 && threads >= 1 && After(max, threads, steps).Some?
    ensures var w := After(max, threads, steps).value;
            0 <= InUse(w.pool) <= w.count <= max - 1 + threads && |w.pool| <= max - 1 + threads
  {
    hide After;
    AfterInv(max, threads, steps);
    SumsBound(After(max, threads, steps).value.threads);
  }

  /** With one thread the limit is the limit. */
  lemma OneThread(max: nat, steps: seq<Step>)
    requires max >= 1 && After(max, 1, steps).Some?
    ensures var w := After(max, 1, steps).value; w.count <= max && |w.pool| <= max
  {
    LimitOverrun(max, 1, steps);
  }

  /** A connection never has two holders, and one that is held is marked in use. */
  lemma OneHolder(max: nat, threads: nat, steps: seq<Step>, s: nat, t: nat, c: Conn)
    requires max >= 1 && threads >= 1 && After(max, threads, steps).Some?
    requires var w := After(max, threads, steps).value;
             s < |w.threads| && t < |w.threads| && c in w.threads[s].held && c in w.threads[t].held
    ensures s == t && InPool(After(max, threads, steps).value.pool, c, true)
  {
    hide After, InPool, CountsOk;
    AfterInv(max, threads, steps);
  }

  // ---------------------------------------------------------------- the bound is reached

  ghost predicate Reaches(max: nat, threads: nat, steps: seq<Step>, w: World) {
    After(max, threads, steps) == Some(w) && w.max == max && |w.threads| == threads
  }

  /** The first j threads are in one phase, the others in another; count connections are out, all pooled ones in use. */
  ghost predicate Stage(w: World, j: nat, first: Phase, rest: Phase, count: int, size: nat) {
    && j <= |w.threads| && w.count == count && |w.pool| == size
    && (forall k | 0 <= k < size :: w.pool[k].inUse)
    && (forall t | 0 <= t < |w.threads| :: w.threads[t].phase == if t < j then first else rest)
  }

  lemma OneMore(max: nat, threads: nat, steps: seq<Step>, w: World, s: Step)
    requires Reaches(max, threads, steps, w) && Enabled(w, s)
    ensures Reaches(max, threads, steps + [s], Apply(w, s))
  {
    hide Apply;
    assert (steps + [s])[..|steps|] == steps;
    ApplyShape(w, s);
  }

  lemma ApplyShape(w: World, s: Step)
    requires Enabled(w, s)
    ensures Apply(w, s).max == w.max && |Apply(w, s).threads| == |w.threads|
  {
  }

  /** A grab from a pool without free connections creates one. */
  lemma TakeGrows(w: World, t: nat)
    requires Enabled(w, Take(t, 0)) && forall k | 0 <= k < |w.pool| :: w.pool[k].inUse
    ensures var v := Apply(w, Take(t, 0));
            |v.pool| == |w.pool| + 1 && (forall k | 0 <= k < |v.pool| :: v.pool[k].inUse)
            && v.count == w.count && v.threads == w.threads[t := v.threads[t]] && v.threads[t].phase == Idle
  {
  }

  /** One thread alone grabs n connections. */
  lemma {:induction false} GrabAlone(max: nat, threads: nat, n: nat) returns (steps: seq<Step>, w: World)
    requires threads >= 1 && n <= max
    ensures Reaches(max, threads, steps, w) && Stage(w, 0, Idle, Idle, n, n)
  {
    hide After, Apply;
    if n == 0 {
      steps, w := [], Initial(max, threads);
      AfterNone(max, threads);
    } else {
      steps, w := GrabAlone(max, threads, n - 1);
      steps, w := Advance(max, threads, steps, w, Check(0));
      steps, w := Advance(max, threads, steps, w, Increment(0));
      TakeGrows(w, 0);
      steps, w := Advance(max, threads, steps, w, Take(0, 0));
    }
  }

  lemma AfterNone(max: nat, threads: nat)
    ensures After(max, threads, []) == Some(Initial(max, threads))
  {
  }

  lemma Advance(max: nat, threads: nat, steps: seq<Step>, w: World, s: Step) returns (more: seq<Step>, v: World)
    requires Reaches(max, threads, steps, w) && Enabled(w, s)
    ensures Reaches(max, threads, more, v) && v == Apply(w, s)
    ensures s.Check? && w.count < w.max ==> v == w.(threads := To(w, s.t, Passed, w.threads[s.t].held))
    ensures s.Increment? ==> v == w.(count := w.count + 1, threads := To(w, s.t, Counted, w.threads[s.t].held))
  {
    OneMore(max, threads, steps, w, s);
    more, v := steps + [s], Apply(w, s);
  }

  /** The first j threads check; all find the counter below the limit. */
  lemma {:induction false} CheckAll(max: nat, threads: nat, j: nat) returns (steps: seq<Step>, w: World)
    requires max >= 1 && 1 <= threads && j <= threads
    ensures Reaches(max, threads, steps, w) && Stage(w, j, Passed, Idle, max - 1, max - 1)
  {
    hide After, Apply;
    if j == 0 {
      steps, w := GrabAlone(max, threads, max - 1);
    } else {
      steps, w := CheckAll(max, threads, j - 1);
      steps, w := Advance(max, threads, steps, w, Check(j - 1));
    }
  }

  lemma {:induction false} IncrementAll(max: nat, threads: nat, j: nat) returns (steps: seq<Step>, w: World)
    requires max >= 1 && 1 <= threads && j <= threads
    ensures Reaches(max, threads, steps, w) && Stage(w, j, Counted, Passed, max - 1 + j, max - 1)
  {
    hide After, Apply;
    if j == 0 {
      steps, w := CheckAll(max, threads, threads);
    } else {
      steps, w := IncrementAll(max, threads, j - 1);
      steps, w := Advance(max, threads, steps, w, Increment(j - 1));
    }
  }

  lemma {:induction false} TakeAll(max: nat, threads: nat, j: nat) returns (steps: seq<Step>, w: World)
    requires max >= 1 && 1 <= threads && j <= threads
    ensures Reaches(max, threads, steps, w) && Stage(w, j, Idle, Counted, max - 1 + threads, max - 1 + j)
  {
    hide After, Apply;
    if j == 0 {
      steps, w := IncrementAll(max, threads, threads);
    } else {
      steps, w := TakeAll(max, threads, j - 1);
      TakeGrows(w, j - 1);
      steps, w := Advance(max, threads, steps, w, Take(j - 1, 0));
    }
  }

  /** The bound of LimitOverrun is exact: some interleaving has that many connections out at once. */
  lemma BoundReached(max: nat, threads: nat)
    requires max >= 1 && threads >= 1
    ensures exists steps ::
              After(max, threads, steps).Some?
              && var w := After(max, threads, steps).value;
                 InUse(w.pool) == w.count == |w.pool| == max - 1 + threads
  {
    hide After;
    var steps, w := TakeAll(max, threads, threads);
    AllInUse(w.pool);
    assert After(max, threads, steps).Some?;
  }

  /** So the limit holds in every interleaving exactly if there is only one thread. */
  lemma LimitIff(max: nat, threads: nat)
    requires max >= 1 && threads >= 1
    ensures (forall steps | After(max, threads, steps).Some? :: After(max, threads, steps).value.count <= max) <==> threads == 1
  {
    hide After;
    if threads == 1 {
      forall steps | After(max, 1, steps).Some? ensures After(max, 1, steps).value.count <= max {
        OneThread(max, steps);
      }
    } else {
      BoundReached(max, threads);
    }
  }
}
