/** Which connection a grab returns, over every interleaving: the free one that was released last, or a new one. */
module PoolOrder {
  import opened Options
  import opened PoolModel

  /** Connection c was released at the given time, and has not been released again. */
  predicate ReleasedAt(steps: seq<Step>, c: Conn, time: int) {
    exists m :: 0 <= m < |steps| && steps[m].GiveBack? && steps[m].c == c && steps[m].now == time
                && forall k | m < k < |steps| :: !(steps[k].GiveBack? && steps[k].c == c)
  }

  predicate HeldBySome(threads: seq<Thread>, c: Conn) {
    exists t :: 0 <= t < |threads| && c in threads[t].held
  }

  /** Created and held by nobody. */
  predicate Free(w: World, c: Conn) {
    c < w.next && !HeldBySome(w.threads, c)
  }

  /** The pool lists the connections in the order they were made, with their holders and last releases. */
  predicate Listed(w: World, steps: seq<Step>) {
    && |w.pool| == w.next
    && (forall t, c | 0 <= t < |w.threads| && c in w.threads[t].held :: c < w.next)
    && (forall s, t | 0 <= s < t < |w.threads| :: w.threads[s].held !! w.threads[t].held)
    && (forall k | 0 <= k < |w.pool| :: w.pool[k].conn == k && Entry(w, steps, k))
  }

  predicate Entry(w: World, steps: seq<Step>, k: nat)
    requires k < |w.pool|
  {
    (w.pool[k].inUse <==> HeldBySome(w.threads, k)) && (!w.pool[k].inUse ==> ReleasedAt(steps, k, w.pool[k].lastUsed))
  }

  // ---------------------------------------------------------------- steps

  lemma ReleasedMore(steps: seq<Step>, s: Step, c: Conn, time: int)
    ensures ReleasedAt(steps + [s], c, time) <==>
              if s.GiveBack? && s.c == c then s.now == time else ReleasedAt(steps, c, time)
  {
    var more := steps + [s];
    assert more[|steps|] == s;
    if ReleasedAt(steps, c, time) && !(s.GiveBack? && s.c == c) {
      var m :| 0 <= m < |steps| && steps[m].GiveBack? && steps[m].c == c && steps[m].now == time
               && forall k | m < k < |steps| :: !(steps[k].GiveBack? && steps[k].c == c);
      assert more[m] == steps[m];
    }
    if ReleasedAt(more, c, time) && !(s.GiveBack? && s.c == c) {
      var m :| 0 <= m < |more| && more[m].GiveBack? && more[m].c == c && more[m].now == time
               && forall k | m < k < |more| :: !(more[k].GiveBack? && more[k].c == c);
      assert forall k | 0 <= k < |steps| :: more[k] == steps[k];
      assert steps[m].c == c;
    }
  }

  /** One thread has changed what it holds. */
  lemma HeldNow(threads: seq<Thread>, t: nat, x: Thread, c: Conn)
    requires t < |threads| && forall s, u | 0 <= s < u < |threads| :: threads[s].held !! threads[u].held
    ensures c in x.held ==> HeldBySome(threads[t := x], c)
    ensures c !in x.held && c in threads[t].held ==> !HeldBySome(threads[t := x], c)
    ensures c !in x.held && c !in threads[t].held ==> (HeldBySome(threads[t := x], c) <==> HeldBySome(threads, c))
  {
    var more := threads[t := x];
    if c in x.held {
      assert c in more[t].held;
    }
    if HeldBySome(threads, c) && c !in threads[t].held {
      var s :| 0 <= s < |threads| && c in threads[s].held;
      assert more[s] == threads[s];
    }
  }

  /** Which entry a grab takes: of the free ones the one released last, the oldest of several; or a new one. */
  lemma GrabbedIs(pool: Pool, next: Conn, now: int)
    requires forall k | 0 <= k < |pool| :: pool[k].conn == k
    requires next == |pool|
    ensures var (p, c) := Grabbed(pool, next, now);
            && c <= |pool|
            && (c < |pool| ==> p == pool[c := pool[c].(inUse := true)] && !pool[c].inUse
                               && forall d | 0 <= d < |pool| && !pool[d].inUse ::
                                    pool[d].lastUsed < pool[c].lastUsed || (pool[d].lastUsed == pool[c].lastUsed && c <= d))
            && (c == |pool| ==> p == pool + [Info(c, now, true)] && forall d | 0 <= d < |pool| :: pool[d].inUse)
  {
    var m := FindMru(pool);
    if m < |pool| {
      assert IsMax(pool, m);
    }
  }

  lemma TakeListed(w: World, steps: seq<Step>, t: nat, now: int)
    requires Enabled(w, Take(t, now)) && Listed(w, steps)
    ensures Listed(Apply(w, Take(t, now)), steps + [Take(t, now)])
  {
    hide Grabbed, ReleasedAt, HeldBySome;
    GrabbedIs(w.pool, w.next, now);
    var (p, c) := Grabbed(w.pool, w.next, now);
    var v, thread := Apply(w, Take(t, now)), Thread(Idle, w.threads[t].held + {c});
    assert c < w.next ==> Entry(w, steps, c);
    FreeHeldByNone(w.threads, c);
    forall k | 0 <= k < |p| ensures p[k].conn == k && Entry(v, steps + [Take(t, now)], k) {
      HeldNow(w.threads, t, thread, k);
      HeldThere(w.threads, t, k);
      if k < |w.pool| {
        assert Entry(w, steps, k);
        ReleasedMore(steps, Take(t, now), k, p[k].lastUsed);
      }
    }
  }

  lemma FreeHeldByNone(threads: seq<Thread>, c: Conn)
    ensures !HeldBySome(threads, c) ==> forall t | 0 <= t < |threads| :: c !in threads[t].held
  {
  }

  lemma FindIs(pool: Pool, c: Conn)
    requires c < |pool| && forall k | 0 <= k < |pool| :: pool[k].conn == k
    ensures Find(pool, c) == c
  {
    hide Find;
    assert pool[c].conn == c;
    var k := Find(pool, c);
    assert k <= c;
  }

  lemma GiveBackListed(w: World, steps: seq<Step>, t: nat, c: Conn, now: int)
    requires Enabled(w, GiveBack(t, c, now)) && Listed(w, steps)
    ensures Listed(Apply(w, GiveBack(t, c, now)), steps + [GiveBack(t, c, now)])
  {
    hide ReleasedAt, HeldBySome, Find;
    FindIs(w.pool, c);
    var s := GiveBack(t, c, now);
    var v, thread := Apply(w, s), Thread(Freed, w.threads[t].held - {c});
    forall k | 0 <= k < |v.pool| ensures v.pool[k].conn == k && Entry(v, steps + [s], k) {
      HeldNow(w.threads, t, thread, k);
      HeldThere(w.threads, t, k);
      assert Entry(w, steps, k);
      ReleasedMore(steps, s, k, v.pool[k].lastUsed);
    }
  }

  /** Steps that touch neither the pool nor what is held. */
  lemma OthersListed(w: World, steps: seq<Step>, s: Step)
    requires Enabled(w, s) && Listed(w, steps) && (s.Check? || s.Increment? || s.Decrement?)
    ensures Listed(Apply(w, s), steps + [s])
  {
    hide ReleasedAt, HeldBySome;
    var v := Apply(w, s);
    forall k | 0 <= k < |v.pool| ensures v.pool[k].conn == k && Entry(v, steps + [s], k) {
      assert Entry(w, steps, k);
      HeldNow(w.threads, s.t, v.threads[s.t], k);
      HeldThere(w.threads, s.t, k);
      assert v.threads == w.threads[s.t := v.threads[s.t]];
      ReleasedMore(steps, s, k, v.pool[k].lastUsed);
    }
  }

  lemma HeldThere(threads: seq<Thread>, t: nat, c: Conn)
    requires t < |threads|
    ensures c in threads[t].held ==> HeldBySome(threads, c)
  {
  }

  lemma {:induction false} AfterListed(max: nat, threads: nat, steps: seq<Step>)
    requires After(max, threads, steps).Some?
    ensures Listed(After(max, threads, steps).value, steps)
  {
    hide Apply, Listed, Enabled;
    if steps == [] {
      InitialListed(max, threads);
    } else {
      var n := |steps| - 1;
      AfterListed(max, threads, steps[..n]);
      var w, s := After(max, threads, steps[..n]).value, steps[n];
      assert steps == steps[..n] + [s];
      match s {
        case Take(t, now) => TakeListed(w, steps[..n], t, now);
        case GiveBack(t, c, now) => GiveBackListed(w, steps[..n], t, c, now);
        case _ => OthersListed(w, steps[..n], s);
      }
    }
  }

  lemma InitialListed(max: nat, threads: nat)
    ensures Listed(Initial(max, threads), [])
  {
  }

  // ---------------------------------------------------------------- what grab returns

  /**
   In every interleaving grab gives a thread a connection that nobody holds: of the free ones one that was
   released at the latest time, and the one made first if several were; a new one if none is free.
   */
  lemma GrabsLatest(max: nat, threads: nat, steps: seq<Step>, w: World, t: nat, now: int)
    requires After(max, threads, steps) == Some(w) && Enabled(w, Take(t, now))
    ensures var v := Apply(w, Take(t, now));
            exists c: Conn :: && v.threads[t].held == w.threads[t].held + {c} && !HeldBySome(w.threads, c)
                        && (if c == w.next then (forall d: Conn :: !Free(w, d)) && v.next == w.next + 1
                            else Free(w, c) && v.next == w.next && forall d: Conn | Free(w, d) :: Preferred(steps, c, d))
  {
    hide After, Grabbed, ReleasedAt, HeldBySome;
    AfterListed(max, threads, steps);
    GrabbedIs(w.pool, w.next, now);
    var c := Grabbed(w.pool, w.next, now).1;
    forall d: Conn ensures Free(w, d) <==> d < |w.pool| && !w.pool[d].inUse {
      assert d < |w.pool| ==> Entry(w, steps, d);
    }
    if c < w.next {
      assert Entry(w, steps, c);
      forall d: Conn | Free(w, d) ensures Preferred(steps, c, d) {
        assert Entry(w, steps, d);
      }
    } else {
      NewIsFree(w, steps, c);
    }
  }

  lemma NewIsFree(w: World, steps: seq<Step>, c: Conn)
    requires Listed(w, steps) && c == w.next
    ensures !HeldBySome(w.threads, c)
  {
    hide Entry;
  }

  /** Both have been released, and c not before d; at the same time, c is the older connection. */
  ghost predicate Preferred(steps: seq<Step>, c: Conn, d: Conn) {
    exists a, b :: ReleasedAt(steps, c, a) && ReleasedAt(steps, d, b) && (b < a || (b == a && c <= d))
  }
}
