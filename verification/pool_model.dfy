/**
 common/pool.h: a connection pool whose limit is checked and counted in separate steps, used by any
 number of threads. A step is what happens without another thread in between: reading conns_in_use_,
 changing it under its mutex, or one call of the base pool under that pool's mutex.
 */
module PoolModel {
  import opened Options

  type Conn = nat

  /** ConnectionInfo. */
  datatype Info = Info(conn: Conn, lastUsed: int, inUse: bool)

  type Pool = seq<Info>

  /** operator<: connections in use come first, within a group the longer untouched. */
  predicate Less(a: Info, b: Info) {
    if a.inUse == b.inUse then a.lastUsed < b.lastUsed else a.inUse
  }

  /** std::max_element: the first entry that no other is greater than. */
  predicate IsMax(pool: Pool, m: nat) {
    && m < |pool|
    && (forall k | 0 <= k < |pool| :: !Less(pool[m], pool[k]))
    && (forall k | 0 <= k < m :: Less(pool[k], pool[m]))
  }

  /** The max_element of a pool that is not empty. */
  function Max(pool: Pool): (m: nat)
    requires pool != []
    ensures IsMax(pool, m)
  {
    if |pool| == 1 then 0 else
      var last := |pool| - 1;
      var m := Max(pool[..last]);
      assert forall k | 0 <= k < last :: pool[..last][k] == pool[k];
      if Less(pool[m], pool[last]) then last else m
  }

  /** find_mru: the position of the free connection used last. */
  function FindMru(pool: Pool): (m: nat)
    ensures m <= |pool|
    ensures m < |pool| <==> exists k :: 0 <= k < |pool| && !pool[k].inUse
    ensures m < |pool| ==> !pool[m].inUse && forall k | 0 <= k < |pool| && !pool[k].inUse :: pool[k].lastUsed <= pool[m].lastUsed
  {
    if pool == [] then 0 else
      var m := Max(pool);
      if pool[m].inUse then |pool| else m
  }

  /** ConnectionPool::grab; a new connection has the number next. */
  function Grabbed(pool: Pool, next: Conn, now: int): (Pool, Conn) {
    var m := FindMru(pool);
    if m < |pool| then (pool[m := pool[m].(inUse := true)], pool[m].conn)
    else (pool + [Info(next, now, true)], next)
  }

  /** The position of a connection. */
  function Find(pool: Pool, c: Conn): (k: nat)
    ensures k <= |pool| && (k < |pool| ==> pool[k].conn == c)
    ensures forall j | 0 <= j < k :: pool[j].conn != c
  {
    if pool == [] || pool[0].conn == c then 0 else 1 + Find(pool[1..], c)
  }

  /** ConnectionPool::release. */
  function Released(pool: Pool, c: Conn, now: int): Pool {
    var k := Find(pool, c);
    if k < |pool| then pool[k := pool[k].(inUse := false, lastUsed := now)] else pool
  }

  // ---------------------------------------------------------------- threads

  /** In grab: the check has passed; the counter is incremented. In release: the base pool has it back. */
  datatype Phase = Idle | Passed | Counted | Freed

  datatype Thread = Thread(phase: Phase, held: set<Conn>)

  /** conns_max_, conns_in_use_, pool_, the number of the next new connection, the threads. */
  datatype World = World(max: nat, count: int, pool: Pool, next: Conn, threads: seq<Thread>)

  datatype Step =
    | Check(t: nat)
    | Increment(t: nat)
    | Take(t: nat, now: int)
    | GiveBack(t: nat, c: Conn, now: int)
    | Decrement(t: nat)

  /** A thread takes its steps in order, and gives back only what it has grabbed. */
  predicate Enabled(w: World, s: Step) {
    s.t < |w.threads| &&
    var thread := w.threads[s.t];
    match s
    case Check(_) => thread.phase == Idle
    case Increment(_) => thread.phase == Passed
    case Take(_, _) => thread.phase == Counted
    case GiveBack(_, c, _) => thread.phase == Idle && c in thread.held
    case Decrement(_) => thread.phase == Freed
  }

  function To(w: World, t: nat, phase: Phase, held: set<Conn>): seq<Thread>
    requires t < |w.threads|
  {
    w.threads[t := Thread(phase, held)]
  }

  /** A check that fails is a turn of the waiting loop, or a grab that returns NULL. */
  function Apply(w: World, s: Step): World
    requires Enabled(w, s)
  {
    var held := w.threads[s.t].held;
    match s
    case Check(t) => if w.count < w.max then w.(threads := To(w, t, Passed, held)) else w
    case Increment(t) => w.(count := w.count + 1, threads := To(w, t, Counted, held))
    case Take(t, now) =>
      var (pool, c) := Grabbed(w.pool, w.next, now);
      w.(pool := pool, next := if c == w.next then w.next + 1 else w.next, threads := To(w, t, Idle, held + {c}))
    case GiveBack(t, c, now) =>
      w.(pool := Released(w.pool, c, now), threads := To(w, t, Freed, held - {c}))
    case Decrement(t) => w.(count := w.count - 1, threads := To(w, t, Idle, held))
  }

  function Initial(max: nat, threads: nat): World {
    World(max, 0, [], 0, seq(threads, _ => Thread(Idle, {})))
  }

  /** The world after a history of steps, if each was enabled when its turn came. */
  function After(max: nat, threads: nat, steps: seq<Step>): Option<World> {
    if steps == [] then Some(Initial(max, threads)) else
      var w, s := After(max, threads, steps[..|steps| - 1]), steps[|steps| - 1];
      if w.Some? && Enabled(w.value, s) then Some(Apply(w.value, s)) else None
  }
}
