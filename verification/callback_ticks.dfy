/**
 Who leaves the wait queue by a turn of run(), and what becomes of the comment "this will timeout next
 tick" in childTimeouted: read off the state before the turn, entry by entry of wait_by_time_.
 */
module CallbackTicks {
  import opened Options
  import opened CallbackModel
  import opened CallbackInvariant
  import opened CallbackSteps
  import opened CallbackCall
  import opened CallbackRun
  import opened CallbackTimeout
  import opened CallbackApi
  import opened CallbackTheorems
  import opened CallbackOrder
  import opened CallbackProgress
  import opened CallbackRace

  // ---------------------------------------------------------------- chains of waiting RPCs

  /** y is x or above it, and everything from x up to y waits. */
  ghost predicate Chain(s: State, y: Id, x: Id)
    decreases if x in s.nodes then s.nodes[x].depth else 0
  {
    x in s.nodes && x in s.wait &&
    (y == x || (s.nodes[x].parent.Some? &&
                var p := s.nodes[x].parent.value;
                p in s.nodes && s.nodes[p].depth < s.nodes[x].depth && Chain(s, y, p)))
  }

  lemma ChainParent(s: State, y: Id, x: Id)
    requires Shape(s) && x in s.nodes && x in s.wait && y != x
    ensures Chain(s, y, x) <==> s.nodes[x].parent.Some? && Chain(s, y, s.nodes[x].parent.value)
    ensures s.nodes[x].parent.Some? ==> s.nodes[x].parent.value in s.nodes && s.nodes[s.nodes[x].parent.value].depth < s.nodes[x].depth
  {
    hide Chain;
    ChainUnfolds(s, y, x);
  }

  lemma ChainUnfolds(s: State, y: Id, x: Id)
    ensures Chain(s, y, x) <==>
              x in s.nodes && x in s.wait &&
              (y == x || (s.nodes[x].parent.Some? &&
                          var p := s.nodes[x].parent.value;
                          p in s.nodes && s.nodes[p].depth < s.nodes[x].depth && Chain(s, y, p)))
  {
  }

  lemma {:induction false} ChainTrans(s: State, z: Id, y: Id, x: Id)
    requires Chain(s, z, y) && Chain(s, y, x)
    ensures Chain(s, z, x)
    decreases if x in s.nodes then s.nodes[x].depth else 0
  {
    if y != x {
      ChainTrans(s, z, y, s.nodes[x].parent.value);
    }
  }

  lemma {:induction false} ChainWaits(s: State, y: Id, x: Id)
    requires Chain(s, y, x)
    ensures y in s.nodes && y in s.wait
    decreases if x in s.nodes then s.nodes[x].depth else 0
  {
    if y != x {
      ChainWaits(s, y, s.nodes[x].parent.value);
    }
  }

  /** The timeout of a waiting RPC takes along exactly those that hang on it by waiting RPCs. */
  lemma {:induction false} ReachedByChain(s: State, z: Id, x: Id)
    requires Quiet(s) && Shape(s) && z in s.wait && x in s.wait && x in s.nodes
    ensures x in Below(s, z) + {z} <==> Chain(s, z, x)
    decreases s.nodes[x].depth
  {
    hide Quiet, Forest;
    if x != z {
      ReachedThroughParent(s, z, x);
      ChainParent(s, z, x);
      if s.nodes[x].parent.Some? && s.nodes[x].parent.value in s.wait {
        ReachedByChain(s, z, s.nodes[x].parent.value);
      }
    }
  }

  // ---------------------------------------------------------------- the timeout loop, exactly

  /**
   The loop, from position i on, times out the RPC of entry j: it waits, and its time is over or will be
   because one of its children has an entry before it that is timed out.
   */
  ghost predicate Fires(s: State, i: nat, j: nat, now: int)
    requires Shape(s) && i <= j < |s.index|
    decreases j
  {
    var y := s.index[j].1;
    && y in s.wait
    && (Due(s, y, now)
        || (now >= s.nodes[y].created && exists k :: i <= k < j && s.index[k].1 in s.children[y] && Fires(s, i, k, now)))
  }

  /** x goes in the rest of the loop: with an entry of its own, or of a waiting RPC that it hangs on. */
  ghost predicate Leaves(s: State, i: nat, now: int, x: Id)
    requires Shape(s)
  {
    exists j :: i <= j < |s.index| && Chain(s, s.index[j].1, x) && Fires(s, i, j, now)
  }

  lemma EntryIs(s: State, j: nat)
    requires Shape(s) && j < |s.index|
    ensures var y := s.index[j].1; y in s.nodes && y in s.timeout && y in s.children
  {
    assert s.index[j] in s.index;
  }

  /** The entry at i fires exactly if its own time is over. */
  lemma FirstFires(s: State, i: nat, now: int)
    requires Shape(s) && i < |s.index|
    ensures var y := s.index[i].1; y in s.nodes && y in s.timeout && (Fires(s, i, i, now) <==> y in s.wait && Due(s, y, now))
  {
    hide Shape;
    EntryIs(s, i);
  }

  /** An entry that does not fire makes no difference to those behind it. */
  lemma {:induction false} FiresBehind(s: State, i: nat, j: nat, now: int)
    requires Shape(s) && i < j < |s.index| && !Fires(s, i, i, now)
    ensures Fires(s, i + 1, j, now) <==> Fires(s, i, j, now)
    decreases j
  {
    hide Shape;
    EntryIs(s, j);
    forall k | i < k < j ensures Fires(s, i + 1, k, now) <==> Fires(s, i, k, now) {
      FiresBehind(s, i, k, now);
    }
  }

  // ---------------------------------------------------------------- one turn of the loop

  lemma WithoutAt(index: seq<(int, Id)>, i: nat)
    requires i < |index|
    ensures |Without(index, i)| == |index| - 1
    ensures forall k | i < k < |index| :: Without(index, i)[k - 1] == index[k]
    ensures forall k | 0 <= k < i :: Without(index, i)[k] == index[k]
  {
  }

  /** Dropping an entry of an RPC that does not wait. */
  lemma {:induction false} FiresDropped(s: State, i: nat, j: nat, now: int)
    requires Shape(s) && i < j < |s.index| && s.index[i].1 !in s.wait
    ensures var t := s.(index := Without(s.index, i)); Shape(t) && |t.index| == |s.index| - 1 && (Fires(t, i, j - 1, now) <==> Fires(s, i, j, now))
    decreases j
  {
    hide Forest, Without;
    var t := s.(index := Without(s.index, i));
    WithoutAt(s.index, i);
    WithoutPart(s.index, i);
    EntryIs(s, j);
    FirstFires(s, i, now);
    var y := s.index[j].1;
    forall k | i < k < j ensures Fires(t, i, k - 1, now) <==> Fires(s, i, k, now) {
      FiresDropped(s, i, k, now);
    }
    if k :| i <= k < j && s.index[k].1 in s.children[y] && Fires(s, i, k, now) {
      assert t.index[k - 1] == s.index[k] && Fires(t, i, k - 1, now);
    }
    if k :| i <= k < j - 1 && t.index[k].1 in t.children[y] && Fires(t, i, k, now) {
      assert t.index[k] == s.index[k + 1] && Fires(s, i, k + 1, now);
    }
  }

  /** The entry at i has been timed out: the state the loop goes on with. */
  ghost function After(s: State, i: nat): State
    requires Shape(s) && i < |s.index| && s.index[i].1 in s.wait
  {
    Timeout(s, s.index[i].1).(index := Without(s.index, i))
  }

  /** What the timeout of z leaves to an RPC that does not hang on it. */
  lemma AfterKeeps(s: State, i: nat, y: Id)
    requires Quiet(s) && Shape(s) && i < |s.index| && s.index[i].1 in s.wait && y in s.wait && !Chain(s, s.index[i].1, y)
    ensures var z, t := s.index[i].1, After(s, i);
            && Shape(t) && t.nodes == s.nodes && t.index == Without(s.index, i)
            && y in s.nodes && y in t.wait && y in s.children && y in t.children && t.children[y] == s.children[y]
            && y in s.timeout && y in t.timeout
            && t.timeout[y] == (if s.nodes[z].parent == Some(y) then 0 else s.timeout[y])
  {
    hide Quiet, Forest, Timeout, Below;
    var z := s.index[i].1;
    ReachedByChain(s, z, y);
    TimeoutIs(s, z);
    AfterShape(s, i);
  }

  lemma AfterShape(s: State, i: nat)
    requires Shape(s) && i < |s.index| && s.index[i].1 in s.wait
    ensures var t := After(s, i);
            && Shape(t) && t.nodes == s.nodes && t.index == Without(s.index, i)
            && t.wait == s.wait - (Below(s, s.index[i].1) + {s.index[i].1})
  {
    hide Shape, Timeout, Below;
    EntryIs(s, i);
    TimeoutIs(s, s.index[i].1);
    TimeoutShape(s, s.index[i].1);
    ShapeIndex(Timeout(s, s.index[i].1), Without(s.index, i));
    WithoutPart(s.index, i);
  }

  lemma ShapeIndex(s: State, index: seq<(int, Id)>)
    requires Shape(s) && forall e | e in index :: e in s.index
    ensures Shape(s.(index := index))
  {
    hide Forest;
  }

  /** A waiting RPC is in its parent's map. */
  lemma WaitingKid(s: State, z: Id)
    requires Quiet(s) && Shape(s) && z in s.wait && z in s.nodes
    ensures forall y | y in s.children :: z in s.children[y] <==> s.nodes[z].parent == Some(y)
  {
    hide Forest, Times, Books, History, Stack;
    QuietParts(s);
    forall y | y in s.children ensures z in s.children[y] <==> s.nodes[z].parent == Some(y) {
      assert Kid(s.nodes, y, z) <==> s.nodes[z].parent == Some(y);
    }
  }

  /** A child of an RPC that does not hang on z does not either, but for z itself. */
  lemma KidNotReached(s: State, z: Id, y: Id, k: Id)
    requires Quiet(s) && Shape(s) && y in s.children && k in s.children[y] && k in s.wait && k != z && !Chain(s, z, y)
    ensures k in s.nodes && !Chain(s, z, k)
  {
    hide Quiet, Forest;
    WaitsKnown(s);
    WaitingKid(s, k);
    ChainParent(s, z, k);
  }

  lemma WaitsKnown(s: State)
    requires Shape(s)
    ensures s.wait <= s.nodes.Keys && s.children.Keys == s.nodes.Keys
  {
  }

  /** Due afterwards: it was due before, or z is its child. */
  lemma DueAfter(s: State, i: nat, y: Id, now: int)
    requires Quiet(s) && Shape(s) && i < |s.index| && s.index[i].1 in s.wait && y in s.wait && !Chain(s, s.index[i].1, y)
    ensures var z, t := s.index[i].1, After(s, i);
            && y in s.nodes && y in s.timeout && y in t.nodes && y in t.timeout && y in s.children
            && (Due(t, y, now) <==> Due(s, y, now) || (now >= s.nodes[y].created && z in s.children[y]))
  {
    hide Quiet, Forest, After;
    AfterKeeps(s, i, y);
    WaitsKnown(s);
    WaitingKid(s, s.index[i].1);
  }

  /** The children's entries before j fire alike with z timed out, but for those of z. */
  ghost predicate KidsAlike(s: State, i: nat, j: nat, now: int)
    requires Shape(s) && i < j < |s.index| && s.index[i].1 in s.wait && s.index[j].1 in s.children
  {
    AfterShape(s, i);
    forall k | i < k < j && s.index[k].1 in s.children[s.index[j].1] && s.index[k].1 != s.index[i].1 ::
      Fires(After(s, i), i, k - 1, now) <==> Fires(s, i, k, now)
  }

  lemma FiresForth(s: State, i: nat, j: nat, now: int)
    requires Quiet(s) && Shape(s) && i < j < |s.index| && s.index[i].1 in s.wait && s.index[j].1 in s.children
    requires s.index[j].1 in s.wait && !Chain(s, s.index[i].1, s.index[j].1) && KidsAlike(s, i, j, now) && Fires(s, i, j, now)
    ensures var t := After(s, i); Shape(t) && |t.index| == |s.index| - 1 && Fires(t, i, j - 1, now)
  {
    hide Quiet, Shape, After, Without, Due;
    var z, y, t := s.index[i].1, s.index[j].1, After(s, i);
    AfterShape(s, i);
    WithoutAt(s.index, i);
    AfterKeeps(s, i, y);
    DueAfter(s, i, y, now);
    if !Due(t, y, now) {
      var k :| i <= k < j && s.index[k].1 in s.children[y] && Fires(s, i, k, now);
      assert s.index[k].1 != z && k > i;
      assert t.index[k - 1] == s.index[k] && Fires(t, i, k - 1, now);
    }
  }

  lemma FiresBack(s: State, i: nat, j: nat, now: int)
    requires Quiet(s) && Shape(s) && i < j < |s.index| && Fires(s, i, i, now) && s.index[j].1 in s.children && s.index[i].1 in s.wait
    requires s.index[j].1 in s.wait && !Chain(s, s.index[i].1, s.index[j].1) && KidsAlike(s, i, j, now)
    requires var t := After(s, i); Shape(t) && |t.index| == |s.index| - 1 && Fires(t, i, j - 1, now)
    ensures Fires(s, i, j, now)
  {
    hide Quiet, Shape, After, Without, Due;
    var z, y, t := s.index[i].1, s.index[j].1, After(s, i);
    AfterShape(s, i);
    WithoutAt(s.index, i);
    AfterKeeps(s, i, y);
    DueAfter(s, i, y, now);
    if !Due(t, y, now) {
      var k :| i <= k < j - 1 && t.index[k].1 in t.children[y] && Fires(t, i, k, now);
      assert t.index[k] == s.index[k + 1] && s.index[k + 1].1 != z;
      assert Fires(s, i, k + 1, now);
    } else if !Due(s, y, now) {
      assert s.index[i].1 in s.children[y];
    }
  }

  /** Whoever does not hang on z fires after the timeout of z as it would have before it. */
  lemma {:induction false} FiresAfter(s: State, i: nat, j: nat, now: int)
    requires Quiet(s) && Shape(s) && i < j < |s.index| && Fires(s, i, i, now)
    requires s.index[j].1 in s.wait ==> !Chain(s, s.index[i].1, s.index[j].1)
    ensures var t := After(s, i); Shape(t) && |t.index| == |s.index| - 1 && (Fires(t, i, j - 1, now) <==> Fires(s, i, j, now))
    decreases j
  {
    hide Quiet, Shape, After, Without;
    var z, y, t := s.index[i].1, s.index[j].1, After(s, i);
    AfterShape(s, i);
    WithoutAt(s.index, i);
    if y in s.wait {
      AfterKeeps(s, i, y);
      DueAfter(s, i, y, now);
      forall k | i < k < j && s.index[k].1 in s.children[y] && s.index[k].1 != z
        ensures Fires(t, i, k - 1, now) <==> Fires(s, i, k, now)
      {
        if s.index[k].1 in s.wait {
          KidNotReached(s, z, y, s.index[k].1);
        }
        FiresAfter(s, i, k, now);
      }
      assert KidsAlike(s, i, j, now);
      if Fires(s, i, j, now) {
        FiresForth(s, i, j, now);
      }
      if Fires(t, i, j - 1, now) {
        FiresBack(s, i, j, now);
      }
    } else {
      NotFires(s, i, j, now);
      NotFires(t, i, j - 1, now);
    }
  }

  lemma NotFires(s: State, i: nat, j: nat, now: int)
    requires Shape(s) && i <= j < |s.index| && s.index[j].1 !in s.wait
    ensures !Fires(s, i, j, now)
  {
    hide Shape;
  }

  lemma {:induction false} ChainAfter(s: State, i: nat, y: Id, x: Id)
    requires Quiet(s) && Shape(s) && i < |s.index| && s.index[i].1 in s.wait && x in s.wait && !Chain(s, s.index[i].1, x)
    ensures Chain(After(s, i), y, x) <==> Chain(s, y, x)
    decreases if x in s.nodes then s.nodes[x].depth else 0
  {
    hide Quiet, Shape, After, Chain;
    var z, t := s.index[i].1, After(s, i);
    AfterShape(s, i);
    AfterKeeps(s, i, x);
    ChainUnfolds(s, y, x);
    ChainUnfolds(t, y, x);
    ChainUnfolds(s, z, x);
    if s.nodes[x].parent.Some? {
      var q := s.nodes[x].parent.value;
      ChainUnfolds(s, y, q);
      ChainUnfolds(t, y, q);
      if q in s.wait && q in s.nodes && s.nodes[q].depth < s.nodes[x].depth {
        ChainAfter(s, i, y, q);
      }
    }
  }

  /** A timeout at i: who stays has the same prospects as before. */
  lemma LeavesAfter(s: State, i: nat, now: int, x: Id)
    requires Quiet(s) && Shape(s) && i < |s.index| && Fires(s, i, i, now) && x in s.wait && x in s.nodes
    ensures s.index[i].1 in s.wait && Shape(After(s, i))
    ensures x !in After(s, i).wait ==> Leaves(s, i, now, x)
    ensures x in After(s, i).wait ==> (Leaves(After(s, i), i, now, x) <==> Leaves(s, i, now, x))
  {
    hide Quiet, Shape, After, Chain, Without, Below;
    var z, t := s.index[i].1, After(s, i);
    FirstFires(s, i, now);
    AfterShape(s, i);
    WithoutAt(s.index, i);
    ReachedByChain(s, z, x);
    if x in t.wait {
      if j :| i <= j < |s.index| && Chain(s, s.index[j].1, x) && Fires(s, i, j, now) {
        LeavesForth(s, i, j, now, x);
      }
      if j :| i <= j < |t.index| && Chain(t, t.index[j].1, x) && Fires(t, i, j, now) {
        LeavesBack(s, i, j, now, x);
      }
    } else {
      assert Chain(s, s.index[i].1, x);
    }
  }

  lemma LeavesForth(s: State, i: nat, j: nat, now: int, x: Id)
    requires Quiet(s) && Shape(s) && i <= j < |s.index| && Fires(s, i, i, now) && x in s.wait && !Chain(s, s.index[i].1, x)
    requires Chain(s, s.index[j].1, x) && Fires(s, i, j, now) && s.index[i].1 in s.wait
    ensures Shape(After(s, i)) && Leaves(After(s, i), i, now, x)
  {
    hide Quiet, Shape, After, Chain, Without, Fires;
    var z, t := s.index[i].1, After(s, i);
    AfterShape(s, i);
    WithoutAt(s.index, i);
    if Chain(s, z, s.index[j].1) {
      ChainTrans(s, z, s.index[j].1, x);
    }
    FiresAfter(s, i, j, now);
    ChainAfter(s, i, s.index[j].1, x);
    assert t.index[j - 1] == s.index[j];
  }

  lemma LeavesBack(s: State, i: nat, j: nat, now: int, x: Id)
    requires Quiet(s) && Shape(s) && i < |s.index| && Fires(s, i, i, now) && x in s.wait && !Chain(s, s.index[i].1, x)
    requires s.index[i].1 in s.wait && Shape(After(s, i)) && i <= j < |After(s, i).index|
    requires Chain(After(s, i), After(s, i).index[j].1, x) && Fires(After(s, i), i, j, now)
    ensures Leaves(s, i, now, x)
  {
    hide Quiet, Shape, After, Chain, Without, Fires;
    var z, t := s.index[i].1, After(s, i);
    AfterShape(s, i);
    WithoutAt(s.index, i);
    assert t.index[j] == s.index[j + 1];
    ChainAfter(s, i, s.index[j + 1].1, x);
    if Chain(s, z, s.index[j + 1].1) {
      ChainTrans(s, z, s.index[j + 1].1, x);
    }
    FiresAfter(s, i, j + 1, now);
  }

  /** No timeout at i. */
  lemma LeavesNext(s: State, i: nat, now: int, x: Id)
    requires Shape(s) && i < |s.index| && !Fires(s, i, i, now)
    ensures Leaves(s, i + 1, now, x) <==> Leaves(s, i, now, x)
  {
    hide Shape, Chain;
    forall j | i < j < |s.index| ensures Fires(s, i + 1, j, now) <==> Fires(s, i, j, now) {
      FiresBehind(s, i, j, now);
    }
    hide Fires;
    if j :| i <= j < |s.index| && Chain(s, s.index[j].1, x) && Fires(s, i, j, now) {
      assert Fires(s, i + 1, j, now);
    }
    if j :| i + 1 <= j < |s.index| && Chain(s, s.index[j].1, x) && Fires(s, i + 1, j, now) {
      assert Fires(s, i, j, now);
    }
  }

  lemma {:induction false} ChainIndex(s: State, index: seq<(int, Id)>, y: Id, x: Id)
    ensures Chain(s.(index := index), y, x) <==> Chain(s, y, x)
    decreases if x in s.nodes then s.nodes[x].depth else 0
  {
    if x in s.nodes && s.nodes[x].parent.Some? {
      var q := s.nodes[x].parent.value;
      if q in s.nodes && s.nodes[q].depth < s.nodes[x].depth {
        ChainIndex(s, index, y, q);
      }
    }
  }

  lemma LeavesDropped(s: State, i: nat, now: int, x: Id)
    requires Shape(s) && i < |s.index| && s.index[i].1 !in s.wait
    ensures var t := s.(index := Without(s.index, i)); Shape(t) && (Leaves(t, i, now, x) <==> Leaves(s, i, now, x))
  {
    hide Shape, Chain, Without, Fires;
    var t := s.(index := Without(s.index, i));
    WithoutAt(s.index, i);
    WithoutPart(s.index, i);
    ShapeIndex(s, Without(s.index, i));
    NotFires(s, i, i, now);
    forall j | i < j < |s.index| ensures Fires(t, i, j - 1, now) <==> Fires(s, i, j, now) {
      FiresDropped(s, i, j, now);
    }
    forall y ensures Chain(t, y, x) <==> Chain(s, y, x) {
      ChainIndex(s, Without(s.index, i), y, x);
    }
    if j :| i <= j < |s.index| && Chain(s, s.index[j].1, x) && Fires(s, i, j, now) {
      assert t.index[j - 1] == s.index[j] && Fires(t, i, j - 1, now);
    }
    if j :| i <= j < |t.index| && Chain(t, t.index[j].1, x) && Fires(t, i, j, now) {
      assert t.index[j] == s.index[j + 1] && Fires(s, i, j + 1, now);
    }
  }

  /** One turn of the loop. */
  lemma LeavesStep(s: State, i: nat, now: int, x: Id)
    requires Quiet(s) && Shape(s) && i < |s.index| && x in s.wait && x in s.nodes
    ensures var t := ScanAt(s, i, now); var j := if |t.index| < |s.index| then i else i + 1;
            && Shape(t) && j <= |t.index|
            && (x !in t.wait ==> Leaves(s, i, now, x))
            && (x in t.wait ==> (Leaves(t, j, now, x) <==> Leaves(s, i, now, x)))
  {
    hide Quiet, Shape, Timeout, Leaves, Fires, Without, Below, Due;
    var y := s.index[i].1;
    EntryIs(s, i);
    FirstFires(s, i, now);
    WithoutAt(s.index, i);
    if y !in s.wait {
      LeavesDropped(s, i, now, x);
    } else if Due(s, y, now) {
      AfterShape(s, i);
      LeavesAfter(s, i, now, x);
    } else {
      LeavesNext(s, i, now, x);
    }
  }

  /**
   Who leaves the queue in the timeout loop, for every state and every time: exactly those that hang, by
   waiting RPCs, on one whose entry fires.
   */
  lemma {:induction false} ScanExactly(s: State, i: nat, now: int, x: Id)
    requires Quiet(s) && Shape(s) && i <= |s.index| && x in s.wait
    ensures x !in Scan(s, i, now).wait <==> Leaves(s, i, now, x)
    decreases |s.index| - i
  {
    hide Quiet, Shape, ScanAt, Fires, Chain;
    if i < |s.index| {
      WaitsKnown(s);
      LeavesStep(s, i, now, x);
      ScanAtQuiet(s, i, now);
      ScanAtShrinks(s, i, now);
      var t := ScanAt(s, i, now);
      var j := if |t.index| < |s.index| then i else i + 1;
      ScanShrinks(t, j, now);
      if x in t.wait {
        ScanExactly(t, j, now, x);
      }
    }
  }

  // ---------------------------------------------------------------- limits

  /** p hangs on an RPC with a timeout, which may be itself. */
  ghost predicate Limited(s: State, p: Id) {
    exists y :: Chain(s, y, p) && y in s.nodes && s.nodes[y].limit != INFINITE
  }

  /** That is: it waits, and has a timeout, or its parent is limited. */
  lemma LimitedIs(s: State, p: Id)
    requires Shape(s) && p in s.nodes
    ensures Limited(s, p) <==>
              p in s.wait && (s.nodes[p].limit != INFINITE || (s.nodes[p].parent.Some? && Limited(s, s.nodes[p].parent.value)))
  {
    hide Shape, Chain;
    forall y | p in s.wait && y != p
      ensures Chain(s, y, p) <==> s.nodes[p].parent.Some? && Chain(s, y, s.nodes[p].parent.value)
    {
      ChainParent(s, y, p);
    }
    forall y ensures Chain(s, y, p) ==> p in s.wait {
      ChainUnfolds(s, y, p);
    }
    ChainUnfolds(s, p, p);
    if p in s.wait && s.nodes[p].parent.Some? {
      var q := s.nodes[p].parent.value;
      ParentHigher(s, p);
      if Chain(s, p, q) {
        ChainDepth(s, p, q);
      }
    }
  }

  lemma ParentHigher(s: State, p: Id)
    requires Shape(s) && p in s.nodes && s.nodes[p].parent.Some?
    ensures s.nodes[p].parent.value in s.nodes && s.nodes[s.nodes[p].parent.value].depth < s.nodes[p].depth
  {
  }

  lemma {:induction false} ChainDepth(s: State, y: Id, x: Id)
    requires Chain(s, y, x)
    ensures y in s.nodes && x in s.nodes && s.nodes[y].depth <= s.nodes[x].depth
    decreases if x in s.nodes then s.nodes[x].depth else 0
  {
    if y != x {
      ChainDepth(s, y, s.nodes[x].parent.value);
    }
  }

  /** Where a limited RPC has its entry, and when that is due. */
  lemma EntryOf(s: State, y: Id) returns (j: nat)
    requires Quiet(s) && Shape(s) && y in s.wait && y in s.nodes && s.nodes[y].limit != INFINITE
    ensures j < |s.index| && s.index[j].1 == y
    ensures y in s.timeout && s.timeout[y] <= s.nodes[y].limit
  {
    hide Stack, Books, History, Family, Waits, Forest;
    var e := (s.nodes[y].created, y);
    assert e in s.index;
    j :| 0 <= j < |s.index| && s.index[j] == e;
  }

  lemma EntryLimited(s: State, j: nat)
    requires Quiet(s) && Shape(s) && j < |s.index|
    ensures s.index[j].1 in s.nodes && s.nodes[s.index[j].1].limit != INFINITE
  {
    hide Stack, Books, History, Family, Waits, Forest;
    assert s.index[j] in s.index;
  }

  /** Some turn of run() takes a waiting RPC out of the queue if and only if it is limited. */
  lemma SweptIff(s: State, p: Id)
    requires Quiet(s) && Shape(s) && p in s.wait
    ensures (exists now :: p !in Scan(s, 0, now).wait) <==> Limited(s, p)
  {
    hide Quiet, Shape, Chain, Scan, Fires;
    if Limited(s, p) {
      var y :| Chain(s, y, p) && y in s.nodes && s.nodes[y].limit != INFINITE;
      ChainWaits(s, y, p);
      var now := s.nodes[y].created + s.nodes[y].limit;
      LimitLeaves(s, y, now, p);
      ScanExactly(s, 0, now, p);
    }
    if now :| p !in Scan(s, 0, now).wait {
      ScanExactly(s, 0, now, p);
      var j :| 0 <= j < |s.index| && Chain(s, s.index[j].1, p) && Fires(s, 0, j, now);
      EntryLimited(s, j);
    }
  }

  lemma LimitLeaves(s: State, y: Id, now: int, p: Id)
    requires Quiet(s) && Shape(s) && Chain(s, y, p) && y in s.wait && y in s.nodes && s.nodes[y].limit != INFINITE
    requires now >= s.nodes[y].created + s.nodes[y].limit
    ensures Leaves(s, 0, now, p)
  {
    hide Quiet, Shape, Chain;
    var j := EntryOf(s, y);
    assert Chain(s, s.index[j].1, p) && Fires(s, 0, j, now);
  }

  lemma Unswept(s: State, p: Id, now: int)
    requires Quiet(s) && Shape(s) && p in s.wait && !Limited(s, p)
    ensures p in Scan(s, 0, now).wait
  {
    hide Quiet, Shape, Limited, Scan;
    SweptIff(s, p);
  }

  // ---------------------------------------------------------------- a limit does not come later

  lemma StaysOutApply(s: State, op: Op, x: Id)
    requires Quiet(s) && (op.Submit? ==> CanSubmit(s, op.root)) && x in s.past.requested && x !in s.wait
    ensures Apply(s, op).Config? ==> x !in Apply(s, op).s.wait
  {
    hide Life, Stack, Books, Scan, RunToEnd, Forest, Shape;
    match op {
      case Submit(r) =>
      case Answer(a) =>
        AnswerInv(s, a);
        StaysOut(Config(if a in s.wait then Log(s, Event(Replied, a, {})) else s, [CallById(a)]), x);
      case Run(now) =>
        ScanQuiet(s, 0, now);
        QuietShape(s);
        ScanRequested(s, 0, now);
        ScanShrinks(s, 0, now);
        var t := Scan(s, 0, now);
        ReadyInv(t);
        StaysOut(Config(t.(ready := {}), [Loop(None, Sorted(t.ready))]), x);
    }
  }

  lemma ParentsRequested(s: State)
    requires Quiet(s)
    ensures forall q, k | Kid(s.nodes, q, k) && k in s.past.requested :: q in s.past.requested
    ensures s.wait <= s.past.requested
  {
    hide Shape, Exclusive, Family, Times, Books, History;
    QuietParts(s);
    forall q, k | Kid(s.nodes, q, k) && k in s.past.requested ensures q in s.past.requested {
      ParentRequested(s, k);
    }
  }

  lemma {:induction false} ChainBack(s: State, t: State, y: Id, p: Id)
    requires Chain(t, y, p) && t.nodes == s.nodes && p in s.past.requested
    requires forall q, k | Kid(s.nodes, q, k) && k in s.past.requested :: q in s.past.requested
    requires forall x | x in s.past.requested && x in t.wait :: x in s.wait
    ensures Chain(s, y, p)
    decreases if p in t.nodes then t.nodes[p].depth else 0
  {
    if y != p {
      assert Kid(s.nodes, s.nodes[p].parent.value, p);
      ChainBack(s, t, y, s.nodes[p].parent.value);
    }
  }

  /** Whoever waits without a limit does so after any operation. */
  lemma UnlimitedApply(s: State, op: Op, p: Id)
    requires Quiet(s) && (op.Submit? ==> CanSubmit(s, op.root)) && p in s.wait && !Limited(s, p)
    ensures Apply(s, op).Config? ==> !Limited(Apply(s, op).s, p)
  {
    hide Quiet, Apply, Chain;
    if Apply(s, op).Config? {
      var t := Apply(s, op).s;
      ParentsRequested(s);
      forall x | x in s.past.requested && x in t.wait ensures x in s.wait {
        if x !in s.wait {
          StaysOutApply(s, op, x);
        }
      }
      if y :| Chain(t, y, p) && y in t.nodes && t.nodes[y].limit != INFINITE {
        ChainBack(s, t, y, p);
      }
    }
  }

  // ---------------------------------------------------------------- a timed-out child

  /** p waits, and one of its children has timed out: childTimeouted has run. */
  ghost predicate Bereft(s: State, p: Id, c: Id) {
    && p in s.nodes && p in s.wait && p !in s.past.called
    && p in s.children && c in s.children[p] && c in s.past.timeouted
  }

  lemma BereftCall(s: State, x: Id, p: Id, c: Id)
    requires Shape(s) && Waits(s) && x in s.wait && x in s.nodes && Bereft(s, p, c) && x != p
    requires s.nodes[x].parent.Some? ==> s.nodes[x].parent.value in s.children
    ensures Bereft(Answered(s, x), p, c) && CallById(p) !in AnsweredFrames(s, x)
  {
    hide Forest;
    assert c !in s.wait;
  }

  lemma BereftRequest(s: State, r: Id, p: Id, c: Id)
    requires Shape(s) && Waits(s) && r in s.nodes && Bereft(s, p, c) && r !in s.past.requested
    ensures Bereft(Enqueue(s, r), p, c) && CallById(p) !in RequestFrames(s, r)
  {
    hide Forest, Insert, Sorted, First;
    assert r != p;
  }

  /** Nothing in a cascade completes p, unless somebody answers it by its id. */
  lemma BereftStep(cfg: Config, p: Id, c: Id)
    requires cfg.Config? && Inv(cfg) && cfg.stack != [] && Bereft(cfg.s, p, c) && CallById(p) !in cfg.stack && FramesInForest(cfg)
    ensures Step(cfg).Config? ==> Bereft(Step(cfg).s, p, c) && CallById(p) !in Step(cfg).stack
  {
    hide Forest, Exclusive, History, Family, Times, Pressed, Separate, Erasing, Waits, FrameOk, Enqueue, RequestFrames, CallStep,
         Answered, AnsweredFrames, Bereft;
    var s, f, rest := cfg.s, cfg.stack[0], cfg.stack[1..];
    assert cfg.stack == [f] + rest;
    FramesRest(s, f, rest);
    BereftParts(s, p, c);
    if f.Request? {
      RequestIsNew(s, f.id);
      BereftRequest(s, f.id, p, c);
    } else if f.Erase? {
      EraseCalled(s, f.id);
      BereftSame(s, s.(wait := s.wait - {f.id}), p, c);
    } else if f.Counted? {
      BereftSame(s, Step(cfg).s, p, c);
    } else if f.CallById? && f.id in s.wait {
      WaitingIsNode(s, f.id);
      StepCall(s, f.id, rest);
      BereftCall(s, f.id, p, c);
    }
  }

  lemma BereftParts(s: State, p: Id, c: Id)
    requires Bereft(s, p, c)
    ensures p in s.wait && p in s.children && s.children[p] != {} && p !in s.past.called
  {
  }

  lemma BereftSame(s: State, t: State, p: Id, c: Id)
    requires Bereft(s, p, c) && t.nodes == s.nodes && t.children == s.children && p in t.wait
    requires t.past == s.past.(replied := t.past.replied)
    ensures Bereft(t, p, c)
  {
  }

  lemma EraseCalled(s: State, x: Id)
    requires FrameOk(s, Erase(x))
    ensures x in s.past.called
  {
  }

  lemma {:induction false} BereftRun(cfg: Config, p: Id, c: Id)
    requires cfg.Config? && Inv(cfg) && Bereft(cfg.s, p, c) && CallById(p) !in cfg.stack
    ensures RunToEnd(cfg).Config? ==> Bereft(RunToEnd(cfg).s, p, c)
    decreases Unrequested(cfg), Uncalled(cfg), Weight(cfg.stack)
  {
    hide Life, Stack, Books, Bereft, Shape, Step;
    if cfg.stack != [] {
      InvReady(cfg);
      StepDescends(cfg);
      OneStep(cfg);
      BereftStep(cfg, p, c);
      if Step(cfg).Config? {
        BereftRun(Step(cfg), p, c);
      } else {
        BrokenEnds();
      }
    }
  }

  lemma BereftTimeout(s: State, x: Id, p: Id, c: Id)
    requires Shape(s) && x in s.nodes && Bereft(s, p, c) && p in Timeout(s, x).wait
    ensures Bereft(Timeout(s, x), p, c)
  {
    hide Timeout, Below, Shape;
    TimeoutIs(s, x);
  }

  lemma BereftScanAt(s: State, i: nat, now: int, p: Id, c: Id)
    requires Shape(s) && Bereft(s, p, c) && i < |s.index| && p in ScanAt(s, i, now).wait
    ensures Bereft(ScanAt(s, i, now), p, c)
  {
    hide Timeout, Shape;
    EntryIs(s, i);
    var y := s.index[i].1;
    if y in s.wait && Due(s, y, now) {
      BereftTimeout(s, y, p, c);
      BereftSame(Timeout(s, y), ScanAt(s, i, now), p, c);
    } else {
      BereftSame(s, ScanAt(s, i, now), p, c);
    }
  }

  lemma {:induction false} BereftScan(s: State, i: nat, now: int, p: Id, c: Id)
    requires Shape(s) && Bereft(s, p, c) && i <= |s.index| && p in Scan(s, i, now).wait
    ensures Bereft(Scan(s, i, now), p, c)
    decreases |s.index| - i
  {
    hide ScanAt, Shape, Bereft;
    if i < |s.index| {
      ScanAtShrinks(s, i, now);
      var t := ScanAt(s, i, now);
      var j := if |t.index| < |s.index| then i else i + 1;
      ScanShrinks(t, j, now);
      BereftScanAt(s, i, now, p, c);
      BereftScan(t, j, now, p, c);
    }
  }

  /** A tick takes p out in its timeout loop or not at all. */
  lemma BereftTick(s: State, now: int, p: Id, c: Id)
    requires Quiet(s) && Shape(s) && Bereft(s, p, c)
    ensures Apply(s, Run(now)).Config? && p in Scan(s, 0, now).wait ==> Bereft(Apply(s, Run(now)).s, p, c)
    ensures Apply(s, Run(now)).Config? && p !in Scan(s, 0, now).wait ==> p !in Apply(s, Run(now)).s.wait
  {
    hide Life, Stack, Books, Scan, RunToEnd, Forest, Shape, Bereft;
    ScanQuiet(s, 0, now);
    ScanRequested(s, 0, now);
    BereftParts(s, p, c);
    WasRequested(s, p);
    var t := Scan(s, 0, now);
    ReadyInv(t);
    if p in t.wait {
      BereftScan(s, 0, now, p, c);
      BereftSame(t, t.(ready := {}), p, c);
      BereftRun(Config(t.(ready := {}), [Loop(None, Sorted(t.ready))]), p, c);
    } else {
      StaysOut(Config(t.(ready := {}), [Loop(None, Sorted(t.ready))]), p);
    }
  }

  // ---------------------------------------------------------------- "this will timeout next tick"

  /** p's own entry fires at once, since its timeout is 0 now; without one it goes with its parent or not at all. */
  lemma BereftLeaves(s: State, now: int, p: Id, c: Id)
    requires Quiet(s) && Shape(s) && Bereft(s, p, c) && now >= s.nodes[p].created
    ensures Leaves(s, 0, now, p) <==>
              s.nodes[p].limit != INFINITE || (s.nodes[p].parent.Some? && Leaves(s, 0, now, s.nodes[p].parent.value))
  {
    hide Quiet, Shape, Chain, Fires;
    ChainUnfolds(s, p, p);
    if s.nodes[p].limit != INFINITE {
      var j := EntryOf(s, p);
      PressedNow(s, p, c);
      DueFires(s, j, now);
      assert Chain(s, s.index[j].1, p);
    } else {
      forall j | 0 <= j < |s.index|
        ensures Chain(s, s.index[j].1, p) <==> s.nodes[p].parent.Some? && Chain(s, s.index[j].1, s.nodes[p].parent.value)
      {
        EntryLimited(s, j);
        ChainParent(s, s.index[j].1, p);
      }
    }
  }

  lemma PressedNow(s: State, p: Id, c: Id)
    requires Quiet(s) && Shape(s) && Bereft(s, p, c)
    ensures p in s.timeout && s.timeout[p] == 0
  {
    hide Stack, Books, History, Family, Waits, Forest, Times;
  }

  lemma DueFires(s: State, j: nat, now: int)
    requires Shape(s) && j < |s.index| && s.index[j].1 in s.wait && s.index[j].1 in s.nodes && s.index[j].1 in s.timeout && Due(s, s.index[j].1, now)
    ensures Fires(s, 0, j, now)
  {
    hide Shape, Due;
  }

  /**
   When the comment in childTimeouted is right: a composite with a timed-out child leaves the queue in
   the next turn of run(), timeout loop and ready loop together, if and only if it was requested with a
   timeout, or its parent leaves in that turn, as the parent's chain and the time index tell beforehand.
   */
  lemma NextTickExactly(s: State, now: int, p: Id, c: Id)
    requires Quiet(s) && Shape(s) && Bereft(s, p, c) && now >= s.nodes[p].created && Apply(s, Run(now)).Config?
    ensures p !in Apply(s, Run(now)).s.wait <==>
              s.nodes[p].limit != INFINITE || (s.nodes[p].parent.Some? && Leaves(s, 0, now, s.nodes[p].parent.value))
  {
    hide Quiet, Shape, Leaves, Apply, Scan;
    ScanExactly(s, 0, now, p);
    BereftLeaves(s, now, p, c);
    BereftTick(s, now, p, c);
    if p in Scan(s, 0, now).wait {
      BereftParts(Apply(s, Run(now)).s, p, c);
    }
  }

  /** A composite one of whose children has timed out, and nothing that it hangs on has a timeout. */
  ghost predicate Stuck(s: State, p: Id, c: Id) {
    Bereft(s, p, c) && !Limited(s, p)
  }

  lemma StuckApply(s: State, op: Op, p: Id, c: Id)
    requires Quiet(s) && (op.Submit? ==> CanSubmit(s, op.root)) && Stuck(s, p, c) && op != Answer(p)
    ensures Apply(s, op).Config? ==> Stuck(Apply(s, op).s, p, c)
  {
    hide Life, Stack, Books, Shape, Scan, RunToEnd, Bereft, Limited;
    BereftParts(s, p, c);
    QuietShape(s);
    UnlimitedApply(s, op, p);
    match op {
      case Submit(r) => BereftSame(s, s.(ready := s.ready + {r}), p, c);
      case Answer(x) =>
        AnswerInv(s, x);
        var t := if x in s.wait then Log(s, Event(Replied, x, {})) else s;
        BereftSame(s, t, p, c);
        BereftRun(Config(t, [CallById(x)]), p, c);
      case Run(now) =>
        Unswept(s, p, now);
        BereftTick(s, now, p, c);
    }
  }

  /**
   The comment fails for good when nothing that the composite hangs on has a timeout: with the dead child
   in its map it never completes.
   */
  lemma {:induction false} StuckForever(s: State, ops: seq<Op>, p: Id, c: Id)
    requires Quiet(s) && Legal(s, ops) && Stuck(s, p, c) && Answer(p) !in ops
    ensures Execute(s, ops).Config? ==> Stuck(Execute(s, ops).s, p, c)
    decreases |ops|
  {
    hide Quiet, Apply, Stuck;
    if ops != [] {
      StuckApply(s, ops[0], p, c);
      if Apply(s, ops[0]).Config? {
        StuckForever(Apply(s, ops[0]).s, ops[1..], p, c);
      }
    }
  }

  /** After these operations, none of which is a reply to p, the timeout loop of a turn of run() leaves p out of the queue. */
  ghost predicate OutBy(s: State, p: Id, ops: seq<Op>, now: int)
    requires Quiet(s)
  {
    Legal(s, ops) && Answer(p) !in ops &&
    var c := Execute(s, ops);
    c.Config? && (QuietShape(c.s); p !in Scan(c.s, 0, now).wait)
  }

  /**
   Exactly: a composite with a timed-out child, at any depth, leaves the queue in some continuation of the
   run without a reply to its own id if and only if it is limited.
   */
  lemma LeavesIff(s: State, p: Id, c: Id)
    requires Quiet(s) && Bereft(s, p, c)
    ensures (exists ops, now :: OutBy(s, p, ops, now)) <==> Limited(s, p)
  {
    hide Quiet, Shape, Bereft, Limited, Scan, Execute, Legal;
    QuietShape(s);
    BereftParts(s, p, c);
    if Limited(s, p) {
      SweptIff(s, p);
      var now :| p !in Scan(s, 0, now).wait;
      NoOps(s);
      assert OutBy(s, p, [], now);
    } else if ops, now :| OutBy(s, p, ops, now) {
      StuckForever(s, ops, p, c);
      var t := Execute(s, ops).s;
      QuietShape(t);
      BereftParts(t, p, c);
      Unswept(t, p, now);
    }
  }

  lemma NoOps(s: State)
    requires Quiet(s)
    ensures Legal(s, []) && Execute(s, []) == Config(s, [])
  {
    hide Quiet;
  }

  /** In a forest without racy parallels every run goes on, so that p really leaves. */
  lemma LeavesRunIff(s: State, p: Id, c: Id)
    requires Quiet(s) && Shape(s) && Bereft(s, p, c) && NoRace(s.nodes, s.height)
    ensures (exists ops :: Legal(s, ops) && Answer(p) !in ops && Execute(s, ops).Config? && p !in Execute(s, ops).s.wait)
            <==> Limited(s, p)
  {
    hide Quiet, Shape, Bereft, Limited, Scan, NoRace;
    BereftParts(s, p, c);
    if Limited(s, p) {
      SweptIff(s, p);
      var now :| p !in Scan(s, 0, now).wait;
      OneTick(s, now);
      ShapeForest(s);
      NeverBroken(s, [Run(now)]);
      BereftTick(s, now, p, c);
      assert Legal(s, [Run(now)]) && p !in Execute(s, [Run(now)]).s.wait;
    } else if ops :| Legal(s, ops) && Answer(p) !in ops && Execute(s, ops).Config? && p !in Execute(s, ops).s.wait {
      StuckForever(s, ops, p, c);
      BereftParts(Execute(s, ops).s, p, c);
    }
  }

  lemma ShapeForest(s: State)
    requires Shape(s)
    ensures Forest(s.nodes, s.height)
  {
  }

  lemma OneTick(s: State, now: int)
    requires Quiet(s)
    ensures Legal(s, [Run(now)]) && Execute(s, [Run(now)]) == Apply(s, Run(now))
  {
    hide Quiet, Apply;
    if Apply(s, Run(now)).Config? {
      NoOps(Apply(s, Run(now)).s);
    }
  }
}
