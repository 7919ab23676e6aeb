/** canceled() child by child reaches the same RPCs as the closed form used by Timeout. */
module CallbackCancel {
  import opened Options
  import opened CallbackModel
  import opened CallbackTimeout

  /** y is k or below it. */
  ghost predicate Within(s: State, k: Id, y: Id)
    requires Shape(s)
  {
    y in s.nodes && (y == k || Under(s, k, y))
  }

  ghost function Reached(s: State, ks: seq<Id>): set<Id>
    requires Shape(s)
  {
    set y | y in s.nodes && exists k | k in ks :: Within(s, k, y)
  }

  lemma UnderParent(s: State, k: Id, y: Id)
    requires Shape(s) && y in s.nodes && Under(s, k, y)
    ensures var p := s.nodes[y].parent.value; p in s.nodes && Kid(s.nodes, p, y) && Within(s, k, p)
  {
    assert Kid(s.nodes, s.nodes[y].parent.value, y);
  }

  lemma CancelShape(s: State, ys: set<Id>)
    requires Shape(s)
    ensures Shape(Cancel(s, ys))
  {
    hide Forest;
  }

  lemma UnderStable(s: State, ys: set<Id>, k: Id, y: Id)
    requires Shape(s) && Shape(Cancel(s, ys)) && y in s.nodes && k !in ys && ys !! Below(s, k)
    ensures Under(Cancel(s, ys), k, y) == Under(s, k, y)
    decreases s.nodes[y].depth
  {
    if s.nodes[y].parent.Some? {
      var p := s.nodes[y].parent.value;
      assert Kid(s.nodes, p, y);
      UnderStable(s, ys, k, p);
    }
  }

  lemma BelowStable(s: State, ys: set<Id>, k: Id)
    requires Shape(s) && k !in ys && ys !! Below(s, k)
    ensures Shape(Cancel(s, ys)) && Below(Cancel(s, ys), k) == Below(s, k)
  {
    CancelShape(s, ys);
    forall y | y in s.nodes ensures Under(Cancel(s, ys), k, y) == Under(s, k, y) {
      UnderStable(s, ys, k, y);
    }
  }

  lemma CancelTwice(s: State, a: set<Id>, b: set<Id>)
    requires a !! b
    ensures Cancel(Cancel(s, a), b) == Cancel(s, a + b)
  {
    assert |a + b| == |a| + |b|;
    assert s.wait - a - b == s.wait - (a + b);
  }

  lemma WithinUnique(s: State, j: Id, k: Id, y: Id)
    requires Shape(s) && j in s.nodes && k in s.nodes && s.nodes[j].depth == s.nodes[k].depth
    requires Within(s, j, y) && Within(s, k, y)
    ensures j == k
    decreases if y in s.nodes then s.nodes[y].depth else 0
  {
    if y == j {
      if Under(s, k, y) {
        UnderDeeper(s, k, y);
      }
    } else if y == k {
      UnderDeeper(s, j, y);
    } else {
      UnderParent(s, j, y);
      UnderParent(s, k, y);
      WithinUnique(s, j, k, s.nodes[y].parent.value);
    }
  }

  /** Below x is what is within one of its children. */
  lemma UnderSplit(s: State, x: Id, y: Id)
    requires Shape(s) && x in s.nodes && y in s.nodes
    ensures Under(s, x, y) <==> exists k | k in s.children[x] :: Within(s, k, y)
    decreases s.nodes[y].depth
  {
    if s.nodes[y].parent.Some? {
      var p := s.nodes[y].parent.value;
      assert Kid(s.nodes, p, y);
      UnderSplit(s, x, p);
      if Under(s, x, y) {
        if p == x {
          assert Within(s, y, y);
        } else {
          var k :| k in s.children[x] && Within(s, k, p);
          assert Within(s, k, y);
        }
      }
      forall k | k in s.children[x] && Within(s, k, y) ensures Under(s, x, y) {
        assert Kid(s.nodes, x, k);
        if k != y {
          UnderParent(s, k, y);
        }
      }
    } else {
      forall k | k in s.children[x] ensures !Within(s, k, y) {
        assert Kid(s.nodes, x, k);
      }
    }
  }

  lemma ReachedAll(s: State, x: Id)
    requires Shape(s) && x in s.nodes
    ensures Reached(s, Sorted(s.children[x])) == Below(s, x)
  {
    var ks := Sorted(s.children[x]);
    forall y | y in s.nodes ensures y in Reached(s, ks) <==> y in Below(s, x) {
      UnderSplit(s, x, y);
    }
  }

  lemma ReachedApart(s: State, x: Id, ks: seq<Id>, i: nat, y: Id)
    requires Shape(s) && x in s.nodes && ks == Sorted(s.children[x]) && i < |ks| && Kid(s.nodes, x, ks[i])
    requires y in Reached(s, ks[..i])
    ensures !Within(s, ks[i], y)
  {
    var j :| j in ks[..i] && Within(s, j, y);
    assert j in s.children[x] && Kid(s.nodes, x, j);
    if Within(s, ks[i], y) {
      hide Sorted;
      WithinUnique(s, j, ks[i], y);
    }
  }

  lemma ReachedOneMore(s: State, ks: seq<Id>, i: nat)
    requires Shape(s) && i < |ks|
    ensures Reached(s, ks[..i + 1]) == Reached(s, ks[..i]) + (set y | y in s.nodes && Within(s, ks[i], y))
  {
    hide Within, Shape;
    assert ks[..i + 1] == ks[..i] + [ks[i]];
    forall y | y in s.nodes ensures y in Reached(s, ks[..i + 1]) <==> y in Reached(s, ks[..i]) || Within(s, ks[i], y) {
      if Within(s, ks[i], y) {
        assert ks[i] in ks[..i + 1];
      }
    }
  }

  lemma ReachedNext(s: State, x: Id, ks: seq<Id>, i: nat)
    requires Shape(s) && x in s.nodes && ks == Sorted(s.children[x]) && i < |ks|
    ensures ks[i] in s.children[x] && Kid(s.nodes, x, ks[i])
    ensures Reached(s, ks[..i]) !! (Below(s, ks[i]) + {ks[i]})
    ensures Reached(s, ks[..i + 1]) == Reached(s, ks[..i]) + (Below(s, ks[i]) + {ks[i]})
  {
    hide Sorted, Reached, Below, Within, Forest;
    var k := ks[i];
    assert k in ks && k in s.children[x] && Kid(s.nodes, x, k);
    ReachedOneMore(s, ks, i);
    WithinIs(s, k);
    forall y | y in Reached(s, ks[..i]) ensures y !in Below(s, k) + {k} {
      ReachedApart(s, x, ks, i, y);
      assert y in s.nodes ==> (y in (set z | z in s.nodes && Within(s, k, z)) <==> Within(s, k, y));
    }
    ReachedNodes(s, ks[..i]);
  }

  lemma WithinIs(s: State, k: Id)
    requires Shape(s) && k in s.nodes
    ensures (set y | y in s.nodes && Within(s, k, y)) == Below(s, k) + {k}
  {
    hide Forest;
  }

  lemma ReachedNodes(s: State, ks: seq<Id>)
    requires Shape(s)
    ensures Reached(s, ks) <= s.nodes.Keys
  {
  }
}
