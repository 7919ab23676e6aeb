/** Building trees with setChildren, from the root down, and handing them to a scheduler. */
module CallbackBuild {
  import opened Options
  import opened CallbackModel
  import opened CallbackApi
  import opened CallbackTicks
  import opened CallbackWitness
  import opened CallbackScheduler

  function NewIds(total: Id, n: nat): (ids: set<Id>)
    ensures forall k :: k in ids <==> total < k <= total + n
  {
    if n == 0 then {} else NewIds(total, n - 1) + {total + n}
  }

  /** A root on its own; timeoutms as call() sets it. */
  method NewRoot(kind: Kind, id: Id, createtime: int, timeoutms: nat)
    returns (root: AsyncRPC, ghost rpcs: map<Id, AsyncRPC>, ghost nodes: map<Id, Node>)
    ensures fresh(root) && root.id == id && root.kind == kind && root.children == map[]
    ensures rpcs == map[id := root] && nodes == map[id := Node(kind, None, 0, createtime, timeoutms)] && Built(rpcs, nodes, 0)
  {
    root := new AsyncRPC(kind, id, createtime);
    root.timeoutms := timeoutms;
    rpcs, nodes := map[id := root], map[id := Node(kind, None, 0, createtime, timeoutms)];
  }

  /** Everything about x but its children. */
  ghost predicate NodeIs(rpcs: map<Id, AsyncRPC>, nodes: map<Id, Node>, x: Id)
    requires x in rpcs
    reads rpcs.Values
  {
    && x in nodes && rpcs[x].id == x && rpcs[x].kind == nodes[x].kind && rpcs[x].createtime == nodes[x].created
    && rpcs[x].timeoutms == nodes[x].limit
    && (match nodes[x].parent
        case None => rpcs[x].parent == null
        case Some(q) => q in rpcs && rpcs[x].parent == rpcs[q])
  }

  ghost predicate ChildrenAre(rpcs: map<Id, AsyncRPC>, nodes: map<Id, Node>, x: Id)
    requires x in rpcs
    reads rpcs.Values
  {
    && (forall k :: k in rpcs[x].children <==> Kid(nodes, x, k))
    && (forall k | k in rpcs[x].children :: k in rpcs && rpcs[x].children[k] == rpcs[k])
  }

  lemma BuiltSays(rpcs: map<Id, AsyncRPC>, nodes: map<Id, Node>, height: nat, x: Id)
    requires Built(rpcs, nodes, height) && x in rpcs
    ensures NodeIs(rpcs, nodes, x) && ChildrenAre(rpcs, nodes, x)
  {
    hide Forest;
    assert nodes[x].parent.Some? ==> Kid(nodes, nodes[x].parent.value, x);
  }

  lemma NodeSays(rpcs: map<Id, AsyncRPC>, nodes: map<Id, Node>, x: Id)
    requires x in rpcs && NodeIs(rpcs, nodes, x) && ChildrenAre(rpcs, nodes, x)
    ensures var r := rpcs[x];
            && x in nodes && r.id == x && r.kind == nodes[x].kind && r.createtime == nodes[x].created && r.timeoutms == nodes[x].limit
            && (nodes[x].parent.None? ==> r.parent == null)
            && (forall p | Kid(nodes, p, x) :: p in rpcs && r.parent == rpcs[p])
            && (forall c :: c in r.children <==> Kid(nodes, x, c))
            && (forall k | k in r.children :: k in rpcs && r.children[k] == rpcs[k])
  {
  }

  lemma BuiltBy(rpcs: map<Id, AsyncRPC>, nodes: map<Id, Node>, height: nat)
    requires nodes.Keys == rpcs.Keys && Forest(nodes, height)
    requires forall x | x in rpcs :: NodeIs(rpcs, nodes, x) && ChildrenAre(rpcs, nodes, x)
    ensures Built(rpcs, nodes, height)
  {
    hide Forest, NodeIs, ChildrenAre, Kid;
    forall x | x in rpcs
      ensures x in nodes && rpcs[x].id == x && rpcs[x].kind == nodes[x].kind && rpcs[x].createtime == nodes[x].created
      ensures rpcs[x].timeoutms == nodes[x].limit && (nodes[x].parent.None? ==> rpcs[x].parent == null)
      ensures forall p | Kid(nodes, p, x) :: p in rpcs && rpcs[x].parent == rpcs[p]
      ensures forall c :: c in rpcs[x].children <==> Kid(nodes, x, c)
      ensures forall k | k in rpcs[x].children :: k in rpcs && rpcs[x].children[k] == rpcs[k]
    {
      NodeSays(rpcs, nodes, x);
    }
  }

  lemma BuiltIs(rpcs: map<Id, AsyncRPC>, nodes: map<Id, Node>, height: nat)
    ensures Built(rpcs, nodes, height) <==>
              && nodes.Keys == rpcs.Keys && Forest(nodes, height)
              && forall x | x in rpcs :: NodeIs(rpcs, nodes, x) && ChildrenAre(rpcs, nodes, x)
  {
    hide Forest, NodeIs, ChildrenAre, LinkedTo, Built;
    if Built(rpcs, nodes, height) {
      BuiltKeys(rpcs, nodes, height);
      forall x | x in rpcs ensures NodeIs(rpcs, nodes, x) && ChildrenAre(rpcs, nodes, x) {
        BuiltSays(rpcs, nodes, height, x);
      }
    }
    if nodes.Keys == rpcs.Keys && Forest(nodes, height) && forall x | x in rpcs :: NodeIs(rpcs, nodes, x) && ChildrenAre(rpcs, nodes, x) {
      BuiltBy(rpcs, nodes, height);
    }
  }

  lemma BuiltKeys(rpcs: map<Id, AsyncRPC>, nodes: map<Id, Node>, height: nat)
    requires Built(rpcs, nodes, height)
    ensures nodes.Keys == rpcs.Keys && Forest(nodes, height)
  {
    hide Forest;
  }

  // ---------------------------------------------------------------- two forests side by side

  /** Trees that have no id in common make one forest. */
  lemma Together(a: map<Id, AsyncRPC>, an: map<Id, Node>, ah: nat, b: map<Id, AsyncRPC>, bn: map<Id, Node>, bh: nat)
    requires Built(a, an, ah) && Built(b, bn, bh) && a.Keys !! b.Keys
    ensures Built(a + b, an + bn, if ah <= bh then bh else ah)
  {
    hide Built, Forest, NodeIs, ChildrenAre;
    var h := if ah <= bh then bh else ah;
    BuiltIs(a, an, ah);
    BuiltIs(b, bn, bh);
    ForestsTogether(an, ah, bn, bh);
    forall x | x in a + b ensures NodeIs(a + b, an + bn, x) && ChildrenAre(a + b, an + bn, x) {
      if x in a {
        NodeTogether(a, an, b, bn, x);
      } else {
        NodeTogether(b, bn, a, an, x);
        assert b + a == a + b && bn + an == an + bn;
      }
    }
    BuiltIs(a + b, an + bn, h);
  }

  lemma ForestsTogether(an: map<Id, Node>, ah: nat, bn: map<Id, Node>, bh: nat)
    requires Forest(an, ah) && Forest(bn, bh) && an.Keys !! bn.Keys
    ensures Forest(an + bn, if ah <= bh then bh else ah)
  {
  }

  lemma NodeTogether(a: map<Id, AsyncRPC>, an: map<Id, Node>, b: map<Id, AsyncRPC>, bn: map<Id, Node>, x: Id)
    requires a.Keys == an.Keys && b.Keys == bn.Keys && a.Keys !! b.Keys && x in a
    requires NodeIs(a, an, x) && ChildrenAre(a, an, x) && forall y | y in b :: NodeIs(b, bn, y)
    ensures NodeIs(a + b, an + bn, x) && ChildrenAre(a + b, an + bn, x)
  {
    forall k ensures Kid(an + bn, x, k) <==> Kid(an, x, k) {
      if k in b {
        assert NodeIs(b, bn, k);
      }
    }
  }

  // ---------------------------------------------------------------- setChildren: roots get new ids under p

  /** The id that the RPC under y had before. */
  function Before(ids: seq<Id>, total: Id, y: Id): Id {
    if total < y <= total + |ids| then ids[y - total - 1] else y
  }

  /** The id that x has now. */
  ghost function Now(ids: seq<Id>, total: Id, x: Id): Id {
    if x in ids then var k: nat :| k < |ids| && ids[k] == x; total + 1 + k else x
  }

  function NewKeys(keys: set<Id>, ids: seq<Id>, total: Id): set<Id> {
    keys - SetOf(ids) + NewIds(total, |ids|)
  }

  /** The ids of the new children are different ids of the forest, and total is behind all the others. */
  ghost predicate Fits(keys: set<Id>, ids: seq<Id>, total: Id) {
    && (forall j, k | 0 <= j < k < |ids| :: ids[j] != ids[k])
    && (forall x | x in ids :: x in keys)
    && (forall x | x in keys && x !in ids :: x <= total)
  }

  lemma BeforeNow(keys: set<Id>, ids: seq<Id>, total: Id, y: Id)
    requires Fits(keys, ids, total) && y in NewKeys(keys, ids, total)
    ensures Before(ids, total, y) in keys && Now(ids, total, Before(ids, total, y)) == y
    ensures Before(ids, total, y) in ids <==> total < y
    ensures total < y ==> y <= total + |ids|
  {
  }

  lemma NowBefore(keys: set<Id>, ids: seq<Id>, total: Id, x: Id)
    requires Fits(keys, ids, total) && x in keys
    ensures Now(ids, total, x) in NewKeys(keys, ids, total) && Before(ids, total, Now(ids, total, x)) == x
  {
  }

  ghost predicate Grafted(nodes: map<Id, Node>, height: nat, ids: seq<Id>, x: Id)
    requires Forest(nodes, height) && x in nodes
  {
    exists k | k in ids :: Above(nodes, height, k, x)
  }

  /** The objects under their new ids. */
  ghost function WithKids(rpcs: map<Id, AsyncRPC>, ids: seq<Id>, total: Id): map<Id, AsyncRPC>
    requires Fits(rpcs.Keys, ids, total)
  {
    map y | y in NewKeys(rpcs.Keys, ids, total) :: BeforeNow(rpcs.Keys, ids, total, y); rpcs[Before(ids, total, y)]
  }

  /** The node of x after the trees of ids have come under p. */
  ghost function NodeNow(nodes: map<Id, Node>, height: nat, p: Id, ids: seq<Id>, total: Id, x: Id): Node
    requires Forest(nodes, height) && p in nodes && x in nodes
  {
    var n := nodes[x];
    Node(n.kind,
         if x in ids then Some(p) else if n.parent.Some? then Some(Now(ids, total, n.parent.value)) else None,
         if Grafted(nodes, height, ids, x) then nodes[p].depth + 1 + n.depth else n.depth,
         n.created, n.limit)
  }

  ghost function WithNodes(nodes: map<Id, Node>, height: nat, p: Id, ids: seq<Id>, total: Id): map<Id, Node>
    requires Forest(nodes, height) && p in nodes && Fits(nodes.Keys, ids, total)
  {
    map y | y in NewKeys(nodes.Keys, ids, total) ::
      BeforeNow(nodes.Keys, ids, total, y); NodeNow(nodes, height, p, ids, total, Before(ids, total, y))
  }

  /** The entries are roots, and p is in none of their trees. */
  ghost predicate Graftable(nodes: map<Id, Node>, height: nat, p: Id, ids: seq<Id>)
    requires Forest(nodes, height)
  {
    p in nodes && !nodes[p].kind.Leaf? &&
    forall k | k in ids :: k in nodes && nodes[k].parent == None && nodes[k].depth == 0 && !Above(nodes, height, k, p)
  }

  lemma GraftedParent(nodes: map<Id, Node>, height: nat, p: Id, ids: seq<Id>, x: Id)
    requires Forest(nodes, height) && Graftable(nodes, height, p, ids) && x in nodes
    ensures !Grafted(nodes, height, ids, p) && p !in ids
    ensures x in ids ==> Grafted(nodes, height, ids, x)
    ensures nodes[x].parent.Some? ==>
              x !in ids && nodes[x].parent.value in nodes
              && (Grafted(nodes, height, ids, x) <==> Grafted(nodes, height, ids, nodes[x].parent.value))
  {
    hide Forest;
    assert Above(nodes, height, x, x) && Above(nodes, height, p, p);
    if nodes[x].parent.Some? {
      ParentIn(nodes, height, x);
      var q := nodes[x].parent.value;
      forall k | k in ids ensures Above(nodes, height, k, x) <==> Above(nodes, height, k, q) {
      }
    }
  }

  lemma ParentIn(nodes: map<Id, Node>, height: nat, x: Id)
    requires Forest(nodes, height) && x in nodes && nodes[x].parent.Some?
    ensures nodes[x].parent.value in nodes
  {
  }

  lemma NodeAt(nodes: map<Id, Node>, height: nat, p: Id, ids: seq<Id>, total: Id, y: Id)
    requires Forest(nodes, height) && p in nodes && Fits(nodes.Keys, ids, total) && y in NewKeys(nodes.Keys, ids, total)
    ensures var x := Before(ids, total, y);
            && x in nodes && y in WithNodes(nodes, height, p, ids, total)
            && WithNodes(nodes, height, p, ids, total)[y] == NodeNow(nodes, height, p, ids, total, x)
  {
    hide Forest, NodeNow, Now, NewKeys, Before;
    BeforeNow(nodes.Keys, ids, total, y);
  }

  lemma GraftedForest(nodes: map<Id, Node>, height: nat, p: Id, ids: seq<Id>, total: Id)
    requires Forest(nodes, height) && Graftable(nodes, height, p, ids) && Fits(nodes.Keys, ids, total)
    ensures Forest(WithNodes(nodes, height, p, ids, total), 2 * height + 1)
  {
    hide WithNodes, NewKeys, Now, Before, Above, Grafted;
    var after := WithNodes(nodes, height, p, ids, total);
    WithKeys(nodes, height, p, ids, total);
    forall y | y in after
      ensures after[y].depth <= 2 * height + 1
      ensures after[y].parent.Some? ==>
                && after[y].parent.value in after
                && after[y].depth == after[after[y].parent.value].depth + 1
                && !after[after[y].parent.value].kind.Leaf?
    {
      NodeAt(nodes, height, p, ids, total, y);
      var x := Before(ids, total, y);
      GraftedParent(nodes, height, p, ids, x);
      NowBefore(nodes.Keys, ids, total, p);
      NowSame(ids, total, p);
      NodeAt(nodes, height, p, ids, total, p);
      if x !in ids && nodes[x].parent.Some? {
        var q := nodes[x].parent.value;
        NowBefore(nodes.Keys, ids, total, q);
        NodeAt(nodes, height, p, ids, total, Now(ids, total, q));
      }
    }
  }

  lemma NowSame(ids: seq<Id>, total: Id, x: Id)
    requires x !in ids
    ensures Now(ids, total, x) == x
  {
  }

  lemma WithKeys(nodes: map<Id, Node>, height: nat, p: Id, ids: seq<Id>, total: Id)
    requires Forest(nodes, height) && p in nodes && Fits(nodes.Keys, ids, total)
    ensures WithNodes(nodes, height, p, ids, total).Keys == NewKeys(nodes.Keys, ids, total)
  {
    hide Forest, NodeNow, NewKeys, Before;
  }

  /** Who is whose child afterwards: the new children, and everybody else as before. */
  lemma GraftedKid(nodes: map<Id, Node>, height: nat, p: Id, ids: seq<Id>, total: Id, y: Id, k: Id)
    requires Forest(nodes, height) && Graftable(nodes, height, p, ids) && Fits(nodes.Keys, ids, total)
    requires y in NewKeys(nodes.Keys, ids, total)
    ensures Kid(WithNodes(nodes, height, p, ids, total), y, k) <==>
              (y == p && total < k <= total + |ids|) || Kid(nodes, Before(ids, total, y), k)
    ensures Kid(nodes, Before(ids, total, y), k) ==> k <= total
  {
    hide WithNodes, NewKeys, Now, Before, Above, Grafted, Forest;
    var x := Before(ids, total, y);
    WithKeys(nodes, height, p, ids, total);
    BeforeNow(nodes.Keys, ids, total, y);
    GraftedParent(nodes, height, p, ids, p);
    KeysAre(nodes.Keys, ids, total, k);
    if k in NewKeys(nodes.Keys, ids, total) {
      NodeAt(nodes, height, p, ids, total, k);
      BeforeNow(nodes.Keys, ids, total, k);
      GraftedParent(nodes, height, p, ids, Before(ids, total, k));
      if k <= total {
        BeforeSame(ids, total, k);
        if nodes[k].parent.Some? {
          NowBefore(nodes.Keys, ids, total, nodes[k].parent.value);
        }
      }
    }
    if Kid(nodes, x, k) {
      GraftedParent(nodes, height, p, ids, k);
    }
  }

  lemma BeforeSame(ids: seq<Id>, total: Id, y: Id)
    requires y <= total
    ensures Before(ids, total, y) == y
  {
  }

  lemma KeysAre(keys: set<Id>, ids: seq<Id>, total: Id, k: Id)
    requires Fits(keys, ids, total)
    ensures k in NewKeys(keys, ids, total) <==> (total < k <= total + |ids|) || (k in keys && k !in ids)
  {
  }

  lemma KidAt(rpcs: map<Id, AsyncRPC>, ids: seq<Id>, total: Id, y: Id)
    requires Fits(rpcs.Keys, ids, total) && y in NewKeys(rpcs.Keys, ids, total)
    ensures var x := Before(ids, total, y); x in rpcs && y in WithKids(rpcs, ids, total) && WithKids(rpcs, ids, total)[y] == rpcs[x]
    ensures WithKids(rpcs, ids, total).Keys == NewKeys(rpcs.Keys, ids, total)
  {
    hide NewKeys, Before;
    BeforeNow(rpcs.Keys, ids, total, y);
  }

  lemma NewKeysOnly(rpcs: map<Id, AsyncRPC>, ids: seq<Id>, total: Id)
    requires Fits(rpcs.Keys, ids, total)
    ensures WithKids(rpcs, ids, total).Keys == NewKeys(rpcs.Keys, ids, total)
  {
    hide NewKeys, Before;
  }

  lemma NowAt(rpcs: map<Id, AsyncRPC>, ids: seq<Id>, total: Id, x: Id)
    requires Fits(rpcs.Keys, ids, total) && x in rpcs
    ensures Now(ids, total, x) in WithKids(rpcs, ids, total) && WithKids(rpcs, ids, total)[Now(ids, total, x)] == rpcs[x]
  {
    hide NewKeys, Before, Now;
    NowBefore(rpcs.Keys, ids, total, x);
    KidAt(rpcs, ids, total, Now(ids, total, x));
  }

  /** The entries that are not null, both ways. */
  lemma PresentIs(list: seq<AsyncRPC?>)
    ensures forall r: AsyncRPC :: r in list <==> r in Present(list)
    ensures forall k | 0 <= k < |Present(list)| :: Present(list)[k] in list && Present(list)[k] in Present(list)
  {
    PresentIn(list);
    assert forall k | 0 <= k < |Present(list)| :: Present(list)[k] in Present(list);
  }

  /** The trees before setChildren, the RPC p it is called on, and an id after it. */
  datatype Graft = Graft(rpcs: map<Id, AsyncRPC>, nodes: map<Id, Node>, height: nat, p: Id, ids: seq<Id>, total: Id, y: Id)

  ghost predicate GraftFits(g: Graft) {
    && g.nodes.Keys == g.rpcs.Keys && Forest(g.nodes, g.height) && Graftable(g.nodes, g.height, g.p, g.ids)
    && Fits(g.rpcs.Keys, g.ids, g.total)
  }

  ghost predicate GraftOk(g: Graft) {
    GraftFits(g) && g.y in NewKeys(g.rpcs.Keys, g.ids, g.total)
  }

  ghost function GraftNodes(g: Graft): map<Id, Node>
    requires GraftFits(g)
  {
    WithNodes(g.nodes, g.height, g.p, g.ids, g.total)
  }

  /** The object under y has its new id and parent if it is a new child, and is what it was otherwise. */
  twostate predicate Took(g: Graft)
    requires GraftOk(g) && Before(g.ids, g.total, g.y) in g.rpcs && g.p in g.rpcs
    reads g.rpcs.Values
  {
    var r := g.rpcs[Before(g.ids, g.total, g.y)];
    && r.timeoutms == old(r.timeoutms)
    && (if g.total < g.y then r.id == g.y && r.parent == g.rpcs[g.p] else r.id == old(r.id) && r.parent == old(r.parent))
  }

  twostate predicate TookChildren(g: Graft)
    requires GraftOk(g) && Before(g.ids, g.total, g.y) in g.rpcs && g.p in g.rpcs
    reads g.rpcs.Values
  {
    var r := g.rpcs[Before(g.ids, g.total, g.y)];
    if g.y == g.p then
      && (forall k :: k in r.children <==> k in old(r.children) || g.total < k <= g.total + |g.ids|)
      && (forall k | k in old(r.children) :: r.children[k] == old(r.children[k]))
      && (forall k | 0 <= k < |g.ids| ::
            g.total + 1 + k in r.children && g.ids[k] in g.rpcs && r.children[g.total + 1 + k] == g.rpcs[g.ids[k]])
    else r.children == old(r.children)
  }

  twostate lemma GraftedNode(g: Graft)
    requires GraftOk(g) && Before(g.ids, g.total, g.y) in g.rpcs && g.p in g.rpcs
    requires old(NodeIs(g.rpcs, g.nodes, Before(g.ids, g.total, g.y))) && Took(g)
    ensures g.y in WithKids(g.rpcs, g.ids, g.total) && NodeIs(WithKids(g.rpcs, g.ids, g.total), GraftNodes(g), g.y)
  {
    hide Forest, WithKids, WithNodes, NewKeys, Now, Before, Above, Grafted;
    var x := Before(g.ids, g.total, g.y);
    KidAt(g.rpcs, g.ids, g.total, g.y);
    NodeAt(g.nodes, g.height, g.p, g.ids, g.total, g.y);
    BeforeNow(g.rpcs.Keys, g.ids, g.total, g.y);
    GraftedParent(g.nodes, g.height, g.p, g.ids, x);
    NowSame(g.ids, g.total, g.p);
    NowAt(g.rpcs, g.ids, g.total, g.p);
    if g.y <= g.total {
      BeforeSame(g.ids, g.total, g.y);
    }
    if g.nodes[x].parent.Some? {
      NowAt(g.rpcs, g.ids, g.total, g.nodes[x].parent.value);
    }
  }

  twostate lemma GraftedChildren(g: Graft)
    requires GraftOk(g) && Before(g.ids, g.total, g.y) in g.rpcs && g.p in g.rpcs
    requires old(ChildrenAre(g.rpcs, g.nodes, Before(g.ids, g.total, g.y))) && TookChildren(g)
    ensures g.y in WithKids(g.rpcs, g.ids, g.total) && ChildrenAre(WithKids(g.rpcs, g.ids, g.total), GraftNodes(g), g.y)
  {
    hide Forest, WithKids, WithNodes, NewKeys, Now, Above, Grafted, Kid, Graftable;
    var x := Before(g.ids, g.total, g.y);
    var r, rpcs1 := g.rpcs[x], WithKids(g.rpcs, g.ids, g.total);
    KidAt(g.rpcs, g.ids, g.total, g.y);
    PlainP(g);
    forall k ensures k in r.children <==> Kid(GraftNodes(g), g.y, k) {
      GraftedKid(g.nodes, g.height, g.p, g.ids, g.total, g.y, k);
    }
    forall k | k in r.children ensures k in rpcs1 && r.children[k] == rpcs1[k] {
      GraftedKid(g.nodes, g.height, g.p, g.ids, g.total, g.y, k);
      ChildAt(g, k);
      if k > g.total {
        var m := k - g.total - 1;
        assert g.ids[m] in g.rpcs && r.children[g.total + 1 + m] == g.rpcs[g.ids[m]];
      }
    }
  }

  /** p keeps its id. */
  lemma PlainP(g: Graft)
    requires GraftOk(g)
    ensures g.p in g.rpcs && g.p !in g.ids && g.p <= g.total && Before(g.ids, g.total, g.p) == g.p
  {
    hide Forest, NewKeys, Above;
    GraftedParent(g.nodes, g.height, g.p, g.ids, g.p);
  }

  /** Where a child of the object under y is now. */
  lemma ChildAt(g: Graft, k: Id)
    requires GraftOk(g) && (g.total < k <= g.total + |g.ids| || Kid(g.nodes, Before(g.ids, g.total, g.y), k))
    ensures k in WithKids(g.rpcs, g.ids, g.total)
    ensures k <= g.total ==> k in g.rpcs && WithKids(g.rpcs, g.ids, g.total)[k] == g.rpcs[k]
    ensures k > g.total ==> k <= g.total + |g.ids| && g.ids[k - g.total - 1] in g.rpcs
                            && WithKids(g.rpcs, g.ids, g.total)[k] == g.rpcs[g.ids[k - g.total - 1]]
  {
    hide Forest, WithKids, WithNodes, NewKeys, Now, Above, Grafted;
    if Kid(g.nodes, Before(g.ids, g.total, g.y), k) {
      GraftedParent(g.nodes, g.height, g.p, g.ids, k);
    }
    KeysAre(g.rpcs.Keys, g.ids, g.total, k);
    KidAt(g.rpcs, g.ids, g.total, k);
    BeforeNow(g.rpcs.Keys, g.ids, g.total, k);
  }

  ghost function IdsOf(rs: seq<AsyncRPC>): (ids: seq<Id>)
    reads rs
    ensures |ids| == |rs| && forall k | 0 <= k < |rs| :: ids[k] == rs[k].id
  {
    if rs == [] then [] else IdsOf(rs[..|rs| - 1]) + [rs[|rs| - 1].id]
  }

  lemma {:induction false} PresentDistinct(list: seq<AsyncRPC?>)
    requires forall i, j | 0 <= i < j < |list| && list[i] != null :: list[i] != list[j]
    ensures forall i, j | 0 <= i < j < |Present(list)| :: Present(list)[i] != Present(list)[j]
  {
    if list != [] {
      var n := |list| - 1;
      PresentDistinct(list[..n]);
      PresentSnoc(list, n);
      assert list[..n + 1] == list;
      PresentOther(list, n);
    }
  }

  lemma IdsFit(rpcs: map<Id, AsyncRPC>, list: seq<AsyncRPC?>, total: Id)
    requires forall i, j | 0 <= i < j < |list| && list[i] != null :: list[i] != list[j]
    requires forall r | r in Present(list) :: r.id in rpcs && rpcs[r.id] == r
    requires forall x | x in rpcs :: rpcs[x].id == x && (rpcs[x] !in Present(list) ==> x <= total)
    ensures Fits(rpcs.Keys, IdsOf(Present(list)), total)
    ensures forall x | x in rpcs :: x in IdsOf(Present(list)) <==> rpcs[x] in Present(list)
  {
    hide Present, IdsOf;
    var kids := Present(list);
    PresentDistinct(list);
    var ids := IdsOf(kids);
    forall x | x in ids ensures x in rpcs && rpcs[x] in kids {
      var k :| 0 <= k < |ids| && ids[k] == x;
      assert kids[k] in kids;
    }
    forall x | x in rpcs && rpcs[x] in kids ensures x in ids {
      var k :| 0 <= k < |kids| && kids[k] == rpcs[x];
      assert ids[k] == x;
    }
    forall j, k | 0 <= j < k < |ids| ensures ids[j] != ids[k] {
      assert kids[j] in kids && kids[k] in kids;
    }
  }

  /** setChildren of a composite, with roots of the forest and all that is below them. */
  method Grow(p: AsyncRPC, list: seq<AsyncRPC?>, total: Id, ghost rpcs: map<Id, AsyncRPC>, ghost nodes: map<Id, Node>, ghost height: nat)
    returns (after: Id, ghost rpcs1: map<Id, AsyncRPC>, ghost nodes1: map<Id, Node>)
    requires Built(rpcs, nodes, height) && p.id in rpcs && rpcs[p.id] == p
    requires forall i, j | 0 <= i < j < |list| && list[i] != null :: list[i] != list[j]
    requires forall r | r in Present(list) :: r.id in rpcs && rpcs[r.id] == r
    requires Graftable(nodes, height, p.id, IdsOf(Present(list)))
    requires forall x | x in rpcs && rpcs[x] !in Present(list) :: x <= total
    modifies p, set i | 0 <= i < |list| && list[i] != null :: list[i]
    ensures Forest(nodes, height) && Fits(rpcs.Keys, old(IdsOf(Present(list))), total) && nodes.Keys == rpcs.Keys
    ensures var ids := old(IdsOf(Present(list)));
            && after == total + |ids| && p.id == old(p.id) && p.id in nodes
            && rpcs1 == WithKids(rpcs, ids, total) && nodes1 == WithNodes(nodes, height, p.id, ids, total)
    ensures Built(rpcs1, nodes1, 2 * height + 1)
    ensures forall x | x in rpcs :: rpcs[x].timeoutms == old(rpcs[x].timeoutms)
  {
    hide Forest, NodeIs, ChildrenAre, Built, LinkedTo, Present, Graftable, WithKids, WithNodes, Fits, NewKeys, IdsOf;
    BuiltIs(rpcs, nodes, height);
    ghost var kids, ids, id := Present(list), IdsOf(Present(list)), p.id;
    NodeIds(rpcs, nodes);
    IdsFit(rpcs, list, total);
    rpcs1, nodes1 := WithKids(rpcs, ids, total), WithNodes(nodes, height, id, ids, total);
    after := Adopt(p, list, total, rpcs, nodes, height);
    GraftedForest(nodes, height, id, ids, total);
    WithKeys(nodes, height, id, ids, total);
    NewKeysOnly(rpcs, ids, total);
    BuiltIs(rpcs1, nodes1, 2 * height + 1);
  }

  lemma NodeIds(rpcs: map<Id, AsyncRPC>, nodes: map<Id, Node>)
    requires forall x | x in rpcs :: NodeIs(rpcs, nodes, x)
    ensures forall x | x in rpcs :: rpcs[x].id == x
  {
    forall x | x in rpcs ensures rpcs[x].id == x {
      assert NodeIs(rpcs, nodes, x);
    }
  }

  lemma BeforeIs(ids: seq<Id>, total: Id, y: Id)
    ensures Before(ids, total, y) == if total < y <= total + |ids| then ids[y - total - 1] else y
  {
  }

  /** p is no entry of the list, and its children have ids of their own. */
  lemma Outside(rpcs: map<Id, AsyncRPC>, nodes: map<Id, Node>, height: nat, p: AsyncRPC, list: seq<AsyncRPC?>, total: Id)
    requires nodes.Keys == rpcs.Keys && Forest(nodes, height) && p.id in rpcs && rpcs[p.id] == p && ChildrenAre(rpcs, nodes, p.id)
    requires Graftable(nodes, height, p.id, IdsOf(Present(list))) && Fits(rpcs.Keys, IdsOf(Present(list)), total)
    requires forall x | x in rpcs :: x in IdsOf(Present(list)) <==> rpcs[x] in Present(list)
    ensures p !in list && forall k | k in p.children :: k <= total
  {
    hide Forest, Above, Present, IdsOf;
    PresentIs(list);
    var ids := IdsOf(Present(list));
    GraftedParent(nodes, height, p.id, ids, p.id);
    forall k | k in p.children ensures k <= total {
      assert Kid(nodes, p.id, k);
      GraftedParent(nodes, height, p.id, ids, k);
    }
  }

  /** A call of setChildren: what is going on, the object p, the new children. */
  datatype Setting = Setting(g: Graft, p: AsyncRPC, kids: seq<AsyncRPC>)

  ghost predicate SettingFits(c: Setting) {
    && GraftFits(c.g) && c.g.p in c.g.rpcs && c.g.rpcs[c.g.p] == c.p && |c.kids| == |c.g.ids|
    && (forall k | 0 <= k < |c.kids| :: c.g.ids[k] in c.g.rpcs && c.g.rpcs[c.g.ids[k]] == c.kids[k])
  }

  ghost predicate SettingOk(c: Setting) {
    SettingFits(c) && GraftOk(c.g)
  }

  /** What setChildren promises, said of the objects of the trees. */
  twostate predicate Set(c: Setting)
    reads c.g.rpcs.Values, c.kids, c.p
  {
    var g := c.g;
    && (forall k | 0 <= k < |c.kids| :: c.kids[k].id == g.total + 1 + k && c.kids[k].parent == c.p)
    && (forall x | x in g.rpcs && x !in g.ids :: g.rpcs[x].id == old(g.rpcs[x].id) && g.rpcs[x].parent == old(g.rpcs[x].parent))
    && (forall x | x in g.rpcs :: g.rpcs[x].timeoutms == old(g.rpcs[x].timeoutms))
    && (forall x | x in g.rpcs && x != g.p :: g.rpcs[x].children == old(g.rpcs[x].children))
    && (forall k :: k in c.p.children <==> k in old(c.p.children) || g.total < k <= g.total + |c.kids|)
    && (forall k | k in old(c.p.children) :: c.p.children[k] == old(c.p.children[k]))
    && (forall k | 0 <= k < |c.kids| :: g.total + 1 + k in c.p.children && c.p.children[g.total + 1 + k] == c.kids[k])
  }

  twostate lemma TookNode(c: Setting)
    requires SettingOk(c) && Set(c)
    ensures Before(c.g.ids, c.g.total, c.g.y) in c.g.rpcs && Took(c.g)
  {
    hide Forest, Graftable, NewKeys, Before;
    var g := c.g;
    BeforeNow(g.rpcs.Keys, g.ids, g.total, g.y);
    BeforeIs(g.ids, g.total, g.y);
  }

  /** p alone stands under its id. */
  lemma OnlyP(c: Setting)
    requires SettingOk(c)
    ensures Before(c.g.ids, c.g.total, c.g.y) in c.g.rpcs
    ensures c.g.y == c.g.p <==> Before(c.g.ids, c.g.total, c.g.y) == c.g.p
  {
    hide Forest, Graftable, NewKeys, Before;
    var g := c.g;
    BeforeNow(g.rpcs.Keys, g.ids, g.total, g.y);
    BeforeIs(g.ids, g.total, g.y);
    PlainP(g);
  }

  twostate lemma TookKids(c: Setting)
    requires SettingOk(c) && Set(c)
    ensures Before(c.g.ids, c.g.total, c.g.y) in c.g.rpcs && TookChildren(c.g)
  {
    hide Forest, Graftable, NewKeys, Before, Fits;
    OnlyP(c);
  }

  twostate lemma SetAt(c: Setting)
    requires Set(c)
    ensures forall y :: Set(c.(g := c.g.(y := y)))
  {
  }

  twostate lemma AllTook(c: Setting)
    requires SettingFits(c) && Set(c)
    requires forall x | x in c.g.rpcs :: old(NodeIs(c.g.rpcs, c.g.nodes, x) && ChildrenAre(c.g.rpcs, c.g.nodes, x))
    ensures var rpcs1, nodes1 := WithKids(c.g.rpcs, c.g.ids, c.g.total), GraftNodes(c.g);
            forall y | y in NewKeys(c.g.rpcs.Keys, c.g.ids, c.g.total) ::
              y in rpcs1 && NodeIs(rpcs1, nodes1, y) && ChildrenAre(rpcs1, nodes1, y)
  {
    hide Forest, NodeIs, ChildrenAre, Graftable, WithKids, WithNodes, NewKeys, Fits, Before, Set, Took, TookChildren;
    var g, rpcs1, nodes1 := c.g, WithKids(c.g.rpcs, c.g.ids, c.g.total), GraftNodes(c.g);
    SetAt(c);
    forall y | y in NewKeys(g.rpcs.Keys, g.ids, g.total)
      ensures y in rpcs1 && NodeIs(rpcs1, nodes1, y) && ChildrenAre(rpcs1, nodes1, y)
    {
      BeforeNow(g.rpcs.Keys, g.ids, g.total, y);
      TookNode(c.(g := g.(y := y)));
      TookKids(c.(g := g.(y := y)));
      GraftedNode(g.(y := y));
      GraftedChildren(g.(y := y));
    }
  }

  /** The call, and what it makes of every object of the trees. */
  method Adopt(p: AsyncRPC, list: seq<AsyncRPC?>, total: Id, ghost rpcs: map<Id, AsyncRPC>, ghost nodes: map<Id, Node>, ghost height: nat)
    returns (after: Id)
    requires nodes.Keys == rpcs.Keys && Forest(nodes, height) && p.id in rpcs && rpcs[p.id] == p
    requires forall x | x in rpcs :: NodeIs(rpcs, nodes, x) && ChildrenAre(rpcs, nodes, x) && rpcs[x].id == x
    requires forall i, j | 0 <= i < j < |list| && list[i] != null :: list[i] != list[j]
    requires forall r | r in Present(list) :: r.id in rpcs && rpcs[r.id] == r
    requires Graftable(nodes, height, p.id, IdsOf(Present(list))) && Fits(rpcs.Keys, IdsOf(Present(list)), total)
    requires forall x | x in rpcs :: x in IdsOf(Present(list)) <==> rpcs[x] in Present(list)
    modifies p, set i | 0 <= i < |list| && list[i] != null :: list[i]
    ensures after == total + |Present(list)| && p.id == old(p.id)
    ensures var ids := old(IdsOf(Present(list)));
            forall y | y in NewKeys(rpcs.Keys, ids, total) ::
              && y in WithKids(rpcs, ids, total)
              && NodeIs(WithKids(rpcs, ids, total), WithNodes(nodes, height, p.id, ids, total), y)
              && ChildrenAre(WithKids(rpcs, ids, total), WithNodes(nodes, height, p.id, ids, total), y)
    ensures forall x | x in rpcs :: rpcs[x].timeoutms == old(rpcs[x].timeoutms)
  {
    hide Forest, NodeIs, ChildrenAre, Present, Graftable, WithKids, WithNodes, NewKeys, Fits, Before, IdsOf;
    ghost var kids, ids, id := Present(list), IdsOf(Present(list)), p.id;
    PresentIs(list);
    Outside(rpcs, nodes, height, p, list, total);
    assert forall x | x in rpcs :: rpcs[x] in list <==> x in ids;
    assert forall k | 0 <= k < |kids| :: kids[k] in list && ids[k] in rpcs && rpcs[ids[k]] == kids[k];
    after := p.SetChildren(list, total);
    ghost var c := Setting(Graft(rpcs, nodes, height, id, ids, total, 0), p, kids);
    assert SettingFits(c);
    assert Set(c);
    AllTook(c);
  }

  // ---------------------------------------------------------------- from objects to a stuck serial

  lemma ExecuteOne(s: State, ops: seq<Op>)
    requires Quiet(s) && Legal(s, ops) && ops != [] && Execute(s, ops).Config?
    ensures ops[0].Submit? ==> CanSubmit(s, ops[0].root)
    ensures Apply(s, ops[0]).Config? && Legal(Apply(s, ops[0]).s, ops[1..])
    ensures Execute(s, ops) == Execute(Apply(s, ops[0]).s, ops[1..])
  {
  }

  /** The three operations of PairStuck, one after the other. */
  lemma PairSteps()
    ensures Quiet(Initial(PAIR, 1)) && CanSubmit(Initial(PAIR, 1), 0)
    ensures var s1 := Apply(Initial(PAIR, 1), Submit(0)).s;
            && Apply(s1, Run(0)).Config? && Apply(Apply(s1, Run(0)).s, Run(100)).Config?
            && Stuck(Apply(Apply(s1, Run(0)).s, Run(100)).s, 0, 1)
  {
    hide Stuck, Quiet, Apply, Legal, Execute, LegalRun, WholeRun;
    PairStuck();
    var ops := [Submit(0), Run(0), Run(100)];
    var s0 := Initial(PAIR, 1);
    PairLegal(ops);
    ExecuteOne(s0, ops);
    var s1 := Apply(s0, Submit(0)).s;
    assert ops[1..] == [Run(0), Run(100)];
    ExecuteOne(s1, ops[1..]);
    var s2 := Apply(s1, Run(0)).s;
    assert ops[1..][1..] == [Run(100)];
    ExecuteOne(s2, [Run(100)]);
    assert [Run(100)][1..] == [];
    ExecuteNone(Apply(s2, Run(100)).s);
  }

  lemma PairLegal(ops: seq<Op>)
    requires LegalRun(PAIR, 1, ops)
    ensures Quiet(Initial(PAIR, 1)) && Legal(Initial(PAIR, 1), ops)
    ensures WholeRun(PAIR, 1, ops) == Execute(Initial(PAIR, 1), ops)
  {
    InitialQuiet(PAIR, 1);
  }

  lemma ExecuteNone(s: State)
    requires Quiet(s)
    ensures Legal(s, []) && Execute(s, []) == Config(s, [])
  {
  }

  /** The two RPCs of PAIR before setChildren. */
  const SINGLES: map<Id, Node> := map[0 := Node(Serial, None, 0, 0, INFINITE), 7 := Node(Leaf(false), None, 0, 0, 10)]

  lemma SinglesFit()
    ensures Forest(SINGLES, 0) && Fits(SINGLES.Keys, [7], 0) && Graftable(SINGLES, 0, 0, [7])
    ensures Grafted(SINGLES, 0, [7], 7) && !Grafted(SINGLES, 0, [7], 0)
  {
    assert [7][0] == 7;
    assert Above(SINGLES, 0, 7, 7);
  }

  lemma PairIs()
    ensures Forest(SINGLES, 0) && Fits(SINGLES.Keys, [7], 0) && Graftable(SINGLES, 0, 0, [7]) && WithNodes(SINGLES, 0, 0, [7], 0) == PAIR
    ensures map[0 := Node(Serial, None, 0, 0, INFINITE)] + map[7 := Node(Leaf(false), None, 0, 0, 10)] == SINGLES
  {
    hide Grafted, Above, Graftable, Forest;
    SinglesFit();
    assert NewIds(0, 1) == {1};
    assert [7][0] == 7;
  }

  lemma PairMap(root: AsyncRPC, leaf: AsyncRPC)
    ensures map[0 := root] + map[7 := leaf] == map[0 := root, 7 := leaf] && Fits((map[0 := root, 7 := leaf]).Keys, [7], 0)
    ensures var rpcs := WithKids(map[0 := root, 7 := leaf], [7], 0); 0 in rpcs && rpcs[0] == root && rpcs.Values <= {root, leaf}
  {
    assert NewIds(0, 1) == {1};
  }

  lemma OnePresent(r: AsyncRPC)
    ensures Present([r]) == [r] && IdsOf([r]) == [r.id]
  {
    assert [r][..0] == [];
    assert Present([]) == [] && IdsOf([]) == [];
  }

  /** The trees that PairStuck is about, as objects. */
  method BuildPair() returns (root: AsyncRPC, scheduler: AsyncRPCScheduler)
    ensures fresh(scheduler) && fresh(scheduler.rpcs.Values)
    ensures root.id == 0 && 0 in scheduler.rpcs && scheduler.rpcs[0] == root
    ensures scheduler.Tied() && scheduler.S() == Initial(PAIR, 1) && Quiet(scheduler.S())
  {
    hide Quiet, Built, WithNodes, WithKids, Present, IdsOf, Forest, Fits, Graftable, AsyncRPCScheduler.Tied, AsyncRPCScheduler.S, Initial;
    ghost var rpcs, nodes, rpcs0, nodes0;
    root, rpcs, nodes := NewRoot(Serial, 0, 0, INFINITE);
    var leaf;
    leaf, rpcs0, nodes0 := NewRoot(Leaf(false), 7, 0, 10);
    Together(rpcs, nodes, 0, rpcs0, nodes0, 0);
    PairIs();
    PairMap(root, leaf);
    OnePresent(leaf);
    assert root != leaf;
    var _, rpcs1, nodes1 := Grow(root, [leaf], 0, rpcs + rpcs0, nodes + nodes0, 0);
    scheduler := new AsyncRPCScheduler(rpcs1, nodes1, 1);
  }

  /** After two turns of run() the serial waits for ever. */
  method RunPair() returns (scheduler: AsyncRPCScheduler)
    ensures scheduler.Tied() && Quiet(scheduler.S()) && Stuck(scheduler.S(), 0, 1)
  {
    hide Stuck, Quiet, Apply, AsyncRPCScheduler.Tied, AsyncRPCScheduler.S, Initial, CanSubmit;
    var root;
    root, scheduler := BuildPair();
    PairSteps();
    scheduler.Call(root);
    scheduler.Run(0);
    scheduler.Run(100);
  }
}
