/** Building the forest out of linked nodes: register, link to parents, then sort every level in place. */
module CurriculumTree {
  import opened Wrappers
  import opened Orders
  import opened Text
  import opened CurriculumForest

  class Node {
    const item: Item
    var children: seq<Node>

    constructor (item: Item)
      ensures this.item == item && children == []
    {
      this.item := item;
      children := [];
    }
  }

  type Nodes = map<int, Node>

  /** The rows by id; of rows with one id the last counts. */
  function TableOf(items: seq<Item>): (m: Table)
    ensures forall x | x in m :: m[x].id == x
  {
    if items == [] then map[]
    else TableOf(items[..|items| - 1])[items[|items| - 1].id := items[|items| - 1]]
  }

  lemma {:induction false} LastRowCounts(items: seq<Item>, x: int)
    ensures x in TableOf(items) <==> exists n :: 0 <= n < |items| && items[n].id == x
    ensures forall n | 0 <= n < |items| && items[n].id == x && (forall k | n < k < |items| :: items[k].id != x) ::
      TableOf(items)[x] == items[n]
  {
    if items != [] {
      var init := items[..|items| - 1];
      LastRowCounts(init, x);
      assert forall n | 0 <= n < |init| :: init[n] == items[n];
    }
  }

  /** One node for each row. */
  ghost predicate Registered(nodes: Nodes, m: Table) {
    nodes.Keys == m.Keys && forall x | x in nodes :: nodes[x].item == m[x]
  }

  // ----------------------------------------------------------------- shapes
  // What the children fields hold is kept as a value: the items of each node's children, in order.

  type Shape = map<int, seq<Item>>

  ghost predicate Stored(nodes: Nodes, items: seq<Item>) {
    forall i | i in items :: i.id in nodes && nodes[i.id].item == i
  }

  function NodesFor(nodes: Nodes, items: seq<Item>): (list: seq<Node>)
    requires forall i | i in items :: i.id in nodes
    ensures |list| == |items|
    ensures forall k | 0 <= k < |items| :: list[k] == nodes[items[k].id]
  {
    seq(|items|, k requires 0 <= k < |items| => assert items[k] in items; nodes[items[k].id])
  }

  ghost predicate Holds(nodes: Nodes, shape: Shape)
    reads nodes.Values
  {
    && shape.Keys == nodes.Keys
    && forall x | x in nodes :: Stored(nodes, shape[x]) && nodes[x].children == NodesFor(nodes, shape[x])
  }

  /** The items of s, each once. */
  ghost predicate Listing(items: seq<Item>, s: set<Item>) {
    NoRepeats(items) && forall i :: i in items <==> i in s
  }

  ghost predicate FullShape(m: Table, shape: Shape) {
    shape.Keys == m.Keys && forall x | x in m :: Listing(shape[x], Kids(m, x))
  }

  // ----------------------------------------------------------------- linking

  method Register(items: seq<Item>) returns (nodes: Nodes)
    ensures Registered(nodes, TableOf(items))
    ensures forall x | x in nodes :: fresh(nodes[x]) && nodes[x].children == []
  {
    nodes := map[];
    for i := 0 to |items|
      invariant Registered(nodes, TableOf(items[..i]))
      invariant forall x | x in nodes :: fresh(nodes[x]) && nodes[x].children == []
    {
      assert items[..i + 1][..i] == items[..i];
      var node := new Node(items[i]);
      nodes := nodes[items[i].id := node];
    }
    assert items[..|items|] == items;
  }

  /** The roots among the items looked at, and the kids each node has among them. */
  ghost predicate Partial(m: Table, seen: set<int>, roots: seq<Item>, shape: Shape) {
    && seen <= m.Keys && shape.Keys == m.Keys
    && NoRepeats(roots) && (forall i :: i in roots <==> i.id in seen && m[i.id] == i && IsRoot(m, i.id))
    && forall x | x in m :: PartialKids(m, seen, x, shape[x])
  }

  ghost predicate PartialKids(m: Table, seen: set<int>, x: int, items: seq<Item>)
    requires seen <= m.Keys
  {
    NoRepeats(items) && forall i :: i in items <==> i.id in seen && m[i.id] == i && IsKid(m, i.id, x)
  }

  lemma {:induction false} PartialMoreRoot(m: Table, seen: set<int>, roots: seq<Item>, shape: Shape, id: int)
    requires Keyed(m) && Partial(m, seen, roots, shape) && id in m && id !in seen && IsRoot(m, id)
    ensures Partial(m, seen + {id}, roots + [m[id]], shape)
  {
  }

  lemma {:induction false} PartialMoreKid(m: Table, seen: set<int>, roots: seq<Item>, shape: Shape, id: int)
    requires Keyed(m) && Partial(m, seen, roots, shape) && id in m && id !in seen && !IsRoot(m, id)
    ensures var parent := m[id].parent.value;
      Partial(m, seen + {id}, roots, shape[parent := shape[parent] + [m[id]]])
  {
  }

  lemma {:induction false} PartialDone(m: Table, roots: seq<Item>, shape: Shape)
    requires Keyed(m) && Partial(m, m.Keys, roots, shape)
    ensures Listing(roots, RootItems(m)) && FullShape(m, shape)
  {
  }

  lemma {:induction false} NodesForAppend(nodes: Nodes, items: seq<Item>, i: Item)
    requires Stored(nodes, items + [i])
    ensures Stored(nodes, items) && NodesFor(nodes, items + [i]) == NodesFor(nodes, items) + [nodes[i.id]]
  {
  }

  /** Appends a node to its parent's children. */
  method Attach(nodes: Nodes, ghost m: Table, ghost shape: Shape, id: int, parent: int)
    requires Keyed(m) && Registered(nodes, m) && Holds(nodes, shape)
    requires id in nodes && parent in nodes
    modifies nodes[parent]
    ensures Holds(nodes, shape[parent := shape[parent] + [m[id]]])
  {
    ghost var after := shape[parent := shape[parent] + [m[id]]];
    NodesForAppend(nodes, shape[parent], m[id]);
    var p := nodes[parent];
    assert forall x | x in nodes && x != parent :: nodes[x] != p;
    p.children := p.children + [nodes[id]];
    forall x | x in nodes
      ensures Stored(nodes, after[x]) && nodes[x].children == NodesFor(nodes, after[x])
    {
    }
  }

  /** Visits the nodes in whatever order the map yields them. */
  method Link(nodes: Nodes, ghost m: Table) returns (roots: seq<Node>, ghost items: seq<Item>, ghost shape: Shape)
    requires Keyed(m) && Registered(nodes, m)
    requires forall x | x in nodes :: nodes[x].children == []
    modifies nodes.Values
    ensures Listing(items, RootItems(m)) && Stored(nodes, items) && roots == NodesFor(nodes, items)
    ensures FullShape(m, shape) && Holds(nodes, shape)
  {
    roots, items, shape := [], [], map x | x in m :: [];
    var todo := nodes.Keys;
    while todo != {}
      invariant todo <= nodes.Keys
      invariant Partial(m, nodes.Keys - todo, items, shape) && Holds(nodes, shape)
      invariant Stored(nodes, items) && roots == NodesFor(nodes, items)
      decreases |todo|
    {
      HasMember(todo);
      var id :| id in todo;
      ghost var seen := nodes.Keys - todo;
      todo := todo - {id};
      assert nodes.Keys - todo == seen + {id};
      var node := nodes[id];
      if node.item.parent.None? || node.item.parent.value == id || node.item.parent.value !in nodes {
        PartialMoreRoot(m, seen, items, shape, id);
        NodesForAppend(nodes, items, m[id]);
        roots, items := roots + [node], items + [m[id]];
      } else {
        PartialMoreKid(m, seen, items, shape, id);
        Attach(nodes, m, shape, id, node.item.parent.value);
        shape := shape[node.item.parent.value := shape[node.item.parent.value] + [m[id]]];
      }
    }
    assert nodes.Keys - todo == m.Keys;
    PartialDone(m, items, shape);
  }

  // ----------------------------------------------------------------- sorting

  predicate NodeLess(a: Node, b: Node) {
    ItemLess(a.item, b.item)
  }

  function ItemsOf(list: seq<Node>): (r: seq<Item>)
    ensures |r| == |list|
    ensures forall k | 0 <= k < |r| :: r[k] == list[k].item
  {
    seq(|list|, k requires 0 <= k < |list| => list[k].item)
  }

  /** Sorts one list of siblings. */
  method SortSiblings(
    nodes: Nodes, ghost s: set<Item>, ghost items: seq<Item>, list: seq<Node>) returns (sorted: seq<Node>)
    requires Stored(nodes, items) && list == NodesFor(nodes, items)
    requires Listing(items, s) && LinearOn(s, ItemLess)
    ensures Stored(nodes, Arrange(s, ItemLess)) && sorted == NodesFor(nodes, Arrange(s, ItemLess))
  {
    NodesOfListing(nodes, s, items, list);
    NodesWeak(nodes, s, list);
    sorted := Sort(list, NodeLess);
    NodesOfPermuted(nodes, s, list, sorted);
    NodesDiffer(nodes, items, list);
    PermutationKeepsNoRepeats(list, sorted);
    SiblingsArranged(nodes, s, sorted);
  }

  lemma {:induction false} NodesWeak(nodes: Nodes, s: set<Item>, list: seq<Node>)
    requires NodesOf(nodes, s, list) && LinearOn(s, ItemLess)
    ensures WeakOn(list, NodeLess)
  {
  }

  /** The list holds exactly the nodes of the items of s. */
  ghost predicate NodesOf(nodes: Nodes, s: set<Item>, list: seq<Node>) {
    && (forall n | n in list :: n.item in s && n.item.id in nodes && nodes[n.item.id] == n)
    && (forall i | i in s :: i.id in nodes && nodes[i.id] in list && nodes[i.id].item == i)
  }

  lemma {:induction false} NodesOfListing(nodes: Nodes, s: set<Item>, items: seq<Item>, list: seq<Node>)
    requires Stored(nodes, items) && list == NodesFor(nodes, items) && Listing(items, s)
    ensures NodesOf(nodes, s, list)
  {
  }

  lemma {:induction false} NodesOfPermuted(nodes: Nodes, s: set<Item>, list: seq<Node>, sorted: seq<Node>)
    requires NodesOf(nodes, s, list) && multiset(sorted) == multiset(list)
    ensures NodesOf(nodes, s, sorted)
  {
    forall n
      ensures n in sorted <==> n in list
    {
      assert n in sorted <==> n in multiset(sorted);
      assert n in list <==> n in multiset(list);
    }
  }

  lemma {:induction false} NodesOfNamed(nodes: Nodes, s: set<Item>, list: seq<Node>, i: Item)
    requires NodesOf(nodes, s, list)
    ensures i in ItemsOf(list) <==> i in s
  {
  }

  lemma {:induction false} NamedIncreasing(nodes: Nodes, s: set<Item>, list: seq<Node>)
    requires NodesOf(nodes, s, list) && NoRepeats(list) && NonDecreasing(list, NodeLess)
    requires LinearOn(s, ItemLess)
    ensures Increasing(ItemsOf(list), ItemLess)
  {
  }

  lemma {:induction false} SiblingsArranged(nodes: Nodes, s: set<Item>, sorted: seq<Node>)
    requires NodesOf(nodes, s, sorted) && NoRepeats(sorted) && NonDecreasing(sorted, NodeLess)
    requires LinearOn(s, ItemLess)
    ensures Stored(nodes, Arrange(s, ItemLess)) && sorted == NodesFor(nodes, Arrange(s, ItemLess))
  {
    var named := ItemsOf(sorted);
    NamedIncreasing(nodes, s, sorted);
    forall i
      ensures i in named <==> i in s
    {
      NodesOfNamed(nodes, s, sorted, i);
    }
    ArrangeIsUnique(s, named, ItemLess);
    forall k | 0 <= k < |sorted|
      ensures sorted[k] == nodes[named[k].id]
    {
      assert sorted[k] in sorted;
    }
  }

  lemma {:induction false} NodesDiffer(nodes: Nodes, items: seq<Item>, list: seq<Node>)
    requires Stored(nodes, items) && list == NodesFor(nodes, items) && NoRepeats(items)
    ensures NoRepeats(list)
  {
  }

  /** The ids at or below the items, which have depth k. */
  ghost function Below(m: Table, s: set<Item>, k: nat): set<int> {
    set y | y in m && UnderAny(m, y, s, k)
  }

  ghost predicate UnderAny(m: Table, y: int, s: set<Item>, k: nat) {
    exists i :: i in s && Under(m, y, i.id, k)
  }

  /** The shape once everything in the given set is sorted. */
  ghost function SortedShape(m: Table, shape: Shape, below: set<int>): Shape
    requires Keyed(m)
  {
    map x | x in shape :: if x in below then SortedKids(m, x) else shape[x]
  }

  lemma {:induction false} SortedStaysFull(m: Table, shape: Shape, below: set<int>)
    requires Keyed(m) && FullShape(m, shape)
    ensures FullShape(m, SortedShape(m, shape, below))
  {
  }

  lemma {:induction false} BelowOne(m: Table, i: Item, k: nat)
    requires Keyed(m) && i.id in m && m[i.id] == i && RootIn(m, i.id, k)
    ensures Below(m, {i}, k) == Below(m, Kids(m, i.id), k + 1) + {i.id}
  {
    forall y | y in m
      ensures y in Below(m, {i}, k) <==> y == i.id || y in Below(m, Kids(m, i.id), k + 1)
    {
      UnderStep(m, y, i, k);
      assert UnderAny(m, y, {i}, k) <==> Under(m, y, i.id, k) by {
        assert i in {i};
      }
      assert UnderAny(m, y, Kids(m, i.id), k + 1) <==> UnderSome(m, y, SortedKids(m, i.id), k + 1);
    }
  }

  ghost function ItemSet(items: seq<Item>): set<Item> {
    set i | i in items
  }

  lemma {:induction false} SortedOneMore(m: Table, shape: Shape, items: seq<Item>, k: nat, n: nat)
    requires Keyed(m) && n < |items|
    ensures SortedShape(m, SortedShape(m, shape, Below(m, ItemSet(items[..n]), k)), Below(m, {items[n]}, k))
         == SortedShape(m, shape, Below(m, ItemSet(items[..n + 1]), k))
  {
  }

  /** Sorts a list of siblings, and then the children of each of them. Depth bounds the recursion. */
  method SortRec(
    nodes: Nodes, ghost m: Table, ghost shape: Shape, ghost items: seq<Item>, ghost k: nat, list: seq<Node>)
    returns (sorted: seq<Node>)
    requires Keyed(m) && Registered(nodes, m) && FullShape(m, shape) && Holds(nodes, shape)
    requires NoRepeats(items) && Level(m, items, k)
    requires Stored(nodes, items) && list == NodesFor(nodes, items)
    modifies nodes.Values
    ensures LinearOn(ItemSet(items), ItemLess)
    ensures var a := Arrange(ItemSet(items), ItemLess); Stored(nodes, a) && sorted == NodesFor(nodes, a)
    ensures Holds(nodes, SortedShape(m, shape, Below(m, ItemSet(items), k)))
    decreases |m| - k, 2, 0
  {
    SiblingsLinear(ItemSet(items));
    sorted := SortSiblings(nodes, ItemSet(items), items, list);
    ghost var a := Arrange(ItemSet(items), ItemLess);
    SortEach(nodes, m, shape, a, k, sorted);
    assert ItemSet(a) == ItemSet(items);
  }

  /** The loop over the siblings. */
  method SortEach(
    nodes: Nodes, ghost m: Table, ghost shape: Shape, ghost items: seq<Item>, ghost k: nat, list: seq<Node>)
    requires Keyed(m) && Registered(nodes, m) && FullShape(m, shape) && Holds(nodes, shape)
    requires Level(m, items, k)
    requires Stored(nodes, items) && list == NodesFor(nodes, items)
    modifies nodes.Values
    ensures Holds(nodes, SortedShape(m, shape, Below(m, ItemSet(items), k)))
    decreases |m| - k, 1, 0
  {
    assert ItemSet(items[..0]) == {} && Below(m, {}, k) == {};
    assert SortedShape(m, shape, {}) == shape;
    for i := 0 to |list|
      invariant Holds(nodes, SortedShape(m, shape, Below(m, ItemSet(items[..i]), k)))
    {
      assert items[i] in items;
      ghost var below := Below(m, ItemSet(items[..i]), k);
      SortedStaysFull(m, shape, below);
      SortChildren(nodes, m, SortedShape(m, shape, below), items[i], k, list[i]);
      SortedOneMore(m, shape, items, k, i);
    }
    assert items[..|items|] == items;
  }

  /** The recursive call on one node's children, and what it leaves in their place. */
  method SortChildren(nodes: Nodes, ghost m: Table, ghost shape: Shape, ghost i: Item, ghost k: nat, n: Node)
    requires Keyed(m) && Registered(nodes, m) && FullShape(m, shape) && Holds(nodes, shape)
    requires i.id in m && m[i.id] == i && nodes[i.id] == n && RootIn(m, i.id, k)
    modifies nodes.Values
    ensures Holds(nodes, SortedShape(m, shape, Below(m, {i}, k)))
    decreases |m| - k, 0, 0
  {
    DepthBound(m, i.id, k);
    KidsLevel(m, i.id, k);
    assert Listing(shape[i.id], Kids(m, i.id));
    assert ItemSet(shape[i.id]) == Kids(m, i.id);
    var kids := SortRec(nodes, m, shape, shape[i.id], k + 1, n.children);
    ghost var below := Below(m, Kids(m, i.id), k + 1);
    PutBack(nodes, m, shape, below, i, n, kids);
    BelowOne(m, i, k);
  }

  method PutBack(
    nodes: Nodes, ghost m: Table, ghost shape: Shape, ghost below: set<int>, ghost i: Item, n: Node, kids: seq<Node>)
    requires Keyed(m) && Registered(nodes, m) && shape.Keys == m.Keys && Holds(nodes, SortedShape(m, shape, below))
    requires i.id in m && m[i.id] == i && nodes[i.id] == n
    requires Stored(nodes, SortedKids(m, i.id)) && kids == NodesFor(nodes, SortedKids(m, i.id))
    modifies n
    ensures Holds(nodes, SortedShape(m, shape, below + {i.id}))
  {
    assert forall x | x in nodes && x != i.id :: nodes[x] != n;
    ghost var was := SortedShape(m, shape, below);
    ghost var now := SortedShape(m, shape, below + {i.id});
    n.children := kids;
    forall x | x in nodes
      ensures Stored(nodes, now[x]) && nodes[x].children == NodesFor(nodes, now[x])
    {
      if x != i.id {
        assert now[x] == was[x];
      }
    }
  }

  // --------------------------------------------------------- the whole build

  /** The linked nodes are the tree. */
  ghost predicate Mirrors(n: Node, t: Tree, nodes: set<Node>)
    reads nodes
    decreases t
  {
    && n in nodes && n.item == t.item && |n.children| == |t.children|
    && forall k | 0 <= k < |t.children| :: Mirrors(n.children[k], t.children[k], nodes)
  }

  ghost predicate MirrorsAll(list: seq<Node>, trees: seq<Tree>, nodes: set<Node>)
    reads nodes
  {
    |list| == |trees| && forall k | 0 <= k < |trees| :: Mirrors(list[k], trees[k], nodes)
  }

  /** The shape is sorted at and below an item of depth k. */
  ghost predicate SortedUnder(m: Table, shape: Shape, i: Item, k: nat)
    requires Keyed(m)
  {
    forall y | y in m && Under(m, y, i.id, k) :: y in shape && shape[y] == SortedKids(m, y)
  }

  lemma {:induction false} MirrorsWhole(n: Node, t: Tree, nodes: set<Node>)
    requires n in nodes && n.item == t.item && |n.children| == |t.children|
    requires forall k | 0 <= k < |t.children| :: Mirrors(n.children[k], t.children[k], nodes)
    ensures Mirrors(n, t, nodes)
  {
  }

  /** Item i is a row of depth k, and all is linked and sorted from it down. */
  ghost predicate Settled(nodes: Nodes, m: Table, shape: Shape, i: Item, k: nat)
    reads nodes.Values
  {
    && Keyed(m) && Registered(nodes, m) && Holds(nodes, shape)
    && i.id in m && m[i.id] == i && RootIn(m, i.id, k) && SortedUnder(m, shape, i, k)
  }

  lemma {:induction false} KidSettled(nodes: Nodes, m: Table, shape: Shape, i: Item, k: nat, c: Item)
    requires Settled(nodes, m, shape, i, k) && c in Kids(m, i.id)
    ensures k < |m| && Settled(nodes, m, shape, c, k + 1)
  {
    DepthBound(m, i.id, k);
    KidSortedUnder(m, shape, i, k, c);
  }

  lemma {:induction false} SortedMirrors(nodes: Nodes, m: Table, shape: Shape, i: Item, k: nat)
    requires Settled(nodes, m, shape, i, k)
    ensures Mirrors(nodes[i.id], Grow(m, i, k), nodes.Values)
    decreases |m| - k, 1
  {
    DepthBound(m, i.id, k);
    SelfIsNotBelow(m, i.id, k, i.id);
    ChildrenAreKids(m, i, k);
    var node, tree := nodes[i.id], Grow(m, i, k);
    assert shape[i.id] == SortedKids(m, i.id);
    forall n | 0 <= n < |tree.children|
      ensures Mirrors(node.children[n], tree.children[n], nodes.Values)
    {
      ChildAt(m, i, k, n);
      KidMirrors(nodes, m, shape, i, k, SortedKids(m, i.id)[n]);
    }
    MirrorsWhole(node, tree, nodes.Values);
  }

  lemma {:induction false} KidMirrors(nodes: Nodes, m: Table, shape: Shape, i: Item, k: nat, c: Item)
    requires Settled(nodes, m, shape, i, k)
    requires c in Kids(m, i.id) && c.id in m && m[c.id] == c && RootIn(m, c.id, k + 1) && k < |m|
    ensures Mirrors(nodes[c.id], Grow(m, c, k + 1), nodes.Values)
    decreases |m| - k, 0
  {
    KidSettled(nodes, m, shape, i, k, c);
    SortedMirrors(nodes, m, shape, c, k + 1);
  }

  lemma {:induction false} KidSortedUnder(m: Table, shape: Shape, i: Item, k: nat, c: Item)
    requires Keyed(m) && i.id in m && c in Kids(m, i.id) && SortedUnder(m, shape, i, k)
    ensures SortedUnder(m, shape, c, k + 1)
  {
    forall y | y in m && Under(m, y, c.id, k + 1)
      ensures y in shape && shape[y] == SortedKids(m, y)
    {
      KidThenUnder(m, y, i, k, c);
    }
  }

  lemma {:induction false} RootSortedUnder(m: Table, shape: Shape, r: Item)
    requires Keyed(m) && r in RootItems(m) && shape.Keys == m.Keys
    ensures SortedUnder(m, SortedShape(m, shape, Below(m, RootItems(m), 0)), r, 0)
  {
  }

  lemma {:induction false} RootsMirror(nodes: Nodes, m: Table, shape: Shape)
    requires Keyed(m) && Registered(nodes, m) && FullShape(m, shape) && Stored(nodes, SortedRoots(m))
    requires Holds(nodes, SortedShape(m, shape, Below(m, RootItems(m), 0)))
    ensures MirrorsAll(NodesFor(nodes, SortedRoots(m)), Forest(m), nodes.Values)
  {
    RootsLevel(m);
    var roots := SortedRoots(m);
    forall n | 0 <= n < |roots|
      ensures roots[n].id in nodes && Mirrors(nodes[roots[n].id], Forest(m)[n], nodes.Values)
    {
      var r := roots[n];
      GrownAt(m, roots, 0, n);
      assert r in roots && r in RootItems(m);
      RootSortedUnder(m, shape, r);
      SortedMirrors(nodes, m, SortedShape(m, shape, Below(m, RootItems(m), 0)), r, 0);
    }
  }

  ghost predicate ListInOrder(list: seq<Node>) {
    forall k, l | 0 <= k < l < |list| :: ComesFirst(list[k].item, list[l].item)
  }

  /** The roots are in order, and so are the children of every node of the tree. */
  ghost predicate AllInOrder(roots: seq<Node>, nodes: Nodes, m: Table)
    reads nodes.Values
  {
    ListInOrder(roots) && forall x | x in nodes && Grounded(m, x) :: ListInOrder(nodes[x].children)
  }

  lemma {:induction false} SortedInOrder(nodes: Nodes, items: seq<Item>)
    requires Stored(nodes, items) && Increasing(items, ItemLess)
    ensures ListInOrder(NodesFor(nodes, items))
  {
    IncreasingInOrder(items);
    forall k | 0 <= k < |items|
      ensures NodesFor(nodes, items)[k].item == items[k]
    {
      assert items[k] in items;
    }
  }

  lemma {:induction false} GroundedBelow(m: Table, x: int)
    requires Keyed(m) && Grounded(m, x)
    ensures x in Below(m, RootItems(m), 0)
  {
    var d: nat :| RootIn(m, x, d);
    var r := Up(m, x, d, d);
    assert RootIn(m, r, 0) && m[r] in RootItems(m);
    assert Up(m, x, d, d - 0) == m[r].id;
    assert Under(m, x, m[r].id, 0);
  }

  lemma {:induction false} BuiltInOrder(nodes: Nodes, m: Table, shape: Shape)
    requires Keyed(m) && Registered(nodes, m) && FullShape(m, shape) && Stored(nodes, SortedRoots(m))
    requires Holds(nodes, SortedShape(m, shape, Below(m, RootItems(m), 0)))
    ensures AllInOrder(NodesFor(nodes, SortedRoots(m)), nodes, m)
  {
    SortedInOrder(nodes, SortedRoots(m));
    forall x | x in nodes && Grounded(m, x)
      ensures ListInOrder(nodes[x].children)
    {
      GroundedBelow(m, x);
      SortedInOrder(nodes, SortedKids(m, x));
    }
  }

  /**
   The built nodes are the forest of the rows. So the result does not depend on the order in which
   the map yields nodes, and the recursion ends whatever the rows say about parents.
   */
  method BuildCurriculumItemTree(items: seq<Item>) returns (roots: seq<Node>, ghost nodes: Nodes)
    ensures forall x | x in nodes :: fresh(nodes[x])
    ensures Registered(nodes, TableOf(items))
    ensures MirrorsAll(roots, Forest(TableOf(items)), nodes.Values)
    ensures AllInOrder(roots, nodes, TableOf(items))
  {
    ghost var m := TableOf(items);
    var registered := Register(items);
    assert forall n | n in registered.Values :: fresh(n);
    ghost var rootItems, shape;
    var linked;
    linked, rootItems, shape := Link(registered, m);
    RootsLevel(m);
    assert ItemSet(rootItems) == RootItems(m);
    roots := SortRec(registered, m, shape, rootItems, 0, linked);
    nodes := registered;
    RootsMirror(nodes, m, shape);
    BuiltInOrder(nodes, m, shape);
  }
}
