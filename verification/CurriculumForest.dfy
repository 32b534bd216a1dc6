/**
 Curriculum items as a forest. Rows may name missing parents, themselves, or each other in a ring;
 the forest holds exactly the items whose chain of parents ends, each of them once.
 */
module CurriculumForest {
  import opened Wrappers
  import opened Orders
  import opened Text

  /** A row; the index code is trimmed, and empty where there is none. */
  datatype Item = Item(id: int, parent: Option<int>, code: string, name: string)

  type Table = map<int, Item>

  datatype Tree = Tree(item: Item, children: seq<Tree>)

  // ---------------------------------------------------------- sibling order

  /** Items with a code first, then by code, name and id. */
  predicate ItemLess(a: Item, b: Item) {
    if (a.code != "") != (b.code != "") then a.code != ""
    else if a.code != b.code then TextLess(a.code, b.code)
    else if a.name != b.name then TextLess(a.name, b.name)
    else a.id < b.id
  }

  /** Items without a code come last; then codes, names and ids decide, in this order. */
  ghost predicate ComesFirst(a: Item, b: Item) {
    && (b.code != "" ==> a.code != "")
    && (a.code != "" && b.code != "" && a.code != b.code ==> Precedes(a.code, b.code))
    && (a.code == b.code && a.name != b.name ==> Precedes(a.name, b.name))
    && (a.code == b.code && a.name == b.name ==> a.id < b.id)
  }

  /** Of two items with different ids, the one that is less comes first. */
  lemma {:induction false} LessComesFirst(a: Item, b: Item)
    ensures ItemLess(a, b) <==> ComesFirst(a, b)
  {
    TextLessIff(a.code, b.code);
    TextLessIff(a.name, b.name);
    if b.code == "" {
      assert !Precedes(a.code, b.code);
    }
  }

  ghost predicate OnePerId(s: set<Item>) {
    forall a, b | a in s && b in s && a.id == b.id :: a == b
  }

  lemma {:induction false} ItemLessTransitive(a: Item, b: Item, c: Item)
    requires ItemLess(a, b) && ItemLess(b, c)
    ensures ItemLess(a, c)
  {
    TextLessLinear(a.code, c.code);
    TextLessLinear(a.name, c.name);
    TextLessLinear(a.code, b.code);
    TextLessLinear(a.name, b.name);
    if TextLess(a.code, b.code) && TextLess(b.code, c.code) {
      TextLessTransitive(a.code, b.code, c.code);
    }
    if TextLess(a.name, b.name) && TextLess(b.name, c.name) {
      TextLessTransitive(a.name, b.name, c.name);
    }
  }

  /** Among items with different ids the sibling order is a strict total order. */
  lemma {:induction false} SiblingsLinear(s: set<Item>)
    requires OnePerId(s)
    ensures LinearOn(s, ItemLess)
  {
    forall a, b, c | a in s && b in s && c in s && ItemLess(a, b) && ItemLess(b, c)
      ensures ItemLess(a, c)
    {
      ItemLessTransitive(a, b, c);
    }
    forall a, b | a in s && b in s && a != b
      ensures ItemLess(a, b) || ItemLess(b, a)
    {
      TextLessLinear(a.code, b.code);
      TextLessLinear(a.name, b.name);
    }
  }

  // ------------------------------------------------------- roots and kids

  ghost predicate Keyed(m: Table) {
    forall x | x in m :: m[x].id == x
  }

  /** No parent, itself, or one that is not there. */
  predicate IsRoot(m: Table, x: int)
    requires x in m
  {
    m[x].parent.None? || m[x].parent.value == x || m[x].parent.value !in m
  }

  predicate IsKid(m: Table, c: int, x: int)
    requires c in m
  {
    !IsRoot(m, c) && m[c].parent.value == x
  }

  function RootItems(m: Table): set<Item> {
    set x | x in m && IsRoot(m, x) :: m[x]
  }

  function Kids(m: Table, x: int): set<Item> {
    set c | c in m && IsKid(m, c, x) :: m[c]
  }

  ghost function SortedRoots(m: Table): (r: seq<Item>)
    requires Keyed(m)
    ensures forall i :: i in r <==> i in RootItems(m)
    ensures Increasing(r, ItemLess)
  {
    SiblingsLinear(RootItems(m));
    Arrange(RootItems(m), ItemLess)
  }

  ghost function SortedKids(m: Table, x: int): (r: seq<Item>)
    requires Keyed(m)
    ensures forall i :: i in r <==> i in Kids(m, x)
    ensures Increasing(r, ItemLess)
  {
    SiblingsLinear(Kids(m, x));
    Arrange(Kids(m, x), ItemLess)
  }

  // ---------------------------------------------------------------- depth

  /** The chain of parents from x ends in a root after k steps. */
  predicate RootIn(m: Table, x: int, k: nat)
    requires x in m
    decreases k
  {
    if k == 0 then IsRoot(m, x) else !IsRoot(m, x) && RootIn(m, m[x].parent.value, k - 1)
  }

  ghost predicate Grounded(m: Table, x: int) {
    x in m && exists k: nat :: RootIn(m, x, k)
  }

  lemma {:induction false} DepthIsUnique(m: Table, x: int, j: nat, k: nat)
    requires x in m && RootIn(m, x, j) && RootIn(m, x, k)
    ensures j == k
    decreases j
  {
    if j > 0 && k > 0 {
      DepthIsUnique(m, m[x].parent.value, j - 1, k - 1);
    }
  }

  /** The ancestor j steps up. */
  function Up(m: Table, x: int, k: nat, j: nat): (y: int)
    requires x in m && RootIn(m, x, k) && j <= k
    ensures y in m && RootIn(m, y, k - j)
    decreases j
  {
    if j == 0 then x else Up(m, m[x].parent.value, k - 1, j - 1)
  }

  ghost predicate RootWithin(m: Table, x: int, k: nat) {
    x in m && exists j: nat :: j <= k && RootIn(m, x, j)
  }

  ghost function Chain(m: Table, x: int, k: nat): (s: set<int>)
    requires x in m && RootIn(m, x, k)
    ensures s <= m.Keys
    ensures forall y | y in s :: RootWithin(m, y, k)
    ensures |s| == k + 1
    decreases k
  {
    assert RootWithin(m, x, k);
    if k == 0 then {x}
    else
      var rest := Chain(m, m[x].parent.value, k - 1);
      assert x !in rest by {
        if x in rest {
          var j: nat :| j <= k - 1 && RootIn(m, x, j);
          DepthIsUnique(m, x, j, k);
          assert false;
        }
      }
      {x} + rest
  }

  /** A chain of parents has no repeats, so no item is deeper than there are items. */
  lemma {:induction false} DepthBound(m: Table, x: int, k: nat)
    requires x in m && RootIn(m, x, k)
    ensures k + 1 <= |m|
  {
    SubsetSize(Chain(m, x, k), m.Keys);
    assert |m.Keys| == |m|;
  }

  // --------------------------------------------------------------- forest

  /** The items all have depth k. */
  ghost predicate Level(m: Table, items: seq<Item>, k: nat) {
    forall i | i in items :: i.id in m && m[i.id] == i && RootIn(m, i.id, k)
  }

  lemma {:induction false} KidsLevel(m: Table, x: int, k: nat)
    requires Keyed(m) && x in m && RootIn(m, x, k)
    ensures Level(m, SortedKids(m, x), k + 1)
  {
  }

  ghost function Grow(m: Table, i: Item, k: nat): Tree
    requires Keyed(m) && i.id in m && m[i.id] == i && RootIn(m, i.id, k)
    decreases |m| - k, 1, 0
  {
    DepthBound(m, i.id, k);
    KidsLevel(m, i.id, k);
    Tree(i, GrowAll(m, SortedKids(m, i.id), k + 1))
  }

  ghost function GrowAll(m: Table, items: seq<Item>, k: nat): (trees: seq<Tree>)
    requires Keyed(m) && Level(m, items, k)
    ensures |trees| == |items|
    decreases |m| - k, 2, |items|
  {
    if items == [] then []
    else
      assert items[|items| - 1] in items;
      DepthBound(m, items[|items| - 1].id, k);
      assert forall i | i in items[..|items| - 1] :: i in items;
      GrowAll(m, items[..|items| - 1], k) + [Grow(m, items[|items| - 1], k)]
  }

  lemma {:induction false} RootsLevel(m: Table)
    requires Keyed(m)
    ensures Level(m, SortedRoots(m), 0)
  {
  }

  /** The whole forest, siblings in order everywhere. */
  ghost function Forest(m: Table): seq<Tree>
    requires Keyed(m)
  {
    RootsLevel(m);
    GrowAll(m, SortedRoots(m), 0)
  }

  /** How often an id occurs in a tree. */
  function Count(t: Tree, x: int): nat
    decreases t, 1
  {
    (if t.item.id == x then 1 else 0) + CountAll(t.children, x)
  }

  function CountAll(ts: seq<Tree>, x: int): nat
    decreases ts, 0
  {
    if ts == [] then 0 else CountAll(ts[..|ts| - 1], x) + Count(ts[|ts| - 1], x)
  }

  /** x hangs under y, where y is at depth k. */
  ghost predicate Under(m: Table, x: int, y: int, k: nat) {
    x in m && exists d: nat :: k <= d && RootIn(m, x, d) && Up(m, x, d, d - k) == y
  }

  lemma {:induction false} CountGrown(m: Table, i: Item, k: nat, x: int)
    requires Keyed(m) && i.id in m && m[i.id] == i && RootIn(m, i.id, k)
    ensures Count(Grow(m, i, k), x) == if Under(m, x, i.id, k) then 1 else 0
    decreases |m| - k, 1, 0
  {
    DepthBound(m, i.id, k);
    KidsLevel(m, i.id, k);
    var kids := SortedKids(m, i.id);
    CountGrownAll(m, kids, k + 1, x);
    UnderStep(m, x, i, k);
  }

  ghost predicate UnderSome(m: Table, x: int, items: seq<Item>, k: nat) {
    exists i :: i in items && Under(m, x, i.id, k)
  }

  lemma {:induction false} UnderInitOrLast(m: Table, x: int, items: seq<Item>, k: nat)
    requires Level(m, items, k) && Increasing(items, ItemLess) && items != []
    ensures var init, last := items[..|items| - 1], items[|items| - 1];
      && (UnderSome(m, x, items, k) <==> UnderSome(m, x, init, k) || Under(m, x, last.id, k))
      && !(UnderSome(m, x, init, k) && Under(m, x, last.id, k))
  {
    var init, last := items[..|items| - 1], items[|items| - 1];
    assert items == init + [last];
    assert last in items && forall i | i in init :: i in items;
    forall i | i in init
      ensures i.id != last.id && !(Under(m, x, i.id, k) && Under(m, x, last.id, k))
    {
      var n :| 0 <= n < |init| && init[n] == i;
      assert ItemLess(items[n], items[|items| - 1]);
      UnderOnlyOne(m, x, i.id, last.id, k);
    }
  }

  lemma {:induction false} CountGrownAll(m: Table, items: seq<Item>, k: nat, x: int)
    requires Keyed(m) && Level(m, items, k) && Increasing(items, ItemLess)
    ensures CountAll(GrowAll(m, items, k), x) == if UnderSome(m, x, items, k) then 1 else 0
    decreases |m| - k, 2, |items|
  {
    if items != [] {
      var init, last := items[..|items| - 1], items[|items| - 1];
      CountGrownStep(m, items, k, x);
      CountGrownAll(m, init, k, x);
      CountGrown(m, last, k, x);
      UnderInitOrLast(m, x, items, k);
    }
  }

  lemma {:induction false} CountGrownStep(m: Table, items: seq<Item>, k: nat, x: int)
    requires Keyed(m) && Level(m, items, k) && Increasing(items, ItemLess) && items != []
    ensures var init, last := items[..|items| - 1], items[|items| - 1];
      && Level(m, init, k) && Increasing(init, ItemLess)
      && last.id in m && m[last.id] == last && RootIn(m, last.id, k) && k < |m|
      && CountAll(GrowAll(m, items, k), x) == CountAll(GrowAll(m, init, k), x) + Count(Grow(m, last, k), x)
  {
    var init, last := items[..|items| - 1], items[|items| - 1];
    assert last in items && forall i | i in init :: i in items;
    DepthBound(m, last.id, k);
    assert GrowAll(m, items, k) == GrowAll(m, init, k) + [Grow(m, last, k)];
    CountAppend(GrowAll(m, init, k), Grow(m, last, k), x);
  }

  lemma {:induction false} CountAppend(ts: seq<Tree>, t: Tree, x: int)
    ensures CountAll(ts + [t], x) == CountAll(ts, x) + Count(t, x)
  {
  }

  lemma {:induction false} UnderOnlyOne(m: Table, x: int, y: int, z: int, k: nat)
    ensures Under(m, x, y, k) && Under(m, x, z, k) ==> y == z
  {
    if Under(m, x, y, k) && Under(m, x, z, k) {
      var d: nat :| k <= d && RootIn(m, x, d) && Up(m, x, d, d - k) == y;
      var e: nat :| k <= e && RootIn(m, x, e) && Up(m, x, e, e - k) == z;
      DepthIsUnique(m, x, d, e);
    }
  }

  lemma {:induction false} UpStep(m: Table, x: int, d: nat, j: nat)
    requires x in m && RootIn(m, x, d) && j < d
    ensures !IsRoot(m, Up(m, x, d, j)) && m[Up(m, x, d, j)].parent == Some(Up(m, x, d, j + 1))
    decreases j
  {
    if j > 0 {
      UpStep(m, m[x].parent.value, d - 1, j - 1);
    }
  }

  lemma {:induction false} SelfIsNotBelow(m: Table, x: int, k: nat, c: int)
    requires x in m && RootIn(m, x, k)
    ensures Under(m, x, x, k) && !Under(m, x, c, k + 1)
  {
    assert Up(m, x, k, k - k) == x;
    forall d: nat | RootIn(m, x, d)
      ensures d == k
    {
      DepthIsUnique(m, x, d, k);
    }
  }

  lemma {:induction false} UnderThenKid(m: Table, x: int, i: Item, k: nat)
    requires Keyed(m) && i.id in m && x != i.id
    requires Under(m, x, i.id, k)
    ensures UnderSome(m, x, SortedKids(m, i.id), k + 1)
  {
    var d: nat :| k <= d && RootIn(m, x, d) && Up(m, x, d, d - k) == i.id;
    assert d != k;
    UpStep(m, x, d, d - k - 1);
    var c := Up(m, x, d, d - (k + 1));
    assert IsKid(m, c, i.id);
    assert m[c] in Kids(m, i.id);
    assert m[c] in SortedKids(m, i.id) && Under(m, x, m[c].id, k + 1);
  }

  lemma {:induction false} KidThenUnder(m: Table, x: int, i: Item, k: nat, c: Item)
    requires Keyed(m) && i.id in m && c in Kids(m, i.id)
    requires Under(m, x, c.id, k + 1)
    ensures Under(m, x, i.id, k)
  {
    var d: nat :| k + 1 <= d && RootIn(m, x, d) && Up(m, x, d, d - (k + 1)) == c.id;
    UpStep(m, x, d, d - (k + 1));
    assert Up(m, x, d, d - k) == i.id;
  }

  /** To hang under an item is to be it, or to hang under one of its kids. */
  lemma {:induction false} UnderStep(m: Table, x: int, i: Item, k: nat)
    requires Keyed(m) && i.id in m && m[i.id] == i && RootIn(m, i.id, k)
    ensures Under(m, x, i.id, k) <==> x == i.id || UnderSome(m, x, SortedKids(m, i.id), k + 1)
    ensures x == i.id ==> !UnderSome(m, x, SortedKids(m, i.id), k + 1)
  {
    var kids := SortedKids(m, i.id);
    if x == i.id {
      forall c | c in kids
        ensures !Under(m, x, c.id, k + 1)
      {
        SelfIsNotBelow(m, x, k, c.id);
      }
      SelfIsNotBelow(m, x, k, x);
    } else if Under(m, x, i.id, k) {
      UnderThenKid(m, x, i, k);
    } else {
      forall c | c in kids
        ensures !Under(m, x, c.id, k + 1)
      {
        if Under(m, x, c.id, k + 1) {
          KidThenUnder(m, x, i, k, c);
        }
      }
    }
  }

  /** Every item whose chain of parents ends is in the forest exactly once, and nothing else is. */
  lemma {:induction false} ForestHoldsGroundedOnce(m: Table, x: int)
    requires Keyed(m)
    ensures CountAll(Forest(m), x) == if Grounded(m, x) then 1 else 0
  {
    RootsLevel(m);
    CountGrownAll(m, SortedRoots(m), 0, x);
    if Grounded(m, x) {
      var d: nat :| RootIn(m, x, d);
      var r := Up(m, x, d, d);
      assert RootIn(m, r, 0);
      assert m[r] in RootItems(m) && m[r] in SortedRoots(m);
      assert Up(m, x, d, d - 0) == r;
      assert Under(m, x, m[r].id, 0);
    }
  }

  lemma {:induction false} ChildAt(m: Table, i: Item, k: nat, n: nat)
    requires Keyed(m) && i.id in m && m[i.id] == i && RootIn(m, i.id, k)
    requires n < |SortedKids(m, i.id)|
    ensures var c := SortedKids(m, i.id)[n];
      && c in Kids(m, i.id) && c.id in m && m[c.id] == c && RootIn(m, c.id, k + 1)
      && |Grow(m, i, k).children| == |SortedKids(m, i.id)|
      && Grow(m, i, k).children[n] == Grow(m, c, k + 1)
  {
    KidsLevel(m, i.id, k);
    GrownAt(m, SortedKids(m, i.id), k + 1, n);
  }

  /** Every tree of the forest has its item's kids, and only they, as children, in sibling order. */
  lemma {:induction false} ChildrenAreKids(m: Table, i: Item, k: nat)
    requires Keyed(m) && i.id in m && m[i.id] == i && RootIn(m, i.id, k)
    ensures var t := Grow(m, i, k);
      && t.item == i && |t.children| == |SortedKids(m, i.id)|
      && forall n | 0 <= n < |t.children| :: t.children[n].item == SortedKids(m, i.id)[n]
  {
    var t, kids := Grow(m, i, k), SortedKids(m, i.id);
    if |kids| > 0 {
      ChildAt(m, i, k, 0);
    }
    forall n | 0 <= n < |kids|
      ensures t.children[n].item == kids[n]
    {
      ChildAt(m, i, k, n);
    }
  }

  lemma {:induction false} GrownAt(m: Table, items: seq<Item>, k: nat, n: nat)
    requires Keyed(m) && Level(m, items, k) && n < |items|
    ensures items[n] in items && GrowAll(m, items, k)[n] == Grow(m, items[n], k)
    decreases |items|
  {
    if n < |items| - 1 {
      assert forall i | i in items[..|items| - 1] :: i in items;
      GrownAt(m, items[..|items| - 1], k, n);
    }
  }

  /** In the trees hanging from `over`, x stands d levels down, right below `under`. */
  ghost predicate Stands(ts: seq<Tree>, over: Option<int>, x: int, under: Option<int>, d: nat)
    decreases d
  {
    exists i | 0 <= i < |ts| ::
      if d == 0 then ts[i].item.id == x && over == under
      else Stands(ts[i].children, Some(ts[i].item.id), x, under, d - 1)
  }

  lemma {:induction false} StandsIn(ts: seq<Tree>, over: Option<int>, i: nat, x: int, under: Option<int>, d: nat)
    requires i < |ts|
    requires
      if d == 0 then ts[i].item.id == x && over == under
      else Stands(ts[i].children, Some(ts[i].item.id), x, under, d - 1)
    ensures Stands(ts, over, x, under, d)
  {
  }

  /** What a kid of y is, or what stands below it, stands below y. */
  lemma {:induction false} StandsBelowKid(m: Table, y: int, z: int, k: nat, x: int, under: Option<int>, d: nat)
    requires Keyed(m) && y in m && RootIn(m, y, k) && z in m && IsKid(m, z, y) && RootIn(m, z, k + 1)
    requires
      if d == 0 then x == z && under == Some(y)
      else Stands(Grow(m, m[z], k + 1).children, Some(z), x, under, d - 1)
    ensures Stands(Grow(m, m[y], k).children, Some(y), x, under, d)
  {
    var i := KidIndex(m, y, z);
    ChildAt(m, m[y], k, i);
    var t := Grow(m, m[z], k + 1);
    assert t.item == m[z] && m[z].id == z;
    StandsIn(Grow(m, m[y], k).children, Some(y), i, x, under, d);
  }

  /** Below the ancestor at depth k, x stands where the rest of its chain of parents leads. */
  lemma {:induction false} StandsBelow(m: Table, x: int, d: nat, k: nat)
    requires Keyed(m) && x in m && RootIn(m, x, d) && k < d
    ensures var y := Up(m, x, d, d - k);
      Stands(Grow(m, m[y], k).children, Some(y), x, m[x].parent, d - k - 1)
    decreases d - k
  {
    UpStep(m, x, d, d - k - 1);
    if k + 1 < d {
      StandsBelow(m, x, d, k + 1);
    }
    StandsBelowKid(m, Up(m, x, d, d - k), Up(m, x, d, d - k - 1), k, x, m[x].parent, d - k - 1);
  }

  lemma {:induction false} KidIndex(m: Table, y: int, z: int) returns (i: nat)
    requires Keyed(m) && z in m && IsKid(m, z, y)
    ensures i < |SortedKids(m, y)| && SortedKids(m, y)[i] == m[z]
  {
    assert m[z] in Kids(m, y) && m[z] in SortedKids(m, y);
    i :| 0 <= i < |SortedKids(m, y)| && SortedKids(m, y)[i] == m[z];
  }

  lemma {:induction false} RootIndex(m: Table, r: int) returns (i: nat)
    requires Keyed(m) && r in m && IsRoot(m, r)
    ensures RootIn(m, r, 0) && i < |Forest(m)| && Forest(m)[i] == Grow(m, m[r], 0)
  {
    RootsLevel(m);
    assert m[r] in RootItems(m) && m[r] in SortedRoots(m);
    i :| 0 <= i < |SortedRoots(m)| && SortedRoots(m)[i] == m[r];
    GrownAt(m, SortedRoots(m), 0, i);
  }

  lemma {:induction false} StandsUnderRoot(m: Table, r: int, x: int, under: Option<int>, d: nat)
    requires Keyed(m) && r in m && RootIn(m, r, 0)
    requires
      if d == 0 then x == r && under == None
      else Stands(Grow(m, m[r], 0).children, Some(r), x, under, d - 1)
    ensures Stands(Forest(m), None, x, under, d)
  {
    var i := RootIndex(m, r);
    var t := Grow(m, m[r], 0);
    assert t.item == m[r] && m[r].id == r;
    StandsIn(Forest(m), None, i, x, under, d);
  }

  /** An item stands in the forest at the depth its chain of parents gives it, right below its parent. */
  lemma {:induction false} StandsAtDepth(m: Table, x: int, d: nat)
    requires Keyed(m) && x in m && RootIn(m, x, d)
    ensures Stands(Forest(m), None, x, if d == 0 then None else m[x].parent, d)
  {
    if d > 0 {
      StandsBelow(m, x, d, 0);
    }
    StandsUnderRoot(m, Up(m, x, d, d), x, if d == 0 then None else m[x].parent, d);
  }

  /** Siblings come in order, at every level. */
  ghost predicate InOrder(ts: seq<Tree>)
    decreases ts
  {
    && (forall i, j | 0 <= i < j < |ts| :: ComesFirst(ts[i].item, ts[j].item))
    && forall i | 0 <= i < |ts| :: InOrder(ts[i].children)
  }

  lemma {:induction false} IncreasingInOrder(items: seq<Item>)
    requires Increasing(items, ItemLess)
    ensures forall i, j | 0 <= i < j < |items| :: ComesFirst(items[i], items[j])
  {
    forall i, j | 0 <= i < j < |items|
      ensures ComesFirst(items[i], items[j])
    {
      LessComesFirst(items[i], items[j]);
    }
  }

  lemma {:induction false} GrownInOrder(m: Table, i: Item, k: nat)
    requires Keyed(m) && i.id in m && m[i.id] == i && RootIn(m, i.id, k)
    ensures InOrder(Grow(m, i, k).children)
    decreases |m| - k
  {
    DepthBound(m, i.id, k);
    KidsLevel(m, i.id, k);
    LevelInOrder(m, SortedKids(m, i.id), k + 1);
  }

  /** Trees grown from siblings in order are in order. */
  lemma {:induction false} LevelInOrder(m: Table, items: seq<Item>, k: nat)
    requires Keyed(m) && Level(m, items, k) && Increasing(items, ItemLess) && k <= |m|
    ensures InOrder(GrowAll(m, items, k))
    decreases |m| - k + 1, 0
  {
    var ts := GrowAll(m, items, k);
    IncreasingInOrder(items);
    forall n | 0 <= n < |ts|
      ensures ts[n].item == items[n] && InOrder(ts[n].children)
    {
      GrownAt(m, items, k, n);
      DepthBound(m, items[n].id, k);
      GrownInOrder(m, items[n], k);
    }
  }

  /** The forest has its siblings in order everywhere. */
  lemma {:induction false} ForestInOrder(m: Table)
    requires Keyed(m)
    ensures InOrder(Forest(m))
  {
    RootsLevel(m);
    LevelInOrder(m, SortedRoots(m), 0);
  }
}
