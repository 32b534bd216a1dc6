/** Storing parsed items under fresh ids, and the forest built from the stored rows. */
module PlxImport {
  import opened Wrappers
  import opened PlxBlocks
  import opened PlxPlan
  import CurriculumForest
  import CurriculumTree

  type Table = CurriculumForest.Table

  /** The ids the store hands out: positive, and no two alike. */
  ghost predicate FreshIds(ids: seq<int>) {
    (forall i | 0 <= i < |ids| :: ids[i] > 0) && forall i, j | 0 <= i < j < |ids| :: ids[i] != ids[j]
  }

  /** The row stored for item n: its parent's id, if that parent is already stored. */
  function RowOf(items: seq<Parsed>, ids: seq<int>, n: nat): CurriculumForest.Item
    requires n < |items| == |ids|
  {
    var p := items[n].parent;
    CurriculumForest.Item(ids[n], if 0 <= p < n then Some(ids[p]) else None, items[n].code, items[n].name)
  }

  method ImportItems(items: seq<Parsed>, ids: seq<int>) returns (rows: seq<CurriculumForest.Item>)
    requires |items| == |ids| && FreshIds(ids)
    ensures |rows| == |items| && forall n | 0 <= n < |items| :: rows[n] == RowOf(items, ids, n)
  {
    var itemIDs := new int[|items|](_ => 0);
    rows := [];
    for i := 0 to |items|
      invariant |rows| == i && forall n | 0 <= n < i :: rows[n] == RowOf(items, ids, n)
      invariant forall n | 0 <= n < |items| :: itemIDs[n] == if n < i then ids[n] else 0
    {
      var item := items[i];
      var parentID := None;
      if item.parent >= 0 && item.parent < itemIDs.Length && itemIDs[item.parent] > 0 {
        parentID := Some(itemIDs[item.parent]);
      }
      rows := rows + [CurriculumForest.Item(ids[i], parentID, item.code, item.name)];
      itemIDs[i] := ids[i];
    }
  }

  ghost predicate Imported(items: seq<Parsed>, ids: seq<int>, rows: seq<CurriculumForest.Item>) {
    && |rows| == |items| == |ids| && FreshIds(ids)
    && forall n | 0 <= n < |items| :: rows[n] == RowOf(items, ids, n)
  }

  /** Rows with different ids are all in the table, and nothing else is. */
  lemma {:induction false} TableHolds(rows: seq<CurriculumForest.Item>, x: int)
    requires forall i, j | 0 <= i < j < |rows| :: rows[i].id != rows[j].id
    ensures x in CurriculumTree.TableOf(rows) <==> exists n :: 0 <= n < |rows| && rows[n].id == x
    ensures forall n | 0 <= n < |rows| && rows[n].id == x :: CurriculumTree.TableOf(rows)[x] == rows[n]
  {
    if rows != [] {
      TableHolds(rows[..|rows| - 1], x);
      assert forall n | 0 <= n < |rows| - 1 :: rows[..|rows| - 1][n] == rows[n];
    }
  }

  lemma {:induction false} RowsInTable(items: seq<Parsed>, ids: seq<int>, rows: seq<CurriculumForest.Item>, n: nat)
    requires Imported(items, ids, rows) && n < |items|
    ensures ids[n] in CurriculumTree.TableOf(rows) && CurriculumTree.TableOf(rows)[ids[n]] == rows[n]
  {
    assert forall k | 0 <= k < |rows| :: rows[k].id == ids[k];
    TableHolds(rows, rows[n].id);
  }

  /** An item's stored row is a root when it has no parent, and else a child of its parent's row. */
  lemma {:induction false} ParentKept(items: seq<Parsed>, ids: seq<int>, rows: seq<CurriculumForest.Item>, n: nat)
    requires Imported(items, ids, rows) && ParentsPointBack(items) && n < |items|
    ensures ids[n] in CurriculumTree.TableOf(rows)
    ensures CurriculumForest.IsRoot(CurriculumTree.TableOf(rows), ids[n]) <==> items[n].parent == -1
    ensures items[n].parent >= 0 ==> CurriculumForest.IsKid(CurriculumTree.TableOf(rows), ids[n], ids[items[n].parent])
  {
    RowsInTable(items, ids, rows, n);
    if items[n].parent >= 0 {
      RowsInTable(items, ids, rows, items[n].parent);
    }
  }

  /** The stored row is as deep as the item was parsed. */
  lemma {:induction false} DepthKept(items: seq<Parsed>, ids: seq<int>, rows: seq<CurriculumForest.Item>, n: nat)
    requires Imported(items, ids, rows) && ParentsPointBack(items) && n < |items|
    ensures Depth(items, n) >= 1 && ids[n] in CurriculumTree.TableOf(rows)
    ensures CurriculumForest.RootIn(CurriculumTree.TableOf(rows), ids[n], Depth(items, n) - 1)
    decreases n
  {
    ParentKept(items, ids, rows, n);
    if items[n].parent >= 0 {
      DepthKept(items, ids, rows, items[n].parent);
    }
  }

  /**
   Importing parsed items and building the tree gives back every item exactly once and nothing else,
   each at its parsed depth.
   */
  lemma {:induction false} ImportThenTree(items: seq<Parsed>, ids: seq<int>, rows: seq<CurriculumForest.Item>, x: int)
    requires Imported(items, ids, rows) && ParentsPointBack(items)
    ensures CurriculumForest.CountAll(CurriculumForest.Forest(CurriculumTree.TableOf(rows)), x) ==
      if x in ids then 1 else 0
  {
    var m := CurriculumTree.TableOf(rows);
    CurriculumForest.ForestHoldsGroundedOnce(m, x);
    TableHolds(rows, x);
    if x in ids {
      var n :| 0 <= n < |ids| && ids[n] == x;
      DepthKept(items, ids, rows, n);
    }
  }

  function ChildItems(t: CurriculumForest.Tree): (r: seq<CurriculumForest.Item>)
    ensures |r| == |t.children|
    ensures forall k | 0 <= k < |r| :: r[k] == t.children[k].item
  {
    seq(|t.children|, k requires 0 <= k < |t.children| => t.children[k].item)
  }

  lemma {:induction false} KidIffParsedUnder(
    items: seq<Parsed>, ids: seq<int>, rows: seq<CurriculumForest.Item>, n: nat, c: nat)
    requires Imported(items, ids, rows) && ParentsPointBack(items) && n < |items| && c < |items|
    ensures rows[c] in CurriculumForest.Kids(CurriculumTree.TableOf(rows), ids[n]) <==> items[c].parent == n
  {
    var m := CurriculumTree.TableOf(rows);
    RowsInTable(items, ids, rows, c);
    ParentKept(items, ids, rows, c);
    if rows[c] in CurriculumForest.Kids(m, ids[n]) {
      var k :| k in m && CurriculumForest.IsKid(m, k, ids[n]) && m[k] == rows[c];
      assert k == ids[c];
    }
  }

  /** The children of an item's tree are, in sibling order, the rows of exactly the items parsed under it. */
  lemma {:induction false} ChildrenAreParsedUnder(
    items: seq<Parsed>, ids: seq<int>, rows: seq<CurriculumForest.Item>, n: nat, c: nat)
    requires Imported(items, ids, rows) && ParentsPointBack(items) && n < |items| && c < |items|
    ensures var m := CurriculumTree.TableOf(rows);
      && ids[n] in m && m[ids[n]] == rows[n] && Depth(items, n) >= 1
      && CurriculumForest.RootIn(m, ids[n], Depth(items, n) - 1)
      && ChildItems(CurriculumForest.Grow(m, rows[n], Depth(items, n) - 1)) == CurriculumForest.SortedKids(m, ids[n])
      && (rows[c] in CurriculumForest.SortedKids(m, ids[n]) <==> items[c].parent == n)
  {
    RowsInTable(items, ids, rows, n);
    DepthKept(items, ids, rows, n);
    KidIffParsedUnder(items, ids, rows, n, c);
    ChildItemsSorted(CurriculumTree.TableOf(rows), rows[n], Depth(items, n) - 1);
  }

  lemma {:induction false} ChildItemsSorted(m: Table, i: CurriculumForest.Item, k: nat)
    requires CurriculumForest.Keyed(m) && i.id in m && m[i.id] == i && CurriculumForest.RootIn(m, i.id, k)
    ensures ChildItems(CurriculumForest.Grow(m, i, k)) == CurriculumForest.SortedKids(m, i.id)
  {
    CurriculumForest.ChildrenAreKids(m, i, k);
  }

  /** The sheet's item n is in the forest once, as deep as it was parsed and right below what it was parsed under. */
  ghost predicate Placed(m: Table, items: seq<Parsed>, ids: seq<int>, n: nat)
    requires CurriculumForest.Keyed(m) && ParentsPointBack(items) && n < |items| == |ids|
  {
    var p := items[n].parent;
    var under := if p < 0 then None else Some(ids[p]);
    && CurriculumForest.CountAll(CurriculumForest.Forest(m), ids[n]) == 1
    && 1 <= Depth(items, n) <= 3
    && CurriculumForest.Stands(CurriculumForest.Forest(m), None, ids[n], under, Depth(items, n) - 1)
  }

  predicate StoredAs(item: Parsed, id: int, row: CurriculumForest.Item) {
    row.id == id && row.code == item.code && row.name == item.name
  }

  lemma {:induction false} ParsedIsStored(items: seq<Parsed>, ids: seq<int>, stored: seq<CurriculumForest.Item>, n: nat)
    requires Imported(items, ids, stored) && n < |items|
    ensures StoredAs(items[n], ids[n], stored[n])
  {
  }

  /**
   From the sheet to the tree: every row that becomes an item below header row h is in the tree built
   from what is stored, once and nowhere else, at most three deep, right below the row the layout of
   the sheet puts it under; and the tree holds nothing else.
   */
  lemma {:induction false} SheetToForest(
    rd: Reader, lx: Lexicon, rows: seq<Row>, h: nat, items: seq<Parsed>, ids: seq<int>,
    stored: seq<CurriculumForest.Item>)
    requires 0 < h < |rows| && ItemsBelow(rd, lx, rows, h, items) && Imported(items, ids, stored)
    ensures ParentsPointBack(items) && |items| == |Kept(rd, lx, rows[h + 1..])|
    ensures forall n: nat | n < |items| :: UnderItsHeader(lx, items, n)
    ensures forall n: nat | n < |items| :: Placed(CurriculumTree.TableOf(stored), items, ids, n)
    ensures forall n: nat | n < |items| :: StoredAs(items[n], ids[n], stored[n])
    ensures forall x | x !in ids ::
      CurriculumForest.CountAll(CurriculumForest.Forest(CurriculumTree.TableOf(stored)), x) == 0
  {
    var kept, blocks := Kept(rd, lx, rows[h + 1..]), Blocks(rd, rows[h - 1], rows[h]);
    var cols :| AreRoles(rd, rows[h], cols) && AreItems(rd, lx, kept, blocks, cols, items);
    ParsedParents(rd, lx, kept, blocks, cols, items);
    forall n: nat | n < |items|
      ensures Placed(CurriculumTree.TableOf(stored), items, ids, n) && StoredAs(items[n], ids[n], stored[n])
      ensures UnderItsHeader(lx, items, n)
    {
      ParentTells(rd, lx, rows[h + 1..], blocks, cols, items, n);
      ParsedIsStored(items, ids, stored, n);
      ParsedNesting(rd, lx, kept, blocks, cols, items, n);
      ItemPlaced(items, ids, stored, n);
    }
    forall x | x !in ids
      ensures CurriculumForest.CountAll(CurriculumForest.Forest(CurriculumTree.TableOf(stored)), x) == 0
    {
      ImportThenTree(items, ids, stored, x);
    }
  }

  lemma {:induction false} ItemStands(items: seq<Parsed>, ids: seq<int>, rows: seq<CurriculumForest.Item>, n: nat)
    requires Imported(items, ids, rows) && ParentsPointBack(items) && n < |items|
    ensures Depth(items, n) >= 1
    ensures var under := if items[n].parent < 0 then None else Some(ids[items[n].parent]);
      var forest := CurriculumForest.Forest(CurriculumTree.TableOf(rows));
      CurriculumForest.Stands(forest, None, ids[n], under, Depth(items, n) - 1)
  {
    DepthKept(items, ids, rows, n);
    RowsInTable(items, ids, rows, n);
    CurriculumForest.StandsAtDepth(CurriculumTree.TableOf(rows), ids[n], Depth(items, n) - 1);
  }

  lemma {:induction false} ItemPlaced(items: seq<Parsed>, ids: seq<int>, rows: seq<CurriculumForest.Item>, n: nat)
    requires Imported(items, ids, rows) && ParentsPointBack(items) && n < |items| && Depth(items, n) <= 3
    ensures Placed(CurriculumTree.TableOf(rows), items, ids, n)
  {
    assert ids[n] in ids;
    ImportThenTree(items, ids, rows, ids[n]);
    ItemStands(items, ids, rows, n);
  }
}
