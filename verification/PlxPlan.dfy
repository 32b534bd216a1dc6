/** Reading the rows of a plan sheet into items that name their parents by position. */
module PlxPlan {
  import opened Wrappers
  import opened Text
  import opened PlxBlocks

  /** How rows are told apart; the word lists behind these are not part of the model. */
  datatype Lexicon = Lexicon(nameTitle: string -> bool,
                             totalTitle: string -> bool,
                             summary: string -> bool,
                             root: (string, string) -> bool,
                             itemType: (string, string, bool) -> string)

  datatype PlanError = NoHeaderRow | NoSemesterRow | NoBlocks

  /** A parsed item: parent is an earlier position or -1, code is empty where there is none. */
  datatype Parsed = Parsed(parent: int, code: string, name: string, itemType: string, counted: bool,
                           allocations: seq<Allocation>)

  // ------------------------------------------------------------------ one row

  /** What a row is. */
  datatype Line = Nothing | Counted(code: string, name: string) | Header(code: string, name: string, root: bool)

  /** "code.name" taken apart, when both halves have text and the code is short. */
  function SplitHeader(al: Alphabet, raw: string): (string, string) {
    var text := Trim(al, raw);
    var dot := IndexOf(text, '.');
    if 0 < dot < |text| - 1
       && Trim(al, text[..dot]) != "" && Trim(al, text[dot + 1..]) != "" && |Trim(al, text[..dot])| <= 20
    then (Trim(al, text[..dot]), Trim(al, text[dot + 1..]))
    else ("", text)
  }

  /** The first place of a character, or -1. */
  function IndexOf(s: string, c: char): (i: int)
    ensures -1 <= i < |s|
    ensures i >= 0 ==> s[i] == c && c !in s[..i]
    ensures i == -1 ==> c !in s
  {
    if s == "" then -1
    else if s[0] == c then 0
    else
      var i := IndexOf(s[1..], c);
      assert s == [s[0]] + s[1..];
      assert i >= 0 ==> s[..i + 1] == [s[0]] + s[1..][..i];
      if i < 0 then -1 else i + 1
  }

  predicate IsBlank(al: Alphabet, row: Row) {
    forall i | 0 <= i < |row| :: Trim(al, row[i]) == ""
  }

  function RawHeader(marker: string, code: string, name: string): string {
    if name != "" then name else if code == "" then marker else ""
  }

  function ReadRow(rd: Reader, lx: Lexicon, row: Row): Line {
    var marker, code, name := Cell(rd.al, row, 0), Cell(rd.al, row, 1), Cell(rd.al, row, 2);
    if IsBlank(rd.al, row) then Nothing
    else if marker == "+" then (if name == "" then Nothing else Counted(code, name))
    else
      var raw := RawHeader(marker, code, name);
      if raw == "" || lx.summary(raw) then Nothing
      else
        var split := SplitHeader(rd.al, raw);
        var headerCode := if code != "" then code else split.0;
        var headerName := if name != "" then name else split.1;
        if headerName == "" then Nothing else Header(headerCode, headerName, lx.root(headerCode, headerName))
  }

  /**
   A header text splits at its first dot exactly if both sides have text and the left one is short,
   and nothing but white space is lost.
   */
  lemma {:induction false} SplitAtFirstDot(al: Alphabet, raw: string, left: string, right: string)
    requires Trim(al, raw) == left + "." + right && '.' !in left
    ensures SplitHeader(al, raw) ==
      if Trim(al, left) != "" && Trim(al, right) != "" && |Trim(al, left)| <= 20 then (Trim(al, left), Trim(al, right))
      else ("", Trim(al, raw))
  {
    var text := Trim(al, raw);
    assert text[|left|] == '.' && text[..|left|] == left && text[|left| + 1..] == right;
    FirstIsIndex(text, '.', |left|);
  }

  lemma {:induction false} FirstIsIndex(s: string, c: char, k: nat)
    requires k < |s| && s[k] == c && c !in s[..k]
    ensures IndexOf(s, c) == k
  {
    if k > 0 {
      assert s[0] in s[..k];
      assert s[1..][..k - 1] == s[..k][1..];
      FirstIsIndex(s[1..], c, k - 1);
    }
  }

  /** Without a dot it does not split. */
  lemma {:induction false} NoDotNoSplit(al: Alphabet, raw: string)
    requires '.' !in Trim(al, raw)
    ensures SplitHeader(al, raw) == ("", Trim(al, raw))
  {
  }

  /**
   A row is counted exactly if it is marked and named. It is a header exactly if it is not marked and
   its name, or else its marker standing alone, is neither empty nor a summary.
   */
  lemma {:induction false} RowKinds(rd: Reader, lx: Lexicon, row: Row)
    ensures var marker, code, name := Cell(rd.al, row, 0), Cell(rd.al, row, 1), Cell(rd.al, row, 2);
      var line := ReadRow(rd, lx, row);
      && (line.Counted? <==> marker == "+" && name != "")
      && (line.Counted? ==> line.code == code && line.name == name)
      && (line.Header? <==>
         marker != "+" && if name != "" then !lx.summary(name) else code == "" && marker != "" && !lx.summary(marker))
      && (line.Header? && name != "" ==>
         line.name == name && line.code == if code != "" then code else SplitHeader(rd.al, name).0)
      && (line.Header? && name == "" ==> (line.code, line.name) == SplitHeader(rd.al, marker))
      && (line.Header? ==> line.name != "" && line.root == lx.root(line.code, line.name))
  {
    CellIsTrimmed(rd.al, row, 0);
    TrimmedIsFixed(rd.al, Cell(rd.al, row, 0));
  }

  lemma {:induction false} CellIsTrimmed(al: Alphabet, row: Row, col: nat)
    ensures Trimmed(al, Cell(al, row, col))
  {
    if col < |row| {
      TrimIsTrimmed(al, row[col]);
    }
  }

  // ----------------------------------------------------------------- all rows

  /** A row that becomes an item, and what it is. */
  datatype Entry = Entry(line: Line, row: Row)

  /** The rows that become items, in order. */
  function Kept(rd: Reader, lx: Lexicon, rows: seq<Row>): (kept: seq<Entry>)
    ensures forall n | 0 <= n < |kept| :: !kept[n].line.Nothing?
  {
    if rows == [] then []
    else
      var before, line := Kept(rd, lx, rows[..|rows| - 1]), ReadRow(rd, lx, rows[|rows| - 1]);
      if line.Nothing? then before else before + [Entry(line, rows[|rows| - 1])]
  }

  predicate Heads(line: Line, rootsOnly: bool) {
    line.Header? && (rootsOnly ==> line.root)
  }

  /** The rows kept are those that are something, each as what it is, in the order of the sheet. */
  ghost predicate KeptFrom(rd: Reader, lx: Lexicon, rows: seq<Row>, kept: seq<Entry>, at: seq<nat>) {
    && |at| == |kept|
    && (forall n | 0 <= n < |at| ::
          at[n] < |rows| && kept[n].row == rows[at[n]] && kept[n].line == ReadRow(rd, lx, rows[at[n]]))
    && (forall m, n | 0 <= m < n < |at| :: at[m] < at[n])
    && (forall i: nat | i < |rows| :: i in at <==> !ReadRow(rd, lx, rows[i]).Nothing?)
  }

  lemma {:induction false} KeptFromMore(
    rd: Reader, lx: Lexicon, rows: seq<Row>, row: Row, kept: seq<Entry>, at: seq<nat>)
    requires KeptFrom(rd, lx, rows, kept, at)
    ensures var line := ReadRow(rd, lx, row);
      if line.Nothing? then KeptFrom(rd, lx, rows + [row], kept, at)
      else KeptFrom(rd, lx, rows + [row], kept + [Entry(line, row)], at + [|rows|])
  {
    assert forall i: nat | i < |rows| :: (rows + [row])[i] == rows[i];
    assert |rows| !in at;
  }

  lemma {:induction false} KeptAreRows(rd: Reader, lx: Lexicon, rows: seq<Row>) returns (at: seq<nat>)
    ensures KeptFrom(rd, lx, rows, Kept(rd, lx, rows), at)
  {
    if rows == [] {
      at := [];
    } else {
      var init, last := rows[..|rows| - 1], rows[|rows| - 1];
      at := KeptAreRows(rd, lx, init);
      KeptFromMore(rd, lx, init, last, Kept(rd, lx, init), at);
      assert rows == init + [last];
      if !ReadRow(rd, lx, last).Nothing? {
        at := at + [|init|];
      }
    }
  }

  /** The latest header before n, or -1; among root headers only, if asked. */
  function LatestHeader(kept: seq<Entry>, n: nat, rootsOnly: bool): (p: int)
    requires n <= |kept|
    ensures -1 <= p < n
    ensures p >= 0 ==> Heads(kept[p].line, rootsOnly)
    ensures forall j | p < j < n :: !Heads(kept[j].line, rootsOnly)
  {
    if n == 0 then -1
    else if Heads(kept[n - 1].line, rootsOnly) then n - 1
    else LatestHeader(kept, n - 1, rootsOnly)
  }

  /** A counted row hangs under the latest header, a header under the latest root header, a root header under none. */
  function ParentOf(kept: seq<Entry>, n: nat): int
    requires n < |kept|
  {
    if kept[n].line.Counted? then LatestHeader(kept, n, false)
    else if Heads(kept[n].line, true) then -1
    else LatestHeader(kept, n, true)
  }

  function ItemOf(rd: Reader, lx: Lexicon, e: Entry, parent: int, blocks: seq<Block>, cols: map<Role, nat>): Parsed
    requires !e.line.Nothing?
  {
    Parsed(parent, e.line.code, e.line.name, lx.itemType(e.line.code, e.line.name, e.line.Counted?), e.line.Counted?,
           Allocations(rd, e.row, blocks, cols))
  }

  ghost predicate IsItem(
    rd: Reader, lx: Lexicon, kept: seq<Entry>, n: nat, blocks: seq<Block>, cols: map<Role, nat>, item: Parsed)
    requires n < |kept| && !kept[n].line.Nothing?
  {
    item == ItemOf(rd, lx, kept[n], ParentOf(kept, n), blocks, cols)
  }

  ghost predicate AreItems(
    rd: Reader, lx: Lexicon, kept: seq<Entry>, blocks: seq<Block>, cols: map<Role, nat>, items: seq<Parsed>)
  {
    && |items| == |kept|
    && (forall n | 0 <= n < |kept| :: !kept[n].line.Nothing?)
    && (forall n: nat | n < |kept| :: IsItem(rd, lx, kept, n, blocks, cols, items[n]))
  }

  method ParseRows(
    rd: Reader, lx: Lexicon, rows: seq<Row>, blocks: seq<Block>, cols: map<Role, nat>) returns (items: seq<Parsed>)
    ensures AreItems(rd, lx, Kept(rd, lx, rows), blocks, cols, items)
  {
    items := [];
    var currentRoot, lastHeader := -1, -1;
    for i := 0 to |rows|
      invariant AreItems(rd, lx, Kept(rd, lx, rows[..i]), blocks, cols, items)
      invariant lastHeader == LatestHeader(Kept(rd, lx, rows[..i]), |items|, false)
      invariant currentRoot == LatestHeader(Kept(rd, lx, rows[..i]), |items|, true)
    {
      assert rows[..i + 1][..i] == rows[..i];
      var row := rows[i];
      var line := ReadRow(rd, lx, row);
      if line.Nothing? {
        continue;
      }
      var allocs := ParseAllocations(rd, row, blocks, cols);
      ghost var kept := Kept(rd, lx, rows[..i]);
      ItemsMore(rd, lx, kept, Entry(line, row), blocks, cols, items);
      if line.Counted? {
        items := items +
          [Parsed(lastHeader, line.code, line.name, lx.itemType(line.code, line.name, true), true, allocs)];
      } else {
        var parent := currentRoot;
        if line.root {
          parent := -1;
          currentRoot := |items|;
        }
        items := items +
          [Parsed(parent, line.code, line.name, lx.itemType(line.code, line.name, false), false, allocs)];
        lastHeader := |items| - 1;
      }
    }
    assert rows[..|rows|] == rows;
  }

  /** A further row changes nothing for the rows before it. */
  lemma {:induction false} LatestSame(kept: seq<Entry>, e: Entry, n: nat, rootsOnly: bool)
    requires n <= |kept|
    ensures LatestHeader(kept + [e], n, rootsOnly) == LatestHeader(kept, n, rootsOnly)
    decreases n
  {
    if n > 0 {
      LatestSame(kept, e, n - 1, rootsOnly);
    }
  }

  /** The parent of a further row, seen from the rows before it. */
  function NewParent(kept: seq<Entry>, line: Line): int {
    if line.Counted? then LatestHeader(kept, |kept|, false)
    else if Heads(line, true) then -1
    else LatestHeader(kept, |kept|, true)
  }

  lemma {:induction false} ItemsMore(
    rd: Reader, lx: Lexicon, kept: seq<Entry>, e: Entry, blocks: seq<Block>, cols: map<Role, nat>, items: seq<Parsed>)
    requires AreItems(rd, lx, kept, blocks, cols, items) && !e.line.Nothing?
    ensures var item := ItemOf(rd, lx, e, NewParent(kept, e.line), blocks, cols);
      AreItems(rd, lx, kept + [e], blocks, cols, items + [item])
    ensures LatestHeader(kept + [e], |kept| + 1, false) ==
      if Heads(e.line, false) then |kept| else LatestHeader(kept, |kept|, false)
    ensures LatestHeader(kept + [e], |kept| + 1, true) ==
      if Heads(e.line, true) then |kept| else LatestHeader(kept, |kept|, true)
  {
    LatestSame(kept, e, |kept|, false);
    LatestSame(kept, e, |kept|, true);
    var now := items + [ItemOf(rd, lx, e, NewParent(kept, e.line), blocks, cols)];
    forall n: nat | n <= |kept|
      ensures IsItem(rd, lx, kept + [e], n, blocks, cols, now[n])
    {
      if n < |kept| {
        LatestSame(kept, e, n, false);
        LatestSame(kept, e, n, true);
        assert IsItem(rd, lx, kept, n, blocks, cols, items[n]);
      }
    }
  }

  // ------------------------------------------------------------- the whole sheet

  predicate IsHeaderRow(lx: Lexicon, row: Row) {
    && (exists i :: 0 <= i < |row| && lx.nameTitle(row[i]))
    && (exists i :: 0 <= i < |row| && lx.totalTitle(row[i]))
  }

  /** The first header row of a sheet, or -1. */
  ghost function HeaderRow(lx: Lexicon, rows: seq<Row>): (h: int)
    ensures -1 <= h < |rows|
    ensures h >= 0 ==> IsHeaderRow(lx, rows[h])
    ensures forall i | 0 <= i < (if h < 0 then |rows| else h) :: !IsHeaderRow(lx, rows[i])
  {
    if rows == [] then -1
    else
      var last := |rows| - 1;
      var before := HeaderRow(lx, rows[..last]);
      assert forall i | 0 <= i < last :: rows[..last][i] == rows[i];
      if before >= 0 then before else if IsHeaderRow(lx, rows[last]) then last else -1
  }

  method FindHeaderRow(lx: Lexicon, rows: seq<Row>) returns (found: int)
    ensures found == HeaderRow(lx, rows)
  {
    for i := 0 to |rows|
      invariant forall j | 0 <= j < i :: !IsHeaderRow(lx, rows[j])
    {
      var hasName, hasTotal := false, false;
      var row := rows[i];
      for k := 0 to |row|
        invariant hasName <==> exists j :: 0 <= j < k && lx.nameTitle(row[j])
        invariant hasTotal <==> exists j :: 0 <= j < k && lx.totalTitle(row[j])
      {
        hasName := hasName || lx.nameTitle(row[k]);
        hasTotal := hasTotal || lx.totalTitle(row[k]);
      }
      if hasName && hasTotal {
        return i;
      }
    }
    return -1;
  }

  /** The items below header row h, read with the blocks and assessment columns of that header. */
  ghost predicate ItemsBelow(rd: Reader, lx: Lexicon, rows: seq<Row>, h: int, items: seq<Parsed>)
    requires 0 < h < |rows|
  {
    exists cols :: AreRoles(rd, rows[h], cols)
      && AreItems(rd, lx, Kept(rd, lx, rows[h + 1..]), Blocks(rd, rows[h - 1], rows[h]), cols, items)
  }

  method ParsePlanSheet(rd: Reader, lx: Lexicon, rows: seq<Row>) returns (r: Result<seq<Parsed>, PlanError>)
    ensures var h := HeaderRow(lx, rows);
      if h < 0 then r == Failure(NoHeaderRow)
      else if h == 0 then r == Failure(NoSemesterRow)
      else if Blocks(rd, rows[h - 1], rows[h]) == [] then r == Failure(NoBlocks)
      else r.Success? && ItemsBelow(rd, lx, rows, h, r.value)
  {
    var headerRow := FindHeaderRow(lx, rows);
    if headerRow < 0 {
      return Failure(NoHeaderRow);
    }
    if headerRow < 1 {
      return Failure(NoSemesterRow);
    }
    var blocks := ParseSemesterBlocks(rd, rows[headerRow - 1], rows[headerRow]);
    if |blocks| == 0 {
      return Failure(NoBlocks);
    }
    var cols := ParseAssessmentColumns(rd, rows[headerRow]);
    var items := ParseRows(rd, lx, rows[headerRow + 1..], blocks, cols);
    assert ItemsBelow(rd, lx, rows, headerRow, items);
    r := Success(items);
  }

  /** An item has the code and name its row is read with, and its row's allocations. */
  predicate ItemTells(rd: Reader, lx: Lexicon, row: Row, blocks: seq<Block>, cols: map<Role, nat>, item: Parsed) {
    var line := ReadRow(rd, lx, row);
    && !line.Nothing? && item.code == line.code && item.name == line.name && (item.counted <==> line.Counted?)
    && item.itemType == lx.itemType(line.code, line.name, line.Counted?)
    && item.allocations == Allocations(rd, row, blocks, cols)
  }

  /** The items below a header row are those of the rows that are something, in the order of the sheet. */
  ghost predicate ItemsOf(
    rd: Reader, lx: Lexicon, below: seq<Row>, blocks: seq<Block>, cols: map<Role, nat>, items: seq<Parsed>,
    at: seq<nat>)
  {
    && |at| == |items|
    && (forall n | 0 <= n < |at| ::
          at[n] < |below| && ItemTells(rd, lx, below[at[n]], blocks, cols, items[n]))
    && (forall m, n | 0 <= m < n < |at| :: at[m] < at[n])
    && (forall i: nat | i < |below| :: i in at <==> !ReadRow(rd, lx, below[i]).Nothing?)
  }

  lemma {:induction false} ItemsAreRows(rd: Reader, lx: Lexicon, rows: seq<Row>, h: nat, items: seq<Parsed>)
    returns (at: seq<nat>, cols: map<Role, nat>)
    requires 0 < h < |rows| && ItemsBelow(rd, lx, rows, h, items)
    ensures AreRoles(rd, rows[h], cols)
    ensures ItemsOf(rd, lx, rows[h + 1..], Blocks(rd, rows[h - 1], rows[h]), cols, items, at)
  {
    var below, blocks := rows[h + 1..], Blocks(rd, rows[h - 1], rows[h]);
    cols :| AreRoles(rd, rows[h], cols) && AreItems(rd, lx, Kept(rd, lx, below), blocks, cols, items);
    at := KeptAreRows(rd, lx, below);
    KeptItems(rd, lx, below, Kept(rd, lx, below), blocks, cols, items, at);
  }

  lemma {:induction false} KeptItems(
    rd: Reader, lx: Lexicon, below: seq<Row>, kept: seq<Entry>, blocks: seq<Block>, cols: map<Role, nat>,
    items: seq<Parsed>, at: seq<nat>)
    requires KeptFrom(rd, lx, below, kept, at) && AreItems(rd, lx, kept, blocks, cols, items)
    ensures ItemsOf(rd, lx, below, blocks, cols, items, at)
  {
    forall n: nat | n < |at|
      ensures at[n] < |below| && ItemTells(rd, lx, below[at[n]], blocks, cols, items[n])
    {
      assert IsItem(rd, lx, kept, n, blocks, cols, items[n]);
    }
  }

  // ------------------------------------------------------------------- nesting

  /** Every parent is -1 or an earlier header. */
  ghost predicate ParentsPointBack(items: seq<Parsed>) {
    forall n | 0 <= n < |items| ::
      items[n].parent == -1 || (0 <= items[n].parent < n && !items[items[n].parent].counted)
  }

  /** The number of items on the way from n to the top, n included. */
  ghost function Depth(items: seq<Parsed>, n: nat): nat
    requires ParentsPointBack(items) && n < |items|
    decreases n
  {
    if items[n].parent == -1 then 1 else 1 + Depth(items, items[n].parent)
  }

  lemma {:induction false} ParsedParents(
    rd: Reader, lx: Lexicon, kept: seq<Entry>, blocks: seq<Block>, cols: map<Role, nat>, items: seq<Parsed>)
    requires AreItems(rd, lx, kept, blocks, cols, items)
    ensures forall k: nat | k < |items| ::
      items[k].parent == ParentOf(kept, k) && items[k].counted == kept[k].line.Counted?
    ensures ParentsPointBack(items)
  {
  }

  /** A header the word list takes for a root. */
  predicate RootHeader(lx: Lexicon, item: Parsed) {
    !item.counted && lx.root(item.code, item.name)
  }

  /**
   A counted item is under the last header before it, a header under the last root header before it,
   or under none if there is none; a root header is under none.
   */
  ghost predicate UnderItsHeader(lx: Lexicon, items: seq<Parsed>, n: nat)
    requires n < |items|
  {
    var p := items[n].parent;
    && -1 <= p < n
    && if items[n].counted then
         (p >= 0 ==> !items[p].counted) && forall j | p < j < n :: items[j].counted
       else if RootHeader(lx, items[n]) then p == -1
       else (p >= 0 ==> RootHeader(lx, items[p])) && forall j | p < j < n :: !RootHeader(lx, items[j])
  }

  /** Every row kept has been read. */
  lemma {:induction false} KeptIsRead(rd: Reader, lx: Lexicon, rows: seq<Row>, n: nat)
    requires n < |Kept(rd, lx, rows)|
    ensures var e := Kept(rd, lx, rows)[n]; e.line == ReadRow(rd, lx, e.row)
  {
    var at := KeptAreRows(rd, lx, rows);
  }

  lemma {:induction false} ParentTells(
    rd: Reader, lx: Lexicon, rows: seq<Row>, blocks: seq<Block>, cols: map<Role, nat>, items: seq<Parsed>, n: nat)
    requires AreItems(rd, lx, Kept(rd, lx, rows), blocks, cols, items) && n < |items|
    ensures UnderItsHeader(lx, items, n)
  {
    var kept := Kept(rd, lx, rows);
    forall k: nat | k < |items|
      ensures items[k].counted == kept[k].line.Counted? && items[k].parent == ParentOf(kept, k)
      ensures Heads(kept[k].line, false) <==> !items[k].counted
      ensures Heads(kept[k].line, true) <==> RootHeader(lx, items[k])
    {
      assert IsItem(rd, lx, kept, k, blocks, cols, items[k]);
      KeptIsRead(rd, lx, rows, k);
    }
  }

  lemma {:induction false} RootIsTop(kept: seq<Entry>, items: seq<Parsed>, n: nat)
    requires ParentsPointBack(items) && n < |items| == |kept|
    requires items[n].parent == ParentOf(kept, n) && Heads(kept[n].line, true)
    ensures Depth(items, n) == 1
  {
  }

  lemma {:induction false} HeaderDepth(kept: seq<Entry>, items: seq<Parsed>, n: nat)
    requires ParentsPointBack(items) && n < |items| == |kept|
    requires forall k: nat | k < |items| :: items[k].parent == ParentOf(kept, k)
    requires Heads(kept[n].line, false)
    ensures Depth(items, n) <= 2
  {
  }

  /** Counted rows hang under headers, headers under root headers: never more than three deep. */
  lemma {:induction false} ParsedNesting(
    rd: Reader, lx: Lexicon, kept: seq<Entry>, blocks: seq<Block>, cols: map<Role, nat>, items: seq<Parsed>, n: nat)
    requires AreItems(rd, lx, kept, blocks, cols, items) && n < |items|
    ensures ParentsPointBack(items)
    ensures Depth(items, n) <= (if items[n].counted then 3 else if Heads(kept[n].line, true) then 1 else 2)
  {
    ParsedParents(rd, lx, kept, blocks, cols, items);
    var p := items[n].parent;
    if Heads(kept[n].line, true) {
      RootIsTop(kept, items, n);
    } else if !items[n].counted {
      HeaderDepth(kept, items, n);
    } else if p >= 0 {
      assert Heads(kept[p].line, false);
      HeaderDepth(kept, items, p);
    }
  }
}
