/** Semester blocks of a plan sheet and the hours read through them. */
module PlxBlocks {
  import opened Wrappers
  import opened Orders
  import opened Text

  datatype Kind = Total | Lectures | Practice | Lab | Independent | Exam

  datatype Role = ExamMark | CreditMark | GradedMark | OtherMark

  /**
   How cells are read. The regular expressions, number formats and word lists behind these are not
   part of the model: semester and weeks are the numbers found in a header cell, session says it
   names a session, kind and role what a column holds, hours the number in a cell, and lists whether
   a cell's digits include a semester.
   */
  datatype Reader = Reader(al: Alphabet,
                           semester: string -> Option<int>,
                           weeks: string -> Option<int>,
                           session: string -> bool,
                           kind: string -> Option<Kind>,
                           role: string -> Option<Role>,
                           hours: string -> int,
                           lists: (string, int) -> bool)

  type Row = seq<string>

  /** A row may be shorter than the header: what it lacks is empty. */
  function Cell(al: Alphabet, row: Row, col: nat): string {
    if col < |row| then Trim(al, row[col]) else ""
  }

  type Columns = map<Kind, seq<nat>>

  datatype Block = Block(semester: int, weeks: Option<int>, start: nat, end: nat, columns: Columns)

  function At(columns: Columns, k: Kind): seq<nat> {
    if k in columns then columns[k] else []
  }

  // ------------------------------------------------------------ where blocks start

  function SemesterIn(rd: Reader, raw: string): Option<int> {
    match rd.semester(raw)
    case Some(n) => if n <= 0 || n > 12 then None else Some(n)
    case None => None
  }

  /** A header cell opens a block by its semester number, or, in a header of sessions, by naming one. */
  predicate Opens(rd: Reader, header: Row, sessions: bool, i: int) {
    0 <= i < |header| && if sessions then rd.session(header[i]) else SemesterIn(rd, header[i]).Some?
  }

  /** The block opened at i as number k, not yet filled. */
  function Opened(rd: Reader, header: Row, sessions: bool, i: nat, k: nat): Block
    requires Opens(rd, header, sessions, i)
  {
    if sessions then Block(k + 1, None, i, 0, map[])
    else Block(SemesterIn(rd, header[i]).value, rd.weeks(header[i]), i, 0, map[])
  }

  function Starts(rd: Reader, header: Row, sessions: bool, n: nat): seq<Block>
    requires n <= |header|
  {
    if n == 0 then []
    else
      var before := Starts(rd, header, sessions, n - 1);
      if Opens(rd, header, sessions, n - 1) then before + [Opened(rd, header, sessions, n - 1, |before|)] else before
  }

  predicate BySession(rd: Reader, header: Row) {
    Starts(rd, header, false, |header|) == []
  }

  method ParseSemesterStarts(rd: Reader, header: Row) returns (starts: seq<Block>)
    ensures starts == Starts(rd, header, false, |header|)
  {
    starts := [];
    for i := 0 to |header|
      invariant starts == Starts(rd, header, false, i)
    {
      var found := rd.semester(header[i]);
      if found.None? || found.value <= 0 || found.value > 12 {
        continue;
      }
      starts := starts + [Block(found.value, rd.weeks(header[i]), i, 0, map[])];
    }
  }

  method ParseSessionBlocks(rd: Reader, header: Row) returns (starts: seq<Block>)
    ensures starts == Starts(rd, header, true, |header|)
  {
    starts := [];
    for i := 0 to |header|
      invariant starts == Starts(rd, header, true, i)
    {
      if !rd.session(header[i]) {
        continue;
      }
      starts := starts + [Block(|starts| + 1, None, i, 0, map[])];
    }
  }

  /** Blocks are opened left to right, each by an opening cell. */
  lemma {:induction false} StartsAreOpenings(rd: Reader, header: Row, sessions: bool, n: nat, i: nat)
    requires n <= |header| && i < |Starts(rd, header, sessions, n)|
    ensures var b := Starts(rd, header, sessions, n)[i];
      b.start < n && Opens(rd, header, sessions, b.start) && b == Opened(rd, header, sessions, b.start, i)
  {
    if i < |Starts(rd, header, sessions, n - 1)| {
      StartsAreOpenings(rd, header, sessions, n - 1, i);
    }
  }

  lemma {:induction false} StartsInOrder(rd: Reader, header: Row, sessions: bool, n: nat, i: nat, j: nat)
    requires n <= |header| && i < j < |Starts(rd, header, sessions, n)|
    ensures Starts(rd, header, sessions, n)[i].start < Starts(rd, header, sessions, n)[j].start
  {
    if j < |Starts(rd, header, sessions, n - 1)| {
      StartsInOrder(rd, header, sessions, n - 1, i, j);
    } else {
      StartsAreOpenings(rd, header, sessions, n - 1, i);
    }
  }

  /** Every opening cell opens a block. */
  lemma {:induction false} EveryOpeningStarts(rd: Reader, header: Row, sessions: bool, n: nat, c: nat)
    requires c < n <= |header| && Opens(rd, header, sessions, c)
    ensures exists i :: 0 <= i < |Starts(rd, header, sessions, n)| && Starts(rd, header, sessions, n)[i].start == c
  {
    var s, before := Starts(rd, header, sessions, n), Starts(rd, header, sessions, n - 1);
    if c == n - 1 {
      assert s[|before|].start == c;
    } else {
      EveryOpeningStarts(rd, header, sessions, n - 1, c);
      var i :| 0 <= i < |before| && before[i].start == c;
      assert s[i].start == c;
    }
  }

  // ------------------------------------------------------------------- columns

  /** The columns from lo up to hi, within the header, that hold hours of one kind. */
  function ColumnsOf(rd: Reader, header: Row, lo: nat, hi: int, k: Kind): seq<nat>
    decreases hi - lo
  {
    if hi <= lo then []
    else ColumnsOf(rd, header, lo, hi - 1, k) + (if HoldsKind(rd, header, hi - 1, k) then [hi - 1] else [])
  }

  predicate HoldsKind(rd: Reader, header: Row, col: int, k: Kind) {
    0 <= col < |header| && rd.kind(header[col]) == Some(k)
  }

  function Put(columns: Columns, kind: Option<Kind>, col: nat): Columns {
    if kind.None? then columns else columns[kind.value := At(columns, kind.value) + [col]]
  }

  /** The buckets of the columns from lo up to hi that the header has. */
  function Buckets(rd: Reader, header: Row, lo: nat, hi: int): Columns
    decreases hi - lo
  {
    if hi <= lo then map[]
    else if hi > |header| then Buckets(rd, header, lo, hi - 1)
    else Put(Buckets(rd, header, lo, hi - 1), rd.kind(header[hi - 1]), hi - 1)
  }

  /** Each bucket lists the columns of its kind. */
  lemma {:induction false} BucketsAt(rd: Reader, header: Row, lo: nat, hi: int, k: Kind)
    ensures At(Buckets(rd, header, lo, hi), k) == ColumnsOf(rd, header, lo, hi, k)
    decreases hi - lo
  {
    if lo < hi {
      BucketsAt(rd, header, lo, hi - 1, k);
    }
  }

  lemma {:induction false} NoBucketsBeyond(rd: Reader, header: Row, lo: nat, hi: nat, end: nat)
    requires |header| <= hi <= end || hi == end
    ensures Buckets(rd, header, lo, hi) == Buckets(rd, header, lo, end)
    decreases end
  {
    if hi < end && lo < end {
      NoBucketsBeyond(rd, header, lo, hi, end - 1);
    }
  }

  method FillColumns(rd: Reader, header: Row, lo: nat, end: nat) returns (columns: Columns)
    ensures columns == Buckets(rd, header, lo, end)
  {
    columns := map[];
    var col := lo;
    while col < end && col < |header|
      invariant lo <= col && (lo < col ==> col <= end)
      invariant columns == Buckets(rd, header, lo, col)
    {
      columns := Put(columns, rd.kind(header[col]), col);
      col := col + 1;
    }
    if col <= end {
      NoBucketsBeyond(rd, header, lo, col, end);
    }
  }

  /** A block ends where the next starts, the last one with the header. */
  function EndOf(header: Row, starts: seq<Block>, i: nat): nat {
    if i + 1 < |starts| then starts[i + 1].start else |header|
  }

  function Completed(rd: Reader, header: Row, starts: seq<Block>, i: nat): Block
    requires i < |starts|
  {
    var end := EndOf(header, starts, i);
    starts[i].(end := end, columns := Buckets(rd, header, starts[i].start, end))
  }

  function AllStarts(rd: Reader, semesters: Row): seq<Block> {
    Starts(rd, semesters, BySession(rd, semesters), |semesters|)
  }

  function Blocks(rd: Reader, semesters: Row, header: Row): seq<Block> {
    var starts := AllStarts(rd, semesters);
    seq(|starts|, i requires 0 <= i < |starts| => Completed(rd, header, starts, i))
  }

  method ParseSemesterBlocks(rd: Reader, semesters: Row, header: Row) returns (blocks: seq<Block>)
    ensures blocks == Blocks(rd, semesters, header)
  {
    blocks := ParseSemesterStarts(rd, semesters);
    if |blocks| == 0 {
      blocks := ParseSessionBlocks(rd, semesters);
    }
    ghost var starts := blocks;
    for i := 0 to |blocks|
      invariant |blocks| == |starts|
      invariant forall j | i <= j < |blocks| :: blocks[j] == starts[j]
      invariant forall j | 0 <= j < i :: blocks[j] == Completed(rd, header, starts, j)
    {
      var end := if i + 1 < |blocks| then blocks[i + 1].start else |header|;
      var columns := FillColumns(rd, header, blocks[i].start, end);
      blocks := blocks[i := blocks[i].(end := end, columns := columns)];
    }
  }

  /** Blocks follow one another and hold the columns of their range. */
  ghost predicate Chained(rd: Reader, header: Row, blocks: seq<Block>) {
    && (forall i, j | 0 <= i < j < |blocks| :: blocks[i].start < blocks[j].start)
    && (forall i: nat | i < |blocks| :: blocks[i].end == EndOf(header, blocks, i))
    && (forall i | 0 <= i < |blocks| :: blocks[i].columns == Buckets(rd, header, blocks[i].start, blocks[i].end))
  }

  lemma {:induction false} BlocksChained(rd: Reader, semesters: Row, header: Row)
    ensures Chained(rd, header, Blocks(rd, semesters, header))
  {
    var starts, blocks := AllStarts(rd, semesters), Blocks(rd, semesters, header);
    forall i, j | 0 <= i < j < |blocks|
      ensures blocks[i].start < blocks[j].start
    {
      StartsInOrder(rd, semesters, BySession(rd, semesters), |semesters|, i, j);
    }
  }

  // ------------------------------------------------- each column in one bucket

  lemma {:induction false} ColumnsAre(rd: Reader, header: Row, lo: nat, hi: int, k: Kind, col: nat)
    ensures col in ColumnsOf(rd, header, lo, hi, k) <==> lo <= col < hi && HoldsKind(rd, header, col, k)
    decreases hi - lo
  {
    if lo < hi {
      ColumnsAre(rd, header, lo, hi - 1, k, col);
    }
  }

  lemma {:induction false} ColumnsOnce(rd: Reader, header: Row, lo: nat, hi: int, k: Kind)
    ensures NoRepeats(ColumnsOf(rd, header, lo, hi, k))
    ensures forall i | 0 <= i < |ColumnsOf(rd, header, lo, hi, k)| :: ColumnsOf(rd, header, lo, hi, k)[i] < hi
    decreases hi - lo
  {
    if lo < hi {
      ColumnsOnce(rd, header, lo, hi - 1, k);
    }
  }

  ghost predicate InBucket(blocks: seq<Block>, i: nat, k: Kind, col: nat) {
    i < |blocks| && col in At(blocks[i].columns, k)
  }

  lemma {:induction false} InBucketIff(rd: Reader, header: Row, blocks: seq<Block>, i: nat, k: Kind, c: nat)
    requires Chained(rd, header, blocks) && i < |blocks|
    ensures InBucket(blocks, i, k, c) <==> blocks[i].start <= c < blocks[i].end && HoldsKind(rd, header, c, k)
    ensures NoRepeats(At(blocks[i].columns, k))
  {
    var b := blocks[i];
    BucketsAt(rd, header, b.start, b.end, k);
    ColumnsAre(rd, header, b.start, b.end, k, c);
    ColumnsOnce(rd, header, b.start, b.end, k);
  }

  /** The blocks' columns are ordered, disjoint ranges, and no column is listed twice in one bucket. */
  lemma {:induction false} BlocksAreDisjoint(
    rd: Reader, semesters: Row, header: Row, i: nat, j: nat, k: Kind, l: Kind, c: nat, d: nat)
    requires InBucket(Blocks(rd, semesters, header), i, k, c) && InBucket(Blocks(rd, semesters, header), j, l, d)
    ensures i < j ==> c < Blocks(rd, semesters, header)[j].start <= d
    ensures c == d ==> i == j && k == l
    ensures NoRepeats(At(Blocks(rd, semesters, header)[i].columns, k))
  {
    var blocks := Blocks(rd, semesters, header);
    BlocksChained(rd, semesters, header);
    InBucketIff(rd, header, blocks, i, k, c);
    InBucketIff(rd, header, blocks, j, l, d);
    assert i < j ==> blocks[i].end <= blocks[j].start by { EndsBefore(rd, header, blocks, i, j); }
    assert j < i ==> blocks[j].end <= blocks[i].start by { EndsBefore(rd, header, blocks, j, i); }
  }

  lemma {:induction false} EndsBefore(rd: Reader, header: Row, blocks: seq<Block>, i: nat, j: nat)
    requires Chained(rd, header, blocks) && i < |blocks| && j < |blocks|
    ensures i < j ==> blocks[i].end <= blocks[j].start
  {
  }

  ghost predicate Bucketed(blocks: seq<Block>, k: Kind, c: nat) {
    exists i: nat :: InBucket(blocks, i, k, c)
  }

  /** The columns in some bucket are those from the first block on that hold hours, each under its own kind. */
  lemma {:induction false} EveryColumnHasBucket(rd: Reader, semesters: Row, header: Row, k: Kind, c: nat)
    requires Blocks(rd, semesters, header) != []
    ensures Bucketed(Blocks(rd, semesters, header), k, c)
       <==> Blocks(rd, semesters, header)[0].start <= c && HoldsKind(rd, header, c, k)
  {
    var blocks := Blocks(rd, semesters, header);
    BlocksChained(rd, semesters, header);
    if Bucketed(blocks, k, c) {
      var i: nat :| InBucket(blocks, i, k, c);
      InBucketIff(rd, header, blocks, i, k, c);
      assert i > 0 ==> blocks[0].start < blocks[i].start;
    }
    if blocks[0].start <= c && HoldsKind(rd, header, c, k) {
      var i := LastStart(blocks, c);
      assert blocks[i].end == EndOf(header, blocks, i);
      InBucketIff(rd, header, blocks, i, k, c);
      assert Bucketed(blocks, k, c);
    }
  }

  /** The last block that starts at or before a column. */
  ghost function LastStart(blocks: seq<Block>, c: nat): (i: nat)
    requires blocks != [] && blocks[0].start <= c
    ensures i < |blocks| && blocks[i].start <= c && (i + 1 < |blocks| ==> c < blocks[i + 1].start)
    decreases |blocks|
  {
    if |blocks| == 1 || blocks[|blocks| - 1].start <= c then |blocks| - 1
    else LastStart(blocks[..|blocks| - 1], c)
  }

  // ---------------------------------------------------------------- allocations

  datatype Allocation = Allocation(semester: int, weeks: Option<int>,
                                   total: Option<int>, lectures: Option<int>, practice: Option<int>,
                                   lab: Option<int>, independent: Option<int>, exam: Option<int>,
                                   assessment: Option<string>)

  function Hours(a: Allocation, k: Kind): int {
    match k
    case Total => a.total.Or(0)
    case Lectures => a.lectures.Or(0)
    case Practice => a.practice.Or(0)
    case Lab => a.lab.Or(0)
    case Independent => a.independent.Or(0)
    case Exam => a.exam.Or(0)
  }

  function IfPositive(v: int): Option<int> {
    if v <= 0 then None else Some(v)
  }

  function Sum(rd: Reader, row: Row, cols: seq<nat>): int {
    if cols == [] then 0 else Sum(rd, row, cols[..|cols| - 1]) + rd.hours(Cell(rd.al, row, cols[|cols| - 1]))
  }

  method SumColumns(rd: Reader, row: Row, cols: seq<nat>) returns (sum: int)
    ensures sum == Sum(rd, row, cols)
  {
    sum := 0;
    for i := 0 to |cols|
      invariant sum == Sum(rd, row, cols[..i])
    {
      assert cols[..i + 1][..i] == cols[..i];
      sum := sum + rd.hours(Cell(rd.al, row, cols[i]));
    }
    assert cols[..|cols|] == cols;
  }

  /** The column of each assessment role is the last one that names it. */
  ghost predicate AreRoles(rd: Reader, header: Row, cols: map<Role, nat>) {
    && (forall r :: r in cols <==> exists i :: 0 <= i < |header| && rd.role(header[i]) == Some(r))
    && (forall r | r in cols :: cols[r] < |header| && rd.role(header[cols[r]]) == Some(r))
    && (forall r, i | r in cols && cols[r] < i < |header| :: rd.role(header[i]) != Some(r))
  }

  method ParseAssessmentColumns(rd: Reader, header: Row) returns (cols: map<Role, nat>)
    ensures AreRoles(rd, header, cols)
  {
    cols := map[];
    for i := 0 to |header|
      invariant forall r :: (r in cols <==> exists j :: 0 <= j < i && rd.role(header[j]) == Some(r))
      invariant forall r | r in cols :: cols[r] < i && rd.role(header[cols[r]]) == Some(r)
      invariant forall r, j | r in cols && cols[r] < j < i :: rd.role(header[j]) != Some(r)
    {
      var role := rd.role(header[i]);
      if role.Some? {
        cols := cols[role.value := i];
      }
    }
  }

  predicate Marked(rd: Reader, row: Row, semester: int, cols: map<Role, nat>, r: Role) {
    r in cols && rd.lists(Cell(rd.al, row, cols[r]), semester)
  }

  function Assessment(rd: Reader, row: Row, semester: int, cols: map<Role, nat>): Option<string> {
    if Marked(rd, row, semester, cols, ExamMark) then Some("EXAM")
    else if Marked(rd, row, semester, cols, CreditMark) then Some("CREDIT")
    else if Marked(rd, row, semester, cols, GradedMark) then Some("GRADED_CREDIT")
    else if Marked(rd, row, semester, cols, OtherMark) then Some("MODULE_EXAM")
    else None
  }

  function SumOf(rd: Reader, row: Row, b: Block, k: Kind): int {
    Sum(rd, row, At(b.columns, k))
  }

  /** No hours of any kind and no assessment. */
  predicate Idle(rd: Reader, row: Row, b: Block, cols: map<Role, nat>) {
    && SumOf(rd, row, b, Total) == 0 && SumOf(rd, row, b, Lectures) == 0 && SumOf(rd, row, b, Practice) == 0
    && SumOf(rd, row, b, Lab) == 0 && SumOf(rd, row, b, Independent) == 0 && SumOf(rd, row, b, Exam) == 0
    && Assessment(rd, row, b.semester, cols).None?
  }

  function Allotted(rd: Reader, row: Row, b: Block, cols: map<Role, nat>): Allocation {
    Allocation(b.semester, b.weeks,
               IfPositive(SumOf(rd, row, b, Total)), IfPositive(SumOf(rd, row, b, Lectures)),
               IfPositive(SumOf(rd, row, b, Practice)), IfPositive(SumOf(rd, row, b, Lab)),
               IfPositive(SumOf(rd, row, b, Independent)), IfPositive(SumOf(rd, row, b, Exam)),
               Assessment(rd, row, b.semester, cols))
  }

  function Allotment(rd: Reader, row: Row, b: Block, cols: map<Role, nat>): Option<Allocation> {
    if Idle(rd, row, b, cols) then None else Some(Allotted(rd, row, b, cols))
  }

  function Allocations(rd: Reader, row: Row, blocks: seq<Block>, cols: map<Role, nat>): seq<Allocation> {
    if blocks == [] then []
    else
      var before := Allocations(rd, row, blocks[..|blocks| - 1], cols);
      match Allotment(rd, row, blocks[|blocks| - 1], cols)
      case Some(a) => before + [a]
      case None => before
  }

  method ParseAllocations(
    rd: Reader, row: Row, blocks: seq<Block>, cols: map<Role, nat>) returns (allocs: seq<Allocation>)
    ensures allocs == Allocations(rd, row, blocks, cols)
  {
    allocs := [];
    for i := 0 to |blocks|
      invariant allocs == Allocations(rd, row, blocks[..i], cols)
    {
      assert blocks[..i + 1][..i] == blocks[..i];
      var alloc := ParseAllocation(rd, row, blocks[i], cols);
      if alloc.Some? {
        allocs := allocs + [alloc.value];
      }
    }
    assert blocks[..|blocks|] == blocks;
  }

  /** One turn of the loop: what a block allots, or nothing when it is idle. */
  method ParseAllocation(rd: Reader, row: Row, block: Block, cols: map<Role, nat>) returns (alloc: Option<Allocation>)
    ensures alloc == Allotment(rd, row, block, cols)
  {
    var total := SumColumns(rd, row, At(block.columns, Total));
    var lectures := SumColumns(rd, row, At(block.columns, Lectures));
    var practice := SumColumns(rd, row, At(block.columns, Practice));
    var lab := SumColumns(rd, row, At(block.columns, Lab));
    var independent := SumColumns(rd, row, At(block.columns, Independent));
    var exam := SumColumns(rd, row, At(block.columns, Exam));
    var assessment := Assessment(rd, row, block.semester, cols);
    if total == 0 && lectures == 0 && practice == 0 && lab == 0 && independent == 0 && exam == 0 && assessment.None? {
      return None;
    }
    return Some(Allocation(block.semester, block.weeks, IfPositive(total), IfPositive(lectures), IfPositive(practice),
                           IfPositive(lab), IfPositive(independent), IfPositive(exam), assessment));
  }

  /**
   The first of exam, credit, graded credit and other whose column, under the given header, lists the
   semester decides what is reported; where a header names a role twice its last column counts.
   */
  lemma {:induction false} AssessmentIs(rd: Reader, row: Row, semester: int, cols: map<Role, nat>)
    ensures var exam, credit := ListedUnder(rd, row, semester, cols, ExamMark),
                                ListedUnder(rd, row, semester, cols, CreditMark);
      var graded, other := ListedUnder(rd, row, semester, cols, GradedMark),
                           ListedUnder(rd, row, semester, cols, OtherMark);
      var a := Assessment(rd, row, semester, cols);
      && (a == Some("EXAM") <==> exam)
      && (a == Some("CREDIT") <==> credit && !exam)
      && (a == Some("GRADED_CREDIT") <==> graded && !exam && !credit)
      && (a == Some("MODULE_EXAM") <==> other && !exam && !credit && !graded)
      && (a == None <==> !exam && !credit && !graded && !other)
  {
  }

  /** The cell in the role's column, trimmed, or empty beyond the row, lists the semester. */
  predicate ListedUnder(rd: Reader, row: Row, semester: int, cols: map<Role, nat>, r: Role) {
    r in cols && rd.lists(if cols[r] < |row| then Trim(rd.al, row[cols[r]]) else "", semester)
  }

  /** The block's hours of a kind are given only where they are positive. */
  predicate GivesHours(rd: Reader, row: Row, b: Block, k: Kind, given: Option<int>) {
    var v := SumOf(rd, row, b, k);
    (v > 0 ==> given == Some(v)) && (v <= 0 ==> given == None)
  }

  /** An allocation is its block's, with the block's semester, weeks and hours, and the assessment of that semester. */
  predicate AllocationOf(rd: Reader, row: Row, b: Block, cols: map<Role, nat>, a: Allocation) {
    && a.semester == b.semester && a.weeks == b.weeks && a.assessment == Assessment(rd, row, b.semester, cols)
    && GivesHours(rd, row, b, Total, a.total) && GivesHours(rd, row, b, Lectures, a.lectures)
    && GivesHours(rd, row, b, Practice, a.practice) && GivesHours(rd, row, b, Lab, a.lab)
    && GivesHours(rd, row, b, Independent, a.independent) && GivesHours(rd, row, b, Exam, a.exam)
  }

  /** Some hours of the block are not zero, or its semester has an assessment. */
  predicate InUse(rd: Reader, row: Row, b: Block, cols: map<Role, nat>) {
    || SumOf(rd, row, b, Total) != 0 || SumOf(rd, row, b, Lectures) != 0 || SumOf(rd, row, b, Practice) != 0
    || SumOf(rd, row, b, Lab) != 0 || SumOf(rd, row, b, Independent) != 0 || SumOf(rd, row, b, Exam) != 0
    || Assessment(rd, row, b.semester, cols).Some?
  }

  /** The allocations are those of the blocks in use, in the order of the blocks. */
  ghost predicate OfBlocks(
    rd: Reader, row: Row, blocks: seq<Block>, cols: map<Role, nat>, allocs: seq<Allocation>, at: seq<nat>)
  {
    && |at| == |allocs|
    && (forall n | 0 <= n < |at| :: at[n] < |blocks| && AllocationOf(rd, row, blocks[at[n]], cols, allocs[n]))
    && (forall m, n | 0 <= m < n < |at| :: at[m] < at[n])
    && (forall i: nat | i < |blocks| :: i in at <==> InUse(rd, row, blocks[i], cols))
  }

  lemma {:induction false} AllotmentTells(rd: Reader, row: Row, b: Block, cols: map<Role, nat>)
    ensures Allotment(rd, row, b, cols).Some? <==> InUse(rd, row, b, cols)
    ensures Allotment(rd, row, b, cols).Some? ==> AllocationOf(rd, row, b, cols, Allotment(rd, row, b, cols).value)
  {
  }

  lemma {:induction false} OneMoreIdle(
    rd: Reader, row: Row, blocks: seq<Block>, b: Block, cols: map<Role, nat>, allocs: seq<Allocation>, at: seq<nat>)
    requires OfBlocks(rd, row, blocks, cols, allocs, at) && !InUse(rd, row, b, cols)
    ensures OfBlocks(rd, row, blocks + [b], cols, allocs, at)
  {
    assert forall i: nat | i < |blocks| :: (blocks + [b])[i] == blocks[i];
    assert |blocks| !in at;
  }

  lemma {:induction false} OneMoreInUse(
    rd: Reader, row: Row, blocks: seq<Block>, b: Block, cols: map<Role, nat>, allocs: seq<Allocation>, at: seq<nat>,
    a: Allocation)
    requires OfBlocks(rd, row, blocks, cols, allocs, at)
    requires InUse(rd, row, b, cols) && AllocationOf(rd, row, b, cols, a)
    ensures OfBlocks(rd, row, blocks + [b], cols, allocs + [a], at + [|blocks|])
  {
    assert forall i: nat | i < |blocks| :: (blocks + [b])[i] == blocks[i];
  }

  lemma {:induction false} AllocationsAreOfBlocks(rd: Reader, row: Row, blocks: seq<Block>, cols: map<Role, nat>)
    returns (at: seq<nat>)
    ensures OfBlocks(rd, row, blocks, cols, Allocations(rd, row, blocks, cols), at)
  {
    if blocks == [] {
      at := [];
    } else {
      var init, last := blocks[..|blocks| - 1], blocks[|blocks| - 1];
      var allocs := Allocations(rd, row, init, cols);
      at := AllocationsAreOfBlocks(rd, row, init, cols);
      AllotmentTells(rd, row, last, cols);
      assert blocks == init + [last];
      if InUse(rd, row, last, cols) {
        OneMoreInUse(rd, row, init, last, cols, allocs, at, Allotment(rd, row, last, cols).value);
        at := at + [|init|];
      } else {
        OneMoreIdle(rd, row, init, last, cols, allocs, at);
      }
    }
  }

  /**
   A block stands where a header cell names a semester from 1 to 12, and has that semester and the
   weeks the cell names; only if no cell does, the cells that name a session open blocks, numbered from 1.
   */
  lemma {:induction false} BlockTells(rd: Reader, semesters: Row, header: Row, i: nat)
    requires i < |Blocks(rd, semesters, header)|
    ensures var b := Blocks(rd, semesters, header)[i];
      var named := exists c :: 0 <= c < |semesters| && NamesSemester(rd, semesters[c]);
      && b.start < |semesters|
      && (named ==> NamesSemester(rd, semesters[b.start]) && rd.semester(semesters[b.start]) == Some(b.semester)
                    && b.weeks == rd.weeks(semesters[b.start]))
      && (!named ==> rd.session(semesters[b.start]) && b.semester == i + 1 && b.weeks == None)
  {
    var sessions := BySession(rd, semesters);
    StartsAreOpenings(rd, semesters, sessions, |semesters|, i);
    if sessions {
      forall c: nat | c < |semesters|
        ensures !NamesSemester(rd, semesters[c])
      {
        if NamesSemester(rd, semesters[c]) {
          EveryOpeningStarts(rd, semesters, false, |semesters|, c);
          assert false;
        }
      }
    } else {
      StartsAreOpenings(rd, semesters, false, |semesters|, 0);
      assert NamesSemester(rd, semesters[Starts(rd, semesters, false, |semesters|)[0].start]);
    }
  }

  predicate NamesSemester(rd: Reader, cell: string) {
    rd.semester(cell).Some? && 1 <= rd.semester(cell).value <= 12
  }

  // --------------------------------------------------------------- conservation

  function Allocated(allocs: seq<Allocation>, k: Kind): int {
    if allocs == [] then 0 else Allocated(allocs[..|allocs| - 1], k) + Hours(allocs[|allocs| - 1], k)
  }

  /** The row's hours of one kind in the columns from lo up to hi. */
  function RowHours(rd: Reader, header: Row, row: Row, k: Kind, lo: nat, hi: int): int
    decreases hi - lo
  {
    if hi <= lo then 0
    else
      RowHours(rd, header, row, k, lo, hi - 1) +
      if HoldsKind(rd, header, hi - 1, k) then rd.hours(Cell(rd.al, row, hi - 1)) else 0
  }

  lemma {:induction false} SumAppend(rd: Reader, row: Row, cols: seq<nat>, col: nat)
    ensures Sum(rd, row, cols + [col]) == Sum(rd, row, cols) + rd.hours(Cell(rd.al, row, col))
  {
  }

  lemma {:induction false} SumMore(rd: Reader, row: Row, cols: seq<nat>, more: bool, col: nat)
    ensures Sum(rd, row, cols + (if more then [col] else [])) ==
      Sum(rd, row, cols) + if more then rd.hours(Cell(rd.al, row, col)) else 0
  {
    if more {
      SumAppend(rd, row, cols, col);
    } else {
      assert cols + [] == cols;
    }
  }

  lemma {:induction false} SumIsRowHours(rd: Reader, header: Row, row: Row, k: Kind, lo: nat, hi: int)
    ensures Sum(rd, row, ColumnsOf(rd, header, lo, hi, k)) == RowHours(rd, header, row, k, lo, hi)
    decreases hi - lo
  {
    if lo < hi {
      SumIsRowHours(rd, header, row, k, lo, hi - 1);
      SumMore(rd, row, ColumnsOf(rd, header, lo, hi - 1, k), HoldsKind(rd, header, hi - 1, k), hi - 1);
    }
  }

  lemma {:induction false} RowHoursSplit(rd: Reader, header: Row, row: Row, k: Kind, lo: nat, mid: nat, hi: nat)
    requires lo <= mid <= hi
    ensures RowHours(rd, header, row, k, lo, hi) ==
      RowHours(rd, header, row, k, lo, mid) + RowHours(rd, header, row, k, mid, hi)
    decreases hi
  {
    if mid < hi {
      RowHoursSplit(rd, header, row, k, lo, mid, hi - 1);
    }
  }

  /** Past the header there are no hours. */
  lemma {:induction false} NoHoursBeyond(rd: Reader, header: Row, row: Row, k: Kind, lo: nat, hi: nat)
    requires |header| <= hi
    ensures RowHours(rd, header, row, k, lo, hi) == RowHours(rd, header, row, k, lo, |header|)
    decreases hi
  {
    if |header| < hi && lo < hi {
      NoHoursBeyond(rd, header, row, k, lo, hi - 1);
    }
  }

  /** The hours read through the blocks, before non-positive sums are dropped. */
  function BlockHours(rd: Reader, row: Row, blocks: seq<Block>, k: Kind): int {
    if blocks == [] then 0
    else BlockHours(rd, row, blocks[..|blocks| - 1], k) + SumOf(rd, row, blocks[|blocks| - 1], k)
  }

  lemma {:induction false} BlockCoversRange(rd: Reader, header: Row, row: Row, b: Block, k: Kind)
    requires b.columns == Buckets(rd, header, b.start, b.end)
    ensures SumOf(rd, row, b, k) == RowHours(rd, header, row, k, b.start, b.end)
  {
    BucketsAt(rd, header, b.start, b.end, k);
    SumIsRowHours(rd, header, row, k, b.start, b.end);
  }

  lemma {:induction false} BlocksCoverRow(rd: Reader, header: Row, row: Row, blocks: seq<Block>, k: Kind, n: nat)
    requires Chained(rd, header, blocks) && 0 < n <= |blocks|
    ensures BlockHours(rd, row, blocks[..n], k) == RowHours(rd, header, row, k, blocks[0].start, blocks[n - 1].end)
    decreases n
  {
    var last := blocks[n - 1];
    BlockCoversRange(rd, header, row, last, k);
    BlockHoursMore(rd, row, blocks, k, n);
    if n > 1 {
      BlocksCoverRow(rd, header, row, blocks, k, n - 1);
      assert blocks[n - 2].end == last.start && blocks[0].start < last.start;
      RangeMore(rd, header, row, k, blocks[0].start, last.start, last.end);
    }
  }

  lemma {:induction false} BlockHoursMore(rd: Reader, row: Row, blocks: seq<Block>, k: Kind, n: nat)
    requires 0 < n <= |blocks|
    ensures BlockHours(rd, row, blocks[..n], k) ==
      (if n == 1 then 0 else BlockHours(rd, row, blocks[..n - 1], k)) + SumOf(rd, row, blocks[n - 1], k)
  {
    BlockHoursStep(rd, row, blocks[..n - 1], blocks[n - 1], k);
    assert blocks[..n] == blocks[..n - 1] + [blocks[n - 1]];
  }

  lemma {:induction false} RangeMore(rd: Reader, header: Row, row: Row, k: Kind, lo: nat, mid: nat, hi: nat)
    requires lo <= mid && (mid <= hi || hi == |header|)
    ensures RowHours(rd, header, row, k, lo, hi) ==
      RowHours(rd, header, row, k, lo, mid) + RowHours(rd, header, row, k, mid, hi)
  {
    if mid <= hi {
      RowHoursSplit(rd, header, row, k, lo, mid, hi);
    } else {
      NoHoursBeyond(rd, header, row, k, lo, mid);
    }
  }

  predicate NoNegativeSum(rd: Reader, row: Row, blocks: seq<Block>, k: Kind) {
    forall i | 0 <= i < |blocks| :: SumOf(rd, row, blocks[i], k) >= 0
  }

  function OptionHours(o: Option<Allocation>, k: Kind): int {
    match o case Some(a) => Hours(a, k) case None => 0
  }

  lemma {:induction false} AllotmentHours(rd: Reader, row: Row, b: Block, cols: map<Role, nat>, k: Kind)
    ensures var v := SumOf(rd, row, b, k);
      OptionHours(Allotment(rd, row, b, cols), k) == if v > 0 then v else 0
  {
  }

  lemma {:induction false} AllocatedStep(
    rd: Reader, row: Row, before: seq<Block>, b: Block, cols: map<Role, nat>, k: Kind)
    ensures Allocated(Allocations(rd, row, before + [b], cols), k)
         == Allocated(Allocations(rd, row, before, cols), k) + OptionHours(Allotment(rd, row, b, cols), k)
  {
  }

  lemma {:induction false} BlockHoursStep(rd: Reader, row: Row, before: seq<Block>, b: Block, k: Kind)
    ensures BlockHours(rd, row, before + [b], k) == BlockHours(rd, row, before, k) + SumOf(rd, row, b, k)
    ensures NoNegativeSum(rd, row, before + [b], k) <==> NoNegativeSum(rd, row, before, k) && SumOf(rd, row, b, k) >= 0
  {
  }

  /** Allocations keep every positive sum and drop the rest, so they never fall short. */
  lemma {:induction false} AllocatedAtLeast(rd: Reader, row: Row, blocks: seq<Block>, cols: map<Role, nat>, k: Kind)
    ensures Allocated(Allocations(rd, row, blocks, cols), k) >= BlockHours(rd, row, blocks, k)
    ensures Allocated(Allocations(rd, row, blocks, cols), k) == BlockHours(rd, row, blocks, k) <==>
      NoNegativeSum(rd, row, blocks, k)
    decreases |blocks|
  {
    if blocks != [] {
      var before, b := blocks[..|blocks| - 1], blocks[|blocks| - 1];
      assert blocks == before + [b];
      AllocatedAtLeast(rd, row, before, cols, k);
      AllocatedStep(rd, row, before, b, cols, k);
      AllotmentHours(rd, row, b, cols, k);
      BlockHoursStep(rd, row, before, b, k);
    }
  }

  /**
   Hours are conserved: the allocations of a row hold exactly the hours of its columns from the first
   block on, if and only if no block's sum is negative.
   */
  lemma {:induction false} HoursConservedIff(
    rd: Reader, semesters: Row, header: Row, row: Row, cols: map<Role, nat>, k: Kind)
    requires Blocks(rd, semesters, header) != []
    ensures var blocks := Blocks(rd, semesters, header);
      Allocated(Allocations(rd, row, blocks, cols), k) == RowHours(rd, header, row, k, blocks[0].start, |header|)
      <==> NoNegativeSum(rd, row, blocks, k)
  {
    var blocks := Blocks(rd, semesters, header);
    BlocksChained(rd, semesters, header);
    BlocksCoverRow(rd, header, row, blocks, k, |blocks|);
    assert blocks[..|blocks|] == blocks;
    AllocatedAtLeast(rd, row, blocks, cols, k);
  }

  // Such a row: under one semester with one column of total hours, a cell with the text "-2".

  const ONE_SEMESTER: Row := ["семестр 1"]

  const ONE_TOTAL: Row := ["итого"]

  /** These texts are read as in the original, which adds a half to a number and cuts its fraction off. */
  ghost predicate ReadsSample(rd: Reader) {
    && rd.semester("семестр 1") == Some(1) && rd.kind("итого") == Some(Total) && rd.hours("-2") == -1
    && Trim(rd.al, "-2") == "-2"
  }

  lemma {:induction false} SampleBlock(rd: Reader)
    requires ReadsSample(rd)
    ensures var blocks := Blocks(rd, ONE_SEMESTER, ONE_TOTAL);
      |blocks| == 1 && At(blocks[0].columns, Total) == [0]
  {
    assert Starts(rd, ONE_SEMESTER, false, 0) == [];
    assert Starts(rd, ONE_SEMESTER, false, 1) == [Opened(rd, ONE_SEMESTER, false, 0, 0)];
    assert Buckets(rd, ONE_TOTAL, 0, 0) == map[];
    assert Buckets(rd, ONE_TOTAL, 0, 1) == Put(map[], Some(Total), 0);
    assert At(map[], Total) + [0] == [0];
  }

  lemma {:induction false} SampleSum(rd: Reader)
    requires ReadsSample(rd)
    ensures Sum(rd, ["-2"], [0]) == -1
  {
    assert Cell(rd.al, ["-2"], 0) == "-2";
    SumAppend(rd, ["-2"], [], 0);
    assert [] + [0] == [0];
  }

  /** Its hours are not conserved: the block's sum is dropped. */
  lemma {:induction false} NegativeCellIsDropped(rd: Reader, cols: map<Role, nat>)
    requires ReadsSample(rd)
    ensures var blocks := Blocks(rd, ONE_SEMESTER, ONE_TOTAL);
      && blocks != []
      && Allocated(Allocations(rd, ["-2"], blocks, cols), Total)
           != RowHours(rd, ONE_TOTAL, ["-2"], Total, blocks[0].start, |ONE_TOTAL|)
  {
    SampleBlock(rd);
    SampleSum(rd);
    HoursConservedIff(rd, ONE_SEMESTER, ONE_TOTAL, ["-2"], cols, Total);
  }

  /** No cell of the row reads as a negative number. */
  predicate NoNegativeCell(rd: Reader, header: Row, row: Row) {
    forall c: nat | c < |header| :: rd.hours(Cell(rd.al, row, c)) >= 0
  }

  lemma {:induction false} SumNonNegative(rd: Reader, header: Row, row: Row, cols: seq<nat>)
    requires NoNegativeCell(rd, header, row) && forall i | 0 <= i < |cols| :: cols[i] < |header|
    ensures Sum(rd, row, cols) >= 0
  {
    if cols != [] {
      SumNonNegative(rd, header, row, cols[..|cols| - 1]);
    }
  }

  /** A row without negative cells loses no hours and counts none twice. */
  lemma {:induction false} HoursConserved(
    rd: Reader, semesters: Row, header: Row, row: Row, cols: map<Role, nat>, k: Kind)
    requires Blocks(rd, semesters, header) != [] && NoNegativeCell(rd, header, row)
    ensures var blocks := Blocks(rd, semesters, header);
      Allocated(Allocations(rd, row, blocks, cols), k) == RowHours(rd, header, row, k, blocks[0].start, |header|)
  {
    var blocks := Blocks(rd, semesters, header);
    BlocksChained(rd, semesters, header);
    forall i: nat | i < |blocks|
      ensures SumOf(rd, row, blocks[i], k) >= 0
    {
      var listed := At(blocks[i].columns, k);
      forall n | 0 <= n < |listed|
        ensures listed[n] < |header|
      {
        InBucketIff(rd, header, blocks, i, k, listed[n]);
      }
      SumNonNegative(rd, header, row, listed);
    }
    HoursConservedIff(rd, semesters, header, row, cols, k);
  }
}
