/** A teacher's workload: pairs by subject, with lessons sharing a slot counted once, and by group. */
module Workload {
  import opened Wrappers
  import opened Orders
  import opened Text

  // ------------------------------------------------------------------ tallies

  datatype Entry<K> = Entry(key: K, name: string)

  datatype Counter = Counter(pairs: nat, name: string)

  /** A reported count; a pair is two academic hours. */
  datatype Row<K> = Row(key: K, name: string, pairs: nat, hours: nat)

  type Counters<K> = map<K, Counter>

  function Bump<K>(c: Counters<K>, e: Entry<K>): Counters<K> {
    c[e.key := if e.key in c then Counter(c[e.key].pairs + 1, c[e.key].name) else Counter(1, e.name)]
  }

  function Tally<K>(es: seq<Entry<K>>): Counters<K> {
    if es == [] then map[] else Bump(Tally(es[..|es| - 1]), es[|es| - 1])
  }

  function Count<K(==)>(es: seq<Entry<K>>, k: K): nat {
    if es == [] then 0 else Count(es[..|es| - 1], k) + if es[|es| - 1].key == k then 1 else 0
  }

  /** Each key is counted as often as it occurs, under the name it first occurs with. */
  lemma {:induction false} TallyCounts<K>(es: seq<Entry<K>>, k: K)
    ensures k in Tally(es) <==> Count(es, k) > 0
    ensures k in Tally(es) ==> Tally(es)[k].pairs == Count(es, k)
    ensures k in Tally(es) ==>
      exists i :: 0 <= i < |es| && es[i] == Entry(k, Tally(es)[k].name) && Count(es[..i], k) == 0
  {
    if es != [] {
      var before, last := es[..|es| - 1], es[|es| - 1];
      TallyCounts(before, k);
      if k in Tally(before) {
        var i :| 0 <= i < |before| && before[i] == Entry(k, Tally(before)[k].name) && Count(before[..i], k) == 0;
        assert es[i] == before[i] && es[..i] == before[..i];
      } else if k == last.key {
        assert es[..|before|] == before;
      }
    }
  }

  function RowFor<K>(c: Counters<K>, k: K): Row<K>
    requires k in c
  {
    Row(k, c[k].name, c[k].pairs, c[k].pairs * 2)
  }

  predicate NameLess<K>(a: Row<K>, b: Row<K>) {
    TextLess(a.name, b.name)
  }

  ghost predicate KeysDiffer<K>(rows: seq<Row<K>>) {
    forall i, j | 0 <= i < j < |rows| :: rows[i].key != rows[j].key
  }

  /** One row for each counter. */
  ghost predicate Reports<K>(c: Counters<K>, rows: seq<Row<K>>) {
    && KeysDiffer(rows)
    && (forall r | r in rows :: r.key in c && r == RowFor(c, r.key))
    && (forall k | k in c :: RowFor(c, k) in rows)
  }

  lemma {:induction false} NamesWeak<K>(rows: seq<Row<K>>)
    ensures WeakOn(rows, NameLess)
  {
    forall x, y, z | x in rows && y in rows && z in rows && NameLess(x, z)
      ensures NameLess(x, y) || NameLess(y, z)
    {
      TextLessWeak(x.name, y.name, z.name);
    }
    forall x, y | x in rows && y in rows && NameLess(x, y)
      ensures !NameLess(y, x)
    {
      TextLessLinear(x.name, y.name);
    }
  }

  lemma {:induction false} TextLessWeak(a: string, b: string, c: string)
    requires TextLess(a, c)
    ensures TextLess(a, b) || TextLess(b, c)
  {
    TextLessLinear(a, b);
    TextLessLinear(b, c);
    if TextLess(c, b) && !TextLess(a, b) {
      assert a == b || TextLess(b, a);
      if TextLess(b, a) {
        TextLessTransitive(b, a, c);
      }
    }
  }

  /** The counters as rows, in whatever order the map yields them. */
  method Collect<K(==)>(c: Counters<K>) returns (rows: seq<Row<K>>)
    ensures Reports(c, rows)
  {
    rows := [];
    var todo := c.Keys;
    while todo != {}
      invariant todo <= c.Keys
      invariant forall i, j | 0 <= i < j < |rows| :: rows[i].key != rows[j].key
      invariant forall r | r in rows :: r.key in c.Keys - todo && r == RowFor(c, r.key)
      invariant forall k | k in c.Keys - todo :: RowFor(c, k) in rows
      decreases |todo|
    {
      var k :| k in todo;
      ghost var was := rows;
      todo := todo - {k};
      rows := rows + [RowFor(c, k)];
      assert rows[|was|] == RowFor(c, k) && forall r | r in was :: r in rows;
    }
  }

  method ReportByName<K(==)>(c: Counters<K>) returns (rows: seq<Row<K>>)
    ensures Reports(c, rows) && NonDecreasing(rows, NameLess)
  {
    var found := Collect(c);
    NamesWeak(found);
    rows := Sort(found, NameLess);
    ReportsPermuted(c, found, rows);
  }

  lemma {:induction false} ReportsPermuted<K>(c: Counters<K>, rows: seq<Row<K>>, sorted: seq<Row<K>>)
    requires Reports(c, rows) && multiset(sorted) == multiset(rows)
    ensures Reports(c, sorted)
  {
    forall r
      ensures r in sorted <==> r in rows
    {
      assert r in sorted <==> r in multiset(sorted);
      assert r in rows <==> r in multiset(rows);
    }
    PermutationKeepsNoRepeats(rows, sorted);
    forall i, j | 0 <= i < j < |sorted|
      ensures sorted[i].key != sorted[j].key
    {
      assert sorted[i] in rows && sorted[j] in rows && sorted[i] != sorted[j];
    }
  }

  // ------------------------------------------------------------- conservation

  function SumPairs<K>(rows: seq<Row<K>>): nat {
    if rows == [] then 0 else SumPairs(rows[..|rows| - 1]) + rows[|rows| - 1].pairs
  }

  /** How often the rows' keys occur, all told. */
  ghost function SumCounts<K>(rows: seq<Row<K>>, es: seq<Entry<K>>): nat {
    if rows == [] then 0 else SumCounts(rows[..|rows| - 1], es) + Count(es, rows[|rows| - 1].key)
  }

  ghost predicate HasKey<K>(rows: seq<Row<K>>, k: K) {
    exists i :: 0 <= i < |rows| && rows[i].key == k
  }

  lemma {:induction false} SumCountsMore<K>(rows: seq<Row<K>>, es: seq<Entry<K>>, e: Entry<K>)
    requires KeysDiffer(rows)
    ensures SumCounts(rows, es + [e]) == SumCounts(rows, es) + if HasKey(rows, e.key) then 1 else 0
    decreases |rows|
  {
    if rows != [] {
      var before, last := rows[..|rows| - 1], rows[|rows| - 1];
      SumCountsMore(before, es, e);
      assert (es + [e])[..|es|] == es;
      if last.key == e.key {
        assert !HasKey(before, e.key);
        assert HasKey(rows, e.key) by { assert rows[|rows| - 1].key == e.key; }
      } else {
        assert HasKey(rows, e.key) <==> HasKey(before, e.key) by {
          assert forall i | 0 <= i < |before| :: rows[i] == before[i];
        }
      }
    }
  }

  lemma {:induction false} SumCountsAll<K>(rows: seq<Row<K>>, es: seq<Entry<K>>)
    requires KeysDiffer(rows) && forall i | 0 <= i < |es| :: HasKey(rows, es[i].key)
    ensures SumCounts(rows, es) == |es|
    decreases |es|
  {
    if es == [] {
      SumCountsNone(rows);
    } else {
      var before := es[..|es| - 1];
      SumCountsAll(rows, before);
      assert es == before + [es[|es| - 1]];
      SumCountsMore(rows, before, es[|es| - 1]);
    }
  }

  lemma {:induction false} SumCountsNone<K>(rows: seq<Row<K>>)
    ensures SumCounts(rows, []) == 0
  {
    if rows != [] {
      SumCountsNone(rows[..|rows| - 1]);
    }
  }

  lemma {:induction false} PairsAreCounts<K>(rows: seq<Row<K>>, es: seq<Entry<K>>)
    requires forall i | 0 <= i < |rows| :: rows[i].pairs == Count(es, rows[i].key)
    ensures SumPairs(rows) == SumCounts(rows, es)
  {
    if rows != [] {
      PairsAreCounts(rows[..|rows| - 1], es);
    }
  }

  /** The reported pairs add up to the number of entries. */
  lemma {:induction false} ReportAddsUp<K>(es: seq<Entry<K>>, rows: seq<Row<K>>)
    requires Reports(Tally(es), rows)
    ensures SumPairs(rows) == |es|
  {
    forall i | 0 <= i < |rows|
      ensures rows[i].pairs == Count(es, rows[i].key)
    {
      assert rows[i] in rows;
      TallyCounts(es, rows[i].key);
    }
    PairsAreCounts(rows, es);
    forall i | 0 <= i < |es|
      ensures HasKey(rows, es[i].key)
    {
      OccursCounts(es, i);
      TallyCounts(es, es[i].key);
      assert RowFor(Tally(es), es[i].key) in rows;
    }
    SumCountsAll(rows, es);
  }

  lemma {:induction false} OccursCounts<K>(es: seq<Entry<K>>, i: nat)
    requires i < |es|
    ensures Count(es, es[i].key) > 0
  {
    if i < |es| - 1 {
      OccursCounts(es[..|es| - 1], i);
    }
  }

  // ----------------------------------------------------------------- the view

  datatype Lesson = Lesson(pair: int, group: int, groupName: string, subject: Option<int>, subjectName: string,
                           location: Option<int>, locationName: string, subgroup: Option<int>)

  datatype Day = Day(date: int, lessons: seq<Lesson>)

  datatype Held = Held(date: int, lesson: Lesson)

  /** Two lessons with one slot are one pair of work. Absent parts count as 0. */
  datatype Slot = Slot(date: int, pair: int, subgroup: int, subject: int, location: int)

  datatype SubjectKey = ById(id: int) | ByName(name: string)

  function SlotOf(h: Held): Slot {
    Slot(h.date, h.lesson.pair, h.lesson.subgroup.Or(0), h.lesson.subject.Or(0), h.lesson.location.Or(0))
  }

  function SubjectEntry(h: Held): Entry<SubjectKey> {
    Entry(if h.lesson.subject.Some? then ById(h.lesson.subject.value) else ByName(h.lesson.subjectName),
          h.lesson.subjectName)
  }

  function GroupEntry(h: Held): Entry<int> {
    Entry(h.lesson.group, h.lesson.groupName)
  }

  function DayHeld(d: Day, n: nat): seq<Held>
    requires n <= |d.lessons|
  {
    if n == 0 then [] else DayHeld(d, n - 1) + [Held(d.date, d.lessons[n - 1])]
  }

  /** All lessons of a view, in order. */
  function AllHeld(days: seq<Day>): seq<Held> {
    if days == [] then []
    else AllHeld(days[..|days| - 1]) + DayHeld(days[|days| - 1], |days[|days| - 1].lessons|)
  }

  function Groups(held: seq<Held>): seq<Entry<int>> {
    seq(|held|, i requires 0 <= i < |held| => GroupEntry(held[i]))
  }

  function Slots(held: seq<Held>): set<Slot> {
    set i | 0 <= i < |held| :: SlotOf(held[i])
  }

  /** The subjects of the lessons that are the first in their slot. */
  function Subjects(held: seq<Held>): seq<Entry<SubjectKey>> {
    if held == [] then []
    else
      var before, last := held[..|held| - 1], held[|held| - 1];
      if SlotOf(last) in Slots(before) then Subjects(before) else Subjects(before) + [SubjectEntry(last)]
  }

  lemma {:induction false} OneSubjectPerSlot(held: seq<Held>)
    ensures |Subjects(held)| == |Slots(held)| <= |held|
  {
    if held == [] {
      assert Slots(held) == {};
    } else {
      var before, last := held[..|held| - 1], held[|held| - 1];
      OneSubjectPerSlot(before);
      SlotsMore(before, last);
      assert held == before + [last];
      if SlotOf(last) in Slots(before) {
        assert Slots(held) == Slots(before);
      } else {
        assert Slots(held) == Slots(before) + {SlotOf(last)};
      }
    }
  }

  lemma {:induction false} SlotsMore(held: seq<Held>, h: Held)
    ensures Slots(held + [h]) == Slots(held) + {SlotOf(h)}
  {
    var more := held + [h];
    assert more[|held|] == h;
    forall i | 0 <= i < |held|
      ensures SlotOf(held[i]) in Slots(more)
    {
      assert more[i] == held[i];
    }
  }

  /** By date, pair and group name. */
  predicate HeldLess(a: Held, b: Held) {
    if a.date != b.date then a.date < b.date
    else if a.lesson.pair != b.lesson.pair then a.lesson.pair < b.lesson.pair
    else TextLess(a.lesson.groupName, b.lesson.groupName)
  }

  lemma {:induction false} HeldWeak(held: seq<Held>)
    ensures WeakOn(held, HeldLess)
  {
    forall x, y, z | x in held && y in held && z in held && HeldLess(x, z)
      ensures HeldLess(x, y) || HeldLess(y, z)
    {
      if TextLess(x.lesson.groupName, z.lesson.groupName) {
        TextLessWeak(x.lesson.groupName, y.lesson.groupName, z.lesson.groupName);
      }
    }
    forall x, y | x in held && y in held && HeldLess(x, y)
      ensures !HeldLess(y, x)
    {
      TextLessLinear(x.lesson.groupName, y.lesson.groupName);
    }
  }

  datatype Workload = Workload(totalPairs: nat, totalHours: nat, bySubject: seq<Row<SubjectKey>>,
                               byGroup: seq<Row<int>>, lessons: seq<Held>)

  datatype Progress = Progress(seen: set<Slot>, bySubject: Counters<SubjectKey>, byGroup: Counters<int>,
                               lessons: seq<Held>)

  method CountLesson(p: Progress, h: Held) returns (q: Progress)
    requires Counted(p)
    ensures Counted(q) && q.lessons == p.lessons + [h]
  {
    CountedMore(p.lessons, h);
    q := p.(byGroup := Bump(p.byGroup, GroupEntry(h)));
    if SlotOf(h) !in q.seen {
      q := q.(seen := q.seen + {SlotOf(h)});
      q := q.(bySubject := Bump(q.bySubject, SubjectEntry(h)));
    }
    q := q.(lessons := q.lessons + [h]);
  }

  method CountDay(p: Progress, day: Day) returns (q: Progress)
    requires Counted(p)
    ensures Counted(q) && q.lessons == p.lessons + DayHeld(day, |day.lessons|)
  {
    q := p;
    for i := 0 to |day.lessons|
      invariant Counted(q) && q.lessons == p.lessons + DayHeld(day, i)
    {
      var held := Held(day.date, day.lessons[i]);
      q := CountLesson(q, held);
      assert p.lessons + DayHeld(day, i) + [held] == p.lessons + (DayHeld(day, i) + [held]);
    }
  }

  method CountLessons(days: seq<Day>) returns (p: Progress)
    ensures Counted(p) && p.lessons == AllHeld(days)
  {
    p := Progress({}, map[], map[], []);
    for d := 0 to |days|
      invariant Counted(p) && p.lessons == AllHeld(days[..d])
    {
      assert days[..d + 1][..d] == days[..d];
      p := CountDay(p, days[d]);
    }
    assert days[..|days|] == days;
  }

  method BuildTeacherWorkload(days: seq<Day>) returns (w: Workload)
    ensures w.totalPairs == |Slots(AllHeld(days))| && w.totalHours == w.totalPairs * 2
    ensures Reports(Tally(Subjects(AllHeld(days))), w.bySubject) && NonDecreasing(w.bySubject, NameLess)
    ensures Reports(Tally(Groups(AllHeld(days))), w.byGroup) && NonDecreasing(w.byGroup, NameLess)
    ensures multiset(w.lessons) == multiset(AllHeld(days)) && NonDecreasing(w.lessons, HeldLess)
  {
    var p := CountLessons(days);
    var subjectRows := ReportByName(p.bySubject);
    var groupRows := ReportByName(p.byGroup);
    HeldWeak(p.lessons);
    var sorted := Sort(p.lessons, HeldLess);
    w := Workload(|p.seen|, |p.seen| * 2, subjectRows, groupRows, sorted);
  }

  ghost predicate Counted(p: Progress) {
    && p.seen == Slots(p.lessons)
    && p.bySubject == Tally(Subjects(p.lessons)) && p.byGroup == Tally(Groups(p.lessons))
  }

  lemma {:induction false} CountedMore(held: seq<Held>, h: Held)
    ensures Slots(held + [h]) == Slots(held) + {SlotOf(h)}
    ensures Tally(Groups(held + [h])) == Bump(Tally(Groups(held)), GroupEntry(h))
    ensures Tally(Subjects(held + [h]))
         == if SlotOf(h) in Slots(held) then Tally(Subjects(held)) else Bump(Tally(Subjects(held)), SubjectEntry(h))
  {
    SlotsMore(held, h);
    assert (held + [h])[..|held|] == held;
    assert Groups(held + [h]) == Groups(held) + [GroupEntry(h)];
    TallyMore(Groups(held), GroupEntry(h));
    TallyMore(Subjects(held), SubjectEntry(h));
  }

  lemma {:induction false} TallyMore<K>(es: seq<Entry<K>>, e: Entry<K>)
    ensures Tally(es + [e]) == Bump(Tally(es), e)
  {
  }

  /**
   Work is conserved: pairs by subject add up to the distinct slots, pairs by group to the lessons,
   and there are never more slots than lessons.
   */
  lemma {:induction false} WorkIsConserved(held: seq<Held>, w: Workload)
    requires w.totalPairs == |Slots(held)|
    requires Reports(Tally(Subjects(held)), w.bySubject) && Reports(Tally(Groups(held)), w.byGroup)
    requires multiset(w.lessons) == multiset(held)
    ensures SumPairs(w.bySubject) == w.totalPairs <= |w.lessons|
    ensures SumPairs(w.byGroup) == |w.lessons| == |held|
  {
    OneSubjectPerSlot(held);
    ReportAddsUp(Subjects(held), w.bySubject);
    ReportAddsUp(Groups(held), w.byGroup);
    assert |multiset(w.lessons)| == |multiset(held)|;
  }

  // ------------------------------------------------ told from the lessons themselves

  /** The lessons counted are those of the days, day by day, with the day's date. */
  lemma {:induction false} HeldAre(days: seq<Day>, d: nat, k: nat)
    requires d < |days|
    ensures AllHeld([]) == []
    ensures |AllHeld(days[..d + 1])| == |AllHeld(days[..d])| + |days[d].lessons|
    ensures |AllHeld(days[..d])| + |days[d].lessons| <= |AllHeld(days)|
    ensures k < |days[d].lessons| ==>
      AllHeld(days)[|AllHeld(days[..d])| + k] == Held(days[d].date, days[d].lessons[k])
  {
    DayHeldAre(days[d], |days[d].lessons|);
    if d < |days| - 1 {
      var init := days[..|days| - 1];
      HeldAre(init, d, k);
      assert init[..d] == days[..d] && init[..d + 1] == days[..d + 1];
    } else {
      assert days[..d + 1] == days;
    }
  }

  lemma {:induction false} DayHeldAre(d: Day, n: nat)
    requires n <= |d.lessons|
    ensures |DayHeld(d, n)| == n && forall k | 0 <= k < n :: DayHeld(d, n)[k] == Held(d.date, d.lessons[k])
  {
    if n > 0 {
      DayHeldAre(d, n - 1);
    }
  }

  /** Same date, pair, subgroup, subject and location; what is absent counts as 0. */
  predicate SamePair(a: Held, b: Held) {
    && a.date == b.date && a.lesson.pair == b.lesson.pair && a.lesson.subgroup.Or(0) == b.lesson.subgroup.Or(0)
    && a.lesson.subject.Or(0) == b.lesson.subject.Or(0) && a.lesson.location.Or(0) == b.lesson.location.Or(0)
  }

  ghost predicate FirstOfPair(held: seq<Held>, n: nat) {
    n < |held| && forall m | 0 <= m < n :: !SamePair(held[m], held[n])
  }

  /** The subject has this id, or no id and this name. */
  predicate IsSubject(l: Lesson, key: SubjectKey) {
    match key
    case ById(id) => l.subject == Some(id)
    case ByName(name) => l.subject == None && l.subjectName == name
  }

  ghost function PairsOf(held: seq<Held>): set<nat> {
    set n: nat | n < |held| && FirstOfPair(held, n)
  }

  ghost function SubjectPairs(held: seq<Held>, key: SubjectKey): set<nat> {
    set n: nat | n < |held| && FirstOfPair(held, n) && IsSubject(held[n].lesson, key)
  }

  ghost function GroupLessons(held: seq<Held>, group: int): set<nat> {
    set n: nat | n < |held| && held[n].lesson.group == group
  }

  lemma {:induction false} SlotSeenIff(held: seq<Held>, h: Held)
    ensures SlotOf(h) in Slots(held) <==> !FirstOfPair(held + [h], |held|)
  {
    assert forall m | 0 <= m < |held| :: SamePair(held[m], h) <==> SlotOf(held[m]) == SlotOf(h);
    assert forall m | 0 <= m < |held| :: (held + [h])[m] == held[m];
    if SlotOf(h) in Slots(held) {
      var m :| 0 <= m < |held| && SlotOf(held[m]) == SlotOf(h);
      assert SamePair((held + [h])[m], (held + [h])[|held|]);
    }
  }

  lemma {:induction false} FirstStaysFirst(held: seq<Held>, h: Held, n: nat)
    requires n < |held|
    ensures FirstOfPair(held + [h], n) <==> FirstOfPair(held, n)
  {
    assert forall m | 0 <= m < |held| :: (held + [h])[m] == held[m];
  }

  lemma {:induction false} FirstsMore(held: seq<Held>, h: Held, key: SubjectKey)
    ensures var added := if SlotOf(h) in Slots(held) then {} else {|held|};
      && PairsOf(held + [h]) == PairsOf(held) + added
      && SubjectPairs(held + [h], key) == SubjectPairs(held, key) + if IsSubject(h.lesson, key) then added else {}
  {
    SlotSeenIff(held, h);
    forall n: nat | n < |held|
      ensures FirstOfPair(held + [h], n) <==> FirstOfPair(held, n)
    {
      FirstStaysFirst(held, h, n);
    }
    assert forall n: nat | n < |held| :: (held + [h])[n] == held[n];
  }

  lemma {:induction false} SubjectEntryIs(h: Held, key: SubjectKey)
    ensures SubjectEntry(h).key == key <==> IsSubject(h.lesson, key)
    ensures SubjectEntry(h).name == h.lesson.subjectName
  {
  }

  lemma {:induction false} PairsSizeMore(held: seq<Held>, h: Held, key: SubjectKey)
    ensures var added := if SlotOf(h) in Slots(held) then 0 else 1;
      && |PairsOf(held + [h])| == |PairsOf(held)| + added
      && |SubjectPairs(held + [h], key)| == |SubjectPairs(held, key)| + if IsSubject(h.lesson, key) then added else 0
  {
    FirstsMore(held, h, key);
    assert |held| !in PairsOf(held) && |held| !in SubjectPairs(held, key);
  }

  lemma {:induction false} NoPairs(key: SubjectKey)
    ensures PairsOf([]) == {} && SubjectPairs([], key) == {}
  {
  }

  /** The slots are the pairs. */
  lemma {:induction false} SlotsArePairs(held: seq<Held>)
    ensures |Slots(held)| == |PairsOf(held)|
  {
    if held == [] {
      NoPairs(ByName(""));
      assert Slots(held) == {};
    } else {
      var before, last := held[..|held| - 1], held[|held| - 1];
      SlotsArePairs(before);
      assert held == before + [last];
      PairsSizeMore(before, last, ByName(""));
      SlotsSizeMore(before, last);
    }
  }

  lemma {:induction false} SlotsSizeMore(held: seq<Held>, h: Held)
    ensures |Slots(held + [h])| == |Slots(held)| + if SlotOf(h) in Slots(held) then 0 else 1
  {
    SlotsMore(held, h);
    if SlotOf(h) in Slots(held) {
      assert Slots(held + [h]) == Slots(held);
    }
  }

  lemma {:induction false} SubjectCountMore(held: seq<Held>, h: Held, key: SubjectKey)
    ensures Count(Subjects(held + [h]), key) ==
      Count(Subjects(held), key) + if SlotOf(h) !in Slots(held) && IsSubject(h.lesson, key) then 1 else 0
  {
    SubjectEntryIs(h, key);
    assert (held + [h])[..|held|] == held;
    assert (Subjects(held) + [SubjectEntry(h)])[..|Subjects(held)|] == Subjects(held);
  }

  /** A subject is counted once for each pair of it. */
  lemma {:induction false} SubjectCountIs(held: seq<Held>, key: SubjectKey)
    ensures Count(Subjects(held), key) == |SubjectPairs(held, key)|
  {
    if held == [] {
      NoPairs(key);
    } else {
      var before, last := held[..|held| - 1], held[|held| - 1];
      SubjectCountIs(before, key);
      assert held == before + [last];
      PairsSizeMore(before, last, key);
      SubjectCountMore(before, last, key);
    }
  }

  lemma {:induction false} GroupCountIs(held: seq<Held>, group: int)
    ensures Count(Groups(held), group) == |GroupLessons(held, group)|
  {
    if held == [] {
      assert GroupLessons(held, group) == {};
    } else {
      var n := |held| - 1;
      GroupCountIs(held[..n], group);
      assert Groups(held)[..n] == Groups(held[..n]);
      assert GroupLessons(held, group) ==
        GroupLessons(held[..n], group) + if held[n].lesson.group == group then {n} else {};
    }
  }

  /** A row tells the number of lessons of its group, twice as many hours, and the name of the first of them. */
  lemma {:induction false} GroupRowTells(held: seq<Held>, rows: seq<Row<int>>, r: Row<int>)
    requires Reports(Tally(Groups(held)), rows) && r in rows
    ensures r.pairs == |GroupLessons(held, r.key)| && r.hours == 2 * r.pairs
    ensures exists n: nat :: n in GroupLessons(held, r.key) && held[n].lesson.groupName == r.name
                             && forall m | m in GroupLessons(held, r.key) :: n <= m
  {
    var es := Groups(held);
    TallyCounts(es, r.key);
    GroupCountIs(held, r.key);
    var n :| 0 <= n < |es| && es[n] == Entry(r.key, r.name) && Count(es[..n], r.key) == 0;
    forall m | m in GroupLessons(held, r.key)
      ensures n <= m
    {
      if m < n {
        assert es[..n][m].key == r.key;
        OccursCounts(es[..n], m);
        assert false;
      }
    }
  }

  /** There is a row for every group that has a lesson. */
  lemma {:induction false} EveryGroupHasRow(held: seq<Held>, rows: seq<Row<int>>, n: nat)
    requires Reports(Tally(Groups(held)), rows) && n < |held|
    ensures exists r :: r in rows && r.key == held[n].lesson.group
  {
    var es := Groups(held);
    OccursCounts(es, n);
    TallyCounts(es, es[n].key);
    assert RowFor(Tally(es), es[n].key) in rows;
  }

  /** The subject entries are those of the pairs, in the order of the lessons that come first in them. */
  ghost predicate EntriesOf(held: seq<Held>, es: seq<Entry<SubjectKey>>, at: seq<nat>) {
    && |at| == |es|
    && (forall i | 0 <= i < |at| :: at[i] < |held| && FirstOfPair(held, at[i]) && es[i] == SubjectEntry(held[at[i]]))
    && (forall i, j | 0 <= i < j < |at| :: at[i] < at[j])
    && (forall n: nat | FirstOfPair(held, n) :: n in at)
  }

  lemma {:induction false} EntriesMore(held: seq<Held>, h: Held, es: seq<Entry<SubjectKey>>, at: seq<nat>)
    requires EntriesOf(held, es, at)
    ensures if SlotOf(h) in Slots(held) then EntriesOf(held + [h], es, at)
            else EntriesOf(held + [h], es + [SubjectEntry(h)], at + [|held|])
  {
    SlotSeenIff(held, h);
    forall n: nat | n < |held|
      ensures FirstOfPair(held + [h], n) <==> FirstOfPair(held, n)
    {
      FirstStaysFirst(held, h, n);
    }
    assert forall n: nat | n < |held| :: (held + [h])[n] == held[n];
  }

  lemma {:induction false} SubjectsAreEntries(held: seq<Held>) returns (at: seq<nat>)
    ensures EntriesOf(held, Subjects(held), at)
  {
    if held == [] {
      at := [];
    } else {
      var before, last := held[..|held| - 1], held[|held| - 1];
      at := SubjectsAreEntries(before);
      EntriesMore(before, last, Subjects(before), at);
      assert held == before + [last];
      if SlotOf(last) !in Slots(before) {
        at := at + [|before|];
      }
    }
  }

  /** A row tells the number of pairs of its subject, twice as many hours, and the name in the first of them. */
  lemma {:induction false} SubjectRowTells(held: seq<Held>, rows: seq<Row<SubjectKey>>, r: Row<SubjectKey>)
    requires Reports(Tally(Subjects(held)), rows) && r in rows
    ensures r.pairs == |SubjectPairs(held, r.key)| && r.hours == 2 * r.pairs
    ensures exists n: nat :: n in SubjectPairs(held, r.key) && held[n].lesson.subjectName == r.name
                             && forall m | m in SubjectPairs(held, r.key) :: n <= m
  {
    var es := Subjects(held);
    TallyCounts(es, r.key);
    SubjectCountIs(held, r.key);
    var n := FirstEntry(held, r.key, r.name);
  }

  lemma {:induction false} FirstEntry(held: seq<Held>, key: SubjectKey, name: string) returns (n: nat)
    requires var es := Subjects(held);
      exists i :: 0 <= i < |es| && es[i] == Entry(key, name) && Count(es[..i], key) == 0
    ensures n in SubjectPairs(held, key) && held[n].lesson.subjectName == name
    ensures forall m | m in SubjectPairs(held, key) :: n <= m
  {
    var es := Subjects(held);
    var at := SubjectsAreEntries(held);
    var i :| 0 <= i < |es| && es[i] == Entry(key, name) && Count(es[..i], key) == 0;
    n := at[i];
    SubjectEntryIs(held[n], key);
    forall m | m in SubjectPairs(held, key)
      ensures n <= m
    {
      var j :| 0 <= j < |at| && at[j] == m;
      SubjectEntryIs(held[m], key);
      if j < i {
        assert es[..i][j].key == key;
        OccursCounts(es[..i], j);
        assert false;
      }
    }
  }

  /** There is a row for the subject of every pair. */
  lemma {:induction false} EverySubjectHasRow(held: seq<Held>, rows: seq<Row<SubjectKey>>, n: nat)
    requires Reports(Tally(Subjects(held)), rows) && FirstOfPair(held, n)
    ensures exists r :: r in rows && IsSubject(held[n].lesson, r.key)
  {
    var key := SubjectEntry(held[n]).key;
    SubjectEntryIs(held[n], key);
    SubjectCountIs(held, key);
    assert n in SubjectPairs(held, key);
    TallyCounts(Subjects(held), key);
    assert RowFor(Tally(Subjects(held)), key) in rows;
  }

  /** Rows come by name, and lessons by date, pair and group name: a later one never precedes an earlier one. */
  lemma {:induction false} OrdersTell<K>(rows: seq<Row<K>>, lessons: seq<Held>)
    requires NonDecreasing(rows, NameLess) && NonDecreasing(lessons, HeldLess)
    ensures forall i, j | 0 <= i < j < |rows| :: !Precedes(rows[j].name, rows[i].name)
    ensures forall i, j | 0 <= i < j < |lessons| :: !HeldBefore(lessons[j], lessons[i])
  {
    forall i, j | 0 <= i < j < |rows|
      ensures !Precedes(rows[j].name, rows[i].name)
    {
      assert !NameLess(rows[j], rows[i]);
      TextLessIff(rows[j].name, rows[i].name);
    }
    forall i, j | 0 <= i < j < |lessons|
      ensures !HeldBefore(lessons[j], lessons[i])
    {
      assert !HeldLess(lessons[j], lessons[i]);
      TextLessIff(lessons[j].lesson.groupName, lessons[i].lesson.groupName);
    }
  }

  ghost predicate HeldBefore(a: Held, b: Held) {
    || a.date < b.date
    || (a.date == b.date && a.lesson.pair < b.lesson.pair)
    || (a.date == b.date && a.lesson.pair == b.lesson.pair && Precedes(a.lesson.groupName, b.lesson.groupName))
  }
}
