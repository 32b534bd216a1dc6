/** The schedule of a group, day by day: its own lessons laid over those of the groups it inherits from. */
module BuildDays {
  import opened Wrappers
  import opened Store
  import opened Views
  import opened Orders
  import opened Inheritance

  datatype DayLesson = DayLesson(
    pair: int,
    subject: Option<int>,
    subjectName: string,
    location: Option<int>,
    format: Format,
    teacher: Option<int>,
    subgroup: Option<int>,
    flow: Option<string>,
    changed: bool)

  datatype Day = Day(date: int, lessons: seq<DayLesson>)

  /** Pair and subgroup, with 0 for the whole group. */
  datatype Key = Key(pair: int, subgroup: int)

  function KeyOf(v: View): Key {
    Key(v.pair, SubgroupKey(v.subgroup))
  }

  function ToLesson(v: View): DayLesson {
    DayLesson(v.pair, v.subject, v.subjectName, v.location, v.format, v.teacher, v.subgroup, v.flow,
              v.source == Replacement)
  }

  /** By pair, then with the whole group before the subgroups. */
  predicate LessonLess(a: DayLesson, b: DayLesson) {
    a.pair < b.pair || (a.pair == b.pair && a.subgroup.Or(-1) < b.subgroup.Or(-1))
  }

  // ------------------------------------------------------------- resolution

  /** The group's active lessons on a day at a key. */
  ghost function HoldersAt(env: Env, s: State, group: int, date: int, key: Key): set<View> {
    set id | id in s.lessons && Listed(s, id, group, date, date) && KeyOf(ViewOf(env, s, id)) == key ::
      ViewOf(env, s, id)
  }

  /** The group's lesson at a key: where there is more than one, the one with the highest id. */
  ghost predicate HeldBy(env: Env, s: State, group: int, date: int, key: Key, v: View) {
    v in HoldersAt(env, s, group, date, key) && forall w | w in HoldersAt(env, s, group, date, key) :: w.id <= v.id
  }

  /** The lesson of the group nearest the end of the chain that has one at the key. */
  ghost predicate Resolved(env: Env, s: State, chain: seq<int>, date: int, key: Key, v: View) {
    exists i :: 0 <= i < |chain| && HeldBy(env, s, chain[i], date, key, v)
      && forall j | i < j < |chain| :: HoldersAt(env, s, chain[j], date, key) == {}
  }

  lemma {:induction false} ResolvedIsUnique(env: Env, s: State, chain: seq<int>, date: int, key: Key, v: View, w: View)
    requires Resolved(env, s, chain, date, key, v) && Resolved(env, s, chain, date, key, w)
    ensures v == w
  {
  }

  /** The views a day shows: one for each key some group of the chain holds. */
  ghost function Shown(env: Env, s: State, chain: seq<int>, date: int): set<View> {
    set id | id in s.lessons && Active(s.lessons[id]) && s.lessons[id].date == date
             && Resolved(env, s, chain, date, KeyOf(ViewOf(env, s, id)), ViewOf(env, s, id))
      :: ViewOf(env, s, id)
  }

  ghost function ShownLessons(env: Env, s: State, chain: seq<int>, date: int): set<DayLesson> {
    set v | v in Shown(env, s, chain, date) :: ToLesson(v)
  }

  lemma {:induction false} ResolvedIsShown(env: Env, s: State, chain: seq<int>, date: int, key: Key, v: View)
    requires Resolved(env, s, chain, date, key, v)
    ensures v in Shown(env, s, chain, date) && KeyOf(v) == key
  {
  }

  lemma {:induction false} ShownLinear(env: Env, s: State, chain: seq<int>, date: int)
    requires WellFormed(env, s)
    ensures LinearOn(ShownLessons(env, s, chain, date), LessonLess)
  {
    forall a, b | a in ShownLessons(env, s, chain, date) && b in ShownLessons(env, s, chain, date) && a != b
      ensures LessonLess(a, b) || LessonLess(b, a)
    {
      var v :| v in Shown(env, s, chain, date) && ToLesson(v) == a;
      var w :| w in Shown(env, s, chain, date) && ToLesson(w) == b;
      if KeyOf(v) == KeyOf(w) {
        ResolvedIsUnique(env, s, chain, date, KeyOf(v), v, w);
        assert false;
      }
      assert ValidSubgroup(v.subgroup) && ValidSubgroup(w.subgroup);
    }
  }

  /** A day's lessons in order. They depend on the day and the chain, not on the range it is read in. */
  ghost function DayLessons(env: Env, s: State, chain: seq<int>, date: int): seq<DayLesson>
    requires WellFormed(env, s)
  {
    ShownLinear(env, s, chain, date);
    Arrange(ShownLessons(env, s, chain, date), LessonLess)
  }

  /** The day's lessons are strictly sorted, and are the lessons shown. */
  lemma {:induction false} DayLessonsSorted(env: Env, s: State, chain: seq<int>, date: int)
    requires WellFormed(env, s)
    ensures Increasing(DayLessons(env, s, chain, date), LessonLess)
    ensures forall l :: l in DayLessons(env, s, chain, date) <==> l in ShownLessons(env, s, chain, date)
  {
  }

  /** One entry a day, in order. */
  ghost function Days(env: Env, s: State, chain: seq<int>, start: int, end: int): seq<Day>
    requires WellFormed(env, s)
    decreases end - start
  {
    if end < start then [] else Days(env, s, chain, start, end - 1) + [Day(end, DayLessons(env, s, chain, end))]
  }

  lemma {:induction false} OnePerDay(env: Env, s: State, chain: seq<int>, start: int, end: int)
    requires WellFormed(env, s)
    ensures |Days(env, s, chain, start, end)| == if end < start then 0 else end - start + 1
    decreases end - start
  {
    if start <= end {
      OnePerDay(env, s, chain, start, end - 1);
    }
  }

  /** A day's entry is the same in every range that includes the day. */
  lemma {:induction false} DayInRange(env: Env, s: State, chain: seq<int>, start: int, end: int, date: int)
    requires WellFormed(env, s) && start <= date <= end
    ensures |Days(env, s, chain, start, end)| == end - start + 1
    ensures Days(env, s, chain, start, end)[date - start] == Day(date, DayLessons(env, s, chain, date))
    decreases end - start
  {
    OnePerDay(env, s, chain, start, end);
    OnePerDay(env, s, chain, start, end - 1);
    if date < end {
      DayInRange(env, s, chain, start, end - 1, date);
    }
  }

  ghost function Schedule(env: Env, s: State, g: Groups, id: int, start: int, end: int): Result<seq<Day>, GroupError>
    requires WellFormed(env, s)
  {
    if id !in g then Result.Failure(GroupError.NotFound)
    else
      var chain :- Chain(g, id);
      Success(Days(env, s, chain, start, end))
  }

  /**
   Slot by slot: wherever some group of the chain has an active lesson, the day shows exactly the
   lesson of the group nearest the leaf, and of its lessons there the one with the highest id.
   */
  lemma {:induction false} NearestGroupWins(
    env: Env, s: State, chain: seq<int>, date: int, i: nat, key: Key) returns (v: View)
    requires WellFormed(env, s) && i < |chain|
    requires HoldersAt(env, s, chain[i], date, key) != {}
    requires forall j | i < j < |chain| :: HoldersAt(env, s, chain[j], date, key) == {}
    ensures HeldBy(env, s, chain[i], date, key, v) && ToLesson(v) in DayLessons(env, s, chain, date)
    ensures forall l | l in DayLessons(env, s, chain, date) && Key(l.pair, SubgroupKey(l.subgroup)) == key ::
      l == ToLesson(v)
  {
    DayLessonsSorted(env, s, chain, date);
    v := HighestHeld(env, s, chain[i], date, key);
    ResolvedIsShown(env, s, chain, date, key, v);
    assert ToLesson(v) in ShownLessons(env, s, chain, date);
    forall l | l in DayLessons(env, s, chain, date) && Key(l.pair, SubgroupKey(l.subgroup)) == key
      ensures l == ToLesson(v)
    {
      var w :| w in Shown(env, s, chain, date) && ToLesson(w) == l;
      ResolvedIsUnique(env, s, chain, date, key, v, w);
    }
  }

  /** Where no group of the chain has an active lesson, the day shows none. */
  lemma {:induction false} UnheldStaysEmpty(env: Env, s: State, chain: seq<int>, date: int, key: Key)
    requires WellFormed(env, s)
    requires forall i | 0 <= i < |chain| :: HoldersAt(env, s, chain[i], date, key) == {}
    ensures forall l | l in DayLessons(env, s, chain, date) :: Key(l.pair, SubgroupKey(l.subgroup)) != key
  {
    DayLessonsSorted(env, s, chain, date);
    forall l | l in DayLessons(env, s, chain, date)
      ensures Key(l.pair, SubgroupKey(l.subgroup)) != key
    {
      var v :| v in Shown(env, s, chain, date) && ToLesson(v) == l;
      var i :| 0 <= i < |chain| && HeldBy(env, s, chain[i], date, KeyOf(v), v);
    }
  }

  lemma {:induction false} HighestHeld(env: Env, s: State, group: int, date: int, key: Key) returns (v: View)
    requires HoldersAt(env, s, group, date, key) != {}
    ensures HeldBy(env, s, group, date, key, v)
  {
    v := HighestOf(HoldersAt(env, s, group, date, key));
  }

  lemma {:induction false} HighestOf(views: set<View>) returns (v: View)
    requires views != {}
    ensures v in views && forall w | w in views :: w.id <= v.id
  {
    v :| v in views;
    assert forall x | x in views :: x == v || x in views - {v};
    if views - {v} != {} {
      var w := HighestOf(views - {v});
      if w.id > v.id {
        v := w;
      }
    }
  }

  // ---------------------------------------- what a day shows, told from the tables

  /** An active lesson of the group on that day, for that pair and subgroup. */
  predicate HeldAt(s: State, id: int, group: int, date: int, pair: int, subgroup: Option<int>) {
    && id in s.lessons && Active(s.lessons[id]) && s.lessons[id].group == group && s.lessons[id].date == date
    && s.lessons[id].pair == pair && s.lessons[id].subgroup == subgroup
  }

  /**
   The stored lesson prevails for its pair and subgroup on that day: no group nearer the end of the
   chain has one there, nor has its own group one with a higher id.
   */
  ghost predicate Prevails(s: State, chain: seq<int>, date: int, i: nat, id: int)
    requires i < |chain|
  {
    && id in s.lessons && HeldAt(s, id, chain[i], date, s.lessons[id].pair, s.lessons[id].subgroup)
    && (forall other, j | i < j < |chain| ::
          !HeldAt(s, other, chain[j], date, s.lessons[id].pair, s.lessons[id].subgroup))
    && (forall other | HeldAt(s, other, chain[i], date, s.lessons[id].pair, s.lessons[id].subgroup) :: other <= id)
  }

  /** What the day says of the lesson is what is stored, with its subject's name and its published room. */
  predicate TellsOf(env: Env, s: State, id: int, l: DayLesson)
    requires id in s.lessons
  {
    var stored := s.lessons[id];
    && l.pair == stored.pair && l.subgroup == stored.subgroup && l.subject == stored.subject
    && l.teacher == stored.teacher && l.format == stored.format && l.flow == stored.flow
    && (l.changed <==> stored.source == Replacement)
    && l.subjectName == (if stored.subject.Some? && stored.subject.value in env.subjectNames
                         then env.subjectNames[stored.subject.value] else "")
    && l.location == (if id in s.rooms && s.rooms[id].status == Published
                      then Some(s.rooms[id].location) else None)
  }

  lemma {:induction false} HolderIsHeldAt(env: Env, s: State, group: int, date: int, id: int, other: int)
    requires WellFormed(env, s) && id in s.lessons && other in s.lessons
    ensures ViewOf(env, s, other) in HoldersAt(env, s, group, date, KeyOf(ViewOf(env, s, id))) <==>
      HeldAt(s, other, group, date, s.lessons[id].pair, s.lessons[id].subgroup)
  {
    assert ValidLesson(env.alphabet, s.lessons[id]) && ValidLesson(env.alphabet, s.lessons[other]);
  }

  lemma {:induction false} HoldersAreStored(env: Env, s: State, group: int, date: int, key: Key, v: View)
    requires v in HoldersAt(env, s, group, date, key)
    ensures v.id in s.lessons && v == ViewOf(env, s, v.id)
  {
  }

  /** To prevail there is to be the one resolved there. */
  lemma {:induction false} PrevailsIff(env: Env, s: State, chain: seq<int>, date: int, i: nat, id: int)
    requires WellFormed(env, s) && i < |chain| && id in s.lessons
    ensures var v := ViewOf(env, s, id);
      Prevails(s, chain, date, i, id) <==>
      && HeldBy(env, s, chain[i], date, KeyOf(v), v)
      && forall j | i < j < |chain| :: HoldersAt(env, s, chain[j], date, KeyOf(v)) == {}
  {
    var v := ViewOf(env, s, id);
    forall other, j: nat | other in s.lessons && j < |chain|
      ensures ViewOf(env, s, other) in HoldersAt(env, s, chain[j], date, KeyOf(v)) <==>
        HeldAt(s, other, chain[j], date, s.lessons[id].pair, s.lessons[id].subgroup)
    {
      HolderIsHeldAt(env, s, chain[j], date, id, other);
    }
    forall j: nat, w | j < |chain| && w in HoldersAt(env, s, chain[j], date, KeyOf(v))
      ensures w.id in s.lessons && w == ViewOf(env, s, w.id)
    {
      HoldersAreStored(env, s, chain[j], date, KeyOf(v), w);
    }
  }

  /** Every lesson a day shows is a stored one that prevails, and tells of it. */
  lemma {:induction false} ShownTellsStored(env: Env, s: State, chain: seq<int>, date: int, l: DayLesson)
    returns (i: nat, id: int)
    requires WellFormed(env, s) && l in DayLessons(env, s, chain, date)
    ensures i < |chain| && Prevails(s, chain, date, i, id) && TellsOf(env, s, id, l)
  {
    DayLessonsSorted(env, s, chain, date);
    var v :| v in Shown(env, s, chain, date) && ToLesson(v) == l;
    id := v.id;
    i :| 0 <= i < |chain| && HeldBy(env, s, chain[i], date, KeyOf(v), v)
         && forall j | i < j < |chain| :: HoldersAt(env, s, chain[j], date, KeyOf(v)) == {};
    PrevailsIff(env, s, chain, date, i, id);
  }

  /** Every stored lesson that prevails is shown. */
  lemma {:induction false} StoredIsShown(env: Env, s: State, chain: seq<int>, date: int, i: nat, id: int)
    returns (l: DayLesson)
    requires WellFormed(env, s) && i < |chain| && Prevails(s, chain, date, i, id)
    ensures l in DayLessons(env, s, chain, date) && TellsOf(env, s, id, l)
  {
    var v := ViewOf(env, s, id);
    PrevailsIff(env, s, chain, date, i, id);
    ResolvedIsShown(env, s, chain, date, KeyOf(v), v);
    l := ToLesson(v);
    assert l in ShownLessons(env, s, chain, date);
    DayLessonsSorted(env, s, chain, date);
  }

  /** Lessons come by pair, that of the whole group before those of subgroups. */
  lemma {:induction false} ShownInOrder(env: Env, s: State, chain: seq<int>, date: int, i: nat, j: nat)
    requires WellFormed(env, s) && i < j < |DayLessons(env, s, chain, date)|
    ensures var a, b := DayLessons(env, s, chain, date)[i], DayLessons(env, s, chain, date)[j];
      && a.pair <= b.pair
      && (a.pair == b.pair ==> b.subgroup.Some? && (a.subgroup.Some? ==> a.subgroup.value < b.subgroup.value))
  {
    var lessons := DayLessons(env, s, chain, date);
    DayLessonsSorted(env, s, chain, date);
    var g, x := ShownTellsStored(env, s, chain, date, lessons[i]);
    var h, y := ShownTellsStored(env, s, chain, date, lessons[j]);
    assert ValidLesson(env.alphabet, s.lessons[x]) && ValidLesson(env.alphabet, s.lessons[y]);
    assert LessonLess(lessons[i], lessons[j]);
  }

  // ---------------------------------------------------------------- building

  type ByDay = map<int, map<Key, View>>

  function At(byDay: ByDay, date: int, key: Key): Option<View> {
    if date in byDay && key in byDay[date] then Some(byDay[date][key]) else None
  }

  /** The last row of a listing at a date and key. */
  function LastAt(rows: seq<View>, date: int, key: Key): Option<View> {
    if rows == [] then None
    else if rows[|rows| - 1].date == date && KeyOf(rows[|rows| - 1]) == key then Some(rows[|rows| - 1])
    else LastAt(rows[..|rows| - 1], date, key)
  }

  lemma {:induction false} LastAtFound(rows: seq<View>, date: int, key: Key)
    ensures match LastAt(rows, date, key)
      case None => forall k | 0 <= k < |rows| :: !(rows[k].date == date && KeyOf(rows[k]) == key)
      case Some(v) => exists k :: 0 <= k < |rows| && rows[k] == v && v.date == date && KeyOf(v) == key
                        && forall m | k < m < |rows| :: !(rows[m].date == date && KeyOf(rows[m]) == key)
  {
    if rows != [] {
      var last := |rows| - 1;
      LastAtFound(rows[..last], date, key);
      if rows[last].date == date && KeyOf(rows[last]) == key {
        assert rows[last] == rows[last];
      } else if LastAt(rows, date, key).Some? {
        var v := LastAt(rows, date, key).value;
        var k :| 0 <= k < last && rows[..last][k] == v && v.date == date && KeyOf(v) == key
                 && forall m | k < m < last :: !(rows[..last][m].date == date && KeyOf(rows[..last][m]) == key);
        assert rows[k] == v;
        assert forall m | k < m < |rows| :: m == last || rows[m] == rows[..last][m];
      } else {
        assert forall k | 0 <= k < |rows| :: k == last || rows[k] == rows[..last][k];
      }
    }
  }

  lemma {:induction false} HolderListed(
    env: Env, s: State, group: int, start: int, end: int, date: int, key: Key, v: View)
    requires start <= date <= end
    ensures v in HoldersAt(env, s, group, date, key) <==>
      v in Rows(env, s, group, start, end) && v.date == date && KeyOf(v) == key
  {
  }

  /** In a listing sorted with ids last, the last row at a key is the group's lesson there. */
  lemma {:induction false} LastAtIsHeld(env: Env, s: State, group: int, start: int, end: int, date: int, key: Key)
    requires start <= date <= end
    ensures match LastAt(Rows(env, s, group, start, end), date, key)
      case None => HoldersAt(env, s, group, date, key) == {}
      case Some(v) => HeldBy(env, s, group, date, key, v)
  {
    var rows := Rows(env, s, group, start, end);
    LastAtFound(rows, date, key);
    forall v
      ensures v in HoldersAt(env, s, group, date, key) <==> v in rows && v.date == date && KeyOf(v) == key
    {
      HolderListed(env, s, group, start, end, date, key, v);
    }
    if LastAt(rows, date, key).Some? {
      var v := LastAt(rows, date, key).value;
      var k :| 0 <= k < |rows| && rows[k] == v
               && forall m | k < m < |rows| :: !(rows[m].date == date && KeyOf(rows[m]) == key);
      assert v in rows;
      forall w | w in HoldersAt(env, s, group, date, key)
        ensures w.id <= v.id
      {
        var m :| 0 <= m < |rows| && rows[m] == w;
        assert m <= k;
        assert m < k ==> ViewLess(rows[m], rows[k]);
      }
    }
  }

  /** What the maps hold once some groups of the chain, base first, are laid over one another. */
  ghost predicate Overlaid(env: Env, s: State, chain: seq<int>, start: int, end: int, byDay: ByDay) {
    forall date, key | start <= date <= end ::
      match At(byDay, date, key)
      case None => forall i | 0 <= i < |chain| :: HoldersAt(env, s, chain[i], date, key) == {}
      case Some(v) => Resolved(env, s, chain, date, key, v)
  }

  function Over(upper: Option<View>, lower: Option<View>): Option<View> {
    if upper.Some? then upper else lower
  }

  ghost predicate LaidOver(rows: seq<View>, before: ByDay, after: ByDay) {
    forall date, key :: At(after, date, key) == Over(LastAt(rows, date, key), At(before, date, key))
  }

  lemma {:induction false} OneMoreGroup(
    env: Env, s: State, chain: seq<int>, group: int, start: int, end: int, before: ByDay, after: ByDay)
    requires Overlaid(env, s, chain, start, end, before)
    requires LaidOver(Rows(env, s, group, start, end), before, after)
    ensures Overlaid(env, s, chain + [group], start, end, after)
  {
    var longer := chain + [group];
    forall date, key | start <= date <= end
      ensures match At(after, date, key)
        case None => forall i | 0 <= i < |longer| :: HoldersAt(env, s, longer[i], date, key) == {}
        case Some(v) => Resolved(env, s, longer, date, key, v)
    {
      LastAtIsHeld(env, s, group, start, end, date, key);
      var last := LastAt(Rows(env, s, group, start, end), date, key);
      assert longer[|chain|] == group;
      if last.Some? {
        assert HeldBy(env, s, longer[|chain|], date, key, last.value);
      } else if At(before, date, key).Some? {
        ResolvedLonger(env, s, chain, group, date, key, At(before, date, key).value);
      }
    }
  }

  lemma {:induction false} ResolvedLonger(env: Env, s: State, chain: seq<int>, group: int, date: int, key: Key, v: View)
    requires Resolved(env, s, chain, date, key, v) && HoldersAt(env, s, group, date, key) == {}
    ensures Resolved(env, s, chain + [group], date, key, v)
  {
    var longer := chain + [group];
    var i :| 0 <= i < |chain| && HeldBy(env, s, chain[i], date, key, v)
             && forall j | i < j < |chain| :: HoldersAt(env, s, chain[j], date, key) == {};
    assert longer[i] == chain[i];
    forall j | i < j < |longer|
      ensures HoldersAt(env, s, longer[j], date, key) == {}
    {
      assert j < |chain| ==> longer[j] == chain[j];
    }
  }

  /** Lays one group's rows over what is there, row by row. */
  method Overlay(rows: seq<View>, before: ByDay) returns (after: ByDay)
    ensures LaidOver(rows, before, after)
  {
    after := before;
    for i := 0 to |rows|
      invariant LaidOver(rows[..i], before, after)
    {
      assert rows[..i + 1][..i] == rows[..i];
      var r := rows[i];
      if r.date !in after {
        after := after[r.date := map[]];
      }
      after := after[r.date := after[r.date][KeyOf(r) := r]];
    }
    assert rows[..|rows|] == rows;
  }

  /** The day's map holds exactly what the day shows. */
  lemma {:induction false} MapIsShown(
    env: Env, s: State, chain: seq<int>, start: int, end: int, date: int, byDay: ByDay)
    requires start <= date <= end && Overlaid(env, s, chain, start, end, byDay)
    ensures forall key | At(byDay, date, key).Some? :: KeyOf(At(byDay, date, key).value) == key
    ensures forall v :: v in Shown(env, s, chain, date) <==> At(byDay, date, KeyOf(v)) == Some(v)
  {
  }

  /** The map's lessons, in whatever order it yields them. */
  method Collect(slots: map<Key, View>) returns (found: seq<DayLesson>)
    requires forall key | key in slots :: KeyOf(slots[key]) == key
    ensures NoRepeats(found)
    ensures forall l :: l in found <==> exists key :: key in slots && l == ToLesson(slots[key])
  {
    found := [];
    var todo := slots.Keys;
    while todo != {}
      invariant todo <= slots.Keys
      invariant forall l | l in found :: Key(l.pair, SubgroupKey(l.subgroup)) in slots.Keys - todo
                                         && l == ToLesson(slots[Key(l.pair, SubgroupKey(l.subgroup))])
      invariant forall key | key in slots && key !in todo :: ToLesson(slots[key]) in found
      invariant NoRepeats(found)
      decreases |todo|
    {
      var key :| key in todo;
      todo := todo - {key};
      found := found + [ToLesson(slots[key])];
    }
  }

  /** One day's lessons: collected and sorted. */
  method CollectDay(
    env: Env, ghost s: State, ghost chain: seq<int>, ghost start: int, ghost end: int, date: int, byDay: ByDay)
    returns (lessons: seq<DayLesson>)
    requires WellFormed(env, s) && start <= date <= end
    requires Overlaid(env, s, chain, start, end, byDay)
    ensures lessons == DayLessons(env, s, chain, date)
  {
    var slots := if date in byDay then byDay[date] else map[];
    MapIsShown(env, s, chain, start, end, date, byDay);
    forall key | key in slots
      ensures KeyOf(slots[key]) == key && slots[key] in Shown(env, s, chain, date)
    {
      assert At(byDay, date, key) == Some(slots[key]);
    }
    var found := Collect(slots);
    forall l
      ensures l in found <==> l in ShownLessons(env, s, chain, date)
    {
      if l in ShownLessons(env, s, chain, date) {
        var v :| v in Shown(env, s, chain, date) && ToLesson(v) == l;
        assert At(byDay, date, KeyOf(v)) == Some(v);
      }
    }
    ShownLinear(env, s, chain, date);
    WeakFromLinear(ShownLessons(env, s, chain, date), found, LessonLess);
    lessons := Sort(found, LessonLess);
    SortedIsArranged(ShownLessons(env, s, chain, date), found, lessons, LessonLess);
  }

  /** Lays the groups of the chain over one another, base first. */
  method LayGroups(env: Env, s: State, chain: seq<int>, start: int, end: int) returns (byDay: ByDay)
    ensures Overlaid(env, s, chain, start, end, byDay)
  {
    byDay := map[];
    for i := 0 to |chain|
      invariant Overlaid(env, s, chain[..i], start, end, byDay)
    {
      var rows := ListLessonViews(env, s, chain[i], start, end);
      var over := Overlay(rows, byDay);
      OneMoreGroup(env, s, chain[..i], chain[i], start, end, byDay, over);
      assert chain[..i + 1] == chain[..i] + [chain[i]];
      byDay := over;
    }
    assert chain[..|chain|] == chain;
  }

  /** One entry for each day of the range. */
  method EmitDays(
    env: Env, ghost s: State, ghost chain: seq<int>, start: int, end: int, byDay: ByDay) returns (out: seq<Day>)
    requires WellFormed(env, s) && Overlaid(env, s, chain, start, end, byDay)
    ensures out == Days(env, s, chain, start, end)
  {
    out := [];
    var d := start;
    while d <= end
      invariant out == Days(env, s, chain, start, d - 1)
      invariant d == start || start <= d <= end + 1
    {
      var lessons := CollectDay(env, s, chain, start, end, d, byDay);
      assert Days(env, s, chain, start, d) == out + [Day(d, lessons)];
      out, d := out + [Day(d, lessons)], d + 1;
    }
  }

  method Build(env: Env, db: Tables, g: Groups, id: int, start: int, end: int) returns (r: Result<seq<Day>, GroupError>)
    requires WellFormed(env, db.Snapshot())
    ensures r == Schedule(env, db.Snapshot(), g, id, start, end)
  {
    if id !in g {
      return Result.Failure(GroupError.NotFound);
    }
    var chained := ScheduleInheritanceChainIDs(g, id);
    if chained.Failure? {
      return Result.Failure(chained.error);
    }
    var s := db.Snapshot();
    var byDay := LayGroups(env, s, chained.value, start, end);
    var out := EmitDays(env, s, chained.value, start, end, byDay);
    return Success(out);
  }
}
