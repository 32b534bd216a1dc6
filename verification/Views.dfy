/** Lessons joined with subject names and published rooms, in the order the readers list them. */
module Views {
  import opened Wrappers
  import opened Store
  import opened Orders

  datatype View = View(
    id: int,
    group: int,
    date: int,
    pair: int,
    subgroup: Option<int>,
    subject: Option<int>,
    subjectName: string,
    teacher: Option<int>,
    location: Option<int>,
    format: Format,
    source: Source,
    flow: Option<string>)

  function ViewOf(env: Env, s: State, id: int): View
    requires id in s.lessons
  {
    var l := s.lessons[id];
    View(id, l.group, l.date, l.pair, l.subgroup, l.subject,
         if l.subject.Some? && l.subject.value in env.subjectNames then env.subjectNames[l.subject.value] else "",
         l.teacher,
         if id in s.rooms && s.rooms[id].status == Published then Some(s.rooms[id].location) else None,
         l.format, l.source, l.flow)
  }

  /** By date, pair, subgroup (none first), group and id. */
  predicate ViewLess(a: View, b: View) {
    if a.date != b.date then a.date < b.date
    else if a.pair != b.pair then a.pair < b.pair
    else if SubgroupKey(a.subgroup) != SubgroupKey(b.subgroup) then SubgroupKey(a.subgroup) < SubgroupKey(b.subgroup)
    else if a.group != b.group then a.group < b.group
    else a.id < b.id
  }

  predicate Listed(s: State, id: int, group: int, start: int, end: int) {
    id in s.lessons && Active(s.lessons[id]) && s.lessons[id].group == group && start <= s.lessons[id].date <= end
  }

  ghost function ViewsBetween(env: Env, s: State, group: int, start: int, end: int): set<View> {
    set id | id in s.lessons && Listed(s, id, group, start, end) :: ViewOf(env, s, id)
  }

  lemma {:induction false} ViewsLinear(env: Env, s: State, group: int, start: int, end: int)
    ensures LinearOn(ViewsBetween(env, s, group, start, end), ViewLess)
  {
  }

  /** The active lessons of one group between two days, in listing order. */
  ghost function Rows(env: Env, s: State, group: int, start: int, end: int): (rows: seq<View>)
    ensures Increasing(rows, ViewLess)
    ensures forall v :: v in rows <==> v in ViewsBetween(env, s, group, start, end)
  {
    ViewsLinear(env, s, group, start, end);
    Arrange(ViewsBetween(env, s, group, start, end), ViewLess)
  }

  /** The listing query: the table's rows come in any order and are then sorted. */
  method ListLessonViews(env: Env, s: State, group: int, start: int, end: int) returns (rows: seq<View>)
    ensures rows == Rows(env, s, group, start, end)
  {
    var found: seq<View> := [];
    var todo := s.lessons.Keys;
    while todo != {}
      invariant todo <= s.lessons.Keys
      invariant NoRepeats(found)
      invariant forall v :: v in found <==>
        (v.id in s.lessons && v.id !in todo && Listed(s, v.id, group, start, end) && v == ViewOf(env, s, v.id))
      decreases |todo|
    {
      HasMember(todo);
      var id :| id in todo;
      todo := todo - {id};
      if Active(s.lessons[id]) && s.lessons[id].group == group && start <= s.lessons[id].date <= end {
        assert ViewOf(env, s, id) !in found;
        found := found + [ViewOf(env, s, id)];
      }
    }
    ViewsLinear(env, s, group, start, end);
    WeakFromLinear(ViewsBetween(env, s, group, start, end), found, ViewLess);
    rows := Sort(found, ViewLess);
    SortedIsArranged(ViewsBetween(env, s, group, start, end), found, rows, ViewLess);
  }

  /** The row is the stored lesson, with its subject's name and its published room. */
  predicate RowTells(env: Env, s: State, id: int, v: View)
    requires id in s.lessons
  {
    var stored := s.lessons[id];
    && v.id == id && v.group == stored.group && v.date == stored.date && v.pair == stored.pair
    && v.subgroup == stored.subgroup && v.subject == stored.subject && v.teacher == stored.teacher
    && v.format == stored.format && v.source == stored.source && v.flow == stored.flow
    && v.subjectName == (if stored.subject.Some? && stored.subject.value in env.subjectNames
                         then env.subjectNames[stored.subject.value] else "")
    && v.location == (if id in s.rooms && s.rooms[id].status == Published
                      then Some(s.rooms[id].location) else None)
  }

  /** A listing has one row for each active lesson of the group between the two days, and no other row. */
  lemma {:induction false} RowsAreStored(env: Env, s: State, group: int, start: int, end: int)
    ensures var rows := Rows(env, s, group, start, end);
      && (forall v | v in rows :: v.id in s.lessons && RowTells(env, s, v.id, v))
      && (forall i, j | 0 <= i < j < |rows| :: rows[i].id != rows[j].id)
      && forall id | id in s.lessons ::
           (exists v :: v in rows && v.id == id) <==>
           s.lessons[id].status != Cancelled && s.lessons[id].group == group && start <= s.lessons[id].date <= end
  {
    var rows := Rows(env, s, group, start, end);
    forall i, j | 0 <= i < j < |rows|
      ensures rows[i].id != rows[j].id
    {
      assert ViewLess(rows[i], rows[j]);
      assert rows[i] in rows && rows[j] in rows;
    }
    forall id | id in s.lessons && Listed(s, id, group, start, end)
      ensures ViewOf(env, s, id) in rows
    {
    }
  }

  /** Rows come by date, then pair, then subgroup with none first, then id. */
  lemma {:induction false} RowsInOrder(env: Env, s: State, group: int, start: int, end: int, i: nat, j: nat)
    requires WellFormed(env, s) && i < j < |Rows(env, s, group, start, end)|
    ensures var a, b := Rows(env, s, group, start, end)[i], Rows(env, s, group, start, end)[j];
      && a.date <= b.date
      && (a.date == b.date ==> a.pair <= b.pair)
      && (a.date == b.date && a.pair == b.pair && a.subgroup != b.subgroup ==>
            b.subgroup.Some? && (a.subgroup.Some? ==> a.subgroup.value < b.subgroup.value))
      && (a.date == b.date && a.pair == b.pair && a.subgroup == b.subgroup ==> a.id < b.id)
  {
    var rows := Rows(env, s, group, start, end);
    assert rows[i] in rows && rows[j] in rows && ViewLess(rows[i], rows[j]);
    assert ValidSubgroup(rows[i].subgroup) && ValidSubgroup(rows[j].subgroup);
  }
}
