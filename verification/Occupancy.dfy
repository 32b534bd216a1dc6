/** The check that no room is used by two groups at once without a shared flow. */
module Occupancy {
  import opened Wrappers
  import opened Store
  import opened Orders
  import opened BuildDays
  import Text

  datatype RoomSlot = RoomSlot(date: int, pair: int, location: int)

  datatype Use = Use(group: int, lesson: DayLesson)

  /** A location_group_conflict warning: the target's lesson, and the groups that meet. */
  datatype ConflictWarning = ConflictWarning(slot: RoomSlot, lesson: DayLesson, groups: seq<int>)

  predicate SlotLess(a: RoomSlot, b: RoomSlot) {
    if a.date != b.date then a.date < b.date
    else if a.pair != b.pair then a.pair < b.pair
    else a.location < b.location
  }

  predicate IntLess(a: int, b: int) {
    a < b
  }

  // ------------------------------------------------------- lessons in a slot

  /** The lesson takes up a real room. */
  predicate Counts(env: Env, l: DayLesson) {
    l.location.Some? && l.location.value > 0 && l.pair > 0 && !IsVirtual(env, l.location.value)
  }

  function InSlot(env: Env, date: int, lessons: seq<DayLesson>, slot: RoomSlot): seq<DayLesson> {
    if lessons == [] then []
    else
      var l := lessons[|lessons| - 1];
      var before := InSlot(env, date, lessons[..|lessons| - 1], slot);
      if Counts(env, l) && RoomSlot(date, l.pair, l.location.value) == slot then before + [l] else before
  }

  /** A group's lessons in a slot, in the order of its schedule. */
  function Here(env: Env, days: seq<Day>, slot: RoomSlot): seq<DayLesson> {
    if days == [] then []
    else Here(env, days[..|days| - 1], slot) + InSlot(env, days[|days| - 1].date, days[|days| - 1].lessons, slot)
  }

  type Schedules = map<int, seq<Day>>

  function GroupHere(env: Env, all: Schedules, group: int, slot: RoomSlot): seq<DayLesson> {
    if group in all then Here(env, all[group], slot) else []
  }

  function Key(al: Text.Alphabet, flow: Option<string>): string {
    Text.Lower(al, Text.Trim(al, flow.Or("")))
  }

  function IsFacility(env: Env, location: int): bool {
    location in env.locations && ("gym" in env.locations[location].types || "pool" in env.locations[location].types)
  }

  // ------------------------------------------------------------- the verdict
  // sport is the set of subject names that mean physical education.

  function GroupsHere(env: Env, all: Schedules, slot: RoomSlot): set<int> {
    set g | g in all && GroupHere(env, all, g, slot) != []
  }

  /** The lessons of a slot share one flow with a name. */
  ghost predicate OneFlow(env: Env, all: Schedules, slot: RoomSlot) {
    exists key :: key != "" && SameFlow(env, all, slot, key)
  }

  ghost predicate SameFlow(env: Env, all: Schedules, slot: RoomSlot, key: string) {
    forall g, l | g in all && l in GroupHere(env, all, g, slot) :: Key(env.alphabet, l.flow) == key
  }

  ghost predicate OnlyPhysical(env: Env, sport: set<string>, all: Schedules, slot: RoomSlot) {
    forall g, l | g in all && l in GroupHere(env, all, g, slot) :: l.subjectName in sport
  }

  /** Two groups or more in one real room, neither all at sport in a gym or pool, nor all in one flow. */
  ghost predicate Conflict(env: Env, sport: set<string>, all: Schedules, slot: RoomSlot) {
    && |GroupsHere(env, all, slot)| > 1
    && !(IsFacility(env, slot.location) && OnlyPhysical(env, sport, all, slot))
    && !OneFlow(env, all, slot)
  }

  lemma {:induction false} IntsLinear(s: set<int>)
    ensures LinearOn(s, IntLess)
  {
  }

  ghost function WarningFor(
    env: Env, sport: set<string>, target: int, all: Schedules, slot: RoomSlot): seq<ConflictWarning>
  {
    if Conflict(env, sport, all, slot) && GroupHere(env, all, target, slot) != [] then
      IntsLinear(GroupsHere(env, all, slot));
      [ConflictWarning(slot, GroupHere(env, all, target, slot)[0], Arrange(GroupsHere(env, all, slot), IntLess))]
    else []
  }

  function SlotsOfLessons(env: Env, date: int, lessons: seq<DayLesson>): set<RoomSlot> {
    if lessons == [] then {}
    else
      var l := lessons[|lessons| - 1];
      SlotsOfLessons(env, date, lessons[..|lessons| - 1]) +
      if Counts(env, l) then {RoomSlot(date, l.pair, l.location.value)} else {}
  }

  function SlotsOf(env: Env, days: seq<Day>): set<RoomSlot> {
    if days == [] then {}
    else SlotsOf(env, days[..|days| - 1]) + SlotsOfLessons(env, days[|days| - 1].date, days[|days| - 1].lessons)
  }

  /** The slots some lesson takes up. */
  function UsedSlots(env: Env, all: Schedules): set<RoomSlot> {
    set g, slot | g in all && slot in SlotsOf(env, all[g]) :: slot
  }

  lemma {:induction false} InSlotUsed(env: Env, date: int, lessons: seq<DayLesson>, slot: RoomSlot)
    ensures slot in SlotsOfLessons(env, date, lessons) <==> InSlot(env, date, lessons, slot) != []
  {
    if lessons != [] {
      InSlotUsed(env, date, lessons[..|lessons| - 1], slot);
    }
  }

  lemma {:induction false} HereUsed(env: Env, days: seq<Day>, slot: RoomSlot)
    ensures slot in SlotsOf(env, days) <==> Here(env, days, slot) != []
  {
    if days != [] {
      HereUsed(env, days[..|days| - 1], slot);
      InSlotUsed(env, days[|days| - 1].date, days[|days| - 1].lessons, slot);
    }
  }

  lemma {:induction false} SlotUsed(env: Env, all: Schedules, slot: RoomSlot)
    ensures slot in UsedSlots(env, all) <==> GroupsHere(env, all, slot) != {}
  {
    forall g | g in all
      ensures slot in SlotsOf(env, all[g]) <==> g in GroupsHere(env, all, slot)
    {
      HereUsed(env, all[g], slot);
    }
    if GroupsHere(env, all, slot) != {} {
      var g := Member(GroupsHere(env, all, slot));
      assert slot in SlotsOf(env, all[g]);
    }
  }

  ghost function WarningsFor(
    env: Env, sport: set<string>, target: int, all: Schedules, slots: seq<RoomSlot>): seq<ConflictWarning>
  {
    if slots == [] then []
    else
      WarningsFor(env, sport, target, all, slots[..|slots| - 1]) +
      WarningFor(env, sport, target, all, slots[|slots| - 1])
  }

  lemma {:induction false} SlotsLinear(s: set<RoomSlot>)
    ensures LinearOn(s, SlotLess)
  {
  }

  /** One warning for each conflict the target takes part in, by date, pair and location. */
  ghost function Warnings(env: Env, sport: set<string>, target: int, all: Schedules): seq<ConflictWarning> {
    SlotsLinear(UsedSlots(env, all));
    WarningsFor(env, sport, target, all, Arrange(UsedSlots(env, all), SlotLess))
  }

  // ------------------------------------------------------------- collecting

  /** The lessons of one group among the uses of a slot, in order. */
  function ByGroup(uses: seq<Use>, group: int): seq<DayLesson> {
    if uses == [] then []
    else
      var u := uses[|uses| - 1];
      var before := ByGroup(uses[..|uses| - 1], group);
      if u.group == group then before + [u.lesson] else before
  }

  lemma {:induction false} ByGroupAppend(uses: seq<Use>, u: Use, group: int)
    ensures ByGroup(uses + [u], group) == ByGroup(uses, group) + if u.group == group then [u.lesson] else []
  {
  }

  type UsesBySlot = map<RoomSlot, seq<Use>>

  function UsesAt(uses: UsesBySlot, slot: RoomSlot): seq<Use> {
    if slot in uses then uses[slot] else []
  }

  /** For each slot and group, the map's uses are the group's lessons there. */
  ghost predicate Holding(env: Env, uses: UsesBySlot, all: Schedules) {
    && (forall slot | slot in uses :: uses[slot] != [])
    && (forall slot, group :: ByGroup(UsesAt(uses, slot), group) == GroupHere(env, all, group, slot))
  }

  predicate NoEmptyUses(uses: UsesBySlot) {
    forall slot | slot in uses :: uses[slot] != []
  }

  /** The group's lessons of one day have been appended slot by slot, and nothing else has changed. */
  ghost predicate DayAdded(
    env: Env, group: int, date: int, lessons: seq<DayLesson>, before: UsesBySlot, after: UsesBySlot)
  {
    forall slot, g :: ByGroup(UsesAt(after, slot), g) ==
                      ByGroup(UsesAt(before, slot), g) + if g == group then InSlot(env, date, lessons, slot) else []
  }

  ghost predicate DaysAdded(env: Env, group: int, days: seq<Day>, before: UsesBySlot, after: UsesBySlot) {
    forall slot, g :: ByGroup(UsesAt(after, slot), g) ==
                      ByGroup(UsesAt(before, slot), g) + if g == group then Here(env, days, slot) else []
  }

  lemma {:induction false} InSlotAppend(env: Env, date: int, lessons: seq<DayLesson>, i: nat, slot: RoomSlot)
    requires i < |lessons|
    ensures InSlot(env, date, lessons[..i + 1], slot) == InSlot(env, date, lessons[..i], slot) +
      if Counts(env, lessons[i]) && RoomSlot(date, lessons[i].pair, lessons[i].location.value) == slot
      then [lessons[i]] else []
  {
    assert lessons[..i + 1][..i] == lessons[..i];
  }

  lemma {:induction false} Uncounted(
    env: Env, group: int, date: int, lessons: seq<DayLesson>, i: nat, before: UsesBySlot, after: UsesBySlot)
    requires i < |lessons| && !Counts(env, lessons[i])
    requires DayAdded(env, group, date, lessons[..i], before, after)
    ensures DayAdded(env, group, date, lessons[..i + 1], before, after)
  {
    forall slot, g
      ensures ByGroup(UsesAt(after, slot), g) ==
              ByGroup(UsesAt(before, slot), g) + if g == group then InSlot(env, date, lessons[..i + 1], slot) else []
    {
      InSlotAppend(env, date, lessons, i, slot);
    }
  }

  lemma {:induction false} OneMoreUse(
    env: Env, group: int, date: int, lessons: seq<DayLesson>, i: nat, before: UsesBySlot, was: UsesBySlot,
    after: UsesBySlot)
    requires i < |lessons| && Counts(env, lessons[i])
    requires DayAdded(env, group, date, lessons[..i], before, was)
    requires var slot := RoomSlot(date, lessons[i].pair, lessons[i].location.value);
      after == was[slot := UsesAt(was, slot) + [Use(group, lessons[i])]]
    ensures DayAdded(env, group, date, lessons[..i + 1], before, after)
  {
    forall slot, g
      ensures ByGroup(UsesAt(after, slot), g) ==
              ByGroup(UsesAt(before, slot), g) + if g == group then InSlot(env, date, lessons[..i + 1], slot) else []
    {
      OneMoreUseAt(env, group, date, lessons, i, before, was, slot, g);
    }
  }

  lemma {:induction false} OneMoreUseAt(
    env: Env, group: int, date: int, lessons: seq<DayLesson>, i: nat, before: UsesBySlot, was: UsesBySlot,
    slot: RoomSlot, g: int)
    requires i < |lessons| && Counts(env, lessons[i])
    requires ByGroup(UsesAt(was, slot), g) ==
      ByGroup(UsesAt(before, slot), g) + if g == group then InSlot(env, date, lessons[..i], slot) else []
    ensures var own := RoomSlot(date, lessons[i].pair, lessons[i].location.value);
      ByGroup(if slot == own then UsesAt(was, slot) + [Use(group, lessons[i])] else UsesAt(was, slot), g) ==
        ByGroup(UsesAt(before, slot), g) + if g == group then InSlot(env, date, lessons[..i + 1], slot) else []
  {
    InSlotAppend(env, date, lessons, i, slot);
    ByGroupAppend(UsesAt(was, slot), Use(group, lessons[i]), g);
  }

  /** Adds one day's lessons of a group. */
  method AddDay(env: Env, group: int, day: Day, before: UsesBySlot) returns (after: UsesBySlot)
    requires NoEmptyUses(before)
    ensures NoEmptyUses(after) && DayAdded(env, group, day.date, day.lessons, before, after)
  {
    after := before;
    for i := 0 to |day.lessons|
      invariant NoEmptyUses(after) && DayAdded(env, group, day.date, day.lessons[..i], before, after)
    {
      var l := day.lessons[i];
      if l.location.None? || l.location.value <= 0 || l.pair <= 0 {
        Uncounted(env, group, day.date, day.lessons, i, before, after);
        continue;
      }
      if IsVirtual(env, l.location.value) {
        Uncounted(env, group, day.date, day.lessons, i, before, after);
        continue;
      }
      var slot := RoomSlot(day.date, l.pair, l.location.value);
      ghost var was := after;
      after := after[slot := UsesAt(after, slot) + [Use(group, l)]];
      OneMoreUse(env, group, day.date, day.lessons, i, before, was, after);
    }
    assert day.lessons[..|day.lessons|] == day.lessons;
  }

  method AddGroup(env: Env, group: int, days: seq<Day>, before: UsesBySlot) returns (after: UsesBySlot)
    requires NoEmptyUses(before)
    ensures NoEmptyUses(after) && DaysAdded(env, group, days, before, after)
  {
    after := before;
    for i := 0 to |days|
      invariant NoEmptyUses(after) && DaysAdded(env, group, days[..i], before, after)
    {
      assert days[..i + 1][..i] == days[..i];
      var more := AddDay(env, group, days[i], after);
      OneMoreDay(env, group, days, i, before, after, more);
      after := more;
    }
    assert days[..|days|] == days;
  }

  lemma {:induction false} OneMoreDay(
    env: Env, group: int, days: seq<Day>, i: nat, before: UsesBySlot, was: UsesBySlot, after: UsesBySlot)
    requires i < |days| && DaysAdded(env, group, days[..i], before, was)
    requires DayAdded(env, group, days[i].date, days[i].lessons, was, after)
    ensures DaysAdded(env, group, days[..i + 1], before, after)
  {
    assert days[..i + 1][..i] == days[..i];
    forall slot, g
      ensures ByGroup(UsesAt(after, slot), g) ==
              ByGroup(UsesAt(before, slot), g) + if g == group then Here(env, days[..i + 1], slot) else []
    {
      assert ByGroup(UsesAt(after, slot), g) ==
             ByGroup(UsesAt(was, slot), g) +
             if g == group then InSlot(env, days[i].date, days[i].lessons, slot) else [];
    }
  }

  /** Gathers every group's lessons by slot, taking the groups in whatever order the map yields them. */
  method Gather(env: Env, all: Schedules) returns (uses: UsesBySlot)
    ensures Holding(env, uses, all)
  {
    uses := map[];
    var todo := all.Keys;
    ghost var done: Schedules := map[];
    while todo != {}
      invariant todo <= all.Keys
      invariant done == map g | g in all && g !in todo :: all[g]
      invariant Holding(env, uses, done)
      decreases |todo|
    {
      HasMember(todo);
      var group :| group in todo;
      todo := todo - {group};
      var more := AddGroup(env, group, all[group], uses);
      HoldsOneMore(env, uses, more, done, group, all[group]);
      uses, done := more, done[group := all[group]];
    }
    assert done == all;
  }

  lemma {:induction false} HoldsOneMore(
    env: Env, before: UsesBySlot, after: UsesBySlot, done: Schedules, group: int, days: seq<Day>)
    requires Holding(env, before, done) && group !in done
    requires NoEmptyUses(after) && DaysAdded(env, group, days, before, after)
    ensures Holding(env, after, done[group := days])
  {
  }

  // --------------------------------------------------------------- judging

  lemma {:induction false} UseOfGroup(uses: seq<Use>, u: Use)
    requires u in uses
    ensures u.lesson in ByGroup(uses, u.group)
  {
    if u != uses[|uses| - 1] {
      assert uses == uses[..|uses| - 1] + [uses[|uses| - 1]];
      UseOfGroup(uses[..|uses| - 1], u);
    }
  }

  lemma {:induction false} LessonOfUse(uses: seq<Use>, group: int, l: DayLesson)
    requires l in ByGroup(uses, group)
    ensures Use(group, l) in uses
  {
    var last := uses[|uses| - 1];
    if last != Use(group, l) {
      LessonOfUse(uses[..|uses| - 1], group, l);
    }
  }

  method UniqueGroupIDs(uses: seq<Use>) returns (ids: seq<int>)
    ensures IntsLinearly(set u | u in uses :: u.group)
    ensures ids == Arrange(set u | u in uses :: u.group, IntLess)
  {
    var seen: set<int> := {};
    var list: seq<int> := [];
    for i := 0 to |uses|
      invariant seen == set u | u in uses[..i] :: u.group
    {
      assert uses[..i + 1] == uses[..i] + [uses[i]];
      seen := seen + {uses[i].group};
    }
    assert uses[..|uses|] == uses;
    var todo := seen;
    while todo != {}
      invariant todo <= seen && NoRepeats(list)
      invariant forall g :: g in list <==> g in seen && g !in todo
      decreases |todo|
    {
      HasMember(todo);
      var g :| g in todo;
      todo := todo - {g};
      list := list + [g];
    }
    IntsLinear(seen);
    WeakFromLinear(seen, list, IntLess);
    ids := Sort(list, IntLess);
    SortedIsArranged(seen, list, ids, IntLess);
  }

  ghost predicate IntsLinearly(s: set<int>) {
    LinearOn(s, IntLess)
  }

  method AllPhysical(sport: set<string>, uses: seq<Use>) returns (b: bool)
    ensures b <==> uses != [] && forall u | u in uses :: u.lesson.subjectName in sport
  {
    if uses == [] {
      return false;
    }
    for i := 0 to |uses|
      invariant forall u | u in uses[..i] :: u.lesson.subjectName in sport
    {
      if uses[i].lesson.subjectName !in sport {
        return false;
      }
      assert uses[..i + 1] == uses[..i] + [uses[i]];
    }
    assert uses[..|uses|] == uses;
    return true;
  }

  /** All the uses have the given key. */
  ghost predicate AllKeyed(al: Text.Alphabet, uses: seq<Use>, key: string) {
    forall u | u in uses :: Key(al, u.lesson.flow) == key
  }

  /** One pass with a remembered key. */
  method EntriesHaveSharedFlow(env: Env, uses: seq<Use>) returns (b: bool)
    ensures b <==> uses != [] && exists key :: key != "" && AllKeyed(env.alphabet, uses, key)
  {
    var flow := "";
    for i := 0 to |uses|
      invariant AllKeyed(env.alphabet, uses[..i], flow)
      invariant i > 0 <==> flow != ""
    {
      var key := Key(env.alphabet, uses[i].lesson.flow);
      assert uses[i] in uses;
      if key == "" {
        return false;
      }
      assert uses[..i + 1] == uses[..i] + [uses[i]];
      if flow == "" {
        flow := key;
        continue;
      }
      if key != flow {
        assert uses[..i][0] in uses[..i] && uses[0] in uses;
        return false;
      }
    }
    assert uses[..|uses|] == uses;
    return flow != "";
  }

  /** The uses of a slot are the lessons of the groups there. */
  lemma {:induction false} UsesTell(env: Env, uses: UsesBySlot, all: Schedules, slot: RoomSlot, u: Use)
    requires Holding(env, uses, all)
    ensures u in UsesAt(uses, slot) <==> u.lesson in GroupHere(env, all, u.group, slot)
  {
    var at := UsesAt(uses, slot);
    if u in at {
      UseOfGroup(at, u);
    }
    if u.lesson in ByGroup(at, u.group) {
      LessonOfUse(at, u.group, u.lesson);
      assert Use(u.group, u.lesson) == u;
    }
  }

  lemma {:induction false} GroupsTell(env: Env, uses: UsesBySlot, all: Schedules, slot: RoomSlot)
    requires Holding(env, uses, all)
    ensures (set u | u in UsesAt(uses, slot) :: u.group) == GroupsHere(env, all, slot)
    ensures slot in uses <==> slot in UsedSlots(env, all)
  {
    var at := UsesAt(uses, slot);
    forall u | u in at
      ensures u.group in GroupsHere(env, all, slot)
    {
      UsesTell(env, uses, all, slot, u);
    }
    forall g | g in GroupsHere(env, all, slot)
      ensures exists u :: u in at && u.group == g
    {
      var l := GroupHere(env, all, g, slot)[0];
      UsesTell(env, uses, all, slot, Use(g, l));
      assert Use(g, l) in at;
    }
    SlotUsed(env, all, slot);
    if at != [] {
      assert at[0] in at;
      assert at[0].group in GroupsHere(env, all, slot);
    }
    if GroupsHere(env, all, slot) != {} {
      var g := Member(GroupsHere(env, all, slot));
      assert exists u :: u in at && u.group == g;
      assert at != [];
    }
  }

  lemma {:induction false} ExemptionsTell(
    env: Env, sport: set<string>, uses: UsesBySlot, all: Schedules, slot: RoomSlot)
    requires Holding(env, uses, all) && slot in uses
    ensures OnlyPhysical(env, sport, all, slot) <==> forall u | u in uses[slot] :: u.lesson.subjectName in sport
    ensures OneFlow(env, all, slot) <==> exists key :: key != "" && AllKeyed(env.alphabet, uses[slot], key)
  {
    forall u
      ensures u in uses[slot] <==> u.lesson in GroupHere(env, all, u.group, slot)
    {
      UsesTell(env, uses, all, slot, u);
    }
    forall g, l | g in all && l in GroupHere(env, all, g, slot)
      ensures Use(g, l) in uses[slot]
    {
      UsesTell(env, uses, all, slot, Use(g, l));
    }
    forall key
      ensures SameFlow(env, all, slot, key) <==> AllKeyed(env.alphabet, uses[slot], key)
    {
      if AllKeyed(env.alphabet, uses[slot], key) {
        forall g, l | g in all && l in GroupHere(env, all, g, slot)
          ensures Key(env.alphabet, l.flow) == key
        {
          assert Use(g, l) in uses[slot];
        }
      }
    }
    if forall u | u in uses[slot] :: u.lesson.subjectName in sport {
      forall g, l | g in all && l in GroupHere(env, all, g, slot)
        ensures l.subjectName in sport
      {
        assert Use(g, l) in uses[slot];
      }
    }
  }

  /** The target's first lesson among the uses. */
  method FirstOf(uses: seq<Use>, target: int) returns (l: Option<DayLesson>)
    ensures l == if ByGroup(uses, target) == [] then None else Some(ByGroup(uses, target)[0])
  {
    for i := 0 to |uses|
      invariant ByGroup(uses[..i], target) == []
    {
      assert uses[..i + 1][..i] == uses[..i];
      if uses[i].group == target {
        FirstStays(uses, target, i + 1);
        return Some(uses[i].lesson);
      }
    }
    assert uses[..|uses|] == uses;
    return None;
  }

  lemma {:induction false} FirstStays(uses: seq<Use>, target: int, i: nat)
    requires i <= |uses| && ByGroup(uses[..i], target) != []
    ensures ByGroup(uses, target) != [] && ByGroup(uses, target)[0] == ByGroup(uses[..i], target)[0]
    decreases |uses|
  {
    if i < |uses| {
      var init := uses[..|uses| - 1];
      assert init[..i] == uses[..i];
      FirstStays(init, target, i);
    } else {
      assert uses[..i] == uses;
    }
  }

  /** One slot's turn in the loop. */
  method JudgeSlot(env: Env, sport: set<string>, target: int, ghost all: Schedules, uses: UsesBySlot, slot: RoomSlot)
    returns (w: seq<ConflictWarning>)
    requires Holding(env, uses, all) && slot in uses
    ensures w == WarningFor(env, sport, target, all, slot)
  {
    GroupsTell(env, uses, all, slot);
    ExemptionsTell(env, sport, uses, all, slot);
    var groups := UniqueGroupIDs(uses[slot]);
    if |groups| <= 1 {
      return [];
    }
    if IsFacility(env, slot.location) {
      var physical := AllPhysical(sport, uses[slot]);
      if physical {
        return [];
      }
    }
    var shared := EntriesHaveSharedFlow(env, uses[slot]);
    if shared {
      return [];
    }
    var lesson := FirstOf(uses[slot], target);
    assert ByGroup(UsesAt(uses, slot), target) == GroupHere(env, all, target, slot);
    if lesson.None? {
      return [];
    }
    return [ConflictWarning(slot, lesson.value, groups)];
  }

  method SortedSlots(env: Env, ghost all: Schedules, uses: UsesBySlot) returns (slots: seq<RoomSlot>)
    requires Holding(env, uses, all)
    ensures LinearOn(UsedSlots(env, all), SlotLess) && slots == Arrange(UsedSlots(env, all), SlotLess)
    ensures forall slot | slot in slots :: slot in uses
  {
    var list: seq<RoomSlot> := [];
    var todo := uses.Keys;
    while todo != {}
      invariant todo <= uses.Keys && NoRepeats(list)
      invariant forall slot :: slot in list <==> slot in uses && slot !in todo
      decreases |todo|
    {
      var slot :| slot in todo;
      todo := todo - {slot};
      list := list + [slot];
    }
    forall slot
      ensures slot in uses <==> slot in UsedSlots(env, all)
    {
      GroupsTell(env, uses, all, slot);
    }
    SlotsLinear(UsedSlots(env, all));
    WeakFromLinear(UsedSlots(env, all), list, SlotLess);
    slots := Sort(list, SlotLess);
    SortedIsArranged(UsedSlots(env, all), list, slots, SlotLess);
  }

  lemma {:induction false} NextWarning(
    env: Env, sport: set<string>, target: int, all: Schedules, slots: seq<RoomSlot>, i: nat)
    requires i < |slots|
    ensures WarningsFor(env, sport, target, all, slots[..i + 1]) ==
      WarningsFor(env, sport, target, all, slots[..i]) + WarningFor(env, sport, target, all, slots[i])
  {
    assert slots[..i + 1][..i] == slots[..i];
  }

  method ValidateLocationOccupancyRules(env: Env, sport: set<string>, target: int, all: Schedules)
    returns (warnings: seq<ConflictWarning>)
    ensures warnings == Warnings(env, sport, target, all)
  {
    var uses := Gather(env, all);
    var slots := SortedSlots(env, all, uses);
    warnings := [];
    for i := 0 to |slots|
      invariant warnings == WarningsFor(env, sport, target, all, slots[..i])
    {
      NextWarning(env, sport, target, all, slots, i);
      var w := JudgeSlot(env, sport, target, all, uses, slots[i]);
      warnings := warnings + w;
    }
    assert slots[..|slots|] == slots;
  }
}
