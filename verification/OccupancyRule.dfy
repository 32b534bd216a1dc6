/** The occupancy rule told from the schedules themselves: who is warned, of which slot, and what the warning says. */
module OccupancyRule {
  import opened Wrappers
  import opened Store
  import opened Orders
  import opened BuildDays
  import opened Occupancy
  import opened OccupancyProperties
  import Text

  /** Lesson m of day k takes place at this time, in this room. */
  predicate TakesPlace(days: seq<Day>, slot: RoomSlot, k: nat, m: nat) {
    && k < |days| && m < |days[k].lessons| && days[k].date == slot.date
    && days[k].lessons[m].pair == slot.pair && days[k].lessons[m].location == Some(slot.location)
  }

  ghost predicate Taught(days: seq<Day>, slot: RoomSlot, l: DayLesson) {
    exists k: nat, m: nat :: TakesPlace(days, slot, k, m) && days[k].lessons[m] == l
  }

  ghost predicate InUseBy(all: Schedules, group: int, slot: RoomSlot) {
    group in all && exists l :: Taught(all[group], slot, l)
  }

  /** A pair and a room that count: the room is neither virtual nor of the type "online". */
  predicate RealSlot(env: Env, slot: RoomSlot) {
    && slot.pair > 0 && slot.location > 0
    && (slot.location in env.locations ==>
          !env.locations[slot.location].virtualKind && "online" !in env.locations[slot.location].types)
  }

  /** A gym or a pool in which there is nothing but sport. */
  ghost predicate SportOnly(env: Env, sport: set<string>, all: Schedules, slot: RoomSlot) {
    && slot.location in env.locations
    && ("gym" in env.locations[slot.location].types || "pool" in env.locations[slot.location].types)
    && forall g, l | g in all && Taught(all[g], slot, l) :: l.subjectName in sport
  }

  /** All lessons of the slot have one flow key, once trimmed and lower-cased, and it is not empty. */
  ghost predicate SharedBy(env: Env, all: Schedules, slot: RoomSlot, key: string) {
    && key != ""
    && forall g, l | g in all && Taught(all[g], slot, l) ::
         l.flow.Some? && Text.Lower(env.alphabet, Text.Trim(env.alphabet, l.flow.value)) == key
  }

  // -------------------------------------------------------------- lessons in a slot

  lemma {:induction false} HereIff(env: Env, days: seq<Day>, slot: RoomSlot, l: DayLesson)
    ensures l in Here(env, days, slot) <==> RealSlot(env, slot) && Taught(days, slot, l)
  {
    if days != [] {
      var init, last := days[..|days| - 1], days[|days| - 1];
      HereIff(env, init, slot, l);
      InSlotIff(env, last.date, last.lessons, slot, l);
      TaughtMore(init, last, slot, l);
      assert days == init + [last];
    }
  }

  lemma {:induction false} TaughtMore(days: seq<Day>, day: Day, slot: RoomSlot, l: DayLesson)
    ensures Taught(days + [day], slot, l) <==>
      || Taught(days, slot, l)
      || (day.date == slot.date && l in day.lessons && l.pair == slot.pair && l.location == Some(slot.location))
  {
    var more := days + [day];
    assert forall k: nat, m: nat | k < |days| :: TakesPlace(more, slot, k, m) <==> TakesPlace(days, slot, k, m);
    if Taught(days, slot, l) {
      var k: nat, m: nat :| TakesPlace(days, slot, k, m) && days[k].lessons[m] == l;
      assert TakesPlace(more, slot, k, m) && more[k].lessons[m] == l;
    }
    if day.date == slot.date && l in day.lessons && l.pair == slot.pair && l.location == Some(slot.location) {
      var m: nat :| m < |day.lessons| && day.lessons[m] == l;
      assert TakesPlace(more, slot, |days|, m) && more[|days|].lessons[m] == l;
    }
  }

  lemma {:induction false} GroupHereIff(env: Env, all: Schedules, g: int, slot: RoomSlot)
    ensures g in GroupsHere(env, all, slot) <==> RealSlot(env, slot) && InUseBy(all, g, slot)
    ensures forall l ::
      l in GroupHere(env, all, g, slot) <==> g in all && RealSlot(env, slot) && Taught(all[g], slot, l)
  {
    if g in all {
      forall l
        ensures l in Here(env, all[g], slot) <==> RealSlot(env, slot) && Taught(all[g], slot, l)
      {
        HereIff(env, all[g], slot, l);
      }
      if GroupHere(env, all, g, slot) != [] {
        assert GroupHere(env, all, g, slot)[0] in Here(env, all[g], slot);
      }
    }
  }

  // --------------------------------------------------------------------- the rule

  lemma {:induction false} SportIff(env: Env, sport: set<string>, all: Schedules, slot: RoomSlot)
    requires RealSlot(env, slot)
    ensures AtSport(env, sport, all, slot) <==> SportOnly(env, sport, all, slot)
  {
    forall g
      ensures forall l :: l in GroupHere(env, all, g, slot) <==> g in all && Taught(all[g], slot, l)
    {
      GroupHereIff(env, all, g, slot);
    }
  }

  lemma {:induction false} KeyIs(al: Text.Alphabet, flow: Option<string>, key: string)
    requires key != ""
    ensures Occupancy.Key(al, flow) == key <==> flow.Some? && Text.Lower(al, Text.Trim(al, flow.value)) == key
  {
    assert Text.Trim(al, "") == "";
  }

  lemma {:induction false} OneFlowIff(env: Env, all: Schedules, slot: RoomSlot)
    requires RealSlot(env, slot)
    ensures OneFlow(env, all, slot) <==> exists key :: SharedBy(env, all, slot, key)
  {
    forall key | key != ""
      ensures SameFlow(env, all, slot, key) <==> SharedBy(env, all, slot, key)
    {
      forall g, l | g in all
        ensures l in GroupHere(env, all, g, slot) <==> Taught(all[g], slot, l)
        ensures Occupancy.Key(env.alphabet, l.flow) == key <==>
          l.flow.Some? && Text.Lower(env.alphabet, Text.Trim(env.alphabet, l.flow.value)) == key
      {
        GroupHereIff(env, all, g, slot);
        KeyIs(env.alphabet, l.flow, key);
      }
    }
  }

  ghost predicate Clash(env: Env, sport: set<string>, all: Schedules, slot: RoomSlot) {
    && RealSlot(env, slot)
    && (exists a, b :: a != b && InUseBy(all, a, slot) && InUseBy(all, b, slot))
    && !SportOnly(env, sport, all, slot)
    && !exists key :: SharedBy(env, all, slot, key)
  }

  lemma {:induction false} ConflictIsClash(env: Env, sport: set<string>, all: Schedules, slot: RoomSlot)
    ensures Conflict(env, sport, all, slot) <==> Clash(env, sport, all, slot)
  {
    forall g
      ensures g in GroupsHere(env, all, slot) <==> RealSlot(env, slot) && InUseBy(all, g, slot)
    {
      GroupHereIff(env, all, g, slot);
    }
    if |GroupsHere(env, all, slot)| > 1 {
      var a, b := TwoOf(GroupsHere(env, all, slot));
    }
    if RealSlot(env, slot) {
      SportIff(env, sport, all, slot);
      OneFlowIff(env, all, slot);
      forall a, b | a != b && InUseBy(all, a, slot) && InUseBy(all, b, slot)
        ensures |GroupsHere(env, all, slot)| > 1
      {
        TwoHere(env, all, slot, a, b);
      }
    }
  }

  /**
   A group is warned of a slot exactly if it and another group are in that real room at that time, it
   is not all sport in a gym or pool, and the lessons there do not share a flow key.
   */
  lemma {:induction false} WarnedIff(env: Env, sport: set<string>, target: int, all: Schedules, slot: RoomSlot)
    ensures ReportsSlot(Warnings(env, sport, target, all), slot) <==>
      InUseBy(all, target, slot) && Clash(env, sport, all, slot)
  {
    var ws := Warnings(env, sport, target, all);
    GroupHereIff(env, all, target, slot);
    ConflictIsClash(env, sport, all, slot);
    if target in GroupsHere(env, all, slot) {
      ReportedIffConflict(env, sport, all, slot, target);
    } else if ReportsSlot(ws, slot) {
      var w :| w in ws && w.slot == slot;
      ReportedIff(env, sport, target, all, w);
      assert false;
    }
  }

  // --------------------------------------------------------------- what it says

  /** The lesson is the first one there in the order of the schedule. */
  ghost predicate FirstThere(days: seq<Day>, slot: RoomSlot, l: DayLesson) {
    exists k: nat, m: nat :: TakesPlace(days, slot, k, m) && days[k].lessons[m] == l && NoneBefore(days, slot, k, m)
  }

  ghost predicate NoneBefore(days: seq<Day>, slot: RoomSlot, k: nat, m: nat) {
    forall j: nat, n: nat | TakesPlace(days, slot, j, n) :: k < j || (k == j && m <= n)
  }

  lemma {:induction false} FirstInSlot(env: Env, date: int, lessons: seq<DayLesson>, slot: RoomSlot) returns (m: nat)
    requires InSlot(env, date, lessons, slot) != []
    ensures m < |lessons| && lessons[m] == InSlot(env, date, lessons, slot)[0]
    ensures lessons[m].pair == slot.pair && lessons[m].location == Some(slot.location) && date == slot.date
    ensures RealSlot(env, slot)
    ensures forall n | 0 <= n < m :: !(lessons[n].pair == slot.pair && lessons[n].location == Some(slot.location))
  {
    var init := lessons[..|lessons| - 1];
    if InSlot(env, date, init, slot) != [] {
      m := FirstInSlot(env, date, init, slot);
      assert forall n | 0 <= n <= m :: lessons[n] == init[n];
    } else {
      m := |lessons| - 1;
      forall n | 0 <= n < m && lessons[n].pair == slot.pair && lessons[n].location == Some(slot.location)
        ensures false
      {
        InSlotIff(env, date, init, slot, init[n]);
      }
    }
  }

  lemma {:induction false} FirstIsThere(env: Env, days: seq<Day>, slot: RoomSlot)
    requires Here(env, days, slot) != []
    ensures FirstThere(days, slot, Here(env, days, slot)[0])
  {
    var init, last := days[..|days| - 1], days[|days| - 1];
    assert forall k: nat, m: nat | k < |init| :: TakesPlace(days, slot, k, m) <==> TakesPlace(init, slot, k, m);
    if Here(env, init, slot) != [] {
      FirstIsThere(env, init, slot);
      var k: nat, m: nat :| TakesPlace(init, slot, k, m) && init[k].lessons[m] == Here(env, init, slot)[0]
                            && NoneBefore(init, slot, k, m);
      assert TakesPlace(days, slot, k, m) && NoneBefore(days, slot, k, m);
    } else {
      var m := FirstInSlot(env, last.date, last.lessons, slot);
      forall j: nat, n: nat | TakesPlace(days, slot, j, n)
        ensures |init| == j && m <= n
      {
        if j < |init| {
          HereIff(env, init, slot, init[j].lessons[n]);
          assert false;
        }
      }
      assert TakesPlace(days, slot, |init|, m) && NoneBefore(days, slot, |init|, m);
    }
  }

  /** A warning names the target's first lesson in the slot, and all groups there in increasing order. */
  lemma {:induction false} WarningTells(env: Env, sport: set<string>, target: int, all: Schedules, w: ConflictWarning)
    requires w in Warnings(env, sport, target, all)
    ensures target in all && FirstThere(all[target], w.slot, w.lesson)
    ensures forall g :: g in w.groups <==> InUseBy(all, g, w.slot)
    ensures forall i, j | 0 <= i < j < |w.groups| :: w.groups[i] < w.groups[j]
  {
    ReportedIff(env, sport, target, all, w);
    ConflictIsClash(env, sport, all, w.slot);
    FirstIsThere(env, all[target], w.slot);
    IntsLinear(GroupsHere(env, all, w.slot));
    forall g
      ensures g in w.groups <==> InUseBy(all, g, w.slot)
    {
      GroupHereIff(env, all, g, w.slot);
    }
    forall i, j | 0 <= i < j < |w.groups|
      ensures w.groups[i] < w.groups[j]
    {
      assert IntLess(w.groups[i], w.groups[j]);
    }
  }
}
