/**
 What the occupancy check reports, and why it reports nothing while the write path keeps rooms exclusive.
 */
module OccupancyProperties {
  import opened Wrappers
  import opened Store
  import opened Orders
  import opened Views
  import opened Inheritance
  import opened BuildDays
  import opened Occupancy
  import opened RoomExclusivity
  import opened Runs
  import Text

  // ---------------------------------------------------------- what is reported

  /** What a rule says of some slots, one after the other. */
  ghost function Along(rule: RoomSlot -> seq<ConflictWarning>, slots: seq<RoomSlot>): seq<ConflictWarning> {
    if slots == [] then [] else Along(rule, slots[..|slots| - 1]) + rule(slots[|slots| - 1])
  }

  lemma {:induction false} AlongMember(
    rule: RoomSlot -> seq<ConflictWarning>, slots: seq<RoomSlot>, w: ConflictWarning)
    requires forall slot :: |rule(slot)| <= 1 && (rule(slot) != [] ==> rule(slot)[0].slot == slot)
    ensures w in Along(rule, slots) <==> w.slot in slots && rule(w.slot) == [w]
  {
    if slots != [] {
      var init, last := slots[..|slots| - 1], slots[|slots| - 1];
      assert slots == init + [last];
      AlongMember(rule, init, w);
    }
  }

  ghost function Rule(env: Env, sport: set<string>, target: int, all: Schedules): RoomSlot -> seq<ConflictWarning> {
    slot => WarningFor(env, sport, target, all, slot)
  }

  lemma {:induction false} WarningsAreAlong(
    env: Env, sport: set<string>, target: int, all: Schedules, slots: seq<RoomSlot>)
    ensures WarningsFor(env, sport, target, all, slots) == Along(Rule(env, sport, target, all), slots)
  {
    if slots != [] {
      WarningsAreAlong(env, sport, target, all, slots[..|slots| - 1]);
    }
  }

  lemma {:induction false} WarningsAlong(
    env: Env, sport: set<string>, target: int, all: Schedules, slots: seq<RoomSlot>, w: ConflictWarning)
    ensures w in WarningsFor(env, sport, target, all, slots) <==>
      w.slot in slots && WarningFor(env, sport, target, all, w.slot) == [w]
  {
    var rule := Rule(env, sport, target, all);
    forall slot
      ensures |rule(slot)| <= 1 && (rule(slot) != [] ==> rule(slot)[0].slot == slot)
    {
      WarningShape(env, sport, target, all, slot);
    }
    WarningsAreAlong(env, sport, target, all, slots);
    AlongMember(rule, slots, w);
  }

  /**
   A slot is reported exactly if it is a conflict the target takes part in, and then with the
   target's first lesson there and all the groups that meet, in order.
   */
  lemma {:induction false} ReportedIff(env: Env, sport: set<string>, target: int, all: Schedules, w: ConflictWarning)
    ensures w in Warnings(env, sport, target, all) <==> WarningFor(env, sport, target, all, w.slot) == [w]
  {
    SlotsLinear(UsedSlots(env, all));
    var slots := Arrange(UsedSlots(env, all), SlotLess);
    WarningsAlong(env, sport, target, all, slots, w);
    if WarningFor(env, sport, target, all, w.slot) == [w] {
      SlotUsed(env, all, w.slot);
      assert target in GroupsHere(env, all, w.slot);
    }
  }

  lemma {:induction false} WarningsIncrease(
    env: Env, sport: set<string>, target: int, all: Schedules, slots: seq<RoomSlot>, n: nat, i: nat, j: nat)
    requires Increasing(slots, SlotLess) && n <= |slots|
    requires i < j < |WarningsFor(env, sport, target, all, slots[..n])|
    ensures var ws := WarningsFor(env, sport, target, all, slots[..n]); SlotLess(ws[i].slot, ws[j].slot)
    decreases n
  {
    NextWarning(env, sport, target, all, slots, n - 1);
    WarningShape(env, sport, target, all, slots[n - 1]);
    var before := WarningsFor(env, sport, target, all, slots[..n - 1]);
    if j < |before| {
      WarningsIncrease(env, sport, target, all, slots, n - 1, i, j);
    } else {
      EarlierSlot(env, sport, target, all, slots, n - 1, before[i]);
    }
  }

  lemma {:induction false} WarningShape(env: Env, sport: set<string>, target: int, all: Schedules, slot: RoomSlot)
    ensures var w := WarningFor(env, sport, target, all, slot); |w| <= 1 && (w != [] ==> w[0].slot == slot)
  {
  }

  lemma {:induction false} EarlierSlot(
    env: Env, sport: set<string>, target: int, all: Schedules, slots: seq<RoomSlot>, n: nat, w: ConflictWarning)
    requires Increasing(slots, SlotLess) && n < |slots|
    requires w in WarningsFor(env, sport, target, all, slots[..n])
    ensures SlotLess(w.slot, slots[n])
  {
    WarningsAlong(env, sport, target, all, slots[..n], w);
    var k :| 0 <= k < n && slots[..n][k] == w.slot;
    assert SlotLess(slots[k], slots[n]);
  }

  /** Warnings come by date, pair and location, one to a slot. */
  lemma {:induction false} OneWarningPerSlot(env: Env, sport: set<string>, target: int, all: Schedules, i: nat, j: nat)
    requires i < j < |Warnings(env, sport, target, all)|
    ensures var ws := Warnings(env, sport, target, all); SlotLess(ws[i].slot, ws[j].slot) && ws[i].slot != ws[j].slot
  {
    SlotsLinear(UsedSlots(env, all));
    var slots := Arrange(UsedSlots(env, all), SlotLess);
    assert slots[..|slots|] == slots;
    WarningsIncrease(env, sport, target, all, slots, |slots|, i, j);
  }

  ghost predicate ReportsSlot(ws: seq<ConflictWarning>, slot: RoomSlot) {
    exists w :: w in ws && w.slot == slot
  }

  /** A slot is reported to one of the groups in it exactly if it is reported to each of them. */
  lemma {:induction false} ReportedToAll(env: Env, sport: set<string>, all: Schedules, slot: RoomSlot, a: int, b: int)
    requires a in GroupsHere(env, all, slot) && b in GroupsHere(env, all, slot)
    ensures ReportsSlot(Warnings(env, sport, a, all), slot) <==> Conflict(env, sport, all, slot)
    ensures ReportsSlot(Warnings(env, sport, a, all), slot) <==> ReportsSlot(Warnings(env, sport, b, all), slot)
  {
    ReportedIffConflict(env, sport, all, slot, a);
    ReportedIffConflict(env, sport, all, slot, b);
  }

  lemma {:induction false} ReportedIffConflict(env: Env, sport: set<string>, all: Schedules, slot: RoomSlot, group: int)
    requires group in GroupsHere(env, all, slot)
    ensures ReportsSlot(Warnings(env, sport, group, all), slot) <==> Conflict(env, sport, all, slot)
  {
    var ws := Warnings(env, sport, group, all);
    if ReportsSlot(ws, slot) {
      var w :| w in ws && w.slot == slot;
      ReportedIff(env, sport, group, all, w);
    }
    if Conflict(env, sport, all, slot) {
      var w := WarningFor(env, sport, group, all, slot)[0];
      ReportedIff(env, sport, group, all, w);
    }
  }

  /** The lessons of two groups in a slot all have one and the same key. */
  ghost predicate PairShares(env: Env, all: Schedules, slot: RoomSlot, a: int, b: int) {
    forall l, m | l in GroupHere(env, all, a, slot) && m in GroupHere(env, all, b, slot) ::
      Occupancy.Key(env.alphabet, l.flow) == Occupancy.Key(env.alphabet, m.flow) != ""
  }

  /** Lessons of different groups that meet share their key, wherever they are not all at sport. */
  ghost predicate MeetingsShare(env: Env, sport: set<string>, all: Schedules) {
    forall slot, a, b | a != b && !AtSport(env, sport, all, slot) :: PairShares(env, all, slot, a, b)
  }

  ghost predicate AtSport(env: Env, sport: set<string>, all: Schedules, slot: RoomSlot) {
    IsFacility(env, slot.location) && OnlyPhysical(env, sport, all, slot)
  }

  lemma {:induction false} SharedKey(
    env: Env, all: Schedules, slot: RoomSlot, a: int, l: DayLesson, b: int, m: DayLesson)
    requires l in GroupHere(env, all, a, slot) && m in GroupHere(env, all, b, slot) && PairShares(env, all, slot, a, b)
    ensures Occupancy.Key(env.alphabet, l.flow) == Occupancy.Key(env.alphabet, m.flow) != ""
  {
  }

  lemma {:induction false} SharingIsNoConflict(env: Env, sport: set<string>, all: Schedules, slot: RoomSlot)
    requires MeetingsShare(env, sport, all)
    ensures !Conflict(env, sport, all, slot)
  {
    if |GroupsHere(env, all, slot)| > 1 && !AtSport(env, sport, all, slot) {
      var a, b := TwoOf(GroupsHere(env, all, slot));
      var l, m := GroupHere(env, all, a, slot)[0], GroupHere(env, all, b, slot)[0];
      assert PairShares(env, all, slot, a, b);
      SharedKey(env, all, slot, a, l, b, m);
      forall g, x | g in all && x in GroupHere(env, all, g, slot)
        ensures Occupancy.Key(env.alphabet, x.flow) == Occupancy.Key(env.alphabet, l.flow)
      {
        if g == a {
          assert PairShares(env, all, slot, g, b);
          SharedKey(env, all, slot, g, x, b, m);
        } else {
          assert PairShares(env, all, slot, a, g);
          SharedKey(env, all, slot, a, l, g, x);
        }
      }
      assert SameFlow(env, all, slot, Occupancy.Key(env.alphabet, l.flow));
    }
  }

  lemma {:induction false} TwoOf(groups: set<int>) returns (a: int, b: int)
    requires |groups| > 1
    ensures a in groups && b in groups && a != b
  {
    a := Member(groups);
    assert |groups - {a}| == |groups| - 1;
    b := Member(groups - {a});
  }

  lemma {:induction false} TwoHere(env: Env, all: Schedules, slot: RoomSlot, a: int, b: int)
    requires a in GroupsHere(env, all, slot) && b in GroupsHere(env, all, slot) && a != b
    ensures |GroupsHere(env, all, slot)| > 1
  {
    SubsetSize({a, b}, GroupsHere(env, all, slot));
  }

  /** Nobody is warned exactly if lessons of different groups that meet share a key, or are at sport. */
  lemma {:induction false} SilentIff(env: Env, sport: set<string>, all: Schedules)
    ensures (forall target :: Warnings(env, sport, target, all) == []) <==> MeetingsShare(env, sport, all)
  {
    if MeetingsShare(env, sport, all) {
      forall target
        ensures Warnings(env, sport, target, all) == []
      {
        var ws := Warnings(env, sport, target, all);
        if ws != [] {
          assert ws[0] in ws;
          ReportedIff(env, sport, target, all, ws[0]);
          SharingIsNoConflict(env, sport, all, ws[0].slot);
          assert false;
        }
      }
    }
    if forall target :: Warnings(env, sport, target, all) == [] {
      forall slot, a, b | a != b && !AtSport(env, sport, all, slot)
        ensures PairShares(env, all, slot, a, b)
      {
        SilenceShares(env, sport, all, slot, a, b);
      }
    }
  }

  lemma {:induction false} SilenceShares(env: Env, sport: set<string>, all: Schedules, slot: RoomSlot, a: int, b: int)
    requires a != b && Warnings(env, sport, a, all) == [] && !AtSport(env, sport, all, slot)
    ensures PairShares(env, all, slot, a, b)
  {
    if a in GroupsHere(env, all, slot) && b in GroupsHere(env, all, slot) {
      ReportedIffConflict(env, sport, all, slot, a);
      TwoHere(env, all, slot, a, b);
      assert OneFlow(env, all, slot);
    }
  }

  // ------------------------------------------- agreement with the write path

  /** The group each schedule belongs to, and those it is laid over. */
  type Chains = map<int, seq<int>>

  ghost predicate LaidOver(env: Env, s: State, chains: Chains, start: int, end: int, all: Schedules) {
    && WellFormed(env, s) && all.Keys == chains.Keys
    && forall g | g in all :: all[g] == Days(env, s, chains[g], start, end)
  }

  /** A day over the chain shows the stored lesson in the slot. */
  ghost predicate Shows(env: Env, s: State, chain: seq<int>, slot: RoomSlot, id: int) {
    && id in s.lessons && ViewOf(env, s, id) in Shown(env, s, chain, slot.date)
    && InUse(s, id) && s.rooms[id].location > 0 && s.lessons[id].pair > 0 && !IsVirtual(env, slot.location)
    && slot == RoomSlot(s.lessons[id].date, s.lessons[id].pair, s.rooms[id].location)
  }

  lemma {:induction false} InSlotIff(env: Env, date: int, lessons: seq<DayLesson>, slot: RoomSlot, l: DayLesson)
    ensures l in InSlot(env, date, lessons, slot) <==>
      l in lessons && Counts(env, l) && slot == RoomSlot(date, l.pair, l.location.value)
  {
    if lessons != [] {
      InSlotIff(env, date, lessons[..|lessons| - 1], slot, l);
      assert lessons == lessons[..|lessons| - 1] + [lessons[|lessons| - 1]];
    }
  }

  /** Every lesson a day shows in a slot is a stored one it shows there, and the other way round. */
  lemma {:induction false} DayTells(env: Env, s: State, chain: seq<int>, date: int, slot: RoomSlot, l: DayLesson)
    requires WellFormed(env, s)
    ensures l in InSlot(env, date, DayLessons(env, s, chain, date), slot) <==>
      slot.date == date && exists id :: Shows(env, s, chain, slot, id) && l == ToLesson(ViewOf(env, s, id))
  {
    InSlotIff(env, date, DayLessons(env, s, chain, date), slot, l);
    DayLessonsSorted(env, s, chain, date);
    if l in InSlot(env, date, DayLessons(env, s, chain, date), slot) {
      var v :| v in Shown(env, s, chain, date) && ToLesson(v) == l;
      assert Shows(env, s, chain, slot, v.id);
    }
    if slot.date == date && exists id :: Shows(env, s, chain, slot, id) && l == ToLesson(ViewOf(env, s, id)) {
      var id :| Shows(env, s, chain, slot, id) && l == ToLesson(ViewOf(env, s, id));
      assert l in ShownLessons(env, s, chain, date);
    }
  }

  lemma {:induction false} HereTells(
    env: Env, s: State, chain: seq<int>, start: int, end: int, slot: RoomSlot, l: DayLesson)
    requires WellFormed(env, s)
    ensures l in Here(env, Days(env, s, chain, start, end), slot) <==>
      start <= slot.date <= end && exists id :: Shows(env, s, chain, slot, id) && l == ToLesson(ViewOf(env, s, id))
    decreases end - start
  {
    if start <= end {
      HereTells(env, s, chain, start, end - 1, slot, l);
      DayTells(env, s, chain, end, slot, l);
      var days := Days(env, s, chain, start, end);
      assert days[..|days| - 1] == Days(env, s, chain, start, end - 1);
    }
  }

  /** The stored lesson stands in two schedules. */
  ghost predicate ShownTwice(env: Env, s: State, chains: Chains, slot: RoomSlot, id: int) {
    exists a, b | a in chains && b in chains ::
      a != b && Shows(env, s, chains[a], slot, id) && Shows(env, s, chains[b], slot, id)
  }

  /** Two stored lessons in one slot share a flow, so both have the same key. */
  lemma {:induction false} MeetingShareKey(env: Env, s: State, slot: RoomSlot, a: seq<int>, i: int, b: seq<int>, j: int)
    requires WellFormed(env, s) && RoomExclusive(env, s) && i != j
    requires Shows(env, s, a, slot, i) && Shows(env, s, b, slot, j)
    ensures Occupancy.Key(env.alphabet, s.lessons[i].flow) == Occupancy.Key(env.alphabet, s.lessons[j].flow) != ""
  {
    assert Together(s, i, j);
    KeyOfStored(env, s, i);
    KeyOfStored(env, s, j);
  }

  lemma {:induction false} KeyOfStored(env: Env, s: State, id: int)
    requires WellFormed(env, s) && id in s.lessons
    ensures var flow := s.lessons[id].flow;
      Occupancy.Key(env.alphabet, flow) == if flow.None? then "" else Text.Lower(env.alphabet, flow.value)
    ensures Occupancy.Key(env.alphabet, s.lessons[id].flow) == "" <==> s.lessons[id].flow.None?
  {
    Text.TrimmedIsFixed(env.alphabet, s.lessons[id].flow.Or(""));
    assert ValidLesson(env.alphabet, s.lessons[id]);
  }

  /** A conflict is over one stored lesson, without a flow, that two groups take part in. */
  lemma {:induction false} ConflictShowsTwice(
    env: Env, sport: set<string>, s: State, chains: Chains, start: int, end: int, all: Schedules,
    slot: RoomSlot) returns (id: int)
    requires LaidOver(env, s, chains, start, end, all) && RoomExclusive(env, s)
    requires Conflict(env, sport, all, slot)
    ensures start <= slot.date <= end
    ensures id in s.lessons && s.lessons[id].flow.None? && ShownTwice(env, s, chains, slot, id)
  {
    var a, b := TwoOf(GroupsHere(env, all, slot));
    var l, m := GroupHere(env, all, a, slot)[0], GroupHere(env, all, b, slot)[0];
    HereTells(env, s, chains[a], start, end, slot, l);
    HereTells(env, s, chains[b], start, end, slot, m);
    id :| Shows(env, s, chains[a], slot, id) && l == ToLesson(ViewOf(env, s, id));
    var other :| Shows(env, s, chains[b], slot, other) && m == ToLesson(ViewOf(env, s, other));
    KeyOfStored(env, s, id);
    if s.lessons[id].flow.Some? {
      AllLike(env, s, chains, start, end, all, slot, a, id);
      assert false;
    }
    if other != id {
      MeetingShareKey(env, s, slot, chains[a], id, chains[b], other);
      assert false;
    }
  }

  /** Where a stored lesson has a flow, all lessons of its slot have its key. */
  lemma {:induction false} AllLike(
    env: Env, s: State, chains: Chains, start: int, end: int, all: Schedules, slot: RoomSlot, a: int, id: int)
    requires LaidOver(env, s, chains, start, end, all) && RoomExclusive(env, s)
    requires a in chains && Shows(env, s, chains[a], slot, id)
    ensures SameFlow(env, all, slot, Occupancy.Key(env.alphabet, s.lessons[id].flow))
  {
    forall g, x | g in all && x in GroupHere(env, all, g, slot)
      ensures Occupancy.Key(env.alphabet, x.flow) == Occupancy.Key(env.alphabet, s.lessons[id].flow)
    {
      HereTells(env, s, chains[g], start, end, slot, x);
      var j :| Shows(env, s, chains[g], slot, j) && x == ToLesson(ViewOf(env, s, j));
      if j != id {
        MeetingShareKey(env, s, slot, chains[a], id, chains[g], j);
      }
    }
  }

  lemma {:induction false} TwiceIsConflict(
    env: Env, sport: set<string>, s: State, chains: Chains, start: int, end: int, all: Schedules, slot: RoomSlot,
    id: int)
    requires LaidOver(env, s, chains, start, end, all) && !AtSport(env, sport, all, slot) && start <= slot.date <= end
    requires id in s.lessons && s.lessons[id].flow.None? && ShownTwice(env, s, chains, slot, id)
    ensures Conflict(env, sport, all, slot)
  {
    var a, b :| a in chains && b in chains && a != b && Shows(env, s, chains[a], slot, id)
                && Shows(env, s, chains[b], slot, id);
    var l := ToLesson(ViewOf(env, s, id));
    HereTells(env, s, chains[a], start, end, slot, l);
    HereTells(env, s, chains[b], start, end, slot, l);
    TwoHere(env, all, slot, a, b);
    KeyOfStored(env, s, id);
    assert l in GroupHere(env, all, a, slot);
  }

  /**
   Over exclusive rooms, a slot is a conflict exactly if two groups show one lesson without a flow
   there, and not all are at sport.
   */
  lemma {:induction false} ConflictIff(
    env: Env, sport: set<string>, s: State, chains: Chains, start: int, end: int, all: Schedules, slot: RoomSlot)
    requires LaidOver(env, s, chains, start, end, all) && RoomExclusive(env, s)
    ensures Conflict(env, sport, all, slot) <==>
      && !AtSport(env, sport, all, slot) && start <= slot.date <= end
      && exists id | id in s.lessons :: s.lessons[id].flow.None? && ShownTwice(env, s, chains, slot, id)
  {
    if Conflict(env, sport, all, slot) {
      var id := ConflictShowsTwice(env, sport, s, chains, start, end, all, slot);
    }
    if !AtSport(env, sport, all, slot) && start <= slot.date <= end {
      forall id | id in s.lessons && s.lessons[id].flow.None? && ShownTwice(env, s, chains, slot, id)
        ensures Conflict(env, sport, all, slot)
      {
        TwiceIsConflict(env, sport, s, chains, start, end, all, slot, id);
      }
    }
  }

  /** Groups that take over from nobody show only lessons of their own. */
  lemma {:induction false} OwnShownOnce(env: Env, s: State, chains: Chains, slot: RoomSlot, id: int)
    requires forall g | g in chains :: chains[g] == [g]
    ensures !ShownTwice(env, s, chains, slot, id)
  {
    forall g | g in chains && Shows(env, s, chains[g], slot, id)
      ensures s.lessons[id].group == g
    {
      var v := ViewOf(env, s, id);
      var i :| 0 <= i < |chains[g]| && HeldBy(env, s, chains[g][i], slot.date, BuildDays.KeyOf(v), v);
      assert v in HoldersAt(env, s, g, slot.date, BuildDays.KeyOf(v));
    }
  }

  /** So over exclusive rooms no slot of the groups' own schedules is a conflict. */
  lemma {:induction false} ExclusiveMeansNoConflict(
    env: Env, sport: set<string>, s: State, chains: Chains, start: int, end: int, all: Schedules, slot: RoomSlot)
    requires LaidOver(env, s, chains, start, end, all) && RoomExclusive(env, s)
    requires forall g | g in chains :: chains[g] == [g]
    ensures !Conflict(env, sport, all, slot)
  {
    ConflictIff(env, sport, s, chains, start, end, all, slot);
    forall id
      ensures !ShownTwice(env, s, chains, slot, id)
    {
      OwnShownOnce(env, s, chains, slot, id);
    }
  }

  // ---------------------------------------------------------------------- runs

  /** The schedules the groups have. */
  ghost predicate Scheduled(env: Env, s: State, g: Groups, start: int, end: int, all: Schedules)
    requires WellFormed(env, s)
  {
    forall id | id in all :: Schedule(env, s, g, id, start, end) == Success(all[id])
  }

  function ChainOf(g: Groups, id: int): seq<int> {
    match Chain(g, id) case Success(ids) => ids case Failure(_) => []
  }

  function ChainsOf(g: Groups, ids: set<int>): Chains {
    map id | id in ids :: ChainOf(g, id)
  }

  lemma {:induction false} ScheduledIsLaidOver(env: Env, s: State, g: Groups, start: int, end: int, all: Schedules)
    requires WellFormed(env, s) && Scheduled(env, s, g, start, end, all)
    ensures LaidOver(env, s, ChainsOf(g, all.Keys), start, end, all)
  {
    forall id | id in all
      ensures all[id] == Days(env, s, ChainOf(g, id), start, end)
    {
      assert Schedule(env, s, g, id, start, end) == Success(all[id]);
    }
  }

  /**
   From exclusive rooms, whatever overrides and autofill runs happen and whoever takes over from
   whom: a slot is a conflict exactly if a lesson without a flow stands there in the schedules of two
   groups, and not all are at sport.
   */
  lemma {:induction false} RunsConflictIff(
    env: Env, sport: set<string>, s: State, ops: seq<Op>, g: Groups, start: int, end: int, all: Schedules,
    slot: RoomSlot)
    requires ValidEnv(env) && WellFormed(env, s) && RoomExclusive(env, s)
    requires forall op | op in ops :: ChecksRooms(op)
    ensures WellFormed(env, Run(env, s, ops))
    ensures Scheduled(env, Run(env, s, ops), g, start, end, all) ==>
      (Conflict(env, sport, all, slot) <==>
        && !AtSport(env, sport, all, slot) && start <= slot.date <= end
        && exists id | id in Run(env, s, ops).lessons ::
             && Run(env, s, ops).lessons[id].flow.None?
             && ShownTwice(env, Run(env, s, ops), ChainsOf(g, all.Keys), slot, id))
  {
    RunKeepsWellFormed(env, s, ops);
    RunKeepsRooms(env, s, ops);
    var after := Run(env, s, ops);
    if Scheduled(env, after, g, start, end, all) {
      ScheduledIsLaidOver(env, after, g, start, end, all);
      ConflictIff(env, sport, after, ChainsOf(g, all.Keys), start, end, all, slot);
    }
  }

  lemma {:induction false} OwnChains(env: Env, s: State, g: Groups, start: int, end: int, all: Schedules)
    requires WellFormed(env, s) && Scheduled(env, s, g, start, end, all)
    requires forall id | id in all && id in g :: g[id].source.None?
    ensures forall id | id in all :: ChainOf(g, id) == [id]
  {
    forall id | id in all
      ensures ChainOf(g, id) == [id]
    {
      assert Schedule(env, s, g, id, start, end) == Success(all[id]);
    }
  }

  /** And so nobody is warned as long as no group has a source. */
  lemma {:induction false} RunsRaiseNoConflict(
    env: Env, sport: set<string>, s: State, ops: seq<Op>, g: Groups, start: int, end: int, all: Schedules, target: int)
    requires ValidEnv(env) && WellFormed(env, s) && RoomExclusive(env, s)
    requires forall op | op in ops :: ChecksRooms(op)
    requires forall id | id in all && id in g :: g[id].source.None?
    ensures WellFormed(env, Run(env, s, ops))
    ensures Scheduled(env, Run(env, s, ops), g, start, end, all) ==> Warnings(env, sport, target, all) == []
  {
    RunKeepsWellFormed(env, s, ops);
    RunKeepsRooms(env, s, ops);
    var after, chains := Run(env, s, ops), ChainsOf(g, all.Keys);
    if Scheduled(env, after, g, start, end, all) && Warnings(env, sport, target, all) != [] {
      ScheduledIsLaidOver(env, after, g, start, end, all);
      OwnChains(env, after, g, start, end, all);
      var w := Warnings(env, sport, target, all)[0];
      ReportedIff(env, sport, target, all, w);
      ExclusiveMeansNoConflict(env, sport, after, chains, start, end, all, w.slot);
      assert false;
    }
  }
}
