/**
 What overrides and direct writes do to the tables, told from the request and the rows themselves: the
 texts of a request, when a request is accepted, the first obstacle of one that is not, and every
 column that is written.
 */
module OverrideEffects {
  import opened Wrappers
  import opened Store
  import opened Overrides
  import opened Runs
  import opened RoomExclusivity
  import opened ConstraintSafety
  import Orders
  import Text

  // ------------------------------------------------------------------- texts

  /** The text, apart from white space around it and from case. */
  predicate Reads(env: Env, text: string, word: string) {
    Text.Lower(env.alphabet, Text.Trim(env.alphabet, text)) == word
  }

  predicate Asks(env: Env, req: Request, word: string) {
    Reads(env, req.action, word)
  }

  predicate Republishing(env: Env, req: Request) {
    Asks(env, req, "replace") || Asks(env, req, "restore")
  }

  predicate FormatOf(env: Env, text: string, f: Format) {
    && (f == Online <==> Reads(env, text, "online"))
    && (f == Hybrid <==> Reads(env, text, "hybrid"))
  }

  predicate SourceOf(env: Env, text: string, f: Source) {
    && (f == Imported <==> Reads(env, text, "imported"))
    && (f == Auto <==> Reads(env, text, "auto"))
    && (f == Generated <==> Reads(env, text, "generated"))
    && (f == Replacement <==> Reads(env, text, "replacement"))
  }

  /** A flow key is stored without the white space around it, and not at all if there is nothing else. */
  lemma {:induction false} FlowIsTrimmed(al: Text.Alphabet, flow: Option<string>)
    ensures NormalizeFlow(al, flow) ==
      if flow.None? || Text.Blank(al, flow.value) then None else Some(Text.Trim(al, flow.value))
  {
    if flow.Some? {
      var left, right := Text.TrimTakesOff(al, flow.value);
    }
  }

  // --------------------------------------------------------------- obstacles

  /** Lessons may be given that day: it is not blocked, nor in need of a confirmation that is missing. */
  predicate DayAllows(env: Env, date: int, confirmed: bool) {
    date in env.calendar && env.calendar[date].affectsLessons ==>
      var day := env.calendar[date];
      && (day.kind == Blocked ==> day.requiresConfirmation && confirmed)
      && (day.kind == DayWarning && day.requiresConfirmation ==> confirmed)
  }

  /** No row of the teacher's day is a hard block, or a warning in need of a confirmation that is missing. */
  ghost predicate TeacherAllows(env: Env, teacher: Option<int>, date: int, confirmed: bool) {
    teacher.Some? && teacher.value > 0 ==>
      forall row | row in env.teacherDays && row.teacher == teacher.value && row.date == date ::
        row.level != HardBlock && (row.level == Warning && row.requiresConfirmation ==> confirmed)
  }

  /** Both have a flow key, and it is one and the same but for case. */
  predicate OneFlow(env: Env, a: Lesson, b: Lesson) {
    && a.flow.Some? && b.flow.Some? && a.flow.value != "" && b.flow.value != ""
    && Text.Lower(env.alphabet, a.flow.value) == Text.Lower(env.alphabet, b.flow.value)
  }

  /** Some other active lesson, not of the same flow, has the location, published, at the lesson's time. */
  ghost predicate StrangerThere(env: Env, s: State, location: int, lesson: Lesson, id: Option<int>) {
    exists other | other in s.lessons && other in s.rooms ::
      && id != Some(other) && s.lessons[other].status != Cancelled
      && s.rooms[other].status == Published && s.rooms[other].location == location
      && s.lessons[other].date == lesson.date && s.lessons[other].pair == lesson.pair
      && !OneFlow(env, lesson, s.lessons[other])
  }

  /** Any number of lessons fit a location that is virtual or linked to the type "online". */
  predicate Roomless(env: Env, location: int) {
    && location in env.locations
    && (env.locations[location].virtualKind || "online" in env.locations[location].types)
  }

  /** The location given, if any, is a positive number, and any number of lessons fit or no stranger is there. */
  ghost predicate RoomAllows(env: Env, s: State, location: Option<int>, lesson: Lesson, id: Option<int>) {
    location.Some? ==>
      location.value > 0 && (Roomless(env, location.value) || !StrangerThere(env, s, location.value, lesson, id))
  }

  /** Where the database enforces the index, no other lesson is active in the slot. */
  ghost predicate IndexAllows(env: Env, s: State, id: int, lesson: Lesson) {
    env.slotIndex && lesson.status != Cancelled ==>
      forall other | other in s.lessons && other != id && s.lessons[other].status != Cancelled ::
        !(&& s.lessons[other].group == lesson.group && s.lessons[other].date == lesson.date
          && s.lessons[other].pair == lesson.pair && s.lessons[other].subgroup.Or(0) == lesson.subgroup.Or(0))
  }

  predicate Addressed(req: Request) {
    req.group > 0 && 1 <= req.pair <= 8 && (req.subgroup.Some? ==> 1 <= req.subgroup.value <= 2)
  }

  /** An active lesson is in the slot the request names. */
  ghost predicate InTheSlot(s: State, req: Request, id: int) {
    && id in s.lessons && s.lessons[id].status != Cancelled
    && s.lessons[id].group == req.group && s.lessons[id].date == req.date && s.lessons[id].pair == req.pair
    && s.lessons[id].subgroup == req.subgroup
  }

  /** The lesson the request is about: the one it names, or the first one in the slot it names. */
  ghost predicate Target(s: State, req: Request, id: int) {
    id in s.lessons &&
    if req.lesson.Some? then req.lesson.value == id
    else InTheSlot(s, req, id) && forall other | InTheSlot(s, req, other) :: id <= other
  }

  lemma {:induction false} TargetIsLocated(s: State, req: Request, id: int)
    ensures Target(s, req, id) <==> Locate(s, req) == Some(id)
  {
    LocatedIff(s, req);
    assert forall other | other in s.lessons :: Meant(s, req, other) <==>
      if req.lesson.Some? then req.lesson.value == other else InTheSlot(s, req, other);
  }

  lemma {:induction false} DayAllowsIff(env: Env, date: int, confirmed: bool)
    ensures DayVerdict(env, date, confirmed).Pass? <==> DayAllows(env, date, confirmed)
    ensures DayVerdict(env, date, confirmed).Fail? ==>
      var e := DayVerdict(env, date, confirmed).error; e.DayBlocked? || e.DayNeedsConfirmation?
  {
  }

  lemma {:induction false} TeacherAllowsIff(env: Env, teacher: Option<int>, date: int, confirmed: bool)
    ensures TeacherVerdict(env, teacher, date, confirmed).Pass? <==> TeacherAllows(env, teacher, date, confirmed)
    ensures TeacherVerdict(env, teacher, date, confirmed).Fail? ==>
      var e := TeacherVerdict(env, teacher, date, confirmed).error; e.TeacherHardBlock? || e.TeacherNeedsConfirmation?
  {
    if teacher.Some? && teacher.value > 0 {
      HardBlockComesFirst(env, teacher.value, date, confirmed);
    }
  }

  lemma {:induction false} StrangerIff(env: Env, s: State, location: int, lesson: Lesson, id: Option<int>)
    ensures HeldByStranger(env, s, location, lesson, id) <==> StrangerThere(env, s, location, lesson, id)
  {
    forall other | other in s.lessons
      ensures Holds(s, other, location, lesson.date, lesson.pair) <==>
        && other in s.rooms && s.lessons[other].status != Cancelled
        && s.rooms[other].status == Published && s.rooms[other].location == location
        && s.lessons[other].date == lesson.date && s.lessons[other].pair == lesson.pair
      ensures SharedFlow(env.alphabet, lesson, s.lessons[other]) <==> OneFlow(env, lesson, s.lessons[other])
    {
    }
  }

  lemma {:induction false} RoomAllowsIff(env: Env, s: State, location: Option<int>, lesson: Lesson, id: Option<int>)
    requires WellFormed(env, s) && StoredFlow(env.alphabet, lesson.flow)
    ensures AnyRoomVerdict(env, s, location, lesson, id).Pass? <==> RoomAllows(env, s, location, lesson, id)
    ensures AnyRoomVerdict(env, s, location, lesson, id).Fail? ==>
      var e := AnyRoomVerdict(env, s, location, lesson, id).error; e.LocationRequired? || e.RoomConflict?
  {
    if location.Some? {
      RoomRefusedIff(env, s, location.value, lesson, id);
      StrangerIff(env, s, location.value, lesson, id);
    }
  }

  lemma {:induction false} IndexAllowsIff(env: Env, s: State, id: int, lesson: Lesson)
    ensures IndexVerdict(env, s, id, lesson) ==
      if IndexAllows(env, s, id, lesson) then Pass else Fail(SlotIndexViolated)
  {
  }

  // ------------------------------------------------------------------ cancel

  /** The columns of a journal row that come from the request and the lesson it is about. */
  predicate JournalOf(s: State, req: Request, id: int, e: Entry)
    requires id in s.lessons
  {
    var was := s.lessons[id];
    && e.lesson == id && e.group == was.group && e.date == was.date && e.pair == was.pair && e.subgroup == was.subgroup
    && e.oldSubject == was.subject && e.oldTeacher == was.teacher && e.oldFormat == Some(was.format)
    && e.oldLocation == (if id in s.rooms then Some(s.rooms[id].location) else None)
    && e.reason == req.reason && e.expected == req.expected && e.createdBy == req.createdBy
    && e.applied == was.version + 1
  }

  predicate VersionMet(s: State, req: Request, id: int)
    requires id in s.lessons
  {
    req.expected.Some? ==> req.expected.value == s.lessons[id].version
  }

  /** A cancel is accepted exactly if it is well addressed and means a lesson at the version it expects. */
  lemma {:induction false} CancelAcceptedIff(env: Env, s: State, req: Request)
    requires Asks(env, req, "cancel")
    ensures Accepted(env, s, Override(req)) <==>
      Addressed(req) && exists id :: Target(s, req, id) && VersionMet(s, req, id)
  {
    forall id
      ensures Target(s, req, id) <==> Locate(s, req) == Some(id)
    {
      TargetIsLocated(s, req, id);
    }
  }

  /** It cancels that lesson: all it writes is the status, the source and the version, and a journal row. */
  lemma {:induction false} CancelCancels(env: Env, s: State, req: Request, id: int)
    requires Asks(env, req, "cancel") && Accepted(env, s, Override(req)) && Target(s, req, id)
    ensures var was, after := s.lessons[id], Step(env, s, Override(req));
      && after.lessons == s.lessons[id := was.(status := Cancelled, source := Replacement, version := was.version + 1)]
      && after.rooms == s.rooms && after.nextId == s.nextId
      && |after.journal| == |s.journal| + 1 && after.journal[..|s.journal|] == s.journal
      && var e := after.journal[|s.journal|];
      && e.action == Cancel && JournalOf(s, req, id, e)
      && e.newSubject == None && e.newTeacher == None && e.newLocation == None && e.newFormat == None
  {
    TargetIsLocated(s, req, id);
  }

  // ------------------------------------------------------ replace and restore

  /** The lesson's columns afterwards: what the request gives, and what was there where it gives nothing. */
  predicate Republished(env: Env, was: Lesson, now: Lesson, req: Request) {
    && now.group == was.group && now.date == was.date && now.pair == was.pair && now.subgroup == was.subgroup
    && now.flow == was.flow && now.version == was.version + 1
    && now.status == Published && now.source == Replacement
    && now.subject == (if req.subject.Some? then req.subject else was.subject)
    && now.teacher == (if req.teacher.Some? then req.teacher else was.teacher)
    && (if req.format.Some? then FormatOf(env, req.format.value, now.format) else now.format == was.format)
  }

  /** The location given, or the one the lesson has. */
  function PlaceFor(s: State, id: int, req: Request): Option<int> {
    if req.location.Some? then req.location
    else if id in s.rooms then Some(s.rooms[id].location)
    else None
  }

  ghost predicate MayRepublish(env: Env, s: State, req: Request, id: int, now: Lesson) {
    && DayAllows(env, now.date, req.confirmDay)
    && TeacherAllows(env, now.teacher, now.date, req.confirmTeacher)
    && RoomAllows(env, s, PlaceFor(s, id, req), now, Some(id))
    && IndexAllows(env, s, id, now)
  }

  lemma {:induction false} RepublishedIs(env: Env, was: Lesson, now: Lesson, req: Request)
    ensures Republished(env, was, now, req) <==> now == NextLesson(env, was, req)
  {
  }

  lemma {:induction false} MayRepublishIff(env: Env, s: State, req: Request, id: int)
    requires WellFormed(env, s) && id in s.lessons
    ensures var now := NextLesson(env, s.lessons[id], req);
      RepublishVerdict(env, s, id, now, NextLocation(s, id, req), req).Pass? <==> MayRepublish(env, s, req, id, now)
  {
    var now := NextLesson(env, s.lessons[id], req);
    assert ValidLesson(env.alphabet, s.lessons[id]);
    DayAllowsIff(env, now.date, req.confirmDay);
    TeacherAllowsIff(env, now.teacher, now.date, req.confirmTeacher);
    RoomAllowsIff(env, s, PlaceFor(s, id, req), now, Some(id));
    IndexAllowsIff(env, s, id, now);
  }

  /**
   A replace or restore is accepted exactly if it is well addressed, means a lesson at the version it
   expects, and neither the day, nor the teacher, nor the room, nor the index stands in its way.
   */
  lemma {:induction false} RepublishAcceptedIff(env: Env, s: State, req: Request)
    requires WellFormed(env, s) && Republishing(env, req)
    ensures Accepted(env, s, Override(req)) <==>
      && Addressed(req)
      && exists id, now :: Target(s, req, id) && VersionMet(s, req, id)
                           && Republished(env, s.lessons[id], now, req) && MayRepublish(env, s, req, id, now)
  {
    forall id
      ensures Target(s, req, id) <==> Locate(s, req) == Some(id)
    {
      TargetIsLocated(s, req, id);
    }
    forall id, now | id in s.lessons
      ensures Republished(env, s.lessons[id], now, req) <==> now == NextLesson(env, s.lessons[id], req)
    {
      RepublishedIs(env, s.lessons[id], now, req);
    }
    if Locate(s, req).Some? {
      MayRepublishIff(env, s, req, Locate(s, req).value);
    }
  }

  /** It publishes that lesson with what the request gives, in the room it gives or else the old one. */
  lemma {:induction false} RepublishPublishes(env: Env, s: State, req: Request, id: int)
    requires Republishing(env, req) && Accepted(env, s, Override(req)) && Target(s, req, id)
    ensures var was, after := s.lessons[id], Step(env, s, Override(req));
      && id in after.lessons && after.lessons == s.lessons[id := after.lessons[id]]
      && Republished(env, was, after.lessons[id], req)
      && after.rooms == (if PlaceFor(s, id, req).None? then s.rooms
                         else s.rooms[id := Room(PlaceFor(s, id, req).value, ReplacementRoom, Published)])
      && after.nextId == s.nextId
      && |after.journal| == |s.journal| + 1 && after.journal[..|s.journal|] == s.journal
      && var e := after.journal[|s.journal|];
      && e.action == (if Asks(env, req, "replace") then Replace else Restore) && JournalOf(s, req, id, e)
      && e.newSubject == after.lessons[id].subject && e.newTeacher == after.lessons[id].teacher
      && e.newLocation == PlaceFor(s, id, req) && e.newFormat == Some(after.lessons[id].format)
  {
    TargetIsLocated(s, req, id);
    RepublishedIs(env, s.lessons[id], NextLesson(env, s.lessons[id], req), req);
  }

  // --------------------------------------------------------------------- add

  /** The new lesson: the slot and the content of the request, published, without a flow, at version 1. */
  predicate AddedAs(env: Env, now: Lesson, req: Request) {
    && now.group == req.group && now.date == req.date && now.pair == req.pair && now.subgroup == req.subgroup
    && now.subject == req.subject && now.teacher == req.teacher && now.flow == None && now.version == 1
    && now.status == Published && now.source == Replacement
    && (if req.format.Some? then FormatOf(env, req.format.value, now.format) else now.format == Offline)
  }

  lemma {:induction false} SlotFreeIff(s: State, req: Request)
    ensures ActiveAt(s, req.group, req.date, req.pair, req.subgroup) == {} <==> forall id :: !InTheSlot(s, req, id)
  {
    var ids := ActiveAt(s, req.group, req.date, req.pair, req.subgroup);
    assert forall id :: InTheSlot(s, req, id) <==> id in ids;
    if ids != {} {
      Orders.HasMember(ids);
    }
  }

  lemma {:induction false} AddedIs(env: Env, now: Lesson, req: Request)
    ensures AddedAs(env, now, req) <==> now == NewLesson(env, req)
  {
  }

  /**
   An add is accepted exactly if it is well addressed and has a subject and a date, its slot is free of
   active lessons, and neither the day, nor the teacher, nor the room, nor the index stands in its way.
   */
  lemma {:induction false} AddAcceptedIff(env: Env, s: State, req: Request)
    requires WellFormed(env, s) && Asks(env, req, "add")
    ensures Accepted(env, s, Override(req)) <==>
      && Addressed(req) && req.subject.Some? && req.date != 0 && (forall id :: !InTheSlot(s, req, id))
      && DayAllows(env, req.date, req.confirmDay)
      && TeacherAllows(env, req.teacher, req.date, req.confirmTeacher)
      && exists now :: AddedAs(env, now, req) && RoomAllows(env, s, req.location, now, None)
                       && IndexAllows(env, s, s.nextId, now)
  {
    var now := NewLesson(env, req);
    DayAllowsIff(env, req.date, req.confirmDay);
    TeacherAllowsIff(env, req.teacher, req.date, req.confirmTeacher);
    RoomAllowsIff(env, s, req.location, now, None);
    IndexAllowsIff(env, s, s.nextId, now);
    AddedIs(env, now, req);
    SlotFreeIff(s, req);
    forall other | AddedAs(env, other, req)
      ensures other == now
    {
      AddedIs(env, other, req);
    }
  }

  /** It puts the new lesson under the next id, and in the room the request gives, if it gives one. */
  lemma {:induction false} AddAdds(env: Env, s: State, req: Request)
    requires Asks(env, req, "add") && Accepted(env, s, Override(req))
    ensures var after := Step(env, s, Override(req));
      && s.nextId in after.lessons && after.lessons == s.lessons[s.nextId := after.lessons[s.nextId]]
      && AddedAs(env, after.lessons[s.nextId], req)
      && after.rooms == (if req.location.None? then s.rooms
                         else s.rooms[s.nextId := Room(req.location.value, ReplacementRoom, Published)])
      && after.nextId == s.nextId + 1
      && |after.journal| == |s.journal| + 1 && after.journal[..|s.journal|] == s.journal
      && var e := after.journal[|s.journal|];
      && e.lesson == s.nextId && e.action == Add && e.applied == 1 && e.expected == None
      && e.group == req.group && e.date == req.date && e.pair == req.pair && e.subgroup == req.subgroup
      && e.oldSubject == None && e.oldTeacher == None && e.oldLocation == None && e.oldFormat == None
      && e.newSubject == req.subject && e.newTeacher == req.teacher && e.newLocation == req.location
      && e.newFormat == Some(after.lessons[s.nextId].format) && e.reason == req.reason && e.createdBy == req.createdBy
  {
    AddedIs(env, NewLesson(env, req), req);
  }

  // ------------------------------------------------------------------ refusal

  /** An action that is none of the four, or a bad address, is refused before anything is looked up. */
  lemma {:induction false} BadRequestRefused(env: Env, s: State, req: Request)
    ensures var known := Asks(env, req, "add") || Asks(env, req, "cancel") || Republishing(env, req);
      && (!known ==> Plan(env, s, req) == Result.Failure(InvalidAction))
      && (known && req.group <= 0 ==> Plan(env, s, req) == Result.Failure(GroupRequired))
      && (known && req.group > 0 && !(1 <= req.pair <= 8) ==> Plan(env, s, req) == Result.Failure(PairOutOfRange))
      && (known && req.group > 0 && 1 <= req.pair <= 8 && !Addressed(req) ==>
            Plan(env, s, req) == Result.Failure(SubgroupOutOfRange))
  {
  }

  /** Of a request about a stored lesson: no such lesson, then a version that is not met. */
  lemma {:induction false} TargetRefused(env: Env, s: State, req: Request)
    requires (Asks(env, req, "cancel") || Republishing(env, req)) && Addressed(req)
    ensures (forall id :: !Target(s, req, id)) ==> Plan(env, s, req) == Result.Failure(NotFound)
    ensures forall id | Target(s, req, id) && !VersionMet(s, req, id) ::
      Plan(env, s, req) == Result.Failure(VersionConflict)
  {
    forall id
      ensures Target(s, req, id) <==> Locate(s, req) == Some(id)
    {
      TargetIsLocated(s, req, id);
    }
  }

  /** The first of day, teacher, room and index that does not allow it is what a refusal names. */
  predicate NamesFirst(e: Failure, day: bool, teacher: bool, room: bool, index: bool) {
    if !day then e.DayBlocked? || e.DayNeedsConfirmation?
    else if !teacher then e.TeacherHardBlock? || e.TeacherNeedsConfirmation?
    else if !room then e.LocationRequired? || e.RoomConflict?
    else !index && e == SlotIndexViolated
  }

  lemma {:induction false} RepublishRefused(env: Env, s: State, req: Request, id: int, now: Lesson)
    requires WellFormed(env, s) && Republishing(env, req) && Addressed(req)
    requires Target(s, req, id) && VersionMet(s, req, id) && Republished(env, s.lessons[id], now, req)
    requires Plan(env, s, req).Failure?
    ensures NamesFirst(Plan(env, s, req).error, DayAllows(env, now.date, req.confirmDay),
                       TeacherAllows(env, now.teacher, now.date, req.confirmTeacher),
                       RoomAllows(env, s, PlaceFor(s, id, req), now, Some(id)), IndexAllows(env, s, id, now))
  {
    TargetIsLocated(s, req, id);
    RepublishedIs(env, s.lessons[id], now, req);
    assert ValidLesson(env.alphabet, s.lessons[id]);
    DayAllowsIff(env, now.date, req.confirmDay);
    TeacherAllowsIff(env, now.teacher, now.date, req.confirmTeacher);
    RoomAllowsIff(env, s, PlaceFor(s, id, req), now, Some(id));
    IndexAllowsIff(env, s, id, now);
  }

  /** An add looks at the slot and the subject first, and at the date after the teacher. */
  lemma {:induction false} AddRefused(env: Env, s: State, req: Request, now: Lesson)
    requires WellFormed(env, s) && Asks(env, req, "add") && Addressed(req) && AddedAs(env, now, req)
    requires Plan(env, s, req).Failure?
    ensures var e, day, teacher := Plan(env, s, req).error, DayAllows(env, req.date, req.confirmDay),
                                   TeacherAllows(env, req.teacher, req.date, req.confirmTeacher);
      if exists id :: InTheSlot(s, req, id) then e == SlotOccupied
      else if req.subject.None? then e == SubjectRequired
      else if day && teacher && req.date == 0 then e == DateRequired
      else NamesFirst(e, day, teacher, RoomAllows(env, s, req.location, now, None), IndexAllows(env, s, s.nextId, now))
  {
    AddedIs(env, now, req);
    DayAllowsIff(env, req.date, req.confirmDay);
    TeacherAllowsIff(env, req.teacher, req.date, req.confirmTeacher);
    RoomAllowsIff(env, s, req.location, now, None);
    IndexAllowsIff(env, s, s.nextId, now);
    SlotFreeIff(s, req);
  }

  // ------------------------------------------------- direct creation and update

  /** The stored row: what the caller hands in, with its texts read and its flow key trimmed. */
  predicate StoredAs(env: Env, row: Draft, version: int, now: Lesson) {
    && now.group == row.group && now.date == row.date && now.pair == row.pair && now.subgroup == row.subgroup
    && now.subject == row.subject && now.teacher == row.teacher
    && FormatOf(env, row.format, now.format) && SourceOf(env, row.source, now.source)
    && now.flow == (if row.flow.None? || Text.Blank(env.alphabet, row.flow.value) then None
                    else Some(Text.Trim(env.alphabet, row.flow.value)))
    && now.status == (if row.status == "cancelled" then Cancelled
                      else if row.status == "draft" then Status.Draft else Published)
    && now.version == if version <= 0 then 1 else version
  }

  predicate GoodRow(row: Draft) {
    && row.group > 0 && row.date != 0 && 1 <= row.pair <= 8 && (row.subgroup.Some? ==> 1 <= row.subgroup.value <= 2)
    && row.status in {"", "draft", "published", "cancelled"}
  }

  /** Rooms are none of a direct write's business, nor is the day of a cancelled lesson. */
  ghost predicate MayWrite(env: Env, s: State, id: int, now: Lesson, confirmTeacher: bool, confirmDay: bool) {
    && (now.status != Cancelled ==> DayAllows(env, now.date, confirmDay))
    && TeacherAllows(env, now.teacher, now.date, confirmTeacher)
    && IndexAllows(env, s, id, now)
  }

  lemma {:induction false} NormalizedIs(env: Env, row: Draft)
    ensures Normalize(env.alphabet, row).Success? <==> GoodRow(row)
    ensures GoodRow(row) ==> StoredAs(env, row, row.version, Normalize(env.alphabet, row).value)
  {
    FlowIsTrimmed(env.alphabet, row.flow);
  }

  /** The columns determine the row. */
  lemma {:induction false} StoredOnce(env: Env, row: Draft, now: Lesson)
    requires GoodRow(row)
    ensures StoredAs(env, row, row.version, now) <==> Normalize(env.alphabet, row) == Success(now)
  {
    NormalizedIs(env, row);
  }

  lemma {:induction false} MayWriteIff(
    env: Env, s: State, id: int, now: Lesson, confirmTeacher: bool, confirmDay: bool)
    ensures RowVerdict(env, s, id, now, confirmTeacher, confirmDay).Pass? <==>
      MayWrite(env, s, id, now, confirmTeacher, confirmDay)
  {
    DayAllowsIff(env, now.date, confirmDay);
    TeacherAllowsIff(env, now.teacher, now.date, confirmTeacher);
    IndexAllowsIff(env, s, id, now);
  }

  /** The row as it would be stored may be written. */
  ghost predicate Writable(env: Env, s: State, id: int, row: Draft, version: int, t: bool, d: bool) {
    exists now :: StoredAs(env, row, version, now) && MayWrite(env, s, id, now, t, d)
  }

  lemma {:induction false} WritableIff(env: Env, s: State, id: int, row: Draft, t: bool, d: bool)
    requires GoodRow(row)
    ensures Normalize(env.alphabet, row).Success?
    ensures RowVerdict(env, s, id, Normalize(env.alphabet, row).value, t, d).Pass? <==>
      Writable(env, s, id, row, row.version, t, d)
  {
    NormalizedIs(env, row);
    var now := Normalize(env.alphabet, row).value;
    MayWriteIff(env, s, id, now, t, d);
    if Writable(env, s, id, row, row.version, t, d) {
      var other :| StoredAs(env, row, row.version, other) && MayWrite(env, s, id, other, t, d);
      StoredOnce(env, row, other);
    }
  }

  /** A direct creation is accepted exactly on these grounds, and stores the row under the next id, no more. */
  lemma {:induction false} CreateTells(env: Env, s: State, row: Draft, t: bool, d: bool)
    ensures Accepted(env, s, Create(row, t, d)) <==>
      GoodRow(row) && Writable(env, s, s.nextId, row, row.version, t, d)
    ensures Accepted(env, s, Create(row, t, d)) ==>
      var after := Step(env, s, Create(row, t, d));
      && s.nextId in after.lessons && StoredAs(env, row, row.version, after.lessons[s.nextId])
      && after == s.(lessons := s.lessons[s.nextId := after.lessons[s.nextId]], nextId := s.nextId + 1)
  {
    NormalizedIs(env, row);
    if GoodRow(row) {
      WritableIff(env, s, s.nextId, row, t, d);
    }
  }

  lemma {:induction false} OwnVersionIgnored(env: Env, s: State, id: int, row: Draft, version: int, t: bool, d: bool)
    ensures GoodRow(row.(version := version)) <==> GoodRow(row)
    ensures Writable(env, s, id, row.(version := version), version, t, d) <==> Writable(env, s, id, row, version, t, d)
    ensures forall now :: StoredAs(env, row.(version := version), version, now) <==> StoredAs(env, row, version, now)
  {
  }

  /** So is an update, of a lesson at the version it expects; it raises the version by one. */
  lemma {:induction false} UpdateTells(
    env: Env, s: State, id: int, patch: Draft, expected: Option<int>, t: bool, d: bool)
    ensures Accepted(env, s, Update(id, patch, expected, t, d)) <==>
      && id in s.lessons && (expected.Some? ==> expected.value == s.lessons[id].version) && GoodRow(patch)
      && Writable(env, s, id, patch, s.lessons[id].version + 1, t, d)
    ensures Accepted(env, s, Update(id, patch, expected, t, d)) ==>
      var after := Step(env, s, Update(id, patch, expected, t, d));
      && id in after.lessons && StoredAs(env, patch, s.lessons[id].version + 1, after.lessons[id])
      && after == s.(lessons := s.lessons[id := after.lessons[id]])
  {
    if id in s.lessons {
      var row := patch.(version := s.lessons[id].version + 1);
      OwnVersionIgnored(env, s, id, patch, row.version, t, d);
      NormalizedIs(env, row);
      if GoodRow(row) {
        WritableIff(env, s, id, row, t, d);
      }
    }
  }
}
