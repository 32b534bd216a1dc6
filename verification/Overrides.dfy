/**
 Overrides (add, replace, cancel, restore) and direct creation and update of lessons.
 Each request has a plan, a function of the tables that either fails or says which rows are
 written; the methods below take the original's steps one by one and are proved to carry it out.
 */
module Overrides {
  import opened Wrappers
  import opened Store
  import opened Orders
  import Text

  datatype Request = Request(
    lesson: Option<int>,
    group: int,
    date: int,
    pair: int,
    subgroup: Option<int>,
    action: string,
    subject: Option<int>,
    teacher: Option<int>,
    location: Option<int>,
    format: Option<string>,
    reason: Option<string>,
    expected: Option<int>,
    confirmTeacher: bool,
    confirmDay: bool,
    createdBy: Option<int>)

  /** A lesson row as a caller hands it in, before normalisation. */
  datatype Draft = Draft(
    group: int,
    date: int,
    pair: int,
    subgroup: Option<int>,
    subject: Option<int>,
    teacher: Option<int>,
    format: string,
    status: string,
    source: string,
    flow: Option<string>,
    version: int)

  // ------------------------------------------------------------ row rules

  function ParseAction(al: Text.Alphabet, raw: string): Option<Action> {
    match Text.Lower(al, Text.Trim(al, raw))
    case "add" => Some(Add)
    case "replace" => Some(Replace)
    case "cancel" => Some(Cancel)
    case "restore" => Some(Restore)
    case _ => None
  }

  function ParseFormat(al: Text.Alphabet, raw: string): Format {
    match Text.Lower(al, Text.Trim(al, raw))
    case "online" => Online
    case "hybrid" => Hybrid
    case _ => Offline
  }

  function ParseSource(al: Text.Alphabet, raw: string): Source {
    match Text.Lower(al, Text.Trim(al, raw))
    case "imported" => Imported
    case "auto" => Auto
    case "generated" => Generated
    case "replacement" => Replacement
    case _ => Manual
  }

  function ParseStatus(raw: string): Option<Status> {
    match raw
    case "" => Some(Published)
    case "draft" => Some(Status.Draft)
    case "published" => Some(Published)
    case "cancelled" => Some(Cancelled)
    case _ => None
  }

  function NormalizeFlow(al: Text.Alphabet, flow: Option<string>): (r: Option<string>)
    ensures StoredFlow(al, r)
  {
    if flow.Some? && Text.Trim(al, flow.value) != "" then
      Text.TrimIsTrimmed(al, flow.value);
      Some(Text.Trim(al, flow.value))
    else
      None
  }

  function Normalize(al: Text.Alphabet, row: Draft): (r: Result<Lesson, Failure>)
    ensures r.Success? ==> ValidLesson(al, r.value)
  {
    var status := ParseStatus(row.status);
    :- Need(row.group > 0, GroupRequired);
    :- Need(row.date != 0, DateRequired);
    :- Need(1 <= row.pair <= 8, PairOutOfRange);
    :- Need(ValidSubgroup(row.subgroup), SubgroupOutOfRange);
    :- Need(status.Some?, InvalidStatus);
    Success(Lesson(row.group, row.date, row.pair, row.subgroup, row.subject, row.teacher,
                   ParseFormat(al, row.format), status.value, ParseSource(al, row.source),
                   NormalizeFlow(al, row.flow), if row.version <= 0 then 1 else row.version))
  }

  /** A row passes exactly on these grounds, and keeps its slot and people. */
  lemma {:induction false} NormalizeIff(al: Text.Alphabet, row: Draft)
    ensures Normalize(al, row).Success? <==>
      && row.group > 0 && row.date != 0 && 1 <= row.pair <= 8 && ValidSubgroup(row.subgroup)
      && row.status in {"", "draft", "published", "cancelled"}
    ensures Normalize(al, row).Success? ==>
      var l := Normalize(al, row).value;
      && l.group == row.group && l.date == row.date && l.pair == row.pair && l.subgroup == row.subgroup
      && l.subject == row.subject && l.teacher == row.teacher
      && (l.status == Cancelled <==> row.status == "cancelled") && (l.status == Status.Draft <==> row.status == "draft")
      && l.version >= 1 && l.version >= row.version && (l.version == row.version || l.version == 1)
  {
  }

  function FormatWord(f: Format): string {
    match f
    case Offline => "offline"
    case Online => "online"
    case Hybrid => "hybrid"
  }

  function SourceWord(s: Source): string {
    match s
    case Manual => "manual"
    case Imported => "imported"
    case Auto => "auto"
    case Generated => "generated"
    case Replacement => "replacement"
  }

  function StatusWord(s: Status): string {
    match s
    case Draft => "draft"
    case Published => "published"
    case Cancelled => "cancelled"
  }

  /** A stored lesson as a caller would hand it in again. */
  function DraftOf(l: Lesson): Draft {
    Draft.Draft(l.group, l.date, l.pair, l.subgroup, l.subject, l.teacher,
                FormatWord(l.format), StatusWord(l.status), SourceWord(l.source), l.flow, l.version)
  }

  /** The alphabet leaves a stored word as it is. */
  predicate KeepsWord(al: Text.Alphabet, word: string) {
    Text.Lower(al, Text.Trim(al, word)) == word
  }

  lemma {:induction false} FormatReadsBack(al: Text.Alphabet, f: Format)
    requires KeepsWord(al, FormatWord(f))
    ensures ParseFormat(al, FormatWord(f)) == f
  {
  }

  lemma {:induction false} SourceReadsBack(al: Text.Alphabet, s: Source)
    requires KeepsWord(al, SourceWord(s))
    ensures ParseSource(al, SourceWord(s)) == s
  {
  }

  lemma {:induction false} StatusReadsBack(s: Status)
    ensures ParseStatus(StatusWord(s)) == Some(s)
  {
  }

  /** Normalising what is stored changes nothing. */
  lemma {:induction false} NormalizeKeepsStored(al: Text.Alphabet, l: Lesson)
    requires ValidLesson(al, l) && l.date != 0
    requires KeepsWord(al, FormatWord(l.format)) && KeepsWord(al, SourceWord(l.source))
    ensures Normalize(al, DraftOf(l)) == Success(l)
  {
    FormatReadsBack(al, l.format);
    SourceReadsBack(al, l.source);
    StatusReadsBack(l.status);
    if l.flow.Some? {
      Text.TrimmedIsFixed(al, l.flow.value);
    }
  }

  // --------------------------------------------------- calendar and teachers

  function DayVerdict(env: Env, date: int, confirmed: bool): Verdict<Failure> {
    if date !in env.calendar then Pass
    else
      var day := env.calendar[date];
      if !day.affectsLessons then Pass
      else
        match day.kind
        case Blocked => if day.requiresConfirmation && confirmed then Pass else Fail(DayBlocked(day))
        case DayWarning => if day.requiresConfirmation && !confirmed then Fail(DayNeedsConfirmation(day)) else Pass
        case _ => Pass
  }

  /** A row that stands in the way of an unconfirmed request, though not of a confirmed one. */
  predicate NeedsConfirmation(row: TeacherDay, confirmed: bool) {
    row.level == Warning && row.requiresConfirmation && !confirmed
  }

  function FirstHard(rows: seq<TeacherDay>): Option<TeacherDay> {
    if rows == [] then None
    else if rows[0].level == HardBlock then Some(rows[0])
    else FirstHard(rows[1..])
  }

  function FirstWarning(rows: seq<TeacherDay>, confirmed: bool): Option<TeacherDay> {
    if rows == [] then None
    else if NeedsConfirmation(rows[0], confirmed) then Some(rows[0])
    else FirstWarning(rows[1..], confirmed)
  }

  /** The rows of one teacher and day, in id order. */
  function RowsFor(rows: seq<TeacherDay>, teacher: int, date: int): seq<TeacherDay> {
    if rows == [] then []
    else if rows[0].teacher == teacher && rows[0].date == date then [rows[0]] + RowsFor(rows[1..], teacher, date)
    else RowsFor(rows[1..], teacher, date)
  }

  /** A hard block comes before any warning; among equals the lowest id comes first. */
  function TeacherVerdict(env: Env, teacher: Option<int>, date: int, confirmed: bool): Verdict<Failure> {
    if teacher.None? || teacher.value <= 0 then Pass
    else RowsVerdict(RowsFor(env.teacherDays, teacher.value, date), confirmed)
  }

  function RowsVerdict(rows: seq<TeacherDay>, confirmed: bool): Verdict<Failure> {
    if FirstHard(rows).Some? then Fail(TeacherHardBlock(FirstHard(rows).value))
    else if FirstWarning(rows, confirmed).Some? then Fail(TeacherNeedsConfirmation(FirstWarning(rows, confirmed).value))
    else Pass
  }

  function Hard(rows: seq<TeacherDay>): seq<TeacherDay> {
    if rows == [] then []
    else if rows[0].level == HardBlock then [rows[0]] + Hard(rows[1..])
    else Hard(rows[1..])
  }

  function Soft(rows: seq<TeacherDay>): seq<TeacherDay> {
    if rows == [] then []
    else if rows[0].level != HardBlock then [rows[0]] + Soft(rows[1..])
    else Soft(rows[1..])
  }

  /** The query's order: hard blocks first, then by id. */
  function OrderedRows(env: Env, teacher: int, date: int): seq<TeacherDay> {
    var rows := RowsFor(env.teacherDays, teacher, date);
    Hard(rows) + Soft(rows)
  }

  /** Leaving at the first row, in the order given, that stands in the way. */
  function Scan(rows: seq<TeacherDay>, confirmed: bool): Verdict<Failure> {
    if rows == [] then Pass
    else if rows[0].level == HardBlock then Fail(TeacherHardBlock(rows[0]))
    else if NeedsConfirmation(rows[0], confirmed) then Fail(TeacherNeedsConfirmation(rows[0]))
    else Scan(rows[1..], confirmed)
  }

  lemma {:induction false} ScanSoft(rows: seq<TeacherDay>, confirmed: bool)
    ensures Scan(Soft(rows), confirmed) ==
      if FirstWarning(rows, confirmed).Some? then Fail(TeacherNeedsConfirmation(FirstWarning(rows, confirmed).value))
      else Pass
  {
    if rows != [] {
      ScanSoft(rows[1..], confirmed);
      if rows[0].level != HardBlock {
        assert Soft(rows)[1..] == Soft(rows[1..]);
      }
    }
  }

  lemma {:induction false} FirstOfHard(rows: seq<TeacherDay>)
    ensures FirstHard(rows) == if Hard(rows) == [] then None else Some(Hard(rows)[0])
    ensures Hard(rows) != [] ==> Hard(rows)[0].level == HardBlock
  {
    if rows != [] {
      FirstOfHard(rows[1..]);
    }
  }

  /** Leaving the loop early, over rows with the hard blocks first, loses no hard block behind a warning. */
  lemma {:induction false} ScanOrdered(rows: seq<TeacherDay>, confirmed: bool)
    ensures Scan(Hard(rows) + Soft(rows), confirmed) == RowsVerdict(rows, confirmed)
  {
    FirstOfHard(rows);
    ScanSoft(rows, confirmed);
    if Hard(rows) == [] {
      assert Hard(rows) + Soft(rows) == Soft(rows);
    } else {
      assert (Hard(rows) + Soft(rows))[0] == Hard(rows)[0];
    }
  }

  /** The row loop over the ordered query result. */
  method CheckTeacherConstraints(env: Env, teacher: Option<int>, date: int, confirmed: bool)
    returns (v: Verdict<Failure>)
    ensures v == TeacherVerdict(env, teacher, date, confirmed)
  {
    if teacher.None? || teacher.value <= 0 {
      return Pass;
    }
    var rows := OrderedRows(env, teacher.value, date);
    ScanOrdered(RowsFor(env.teacherDays, teacher.value, date), confirmed);
    for i := 0 to |rows|
      invariant Scan(rows, confirmed) == Scan(rows[i..], confirmed)
    {
      if rows[i].level == HardBlock {
        return Fail(TeacherHardBlock(rows[i]));
      }
      if rows[i].level == Warning && rows[i].requiresConfirmation && !confirmed {
        return Fail(TeacherNeedsConfirmation(rows[i]));
      }
      assert rows[i..][1..] == rows[i + 1..];
    }
    return Pass;
  }

  /** The calendar row of the date, if there is one, decides. */
  method CheckGlobalDayConstraint(env: Env, date: int, confirmed: bool) returns (v: Verdict<Failure>)
    ensures v == DayVerdict(env, date, confirmed)
  {
    if date !in env.calendar {
      return Pass;
    }
    var row := env.calendar[date];
    if !row.affectsLessons {
      return Pass;
    }
    match row.kind {
      case Blocked =>
        if row.requiresConfirmation && confirmed {
          return Pass;
        }
        return Fail(DayBlocked(row));
      case DayWarning =>
        if row.requiresConfirmation && !confirmed {
          return Fail(DayNeedsConfirmation(row));
        }
        return Pass;
      case _ =>
        return Pass;
    }
  }

  // ---------------------------------------------------------------- rooms

  /** The lesson is not cancelled and has the location, published, on that day and pair. */
  predicate Holds(s: State, id: int, location: int, date: int, pair: int) {
    && id in s.lessons && id in s.rooms
    && s.rooms[id].status == Published && s.rooms[id].location == location
    && Active(s.lessons[id]) && s.lessons[id].date == date && s.lessons[id].pair == pair
  }

  /** The stored key and the asking key do not name one flow. */
  predicate DifferentFlow(al: Text.Alphabet, stored: Option<string>, flow: string) {
    stored.Or("") == "" || flow == "" || Text.Lower(al, stored.Or("")) != flow
  }

  predicate RoomTaken(
    env: Env, s: State, location: int, date: int, pair: int, flow: Option<string>, exclude: Option<int>)
  {
    var key := Text.Lower(env.alphabet, Text.Trim(env.alphabet, flow.Or("")));
    exists id | id in s.lessons ::
      Holds(s, id, location, date, pair) && DifferentFlow(env.alphabet, s.lessons[id].flow, key) && exclude != Some(id)
  }

  function RoomVerdict(
    env: Env, s: State, location: int, date: int, pair: int, flow: Option<string>, exclude: Option<int>)
    : Verdict<Failure>
  {
    if location <= 0 then Fail(LocationRequired)
    else if IsVirtual(env, location) then Pass
    else if RoomTaken(env, s, location, date, pair, flow, exclude) then Fail(RoomConflict(location, date, pair))
    else Pass
  }

  function AnyRoomVerdict(
    env: Env, s: State, location: Option<int>, lesson: Lesson, exclude: Option<int>): Verdict<Failure>
  {
    if location.None? then Pass
    else RoomVerdict(env, s, location.value, lesson.date, lesson.pair, lesson.flow, exclude)
  }

  // ---------------------------------------------------------------- slots

  lemma {:induction false} LeastIdExists(ids: set<int>)
    requires ids != {}
    ensures exists m :: m in ids && forall x | x in ids :: m <= x
  {
    var a := Member(ids);
    if ids - {a} == {} {
      assert ids == {a};
    } else {
      LeastIdExists(ids - {a});
      var b :| b in ids - {a} && forall x | x in ids - {a} :: b <= x;
      var m := if a < b then a else b;
      assert forall x | x in ids :: x == a || x in ids - {a};
      assert m in ids && forall x | x in ids :: m <= x;
    }
  }

  function LeastId(ids: set<int>): (m: int)
    requires ids != {}
    ensures m in ids && forall x | x in ids :: m <= x
  {
    LeastIdExists(ids);
    var m :| m in ids && forall x | x in ids :: m <= x;
    m
  }

  function ActiveAt(s: State, group: int, date: int, pair: int, subgroup: Option<int>): set<int> {
    set id | id in s.lessons && Active(s.lessons[id]) && s.lessons[id].group == group && s.lessons[id].date == date
             && s.lessons[id].pair == pair && s.lessons[id].subgroup == subgroup
  }

  /** The lesson a request means: the named one, or the active one in the slot with the lowest id. */
  function Locate(s: State, req: Request): (r: Option<int>)
    ensures r.Some? ==> r.value in s.lessons
  {
    if req.lesson.Some? then
      if req.lesson.value in s.lessons then req.lesson else None
    else
      var ids := ActiveAt(s, req.group, req.date, req.pair, req.subgroup);
      if ids == {} then None else Some(LeastId(ids))
  }

  predicate TakesSlot(lesson: Lesson, req: Request) {
    && Active(lesson) && lesson.group == req.group && lesson.date == req.date && lesson.pair == req.pair
    && lesson.subgroup == req.subgroup
  }

  predicate Meant(s: State, req: Request, id: int)
    requires id in s.lessons
  {
    if req.lesson.Some? then req.lesson.value == id else TakesSlot(s.lessons[id], req)
  }

  /**
   A request means the lesson it names, or else the first active one in its slot, and fails exactly if
   there is none.
   */
  lemma {:induction false} LocatedIff(s: State, req: Request)
    ensures match Locate(s, req)
      case Some(id) => id in s.lessons && Meant(s, req, id)
                       && forall other | other in s.lessons && Meant(s, req, other) :: id <= other
      case None => forall other | other in s.lessons :: !Meant(s, req, other)
  {
    var ids := ActiveAt(s, req.group, req.date, req.pair, req.subgroup);
    assert forall id | id in s.lessons :: id in ids <==> TakesSlot(s.lessons[id], req);
  }

  /** Another lesson that is not cancelled is in the slot of this one. */
  predicate SlotTaken(s: State, id: int, lesson: Lesson) {
    exists other | other in s.lessons :: other != id && Active(s.lessons[other]) && SameSlot(s.lessons[other], lesson)
  }

  /** The partial unique index, where the database has it. */
  function IndexVerdict(env: Env, s: State, id: int, lesson: Lesson): Verdict<Failure> {
    Need(!(env.slotIndex && Active(lesson) && SlotTaken(s, id, lesson)), SlotIndexViolated)
  }

  // ---------------------------------------------------------------- plans

  /** The rows an accepted override writes. */
  datatype Change = Change(id: int, lesson: Lesson, room: Option<Room>, entry: Entry)

  function Commit(s: State, c: Change): State {
    State(s.lessons[c.id := c.lesson],
          if c.room.Some? then s.rooms[c.id := c.room.value] else s.rooms,
          s.journal + [c.entry],
          if c.entry.action == Add then c.id + 1 else s.nextId)
  }

  /** The part of a journal row every override of a stored lesson starts from. */
  function EntryFor(s: State, id: int, req: Request, action: Action): Entry
    requires id in s.lessons
  {
    var lesson := s.lessons[id];
    Entry(id, lesson.group, lesson.date, lesson.pair, lesson.subgroup, action,
          lesson.subject, lesson.teacher, LocationOf(s, id), Some(lesson.format),
          None, None, None, None, req.reason, req.expected, lesson.version + 1, req.createdBy)
  }

  function PlanCancel(s: State, id: int, req: Request): Change
    requires id in s.lessons
  {
    var lesson := s.lessons[id];
    Change(id, lesson.(status := Cancelled, source := Replacement, version := lesson.version + 1), None,
           EntryFor(s, id, req, Cancel))
  }

  function NextLocation(s: State, id: int, req: Request): Option<int> {
    if req.location.Some? then req.location else LocationOf(s, id)
  }

  /** The lesson as a replace or a restore publishes it. */
  function NextLesson(env: Env, lesson: Lesson, req: Request): Lesson {
    lesson.(subject := if req.subject.Some? then req.subject else lesson.subject,
            teacher := if req.teacher.Some? then req.teacher else lesson.teacher,
            format := if req.format.Some? then ParseFormat(env.alphabet, req.format.value) else lesson.format,
            status := Published, source := Replacement, version := lesson.version + 1)
  }

  /** The day, then the teacher, then the room, then the slot index. */
  function RepublishVerdict(
    env: Env, s: State, id: int, next: Lesson, location: Option<int>, req: Request): Verdict<Failure>
  {
    var day := DayVerdict(env, next.date, req.confirmDay);
    var teacher := TeacherVerdict(env, next.teacher, next.date, req.confirmTeacher);
    var room := AnyRoomVerdict(env, s, location, next, Some(id));
    if day.Fail? then day
    else if teacher.Fail? then teacher
    else if room.Fail? then room
    else IndexVerdict(env, s, id, next)
  }

  function PlanRepublish(env: Env, s: State, id: int, req: Request, action: Action): Result<Change, Failure>
    requires id in s.lessons
  {
    var next := NextLesson(env, s.lessons[id], req);
    var location := NextLocation(s, id, req);
    :- RepublishVerdict(env, s, id, next, location, req);
    Success(Change(id, next,
                   if location.Some? then Some(Room(location.value, ReplacementRoom, Published)) else None,
                   EntryFor(s, id, req, action).(newSubject := next.subject, newTeacher := next.teacher,
                                                 newLocation := location, newFormat := Some(next.format))))
  }

  function PlanExisting(env: Env, s: State, req: Request, action: Action): Result<Change, Failure> {
    var located := Locate(s, req);
    :- Need(located.Some?, NotFound);
    var id := located.value;
    :- Need(req.expected.None? || req.expected.value == s.lessons[id].version, VersionConflict);
    if action == Cancel then Success(PlanCancel(s, id, req)) else PlanRepublish(env, s, id, req, action)
  }

  /** The lesson an add puts in the slot: it has no flow key. */
  function NewLesson(env: Env, req: Request): Lesson {
    Lesson(req.group, req.date, req.pair, req.subgroup, req.subject, req.teacher,
           if req.format.Some? then ParseFormat(env.alphabet, req.format.value) else Offline,
           Published, Replacement, None, 1)
  }

  function AddVerdict(env: Env, s: State, req: Request): Verdict<Failure> {
    var day := DayVerdict(env, req.date, req.confirmDay);
    var teacher := TeacherVerdict(env, req.teacher, req.date, req.confirmTeacher);
    var room := AnyRoomVerdict(env, s, req.location, NewLesson(env, req), None);
    if ActiveAt(s, req.group, req.date, req.pair, req.subgroup) != {} then Fail(SlotOccupied)
    else if req.subject.None? then Fail(SubjectRequired)
    else if day.Fail? then day
    else if teacher.Fail? then teacher
    else if req.date == 0 then Fail(DateRequired)
    else if room.Fail? then room
    else IndexVerdict(env, s, s.nextId, NewLesson(env, req))
  }

  function PlanAdd(env: Env, s: State, req: Request): Result<Change, Failure> {
    var lesson := NewLesson(env, req);
    :- AddVerdict(env, s, req);
    Success(Change(s.nextId, lesson,
                   if req.location.Some? then Some(Room(req.location.value, ReplacementRoom, Published)) else None,
                   Entry(s.nextId, req.group, req.date, req.pair, req.subgroup, Add, None, None, None, None,
                         req.subject, req.teacher, req.location, Some(lesson.format), req.reason, None, 1,
                         req.createdBy)))
  }

  /** What an override request does to the tables. */
  function Plan(env: Env, s: State, req: Request): Result<Change, Failure> {
    var action := ParseAction(env.alphabet, req.action);
    :- Need(action.Some?, InvalidAction);
    :- Need(req.group > 0, GroupRequired);
    :- Need(1 <= req.pair <= 8, PairOutOfRange);
    :- Need(ValidSubgroup(req.subgroup), SubgroupOutOfRange);
    if action.value == Add then PlanAdd(env, s, req) else PlanExisting(env, s, req, action.value)
  }

  /** The checks on a lesson row that is written directly: rooms are none of their business. */
  function RowVerdict(
    env: Env, s: State, id: int, lesson: Lesson, confirmTeacher: bool, confirmDay: bool): Verdict<Failure>
  {
    var day := if Active(lesson) then DayVerdict(env, lesson.date, confirmDay) else Pass;
    var teacher := TeacherVerdict(env, lesson.teacher, lesson.date, confirmTeacher);
    if day.Fail? then day
    else if teacher.Fail? then teacher
    else IndexVerdict(env, s, id, lesson)
  }

  function PlanCreate(env: Env, s: State, row: Draft, confirmTeacher: bool, confirmDay: bool): Result<Lesson, Failure> {
    var lesson :- Normalize(env.alphabet, row);
    :- RowVerdict(env, s, s.nextId, lesson, confirmTeacher, confirmDay);
    Success(lesson)
  }

  function PlanUpdate(
    env: Env, s: State, id: int, patch: Draft, expected: Option<int>, confirmTeacher: bool, confirmDay: bool)
    : Result<Lesson, Failure>
  {
    if id !in s.lessons then Result.Failure(NotFound)
    else
      :- Need(expected.None? || expected.value == s.lessons[id].version, VersionConflict);
      var lesson :- Normalize(env.alphabet, patch.(version := s.lessons[id].version + 1));
      :- RowVerdict(env, s, id, lesson, confirmTeacher, confirmDay);
      Success(lesson)
  }

  // -------------------------------------------------------------- methods

  /** One transaction: on any error the tables stay as they were. */
  method ApplyScheduleOverride(env: Env, db: Tables, req: Request) returns (r: Result<Entry, Failure>)
    modifies db
    ensures var plan := Plan(env, old(db.Snapshot()), req);
      if plan.Success? then r == Success(plan.value.entry) && db.Snapshot() == Commit(old(db.Snapshot()), plan.value)
      else r == Result.Failure(plan.error) && db.Snapshot() == old(db.Snapshot())
  {
    var action := ParseAction(env.alphabet, req.action);
    if action.None? {
      return Result.Failure(InvalidAction);
    }
    if req.group <= 0 {
      return Result.Failure(GroupRequired);
    }
    if req.pair < 1 || req.pair > 8 {
      return Result.Failure(PairOutOfRange);
    }
    if req.subgroup.Some? && (req.subgroup.value < 1 || req.subgroup.value > 2) {
      return Result.Failure(SubgroupOutOfRange);
    }
    if action.value == Add {
      r := ApplyAddOverride(env, db, req);
    } else {
      r := ApplyExistingLessonOverride(env, db, req, action.value);
    }
  }

  method ApplyExistingLessonOverride(
    env: Env, db: Tables, req: Request, action: Action) returns (r: Result<Entry, Failure>)
    requires action != Add
    modifies db
    ensures var plan := PlanExisting(env, old(db.Snapshot()), req, action);
      if plan.Success? then r == Success(plan.value.entry) && db.Snapshot() == Commit(old(db.Snapshot()), plan.value)
      else r == Result.Failure(plan.error) && db.Snapshot() == old(db.Snapshot())
  {
    var located := Locate(db.Snapshot(), req);
    if located.None? {
      return Result.Failure(NotFound);
    }
    var id := located.value;
    var lesson := db.lessons[id];
    if req.expected.Some? && lesson.version != req.expected.value {
      return Result.Failure(VersionConflict);
    }
    if action == Cancel {
      var entry := EntryFor(db.Snapshot(), id, req, action);
      lesson := lesson.(status := Cancelled, source := Replacement);
      lesson := lesson.(version := lesson.version + 1);
      db.lessons := db.lessons[id := lesson];
      db.journal := db.journal + [entry];
      return Success(entry);
    }
    r := Republish(env, db, id, req, action);
  }

  /** The rest of a replace or a restore: checks, then the lesson, the room and the journal row. */
  method Republish(env: Env, db: Tables, id: int, req: Request, action: Action) returns (r: Result<Entry, Failure>)
    requires id in db.lessons && action != Add
    modifies db
    ensures var plan := PlanRepublish(env, old(db.Snapshot()), id, req, action);
      if plan.Success? then r == Success(plan.value.entry) && db.Snapshot() == Commit(old(db.Snapshot()), plan.value)
      else r == Result.Failure(plan.error) && db.Snapshot() == old(db.Snapshot())
  {
    var s := db.Snapshot();
    var lesson := s.lessons[id];
    var entry := EntryFor(s, id, req, action);
    if req.subject.Some? {
      lesson := lesson.(subject := req.subject);
    }
    if req.teacher.Some? {
      lesson := lesson.(teacher := req.teacher);
    }
    if req.format.Some? {
      lesson := lesson.(format := ParseFormat(env.alphabet, req.format.value));
    }
    var location := LocationOf(s, id);
    if req.location.Some? {
      location := req.location;
    }
    lesson := lesson.(status := Published, source := Replacement);
    lesson := lesson.(version := lesson.version + 1);
    assert lesson == NextLesson(env, s.lessons[id], req);

    var v := CheckRepublish(env, s, id, lesson, location, req);
    if v.Fail? {
      return Result.Failure(v.error);
    }
    entry := entry.(newSubject := lesson.subject, newTeacher := lesson.teacher, newLocation := location,
                    newFormat := Some(lesson.format));
    Save(db, id, lesson, location, entry);
    return Success(entry);
  }

  method CheckRepublish(env: Env, s: State, id: int, next: Lesson, location: Option<int>, req: Request)
    returns (v: Verdict<Failure>)
    ensures v == RepublishVerdict(env, s, id, next, location, req)
    ensures v.Pass? && location.Some? ==> location.value > 0
  {
    v := CheckGlobalDayConstraint(env, next.date, req.confirmDay);
    if v.Fail? {
      return;
    }
    v := CheckTeacherConstraints(env, next.teacher, next.date, req.confirmTeacher);
    if v.Fail? {
      return;
    }
    if location.Some? {
      v := RoomVerdict(env, s, location.value, next.date, next.pair, next.flow, Some(id));
      if v.Fail? {
        return;
      }
    }
    v := IndexVerdict(env, s, id, next);
  }

  /** Saves the lesson, then its room if it has one, then the journal row. */
  method Save(db: Tables, id: int, lesson: Lesson, location: Option<int>, entry: Entry)
    requires location.Some? ==> location.value > 0
    modifies db
    ensures db.Snapshot() == old(db.Snapshot()).(
      lessons := old(db.lessons)[id := lesson],
      rooms := if location.Some? then old(db.rooms)[id := Room(location.value, ReplacementRoom, Published)]
        else old(db.rooms),
      journal := old(db.journal) + [entry])
  {
    db.lessons := db.lessons[id := lesson];
    if location.Some? {
      var stored := db.UpsertRoom(id, location.value, ReplacementRoom);
    }
    db.journal := db.journal + [entry];
  }

  method ApplyAddOverride(env: Env, db: Tables, req: Request) returns (r: Result<Entry, Failure>)
    modifies db
    ensures var plan := PlanAdd(env, old(db.Snapshot()), req);
      if plan.Success? then r == Success(plan.value.entry) && db.Snapshot() == Commit(old(db.Snapshot()), plan.value)
      else r == Result.Failure(plan.error) && db.Snapshot() == old(db.Snapshot())
  {
    var format := Offline;
    if req.format.Some? {
      format := ParseFormat(env.alphabet, req.format.value);
    }
    var lesson := Lesson(req.group, req.date, req.pair, req.subgroup, req.subject, req.teacher, format, Published,
                         Replacement, None, 1);
    var v := CheckAdd(env, db.Snapshot(), req, lesson);
    if v.Fail? {
      return Result.Failure(v.error);
    }
    var id := db.CreateLesson(lesson);
    if req.location.Some? {
      var stored := db.UpsertRoom(id, req.location.value, ReplacementRoom);
    }
    var entry := Entry(id, req.group, req.date, req.pair, req.subgroup, Add, None, None, None, None,
                       req.subject, req.teacher, req.location, Some(format), req.reason, None, lesson.version,
                       req.createdBy);
    db.journal := db.journal + [entry];
    return Success(entry);
  }

  method CheckAdd(env: Env, s: State, req: Request, lesson: Lesson) returns (v: Verdict<Failure>)
    requires lesson == NewLesson(env, req)
    ensures v == AddVerdict(env, s, req)
    ensures v.Pass? && req.location.Some? ==> req.location.value > 0
  {
    if ActiveAt(s, req.group, req.date, req.pair, req.subgroup) != {} {
      return Fail(SlotOccupied);
    }
    if req.subject.None? {
      return Fail(SubjectRequired);
    }
    v := CheckGlobalDayConstraint(env, req.date, req.confirmDay);
    if v.Fail? {
      return;
    }
    v := CheckTeacherConstraints(env, req.teacher, req.date, req.confirmTeacher);
    if v.Fail? {
      return;
    }
    if req.date == 0 {
      return Fail(DateRequired);
    }
    if req.location.Some? {
      v := RoomVerdict(env, s, req.location.value, req.date, req.pair, lesson.flow, None);
      if v.Fail? {
        return;
      }
    }
    v := IndexVerdict(env, s, s.nextId, lesson);
  }

  method CheckRow(env: Env, s: State, id: int, lesson: Lesson, confirmTeacher: bool, confirmDay: bool)
    returns (v: Verdict<Failure>)
    ensures v == RowVerdict(env, s, id, lesson, confirmTeacher, confirmDay)
  {
    if lesson.status != Cancelled {
      v := CheckGlobalDayConstraint(env, lesson.date, confirmDay);
      if v.Fail? {
        return;
      }
    }
    v := CheckTeacherConstraints(env, lesson.teacher, lesson.date, confirmTeacher);
    if v.Fail? {
      return;
    }
    v := IndexVerdict(env, s, id, lesson);
  }

  method CreateScheduleLesson(env: Env, db: Tables, row: Draft, confirmTeacher: bool, confirmDay: bool)
    returns (r: Result<int, Failure>)
    modifies db
    ensures var plan := PlanCreate(env, old(db.Snapshot()), row, confirmTeacher, confirmDay);
      if plan.Success? then
        && r == Success(old(db.nextId))
        && db.Snapshot() == old(db.Snapshot()).(
             lessons := old(db.lessons)[old(db.nextId) := plan.value], nextId := old(db.nextId) + 1)
      else r == Result.Failure(plan.error) && db.Snapshot() == old(db.Snapshot())
  {
    var normal := Normalize(env.alphabet, row);
    if normal.Failure? {
      return Result.Failure(normal.error);
    }
    var lesson := normal.value;
    var v := CheckRow(env, db.Snapshot(), db.nextId, lesson, confirmTeacher, confirmDay);
    if v.Fail? {
      return Result.Failure(v.error);
    }
    var id := db.CreateLesson(lesson);
    return Success(id);
  }

  method UpdateScheduleLesson(
    env: Env, db: Tables, id: int, patch: Draft, expected: Option<int>, confirmTeacher: bool, confirmDay: bool)
    returns (r: Result<Lesson, Failure>)
    modifies db
    ensures r == PlanUpdate(env, old(db.Snapshot()), id, patch, expected, confirmTeacher, confirmDay)
    ensures db.Snapshot() ==
      if r.Success? then old(db.Snapshot()).(lessons := old(db.lessons)[id := r.value]) else old(db.Snapshot())
  {
    if id !in db.lessons {
      return Result.Failure(NotFound);
    }
    var row := db.lessons[id];
    if expected.Some? && row.version != expected.value {
      return Result.Failure(VersionConflict);
    }
    var patched := patch.(version := row.version + 1);
    var normal := Normalize(env.alphabet, patched);
    if normal.Failure? {
      return Result.Failure(normal.error);
    }
    row := normal.value;
    var v := CheckRow(env, db.Snapshot(), id, row, confirmTeacher, confirmDay);
    if v.Fail? {
      return Result.Failure(v.error);
    }
    db.lessons := db.lessons[id := row];
    return Success(row);
  }
}
