/**
 The tables of the schedule: lessons by id, at most one room assignment per lesson, and the
 append-only override journal, with the reference tables that the write path only reads.
 Days are numbers; day 0 is the zero date of the original, a Monday.
 */
module Store {
  import opened Wrappers
  import Text

  datatype Status = Draft | Published | Cancelled

  datatype Format = Offline | Online | Hybrid

  datatype Source = Manual | Imported | Auto | Generated | Replacement

  datatype Lesson = Lesson(
    group: int,
    date: int,
    pair: int,
    subgroup: Option<int>,
    subject: Option<int>,
    teacher: Option<int>,
    format: Format,
    status: Status,
    source: Source,
    flow: Option<string>,
    version: int)

  datatype RoomSource = ManualRoom | AutoRoom | ImportedRoom | PreferredRoom | RequestedRoom | ReplacementRoom

  datatype Room = Room(location: int, source: RoomSource, status: Status)

  datatype Action = Add | Replace | Cancel | Restore

  /** One journal row: what the lesson was, and what the override made of it. */
  datatype Entry = Entry(
    lesson: int,
    group: int,
    date: int,
    pair: int,
    subgroup: Option<int>,
    action: Action,
    oldSubject: Option<int>,
    oldTeacher: Option<int>,
    oldLocation: Option<int>,
    oldFormat: Option<Format>,
    newSubject: Option<int>,
    newTeacher: Option<int>,
    newLocation: Option<int>,
    newFormat: Option<Format>,
    reason: Option<string>,
    expected: Option<int>,
    applied: int,
    createdBy: Option<int>)

  datatype State = State(
    lessons: map<int, Lesson>,
    rooms: map<int, Room>,
    journal: seq<Entry>,
    nextId: int)

  // ------------------------------------------------------ reference tables

  datatype Level = HardBlock | Warning | OtherLevel

  datatype TeacherDay = TeacherDay(teacher: int, date: int, level: Level, requiresConfirmation: bool)

  datatype DayKind = Blocked | DayWarning | Info | OtherKind

  datatype CalendarDay = CalendarDay(kind: DayKind, affectsLessons: bool, requiresConfirmation: bool)

  datatype Location = Location(virtualKind: bool, types: set<string>, active: bool, campus: string)

  datatype Availability = Availability(week: int, location: int, available: bool)

  /**
   The tables no step changes. Teacher days are in id order, availability rows in the order of
   location name and id. slotIndex says whether the database enforces the partial unique index
   on (group, date, pair, subgroup) of the lessons that are not cancelled.
   */
  datatype Env = Env(
    alphabet: Text.Alphabet,
    teacherDays: seq<TeacherDay>,
    calendar: map<int, CalendarDay>,
    locations: map<int, Location>,
    availability: seq<Availability>,
    subjectNames: map<int, string>,
    slotIndex: bool)

  /** A location of kind virtual, or one linked to the type "online"; an unknown location is neither. */
  predicate IsVirtual(env: Env, location: int) {
    location in env.locations &&
    (env.locations[location].virtualKind || "online" in env.locations[location].types)
  }

  /** Location ids come from a serial key. */
  ghost predicate ValidEnv(env: Env) {
    forall location | location in env.locations :: location > 0
  }

  /** The errors a request can end with. */
  datatype Failure =
    | InvalidAction
    | GroupRequired
    | DateRequired
    | PairOutOfRange
    | SubgroupOutOfRange
    | InvalidStatus
    | NotFound
    | VersionConflict
    | SlotOccupied
    | SubjectRequired
    | LocationRequired
    | DayBlocked(day: CalendarDay)
    | DayNeedsConfirmation(day: CalendarDay)
    | TeacherHardBlock(row: TeacherDay)
    | TeacherNeedsConfirmation(row: TeacherDay)
    | RoomConflict(location: int, date: int, pair: int)
    | SlotIndexViolated
    | EndBeforeStart

  // --------------------------------------------------------------- helpers

  /** The first day of the week. */
  function Monday(day: int): int {
    day - day % 7
  }

  predicate Active(lesson: Lesson) {
    lesson.status != Cancelled
  }

  function SubgroupKey(subgroup: Option<int>): int {
    subgroup.Or(0)
  }

  predicate ValidSubgroup(subgroup: Option<int>) {
    subgroup.Some? ==> 1 <= subgroup.value <= 2
  }

  /** The slot the partial unique index is on. */
  predicate SameSlot(a: Lesson, b: Lesson) {
    a.group == b.group && a.date == b.date && a.pair == b.pair && SubgroupKey(a.subgroup) == SubgroupKey(b.subgroup)
  }

  /** A flow key as normalisation stores it: absent, or trimmed and not empty. */
  ghost predicate StoredFlow(al: Text.Alphabet, flow: Option<string>) {
    flow.Some? ==> flow.value != "" && Text.Trimmed(al, flow.value)
  }

  ghost predicate ValidLesson(al: Text.Alphabet, lesson: Lesson) {
    && lesson.group > 0
    && 1 <= lesson.pair <= 8
    && ValidSubgroup(lesson.subgroup)
    && StoredFlow(al, lesson.flow)
    && lesson.version >= 1
  }

  /** What keys, checks and row normalisation guarantee of the stored rows. */
  ghost predicate WellFormed(env: Env, s: State) {
    && s.nextId > 0
    && s.rooms.Keys <= s.lessons.Keys
    && (forall id | id in s.lessons :: 0 < id < s.nextId && ValidLesson(env.alphabet, s.lessons[id]))
    && (forall id | id in s.rooms :: s.rooms[id].location > 0)
  }

  function LocationOf(s: State, id: int): Option<int> {
    if id in s.rooms then Some(s.rooms[id].location) else None
  }

  // ------------------------------------------------------- mutable tables

  /** The tables a transaction works on. */
  class Tables {
    var lessons: map<int, Lesson>
    var rooms: map<int, Room>
    var journal: seq<Entry>
    var nextId: int

    constructor (s: State)
      ensures Snapshot() == s
    {
      lessons, rooms, journal, nextId := s.lessons, s.rooms, s.journal, s.nextId;
    }

    function Snapshot(): State
      reads this
    {
      State(lessons, rooms, journal, nextId)
    }

    /** Inserts a lesson under the next serial id. */
    method CreateLesson(lesson: Lesson) returns (id: int)
      modifies this
      ensures id == old(nextId)
      ensures Snapshot() == old(Snapshot()).(lessons := old(lessons)[id := lesson], nextId := id + 1)
    {
      id := nextId;
      lessons := lessons[id := lesson];
      nextId := nextId + 1;
    }

    /** Updates the lesson's room assignment, or inserts one; published either way. */
    method UpsertRoom(lesson: int, location: int, source: RoomSource) returns (v: Verdict<Failure>)
      modifies this`rooms
      ensures v == Need(location > 0, LocationRequired)
      ensures rooms == if location > 0 then old(rooms)[lesson := Room(location, source, Published)] else old(rooms)
    {
      if location <= 0 {
        return Fail(LocationRequired);
      }
      if lesson in rooms {
        var existing := rooms[lesson];
        existing := existing.(location := location);
        existing := existing.(source := source);
        existing := existing.(status := Published);
        rooms := rooms[lesson := existing];
      } else {
        rooms := rooms[lesson := Room(location, source, Published)];
      }
      return Pass;
    }
  }
}
