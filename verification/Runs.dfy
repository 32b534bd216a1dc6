/** Runs of requests over the tables: each step is one transaction, and a failed one changes nothing. */
module Runs {
  import opened Wrappers
  import opened Store
  import opened Overrides
  import Autofill
  import Rerun = AutofillIdempotence
  import Views

  datatype Op =
    | Override(req: Request)
    | Create(row: Draft, confirmTeacher: bool, confirmDay: bool)
    | Update(id: int, patch: Draft, expected: Option<int>, confirmTeacher: bool, confirmDay: bool)
    | Fill(fill: Autofill.Request)

  predicate Accepted(env: Env, s: State, op: Op) {
    match op
    case Override(req) => Plan(env, s, req).Success?
    case Create(row, t, d) => PlanCreate(env, s, row, t, d).Success?
    case Update(id, patch, expected, t, d) => PlanUpdate(env, s, id, patch, expected, t, d).Success?
    case Fill(req) => Autofill.InputVerdict(req).Pass?
  }

  /** The tables after one request. */
  ghost function Step(env: Env, s: State, op: Op): State {
    if !Accepted(env, s, op) then s
    else
      match op
      case Override(req) => Commit(s, Plan(env, s, req).value)
      case Create(row, t, d) =>
        s.(lessons := s.lessons[s.nextId := PlanCreate(env, s, row, t, d).value], nextId := s.nextId + 1)
      case Update(id, patch, expected, t, d) =>
        s.(lessons := s.lessons[id := PlanUpdate(env, s, id, patch, expected, t, d).value])
      case Fill(req) => Autofill.Effect(env, s, req)
  }

  ghost function Run(env: Env, s: State, ops: seq<Op>): State {
    if ops == [] then s else Step(env, Run(env, s, ops[..|ops| - 1]), ops[|ops| - 1])
  }

  /** What an accepted override writes: the named or next lesson, its room if it has one, and one journal row. */
  lemma {:induction false} PlanShape(env: Env, s: State, req: Request)
    requires WellFormed(env, s) && Plan(env, s, req).Success?
    ensures var c := Plan(env, s, req).value;
      && c.entry.lesson == c.id
      && ValidLesson(env.alphabet, c.lesson)
      && (c.room.Some? ==> c.room.value.location > 0 && c.room.value.status == Published)
      && (if c.entry.action == Add then c.id == s.nextId
          else
            && c.id in s.lessons
            && SameSlot(c.lesson, s.lessons[c.id]) && c.lesson.subgroup == s.lessons[c.id].subgroup
            && c.lesson.flow == s.lessons[c.id].flow
            && c.lesson.version == s.lessons[c.id].version + 1)
      && (c.entry.action == Cancel ==> c.room == None && c.lesson.status == Cancelled)
      && (c.entry.action != Cancel ==> c.lesson.status == Published)
  {
  }

  /** A listed row keeps its lesson: autofill touches rooms of stored lessons only, with real locations. */
  lemma {:induction false} FillShape(lessons: map<int, Lesson>, made: seq<Autofill.Assignment>, rooms: map<int, Room>)
    requires forall a | a in made && a.location.Some? :: a.lesson in lessons && a.location.value > 0
    requires rooms.Keys <= lessons.Keys && forall id | id in rooms :: rooms[id].location > 0
    ensures var after := Autofill.WriteRooms(rooms, made);
      after.Keys <= lessons.Keys && forall id | id in after :: after[id].location > 0
  {
    if made != [] {
      assert forall a | a in made[..|made| - 1] :: a in made;
      FillShape(lessons, made[..|made| - 1], rooms);
    }
  }

  lemma {:induction false} FillKeepsWellFormed(env: Env, s: State, req: Autofill.Request)
    requires ValidEnv(env) && WellFormed(env, s)
    ensures WellFormed(env, Autofill.Effect(env, s, req))
  {
    var rows := Views.Rows(env, s, req.group, req.start, req.end);
    var occupied := Autofill.Occupied(s, req.start, req.end);
    var made := Autofill.Allocate(env, req, rows, occupied);
    Autofill.ChosenAreCandidates(env, req, rows, occupied);
    assert rows[..|rows|] == rows;
    forall a | a in made
      ensures a.lesson in s.lessons
    {
      Rerun.MadeForRows(env, req, rows, occupied, |rows|, a);
    }
    FillShape(s.lessons, made, s.rooms);
  }

  lemma {:induction false} StepKeepsWellFormed(env: Env, s: State, op: Op)
    requires ValidEnv(env) && WellFormed(env, s)
    ensures WellFormed(env, Step(env, s, op))
  {
    if Accepted(env, s, op) {
      match op
      case Override(req) => PlanShape(env, s, req);
      case Create(row, t, d) =>
      case Update(id, patch, expected, t, d) =>
      case Fill(req) => FillKeepsWellFormed(env, s, req);
    }
  }

  lemma {:induction false} RunKeepsWellFormed(env: Env, s: State, ops: seq<Op>)
    requires ValidEnv(env) && WellFormed(env, s)
    ensures WellFormed(env, Run(env, s, ops))
  {
    if ops != [] {
      RunKeepsWellFormed(env, s, ops[..|ops| - 1]);
      StepKeepsWellFormed(env, Run(env, s, ops[..|ops| - 1]), ops[|ops| - 1]);
    }
  }
}
