/**
 No two lessons that are held meet in one real room on one day and pair, unless they share a flow:
 overrides and automatic rooms keep this over every run.
 */
module RoomExclusivity {
  import opened Wrappers
  import opened Store
  import opened Overrides
  import opened Runs
  import opened Views
  import Autofill
  import Rerun = AutofillIdempotence
  import Text

  /** The lesson is not cancelled and has a published room. */
  predicate InUse(s: State, id: int) {
    id in s.lessons && id in s.rooms && Active(s.lessons[id]) && s.rooms[id].status == Published
  }

  predicate Together(s: State, i: int, j: int) {
    && InUse(s, i) && InUse(s, j)
    && s.lessons[i].date == s.lessons[j].date && s.lessons[i].pair == s.lessons[j].pair
    && s.rooms[i].location == s.rooms[j].location
  }

  predicate SharedFlow(al: Text.Alphabet, a: Lesson, b: Lesson) {
    && a.flow.Some? && b.flow.Some? && a.flow.value != "" && b.flow.value != ""
    && Text.Lower(al, a.flow.value) == Text.Lower(al, b.flow.value)
  }

  ghost predicate RoomExclusive(env: Env, s: State) {
    forall i, j | i != j && Together(s, i, j) && !IsVirtual(env, s.rooms[i].location) ::
      SharedFlow(env.alphabet, s.lessons[i], s.lessons[j])
  }

  /** A room the check lets through is free of every other lesson that does not share the flow. */
  lemma {:induction false} PassedCheckShares(
    env: Env, s: State, location: int, lesson: Lesson, exclude: Option<int>, other: int)
    requires StoredFlow(env.alphabet, lesson.flow)
    requires RoomVerdict(env, s, location, lesson.date, lesson.pair, lesson.flow, exclude).Pass?
    requires !IsVirtual(env, location) && exclude != Some(other)
    requires Holds(s, other, location, lesson.date, lesson.pair)
    ensures SharedFlow(env.alphabet, lesson, s.lessons[other])
  {
  }

  /** The room is held by a lesson, other than the one left out, that does not share the asking lesson's flow. */
  ghost predicate HeldByStranger(env: Env, s: State, location: int, lesson: Lesson, exclude: Option<int>) {
    exists id | id in s.lessons ::
      && Holds(s, id, location, lesson.date, lesson.pair) && exclude != Some(id)
      && !SharedFlow(env.alphabet, lesson, s.lessons[id])
  }

  /** The check refuses a real room exactly if a stranger holds it. */
  lemma {:induction false} RoomRefusedIff(env: Env, s: State, location: int, lesson: Lesson, exclude: Option<int>)
    requires WellFormed(env, s) && StoredFlow(env.alphabet, lesson.flow)
    ensures RoomVerdict(env, s, location, lesson.date, lesson.pair, lesson.flow, exclude).Pass? <==>
      location > 0 && (IsVirtual(env, location) || !HeldByStranger(env, s, location, lesson, exclude))
  {
    var al, key := env.alphabet, Text.Lower(env.alphabet, Text.Trim(env.alphabet, lesson.flow.Or("")));
    Text.TrimmedIsFixed(al, lesson.flow.Or(""));
    forall id | id in s.lessons
      ensures DifferentFlow(al, s.lessons[id].flow, key) <==> !SharedFlow(al, lesson, s.lessons[id])
    {
      assert ValidLesson(al, s.lessons[id]);
    }
  }

  lemma {:induction false} OverrideKeepsRooms(env: Env, s: State, req: Request)
    requires WellFormed(env, s) && RoomExclusive(env, s)
    ensures RoomExclusive(env, Step(env, s, Override(req)))
  {
    var plan := Plan(env, s, req);
    if plan.Failure? {
      return;
    }
    PlanShape(env, s, req);
    var c := plan.value;
    var after := Step(env, s, Override(req));
    forall i, j | i != j && Together(after, i, j) && !IsVirtual(env, after.rooms[i].location)
      ensures SharedFlow(env.alphabet, after.lessons[i], after.lessons[j])
    {
      if i != c.id && j != c.id {
        assert Together(s, i, j);
      } else {
        var other := if i == c.id then j else i;
        OverriddenRoomShares(env, s, req, other);
      }
    }
  }

  lemma {:induction false} OverriddenRoomShares(env: Env, s: State, req: Request, other: int)
    requires WellFormed(env, s) && Plan(env, s, req).Success?
    requires var c := Plan(env, s, req).value;
      other != c.id && Together(Commit(s, c), c.id, other) && !IsVirtual(env, Commit(s, c).rooms[c.id].location)
    ensures var c := Plan(env, s, req).value;
      SharedFlow(env.alphabet, c.lesson, s.lessons[other])
  {
    PlanShape(env, s, req);
    var c := Plan(env, s, req).value;
    assert c.entry.action != Cancel && c.room.Some?;
    var exclude := if c.entry.action == Add then None else Some(c.id);
    assert RoomVerdict(env, s, c.room.value.location, c.lesson.date, c.lesson.pair, c.lesson.flow, exclude).Pass?;
    assert Holds(s, other, c.room.value.location, c.lesson.date, c.lesson.pair);
    PassedCheckShares(env, s, c.room.value.location, c.lesson, exclude, other);
  }

  // -------------------------------------------------------------- autofill

  /** A lesson whose room a run changed is a row that was given one. */
  lemma {:induction false} ChangedIsGiven(env: Env, s: State, req: Autofill.Request, id: int) returns (k: nat)
    requires !Rerun.SameRoom(s.rooms, Rerun.After(env, s, req).rooms, id)
    ensures var rows := Rows(env, s, req.group, req.start, req.end);
      && k < |rows| && rows[k].id == id
      && var given := Rerun.GivenAt(env, req, rows, Autofill.Occupied(s, req.start, req.end), k);
      && given.Some? && id in Rerun.After(env, s, req).rooms
      && Rerun.After(env, s, req).rooms[id].location == given.value
  {
    var rows := Rows(env, s, req.group, req.start, req.end);
    var occupied := Autofill.Occupied(s, req.start, req.end);
    Rerun.RowIdsDistinct(env, s, req.group, req.start, req.end);
    if id !in Rerun.Ids(rows) {
      Rerun.OtherRoomAfter(env, req, rows, occupied, s.rooms, id);
      assert false;
    }
    k :| 0 <= k < |rows| && rows[k].id == id;
    Rerun.RowRoomAfter(env, req, rows, occupied, s.rooms, k);
  }

  /** A room that a run changed is one the run gave, free before the run and in every earlier choice. */
  lemma {:induction false} GivenRoom(env: Env, s: State, req: Autofill.Request, id: int) returns (k: nat)
    requires WellFormed(env, s) && id in s.lessons
    requires !Rerun.SameRoom(s.rooms, Rerun.After(env, s, req).rooms, id)
    ensures var rows := Rows(env, s, req.group, req.start, req.end);
      var occupied := Autofill.Occupied(s, req.start, req.end);
      && k < |rows| && rows[k].id == id && rows[k].date == s.lessons[id].date && rows[k].pair == s.lessons[id].pair
      && var given := Rerun.GivenAt(env, req, rows, occupied, k);
      && given.Some? && id in Rerun.After(env, s, req).rooms
      && Rerun.After(env, s, req).rooms[id].location == given.value
      && Autofill.Slot(rows[k].date, rows[k].pair, given.value) !in
           occupied + Autofill.Taken(Autofill.Allocate(env, req, rows[..k], occupied))
  {
    var rows := Rows(env, s, req.group, req.start, req.end);
    var occupied := Autofill.Occupied(s, req.start, req.end);
    k := ChangedIsGiven(env, s, req, id);
    Rerun.RowIsView(env, s, req.group, req.start, req.end, k);
  }

  /** Two lessons given rooms in one run never meet. */
  lemma {:induction false} GivenApart(env: Env, s: State, req: Autofill.Request, i: nat, j: nat)
    requires i < j < |Rows(env, s, req.group, req.start, req.end)|
    requires var rows := Rows(env, s, req.group, req.start, req.end);
      var occupied := Autofill.Occupied(s, req.start, req.end);
      Rerun.GivenAt(env, req, rows, occupied, i).Some? && Rerun.GivenAt(env, req, rows, occupied, j).Some?
    ensures var rows := Rows(env, s, req.group, req.start, req.end);
      var occupied := Autofill.Occupied(s, req.start, req.end);
      Autofill.Slot(rows[i].date, rows[i].pair, Rerun.GivenAt(env, req, rows, occupied, i).value)
        in Autofill.Taken(Autofill.Allocate(env, req, rows[..j], occupied))
  {
    var rows := Rows(env, s, req.group, req.start, req.end);
    var occupied := Autofill.Occupied(s, req.start, req.end);
    Rerun.RowIdsDistinct(env, s, req.group, req.start, req.end);
    Rerun.DecisionShape(env, req, rows, occupied, i);
    var a := Rerun.DecisionAt(env, req, rows, occupied, i)[0];
    Rerun.OwnDecision(env, req, rows, occupied, i, j, a);
    var made := Autofill.Allocate(env, req, rows[..j], occupied);
    assert Autofill.Slot(a.date, a.pair, a.location.value) in Autofill.Taken(made);
  }

  lemma {:induction false} FillKeepsApart(env: Env, s: State, req: Autofill.Request, i: int, j: int)
    requires WellFormed(env, s) && i != j
    requires Together(Rerun.After(env, s, req), i, j)
    ensures Together(s, i, j) && s.rooms[i].location == Rerun.After(env, s, req).rooms[i].location
  {
    var after := Rerun.After(env, s, req);
    var iSame := Rerun.SameRoom(s.rooms, after.rooms, i);
    var jSame := Rerun.SameRoom(s.rooms, after.rooms, j);
    if !iSame && !jSame {
      var m := GivenRoom(env, s, req, i);
      var n := GivenRoom(env, s, req, j);
      if m < n {
        GivenApart(env, s, req, m, n);
      } else {
        GivenApart(env, s, req, n, m);
      }
      assert false;
    } else if !iSame {
      FreeOf(env, s, req, i, j);
    } else if !jSame {
      FreeOf(env, s, req, j, i);
    }
  }

  /** A given room was free of lessons that kept theirs. */
  lemma {:induction false} FreeOf(env: Env, s: State, req: Autofill.Request, i: int, j: int)
    requires WellFormed(env, s)
    requires i in s.lessons && !Rerun.SameRoom(s.rooms, Rerun.After(env, s, req).rooms, i)
    requires InUse(s, j) && Rerun.SameRoom(s.rooms, Rerun.After(env, s, req).rooms, j)
    ensures !Together(Rerun.After(env, s, req), i, j)
  {
    var k := GivenRoom(env, s, req, i);
    Rerun.RowIsView(env, s, req.group, req.start, req.end, k);
    var occupied := Autofill.Occupied(s, req.start, req.end);
    if s.lessons[j].date == s.lessons[i].date {
      assert Autofill.Slot(s.lessons[j].date, s.lessons[j].pair, s.rooms[j].location) in occupied;
    }
  }

  lemma {:induction false} FillKeepsRooms(env: Env, s: State, req: Autofill.Request)
    requires WellFormed(env, s) && RoomExclusive(env, s)
    ensures RoomExclusive(env, Autofill.Effect(env, s, req))
  {
    var after := Autofill.Effect(env, s, req);
    if after != s {
      forall i, j | i != j && Together(after, i, j) && !IsVirtual(env, after.rooms[i].location)
        ensures SharedFlow(env.alphabet, after.lessons[i], after.lessons[j])
      {
        FillKeepsApart(env, s, req, i, j);
      }
    }
  }

  // ------------------------------------------------------ direct creation and update

  /** The lesson would be active in a published real room that a stranger holds at its day and pair. */
  ghost predicate Intrudes(env: Env, s: State, id: int, lesson: Lesson) {
    && Active(lesson) && id in s.rooms && s.rooms[id].status == Published && !IsVirtual(env, s.rooms[id].location)
    && HeldByStranger(env, s, s.rooms[id].location, lesson, Some(id))
  }

  /** Writing one lesson, and no room, keeps rooms exclusive exactly if the lesson does not intrude. */
  lemma {:induction false} WriteKeepsRoomsIff(env: Env, s: State, after: State, id: int, lesson: Lesson)
    requires RoomExclusive(env, s) && after.lessons == s.lessons[id := lesson] && after.rooms == s.rooms
    ensures RoomExclusive(env, after) <==> !Intrudes(env, s, id, lesson)
  {
    if Intrudes(env, s, id, lesson) {
      var other :| other in s.lessons && other != id && !SharedFlow(env.alphabet, lesson, s.lessons[other])
                   && Holds(s, other, s.rooms[id].location, lesson.date, lesson.pair);
      assert Together(after, id, other);
    } else {
      forall i, j | i != j && Together(after, i, j) && !IsVirtual(env, after.rooms[i].location)
        ensures SharedFlow(env.alphabet, after.lessons[i], after.lessons[j])
      {
        if i != id && j != id {
          assert Together(s, i, j);
        } else {
          var other := if i == id then j else i;
          assert Holds(s, other, s.rooms[id].location, lesson.date, lesson.pair);
        }
      }
    }
  }

  /** An accepted request moves a lesson into a stranger's room. */
  ghost predicate MovesIn(env: Env, s: State, op: Op) {
    && op.Update? && Accepted(env, s, op)
    && Intrudes(env, s, op.id, PlanUpdate(env, s, op.id, op.patch, op.expected, op.confirmTeacher, op.confirmDay).value)
  }

  /** Step by step, for requests of every kind: only an update that moves a lesson in breaks exclusivity. */
  lemma {:induction false} StepKeepsRoomsIff(env: Env, s: State, op: Op)
    requires WellFormed(env, s) && RoomExclusive(env, s)
    ensures RoomExclusive(env, Step(env, s, op)) <==> !MovesIn(env, s, op)
  {
    match op
    case Override(req) => OverrideKeepsRooms(env, s, req);
    case Create(row, t, d) =>
      if Accepted(env, s, op) {
        WriteKeepsRoomsIff(env, s, Step(env, s, op), s.nextId, PlanCreate(env, s, row, t, d).value);
      }
    case Update(id, patch, expected, t, d) =>
      if Accepted(env, s, op) {
        WriteKeepsRoomsIff(env, s, Step(env, s, op), id, PlanUpdate(env, s, id, patch, expected, t, d).value);
      }
    case Fill(req) => FillKeepsRooms(env, s, req);
  }

  // ------------------------------------------------------------------ runs

  /** Overrides and automatic rooms: the requests that check rooms. */
  predicate ChecksRooms(op: Op) {
    op.Override? || op.Fill?
  }

  /** Whatever overrides and autofill runs happen, in whatever order, rooms stay exclusive. */
  lemma {:induction false} RunKeepsRooms(env: Env, s: State, ops: seq<Op>)
    requires ValidEnv(env) && WellFormed(env, s) && RoomExclusive(env, s)
    requires forall op | op in ops :: ChecksRooms(op)
    ensures RoomExclusive(env, Run(env, s, ops))
  {
    if ops != [] {
      var init, last := ops[..|ops| - 1], ops[|ops| - 1];
      assert last in ops && forall op | op in init :: op in ops;
      RunKeepsRooms(env, s, init);
      RunKeepsWellFormed(env, s, init);
      var before := Run(env, s, init);
      match last
      case Override(req) => OverrideKeepsRooms(env, before, req);
      case Fill(req) => FillKeepsRooms(env, before, req);
    }
  }

  ghost predicate ExclusiveThroughout(env: Env, s: State, ops: seq<Op>) {
    forall n | 0 <= n <= |ops| :: RoomExclusive(env, Run(env, s, ops[..n]))
  }

  ghost predicate NeverMovesIn(env: Env, s: State, ops: seq<Op>) {
    forall n | 0 <= n < |ops| :: !MovesIn(env, Run(env, s, ops[..n]), ops[n])
  }

  /**
   Any run of any requests: rooms are exclusive after every one of them if and only if no update
   moves a lesson into a room that a stranger holds by then.
   */
  lemma {:induction false} RunKeepsRoomsIff(env: Env, s: State, ops: seq<Op>)
    requires ValidEnv(env) && WellFormed(env, s) && RoomExclusive(env, s)
    ensures ExclusiveThroughout(env, s, ops) <==> NeverMovesIn(env, s, ops)
  {
    if NeverMovesIn(env, s, ops) {
      forall n | 0 <= n <= |ops|
        ensures RoomExclusive(env, Run(env, s, ops[..n]))
      {
        ExclusiveUpTo(env, s, ops, n);
      }
    } else {
      var n :| 0 <= n < |ops| && MovesIn(env, Run(env, s, ops[..n]), ops[n]);
      if RoomExclusive(env, Run(env, s, ops[..n])) {
        RunKeepsWellFormed(env, s, ops[..n]);
        StepKeepsRoomsIff(env, Run(env, s, ops[..n]), ops[n]);
        assert ops[..n + 1][..n] == ops[..n];
        assert !RoomExclusive(env, Run(env, s, ops[..n + 1]));
      }
    }
  }

  lemma {:induction false} ExclusiveUpTo(env: Env, s: State, ops: seq<Op>, n: nat)
    requires ValidEnv(env) && WellFormed(env, s) && RoomExclusive(env, s) && n <= |ops| && NeverMovesIn(env, s, ops)
    ensures RoomExclusive(env, Run(env, s, ops[..n]))
  {
    if n > 0 {
      ExclusiveUpTo(env, s, ops, n - 1);
      RunKeepsWellFormed(env, s, ops[..n - 1]);
      assert ops[..n][..n - 1] == ops[..n - 1];
      StepKeepsRoomsIff(env, Run(env, s, ops[..n - 1]), ops[n - 1]);
    }
  }

  /** Such a case: two groups in room 5 at different pairs, and the second lesson is moved to the pair of the first. */
  lemma {:induction false} UpdateCanMoveIn() returns (env: Env, s: State, op: Op)
    ensures ValidEnv(env) && WellFormed(env, s) && RoomExclusive(env, s)
    ensures Accepted(env, s, op) && !RoomExclusive(env, Step(env, s, op))
  {
    env := Env(Text.Alphabet(c => false, c => c), [], map[], map[], [], map[], false);
    var held := Lesson(1, 7, 1, None, None, None, Offline, Published, Manual, None, 1);
    var moved := held.(group := 2, pair := 2);
    var room := Room(5, AutoRoom, Published);
    s := State(map[1 := held, 2 := moved], map[1 := room, 2 := room], [], 3);
    op := Update(2, DraftOf(moved).(pair := 1), None, false, false);
    var lesson := PlanUpdate(env, s, 2, op.patch, None, false, false).value;
    assert lesson.date == 7 && lesson.pair == 1 && lesson.flow == None;
    assert Holds(s, 1, 5, 7, 1) && !SharedFlow(env.alphabet, lesson, s.lessons[1]);
    StepKeepsRoomsIff(env, s, op);
  }
}
