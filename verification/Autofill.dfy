/**
 Automatic rooms: a greedy pass over a group's lessons gives each lesson without a usable room
 the first free candidate of its week, and a second pass writes what the first one chose.
 */
module Autofill {
  import opened Wrappers
  import opened Store
  import opened Views
  import Orders
  import Text

  datatype Request = Request(
    group: int,
    start: int,
    end: int,
    campus: Option<string>,
    locationType: Option<string>,
    replaceVirtual: bool,
    dryRun: bool)

  datatype Slot = Slot(date: int, pair: int, location: int)

  datatype Outcome = Assigned | WithoutSubject | NoLocation

  datatype Written = NotWritten | Created | Updated

  datatype Assignment = Assignment(
    lesson: int,
    date: int,
    pair: int,
    subgroup: Option<int>,
    subject: Option<int>,
    location: Option<int>,
    outcome: Outcome,
    written: Written)

  datatype Response = Response(
    placed: nat,
    skipped: nat,
    created: nat,
    updated: nat,
    assignments: seq<Assignment>)

  // ------------------------------------------------------------ candidates

  predicate Given(al: Text.Alphabet, filter: Option<string>) {
    filter.Some? && Text.Trim(al, filter.value) != ""
  }

  predicate Suits(env: Env, req: Request, location: Location) {
    && location.active
    && (Given(env.alphabet, req.campus) ==> location.campus == Text.Trim(env.alphabet, req.campus.value))
    && (if Given(env.alphabet, req.locationType) then Text.Trim(env.alphabet, req.locationType.value) in location.types
        else !location.virtualKind)
  }

  predicate Offered(env: Env, req: Request, week: int, row: Availability) {
    row.week == week && row.available && row.location in env.locations && Suits(env, req, env.locations[row.location])
  }

  function Filter(env: Env, req: Request, week: int, rows: seq<Availability>): seq<int> {
    if rows == [] then []
    else if Offered(env, req, week, rows[0]) then [rows[0].location] + Filter(env, req, week, rows[1..])
    else Filter(env, req, week, rows[1..])
  }

  /** The locations on offer in a week, by name and id. */
  function Candidates(env: Env, req: Request, week: int): seq<int> {
    Filter(env, req, week, env.availability)
  }

  /** A location is a candidate exactly if some availability row offers it. */
  lemma {:induction false} CandidatesAreOffered(
    env: Env, req: Request, week: int, rows: seq<Availability>, location: int)
    ensures location in Filter(env, req, week, rows) <==>
      exists row :: row in rows && row.location == location && Offered(env, req, week, row)
  {
    if rows != [] {
      CandidatesAreOffered(env, req, week, rows[1..], location);
      assert forall row :: row in rows <==> row == rows[0] || row in rows[1..];
    }
  }

  // ------------------------------------------------------------ first pass

  predicate NeedsRoom(env: Env, view: View, replaceVirtual: bool) {
    if view.location.None? || view.location.value <= 0 then true
    else replaceVirtual && IsVirtual(env, view.location.value)
  }

  function ChooseFree(candidates: seq<int>, date: int, pair: int, taken: set<Slot>): (r: Option<int>)
    ensures r.Some? ==> r.value in candidates && Slot(date, pair, r.value) !in taken
    ensures r.None? ==> forall c | c in candidates :: Slot(date, pair, c) in taken
  {
    if candidates == [] then None
    else if Slot(date, pair, candidates[0]) !in taken then Some(candidates[0])
    else ChooseFree(candidates[1..], date, pair, taken)
  }

  /** The choice is the first candidate that is free. */
  lemma {:induction false} FirstFreeIsChosen(candidates: seq<int>, date: int, pair: int, taken: set<Slot>, k: nat)
    requires k < |candidates| && Slot(date, pair, candidates[k]) !in taken
    requires forall j | 0 <= j < k :: Slot(date, pair, candidates[j]) in taken
    ensures ChooseFree(candidates, date, pair, taken) == Some(candidates[k])
  {
    if k > 0 {
      FirstFreeIsChosen(candidates[1..], date, pair, taken, k - 1);
    }
  }

  /** The slots of all active lessons with a published room between two days, whatever their group. */
  ghost function Occupied(s: State, start: int, end: int): set<Slot> {
    set id | id in s.lessons && id in s.rooms && s.rooms[id].status == Published && Active(s.lessons[id])
             && start <= s.lessons[id].date <= end
      :: Slot(s.lessons[id].date, s.lessons[id].pair, s.rooms[id].location)
  }

  ghost function Taken(made: seq<Assignment>): set<Slot> {
    set a | a in made && a.location.Some? :: Slot(a.date, a.pair, a.location.value)
  }

  /** What happens to one lesson, given the slots taken when its turn comes. */
  function Decide(env: Env, req: Request, row: View, taken: set<Slot>): seq<Assignment> {
    if !NeedsRoom(env, row, req.replaceVirtual) then []
    else if row.subject.None? then
      [Assignment(row.id, row.date, row.pair, row.subgroup, None, None, WithoutSubject, NotWritten)]
    else
      var chosen := ChooseFree(Candidates(env, req, Monday(row.date)), row.date, row.pair, taken);
      [Assignment(row.id, row.date, row.pair, row.subgroup, row.subject, chosen,
                  if chosen.Some? then Assigned else NoLocation, NotWritten)]
  }

  /** The greedy pass over the rows in order. */
  ghost function Allocate(env: Env, req: Request, rows: seq<View>, occupied: set<Slot>): seq<Assignment> {
    if rows == [] then []
    else
      var made := Allocate(env, req, rows[..|rows| - 1], occupied);
      made + Decide(env, req, rows[|rows| - 1], occupied + Taken(made))
  }

  ghost function Choices(env: Env, s: State, req: Request): seq<Assignment> {
    Allocate(env, req, Rows(env, s, req.group, req.start, req.end), Occupied(s, req.start, req.end))
  }

  function CountAssigned(made: seq<Assignment>): nat {
    if made == [] then 0
    else CountAssigned(made[..|made| - 1]) + if made[|made| - 1].location.Some? then 1 else 0
  }

  // ----------------------------------------------------------- second pass

  /** The room table after the chosen rooms are written, in order. */
  function WriteRooms(rooms: map<int, Room>, made: seq<Assignment>): map<int, Room> {
    if made == [] then rooms
    else
      var before := WriteRooms(rooms, made[..|made| - 1]);
      var a := made[|made| - 1];
      if a.location.Some? then before[a.lesson := Room(a.location.value, AutoRoom, Published)] else before
  }

  /** The assignments with the kind of write each one led to. */
  function Mark(rooms: map<int, Room>, made: seq<Assignment>): (r: seq<Assignment>)
    ensures |r| == |made|
  {
    if made == [] then []
    else
      var a := made[|made| - 1];
      Mark(rooms, made[..|made| - 1]) + [MarkOne(WriteRooms(rooms, made[..|made| - 1]), a)]
  }

  function MarkOne(rooms: map<int, Room>, a: Assignment): Assignment {
    if a.location.None? then a
    else if a.lesson in rooms then a.(written := Updated)
    else a.(written := Created)
  }

  /** How many of the rooms given led to one kind of write. */
  function CountMarks(marked: seq<Assignment>, w: Written): nat {
    if marked == [] then 0
    else
      var a := marked[|marked| - 1];
      CountMarks(marked[..|marked| - 1], w) + if a.location.Some? && a.written == w then 1 else 0
  }

  lemma {:induction false} CountMarksAppend(marked: seq<Assignment>, a: Assignment, w: Written)
    ensures CountMarks(marked + [a], w) == CountMarks(marked, w) + if a.location.Some? && a.written == w then 1 else 0
  {
    assert (marked + [a])[..|marked|] == marked;
  }

  /** Every room given was created or updated. */
  lemma {:induction false} MarksAddUp(rooms: map<int, Room>, made: seq<Assignment>)
    ensures CountMarks(Mark(rooms, made), Created) + CountMarks(Mark(rooms, made), Updated) == CountAssigned(made)
  {
    if made != [] {
      var init := made[..|made| - 1];
      MarksAddUp(rooms, init);
      var last := Mark(rooms, made)[|made| - 1];
      assert Mark(rooms, made) == Mark(rooms, init) + [last];
      CountMarksAppend(Mark(rooms, init), last, Created);
      CountMarksAppend(Mark(rooms, init), last, Updated);
    }
  }

  // ---------------------------------------------------------------- effect

  function InputVerdict(req: Request): Verdict<Failure> {
    if req.group <= 0 then Fail(GroupRequired)
    else if req.start == 0 || req.end == 0 then Fail(DateRequired)
    else if req.end < req.start then Fail(EndBeforeStart)
    else Pass
  }

  /** The tables after a run. */
  ghost function Effect(env: Env, s: State, req: Request): State {
    if InputVerdict(req).Fail? || req.dryRun then s
    else s.(rooms := WriteRooms(s.rooms, Choices(env, s, req)))
  }

  // --------------------------------------------------------------- methods

  /** Collects the occupied slots row by row. */
  method OccupiedLocationSlots(s: State, start: int, end: int) returns (taken: set<Slot>)
    ensures taken == Occupied(s, start, end)
  {
    taken := {};
    var todo := s.lessons.Keys;
    while todo != {}
      invariant todo <= s.lessons.Keys
      invariant taken == set id | id in s.lessons && id !in todo && id in s.rooms && s.rooms[id].status == Published
                                  && Active(s.lessons[id]) && start <= s.lessons[id].date <= end
                           :: Slot(s.lessons[id].date, s.lessons[id].pair, s.rooms[id].location)
      decreases |todo|
    {
      Orders.HasMember(todo);
      var id :| id in todo;
      todo := todo - {id};
      var l := s.lessons[id];
      if id in s.rooms && s.rooms[id].status == Published && Active(l) && start <= l.date <= end {
        taken := taken + {Slot(l.date, l.pair, s.rooms[id].location)};
      }
    }
  }

  /** What a run reports. */
  ghost predicate Reports(env: Env, s: State, req: Request, r: Response) {
    var made := Choices(env, s, req);
    && r.placed == CountAssigned(made)
    && r.placed + r.skipped == |made|
    && if req.dryRun then r.assignments == made && r.created == 0 && r.updated == 0
       else
         && r.assignments == Mark(s.rooms, made)
         && r.created == CountMarks(r.assignments, Created) && r.updated == CountMarks(r.assignments, Updated)
  }

  method AutofillLocations(env: Env, db: Tables, req: Request) returns (r: Result<Response, Failure>)
    requires ValidEnv(env)
    modifies db
    ensures db.Snapshot() == Effect(env, old(db.Snapshot()), req)
    ensures if InputVerdict(req).Fail? then r == Result.Failure(InputVerdict(req).error)
            else r.Success? && Reports(env, old(db.Snapshot()), req, r.value)
  {
    if req.group <= 0 {
      return Result.Failure(GroupRequired);
    }
    if req.start == 0 || req.end == 0 {
      return Result.Failure(DateRequired);
    }
    if req.end < req.start {
      return Result.Failure(EndBeforeStart);
    }
    var s := db.Snapshot();
    var rows := ListLessonViews(env, s, req.group, req.start, req.end);
    var taken := OccupiedLocationSlots(s, req.start, req.end);
    var placed, skipped, made := ChooseRooms(env, req, rows, taken);
    if req.dryRun || placed == 0 {
      if placed == 0 {
        NothingAssigned(s.rooms, made);
        MarksAddUp(s.rooms, made);
      }
      return Success(Response(placed, skipped, 0, 0, made));
    }
    ChosenAreCandidates(env, req, rows, taken);
    var created, updated, marked := SaveRooms(db, made);
    return Success(Response(placed, skipped, created, updated, marked));
  }

  lemma {:induction false} ChosenAreCandidates(env: Env, req: Request, rows: seq<View>, occupied: set<Slot>)
    ensures forall a | a in Allocate(env, req, rows, occupied) && a.location.Some? :: a.location.value in env.locations
  {
    if rows != [] {
      var row := rows[|rows| - 1];
      ChosenAreCandidates(env, req, rows[..|rows| - 1], occupied);
      forall c | c in Candidates(env, req, Monday(row.date))
        ensures c in env.locations
      {
        CandidatesAreOffered(env, req, Monday(row.date), env.availability, c);
      }
    }
  }

  /** The candidates remembered are those of their weeks. */
  ghost predicate Remembers(env: Env, req: Request, byWeek: map<int, seq<int>>) {
    forall week | week in byWeek :: byWeek[week] == Candidates(env, req, week)
  }

  /** One lesson's turn in the loop, with the memo of candidates by week. */
  method ChooseRoom(env: Env, req: Request, row: View, taken: set<Slot>, byWeek: map<int, seq<int>>)
    returns (made: seq<Assignment>, memo: map<int, seq<int>>)
    requires Remembers(env, req, byWeek)
    ensures made == Decide(env, req, row, taken) && Remembers(env, req, memo)
  {
    memo := byWeek;
    if !NeedsRoom(env, row, req.replaceVirtual) {
      return [], memo;
    }
    if row.subject.None? {
      return [Assignment(row.id, row.date, row.pair, row.subgroup, None, None, WithoutSubject, NotWritten)], memo;
    }
    var week := Monday(row.date);
    if week !in memo {
      memo := memo[week := Candidates(env, req, week)];
    }
    var chosen := ChooseFree(memo[week], row.date, row.pair, taken);
    if chosen.None? {
      return [Assignment(row.id, row.date, row.pair, row.subgroup, row.subject, None, NoLocation, NotWritten)], memo;
    }
    return [Assignment(row.id, row.date, row.pair, row.subgroup, row.subject, chosen, Assigned, NotWritten)], memo;
  }

  /** What the loop has done after n rows. */
  datatype Progress = Progress(placed: nat, skipped: nat, made: seq<Assignment>, taken: set<Slot>)

  ghost predicate Done(env: Env, req: Request, rows: seq<View>, occupied: set<Slot>, n: nat, p: Progress) {
    && n <= |rows| && p.made == Allocate(env, req, rows[..n], occupied) && p.taken == occupied + Taken(p.made)
    && p.placed == CountAssigned(p.made) && p.placed + p.skipped == |p.made|
  }

  function Advance(p: Progress, turn: seq<Assignment>): Progress {
    if turn == [] then p
    else if turn[0].location.None? then p.(skipped := p.skipped + 1, made := p.made + turn)
    else
      var a := turn[0];
      Progress(p.placed + 1, p.skipped, p.made + turn, p.taken + {Slot(a.date, a.pair, a.location.value)})
  }

  lemma {:induction false} AllocateMore(env: Env, req: Request, rows: seq<View>, n: nat, occupied: set<Slot>)
    requires n < |rows|
    ensures var made := Allocate(env, req, rows[..n], occupied);
      Allocate(env, req, rows[..n + 1], occupied) == made + Decide(env, req, rows[n], occupied + Taken(made))
  {
    assert rows[..n + 1][..n] == rows[..n];
  }

  lemma {:induction false} AdvanceTells(p: Progress, turn: seq<Assignment>)
    requires |turn| <= 1
    ensures Advance(p, turn).made == p.made + turn && Taken(p.made + turn) == Taken(p.made) + Taken(turn)
    ensures Advance(p, turn).taken == p.taken + Taken(turn)
    ensures p.placed == CountAssigned(p.made) && p.placed + p.skipped == |p.made| ==>
      var q := Advance(p, turn); q.placed == CountAssigned(q.made) && q.placed + q.skipped == |q.made|
  {
    if turn == [] {
      assert p.made + [] == p.made;
    } else {
      assert turn == [turn[0]];
      TakenAppend(p.made, turn[0]);
      TakenAppend([], turn[0]);
      assert [] + [turn[0]] == turn;
    }
  }

  lemma {:induction false} DoneMore(
    env: Env, req: Request, rows: seq<View>, occupied: set<Slot>, n: nat, p: Progress, turn: seq<Assignment>)
    requires Done(env, req, rows, occupied, n, p) && n < |rows| && turn == Decide(env, req, rows[n], p.taken)
    ensures Done(env, req, rows, occupied, n + 1, Advance(p, turn))
  {
    AllocateMore(env, req, rows, n, occupied);
    AdvanceTells(p, turn);
  }

  /** The main loop, with its map of occupied slots. */
  method ChooseRooms(env: Env, req: Request, rows: seq<View>, occupied: set<Slot>)
    returns (placed: nat, skipped: nat, made: seq<Assignment>)
    ensures made == Allocate(env, req, rows, occupied)
    ensures placed == CountAssigned(made) && placed + skipped == |made|
  {
    var p := Progress(0, 0, [], occupied);
    var byWeek: map<int, seq<int>> := map[];
    for i := 0 to |rows|
      invariant Done(env, req, rows, occupied, i, p) && Remembers(env, req, byWeek)
    {
      var turn;
      turn, byWeek := ChooseRoom(env, req, rows[i], p.taken, byWeek);
      DoneMore(env, req, rows, occupied, i, p, turn);
      p := Advance(p, turn);
    }
    assert rows[..|rows|] == rows;
    return p.placed, p.skipped, p.made;
  }

  lemma {:induction false} TakenAppend(made: seq<Assignment>, a: Assignment)
    ensures CountAssigned(made + [a]) == CountAssigned(made) + if a.location.Some? then 1 else 0
    ensures Taken(made + [a]) == Taken(made) + if a.location.Some? then {Slot(a.date, a.pair, a.location.value)} else {}
  {
    assert (made + [a])[..|made|] == made;
  }

  method SaveRooms(db: Tables, made: seq<Assignment>)
    returns (created: nat, updated: nat, marked: seq<Assignment>)
    requires forall a | a in made && a.location.Some? :: a.location.value > 0
    modifies db
    ensures db.Snapshot() == old(db.Snapshot()).(rooms := WriteRooms(old(db.rooms), made))
    ensures marked == Mark(old(db.rooms), made)
    ensures created == CountMarks(marked, Created) && updated == CountMarks(marked, Updated)
  {
    created, updated, marked := 0, 0, [];
    for i := 0 to |made|
      invariant db.Snapshot() == old(db.Snapshot()).(rooms := WriteRooms(old(db.rooms), made[..i]))
      invariant marked == Mark(old(db.rooms), made[..i])
      invariant created == CountMarks(marked, Created) && updated == CountMarks(marked, Updated)
    {
      assert made[..i + 1][..i] == made[..i];
      assert made[i] in made;
      var a := SaveRoom(db, made[i]);
      CountMarksAppend(marked, a, Created);
      CountMarksAppend(marked, a, Updated);
      if a.location.Some? {
        if a.written == Created {
          created := created + 1;
        } else {
          updated := updated + 1;
        }
      }
      marked := marked + [a];
    }
    assert made[..|made|] == made;
  }

  /** Writes one chosen room, and marks the assignment by what was stored before. */
  method SaveRoom(db: Tables, a: Assignment) returns (marked: Assignment)
    requires a.location.Some? ==> a.location.value > 0
    modifies db
    ensures db.Snapshot() == old(db.Snapshot()).(
      rooms := if a.location.Some? then old(db.rooms)[a.lesson := Room(a.location.value, AutoRoom, Published)]
        else old(db.rooms))
    ensures marked == MarkOne(old(db.rooms), a)
  {
    if a.location.None? {
      return a;
    }
    var existing := a.lesson in db.rooms;
    var saved := db.UpsertRoom(a.lesson, a.location.value, AutoRoom);
    if existing {
      return a.(written := Updated);
    }
    return a.(written := Created);
  }

  lemma {:induction false} NothingAssigned(rooms: map<int, Room>, made: seq<Assignment>)
    requires CountAssigned(made) == 0
    ensures WriteRooms(rooms, made) == rooms && Mark(rooms, made) == made
  {
    if made != [] {
      NothingAssigned(rooms, made[..|made| - 1]);
      assert made == made[..|made| - 1] + [made[|made| - 1]];
    }
  }
}
