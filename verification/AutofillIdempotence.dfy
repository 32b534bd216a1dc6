/** A second run right after a first finds nothing to do, and a dry run tells what a real one would choose. */
module AutofillIdempotence {
  import opened Wrappers
  import opened Store
  import opened Views
  import opened Autofill
  import opened Orders

  // -------------------------------------------------- what the writes leave

  /** What the pass decides for row k. */
  ghost function DecisionAt(env: Env, req: Request, rows: seq<View>, occupied: set<Slot>, k: nat): seq<Assignment>
    requires k < |rows|
  {
    Decide(env, req, rows[k], occupied + Taken(Allocate(env, req, rows[..k], occupied)))
  }

  /** The location row k is given, if it is given one. */
  ghost function GivenAt(env: Env, req: Request, rows: seq<View>, occupied: set<Slot>, k: nat): Option<int>
    requires k < |rows|
  {
    var d := DecisionAt(env, req, rows, occupied, k);
    if d == [] then None else d[0].location
  }

  ghost predicate DistinctIds(rows: seq<View>) {
    forall i, j | 0 <= i < j < |rows| :: rows[i].id != rows[j].id
  }

  ghost predicate SameRoom(a: map<int, Room>, b: map<int, Room>, id: int) {
    (id in a <==> id in b) && (id in a ==> a[id] == b[id])
  }

  lemma {:induction false} WrittenAt(rooms: map<int, Room>, made: seq<Assignment>, a: Assignment)
    requires a in made && a.location.Some?
    requires forall b | b in made && b.lesson == a.lesson :: b == a
    ensures var after := WriteRooms(rooms, made);
      a.lesson in after && after[a.lesson] == Room(a.location.value, AutoRoom, Published)
  {
    var init, last := made[..|made| - 1], made[|made| - 1];
    assert made == init + [last] && last in made;
    assert forall x | x in init :: x in made;
    if a != last {
      WrittenAt(rooms, init, a);
    }
  }

  lemma {:induction false} UnwrittenAt(rooms: map<int, Room>, made: seq<Assignment>, id: int)
    requires forall a | a in made && a.location.Some? :: a.lesson != id
    ensures SameRoom(rooms, WriteRooms(rooms, made), id)
  {
    if made != [] {
      var init, last := made[..|made| - 1], made[|made| - 1];
      assert last in made && forall x | x in init :: x in made;
      UnwrittenAt(rooms, init, id);
    }
  }

  lemma {:induction false} AllocateStep(env: Env, req: Request, rows: seq<View>, occupied: set<Slot>, n: nat)
    requires 0 < n <= |rows|
    ensures Allocate(env, req, rows[..n], occupied) ==
      Allocate(env, req, rows[..n - 1], occupied) + DecisionAt(env, req, rows, occupied, n - 1)
  {
    assert rows[..n][..n - 1] == rows[..n - 1];
  }

  lemma {:induction false} DecisionShape(env: Env, req: Request, rows: seq<View>, occupied: set<Slot>, k: nat)
    requires k < |rows|
    ensures var d := DecisionAt(env, req, rows, occupied, k);
      |d| <= 1 && (d != [] ==> d[0].lesson == rows[k].id && d[0].date == rows[k].date && d[0].pair == rows[k].pair)
  {
  }

  ghost function Ids(rows: seq<View>): set<int> {
    set row | row in rows :: row.id
  }

  lemma {:induction false} MadeStep(env: Env, req: Request, rows: seq<View>, occupied: set<Slot>, n: nat, a: Assignment)
    requires 0 < n <= |rows|
    ensures a in Allocate(env, req, rows[..n], occupied) <==>
      a in Allocate(env, req, rows[..n - 1], occupied) || a in DecisionAt(env, req, rows, occupied, n - 1)
    ensures a in DecisionAt(env, req, rows, occupied, n - 1) ==> a.lesson == rows[n - 1].id
  {
    AllocateStep(env, req, rows, occupied, n);
    DecisionShape(env, req, rows, occupied, n - 1);
  }

  /** Every assignment is the decision for some row. */
  lemma {:induction false} MadeBy(
    env: Env, req: Request, rows: seq<View>, occupied: set<Slot>, n: nat, a: Assignment) returns (k: nat)
    requires n <= |rows| && a in Allocate(env, req, rows[..n], occupied)
    ensures k < n && a in DecisionAt(env, req, rows, occupied, k) && a.lesson == rows[k].id
  {
    if n == 0 {
      assert false;
    }
    MadeStep(env, req, rows, occupied, n, a);
    if a in Allocate(env, req, rows[..n - 1], occupied) {
      k := MadeBy(env, req, rows, occupied, n - 1, a);
    } else {
      k := n - 1;
    }
  }

  /** Every row's decision is among the assignments. */
  lemma {:induction false} DecidedIsMade(
    env: Env, req: Request, rows: seq<View>, occupied: set<Slot>, k: nat, n: nat, a: Assignment)
    requires k < n <= |rows| && a in DecisionAt(env, req, rows, occupied, k)
    ensures a in Allocate(env, req, rows[..n], occupied)
    decreases n
  {
    MadeStep(env, req, rows, occupied, n, a);
    if k < n - 1 {
      DecidedIsMade(env, req, rows, occupied, k, n - 1, a);
    }
  }

  lemma {:induction false} MadeForRows(
    env: Env, req: Request, rows: seq<View>, occupied: set<Slot>, n: nat, a: Assignment)
    requires n <= |rows| && a in Allocate(env, req, rows[..n], occupied)
    ensures a.lesson in Ids(rows[..n])
  {
    var k := MadeBy(env, req, rows, occupied, n, a);
    assert rows[..n][k] in rows[..n];
  }

  /** A row's decision is all there is for its lesson. */
  lemma {:induction false} OwnDecision(
    env: Env, req: Request, rows: seq<View>, occupied: set<Slot>, k: nat, n: nat, a: Assignment)
    requires DistinctIds(rows) && k < n <= |rows|
    requires a.lesson == rows[k].id
    ensures a in Allocate(env, req, rows[..n], occupied) <==> a in DecisionAt(env, req, rows, occupied, k)
  {
    if a in Allocate(env, req, rows[..n], occupied) {
      var i := MadeBy(env, req, rows, occupied, n, a);
      assert i == k;
    }
    if a in DecisionAt(env, req, rows, occupied, k) {
      DecidedIsMade(env, req, rows, occupied, k, n, a);
    }
  }

  /** A row that was given a location has it, published; one that was not keeps the room it had. */
  lemma {:induction false} RowRoomAfter(
    env: Env, req: Request, rows: seq<View>, occupied: set<Slot>, rooms: map<int, Room>, k: nat)
    requires DistinctIds(rows) && k < |rows|
    ensures var after := WriteRooms(rooms, Allocate(env, req, rows, occupied));
      var given := GivenAt(env, req, rows, occupied, k);
      if given.Some? then rows[k].id in after && after[rows[k].id] == Room(given.value, AutoRoom, Published)
      else SameRoom(rooms, after, rows[k].id)
  {
    var made := Allocate(env, req, rows, occupied);
    assert rows[..|rows|] == rows;
    DecisionShape(env, req, rows, occupied, k);
    var d := DecisionAt(env, req, rows, occupied, k);
    forall a | a in made && a.lesson == rows[k].id
      ensures a in d
    {
      OwnDecision(env, req, rows, occupied, k, |rows|, a);
    }
    if GivenAt(env, req, rows, occupied, k).Some? {
      OwnDecision(env, req, rows, occupied, k, |rows|, d[0]);
      WrittenAt(rooms, made, d[0]);
    } else {
      UnwrittenAt(rooms, made, rows[k].id);
    }
  }

  /** A lesson not listed keeps the room it had. */
  lemma {:induction false} OtherRoomAfter(
    env: Env, req: Request, rows: seq<View>, occupied: set<Slot>, rooms: map<int, Room>, id: int)
    requires DistinctIds(rows)
    requires id !in Ids(rows)
    ensures SameRoom(rooms, WriteRooms(rooms, Allocate(env, req, rows, occupied)), id)
  {
    assert rows[..|rows|] == rows;
    forall a | a in Allocate(env, req, rows, occupied)
      ensures a.lesson != id
    {
      MadeForRows(env, req, rows, occupied, |rows|, a);
    }
    UnwrittenAt(rooms, Allocate(env, req, rows, occupied), id);
  }

  // ----------------------------------------------------- rows read again

  /** The same listing after a change of rooms: same rows, same order, new locations. */
  ghost function Reread(env: Env, rows: seq<View>, after: State): seq<View>
    requires forall v | v in rows :: v.id in after.lessons
  {
    seq(|rows|, i requires 0 <= i < |rows| => assert rows[i] in rows; ViewOf(env, after, rows[i].id))
  }

  lemma {:induction false} RereadIncreases(env: Env, s: State, after: State, group: int, start: int, end: int)
    requires after.lessons == s.lessons
    requires forall v | v in Rows(env, s, group, start, end) :: v.id in after.lessons
    ensures Increasing(Reread(env, Rows(env, s, group, start, end), after), ViewLess)
  {
    var rows := Rows(env, s, group, start, end);
    forall i, j | 0 <= i < j < |rows|
      ensures ViewLess(ViewOf(env, after, rows[i].id), ViewOf(env, after, rows[j].id))
    {
      RowIsView(env, s, group, start, end, i);
      RowIsView(env, s, group, start, end, j);
      assert ViewLess(rows[i], rows[j]);
    }
  }

  lemma {:induction false} RereadMember(env: Env, s: State, after: State, group: int, start: int, end: int, v: View)
    requires after.lessons == s.lessons
    requires forall v | v in Rows(env, s, group, start, end) :: v.id in after.lessons
    ensures v in Reread(env, Rows(env, s, group, start, end), after) <==>
      v in ViewsBetween(env, after, group, start, end)
  {
    var rows := Rows(env, s, group, start, end);
    var again := Reread(env, rows, after);
    if v in again {
      var i :| 0 <= i < |again| && again[i] == v;
      RowIsView(env, s, group, start, end, i);
    }
    if v in ViewsBetween(env, after, group, start, end) {
      assert Listed(s, v.id, group, start, end);
      assert ViewOf(env, s, v.id) in ViewsBetween(env, s, group, start, end);
      assert ViewOf(env, s, v.id) in rows;
      var i :| 0 <= i < |rows| && rows[i] == ViewOf(env, s, v.id);
      assert again[i] == v;
    }
  }

  lemma {:induction false} RowsReread(env: Env, s: State, after: State, group: int, start: int, end: int)
    requires after.lessons == s.lessons
    ensures forall v | v in Rows(env, s, group, start, end) :: v.id in after.lessons
    ensures Rows(env, after, group, start, end) == Reread(env, Rows(env, s, group, start, end), after)
  {
    var rows := Rows(env, s, group, start, end);
    assert forall v | v in rows :: v in ViewsBetween(env, s, group, start, end);
    var views := ViewsBetween(env, after, group, start, end);
    RereadIncreases(env, s, after, group, start, end);
    forall v
      ensures v in Reread(env, rows, after) <==> v in views
    {
      RereadMember(env, s, after, group, start, end, v);
    }
    ViewsLinear(env, after, group, start, end);
    ArrangeIsUnique(views, Reread(env, rows, after), ViewLess);
  }

  lemma {:induction false} RowIsView(env: Env, s: State, group: int, start: int, end: int, k: nat)
    requires k < |Rows(env, s, group, start, end)|
    ensures var row := Rows(env, s, group, start, end)[k];
      Listed(s, row.id, group, start, end) && row == ViewOf(env, s, row.id)
  {
    var row := Rows(env, s, group, start, end)[k];
    assert row in Rows(env, s, group, start, end);
  }

  lemma {:induction false} RowIdsDistinct(env: Env, s: State, group: int, start: int, end: int)
    ensures DistinctIds(Rows(env, s, group, start, end))
  {
    var rows := Rows(env, s, group, start, end);
    forall i, j | 0 <= i < j < |rows|
      ensures rows[i].id != rows[j].id
    {
      RowIsView(env, s, group, start, end, i);
      RowIsView(env, s, group, start, end, j);
      assert ViewLess(rows[i], rows[j]);
    }
  }

  // ------------------------------------------------------------ idempotence

  predicate CandidateOn(env: Env, req: Request, date: int, c: int) {
    req.start <= date <= req.end && c in Candidates(env, req, Monday(date))
  }

  /** When virtual rooms are to be replaced, no candidate for a day of the range is itself virtual. */
  ghost predicate NoVirtualCandidate(env: Env, req: Request) {
    req.replaceVirtual ==> forall date, c | CandidateOn(env, req, date, c) :: !IsVirtual(env, c)
  }

  /** When virtual rooms are to be replaced, a virtual candidate for a day is the only one. */
  ghost predicate VirtualOnlyAlone(env: Env, req: Request) {
    req.replaceVirtual ==>
      forall date, c, d | CandidateOn(env, req, date, c) && CandidateOn(env, req, date, d) && IsVirtual(env, c) ::
        c == d
  }

  /** The tables a real run leaves, on valid input. */
  ghost function After(env: Env, s: State, req: Request): State {
    s.(rooms := WriteRooms(s.rooms, Choices(env, s, req)))
  }

  function Skipped(made: seq<Assignment>): seq<Assignment> {
    if made == [] then []
    else Skipped(made[..|made| - 1]) + if made[|made| - 1].location.Some? then [] else [made[|made| - 1]]
  }

  /**
   A candidate that was occupied before a run is occupied after it: its lesson keeps the room, or it
   is virtual, and then the run has no other room to offer in its place.
   */
  lemma {:induction false} CandidateStaysOccupied(env: Env, s: State, req: Request, date: int, pair: int, c: int)
    requires WellFormed(env, s) && VirtualOnlyAlone(env, req)
    requires c in Candidates(env, req, Monday(date))
    requires Slot(date, pair, c) in Occupied(s, req.start, req.end)
    ensures Slot(date, pair, c) in Occupied(After(env, s, req), req.start, req.end)
  {
    var id :| id in s.lessons && id in s.rooms && s.rooms[id].status == Published && Active(s.lessons[id])
              && req.start <= s.lessons[id].date <= req.end
              && Slot(s.lessons[id].date, s.lessons[id].pair, s.rooms[id].location) == Slot(date, pair, c);
    if req.replaceVirtual && IsVirtual(env, c) {
      OnlyChoiceStays(env, s, req, id);
    } else {
      OutsideScopeStays(env, s, req, id);
    }
  }

  /** A lesson in a virtual candidate keeps it, or is given it again. */
  lemma {:induction false} OnlyChoiceStays(env: Env, s: State, req: Request, id: int)
    requires WellFormed(env, s) && VirtualOnlyAlone(env, req) && req.replaceVirtual
    requires id in s.lessons && id in s.rooms && s.rooms[id].status == Published
    requires CandidateOn(env, req, s.lessons[id].date, s.rooms[id].location) && IsVirtual(env, s.rooms[id].location)
    ensures var after := After(env, s, req).rooms;
      id in after && after[id].status == Published && after[id].location == s.rooms[id].location
  {
    var rows := Rows(env, s, req.group, req.start, req.end);
    var occupied := Occupied(s, req.start, req.end);
    RowIdsDistinct(env, s, req.group, req.start, req.end);
    if id in Ids(rows) {
      var k :| 0 <= k < |rows| && rows[k].id == id;
      RowIsView(env, s, req.group, req.start, req.end, k);
      RowRoomAfter(env, req, rows, occupied, s.rooms, k);
      var given := GivenAt(env, req, rows, occupied, k);
      assert given.Some? ==> CandidateOn(env, req, rows[k].date, given.value);
    } else {
      OtherRoomAfter(env, req, rows, occupied, s.rooms, id);
    }
  }

  /** A lesson with a room that needs no other keeps it. */
  lemma {:induction false} OutsideScopeStays(env: Env, s: State, req: Request, id: int)
    requires WellFormed(env, s) && id in s.lessons && id in s.rooms && s.rooms[id].status == Published
    requires !(req.replaceVirtual && IsVirtual(env, s.rooms[id].location))
    ensures SameRoom(s.rooms, After(env, s, req).rooms, id)
  {
    var rows := Rows(env, s, req.group, req.start, req.end);
    var occupied := Occupied(s, req.start, req.end);
    RowIdsDistinct(env, s, req.group, req.start, req.end);
    if id in Ids(rows) {
      var k :| 0 <= k < |rows| && rows[k].id == id;
      RowIsView(env, s, req.group, req.start, req.end, k);
      assert !NeedsRoom(env, rows[k], req.replaceVirtual);
      RowRoomAfter(env, req, rows, occupied, s.rooms, k);
    } else {
      OtherRoomAfter(env, req, rows, occupied, s.rooms, id);
    }
  }

  /** A location given in the run is occupied after it. */
  lemma {:induction false} GivenIsOccupied(env: Env, s: State, req: Request, k: nat)
    requires k < |Rows(env, s, req.group, req.start, req.end)|
    ensures var rows := Rows(env, s, req.group, req.start, req.end);
      var given := GivenAt(env, req, rows, Occupied(s, req.start, req.end), k);
      given.Some? ==> Slot(rows[k].date, rows[k].pair, given.value) in Occupied(After(env, s, req), req.start, req.end)
  {
    var rows := Rows(env, s, req.group, req.start, req.end);
    var occupied := Occupied(s, req.start, req.end);
    var given := GivenAt(env, req, rows, occupied, k);
    if given.Some? {
      var after := After(env, s, req);
      RowIdsDistinct(env, s, req.group, req.start, req.end);
      RowRoomAfter(env, req, rows, occupied, s.rooms, k);
      RowIsView(env, s, req.group, req.start, req.end, k);
      var id := rows[k].id;
      assert id in after.lessons && id in after.rooms && after.rooms[id].location == given.value;
    }
  }

  lemma {:induction false} TakenStep(env: Env, req: Request, rows: seq<View>, occupied: set<Slot>, n: nat, slot: Slot)
    requires 0 < n <= |rows|
    requires slot in Taken(Allocate(env, req, rows[..n], occupied))
    ensures slot in Taken(Allocate(env, req, rows[..n - 1], occupied))
      || (GivenAt(env, req, rows, occupied, n - 1).Some?
          && slot == Slot(rows[n - 1].date, rows[n - 1].pair, GivenAt(env, req, rows, occupied, n - 1).value))
  {
    var a :| a in Allocate(env, req, rows[..n], occupied) && a.location.Some?
             && slot == Slot(a.date, a.pair, a.location.value);
    MadeStep(env, req, rows, occupied, n, a);
    DecisionShape(env, req, rows, occupied, n - 1);
  }

  lemma {:induction false} TakenByRows(env: Env, req: Request, rows: seq<View>, occupied: set<Slot>, n: nat, slot: Slot)
    returns (k: nat)
    requires n <= |rows|
    requires slot in Taken(Allocate(env, req, rows[..n], occupied))
    ensures k < n && GivenAt(env, req, rows, occupied, k).Some?
    ensures slot == Slot(rows[k].date, rows[k].pair, GivenAt(env, req, rows, occupied, k).value)
  {
    if n == 0 {
      assert false;
    }
    TakenStep(env, req, rows, occupied, n, slot);
    if slot in Taken(Allocate(env, req, rows[..n - 1], occupied)) {
      k := TakenByRows(env, req, rows, occupied, n - 1, slot);
    } else {
      k := n - 1;
    }
  }

  /** Once skipped for want of a room, skipped again: every candidate is still occupied. */
  lemma {:induction false} NothingBecomesFree(env: Env, s: State, req: Request, k: nat, c: int)
    requires WellFormed(env, s) && VirtualOnlyAlone(env, req)
    requires k < |Rows(env, s, req.group, req.start, req.end)|
    requires var rows := Rows(env, s, req.group, req.start, req.end);
      && c in Candidates(env, req, Monday(rows[k].date))
      && Slot(rows[k].date, rows[k].pair, c) in
           Occupied(s, req.start, req.end) + Taken(Allocate(env, req, rows[..k], Occupied(s, req.start, req.end)))
    ensures var row := Rows(env, s, req.group, req.start, req.end)[k];
      Slot(row.date, row.pair, c) in Occupied(After(env, s, req), req.start, req.end)
  {
    var rows := Rows(env, s, req.group, req.start, req.end);
    var occupied := Occupied(s, req.start, req.end);
    var slot := Slot(rows[k].date, rows[k].pair, c);
    if slot in occupied {
      CandidateStaysOccupied(env, s, req, rows[k].date, rows[k].pair, c);
    } else {
      var j := TakenByRows(env, req, rows, occupied, k, slot);
      GivenIsOccupied(env, s, req, j);
    }
  }

  /** A row that was given a location needs none any more. */
  lemma {:induction false} PlacedNeedsNone(env: Env, s: State, req: Request, k: nat)
    requires ValidEnv(env) && WellFormed(env, s) && NoVirtualCandidate(env, req)
    requires k < |Rows(env, s, req.group, req.start, req.end)|
    requires GivenAt(env, req, Rows(env, s, req.group, req.start, req.end), Occupied(s, req.start, req.end), k).Some?
    ensures var id, after := Rows(env, s, req.group, req.start, req.end)[k].id, After(env, s, req);
      id in after.lessons && !NeedsRoom(env, ViewOf(env, after, id), req.replaceVirtual)
  {
    var rows := Rows(env, s, req.group, req.start, req.end);
    var occupied := Occupied(s, req.start, req.end);
    RowIdsDistinct(env, s, req.group, req.start, req.end);
    RowRoomAfter(env, req, rows, occupied, s.rooms, k);
    RowIsView(env, s, req.group, req.start, req.end, k);
    var given := GivenAt(env, req, rows, occupied, k);
    assert CandidateOn(env, req, rows[k].date, given.value);
    CandidatesAreOffered(env, req, Monday(rows[k].date), env.availability, given.value);
  }

  /** A row that was given none reads the same as before. */
  lemma {:induction false} UnplacedReadsSame(env: Env, s: State, req: Request, k: nat)
    requires k < |Rows(env, s, req.group, req.start, req.end)|
    requires GivenAt(env, req, Rows(env, s, req.group, req.start, req.end), Occupied(s, req.start, req.end), k).None?
    ensures var row, after := Rows(env, s, req.group, req.start, req.end)[k], After(env, s, req);
      row.id in after.lessons && ViewOf(env, after, row.id) == row
  {
    var rows := Rows(env, s, req.group, req.start, req.end);
    var occupied := Occupied(s, req.start, req.end);
    RowIdsDistinct(env, s, req.group, req.start, req.end);
    RowRoomAfter(env, req, rows, occupied, s.rooms, k);
    RowIsView(env, s, req.group, req.start, req.end, k);
  }

  /** What the second run decides for a row: nothing for a placed one, the same for a skipped one. */
  lemma {:induction false} DecidedAgain(env: Env, s: State, req: Request, k: nat)
    requires ValidEnv(env) && WellFormed(env, s) && NoVirtualCandidate(env, req)
    requires k < |Rows(env, s, req.group, req.start, req.end)|
    ensures var rows := Rows(env, s, req.group, req.start, req.end);
      var first := DecisionAt(env, req, rows, Occupied(s, req.start, req.end), k);
      var after := After(env, s, req);
      && rows[k].id in after.lessons
      && Decide(env, req, ViewOf(env, after, rows[k].id), Occupied(after, req.start, req.end)) == Skipped(first)
  {
    var rows := Rows(env, s, req.group, req.start, req.end);
    var occupied := Occupied(s, req.start, req.end);
    var first := DecisionAt(env, req, rows, occupied, k);
    var after := After(env, s, req);
    if GivenAt(env, req, rows, occupied, k).Some? {
      PlacedNeedsNone(env, s, req, k);
      assert first == [first[0]];
    } else {
      UnplacedReadsSame(env, s, req, k);
      if first != [] && rows[k].subject.Some? {
        forall c | c in Candidates(env, req, Monday(rows[k].date))
          ensures Slot(rows[k].date, rows[k].pair, c) in Occupied(after, req.start, req.end)
        {
          NothingBecomesFree(env, s, req, k, c);
        }
      }
    }
  }

  /** Skips take no slot, so after them a row is decided as if it came first. */
  lemma {:induction false} AfterSkips(
    env: Env, req: Request, again: seq<View>, later: set<Slot>, made: seq<Assignment>, n: nat)
    requires 0 < n <= |again| && Allocate(env, req, again[..n - 1], later) == Skipped(made)
    ensures Allocate(env, req, again[..n], later) == Skipped(made) + Decide(env, req, again[n - 1], later)
  {
    AllocateStep(env, req, again, later, n);
    SkippedPlacesNothing(made);
    assert Taken(Skipped(made)) == {};
    assert later + {} == later;
  }

  ghost predicate DecidedAsSkips(
    env: Env, req: Request, rows: seq<View>, occupied: set<Slot>, again: seq<View>, later: set<Slot>)
    requires |rows| == |again|
  {
    forall k | 0 <= k < |rows| :: Decide(env, req, again[k], later) == Skipped(DecisionAt(env, req, rows, occupied, k))
  }

  lemma {:induction false} OneMoreSkip(
    env: Env, req: Request, rows: seq<View>, occupied: set<Slot>, again: seq<View>, later: set<Slot>, n: nat)
    requires 0 < n <= |rows| == |again| && DecidedAsSkips(env, req, rows, occupied, again, later)
    requires Allocate(env, req, again[..n - 1], later) == Skipped(Allocate(env, req, rows[..n - 1], occupied))
    ensures Allocate(env, req, again[..n], later) == Skipped(Allocate(env, req, rows[..n], occupied))
  {
    var made := Allocate(env, req, rows[..n - 1], occupied);
    AllocateStep(env, req, rows, occupied, n);
    DecisionShape(env, req, rows, occupied, n - 1);
    AfterSkips(env, req, again, later, made, n);
    SkippedAppend(made, DecisionAt(env, req, rows, occupied, n - 1));
  }

  /** If every row is decided again as nothing or as the skip it was, the pass yields just the skips. */
  lemma {:induction false} OnlySkips(
    env: Env, req: Request, rows: seq<View>, occupied: set<Slot>, again: seq<View>, later: set<Slot>, n: nat)
    requires n <= |rows| == |again| && DecidedAsSkips(env, req, rows, occupied, again, later)
    ensures Allocate(env, req, again[..n], later) == Skipped(Allocate(env, req, rows[..n], occupied))
  {
    if n > 0 {
      OnlySkips(env, req, rows, occupied, again, later, n - 1);
      OneMoreSkip(env, req, rows, occupied, again, later, n);
    }
  }

  lemma {:induction false} SkippedAppend(made: seq<Assignment>, d: seq<Assignment>)
    requires |d| <= 1
    ensures Skipped(made + d) == Skipped(made) + Skipped(d)
  {
    if d == [] {
      assert made + d == made;
    } else {
      assert (made + d)[..|made|] == made;
      assert d[..0] == [];
    }
  }

  lemma {:induction false} SkippedPlacesNothing(made: seq<Assignment>)
    ensures forall a | a in Skipped(made) :: a.location.None?
    ensures CountAssigned(Skipped(made)) == 0
  {
    if made != [] {
      var init := made[..|made| - 1];
      SkippedPlacesNothing(init);
      var last := made[|made| - 1];
      if last.location.None? {
        assert (Skipped(init) + [last])[..|Skipped(init)|] == Skipped(init);
      } else {
        assert Skipped(init) + [] == Skipped(init);
      }
    }
  }

  lemma {:induction false} RereadAsSkips(env: Env, s: State, req: Request)
    requires ValidEnv(env) && WellFormed(env, s) && NoVirtualCandidate(env, req)
    ensures var rows, once := Rows(env, s, req.group, req.start, req.end), After(env, s, req);
      && (forall row | row in rows :: row.id in once.lessons)
      && DecidedAsSkips(env, req, rows, Occupied(s, req.start, req.end),
                        Reread(env, rows, once), Occupied(once, req.start, req.end))
  {
    var rows, once := Rows(env, s, req.group, req.start, req.end), After(env, s, req);
    var again := Reread(env, rows, once);
    forall k | 0 <= k < |rows|
      ensures Decide(env, req, again[k], Occupied(once, req.start, req.end))
                == Skipped(DecisionAt(env, req, rows, Occupied(s, req.start, req.end), k))
    {
      DecidedAgain(env, s, req, k);
    }
  }

  lemma {:induction false} SecondRunOnlySkips(env: Env, s: State, req: Request)
    requires ValidEnv(env) && WellFormed(env, s) && NoVirtualCandidate(env, req)
    ensures Choices(env, After(env, s, req), req) == Skipped(Choices(env, s, req))
  {
    var rows, once := Rows(env, s, req.group, req.start, req.end), After(env, s, req);
    RereadAsSkips(env, s, req);
    RowsReread(env, s, once, req.group, req.start, req.end);
    var again := Reread(env, rows, once);
    OnlySkips(env, req, rows, Occupied(s, req.start, req.end), again, Occupied(once, req.start, req.end), |rows|);
    assert rows[..|rows|] == rows && again[..|rows|] == again;
  }

  /**
   A real run repeated at once places nothing, writes nothing, and skips exactly the lessons the
   first run skipped, for the same reasons.
   */
  lemma {:induction false} SecondRunFindsNothing(env: Env, s: State, req: Request)
    requires ValidEnv(env) && WellFormed(env, s) && NoVirtualCandidate(env, req)
    requires InputVerdict(req).Pass? && !req.dryRun
    ensures var once := Effect(env, s, req);
      && Choices(env, once, req) == Skipped(Choices(env, s, req))
      && CountAssigned(Choices(env, once, req)) == 0
      && Effect(env, once, req) == once
  {
    var once := Effect(env, s, req);
    SecondRunOnlySkips(env, s, req);
    SkippedPlacesNothing(Choices(env, s, req));
    NothingAssigned(once.rooms, Choices(env, once, req));
  }

  /** A dry run chooses what a real run chooses, and changes nothing. */
  lemma {:induction false} DryRunForetells(env: Env, s: State, req: Request, dry: Response, actual: Response)
    requires Reports(env, s, req.(dryRun := true), dry) && Reports(env, s, req.(dryRun := false), actual)
    ensures Effect(env, s, req.(dryRun := true)) == s
    ensures dry.placed == actual.placed && dry.skipped == actual.skipped
    ensures actual.created + actual.updated == actual.placed && |dry.assignments| == |actual.assignments|
    ensures forall i | 0 <= i < |dry.assignments| ::
      actual.assignments[i].(written := NotWritten) == dry.assignments[i].(written := NotWritten)
  {
    var rows := Rows(env, s, req.group, req.start, req.end);
    var occupied := Occupied(s, req.start, req.end);
    SameChoices(env, req, rows, occupied);
    MarksAddUp(s.rooms, Choices(env, s, req.(dryRun := false)));
    MarkKeepsChoices(s.rooms, Choices(env, s, req.(dryRun := false)));
  }

  /** On a real run an assignment is marked as created exactly if its lesson had no room before the run. */
  lemma {:induction false} MarksTell(env: Env, s: State, req: Request, r: Response, i: nat)
    requires Reports(env, s, req, r) && !req.dryRun && i < |r.assignments| && r.assignments[i].location.Some?
    ensures r.assignments[i].written == if r.assignments[i].lesson in s.rooms then Updated else Created
  {
    var rows := Rows(env, s, req.group, req.start, req.end);
    RowIdsDistinct(env, s, req.group, req.start, req.end);
    LessonsDistinct(env, req, rows, Occupied(s, req.start, req.end));
    MarkTells(s.rooms, Choices(env, s, req), i);
  }

  ghost predicate DistinctLessons(made: seq<Assignment>) {
    forall i, j | 0 <= i < j < |made| :: made[i].lesson != made[j].lesson
  }

  lemma {:induction false} LessonsDistinct(env: Env, req: Request, rows: seq<View>, occupied: set<Slot>)
    requires DistinctIds(rows)
    ensures DistinctLessons(Allocate(env, req, rows, occupied))
  {
    if rows != [] {
      var n := |rows| - 1;
      LessonsDistinct(env, req, rows[..n], occupied);
      assert rows[..|rows|] == rows;
      AllocateStep(env, req, rows, occupied, |rows|);
      DecisionShape(env, req, rows, occupied, n);
      var before, made := Allocate(env, req, rows[..n], occupied), Allocate(env, req, rows, occupied);
      forall i, j | 0 <= i < j < |made|
        ensures made[i].lesson != made[j].lesson
      {
        if j == |before| {
          assert made[i] in before;
          var k := MadeBy(env, req, rows, occupied, n, made[i]);
        }
      }
    }
  }

  lemma {:induction false} MarkTells(rooms: map<int, Room>, made: seq<Assignment>, i: nat)
    requires DistinctLessons(made) && i < |made|
    ensures var m := Mark(rooms, made)[i];
      m.location.Some? ==> m.lesson == made[i].lesson && m.written == if m.lesson in rooms then Updated else Created
  {
    var init := made[..|made| - 1];
    if i < |made| - 1 {
      MarkTells(rooms, init, i);
    } else {
      forall a | a in init
        ensures a.lesson != made[i].lesson
      {
        var k :| 0 <= k < |init| && init[k] == a;
        assert made[k] == a;
      }
      UnwrittenAt(rooms, init, made[i].lesson);
    }
  }

  lemma {:induction false} SameChoices(env: Env, req: Request, rows: seq<View>, occupied: set<Slot>)
    ensures Allocate(env, req.(dryRun := true), rows, occupied) == Allocate(env, req.(dryRun := false), rows, occupied)
  {
    if rows != [] {
      SameChoices(env, req, rows[..|rows| - 1], occupied);
      var row := rows[|rows| - 1];
      SameCandidates(env, req, Monday(row.date), env.availability);
    }
  }

  lemma {:induction false} SameCandidates(env: Env, req: Request, week: int, rows: seq<Availability>)
    ensures Filter(env, req.(dryRun := true), week, rows) == Filter(env, req.(dryRun := false), week, rows)
  {
    if rows != [] {
      SameCandidates(env, req, week, rows[1..]);
    }
  }

  lemma {:induction false} MarkKeepsChoices(rooms: map<int, Room>, made: seq<Assignment>)
    ensures forall i | 0 <= i < |made| ::
      Mark(rooms, made)[i].(written := NotWritten) == made[i].(written := NotWritten)
  {
    if made != [] {
      MarkKeepsChoices(rooms, made[..|made| - 1]);
    }
  }
}
