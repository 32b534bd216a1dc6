/**
 What an autofill run reports and writes, told from the request and the tables: which lessons it looks
 at, which room each of them is given and why, and which rooms are stored afterwards.
 */
module AutofillEffects {
  import opened Wrappers
  import opened Store
  import opened Views
  import opened Autofill
  import opened AutofillIdempotence
  import Text

  // ------------------------------------------------------------- locations on offer

  /** No filter is given, or one of white space, or it is met. */
  ghost predicate Meets(env: Env, filter: Option<string>, values: set<string>) {
    filter.Some? && !Text.Blank(env.alphabet, filter.value) ==> Text.Trim(env.alphabet, filter.value) in values
  }

  /**
   The row offers an active location for the week of that day; it is of the campus and the type asked
   for, and, if no type is asked for, not of kind virtual.
   */
  ghost predicate OnOffer(env: Env, req: Request, date: int, row: Availability) {
    && row.week == date - date % 7 && row.available && row.location in env.locations
    && var l := env.locations[row.location];
    && l.active && Meets(env, req.campus, {l.campus}) && Meets(env, req.locationType, l.types)
    && (req.locationType.None? || Text.Blank(env.alphabet, req.locationType.value) ==> !l.virtualKind)
  }

  lemma {:induction false} GivenIff(al: Text.Alphabet, filter: Option<string>)
    ensures Given(al, filter) <==> filter.Some? && !Text.Blank(al, filter.value)
  {
    if filter.Some? {
      var left, right := Text.TrimTakesOff(al, filter.value);
    }
  }

  lemma {:induction false} OfferedIff(env: Env, req: Request, date: int, row: Availability)
    ensures Offered(env, req, Monday(date), row) <==> OnOffer(env, req, date, row)
  {
    GivenIff(env.alphabet, req.campus);
    GivenIff(env.alphabet, req.locationType);
  }

  /** Row k is the first one on offer whose location is not taken at the day and pair. */
  ghost predicate FirstFree(
    env: Env, req: Request, date: int, pair: int, rows: seq<Availability>, taken: set<Slot>, k: nat)
  {
    && k < |rows| && OnOffer(env, req, date, rows[k]) && Slot(date, pair, rows[k].location) !in taken
    && forall j | 0 <= j < k && OnOffer(env, req, date, rows[j]) :: Slot(date, pair, rows[j].location) in taken
  }

  ghost predicate AllTaken(
    env: Env, req: Request, date: int, pair: int, rows: seq<Availability>, taken: set<Slot>)
  {
    forall row | row in rows && OnOffer(env, req, date, row) :: Slot(date, pair, row.location) in taken
  }

  lemma {:induction false} ChosenIsFirst(
    env: Env, req: Request, date: int, pair: int, rows: seq<Availability>, taken: set<Slot>) returns (k: nat)
    ensures var chosen := ChooseFree(Filter(env, req, Monday(date), rows), date, pair, taken);
      if chosen.Some? then FirstFree(env, req, date, pair, rows, taken, k) && chosen.value == rows[k].location
      else AllTaken(env, req, date, pair, rows, taken)
  {
    k := 0;
    if rows != [] {
      OfferedIff(env, req, date, rows[0]);
      assert forall row :: row in rows <==> row == rows[0] || row in rows[1..];
      if !OnOffer(env, req, date, rows[0]) || Slot(date, pair, rows[0].location) in taken {
        var n := ChosenIsFirst(env, req, date, pair, rows[1..], taken);
        k := n + 1;
        assert forall j | 0 < j < |rows| :: rows[j] == rows[1..][j - 1];
      }
    }
  }

  // ------------------------------------------------------------------ taken before

  /** An active lesson has the location, published, at that day and pair, before the run. */
  ghost predicate HeldBefore(s: State, req: Request, date: int, pair: int, location: int) {
    exists id | id in s.lessons && id in s.rooms ::
      && s.lessons[id].status != Cancelled && s.rooms[id].status == Published && s.rooms[id].location == location
      && s.lessons[id].date == date && s.lessons[id].pair == pair && req.start <= date <= req.end
  }

  /** It was held before the run, or given by one of the first n assignments. */
  ghost predicate Gone(s: State, req: Request, made: seq<Assignment>, n: nat, date: int, pair: int, location: int) {
    || HeldBefore(s, req, date, pair, location)
    || exists m | 0 <= m < n <= |made| ::
         made[m].date == date && made[m].pair == pair && made[m].location == Some(location)
  }

  lemma {:induction false} GoneIff(
    s: State, req: Request, made: seq<Assignment>, n: nat, date: int, pair: int, location: int)
    requires n <= |made|
    ensures Slot(date, pair, location) in Occupied(s, req.start, req.end) + Taken(made[..n]) <==>
      Gone(s, req, made, n, date, pair, location)
  {
    if exists m | 0 <= m < n ::
         made[m].date == date && made[m].pair == pair && made[m].location == Some(location) {
      var m :| 0 <= m < n && made[m].date == date && made[m].pair == pair && made[m].location == Some(location);
      assert made[..n][m] in made[..n];
    }
    assert HeldBefore(s, req, date, pair, location) <==>
      Slot(date, pair, location) in Occupied(s, req.start, req.end);
  }

  // ---------------------------------------------------------------- the assignments

  /** The assignment comes from some row, when the ones before it come from the rows before that. */
  lemma {:induction false} MadeInTurn(
    env: Env, req: Request, rows: seq<View>, occupied: set<Slot>, m: nat, n: nat) returns (k: nat)
    requires m <= |rows| && n < |Allocate(env, req, rows[..m], occupied)|
    ensures var made := Allocate(env, req, rows[..m], occupied);
      && k < m && Allocate(env, req, rows[..k], occupied) == made[..n]
      && DecisionAt(env, req, rows, occupied, k) == [made[n]]
  {
    if m == 0 {
      assert false;
    }
    var made, before := Allocate(env, req, rows[..m], occupied), Allocate(env, req, rows[..m - 1], occupied);
    AllocateStep(env, req, rows, occupied, m);
    DecisionShape(env, req, rows, occupied, m - 1);
    if n < |before| {
      k := MadeInTurn(env, req, rows, occupied, m - 1, n);
      assert made[..n] == before[..n];
    } else {
      k := m - 1;
      assert made[..n] == before;
    }
  }

  /** The lesson has no published room with a location, or has one to be replaced as virtual. */
  predicate WantsRoom(env: Env, s: State, req: Request, id: int) {
    || id !in s.rooms || s.rooms[id].status != Published || s.rooms[id].location <= 0
    || (&& req.replaceVirtual && s.rooms[id].location in env.locations
        && (|| env.locations[s.rooms[id].location].virtualKind
            || "online" in env.locations[s.rooms[id].location].types))
  }

  /** An active lesson of the group between the two days, in want of a room. */
  predicate LookedAt(env: Env, s: State, req: Request, id: int) {
    && id in s.lessons && s.lessons[id].status != Cancelled && s.lessons[id].group == req.group
    && req.start <= s.lessons[id].date <= req.end && WantsRoom(env, s, req, id)
  }

  lemma {:induction false} WantsRoomIff(env: Env, s: State, req: Request, id: int)
    requires id in s.lessons
    ensures NeedsRoom(env, ViewOf(env, s, id), req.replaceVirtual) <==> WantsRoom(env, s, req, id)
  {
  }

  /** One and the same assignments, but for the marks of what was written. */
  ghost predicate SameButMarks(a: seq<Assignment>, b: seq<Assignment>) {
    |a| == |b| && forall n | 0 <= n < |a| :: a[n].(written := NotWritten) == b[n].(written := NotWritten)
  }

  lemma {:induction false} ReportedAsMade(env: Env, s: State, req: Request, r: Response)
    requires Reports(env, s, req, r)
    ensures SameButMarks(r.assignments, Choices(env, s, req))
  {
    MarkKeepsChoices(s.rooms, Choices(env, s, req));
  }

  lemma {:induction false} GoneAsMade(
    s: State, req: Request, a: seq<Assignment>, b: seq<Assignment>, n: nat, date: int, pair: int, location: int)
    requires SameButMarks(a, b)
    ensures Gone(s, req, a, n, date, pair, location) <==> Gone(s, req, b, n, date, pair, location)
  {
    assert forall m | 0 <= m < |a| ::
      a[m].date == b[m].date && a[m].pair == b[m].pair && a[m].location == b[m].location;
  }

  /** The row an assignment is made for, and what was decided for it. */
  lemma {:induction false} ChoiceAt(env: Env, s: State, req: Request, n: nat) returns (k: nat)
    requires n < |Choices(env, s, req)|
    ensures var rows, occupied := Rows(env, s, req.group, req.start, req.end), Occupied(s, req.start, req.end);
      && k < |rows| && Listed(s, rows[k].id, req.group, req.start, req.end) && rows[k] == ViewOf(env, s, rows[k].id)
      && Decide(env, req, rows[k], occupied + Taken(Choices(env, s, req)[..n])) == [Choices(env, s, req)[n]]
  {
    var rows, occupied := Rows(env, s, req.group, req.start, req.end), Occupied(s, req.start, req.end);
    assert rows[..|rows|] == rows;
    k := MadeInTurn(env, req, rows, occupied, |rows|, n);
    RowIsView(env, s, req.group, req.start, req.end, k);
  }

  /** What an assignment says of its lesson. */
  predicate TellsLesson(env: Env, s: State, req: Request, a: Assignment) {
    && LookedAt(env, s, req, a.lesson)
    && var l := s.lessons[a.lesson];
    && a.date == l.date && a.pair == l.pair && a.subgroup == l.subgroup && a.subject == l.subject
    && (a.outcome == WithoutSubject <==> l.subject.None?) && (a.outcome == Assigned <==> a.location.Some?)
  }

  lemma {:induction false} DecidedTells(env: Env, s: State, req: Request, id: int, taken: set<Slot>, a: Assignment)
    requires Listed(s, id, req.group, req.start, req.end) && Decide(env, req, ViewOf(env, s, id), taken) == [a]
    ensures TellsLesson(env, s, req, a)
  {
    WantsRoomIff(env, s, req, id);
    assert [a][0] == a;
  }

  /** Every assignment is about a lesson in want of a room, and tells its time and subject. */
  lemma {:induction false} AssignmentTells(env: Env, s: State, req: Request, r: Response, n: nat)
    requires Reports(env, s, req, r) && n < |r.assignments|
    ensures TellsLesson(env, s, req, r.assignments[n])
  {
    ReportedAsMade(env, s, req, r);
    var k := ChoiceAt(env, s, req, n);
    var row, made := Rows(env, s, req.group, req.start, req.end)[k], Choices(env, s, req);
    DecidedTells(env, s, req, row.id, Occupied(s, req.start, req.end) + Taken(made[..n]), made[n]);
    assert r.assignments[n].(written := NotWritten) == made[n].(written := NotWritten);
  }

  /** Row k offers the location, free when the n-th assignment is made, and no earlier row offers a free one. */
  ghost predicate OffersFirst(env: Env, s: State, req: Request, made: seq<Assignment>, n: nat, k: nat)
    requires n < |made|
  {
    var a := made[n];
    && k < |env.availability| && OnOffer(env, req, a.date, env.availability[k])
    && !Gone(s, req, made, n, a.date, a.pair, env.availability[k].location)
    && forall j | 0 <= j < k && OnOffer(env, req, a.date, env.availability[j]) ::
         Gone(s, req, made, n, a.date, a.pair, env.availability[j].location)
  }

  lemma {:induction false} DecidedFirst(
    env: Env, req: Request, row: View, taken: set<Slot>, a: Assignment) returns (k: nat)
    requires Decide(env, req, row, taken) == [a] && a.subject.Some?
    ensures if a.location.Some? then
              FirstFree(env, req, a.date, a.pair, env.availability, taken, k)
              && a.location.value == env.availability[k].location
            else AllTaken(env, req, a.date, a.pair, env.availability, taken)
  {
    assert [a][0] == a;
    k := ChosenIsFirst(env, req, row.date, row.pair, env.availability, taken);
  }

  /**
   A lesson is given the location of the first row on offer, by name and id, that nobody has at its
   time, before the run or by an earlier assignment; it is given none exactly if there is no such row.
   */
  lemma {:induction false} FirstOnOfferIsGiven(env: Env, s: State, req: Request, r: Response, n: nat)
    requires Reports(env, s, req, r) && n < |r.assignments| && r.assignments[n].subject.Some?
    ensures var a := r.assignments[n];
      if a.location.Some? then
        exists k: nat ::
          OffersFirst(env, s, req, r.assignments, n, k) && env.availability[k].location == a.location.value
      else
        forall k: nat :: !OffersFirst(env, s, req, r.assignments, n, k)
  {
    var made := Choices(env, s, req);
    ReportedAsMade(env, s, req, r);
    var turn := ChoiceAt(env, s, req, n);
    var a, b, taken := made[n], r.assignments[n], Occupied(s, req.start, req.end) + Taken(made[..n]);
    assert a.(written := NotWritten) == b.(written := NotWritten);
    forall location
      ensures Slot(a.date, a.pair, location) in taken <==> Gone(s, req, r.assignments, n, a.date, a.pair, location)
    {
      GoneIff(s, req, made, n, a.date, a.pair, location);
      GoneAsMade(s, req, made, r.assignments, n, a.date, a.pair, location);
    }
    var k := DecidedFirst(env, req, Rows(env, s, req.group, req.start, req.end)[turn], taken, a);
    if a.location.Some? {
      assert OffersFirst(env, s, req, r.assignments, n, k);
    }
  }

  /** Every lesson looked at is reported. */
  lemma {:induction false} LookedAtIsReported(env: Env, s: State, req: Request, r: Response, id: int) returns (n: nat)
    requires Reports(env, s, req, r) && LookedAt(env, s, req, id)
    ensures n < |r.assignments| && r.assignments[n].lesson == id
  {
    ReportedAsMade(env, s, req, r);
    n := LookedAtIsChosenFor(env, s, req, id);
    assert r.assignments[n].(written := NotWritten) == Choices(env, s, req)[n].(written := NotWritten);
  }

  lemma {:induction false} LookedAtIsChosenFor(env: Env, s: State, req: Request, id: int) returns (n: nat)
    requires LookedAt(env, s, req, id)
    ensures n < |Choices(env, s, req)| && Choices(env, s, req)[n].lesson == id
  {
    var k := RowOf(env, s, req, id);
    WantsRoomIff(env, s, req, id);
    n := NeedyIsMade(env, req, Rows(env, s, req.group, req.start, req.end), Occupied(s, req.start, req.end), k);
  }

  lemma {:induction false} RowOf(env: Env, s: State, req: Request, id: int) returns (k: nat)
    requires Listed(s, id, req.group, req.start, req.end)
    ensures k < |Rows(env, s, req.group, req.start, req.end)|
    ensures Rows(env, s, req.group, req.start, req.end)[k] == ViewOf(env, s, id)
  {
    var rows := Rows(env, s, req.group, req.start, req.end);
    assert ViewOf(env, s, id) in rows;
    k :| 0 <= k < |rows| && rows[k] == ViewOf(env, s, id);
  }

  lemma {:induction false} NeedyIsMade(
    env: Env, req: Request, rows: seq<View>, occupied: set<Slot>, k: nat) returns (n: nat)
    requires k < |rows| && NeedsRoom(env, rows[k], req.replaceVirtual)
    ensures n < |Allocate(env, req, rows, occupied)| && Allocate(env, req, rows, occupied)[n].lesson == rows[k].id
  {
    assert rows[..|rows|] == rows;
    var d := DecisionAt(env, req, rows, occupied, k);
    DecisionTells(env, req, rows, occupied, k);
    assert d[0] in d;
    DecidedIsMade(env, req, rows, occupied, k, |rows|, d[0]);
    n :| 0 <= n < |Allocate(env, req, rows, occupied)| && Allocate(env, req, rows, occupied)[n] == d[0];
  }

  ghost predicate ListedBefore(a: Assignment, b: Assignment) {
    && a.lesson != b.lesson && a.date <= b.date
    && (a.date == b.date ==> a.pair <= b.pair)
    && (a.date == b.date && a.pair == b.pair && a.subgroup != b.subgroup ==>
          b.subgroup.Some? && (a.subgroup.Some? ==> a.subgroup.value < b.subgroup.value))
    && (a.date == b.date && a.pair == b.pair && a.subgroup == b.subgroup ==> a.lesson < b.lesson)
  }

  lemma {:induction false} TwoInTurn(
    env: Env, req: Request, rows: seq<View>, occupied: set<Slot>, i: nat, j: nat) returns (k: nat, m: nat)
    requires i < j < |Allocate(env, req, rows, occupied)|
    ensures var made := Allocate(env, req, rows, occupied);
      && k < m < |rows| && Tells(made[i], rows[k]) && Tells(made[j], rows[m])
  {
    assert rows[..|rows|] == rows;
    m := MadeInTurn(env, req, rows, occupied, |rows|, j);
    k := MadeInTurn(env, req, rows, occupied, m, i);
    assert Allocate(env, req, rows, occupied)[..j][i] == Allocate(env, req, rows, occupied)[i];
    DecisionTells(env, req, rows, occupied, m);
    DecisionTells(env, req, rows, occupied, k);
  }

  predicate Tells(a: Assignment, row: View) {
    a.lesson == row.id && a.date == row.date && a.pair == row.pair && a.subgroup == row.subgroup
  }

  lemma {:induction false} DecisionTells(env: Env, req: Request, rows: seq<View>, occupied: set<Slot>, k: nat)
    requires k < |rows| && DecisionAt(env, req, rows, occupied, k) != []
    ensures Tells(DecisionAt(env, req, rows, occupied, k)[0], rows[k])
  {
  }

  /** Lessons are looked at in listing order, each once. */
  lemma {:induction false} ReportedInOrder(env: Env, s: State, req: Request, r: Response, i: nat, j: nat)
    requires WellFormed(env, s) && Reports(env, s, req, r) && i < j < |r.assignments|
    ensures ListedBefore(r.assignments[i], r.assignments[j])
  {
    ReportedAsMade(env, s, req, r);
    var k, m := TwoInTurn(
      env, req, Rows(env, s, req.group, req.start, req.end), Occupied(s, req.start, req.end), i, j);
    RowIdsDistinct(env, s, req.group, req.start, req.end);
    RowsInOrder(env, s, req.group, req.start, req.end, k, m);
    assert forall n | n == i || n == j ::
      r.assignments[n].(written := NotWritten) == Choices(env, s, req)[n].(written := NotWritten);
  }

  // --------------------------------------------------------------------- writes

  ghost predicate GivenIn(made: seq<Assignment>, id: int, location: int) {
    exists n :: 0 <= n < |made| && made[n].lesson == id && made[n].location == Some(location)
  }

  /** The lesson has the room it was given, or else the one it had. */
  ghost predicate HasGiven(made: seq<Assignment>, id: int, before: map<int, Room>, after: map<int, Room>) {
    && (forall c | GivenIn(made, id, c) :: id in after && after[id] == Room(c, AutoRoom, Published))
    && ((forall c :: !GivenIn(made, id, c)) ==> SameRoom(before, after, id))
  }

  lemma {:induction false} WritesTell(rooms: map<int, Room>, made: seq<Assignment>, id: int)
    requires DistinctLessons(made)
    ensures HasGiven(made, id, rooms, WriteRooms(rooms, made))
  {
    forall c | GivenIn(made, id, c)
      ensures id in WriteRooms(rooms, made) && WriteRooms(rooms, made)[id] == Room(c, AutoRoom, Published)
    {
      var n :| 0 <= n < |made| && made[n].lesson == id && made[n].location == Some(c);
      assert made[n] in made;
      forall b | b in made && b.lesson == id
        ensures b == made[n]
      {
        var m :| 0 <= m < |made| && made[m] == b;
        assert m == n;
      }
      WrittenAt(rooms, made, made[n]);
    }
    if forall c :: !GivenIn(made, id, c) {
      forall a | a in made && a.location.Some?
        ensures a.lesson != id
      {
        var n :| 0 <= n < |made| && made[n] == a;
        assert !GivenIn(made, id, a.location.value);
      }
      UnwrittenAt(rooms, made, id);
    }
  }

  lemma {:induction false} GivenAsMade(a: seq<Assignment>, b: seq<Assignment>, id: int, location: int)
    requires SameButMarks(a, b)
    ensures GivenIn(a, id, location) <==> GivenIn(b, id, location)
  {
    assert forall n | 0 <= n < |a| :: a[n].lesson == b[n].lesson && a[n].location == b[n].location;
  }

  /**
   After a real run the lessons given a location have it, published as automatic, and every other
   lesson has the room it had; nothing but rooms is written.
   */
  lemma {:induction false} RoomsWritten(env: Env, s: State, req: Request, r: Response, id: int)
    requires InputVerdict(req).Pass? && !req.dryRun && Reports(env, s, req, r)
    ensures Effect(env, s, req) == s.(rooms := Effect(env, s, req).rooms)
    ensures HasGiven(r.assignments, id, s.rooms, Effect(env, s, req).rooms)
  {
    ReportedAsMade(env, s, req, r);
    RowIdsDistinct(env, s, req.group, req.start, req.end);
    LessonsDistinct(env, req, Rows(env, s, req.group, req.start, req.end), Occupied(s, req.start, req.end));
    WritesTell(s.rooms, Choices(env, s, req), id);
    forall c
      ensures GivenIn(r.assignments, id, c) <==> GivenIn(Choices(env, s, req), id, c)
    {
      GivenAsMade(r.assignments, Choices(env, s, req), id, c);
    }
  }

  /** A request without a group or a date, or with its days the wrong way round, is refused; so is no other. */
  lemma {:induction false} RefusedIff(env: Env, s: State, req: Request)
    ensures InputVerdict(req).Pass? <==> req.group > 0 && req.start != 0 && req.end != 0 && req.start <= req.end
    ensures InputVerdict(req).Fail? || req.dryRun ==> Effect(env, s, req) == s
  {
  }

  ghost function Places(made: seq<Assignment>): set<int> {
    set n | 0 <= n < |made| && made[n].location.Some?
  }

  predicate MarkedAt(made: seq<Assignment>, n: int, w: Written) {
    0 <= n < |made| && made[n].location.Some? && made[n].written == w
  }

  ghost function PlacesMarked(made: seq<Assignment>, w: Written): set<int> {
    set n | 0 <= n < |made| && MarkedAt(made, n, w)
  }

  lemma {:induction false} PlacedIsSize(made: seq<Assignment>)
    ensures CountAssigned(made) == |Places(made)|
  {
    if made == [] {
      assert Places(made) == {};
    } else {
      var n := |made| - 1;
      PlacedIsSize(made[..n]);
      assert Places(made) == Places(made[..n]) + if made[n].location.Some? then {n} else {};
    }
  }

  lemma {:induction false} MarkedIsSize(made: seq<Assignment>, w: Written)
    ensures CountMarks(made, w) == |PlacesMarked(made, w)|
  {
    if made == [] {
      assert PlacesMarked(made, w) == {};
    } else {
      MarkedIsSize(made[..|made| - 1], w);
      PlacesMarkedMore(made, w);
    }
  }

  lemma {:induction false} PlacesMarkedMore(made: seq<Assignment>, w: Written)
    requires made != []
    ensures var n := |made| - 1;
      |PlacesMarked(made, w)| == |PlacesMarked(made[..n], w)| + if MarkedAt(made, n, w) then 1 else 0
  {
    var n := |made| - 1;
    assert forall m | 0 <= m < n :: MarkedAt(made, m, w) <==> MarkedAt(made[..n], m, w);
    assert PlacesMarked(made, w) == PlacesMarked(made[..n], w) + if MarkedAt(made, n, w) then {n} else {};
  }

  /** The counts of a report are those of its assignments. */
  lemma {:induction false} ReportCounts(env: Env, s: State, req: Request, r: Response)
    requires Reports(env, s, req, r)
    ensures r.placed == |Places(r.assignments)| && r.placed + r.skipped == |r.assignments|
    ensures !req.dryRun ==> r.created == |PlacesMarked(r.assignments, Created)|
    ensures !req.dryRun ==> r.updated == |PlacesMarked(r.assignments, Updated)|
    ensures req.dryRun ==> r.created == r.updated == 0
  {
    var made := Choices(env, s, req);
    ReportedAsMade(env, s, req, r);
    assert forall n | 0 <= n < |made| :: r.assignments[n].location == made[n].location;
    assert Places(r.assignments) == Places(made);
    PlacedIsSize(made);
    MarkedIsSize(r.assignments, Created);
    MarkedIsSize(r.assignments, Updated);
  }
}
