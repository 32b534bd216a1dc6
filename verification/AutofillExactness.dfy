/**
 When a second run right after a first changes something. Two conditions on the candidates, to be
 read off before any run, tell it exactly: no virtual candidate, for a report of the first run's
 skips and nothing else; no virtual candidate beside another, for tables left as they are. Where a
 condition fails, tables are built on which the two runs come apart.
 */
module AutofillExactness {
  import opened Wrappers
  import opened Store
  import opened Views
  import opened Autofill
  import opened AutofillIdempotence
  import opened AutofillRepeats
  import opened Orders
  import Text

  /** Lessons of other groups, each in one of the given rooms, all on one day and pair. */
  function Blocker(req: Request, date: int, room: int): Lesson {
    Lesson(req.group + room, date, 1, None, None, None, Offline, Published, Manual, None, 1)
  }

  function Blockers(req: Request, date: int, rooms: set<int>): map<int, Lesson> {
    map room | room in rooms :: Blocker(req, date, room)
  }

  function BlockedRooms(rooms: set<int>): map<int, Room> {
    map room | room in rooms :: Room(room, AutoRoom, Published)
  }

  /** A lesson of the group there, for one subgroup or for all. */
  function Asker(req: Request, date: int, subgroup: Option<int>): Lesson {
    Lesson(req.group, date, 1, subgroup, Some(1), None, Offline, Published, Manual, None, 1)
  }

  lemma {:induction false} Above(ids: set<int>) returns (n: int)
    ensures n > 0 && forall id | id in ids :: id < n
  {
    if ids == {} {
      n := 1;
    } else {
      var id := Member(ids);
      var m := Above(ids - {id});
      n := if m > id then m else id + 1;
      assert forall x | x in ids :: x == id || x in ids - {id};
    }
  }

  /** An increasing listing of a group's views is what is listed. */
  lemma {:induction false} ListedAre(env: Env, s: State, group: int, start: int, end: int, rows: seq<View>)
    requires Increasing(rows, ViewLess)
    requires forall v :: v in rows <==> v in ViewsBetween(env, s, group, start, end)
    ensures Rows(env, s, group, start, end) == rows
  {
    ViewsLinear(env, s, group, start, end);
    ArrangeIsUnique(ViewsBetween(env, s, group, start, end), rows, ViewLess);
  }

  /** The rooms on offer on a day, without some. */
  function OthersThan(env: Env, req: Request, date: int, some: set<int>): set<int> {
    set c | c in Candidates(env, req, Monday(date)) && c !in some
  }

  lemma {:induction false} CandidatesPositive(env: Env, req: Request, date: int)
    requires ValidEnv(env)
    ensures forall c | c in Candidates(env, req, Monday(date)) :: c > 0
  {
    forall c | c in Candidates(env, req, Monday(date))
      ensures c > 0
    {
      CandidatesAreOffered(env, req, Monday(date), env.availability, c);
    }
  }

  /** Of the candidates of a day, just the given one is free at a pair. */
  ghost predicate OnlyFree(env: Env, req: Request, date: int, pair: int, taken: set<Slot>, x: int) {
    && x in Candidates(env, req, Monday(date))
    && forall y | y in Candidates(env, req, Monday(date)) :: Slot(date, pair, y) !in taken <==> x == y
  }

  /** A lesson that asks is given the one candidate free. */
  lemma {:induction false} AskedGets(env: Env, req: Request, row: View, taken: set<Slot>, x: int)
    requires NeedsRoom(env, row, req.replaceVirtual) && row.subject.Some?
    requires OnlyFree(env, req, row.date, row.pair, taken, x)
    ensures Decide(env, req, row, taken) ==
      [Assignment(row.id, row.date, row.pair, row.subgroup, row.subject, Some(x), Assigned, NotWritten)]
  {
    assert Slot(row.date, row.pair, x) !in taken;
    var chosen := ChooseFree(Candidates(env, req, Monday(row.date)), row.date, row.pair, taken);
    assert chosen.Some?;
    assert chosen.value in Candidates(env, req, Monday(row.date)) && Slot(row.date, row.pair, chosen.value) !in taken;
  }

  // One lesson without a room, every candidate but one taken.

  function Lone(req: Request, date: int, rooms: set<int>, n: int): State {
    State(Blockers(req, date, rooms)[n := Asker(req, date, None)], BlockedRooms(rooms), [], n + 1)
  }

  lemma {:induction false} LoneListed(env: Env, req: Request, date: int, rooms: set<int>, n: int, s: State)
    requires req.start <= date <= req.end && n !in rooms && forall room | room in rooms :: room > 0
    requires s.lessons == Lone(req, date, rooms, n).lessons
    ensures n in s.lessons && Rows(env, s, req.group, req.start, req.end) == [ViewOf(env, s, n)]
  {
    forall v
      ensures v in [ViewOf(env, s, n)] <==> v in ViewsBetween(env, s, req.group, req.start, req.end)
    {
      assert Listed(s, n, req.group, req.start, req.end);
      assert forall id | id in s.lessons && Listed(s, id, req.group, req.start, req.end) :: id == n;
    }
    ListedAre(env, s, req.group, req.start, req.end, [ViewOf(env, s, n)]);
  }

  /** The same tables once the lesson is in a room. */
  function Housed(req: Request, date: int, rooms: set<int>, n: int, c: int): State {
    Lone(req, date, rooms, n).(rooms := BlockedRooms(rooms)[n := Room(c, AutoRoom, Published)])
  }

  lemma {:induction false} OneRow(env: Env, req: Request, row: View, occupied: set<Slot>)
    ensures Allocate(env, req, [row], occupied) == Decide(env, req, row, occupied)
  {
    assert [row][..0] == [];
    assert occupied + Taken([]) == occupied;
  }

  lemma {:induction false} OneWrite(rooms: map<int, Room>, made: seq<Assignment>)
    requires |made| == 1 && made[0].location.Some?
    ensures WriteRooms(rooms, made) == rooms[made[0].lesson := Room(made[0].location.value, AutoRoom, Published)]
    ensures Skipped(made) == []
  {
    assert made[..0] == [];
  }

  lemma {:induction false} LoneFree(env: Env, req: Request, date: int, c: int, rooms: set<int>, n: int)
    requires CandidateOn(env, req, date, c) && rooms == OthersThan(env, req, date, {c}) && n !in rooms
    ensures OnlyFree(env, req, date, 1, Occupied(Lone(req, date, rooms, n), req.start, req.end), c)
  {
    var s := Lone(req, date, rooms, n);
    var occupied := Occupied(s, req.start, req.end);
    forall x | x in Candidates(env, req, Monday(date))
      ensures Slot(date, 1, x) !in occupied <==> c == x
    {
      if x != c {
        assert x in s.lessons && x in s.rooms;
      }
    }
  }

  lemma {:induction false} LoneFirst(env: Env, req: Request, date: int, c: int, rooms: set<int>, n: int)
    requires InputVerdict(req).Pass? && !req.dryRun && CandidateOn(env, req, date, c)
    requires rooms == OthersThan(env, req, date, {c}) && n !in rooms && forall room | room in rooms :: room > 0
    ensures var s := Lone(req, date, rooms, n);
      Skipped(Choices(env, s, req)) == [] && Effect(env, s, req) == Housed(req, date, rooms, n, c)
  {
    var s := Lone(req, date, rooms, n);
    var occupied := Occupied(s, req.start, req.end);
    LoneListed(env, req, date, rooms, n, s);
    LoneFree(env, req, date, c, rooms, n);
    OneRow(env, req, ViewOf(env, s, n), occupied);
    AskedGets(env, req, ViewOf(env, s, n), occupied, c);
    OneWrite(s.rooms, Choices(env, s, req));
  }

  lemma {:induction false} LoneSecond(env: Env, req: Request, date: int, c: int, rooms: set<int>, n: int)
    requires req.replaceVirtual && CandidateOn(env, req, date, c) && IsVirtual(env, c)
    requires rooms == OthersThan(env, req, date, {c}) && n !in rooms && forall room | room in rooms :: room > 0
    ensures |Choices(env, Housed(req, date, rooms, n, c), req)| == 1
  {
    var once := Housed(req, date, rooms, n, c);
    LoneListed(env, req, date, rooms, n, once);
    OneRow(env, req, ViewOf(env, once, n), Occupied(once, req.start, req.end));
  }

  lemma {:induction false} LoneWellFormed(env: Env, req: Request, date: int, rooms: set<int>, n: int)
    requires InputVerdict(req).Pass? && n > 0 && forall room | room in rooms :: 0 < room < n
    ensures WellFormed(env, Lone(req, date, rooms, n))
  {
  }

  lemma {:induction false} LoneAsksAgain(env: Env, req: Request, date: int, c: int, rooms: set<int>, n: int)
    requires InputVerdict(req).Pass? && !req.dryRun && req.replaceVirtual
    requires CandidateOn(env, req, date, c) && IsVirtual(env, c)
    requires rooms == OthersThan(env, req, date, {c}) && n !in rooms && forall room | room in rooms :: room > 0
    ensures !FindsNothing(env, Lone(req, date, rooms, n), req)
  {
    LoneFirst(env, req, date, c, rooms, n);
    LoneSecond(env, req, date, c, rooms, n);
  }

  /** A virtual candidate, given to the one lesson in need of a room: the second run asks for another. */
  lemma {:induction false} VirtualAskedForAgain(env: Env, req: Request, date: int, c: int) returns (s: State)
    requires ValidEnv(env) && InputVerdict(req).Pass? && !req.dryRun && req.replaceVirtual
    requires CandidateOn(env, req, date, c) && IsVirtual(env, c)
    ensures WellFormed(env, s) && !FindsNothing(env, s, req)
  {
    var rooms := OthersThan(env, req, date, {c});
    CandidatesPositive(env, req, date);
    var n := Above(rooms);
    s := Lone(req, date, rooms, n);
    LoneWellFormed(env, req, date, rooms, n);
    LoneAsksAgain(env, req, date, c, rooms, n);
  }

  /**
   The second run finds nothing, on every state, if and only if no candidate for a day of the range
   is virtual while virtual rooms are being replaced.
   */
  lemma {:induction false} FindsNothingIff(env: Env, req: Request)
    requires ValidEnv(env) && InputVerdict(req).Pass? && !req.dryRun
    ensures NoVirtualCandidate(env, req) <==> forall s | WellFormed(env, s) :: FindsNothing(env, s, req)
  {
    if NoVirtualCandidate(env, req) {
      forall s | WellFormed(env, s)
        ensures FindsNothing(env, s, req)
      {
        SecondRunFindsNothing(env, s, req);
      }
    } else {
      var date, c :| CandidateOn(env, req, date, c) && IsVirtual(env, c);
      var s := VirtualAskedForAgain(env, req, date, c);
    }
  }

  // Two lessons of one pair, the first in a virtual candidate, one other candidate free.

  function Pair(req: Request, date: int, rooms: set<int>, c: int, n: int): State {
    State(Blockers(req, date, rooms)[n := Asker(req, date, Some(1))][n + 1 := Asker(req, date, Some(2))],
          BlockedRooms(rooms)[n := Room(c, AutoRoom, Published)], [], n + 2)
  }

  lemma {:induction false} PairListed(env: Env, req: Request, date: int, rooms: set<int>, c: int, n: int, s: State)
    requires req.start <= date <= req.end && forall room | room in rooms :: 0 < room < n
    requires s.lessons == Pair(req, date, rooms, c, n).lessons
    ensures n in s.lessons && n + 1 in s.lessons
    ensures Rows(env, s, req.group, req.start, req.end) == [ViewOf(env, s, n), ViewOf(env, s, n + 1)]
  {
    var rows := [ViewOf(env, s, n), ViewOf(env, s, n + 1)];
    forall v
      ensures v in rows <==> v in ViewsBetween(env, s, req.group, req.start, req.end)
    {
      assert Listed(s, n, req.group, req.start, req.end) && Listed(s, n + 1, req.group, req.start, req.end);
      assert forall id | id in s.lessons && Listed(s, id, req.group, req.start, req.end) :: id == n || id == n + 1;
    }
    ListedAre(env, s, req.group, req.start, req.end, rows);
  }

  lemma {:induction false} PairWellFormed(env: Env, req: Request, date: int, rooms: set<int>, c: int, n: int)
    requires InputVerdict(req).Pass? && n > 0 && c > 0 && forall room | room in rooms :: 0 < room < n
    ensures WellFormed(env, Pair(req, date, rooms, c, n))
  {
  }

  lemma {:induction false} PairOccupied(req: Request, date: int, rooms: set<int>, c: int, n: int, x: int)
    requires req.start <= date <= req.end && forall room | room in rooms :: 0 < room < n
    ensures Slot(date, 1, x) in Occupied(Pair(req, date, rooms, c, n), req.start, req.end) <==> x == c || x in rooms
  {
    var s := Pair(req, date, rooms, c, n);
    if x == c {
      assert n in s.lessons && n in s.rooms && s.lessons[n].date == date;
    } else if x in rooms {
      assert x in s.lessons && x in s.rooms && s.lessons[x].date == date;
    }
  }

  lemma {:induction false} TwoRows(env: Env, req: Request, a: View, b: View, occupied: set<Slot>)
    ensures Allocate(env, req, [a, b], occupied) ==
      Decide(env, req, a, occupied) + Decide(env, req, b, occupied + Taken(Decide(env, req, a, occupied)))
  {
    assert [a, b][..1] == [a];
    OneRow(env, req, a, occupied);
  }

  /** Once that one is taken too, a lesson that asks gets none. */
  lemma {:induction false} AskedInVain(env: Env, req: Request, row: View, taken: set<Slot>, x: int)
    requires NeedsRoom(env, row, req.replaceVirtual) && row.subject.Some?
    requires OnlyFree(env, req, row.date, row.pair, taken, x)
    ensures Decide(env, req, row, taken + {Slot(row.date, row.pair, x)}) ==
      [Assignment(row.id, row.date, row.pair, row.subgroup, row.subject, None, NoLocation, NotWritten)]
  {
    var all := taken + {Slot(row.date, row.pair, x)};
    forall y | y in Candidates(env, req, Monday(row.date))
      ensures Slot(row.date, row.pair, y) in all
    {
    }
  }

  /** Of two lessons asking at one time for the one free candidate, the first gets it. */
  lemma {:induction false} FirstTakesIt(
    env: Env, req: Request, a: View, b: View, taken: set<Slot>, x: int, rooms: map<int, Room>)
    requires NeedsRoom(env, a, req.replaceVirtual) && a.subject.Some?
    requires NeedsRoom(env, b, req.replaceVirtual) && b.subject.Some?
    requires a.date == b.date && a.pair == b.pair && OnlyFree(env, req, a.date, a.pair, taken, x)
    ensures WriteRooms(rooms, Allocate(env, req, [a, b], taken)) == rooms[a.id := Room(x, AutoRoom, Published)]
  {
    TwoRows(env, req, a, b, taken);
    AskedGets(env, req, a, taken, x);
    AskedInVain(env, req, b, taken, x);
    var first := Decide(env, req, a, taken);
    TakenAppend([], first[0]);
    assert [] + [first[0]] == first && Taken([]) == {};
    assert Taken(first) == {Slot(a.date, a.pair, x)};
    var made := Allocate(env, req, [a, b], taken);
    assert made[..1] == first;
    OneWrite(rooms, first);
  }

  /** If the first needs none, the second gets it. */
  lemma {:induction false} SecondTakesIt(
    env: Env, req: Request, a: View, b: View, taken: set<Slot>, x: int, rooms: map<int, Room>)
    requires !NeedsRoom(env, a, req.replaceVirtual) && NeedsRoom(env, b, req.replaceVirtual) && b.subject.Some?
    requires OnlyFree(env, req, b.date, b.pair, taken, x)
    ensures WriteRooms(rooms, Allocate(env, req, [a, b], taken)) == rooms[b.id := Room(x, AutoRoom, Published)]
  {
    TwoRows(env, req, a, b, taken);
    assert taken + Taken([]) == taken;
    AskedGets(env, req, b, taken, x);
    var made := Allocate(env, req, [a, b], taken);
    assert made == Decide(env, req, b, taken);
    OneWrite(rooms, made);
  }

  ghost predicate TwoCandidates(env: Env, req: Request, date: int, c: int, d: int, rooms: set<int>, n: int) {
    && ValidEnv(env) && InputVerdict(req).Pass? && !req.dryRun && req.replaceVirtual
    && CandidateOn(env, req, date, c) && IsVirtual(env, c) && CandidateOn(env, req, date, d) && c != d
    && rooms == OthersThan(env, req, date, {c, d}) && forall room | room in rooms :: 0 < room < n
  }

  /** With the first lesson in one candidate, only the other is free. */
  lemma {:induction false} OneFree(env: Env, req: Request, date: int, c: int, d: int, rooms: set<int>, n: int)
    requires CandidateOn(env, req, date, d) && c != d
    requires rooms == OthersThan(env, req, date, {c, d}) && forall room | room in rooms :: 0 < room < n
    ensures OnlyFree(env, req, date, 1, Occupied(Pair(req, date, rooms, c, n), req.start, req.end), d)
  {
    var occupied := Occupied(Pair(req, date, rooms, c, n), req.start, req.end);
    forall x | x in Candidates(env, req, Monday(date))
      ensures Slot(date, 1, x) !in occupied <==> d == x
    {
      PairOccupied(req, date, rooms, c, n, x);
    }
  }

  /** What a listing shows of the two lessons. */
  lemma {:induction false} PairSeen(env: Env, req: Request, date: int, rooms: set<int>, c: int, n: int)
    requires req.start <= date <= req.end && forall room | room in rooms :: 0 < room < n
    ensures var s := Pair(req, date, rooms, c, n);
      && n in s.lessons && n + 1 in s.lessons
      && var a, b := ViewOf(env, s, n), ViewOf(env, s, n + 1);
      && a.id == n && a.date == date && a.pair == 1 && a.subject.Some? && a.location == Some(c)
      && b.id == n + 1 && b.date == date && b.pair == 1 && b.subject.Some? && b.location == None
  {
  }

  lemma {:induction false} FirstMoved(req: Request, date: int, rooms: set<int>, c: int, d: int, n: int)
    ensures var s := Pair(req, date, rooms, c, n);
      s.(rooms := s.rooms[n := Room(d, AutoRoom, Published)]) == Pair(req, date, rooms, d, n)
  {
    assert Pair(req, date, rooms, c, n).rooms[n := Room(d, AutoRoom, Published)] == Pair(req, date, rooms, d, n).rooms;
  }

  lemma {:induction false} PairWritten(env: Env, req: Request, date: int, c: int, d: int, rooms: set<int>, n: int)
    requires TwoCandidates(env, req, date, c, d, rooms, n)
    ensures var s := Pair(req, date, rooms, c, n);
      WriteRooms(s.rooms, Choices(env, s, req)) == s.rooms[n := Room(d, AutoRoom, Published)]
  {
    var s := Pair(req, date, rooms, c, n);
    PairListed(env, req, date, rooms, c, n, s);
    OneFree(env, req, date, c, d, rooms, n);
    PairSeen(env, req, date, rooms, c, n);
    FirstTakesIt(env, req, ViewOf(env, s, n), ViewOf(env, s, n + 1), Occupied(s, req.start, req.end), d, s.rooms);
  }

  lemma {:induction false} PairFirst(env: Env, req: Request, date: int, c: int, d: int, rooms: set<int>, n: int)
    requires TwoCandidates(env, req, date, c, d, rooms, n)
    ensures Effect(env, Pair(req, date, rooms, c, n), req) == Pair(req, date, rooms, d, n)
  {
    PairWritten(env, req, date, c, d, rooms, n);
    FirstMoved(req, date, rooms, c, d, n);
  }

  /** If the other candidate is virtual as well, the first lesson moves back. */
  lemma {:induction false} FirstMovesBack(env: Env, req: Request, date: int, c: int, d: int, rooms: set<int>, n: int)
    requires TwoCandidates(env, req, date, c, d, rooms, n) && IsVirtual(env, d)
    ensures !(Effect(env, Pair(req, date, rooms, d, n), req) == Pair(req, date, rooms, d, n))
  {
    assert OthersThan(env, req, date, {d, c}) == OthersThan(env, req, date, {c, d});
    PairFirst(env, req, date, d, c, rooms, n);
    assert Pair(req, date, rooms, c, n).rooms[n].location == c;
  }

  /** If it is not, the second lesson is given the virtual candidate, free by now. */
  lemma {:induction false} SecondIsPlaced(env: Env, req: Request, date: int, c: int, d: int, rooms: set<int>, n: int)
    requires TwoCandidates(env, req, date, c, d, rooms, n) && !IsVirtual(env, d) && d > 0
    ensures !(Effect(env, Pair(req, date, rooms, d, n), req) == Pair(req, date, rooms, d, n))
  {
    var once := Pair(req, date, rooms, d, n);
    PairListed(env, req, date, rooms, d, n, once);
    assert OthersThan(env, req, date, {d, c}) == OthersThan(env, req, date, {c, d});
    OneFree(env, req, date, d, c, rooms, n);
    PairSeen(env, req, date, rooms, d, n);
    var occupied := Occupied(once, req.start, req.end);
    SecondTakesIt(env, req, ViewOf(env, once, n), ViewOf(env, once, n + 1), occupied, c, once.rooms);
  }

  /** A virtual candidate beside another: these tables are changed by the second run too. */
  lemma {:induction false} PairMoves(env: Env, req: Request, date: int, c: int, d: int, rooms: set<int>, n: int)
    requires TwoCandidates(env, req, date, c, d, rooms, n)
    ensures !Settles(env, Pair(req, date, rooms, c, n), req)
  {
    PairFirst(env, req, date, c, d, rooms, n);
    if IsVirtual(env, d) {
      FirstMovesBack(env, req, date, c, d, rooms, n);
    } else {
      CandidatesPositive(env, req, date);
      SecondIsPlaced(env, req, date, c, d, rooms, n);
    }
  }

  lemma {:induction false} AlternativeMoves(env: Env, req: Request, date: int, c: int, d: int) returns (s: State)
    requires ValidEnv(env) && InputVerdict(req).Pass? && !req.dryRun && req.replaceVirtual
    requires CandidateOn(env, req, date, c) && IsVirtual(env, c) && CandidateOn(env, req, date, d) && c != d
    ensures WellFormed(env, s) && !Settles(env, s, req)
  {
    var rooms := OthersThan(env, req, date, {c, d});
    CandidatesPositive(env, req, date);
    var n := Above(rooms);
    s := Pair(req, date, rooms, c, n);
    PairWellFormed(env, req, date, rooms, c, n);
    PairMoves(env, req, date, c, d, rooms, n);
  }

  /**
   The second run changes nothing, on every state, if and only if no candidate for a day of the range
   that is virtual has another beside it, while virtual rooms are being replaced.
   */
  lemma {:induction false} SettlesIff(env: Env, req: Request)
    requires ValidEnv(env) && InputVerdict(req).Pass? && !req.dryRun
    ensures VirtualOnlyAlone(env, req) <==> forall s | WellFormed(env, s) :: Settles(env, s, req)
  {
    if VirtualOnlyAlone(env, req) {
      forall s | WellFormed(env, s)
        ensures Settles(env, s, req)
      {
        SecondRunSettles(env, s, req);
      }
    } else {
      var date, c, d :| CandidateOn(env, req, date, c) && CandidateOn(env, req, date, d) && IsVirtual(env, c) && c != d;
      var s := AlternativeMoves(env, req, date, c, d);
    }
  }

  /** Such a case: rooms 1 and 2, both online and free. The lesson in room 1 is moved to room 2, and then back. */
  lemma {:induction false} OnlineRoomsSwap() returns (env: Env, req: Request, s: State)
    ensures ValidEnv(env) && WellFormed(env, s) && InputVerdict(req).Pass? && !req.dryRun
    ensures !FindsNothing(env, s, req) && !Settles(env, s, req)
  {
    var al := Text.Alphabet(c => false, c => c);
    var online := Location(false, {"online"}, true, "");
    var free := [Availability(7, 1, true), Availability(7, 2, true)];
    env := Env(al, [], map[], map[1 := online, 2 := online], free, map[], false);
    req := Request(1, 7, 7, None, None, true, false);
    CandidatesAreOffered(env, req, 7, free, 1);
    CandidatesAreOffered(env, req, 7, free, 2);
    assert free[0] in free && free[1] in free;
    assert Offered(env, req, 7, free[0]) && Offered(env, req, 7, free[1]);
    assert CandidateOn(env, req, 7, 1) && CandidateOn(env, req, 7, 2);
    s := Pair(req, 7, {}, 1, 10);
    PairWellFormed(env, req, 7, {}, 1, 10);
    forall c
      ensures c !in OthersThan(env, req, 7, {1, 2})
    {
      CandidatesAreOffered(env, req, 7, free, c);
    }
    assert OthersThan(env, req, 7, {1, 2}) == {};
    PairMoves(env, req, 7, 1, 2, {}, 10);
  }
}
