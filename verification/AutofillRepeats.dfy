/** A second run right after a first one, where no virtual candidate has another beside it. */
module AutofillRepeats {
  import opened Store
  import opened Views
  import opened Autofill
  import opened AutofillIdempotence

  /** The second run reports just the lessons the first one skipped, and leaves the tables alone. */
  ghost predicate FindsNothing(env: Env, s: State, req: Request) {
    var once := Effect(env, s, req);
    Choices(env, once, req) == Skipped(Choices(env, s, req)) && Effect(env, once, req) == once
  }

  ghost predicate Settles(env: Env, s: State, req: Request) {
    Effect(env, Effect(env, s, req), req) == Effect(env, s, req)
  }

  // ------------------------------------------- the second run writes nothing

  /** What the second run decides for a row places nothing, as every candidate is occupied by then. */
  lemma {:induction false} PlacedNowhere(env: Env, s: State, req: Request, k: nat)
    requires ValidEnv(env) && WellFormed(env, s) && VirtualOnlyAlone(env, req)
    requires k < |Rows(env, s, req.group, req.start, req.end)|
    ensures var row, after := Rows(env, s, req.group, req.start, req.end)[k], After(env, s, req);
      && row.id in after.lessons
      && EmptyHanded(env, req, ViewOf(env, after, row.id), Occupied(after, req.start, req.end))
  {
    var rows := Rows(env, s, req.group, req.start, req.end);
    var occupied := Occupied(s, req.start, req.end);
    var after := After(env, s, req);
    var row := rows[k];
    RowIsView(env, s, req.group, req.start, req.end, k);
    var again := ViewOf(env, after, row.id);
    if NeedsRoom(env, again, req.replaceVirtual) && again.subject.Some? {
      forall c | c in Candidates(env, req, Monday(row.date))
        ensures Slot(row.date, row.pair, c) in Occupied(after, req.start, req.end)
      {
        CandidateTaken(env, s, req, k, c);
      }
    }
  }

  lemma {:induction false} CandidateTaken(env: Env, s: State, req: Request, k: nat, c: int)
    requires ValidEnv(env) && WellFormed(env, s) && VirtualOnlyAlone(env, req)
    requires k < |Rows(env, s, req.group, req.start, req.end)|
    requires var row, after := Rows(env, s, req.group, req.start, req.end)[k], After(env, s, req);
      && row.id in after.lessons && NeedsRoom(env, ViewOf(env, after, row.id), req.replaceVirtual)
      && row.subject.Some? && c in Candidates(env, req, Monday(row.date))
    ensures var row := Rows(env, s, req.group, req.start, req.end)[k];
      Slot(row.date, row.pair, c) in Occupied(After(env, s, req), req.start, req.end)
  {
    var rows := Rows(env, s, req.group, req.start, req.end);
    var occupied := Occupied(s, req.start, req.end);
    RowIsView(env, s, req.group, req.start, req.end, k);
    var given := GivenAt(env, req, rows, occupied, k);
    if given.Some? {
      GivenNeedsAgain(env, s, req, k);
      assert CandidateOn(env, req, rows[k].date, given.value) && CandidateOn(env, req, rows[k].date, c);
      GivenIsOccupied(env, s, req, k);
    } else {
      UnplacedReadsSame(env, s, req, k);
      NothingBecomesFree(env, s, req, k, c);
    }
  }

  /** A row that was given a room reads with that room. */
  lemma {:induction false} GivenReads(env: Env, s: State, req: Request, k: nat)
    requires k < |Rows(env, s, req.group, req.start, req.end)|
    requires GivenAt(env, req, Rows(env, s, req.group, req.start, req.end), Occupied(s, req.start, req.end), k).Some?
    ensures var row, after := Rows(env, s, req.group, req.start, req.end)[k], After(env, s, req);
      && row.id in after.lessons
      && ViewOf(env, after, row.id).location ==
           GivenAt(env, req, Rows(env, s, req.group, req.start, req.end), Occupied(s, req.start, req.end), k)
  {
    var rows := Rows(env, s, req.group, req.start, req.end);
    RowIdsDistinct(env, s, req.group, req.start, req.end);
    RowRoomAfter(env, req, rows, Occupied(s, req.start, req.end), s.rooms, k);
    RowIsView(env, s, req.group, req.start, req.end, k);
  }

  lemma {:induction false} GivenIsCandidate(env: Env, req: Request, rows: seq<View>, occupied: set<Slot>, k: nat)
    requires ValidEnv(env) && k < |rows| && GivenAt(env, req, rows, occupied, k).Some?
    ensures var given := GivenAt(env, req, rows, occupied, k).value;
      given > 0 && given in Candidates(env, req, Monday(rows[k].date))
  {
    CandidatesAreOffered(env, req, Monday(rows[k].date), env.availability, GivenAt(env, req, rows, occupied, k).value);
  }

  /** A row that needs a room even after it was given one was given a virtual one. */
  lemma {:induction false} GivenNeedsAgain(env: Env, s: State, req: Request, k: nat)
    requires ValidEnv(env) && k < |Rows(env, s, req.group, req.start, req.end)|
    requires var row, after := Rows(env, s, req.group, req.start, req.end)[k], After(env, s, req);
      && row.id in after.lessons && NeedsRoom(env, ViewOf(env, after, row.id), req.replaceVirtual)
      && GivenAt(env, req, Rows(env, s, req.group, req.start, req.end), Occupied(s, req.start, req.end), k).Some?
    ensures var rows, occupied := Rows(env, s, req.group, req.start, req.end), Occupied(s, req.start, req.end);
      var given := GivenAt(env, req, rows, occupied, k);
      && req.replaceVirtual && IsVirtual(env, given.value)
      && given.value in Candidates(env, req, Monday(Rows(env, s, req.group, req.start, req.end)[k].date))
  {
    GivenReads(env, s, req, k);
    GivenIsCandidate(env, req, Rows(env, s, req.group, req.start, req.end), Occupied(s, req.start, req.end), k);
  }

  predicate EmptyHanded(env: Env, req: Request, row: View, occupied: set<Slot>) {
    var d := Decide(env, req, row, occupied);
    d == [] || d[0].location.None?
  }

  ghost predicate AllEmptyHanded(env: Env, req: Request, rows: seq<View>, occupied: set<Slot>) {
    forall k | 0 <= k < |rows| :: EmptyHanded(env, req, rows[k], occupied)
  }

  /** A pass over rows each of which comes away empty-handed places nothing. */
  lemma {:induction false} NonePlaced(env: Env, req: Request, rows: seq<View>, occupied: set<Slot>, n: nat)
    requires n <= |rows|
    requires AllEmptyHanded(env, req, rows, occupied)
    ensures CountAssigned(Allocate(env, req, rows[..n], occupied)) == 0
    ensures Taken(Allocate(env, req, rows[..n], occupied)) == {}
  {
    if n > 0 {
      NonePlaced(env, req, rows, occupied, n - 1);
      AllocateStep(env, req, rows, occupied, n);
      assert occupied + {} == occupied;
      CountsTheSame(Allocate(env, req, rows[..n - 1], occupied), Decide(env, req, rows[n - 1], occupied));
    }
  }

  lemma {:induction false} CountsTheSame(made: seq<Assignment>, d: seq<Assignment>)
    requires |d| <= 1 && (d == [] || d[0].location.None?)
    ensures CountAssigned(made + d) == CountAssigned(made) && Taken(made + d) == Taken(made)
  {
    if d == [] {
      assert made + d == made;
    } else {
      assert made + d == made + [d[0]];
      TakenAppend(made, d[0]);
    }
  }

  lemma {:induction false} RereadEmptyHanded(env: Env, s: State, req: Request)
    requires ValidEnv(env) && WellFormed(env, s) && VirtualOnlyAlone(env, req)
    ensures var after := After(env, s, req);
      AllEmptyHanded(env, req, Rows(env, after, req.group, req.start, req.end), Occupied(after, req.start, req.end))
  {
    var after := After(env, s, req);
    RowsReread(env, s, after, req.group, req.start, req.end);
    var again := Rows(env, after, req.group, req.start, req.end);
    forall k | 0 <= k < |again|
      ensures EmptyHanded(env, req, again[k], Occupied(after, req.start, req.end))
    {
      PlacedNowhere(env, s, req, k);
    }
  }

  /** Where no virtual candidate has an alternative, the second run writes nothing. */
  lemma {:induction false} SecondRunSettles(env: Env, s: State, req: Request)
    requires ValidEnv(env) && WellFormed(env, s) && VirtualOnlyAlone(env, req)
    requires InputVerdict(req).Pass? && !req.dryRun
    ensures Settles(env, s, req)
  {
    var once := Effect(env, s, req);
    var again := Rows(env, once, req.group, req.start, req.end);
    RereadEmptyHanded(env, s, req);
    NonePlaced(env, req, again, Occupied(once, req.start, req.end), |again|);
    assert again[..|again|] == again;
    NothingAssigned(once.rooms, Choices(env, once, req));
  }
}
