/** The greedy pass is free of conflicts and places as many lessons as any pass could. */
module AutofillOptimality {
  import opened Wrappers
  import opened Store
  import opened Views
  import opened Autofill
  import Orders

  /** How many lessons of a day and pair need a room and have a subject. */
  function NeedyAt(env: Env, req: Request, rows: seq<View>, date: int, pair: int): nat {
    if rows == [] then 0
    else
      NeedyAt(env, req, rows[..|rows| - 1], date, pair) +
      if Needy(env, req, rows[|rows| - 1], date, pair) then 1 else 0
  }

  predicate Needy(env: Env, req: Request, row: View, date: int, pair: int) {
    row.date == date && row.pair == pair && NeedsRoom(env, row, req.replaceVirtual) && row.subject.Some?
  }

  /** The week's candidates that nobody had on that day and pair before the run. */
  ghost function FreeAt(env: Env, req: Request, occupied: set<Slot>, date: int, pair: int): set<int> {
    set c | c in Candidates(env, req, Monday(date)) && Slot(date, pair, c) !in occupied
  }

  predicate PlacedAt(a: Assignment, date: int, pair: int) {
    a.date == date && a.pair == pair && a.location.Some?
  }

  function CountAt(made: seq<Assignment>, date: int, pair: int): nat {
    if made == [] then 0
    else CountAt(made[..|made| - 1], date, pair) + if PlacedAt(made[|made| - 1], date, pair) then 1 else 0
  }

  ghost function ChosenAt(made: seq<Assignment>, date: int, pair: int): set<int> {
    set a | a in made && PlacedAt(a, date, pair) :: a.location.value
  }

  function Min(a: nat, b: nat): nat {
    if a < b then a else b
  }

  ghost predicate Optimal(made: seq<Assignment>, needy: nat, free: set<int>, date: int, pair: int) {
    && CountAt(made, date, pair) == Min(needy, |free|)
    && ChosenAt(made, date, pair) <= free
    && |ChosenAt(made, date, pair)| == CountAt(made, date, pair)
  }

  /**
   For every day and pair the pass places exactly the smaller of the number of needy lessons and
   the number of free candidates, each in a candidate of its own that was free before.
   */
  lemma {:induction false} PlacesAllItCan(
    env: Env, req: Request, rows: seq<View>, occupied: set<Slot>, date: int, pair: int)
    ensures Optimal(Allocate(env, req, rows, occupied), NeedyAt(env, req, rows, date, pair),
                    FreeAt(env, req, occupied, date, pair), date, pair)
  {
    if rows != [] {
      var init, row := rows[..|rows| - 1], rows[|rows| - 1];
      PlacesAllItCan(env, req, init, occupied, date, pair);
      var before := Allocate(env, req, init, occupied);
      OneMoreRow(env, req, row, before, NeedyAt(env, req, init, date, pair), occupied, date, pair);
    }
  }

  lemma {:induction false} OneMoreRow(
    env: Env, req: Request, row: View, made: seq<Assignment>, needy: nat, occupied: set<Slot>, date: int, pair: int)
    requires Optimal(made, needy, FreeAt(env, req, occupied, date, pair), date, pair)
    ensures Optimal(made + Decide(env, req, row, occupied + Taken(made)),
                    needy + if Needy(env, req, row, date, pair) then 1 else 0,
                    FreeAt(env, req, occupied, date, pair), date, pair)
  {
    var free := FreeAt(env, req, occupied, date, pair);
    var decided := Decide(env, req, row, occupied + Taken(made));
    if decided == [] {
      assert made + decided == made;
      return;
    }
    var a := decided[0];
    assert decided == [a];
    ChosenAppend(made, a, date, pair);
    if Needy(env, req, row, date, pair) {
      if a.location.None? {
        forall c | c in free
          ensures c in ChosenAt(made, date, pair)
        {
          TakenIsChosen(made, date, pair, c);
        }
        assert ChosenAt(made, date, pair) == free;
      } else {
        TakenIsChosen(made, date, pair, a.location.value);
        StrictlySmaller(ChosenAt(made, date, pair), free);
      }
    }
  }

  lemma {:induction false} ChosenAppend(made: seq<Assignment>, a: Assignment, date: int, pair: int)
    ensures (made + [a])[..|made|] == made
    ensures ChosenAt(made + [a], date, pair) ==
      ChosenAt(made, date, pair) + if PlacedAt(a, date, pair) then {a.location.value} else {}
  {
  }

  lemma {:induction false} TakenIsChosen(made: seq<Assignment>, date: int, pair: int, c: int)
    ensures Slot(date, pair, c) in Taken(made) <==> c in ChosenAt(made, date, pair)
  {
  }

  lemma {:induction false} StrictlySmaller(a: set<int>, b: set<int>)
    requires a < b
    ensures |a| < |b|
  {
    var extra := b - a;
    assert b == a + extra;
    assert extra != {} by {
      assert !(b <= a);
    }
  }

  /** No slot is given twice in a run, and none that was taken when the run began. */
  lemma {:induction false} NeverDoubleBooks(
    env: Env, req: Request, rows: seq<View>, occupied: set<Slot>, i: nat, j: nat)
    requires i < j < |Allocate(env, req, rows, occupied)|
    ensures var made := Allocate(env, req, rows, occupied);
      && (made[j].location.Some? ==> Slot(made[j].date, made[j].pair, made[j].location.value) !in occupied)
      && (made[i].location.Some? ==> Slot(made[i].date, made[i].pair, made[i].location.value) !in occupied)
      && (made[i].location.Some? && made[j].location.Some? ==>
            Slot(made[i].date, made[i].pair, made[i].location.value) !=
              Slot(made[j].date, made[j].pair, made[j].location.value))
    decreases |rows|
  {
    var made := Allocate(env, req, rows, occupied);
    var before := Allocate(env, req, rows[..|rows| - 1], occupied);
    if j < |before| {
      NeverDoubleBooks(env, req, rows[..|rows| - 1], occupied, i, j);
    } else {
      assert made == before + [made[j]];
      assert made[i] == before[i] && before[i] in before;
      TakenIsFree(env, req, rows[..|rows| - 1], occupied);
    }
  }

  lemma {:induction false} TakenIsFree(env: Env, req: Request, rows: seq<View>, occupied: set<Slot>)
    ensures Taken(Allocate(env, req, rows, occupied)) !! occupied
  {
    if rows != [] {
      var before := Allocate(env, req, rows[..|rows| - 1], occupied);
      TakenIsFree(env, req, rows[..|rows| - 1], occupied);
      var decided := Decide(env, req, rows[|rows| - 1], occupied + Taken(before));
      if decided == [] {
        assert before + decided == before;
      } else {
        assert before + decided == before + [decided[0]];
        TakenAppend(before, decided[0]);
      }
    }
  }

  /** An allotment of free candidates to needy rows of one day and pair, no candidate twice. */
  ghost predicate Allotment(
    env: Env, req: Request, rows: seq<View>, occupied: set<Slot>, date: int, pair: int, f: map<int, int>)
  {
    && (forall k | k in f :: 0 <= k < |rows| && Needy(env, req, rows[k], date, pair))
    && (forall k | k in f :: f[k] in FreeAt(env, req, occupied, date, pair))
    && (forall k, l | k in f && l in f && k != l :: f[k] != f[l])
  }

  /** No allotment, however it is found, places more lessons of a day and pair than the greedy pass. */
  lemma {:induction false} GreedyIsBest(
    env: Env, req: Request, rows: seq<View>, occupied: set<Slot>, date: int, pair: int, f: map<int, int>)
    requires Allotment(env, req, rows, occupied, date, pair, f)
    ensures |f| <= CountAt(Allocate(env, req, rows, occupied), date, pair)
  {
    PlacesAllItCan(env, req, rows, occupied, date, pair);
    RowsBound(env, req, rows, date, pair, f.Keys);
    ValuesBound(f, FreeAt(env, req, occupied, date, pair));
    assert |f| == |f.Keys|;
  }

  lemma {:induction false} RowsBound(env: Env, req: Request, rows: seq<View>, date: int, pair: int, keys: set<int>)
    requires forall k | k in keys :: 0 <= k < |rows| && Needy(env, req, rows[k], date, pair)
    ensures |keys| <= NeedyAt(env, req, rows, date, pair)
  {
    if rows == [] {
      assert forall k :: k !in keys;
      assert keys == {};
    } else {
      var last := |rows| - 1;
      RowsBound(env, req, rows[..last], date, pair, keys - {last});
      if last !in keys {
        assert keys - {last} == keys;
      }
    }
  }

  lemma {:induction false} ValuesBound(f: map<int, int>, free: set<int>)
    requires forall k | k in f :: f[k] in free
    requires forall k, l | k in f && l in f && k != l :: f[k] != f[l]
    ensures |f.Keys| <= |free|
    decreases |f.Keys|
  {
    if f.Keys != {} {
      var k := Orders.Member(f.Keys);
      var rest := f - {k};
      assert rest.Keys == f.Keys - {k};
      ValuesBound(rest, free - {f[k]});
    }
  }
}
