/** At most one lesson that is not cancelled in a slot: who keeps it, who breaks it, and what the index adds. */
module SlotUniqueness {
  import opened Wrappers
  import opened Store
  import opened Overrides
  import opened Runs
  import Text

  ghost predicate SlotUnique(s: State) {
    forall i, j | i in s.lessons && j in s.lessons && i != j && Active(s.lessons[i]) && Active(s.lessons[j]) ::
      !SameSlot(s.lessons[i], s.lessons[j])
  }

  predicate Republishes(al: Text.Alphabet, req: Request) {
    ParseAction(al, req.action) in {Some(Replace), Some(Restore)}
  }

  /** A replace or restore that names a cancelled lesson whose slot another lesson has since taken. */
  predicate Reopens(al: Text.Alphabet, s: State, req: Request) {
    && Republishes(al, req)
    && req.lesson.Some? && req.lesson.value in s.lessons
    && !Active(s.lessons[req.lesson.value])
    && SlotTaken(s, req.lesson.value, s.lessons[req.lesson.value])
  }

  /** Writing one lesson keeps slots unique exactly if the lesson is cancelled or its slot is free of others. */
  lemma {:induction false} WriteKeepsSlots(s: State, after: State, id: int, lesson: Lesson)
    requires SlotUnique(s) && after.lessons == s.lessons[id := lesson]
    ensures SlotUnique(after) <==> (!Active(lesson) || !SlotTaken(s, id, lesson))
  {
    if Active(lesson) && SlotTaken(s, id, lesson) {
      var other :| other in s.lessons && other != id && Active(s.lessons[other]) && SameSlot(s.lessons[other], lesson);
      assert after.lessons[other] == s.lessons[other] && after.lessons[id] == lesson;
    } else {
      forall i, j | i in after.lessons && j in after.lessons && i != j && Active(after.lessons[i]) &&
        Active(after.lessons[j])
        ensures !SameSlot(after.lessons[i], after.lessons[j])
      {
        assert i != id ==> i in s.lessons && after.lessons[i] == s.lessons[i];
        assert j != id ==> j in s.lessons && after.lessons[j] == s.lessons[j];
      }
    }
  }

  /** An accepted override puts a lesson where another active one is only by reopening. */
  lemma {:induction false} OnlyReopeningCollides(env: Env, s: State, req: Request)
    requires WellFormed(env, s) && SlotUnique(s) && Plan(env, s, req).Success?
    ensures var c := Plan(env, s, req).value;
      Active(c.lesson) && SlotTaken(s, c.id, c.lesson) <==> Reopens(env.alphabet, s, req)
  {
    PlanShape(env, s, req);
    var c := Plan(env, s, req).value;
    if c.entry.action == Add {
      NewSlotIsFree(env, s, req);
    } else {
      assert SlotTaken(s, c.id, c.lesson) <==> SlotTaken(s, c.id, s.lessons[c.id]) by {
        assert SameSlot(c.lesson, s.lessons[c.id]);
      }
    }
  }

  lemma {:induction false} NewSlotIsFree(env: Env, s: State, req: Request)
    requires WellFormed(env, s) && ValidSubgroup(req.subgroup)
    requires ActiveAt(s, req.group, req.date, req.pair, req.subgroup) == {}
    ensures !SlotTaken(s, s.nextId, NewLesson(env, req))
  {
    forall other | other in s.lessons && Active(s.lessons[other])
      ensures !SameSlot(s.lessons[other], NewLesson(env, req))
    {
      assert other !in ActiveAt(s, req.group, req.date, req.pair, req.subgroup);
    }
  }

  /** An accepted override keeps slots unique exactly if it does not reopen a slot that was taken meanwhile. */
  lemma {:induction false} OverrideKeepsSlotsIff(env: Env, s: State, req: Request)
    requires WellFormed(env, s) && SlotUnique(s) && Accepted(env, s, Override(req))
    ensures SlotUnique(Step(env, s, Override(req))) <==> !Reopens(env.alphabet, s, req)
  {
    var c := Plan(env, s, req).value;
    WriteKeepsSlots(s, Step(env, s, Override(req)), c.id, c.lesson);
    OnlyReopeningCollides(env, s, req);
  }

  lemma {:induction false} IndexComesLastInAdd(env: Env, s: State, req: Request)
    requires !env.slotIndex
    ensures var without := AddVerdict(env, s, req);
      AddVerdict(env.(slotIndex := true), s, req) ==
        if without.Pass? && SlotTaken(s, s.nextId, NewLesson(env, req)) then Fail(SlotIndexViolated) else without
  {
  }

  lemma {:induction false} IndexComesLastInRepublish(
    env: Env, s: State, id: int, next: Lesson, location: Option<int>, req: Request)
    requires !env.slotIndex && Active(next)
    ensures var without := RepublishVerdict(env, s, id, next, location, req);
      RepublishVerdict(env.(slotIndex := true), s, id, next, location, req) ==
        if without.Pass? && SlotTaken(s, id, next) then Fail(SlotIndexViolated) else without
  {
  }

  lemma {:induction false} IndexComesLast(env: Env, s: State, req: Request)
    requires !env.slotIndex
    ensures var without := Plan(env, s, req);
      Plan(env.(slotIndex := true), s, req) ==
        if without.Success? && Active(without.value.lesson) && SlotTaken(s, without.value.id, without.value.lesson)
        then Failure(SlotIndexViolated) else without
  {
    IndexComesLastInAdd(env, s, req);
    var located := Locate(s, req);
    if located.Some? {
      var id := located.value;
      var next := NextLesson(env, s.lessons[id], req);
      IndexComesLastInRepublish(env, s, id, next, NextLocation(s, id, req), req);
    }
  }

  /** With the index on, the same requests pass, but for those that would reopen a taken slot. */
  lemma {:induction false} IndexRejectsExactlyReopening(env: Env, s: State, req: Request)
    requires !env.slotIndex && WellFormed(env, s) && SlotUnique(s)
    ensures var without := Plan(env, s, req);
      Plan(env.(slotIndex := true), s, req) ==
        if without.Success? && Reopens(env.alphabet, s, req) then Failure(SlotIndexViolated) else without
  {
    IndexComesLast(env, s, req);
    if Plan(env, s, req).Success? {
      OnlyReopeningCollides(env, s, req);
    }
  }

  // ------------------------------------------------------------------ runs

  /** An accepted request puts an active lesson where another one is. */
  predicate Collides(env: Env, s: State, op: Op) {
    Accepted(env, s, op) &&
    match op
    case Override(req) => Reopens(env.alphabet, s, req)
    case Create(row, t, d) =>
      var lesson := PlanCreate(env, s, row, t, d).value;
      Active(lesson) && SlotTaken(s, s.nextId, lesson)
    case Update(id, patch, expected, t, d) =>
      var lesson := PlanUpdate(env, s, id, patch, expected, t, d).value;
      Active(lesson) && SlotTaken(s, id, lesson)
    case Fill(_) => false
  }

  /** Step by step: slots stay unique exactly if the request does not collide. */
  lemma {:induction false} StepKeepsSlotsIff(env: Env, s: State, op: Op)
    requires WellFormed(env, s) && SlotUnique(s)
    ensures SlotUnique(Step(env, s, op)) <==> !Collides(env, s, op)
  {
    if Accepted(env, s, op) {
      var after := Step(env, s, op);
      match op
      case Override(req) => OverrideKeepsSlotsIff(env, s, req);
      case Create(row, t, d) => WriteKeepsSlots(s, after, s.nextId, PlanCreate(env, s, row, t, d).value);
      case Update(id, patch, expected, t, d) =>
        WriteKeepsSlots(s, after, id, PlanUpdate(env, s, id, patch, expected, t, d).value);
      case Fill(_) =>
    }
  }

  ghost predicate UniqueThroughout(env: Env, s: State, ops: seq<Op>) {
    forall n | 0 <= n <= |ops| :: SlotUnique(Run(env, s, ops[..n]))
  }

  ghost predicate NeverCollides(env: Env, s: State, ops: seq<Op>) {
    forall n | 0 <= n < |ops| :: !Collides(env, Run(env, s, ops[..n]), ops[n])
  }

  /**
   Any run of any requests: slots are unique after every one of them if and only if none collides in
   the state it meets. Of overrides only a replace or restore by id that reopens a taken slot does.
   */
  lemma {:induction false} RunKeepsSlotsIff(env: Env, s: State, ops: seq<Op>)
    requires ValidEnv(env) && WellFormed(env, s) && SlotUnique(s)
    ensures UniqueThroughout(env, s, ops) <==> NeverCollides(env, s, ops)
  {
    if NeverCollides(env, s, ops) {
      forall n | 0 <= n <= |ops|
        ensures SlotUnique(Run(env, s, ops[..n]))
      {
        UniqueUpTo(env, s, ops, n);
      }
    } else {
      var n :| 0 <= n < |ops| && Collides(env, Run(env, s, ops[..n]), ops[n]);
      if SlotUnique(Run(env, s, ops[..n])) {
        RunKeepsWellFormed(env, s, ops[..n]);
        StepKeepsSlotsIff(env, Run(env, s, ops[..n]), ops[n]);
        assert ops[..n + 1][..n] == ops[..n];
        assert !SlotUnique(Run(env, s, ops[..n + 1]));
      }
    }
  }

  lemma {:induction false} UniqueUpTo(env: Env, s: State, ops: seq<Op>, n: nat)
    requires ValidEnv(env) && WellFormed(env, s) && SlotUnique(s) && n <= |ops| && NeverCollides(env, s, ops)
    ensures SlotUnique(Run(env, s, ops[..n]))
  {
    if n > 0 {
      UniqueUpTo(env, s, ops, n - 1);
      RunKeepsWellFormed(env, s, ops[..n - 1]);
      assert ops[..n][..n - 1] == ops[..n - 1];
      StepKeepsSlotsIff(env, Run(env, s, ops[..n - 1]), ops[n - 1]);
    }
  }

  /** Requests that cannot reopen a slot: adds, cancels, anything addressed by slot, and automatic rooms. */
  predicate NeverReopens(al: Text.Alphabet, op: Op) {
    match op
    case Override(req) => !Republishes(al, req) || req.lesson.None?
    case Fill(_) => true
    case _ => false
  }

  lemma {:induction false} RunKeepsSlots(env: Env, s: State, ops: seq<Op>)
    requires ValidEnv(env) && WellFormed(env, s) && SlotUnique(s)
    requires forall op | op in ops :: NeverReopens(env.alphabet, op)
    ensures SlotUnique(Run(env, s, ops))
  {
    if ops != [] {
      var init, last := ops[..|ops| - 1], ops[|ops| - 1];
      assert last in ops && forall op | op in init :: op in ops;
      RunKeepsSlots(env, s, init);
      RunKeepsWellFormed(env, s, init);
      var before := Run(env, s, init);
      if last.Override? && Accepted(env, before, last) {
        OverrideKeepsSlotsIff(env, before, last.req);
      }
    }
  }

  /** Where the database enforces the index, every run of any requests keeps slots unique. */
  lemma {:induction false} IndexedRunKeepsSlots(env: Env, s: State, ops: seq<Op>)
    requires env.slotIndex && SlotUnique(s)
    ensures SlotUnique(Run(env, s, ops))
  {
    if ops != [] {
      var init, last := ops[..|ops| - 1], ops[|ops| - 1];
      IndexedRunKeepsSlots(env, s, init);
      IndexedStepKeepsSlots(env, Run(env, s, init), last);
    }
  }

  lemma {:induction false} IndexedStepKeepsSlots(env: Env, s: State, op: Op)
    requires env.slotIndex && SlotUnique(s)
    ensures SlotUnique(Step(env, s, op))
  {
    if Accepted(env, s, op) {
      var after := Step(env, s, op);
      match op
      case Override(req) =>
        IndexedOverrideIsFree(env, s, req);
        WriteKeepsSlots(s, after, Plan(env, s, req).value.id, Plan(env, s, req).value.lesson);
      case Create(row, t, d) =>
        WriteKeepsSlots(s, after, s.nextId, PlanCreate(env, s, row, t, d).value);
      case Update(id, patch, expected, t, d) =>
        WriteKeepsSlots(s, after, id, PlanUpdate(env, s, id, patch, expected, t, d).value);
      case Fill(req) =>
    }
  }

  lemma {:induction false} IndexedOverrideIsFree(env: Env, s: State, req: Request)
    requires env.slotIndex && Plan(env, s, req).Success?
    ensures var c := Plan(env, s, req).value;
      !Active(c.lesson) || !SlotTaken(s, c.id, c.lesson)
  {
  }

  /** The gap is real: without the index, a restore by id can put two active lessons in one slot. */
  lemma {:induction false} RestoreCanCollide() returns (env: Env, s: State, req: Request)
    ensures !env.slotIndex && WellFormed(env, s) && SlotUnique(s)
    ensures Accepted(env, s, Override(req)) && !SlotUnique(Step(env, s, Override(req)))
  {
    var al := Text.Alphabet(c => false, c => c);
    env := Env(al, [], map[], map[], [], map[], false);
    var gone := Lesson(1, 7, 2, None, Some(5), None, Offline, Cancelled, Manual, None, 2);
    var held := Lesson(1, 7, 2, None, Some(6), None, Offline, Published, Replacement, None, 1);
    s := State(map[1 := gone, 2 := held], map[], [], 3);
    req := Request(Some(1), 1, 7, 2, None, "restore", None, None, None, None, None, None, false, false, None);
    assert Text.Lower(al, Text.Trim(al, "restore")) == "restore";
    assert Locate(s, req) == Some(1);
    assert Plan(env, s, req).Success?;
    var c := Plan(env, s, req).value;
    WriteKeepsSlots(s, Step(env, s, Override(req)), c.id, c.lesson);
    assert s.lessons[2] == held && SameSlot(s.lessons[2], c.lesson);
  }
}
