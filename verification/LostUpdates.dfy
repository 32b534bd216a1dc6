/** Versions: every accepted change of a stored lesson raises its version by one, so no update is lost. */
module LostUpdates {
  import opened Wrappers
  import opened Store
  import opened Overrides
  import opened Runs

  /** The stored lesson a request changes, if it is a request to change one. */
  function Target(env: Env, s: State, op: Op): Option<int> {
    match op
    case Override(req) => if ParseAction(env.alphabet, req.action) == Some(Add) then None else Locate(s, req)
    case Update(id, _, _, _, _) => Some(id)
    case _ => None
  }

  function Expected(op: Op): Option<int> {
    match op
    case Override(req) => req.expected
    case Update(_, _, expected, _, _) => expected
    case _ => None
  }

  ghost predicate Kept(s: State, after: State, id: int) {
    id in s.lessons && id in after.lessons && after.lessons[id] == s.lessons[id]
  }

  /**
   An accepted change of a stored lesson met its expected version and raises the version by exactly
   one; every other lesson is left as it is, and an added one starts at version one.
   */
  lemma {:induction false} StepVersions(env: Env, s: State, op: Op)
    requires WellFormed(env, s) && Accepted(env, s, op)
    ensures var after := Step(env, s, op);
      var target := Target(env, s, op);
      && (forall id | id in s.lessons && Some(id) != target :: Kept(s, after, id))
      && (target.Some? ==>
            && target.value in s.lessons && target.value in after.lessons
            && (Expected(op).Some? ==> Expected(op).value == s.lessons[target.value].version)
            && after.lessons[target.value].version == s.lessons[target.value].version + 1)
      && (op.Override? && target.None? ==>
         s.nextId !in s.lessons && s.nextId in after.lessons && after.lessons[s.nextId].version == 1)
  {
    if op.Override? {
      PlanShape(env, s, op.req);
    }
  }

  lemma {:induction false} StepGrows(env: Env, s: State, op: Op, id: int)
    requires WellFormed(env, s) && id in s.lessons
    ensures id in Step(env, s, op).lessons && Step(env, s, op).lessons[id].version >= s.lessons[id].version
  {
    if Accepted(env, s, op) {
      StepVersions(env, s, op);
      assert Some(id) != Target(env, s, op) ==> Kept(s, Step(env, s, op), id);
    }
  }

  lemma {:induction false} RunGrows(env: Env, s: State, ops: seq<Op>, i: nat, j: nat, id: int)
    requires ValidEnv(env) && WellFormed(env, s)
    requires i <= j <= |ops| && id in Run(env, s, ops[..i]).lessons
    ensures id in Run(env, s, ops[..j]).lessons
    ensures Run(env, s, ops[..j]).lessons[id].version >= Run(env, s, ops[..i]).lessons[id].version
    decreases j
  {
    if i < j {
      RunGrows(env, s, ops, i, j - 1, id);
      assert ops[..j][..j - 1] == ops[..j - 1];
      RunKeepsWellFormed(env, s, ops[..j - 1]);
      StepGrows(env, Run(env, s, ops[..j - 1]), ops[j - 1], id);
    }
  }

  /** Request k of a run changes lesson id, expecting version v, and is accepted. */
  predicate Wins(env: Env, before: State, op: Op, id: int, v: int) {
    Accepted(env, before, op) && Target(env, before, op) == Some(id) && Expected(op) == Some(v)
  }

  /** Of all the requests in a run that expect one version of one lesson, at most one is accepted. */
  lemma {:induction false} AtMostOneWins(env: Env, s: State, ops: seq<Op>, i: nat, j: nat, id: int, v: int)
    requires ValidEnv(env) && WellFormed(env, s)
    requires i < |ops| && j < |ops|
    requires Wins(env, Run(env, s, ops[..i]), ops[i], id, v)
    requires Wins(env, Run(env, s, ops[..j]), ops[j], id, v)
    ensures i == j
  {
    if i < j {
      LaterVersion(env, s, ops, i, j, id, v);
    } else if j < i {
      LaterVersion(env, s, ops, j, i, id, v);
    }
  }

  lemma {:induction false} LaterVersion(env: Env, s: State, ops: seq<Op>, i: nat, j: nat, id: int, v: int)
    requires ValidEnv(env) && WellFormed(env, s)
    requires i < j <= |ops|
    requires Wins(env, Run(env, s, ops[..i]), ops[i], id, v)
    ensures j < |ops| ==> !Wins(env, Run(env, s, ops[..j]), ops[j], id, v)
  {
    var before := Run(env, s, ops[..i]);
    RunKeepsWellFormed(env, s, ops[..i]);
    StepVersions(env, before, ops[i]);
    assert ops[..i + 1][..i] == ops[..i];
    RunGrows(env, s, ops, i + 1, j, id);
    RunKeepsWellFormed(env, s, ops[..j]);
    if j < |ops| && Accepted(env, Run(env, s, ops[..j]), ops[j]) {
      StepVersions(env, Run(env, s, ops[..j]), ops[j]);
    }
  }

  // --------------------------------------------------------------- journal

  /** Per lesson, applied versions strictly increase along the journal and never pass the lesson's version. */
  ghost predicate JournalOrdered(s: State) {
    && (forall a | 0 <= a < |s.journal| ::
          s.journal[a].lesson in s.lessons && s.journal[a].applied <= s.lessons[s.journal[a].lesson].version)
    && (forall a, b | 0 <= a < b < |s.journal| && s.journal[a].lesson == s.journal[b].lesson ::
          s.journal[a].applied < s.journal[b].applied)
  }

  lemma {:induction false} OverrideKeepsJournalOrdered(env: Env, s: State, req: Request)
    requires WellFormed(env, s) && JournalOrdered(s)
    ensures JournalOrdered(Step(env, s, Override(req)))
  {
    if Plan(env, s, req).Success? {
      PlanShape(env, s, req);
      var c := Plan(env, s, req).value;
      assert c.entry.applied == c.lesson.version;
      assert c.id in s.lessons ==> c.entry.applied > s.lessons[c.id].version;
      var after := Step(env, s, Override(req));
      forall a | 0 <= a < |after.journal|
        ensures after.journal[a].lesson in after.lessons &&
          after.journal[a].applied <= after.lessons[after.journal[a].lesson].version
      {
        assert a < |s.journal| ==> after.journal[a] == s.journal[a];
      }
    }
  }

  lemma {:induction false} StepKeepsJournalOrdered(env: Env, s: State, op: Op)
    requires WellFormed(env, s) && JournalOrdered(s)
    ensures JournalOrdered(Step(env, s, op))
  {
    if op.Override? {
      OverrideKeepsJournalOrdered(env, s, op.req);
    } else {
      var after := Step(env, s, op);
      forall a | 0 <= a < |after.journal|
        ensures after.journal[a].lesson in after.lessons &&
          after.journal[a].applied <= after.lessons[after.journal[a].lesson].version
      {
        StepGrows(env, s, op, s.journal[a].lesson);
      }
    }
  }

  /** Over every run the applied versions of each lesson strictly increase in the journal. */
  lemma {:induction false} RunKeepsJournalOrdered(env: Env, s: State, ops: seq<Op>)
    requires ValidEnv(env) && WellFormed(env, s) && JournalOrdered(s)
    ensures JournalOrdered(Run(env, s, ops))
  {
    if ops != [] {
      RunKeepsJournalOrdered(env, s, ops[..|ops| - 1]);
      RunKeepsWellFormed(env, s, ops[..|ops| - 1]);
      StepKeepsJournalOrdered(env, Run(env, s, ops[..|ops| - 1]), ops[|ops| - 1]);
    }
  }
}
