/** The journal tells the whole story of every lesson, and cancelling can be undone. */
module JournalReplay {
  import opened Wrappers
  import opened Store
  import opened Overrides
  import opened Runs
  import opened LostUpdates
  import Autofill
  import Rerun = AutofillIdempotence
  import Views

  /** The part of a lesson and its room that overrides change. */
  datatype Content = Content(
    subject: Option<int>,
    teacher: Option<int>,
    format: Format,
    location: Option<int>,
    status: Status,
    version: int)

  function ContentOf(s: State, id: int): Option<Content> {
    if id !in s.lessons then None
    else
      var l := s.lessons[id];
      Some(Content(l.subject, l.teacher, l.format, LocationOf(s, id), l.status, l.version))
  }

  /** One journal row read as an instruction. */
  function Redo(before: Option<Content>, e: Entry): Option<Content> {
    if e.action == Cancel then
      if before.None? then None else Some(before.value.(status := Cancelled, version := e.applied))
    else
      Some(Content(e.newSubject, e.newTeacher, e.newFormat.Or(Offline), e.newLocation, Published, e.applied))
  }

  /** The rows of one lesson, carried out in order. */
  function Replay(before: Option<Content>, journal: seq<Entry>, id: int): Option<Content> {
    if journal == [] then before
    else
      var soFar := Replay(before, journal[..|journal| - 1], id);
      var e := journal[|journal| - 1];
      if e.lesson == id then Redo(soFar, e) else soFar
  }

  /** The row's old fields are what the lesson was, and its applied version is the next one. */
  predicate TellsBefore(before: Option<Content>, e: Entry) {
    if e.action == Add then
      && before.None? && e.oldSubject.None? && e.oldTeacher.None? && e.oldLocation.None? && e.oldFormat.None?
      && e.applied == 1
    else
      && before.Some?
      && e.oldSubject == before.value.subject && e.oldTeacher == before.value.teacher
      && e.oldLocation == before.value.location && e.oldFormat == Some(before.value.format)
      && e.applied == before.value.version + 1
  }

  /** An accepted override adds one row, true of the lesson before it, and that row redone is the lesson after it. */
  lemma {:induction false} OverrideIsJournaled(env: Env, s: State, req: Request, id: int)
    requires WellFormed(env, s) && Plan(env, s, req).Success?
    ensures var e := Plan(env, s, req).value.entry;
      var after := Commit(s, Plan(env, s, req).value);
      && after.journal == s.journal + [e]
      && TellsBefore(ContentOf(s, e.lesson), e)
      && ContentOf(after, id) == if id == e.lesson then Redo(ContentOf(s, id), e) else ContentOf(s, id)
  {
    PlanShape(env, s, req);
  }

  lemma {:induction false} ReplayAppend(before: Option<Content>, journal: seq<Entry>, e: Entry, id: int)
    ensures Replay(before, journal + [e], id) ==
      if e.lesson == id then Redo(Replay(before, journal, id), e) else Replay(before, journal, id)
  {
  }

  predicate AllOverrides(ops: seq<Op>) {
    forall op | op in ops :: op.Override?
  }

  /** Over any run of overrides the new journal rows, replayed from the start, give each lesson as it is. */
  lemma {:induction false} RunReplays(env: Env, s: State, ops: seq<Op>, id: int)
    requires ValidEnv(env) && WellFormed(env, s) && AllOverrides(ops)
    ensures var after := Run(env, s, ops);
      && s.journal <= after.journal
      && ContentOf(after, id) == Replay(ContentOf(s, id), after.journal[|s.journal|..], id)
  {
    if ops != [] {
      var init, op := ops[..|ops| - 1], ops[|ops| - 1];
      assert op in ops && forall o | o in init :: o in ops;
      RunReplays(env, s, init, id);
      RunKeepsWellFormed(env, s, init);
      var before := Run(env, s, init);
      if Accepted(env, before, op) {
        OverrideIsJournaled(env, before, op.req, id);
        var e := Plan(env, before, op.req).value.entry;
        assert (before.journal + [e])[|s.journal|..] == before.journal[|s.journal|..] + [e];
        ReplayAppend(ContentOf(s, id), before.journal[|s.journal|..], e, id);
      }
    }
  }

  /** Each new row's old fields are what replaying the rows before it gives. */
  lemma {:induction false} RowsTellBefore(env: Env, s: State, ops: seq<Op>, k: nat)
    requires ValidEnv(env) && WellFormed(env, s) && AllOverrides(ops)
    requires |s.journal| <= k < |Run(env, s, ops).journal|
    ensures var journal := Run(env, s, ops).journal;
      TellsBefore(Replay(ContentOf(s, journal[k].lesson), journal[|s.journal|..k], journal[k].lesson), journal[k])
  {
    if ops != [] {
      var init, op := ops[..|ops| - 1], ops[|ops| - 1];
      assert op in ops && forall o | o in init :: o in ops;
      RunKeepsWellFormed(env, s, init);
      var before := Run(env, s, init);
      var journal := Run(env, s, ops).journal;
      if Accepted(env, before, op) {
        OverrideIsJournaled(env, before, op.req, 0);
      }
      RunReplays(env, s, init, journal[k].lesson);
      if k < |before.journal| {
        RowsTellBefore(env, s, init, k);
        assert journal[|s.journal|..k] == before.journal[|s.journal|..k];
      } else {
        assert journal[|s.journal|..k] == before.journal[|s.journal|..];
      }
    }
  }

  // ------------------------------------------------------ cancel and restore

  /** Whatever is not aimed at a cancelled lesson leaves its content alone. */
  lemma {:induction false} OthersLeaveCancelled(env: Env, s: State, op: Op, id: int)
    requires ValidEnv(env) && WellFormed(env, s)
    requires id in s.lessons && !Active(s.lessons[id])
    requires Accepted(env, s, op) ==> Target(env, s, op) != Some(id)
    ensures ContentOf(Step(env, s, op), id) == ContentOf(s, id)
  {
    if Accepted(env, s, op) {
      match op
      case Override(req) =>
        PlanShape(env, s, req);
        OverrideIsJournaled(env, s, req, id);
      case Create(_, _, _) =>
      case Update(_, _, _, _, _) =>
      case Fill(req) =>
        var rows := Views.Rows(env, s, req.group, req.start, req.end);
        Rerun.RowIdsDistinct(env, s, req.group, req.start, req.end);
        assert id !in Rerun.Ids(rows);
        Rerun.OtherRoomAfter(env, req, rows, Autofill.Occupied(s, req.start, req.end), s.rooms, id);
    }
  }

  lemma {:induction false} RunLeavesCancelled(env: Env, s: State, ops: seq<Op>, id: int)
    requires ValidEnv(env) && WellFormed(env, s)
    requires id in s.lessons && !Active(s.lessons[id])
    requires forall k | 0 <= k < |ops| :: NotAimedAt(env, Run(env, s, ops[..k]), ops[k], id)
    ensures ContentOf(Run(env, s, ops), id) == ContentOf(s, id)
  {
    if ops != [] {
      var init := ops[..|ops| - 1];
      forall k | 0 <= k < |init|
        ensures NotAimedAt(env, Run(env, s, init[..k]), init[k], id)
      {
        assert init[..k] == ops[..k] && NotAimedAt(env, Run(env, s, ops[..k]), ops[k], id);
      }
      RunLeavesCancelled(env, s, init, id);
      RunKeepsWellFormed(env, s, init);
      assert NotAimedAt(env, Run(env, s, ops[..|ops| - 1]), ops[|ops| - 1], id);
      OthersLeaveCancelled(env, Run(env, s, init), ops[|ops| - 1], id);
    }
  }

  predicate NotAimedAt(env: Env, s: State, op: Op, id: int) {
    Accepted(env, s, op) ==> Target(env, s, op) != Some(id)
  }

  /** A request that only names what to do: nothing is replaced. */
  predicate Plain(req: Request) {
    req.subject.None? && req.teacher.None? && req.location.None? && req.format.None?
  }

  lemma {:induction false} CancelledContent(env: Env, s: State, cancel: Request, id: int)
    requires WellFormed(env, s)
    requires ParseAction(env.alphabet, cancel.action) == Some(Cancel)
    requires Accepted(env, s, Override(cancel)) && Target(env, s, Override(cancel)) == Some(id)
    ensures var after := Step(env, s, Override(cancel));
      && id in s.lessons && id in after.lessons && !Active(after.lessons[id])
      && ContentOf(after, id) ==
           Some(ContentOf(s, id).value.(status := Cancelled, version := s.lessons[id].version + 1))
  {
  }

  predicate Restores(env: Env, s: State, restore: Request, id: int) {
    && ParseAction(env.alphabet, restore.action) == Some(Restore) && Plain(restore)
    && Accepted(env, s, Override(restore)) && Target(env, s, Override(restore)) == Some(id)
  }

  lemma {:induction false} RestoredContent(env: Env, s: State, restore: Request, id: int)
    requires WellFormed(env, s) && Restores(env, s, restore, id)
    ensures id in s.lessons
    ensures ContentOf(Step(env, s, Override(restore)), id) ==
      Some(ContentOf(s, id).value.(status := Published, version := s.lessons[id].version + 1))
  {
  }

  lemma {:induction false} RestoredAfterOthers(env: Env, s: State, between: seq<Op>, restore: Request, id: int)
    requires ValidEnv(env) && WellFormed(env, s)
    requires id in s.lessons && !Active(s.lessons[id])
    requires forall k | 0 <= k < |between| :: NotAimedAt(env, Run(env, s, between[..k]), between[k], id)
    requires Restores(env, Run(env, s, between), restore, id)
    ensures ContentOf(Step(env, Run(env, s, between), Override(restore)), id) ==
      Some(ContentOf(s, id).value.(status := Published, version := s.lessons[id].version + 1))
  {
    RunLeavesCancelled(env, s, between, id);
    RunKeepsWellFormed(env, s, between);
    RestoredContent(env, Run(env, s, between), restore, id);
  }

  /**
   Cancel a lesson, let any requests be made of other lessons, and restore it: it has its subject,
   teacher, format and room again, published, two versions on.
   */
  lemma {:induction false} RestoreUndoesCancel(
    env: Env, s: State, cancel: Request, between: seq<Op>, restore: Request, id: int)
    requires ValidEnv(env) && WellFormed(env, s)
    requires ParseAction(env.alphabet, cancel.action) == Some(Cancel)
    requires Accepted(env, s, Override(cancel)) && Target(env, s, Override(cancel)) == Some(id)
    requires var cancelled := Step(env, s, Override(cancel));
      && (forall k | 0 <= k < |between| :: NotAimedAt(env, Run(env, cancelled, between[..k]), between[k], id))
      && Restores(env, Run(env, cancelled, between), restore, id)
    ensures var later := Run(env, Step(env, s, Override(cancel)), between);
      && ContentOf(s, id).Some?
      && ContentOf(Step(env, later, Override(restore)), id) ==
           Some(ContentOf(s, id).value.(status := Published, version := s.lessons[id].version + 2))
  {
    CancelledContent(env, s, cancel, id);
    StepKeepsWellFormed(env, s, Override(cancel));
    RestoredAfterOthers(env, Step(env, s, Override(cancel)), between, restore, id);
  }
}
