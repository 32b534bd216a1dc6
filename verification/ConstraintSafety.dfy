/** Hard blocks of teachers and blocked days are never written over, whatever is confirmed. */
module ConstraintSafety {
  import opened Wrappers
  import opened Store
  import opened Overrides
  import opened Runs

  ghost predicate HardBlocked(env: Env, teacher: int, date: int) {
    exists row :: row in env.teacherDays && row.teacher == teacher && row.date == date && row.level == HardBlock
  }

  ghost predicate NeedsTeacherConfirmation(env: Env, teacher: int, date: int) {
    exists row :: row in env.teacherDays && row.teacher == teacher && row.date == date
                  && row.level == Warning && row.requiresConfirmation
  }

  /** Blocked for lessons, and no confirmation helps. */
  predicate Closed(env: Env, date: int) {
    && date in env.calendar && env.calendar[date].affectsLessons
    && env.calendar[date].kind == Blocked && !env.calendar[date].requiresConfirmation
  }

  ghost predicate SafeLesson(env: Env, lesson: Lesson) {
    && (lesson.teacher.Some? && lesson.teacher.value > 0 ==> !HardBlocked(env, lesson.teacher.value, lesson.date))
    && (Active(lesson) ==> !Closed(env, lesson.date))
  }

  ghost predicate Safe(env: Env, s: State) {
    forall id | id in s.lessons :: SafeLesson(env, s.lessons[id])
  }

  // ----------------------------------------------------- the ordered row loop

  lemma {:induction false} RowsForMembers(rows: seq<TeacherDay>, teacher: int, date: int, row: TeacherDay)
    ensures row in RowsFor(rows, teacher, date) <==> row in rows && row.teacher == teacher && row.date == date
  {
    if rows != [] {
      RowsForMembers(rows[1..], teacher, date, row);
      assert row in rows <==> row == rows[0] || row in rows[1..];
    }
  }

  lemma {:induction false} FirstHardFound(rows: seq<TeacherDay>)
    ensures FirstHard(rows).Some? <==> exists row :: row in rows && row.level == HardBlock
    ensures FirstHard(rows).Some? ==> FirstHard(rows).value in rows && FirstHard(rows).value.level == HardBlock
  {
    if rows != [] {
      FirstHardFound(rows[1..]);
      assert forall row :: row in rows <==> row == rows[0] || row in rows[1..];
    }
  }

  lemma {:induction false} FirstWarningFound(rows: seq<TeacherDay>, confirmed: bool)
    ensures FirstWarning(rows, confirmed).Some? <==> exists row :: row in rows && NeedsConfirmation(row, confirmed)
    ensures FirstWarning(rows, confirmed).Some? ==> FirstWarning(rows, confirmed).value in rows
  {
    if rows != [] {
      FirstWarningFound(rows[1..], confirmed);
      assert forall row :: row in rows <==> row == rows[0] || row in rows[1..];
    }
  }

  /**
   The check ends in a hard block exactly if there is one, and in a request for confirmation exactly
   if there is none but an unconfirmed warning; the row it reports is the teacher's and the day's.
   */
  lemma {:induction false} HardBlockComesFirst(env: Env, teacher: int, date: int, confirmed: bool)
    requires teacher > 0
    ensures var v := TeacherVerdict(env, Some(teacher), date, confirmed);
      && (v.Fail? && v.error.TeacherHardBlock? <==> HardBlocked(env, teacher, date))
      && (v.Fail? && v.error.TeacherNeedsConfirmation? <==>
            !HardBlocked(env, teacher, date) && !confirmed && NeedsTeacherConfirmation(env, teacher, date))
      && (v.Fail? ==> v.error.TeacherHardBlock? || v.error.TeacherNeedsConfirmation?)
      && (v.Fail? ==> v.error.row in env.teacherDays && v.error.row.teacher == teacher && v.error.row.date == date)
  {
    var rows := RowsFor(env.teacherDays, teacher, date);
    forall row
      ensures row in rows <==> row in env.teacherDays && row.teacher == teacher && row.date == date
    {
      RowsForMembers(env.teacherDays, teacher, date, row);
    }
    FirstHardFound(rows);
    FirstWarningFound(rows, confirmed);
    assert HardBlocked(env, teacher, date) <==> exists row :: row in rows && row.level == HardBlock;
    assert !confirmed ==>
      (NeedsTeacherConfirmation(env, teacher, date) <==>
        exists row :: row in rows && NeedsConfirmation(row, confirmed));
  }

  /**
   The day check refuses under every confirmation exactly on a closed day; what it says of any other
   day a confirmation can only turn from a refusal into a pass.
   */
  lemma {:induction false} DayRefusedIff(env: Env, date: int)
    ensures DayVerdict(env, date, true).Fail? <==> Closed(env, date)
    ensures DayVerdict(env, date, false).Pass? ==> DayVerdict(env, date, true).Pass?
    ensures DayVerdict(env, date, false).Fail? <==>
      && date in env.calendar && env.calendar[date].affectsLessons
      && (|| env.calendar[date].kind == Blocked
          || (env.calendar[date].kind == DayWarning && env.calendar[date].requiresConfirmation))
    ensures forall confirmed: bool | DayVerdict(env, date, confirmed).Fail? ::
      date in env.calendar && DayVerdict(env, date, confirmed).error ==
        if env.calendar[date].kind == Blocked then DayBlocked(env.calendar[date])
        else DayNeedsConfirmation(env.calendar[date])
  {
  }

  // ------------------------------------------------------------------ runs

  lemma {:induction false} CheckedIsSafe(env: Env, lesson: Lesson, confirmTeacher: bool, confirmDay: bool)
    requires TeacherVerdict(env, lesson.teacher, lesson.date, confirmTeacher).Pass?
    requires Active(lesson) ==> DayVerdict(env, lesson.date, confirmDay).Pass?
    ensures SafeLesson(env, lesson)
  {
    if lesson.teacher.Some? && lesson.teacher.value > 0 {
      HardBlockComesFirst(env, lesson.teacher.value, lesson.date, confirmTeacher);
    }
  }

  lemma {:induction false} OverrideIsSafe(env: Env, s: State, req: Request)
    requires Safe(env, s) && Plan(env, s, req).Success?
    ensures SafeLesson(env, Plan(env, s, req).value.lesson)
  {
    var c := Plan(env, s, req).value;
    if c.entry.action == Cancel {
      assert SafeLesson(env, s.lessons[c.id]);
    } else {
      CheckedIsSafe(env, c.lesson, req.confirmTeacher, req.confirmDay);
    }
  }

  lemma {:induction false} StepIsSafe(env: Env, s: State, op: Op)
    requires Safe(env, s)
    ensures Safe(env, Step(env, s, op))
  {
    if Accepted(env, s, op) {
      match op
      case Override(req) => OverrideIsSafe(env, s, req);
      case Create(row, t, d) => CheckedIsSafe(env, PlanCreate(env, s, row, t, d).value, t, d);
      case Update(id, patch, expected, t, d) =>
        CheckedIsSafe(env, PlanUpdate(env, s, id, patch, expected, t, d).value, t, d);
      case Fill(req) =>
    }
  }

  /** Over every run no teacher is given a lesson on a hard-blocked day, and no active lesson is on a closed day. */
  lemma {:induction false} RunIsSafe(env: Env, s: State, ops: seq<Op>)
    requires Safe(env, s)
    ensures Safe(env, Run(env, s, ops))
  {
    if ops != [] {
      RunIsSafe(env, s, ops[..|ops| - 1]);
      StepIsSafe(env, Run(env, s, ops[..|ops| - 1]), ops[|ops| - 1]);
    }
  }
}
