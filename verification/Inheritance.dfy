/**
 Groups take over the schedule of a source group. The update check looks ten steps along the
 sources, so it keeps out cycles of length ten or less; reading an inheritance chain looks no further.
 */
module Inheritance {
  import opened Wrappers

  datatype Group = Group(
    name: string,
    course: int,
    source: Option<int>,
    curriculum: Option<int>,
    admissionYear: Option<int>,
    specialty: Option<int>)

  type Groups = map<int, Group>

  datatype GroupError = GroupIdRequired | NotFound | SelfSource | CycleDetected | ForeignKey | DuplicateId

  // ----------------------------------------------------------------- paths

  /** The group k sources away; it need not exist. */
  function Follow(g: Groups, id: int, k: nat): Option<int> {
    if k == 0 then Some(id)
    else
      var m := Follow(g, id, k - 1);
      if m.Some? && m.value in g then g[m.value].source else None
  }

  /** No group reaches itself in n steps or fewer. */
  ghost predicate NoCycleWithin(g: Groups, n: nat) {
    forall id, k: nat | id in g && 1 <= k <= n :: Follow(g, id, k) != Some(id)
  }

  ghost predicate NoShortCycle(g: Groups) {
    NoCycleWithin(g, 10)
  }

  ghost predicate Acyclic(g: Groups) {
    forall id, k: nat | id in g && 1 <= k :: Follow(g, id, k) != Some(id)
  }

  /** The foreign key: a source exists. */
  ghost predicate SourcesExist(g: Groups) {
    forall id | id in g && g[id].source.Some? :: g[id].source.value in g
  }

  /** As serial keys are. The column itself takes any number a request gives. */
  ghost predicate PositiveIds(g: Groups) {
    forall id | id in g :: id > 0
  }

  ghost predicate OnCycleWithin(g: Groups, id: int, n: nat) {
    exists k: nat :: 1 <= k <= n && Follow(g, id, k) == Some(id)
  }

  /** The path from x comes to y in at most n steps. */
  ghost predicate Meets(g: Groups, x: int, y: int, n: nat) {
    exists k: nat :: k <= n && Follow(g, x, k) == Some(y)
  }

  lemma {:induction false} FollowAdd(g: Groups, id: int, j: nat, k: nat)
    requires Follow(g, id, j).Some?
    ensures Follow(g, id, j + k) == Follow(g, Follow(g, id, j).value, k)
  {
    if k > 0 {
      FollowAdd(g, id, j, k - 1);
    }
  }

  lemma {:induction false} FollowBack(g: Groups, id: int, j: nat, k: nat)
    requires j <= k && Follow(g, id, k).Some?
    ensures Follow(g, id, j).Some? && (j < k ==> Follow(g, id, j).value in g)
    decreases k - j
  {
    if j < k {
      FollowBack(g, id, j + 1, k);
    }
  }

  // ---------------------------------------------------------------- update

  /** The walk along the sources: at most the given number of groups are looked at. */
  function Walk(g: Groups, next: int, seen: set<int>, steps: nat): Verdict<GroupError>
    decreases steps
  {
    if steps == 0 || next <= 0 then Pass
    else if next in seen then Fail(CycleDetected)
    else if next !in g then Fail(NotFound)
    else if g[next].source.None? then Pass
    else Walk(g, g[next].source.value, seen + {next}, steps - 1)
  }

  function SourceVerdict(g: Groups, id: int, source: Option<int>): Verdict<GroupError> {
    if source.None? then Pass
    else if source.value == id then Fail(SelfSource)
    else if Walk(g, source.value, {id}, 10).Fail? then Walk(g, source.value, {id}, 10)
    else if source.value !in g then Fail(ForeignKey)
    else Pass
  }

  /** Name and course are taken from the patch; the rest only where the patch gives it. */
  function Patched(row: Group, patch: Group): Group {
    Group(patch.name, patch.course,
          if patch.source.Some? then patch.source else row.source,
          if patch.curriculum.Some? then patch.curriculum else row.curriculum,
          if patch.admissionYear.Some? then patch.admissionYear else row.admissionYear,
          if patch.specialty.Some? then patch.specialty else row.specialty)
  }

  function Update(g: Groups, id: int, patch: Group): Result<Groups, GroupError> {
    if id !in g then Failure(NotFound)
    else
      :- SourceVerdict(g, id, patch.source);
      Success(g[id := Patched(g[id], patch)])
  }

  /**
   The caller may choose the id, a negative one too; a request without one comes here with the serial
   number it is given. A source must exist, or be the row itself.
   */
  function Create(g: Groups, id: int, row: Group): Result<Groups, GroupError> {
    if id in g then Failure(DuplicateId)
    else
      :- Need(row.source.None? || row.source.value in g || row.source.value == id, ForeignKey);
      Success(g[id := row])
  }

  /** Deleting a group clears it as a source. */
  function Delete(g: Groups, id: int): Groups {
    map x | x in g && x != id :: if g[x].source == Some(id) then g[x].(source := None) else g[x]
  }

  class GroupTable {
    var groups: Groups

    constructor (g: Groups)
      ensures groups == g
    {
      groups := g;
    }

    method UpdateGroup(id: int, patch: Group) returns (r: Verdict<GroupError>)
      modifies this
      ensures match Update(old(groups), id, patch)
        case Success(g) => r == Pass && groups == g
        case Failure(e) => r == Fail(e) && groups == old(groups)
    {
      if id !in groups {
        return Fail(NotFound);
      }
      var row := groups[id];
      row := row.(name := patch.name, course := patch.course);
      if patch.source.Some? {
        if patch.source.value == id {
          return Fail(SelfSource);
        }
        var seen := {id};
        var next := patch.source.value;
        var depth := 0;
        while depth < 10
          invariant 0 <= depth <= 10
          invariant Walk(groups, patch.source.value, {id}, 10) == Walk(groups, next, seen, 10 - depth)
        {
          if next <= 0 {
            break;
          }
          if next in seen {
            return Fail(CycleDetected);
          }
          seen := seen + {next};
          if next !in groups {
            return Fail(NotFound);
          }
          if groups[next].source.None? {
            break;
          }
          next := groups[next].source.value;
          depth := depth + 1;
        }
        row := row.(source := patch.source);
      }
      if patch.curriculum.Some? {
        row := row.(curriculum := patch.curriculum);
      }
      if patch.admissionYear.Some? {
        row := row.(admissionYear := patch.admissionYear);
      }
      if patch.specialty.Some? {
        row := row.(specialty := patch.specialty);
      }
      if patch.source.Some? && patch.source.value !in groups {
        return Fail(ForeignKey);
      }
      groups := groups[id := row];
      return Pass;
    }
  }

  /** The first k groups of a path have positive ids; the walk stops at any other. */
  ghost predicate PositivePath(g: Groups, x: int, k: nat) {
    forall j: nat | j <= k && Follow(g, x, j).Some? :: Follow(g, x, j).value > 0
  }

  lemma {:induction false} PositiveTail(g: Groups, x: int, k: nat)
    requires k > 0 && PositivePath(g, x, k) && Follow(g, x, 1).Some?
    ensures PositivePath(g, Follow(g, x, 1).value, k - 1)
  {
    forall j: nat | j <= k - 1 && Follow(g, Follow(g, x, 1).value, j).Some?
      ensures Follow(g, Follow(g, x, 1).value, j).value > 0
    {
      FollowAdd(g, x, 1, j);
      assert Follow(g, x, j + 1) == Follow(g, Follow(g, x, 1).value, j);
    }
  }

  /** Away from one group, a change of that group does not show. */
  lemma {:induction false} SamePath(g: Groups, id: int, row: Group, start: int, k: nat)
    requires id in g
    requires forall j: nat | j < k :: Follow(g, start, j) != Some(id)
    ensures Follow(g[id := row], start, k) == Follow(g, start, k)
  {
    if k > 0 {
      SamePath(g, id, row, start, k - 1);
    }
  }

  /** A path to some group meets it a first time. */
  lemma {:induction false} FirstVisit(g: Groups, start: int, id: int, k: nat) returns (n: nat)
    requires Follow(g, start, k) == Some(id)
    ensures n <= k && Follow(g, start, n) == Some(id)
    ensures forall j: nat | j < n :: Follow(g, start, j) != Some(id)
    decreases k
  {
    if j: nat :| j < k && Follow(g, start, j) == Some(id) {
      n := FirstVisit(g, start, id, j);
    } else {
      n := k;
    }
  }

  lemma {:induction false} SameSourceSamePath(g: Groups, id: int, row: Group, start: int, k: nat)
    requires id in g && row.source == g[id].source
    ensures Follow(g[id := row], start, k) == Follow(g, start, k)
  {
    if k > 0 {
      SameSourceSamePath(g, id, row, start, k - 1);
    }
  }

  lemma {:induction false} SameSourceStaysFree(g: Groups, id: int, row: Group, n: nat)
    requires id in g && row.source == g[id].source && NoCycleWithin(g, n)
    ensures NoCycleWithin(g[id := row], n)
  {
    var after := g[id := row];
    forall x, k: nat | x in after && 1 <= k <= n
      ensures Follow(after, x, k) != Some(x)
    {
      SameSourceSamePath(g, id, row, x, k);
    }
  }

  /** Given a source, a group comes to be on a cycle exactly if that source led to it. */
  lemma {:induction false} NewSourceClosesIff(g: Groups, id: int, row: Group, n: nat)
    requires id in g && n >= 1 && row.source.Some?
    ensures OnCycleWithin(g[id := row], id, n) <==> Meets(g, row.source.value, id, n - 1)
  {
    var after, source := g[id := row], row.source.value;
    assert after[id := g[id]] == g;
    assert Follow(after, id, 0) == Some(id) && Follow(after, id, 1) == row.source;
    if k: nat :| 1 <= k <= n && Follow(after, id, k) == Some(id) {
      FollowAdd(after, id, 1, k - 1);
      var m := FirstVisit(after, source, id, k - 1);
      SamePath(after, id, g[id], source, m);
      assert Follow(g, source, m) == Some(id);
    }
    if k: nat :| k <= n - 1 && Follow(g, source, k) == Some(id) {
      var m := FirstVisit(g, source, id, k);
      SamePath(g, id, row, source, m);
      FollowAdd(after, id, 1, m);
      assert Follow(after, id, m + 1) == Some(id);
    }
  }

  /** A cycle through two groups is a cycle of the other, of the same length. */
  lemma {:induction false} Rotate(g: Groups, x: int, y: int, j: nat, k: nat)
    requires j <= k && Follow(g, x, k) == Some(x) && Follow(g, x, j) == Some(y)
    ensures Follow(g, y, k) == Some(y)
  {
    FollowAdd(g, x, j, k - j);
    FollowAdd(g, y, k - j, j);
  }

  ghost predicate Leads(g: Groups, x: int, y: int) {
    exists k: nat :: Follow(g, x, k) == Some(y)
  }

  /** A new source leaves a table free of cycles up to a length exactly if it does not lead to the group within it. */
  lemma {:induction false} NewSourceKeepsIff(g: Groups, id: int, row: Group, n: nat)
    requires id in g && n >= 1 && row.source.Some? && NoCycleWithin(g, n)
    ensures NoCycleWithin(g[id := row], n) <==> !Meets(g, row.source.value, id, n - 1)
  {
    var after := g[id := row];
    NewSourceClosesIff(g, id, row, n);
    if !Meets(g, row.source.value, id, n - 1) {
      forall x, k: nat | x in after && 1 <= k <= n
        ensures Follow(after, x, k) != Some(x)
      {
        NotOnCycle(g, id, row, n, x, k);
      }
    }
  }

  lemma {:induction false} NotOnCycle(g: Groups, id: int, row: Group, n: nat, x: int, k: nat)
    requires id in g && NoCycleWithin(g, n) && x in g && 1 <= k <= n
    requires !OnCycleWithin(g[id := row], id, n)
    ensures Follow(g[id := row], x, k) != Some(x)
  {
    var after := g[id := row];
    if j: nat :| j < k && Follow(after, x, j) == Some(id) {
      if Follow(after, x, k) == Some(x) {
        Rotate(after, x, id, j, k);
        assert false;
      }
    } else {
      SamePath(after, id, g[id], x, k);
      assert after[id := g[id]] == g;
    }
  }

  ghost predicate ClosesWithin(g: Groups, id: int, patch: Group, n: nat) {
    patch.source.Some? && Meets(g, patch.source.value, id, n)
  }

  /**
   An accepted update keeps short cycles out if and only if the new source did not lead to the group
   within nine steps.
   */
  lemma {:induction false} UpdateKeepsIff(g: Groups, id: int, patch: Group)
    requires NoShortCycle(g) && Update(g, id, patch).Success?
    ensures NoShortCycle(Update(g, id, patch).value) <==> !ClosesWithin(g, id, patch, 9)
  {
    var row := Patched(g[id], patch);
    if patch.source.Some? {
      NewSourceKeepsIff(g, id, row, 10);
    } else {
      SameSourceStaysFree(g, id, row, 10);
    }
  }

  /**
   In a table without short cycles, the check reports a cycle exactly if the path from the new source
   comes to the group within nine steps, over positive ids only.
   */
  lemma {:induction false} CycleReportedIff(g: Groups, id: int, source: int)
    requires NoShortCycle(g) && source != id
    ensures SourceVerdict(g, id, Some(source)) == Fail(CycleDetected) <==>
      exists k: nat :: k <= 9 && Follow(g, source, k) == Some(id) && PositivePath(g, source, k)
  {
    if Walk(g, source, {id}, 10) == Fail(CycleDetected) {
      var k := WalkMeets(g, source, {id}, 10);
      assert k <= 9 && Follow(g, source, k) == Some(id) && PositivePath(g, source, k);
    }
    if k: nat :| k <= 9 && Follow(g, source, k) == Some(id) && PositivePath(g, source, k) {
      var n := FirstVisit(g, source, id, k);
      WalkFinds(g, source, {id}, 10, n, id);
    }
  }

  /** A walk that reports a cycle, where there is no short one, has met a group it was told of. */
  lemma {:induction false} WalkMeets(g: Groups, next: int, seen: set<int>, steps: nat) returns (k: nat)
    requires NoShortCycle(g) && steps <= 10
    requires Walk(g, next, seen, steps) == Fail(CycleDetected)
    ensures k < steps && Follow(g, next, k).Some? && Follow(g, next, k).value in seen && PositivePath(g, next, k)
    decreases steps
  {
    if next in seen {
      k := 0;
    } else {
      var source := g[next].source.value;
      var m := WalkMeets(g, source, seen + {next}, steps - 1);
      assert Follow(g, next, 0) == Some(next) && Follow(g, next, 1) == Some(source);
      FollowAdd(g, next, 1, m);
      k := m + 1;
      forall j: nat | j <= k && Follow(g, next, j).Some?
        ensures Follow(g, next, j).value > 0
      {
        if j > 0 {
          FollowAdd(g, next, 1, j - 1);
        }
      }
    }
  }

  lemma {:induction false} WalkFinds(g: Groups, next: int, seen: set<int>, steps: nat, k: nat, id: int)
    requires k < steps <= 10 && PositivePath(g, next, k)
    requires Follow(g, next, k) == Some(id) && id in seen
    ensures Walk(g, next, seen, steps) == Fail(CycleDetected)
    decreases k
  {
    assert Follow(g, next, 0) == Some(next);
    if k > 0 {
      FollowBack(g, next, 0, k);
      FollowBack(g, next, 1, k);
      assert Follow(g, next, 1) == g[next].source;
      FollowAdd(g, next, 1, k - 1);
      PositiveTail(g, next, k);
      if next !in seen {
        WalkFinds(g, g[next].source.value, seen + {next}, steps - 1, k - 1, id);
      }
    }
  }

  /** Among positive ids every path is positive. */
  lemma {:induction false} PathIsPositive(g: Groups, x: int, y: int, k: nat)
    requires PositiveIds(g) && y > 0 && Follow(g, x, k) == Some(y)
    ensures PositivePath(g, x, k)
  {
    forall j: nat | j <= k && Follow(g, x, j).Some?
      ensures Follow(g, x, j).value > 0
    {
      FollowBack(g, x, j, k);
    }
  }

  /** So where an accepted update closes a short cycle, the path it closes holds an id that is not positive. */
  lemma {:induction false} AcceptedClosesOverNonPositive(g: Groups, id: int, patch: Group, k: nat)
    requires NoShortCycle(g) && Update(g, id, patch).Success? && patch.source.Some?
    requires Follow(g, patch.source.value, k) == Some(id)
    ensures k >= 10 || !PositivePath(g, patch.source.value, k)
  {
    CycleReportedIff(g, id, patch.source.value);
  }

  /** With positive ids an accepted update keeps short cycles out. */
  lemma {:induction false} UpdateKeepsNoShortCycle(g: Groups, id: int, patch: Group)
    requires PositiveIds(g) && NoShortCycle(g) && Update(g, id, patch).Success?
    ensures PositiveIds(Update(g, id, patch).value) && NoShortCycle(Update(g, id, patch).value)
  {
    UpdateKeepsIff(g, id, patch);
    if ClosesWithin(g, id, patch, 9) {
      var k: nat :| k <= 9 && Follow(g, patch.source.value, k) == Some(id);
      PathIsPositive(g, patch.source.value, id, k);
      AcceptedClosesOverNonPositive(g, id, patch, k);
      assert false;
    }
  }

  /**
   From a table without cycles of any length, an accepted update leaves none if and only if the new
   source did not lead to the group; if it did, then after ten steps or more, or over an id that is
   not positive.
   */
  lemma {:induction false} UpdateKeepsAcyclicIff(g: Groups, id: int, patch: Group)
    requires Acyclic(g) && Update(g, id, patch).Success?
    ensures Acyclic(Update(g, id, patch).value) <==> !(patch.source.Some? && Leads(g, patch.source.value, id))
    ensures forall k: nat | patch.source.Some? && Follow(g, patch.source.value, k) == Some(id) ::
      k >= 10 || !PositivePath(g, patch.source.value, k)
  {
    var row := Patched(g[id], patch);
    var after := g[id := row];
    if patch.source.Some? {
      forall k: nat | Follow(g, patch.source.value, k) == Some(id)
        ensures k >= 10 || !PositivePath(g, patch.source.value, k)
      {
        AcceptedClosesOverNonPositive(g, id, patch, k);
      }
    }
    if patch.source.Some? && Leads(g, patch.source.value, id) {
      var k: nat :| Follow(g, patch.source.value, k) == Some(id);
      NewSourceKeepsIff(g, id, row, k + 1);
      assert !NoCycleWithin(after, k + 1);
    } else {
      forall x, k: nat | x in after && 1 <= k
        ensures Follow(after, x, k) != Some(x)
      {
        StaysFree(g, id, patch, k);
      }
    }
  }

  lemma {:induction false} StaysFree(g: Groups, id: int, patch: Group, n: nat)
    requires id in g && n >= 1 && NoCycleWithin(g, n) && !(patch.source.Some? && Leads(g, patch.source.value, id))
    ensures NoCycleWithin(g[id := Patched(g[id], patch)], n)
  {
    var row := Patched(g[id], patch);
    if patch.source.Some? {
      NewSourceKeepsIff(g, id, row, n);
    } else {
      SameSourceStaysFree(g, id, row, n);
    }
  }

  // --------------------------------------------------- create, delete, runs

  /** Creating a group keeps short cycles out exactly if it is not made its own source. */
  lemma {:induction false} CreateKeepsIff(g: Groups, id: int, row: Group)
    requires SourcesExist(g) && NoShortCycle(g) && Create(g, id, row).Success?
    ensures NoShortCycle(Create(g, id, row).value) <==> row.source != Some(id)
  {
    var after := Create(g, id, row).value;
    if row.source == Some(id) {
      assert Follow(after, id, 0) == Some(id);
      assert Follow(after, id, 1) == Some(id);
    } else {
      forall x, k: nat | x in after && 1 <= k <= 10
        ensures Follow(after, x, k) != Some(x)
      {
        if x == id {
          NeverEntered(g, id, row, x, k);
        } else {
          StaysOld(g, id, row, x, k);
          assert Follow(g, x, k) != Some(x);
        }
      }
    }
  }

  lemma {:induction false} StaysOld(g: Groups, id: int, row: Group, x: int, k: nat)
    requires SourcesExist(g) && x in g && id !in g
    ensures Follow(g[id := row], x, k) == Follow(g, x, k)
    ensures Follow(g, x, k).Some? ==> Follow(g, x, k).value in g
  {
    if k > 0 {
      StaysOld(g, id, row, x, k - 1);
      var m := Follow(g, x, k - 1);
      assert m.Some? ==> g[id := row][m.value] == g[m.value];
      if m.Some? {
        var y := m.value;
        assert y in g && (g[y].source.Some? ==> g[y].source.value in g);
      }
    }
  }

  lemma {:induction false} NeverEntered(g: Groups, id: int, row: Group, x: int, k: nat)
    requires SourcesExist(g) && id !in g && k >= 1
    requires row.source.Some? ==> row.source.value in g
    ensures Follow(g[id := row], id, k) != Some(id)
  {
    var after := g[id := row];
    assert Follow(after, id, 0) == Some(id);
    assert Follow(after, id, 1) == row.source;
    if row.source.Some? {
      FollowAdd(after, id, 1, k - 1);
      StaysOld(g, id, row, row.source.value, k - 1);
    } else if k > 1 && Follow(after, id, k).Some? {
      FollowBack(after, id, 1, k);
      assert false;
    }
  }

  /** Deleting a group shortens paths, and so makes no cycle. */
  lemma {:induction false} DeleteKeepsNoShortCycle(g: Groups, id: int)
    requires NoShortCycle(g)
    ensures NoShortCycle(Delete(g, id))
  {
    var after := Delete(g, id);
    forall x, k: nat | x in after && 1 <= k <= 10
      ensures Follow(after, x, k) != Some(x)
    {
      DeletedPath(g, id, x, k);
    }
  }

  lemma {:induction false} DeletedPath(g: Groups, id: int, x: int, k: nat)
    ensures Follow(Delete(g, id), x, k).Some? ==> Follow(g, x, k) == Follow(Delete(g, id), x, k)
  {
    if k > 0 {
      DeletedPath(g, id, x, k - 1);
    }
  }

  datatype GroupOp = UpdateOp(id: int, patch: Group) | CreateOp(id: int, row: Group) | DeleteOp(id: int)

  function GroupStep(g: Groups, op: GroupOp): Groups {
    match op
    case UpdateOp(id, patch) => var r := Update(g, id, patch); if r.Success? then r.value else g
    case CreateOp(id, row) => var r := Create(g, id, row); if r.Success? then r.value else g
    case DeleteOp(id) => Delete(g, id)
  }

  function GroupRun(g: Groups, ops: seq<GroupOp>): Groups {
    if ops == [] then g else GroupStep(GroupRun(g, ops[..|ops| - 1]), ops[|ops| - 1])
  }

  /** The foreign key holds throughout. */
  lemma {:induction false} StepKeepsSources(g: Groups, op: GroupOp)
    requires SourcesExist(g)
    ensures SourcesExist(GroupStep(g, op))
  {
  }

  lemma {:induction false} RunKeepsSources(g: Groups, ops: seq<GroupOp>)
    requires SourcesExist(g)
    ensures SourcesExist(GroupRun(g, ops))
  {
    if ops != [] {
      RunKeepsSources(g, ops[..|ops| - 1]);
      StepKeepsSources(GroupRun(g, ops[..|ops| - 1]), ops[|ops| - 1]);
    }
  }

  /** An accepted request that closes a cycle of ten or fewer groups. */
  ghost predicate ClosesShort(g: Groups, op: GroupOp) {
    match op
    case UpdateOp(id, patch) => Update(g, id, patch).Success? && ClosesWithin(g, id, patch, 9)
    case CreateOp(id, row) => Create(g, id, row).Success? && row.source == Some(id)
    case DeleteOp(_) => false
  }

  lemma {:induction false} StepKeepsIff(g: Groups, op: GroupOp)
    requires SourcesExist(g) && NoShortCycle(g)
    ensures NoShortCycle(GroupStep(g, op)) <==> !ClosesShort(g, op)
  {
    match op
    case UpdateOp(id, patch) =>
      if Update(g, id, patch).Success? {
        UpdateKeepsIff(g, id, patch);
      }
    case CreateOp(id, row) =>
      if Create(g, id, row).Success? {
        CreateKeepsIff(g, id, row);
      }
    case DeleteOp(id) => DeleteKeepsNoShortCycle(g, id);
  }

  ghost predicate SoundThroughout(g: Groups, ops: seq<GroupOp>) {
    forall n | 0 <= n <= |ops| :: NoShortCycle(GroupRun(g, ops[..n]))
  }

  ghost predicate NeverCloses(g: Groups, ops: seq<GroupOp>) {
    forall n | 0 <= n < |ops| :: !ClosesShort(GroupRun(g, ops[..n]), ops[n])
  }

  /** Any run at all, with any ids: no short cycle ever, if and only if no accepted request closes one. */
  lemma {:induction false} RunKeepsIff(g: Groups, ops: seq<GroupOp>)
    requires SourcesExist(g) && NoShortCycle(g)
    ensures SoundThroughout(g, ops) <==> NeverCloses(g, ops)
  {
    if NeverCloses(g, ops) {
      forall n | 0 <= n <= |ops|
        ensures NoShortCycle(GroupRun(g, ops[..n]))
      {
        SoundUpTo(g, ops, n);
      }
    } else {
      var n :| 0 <= n < |ops| && ClosesShort(GroupRun(g, ops[..n]), ops[n]);
      if NoShortCycle(GroupRun(g, ops[..n])) {
        RunKeepsSources(g, ops[..n]);
        StepKeepsIff(GroupRun(g, ops[..n]), ops[n]);
        assert ops[..n + 1][..n] == ops[..n];
        assert !NoShortCycle(GroupRun(g, ops[..n + 1]));
      }
    }
  }

  lemma {:induction false} SoundUpTo(g: Groups, ops: seq<GroupOp>, n: nat)
    requires SourcesExist(g) && NoShortCycle(g) && n <= |ops| && NeverCloses(g, ops)
    ensures NoShortCycle(GroupRun(g, ops[..n]))
  {
    if n > 0 {
      SoundUpTo(g, ops, n - 1);
      RunKeepsSources(g, ops[..n - 1]);
      assert ops[..n][..n - 1] == ops[..n - 1];
      StepKeepsIff(GroupRun(g, ops[..n - 1]), ops[n - 1]);
    }
  }

  /** With positive ids: every run of updates, deletions and creations that do not name their own id as source. */
  lemma {:induction false} RunKeepsNoShortCycle(g: Groups, ops: seq<GroupOp>)
    requires SourcesExist(g) && PositiveIds(g) && NoShortCycle(g)
    requires forall op | op in ops && op.CreateOp? :: op.id > 0 && op.row.source != Some(op.id)
    ensures PositiveIds(GroupRun(g, ops)) && NoShortCycle(GroupRun(g, ops))
  {
    if ops != [] {
      var init, last := ops[..|ops| - 1], ops[|ops| - 1];
      assert last in ops && forall op | op in init :: op in ops;
      RunKeepsNoShortCycle(g, init);
      RunKeepsSources(g, init);
      var before := GroupRun(g, init);
      StepKeepsIff(before, last);
      if last.UpdateOp? && Update(before, last.id, last.patch).Success? {
        UpdateKeepsNoShortCycle(before, last.id, last.patch);
      }
    }
  }

  /**
   A negative id stops the walk: -1 is created, then 5 with -1 as its source, and then -1 may be given
   5, a cycle of two. No creation names itself.
   */
  lemma {:induction false} NegativeIdHidesCycle() returns (ops: seq<GroupOp>)
    ensures forall op | op in ops && op.CreateOp? :: op.row.source != Some(op.id)
    ensures Follow(GroupRun(map[], ops), -1, 2) == Some(-1)
    ensures ops != [] && ClosesShort(GroupRun(map[], ops[..|ops| - 1]), ops[|ops| - 1])
  {
    var row := Group("g", 1, None, None, None, None);
    var first, second := CreateOp(-1, row), CreateOp(5, row.(source := Some(-1)));
    var third := UpdateOp(-1, row.(source := Some(5)));
    ops := [first, second, third];
    assert ops[..2] == [first, second] && [first, second][..1] == [first] && [first][..0] == [];
    var one: Groups := map[-1 := row];
    var two := one[5 := row.(source := Some(-1))];
    assert GroupRun(map[], []) == map[];
    assert GroupRun(map[], [first]) == one;
    assert GroupRun(map[], [first, second]) == two;
    assert SourceVerdict(two, -1, Some(5)).Pass?;
    var three := two[-1 := row.(source := Some(5))];
    assert GroupRun(map[], ops) == three;
    assert Follow(three, -1, 0) == Some(-1) && Follow(three, -1, 1) == Some(5);
    assert Follow(two, 5, 0) == Some(5) && Follow(two, 5, 1) == Some(-1);
    assert Meets(two, 5, -1, 9);
  }

  /** Sources 1, 2, ... 11 in a row: the last may be given the first as its source, closing a cycle of eleven. */
  lemma {:induction false} CycleOfElevenAccepted() returns (g: Groups, patch: Group)
    ensures SourcesExist(g) && PositiveIds(g) && NoShortCycle(g) && 11 in g && Update(g, 11, patch).Success?
    ensures Follow(Update(g, 11, patch).value, 11, 11) == Some(11)
  {
    var row := Group("g", 1, None, None, None, None);
    g := map i | 1 <= i <= 11 :: InRow(row, i);
    patch := row.(source := Some(1));
    forall id, k: nat | id in g && 1 <= k <= 10
      ensures Follow(g, id, k) != Some(id)
    {
      RowPath(g, row, id, k);
    }
    RowWalk(g, row, 1, {11}, 10);
    var after := Update(g, 11, patch).value;
    RowPath(g, row, 1, 10);
    forall j: nat | j < 10
      ensures Follow(g, 1, j) != Some(11)
    {
      RowPath(g, row, 1, j);
    }
    SamePath(g, 11, after[11], 1, 10);
    assert Follow(after, 11, 0) == Some(11);
    assert Follow(after, 11, 1) == Some(1);
    FollowAdd(after, 11, 1, 10);
  }

  function InRow(row: Group, i: int): Group {
    if i < 11 then row.(source := Some(i + 1)) else row
  }

  predicate InARow(g: Groups, row: Group) {
    g == map i | 1 <= i <= 11 :: InRow(row, i)
  }

  lemma {:induction false} RowPath(g: Groups, row: Group, id: int, k: nat)
    requires InARow(g, row) && row.source.None? && 1 <= id <= 11
    ensures Follow(g, id, k) == if id + k <= 11 then Some(id + k) else None
  {
    if k > 0 {
      RowPath(g, row, id, k - 1);
    }
  }

  lemma {:induction false} RowWalk(g: Groups, row: Group, next: int, seen: set<int>, steps: nat)
    requires InARow(g, row) && row.source.None? && 1 <= next && next + steps == 11
    requires forall i | next <= i < 11 :: i !in seen
    ensures Walk(g, next, seen, steps).Pass?
    decreases steps
  {
    if steps > 0 {
      RowWalk(g, row, next + 1, seen + {next}, steps - 1);
    }
  }

  // ------------------------------------------------- what each request does

  /** The patch gives the value, or else it stays. */
  predicate TakenOver(given: Option<int>, was: Option<int>, now: Option<int>) {
    (given.Some? ==> now == given) && (given.None? ==> now == was)
  }

  /** Name and course are replaced; the other columns only where the patch gives them. Nothing is cleared. */
  predicate PatchedTo(was: Group, patch: Group, now: Group) {
    && now.name == patch.name && now.course == patch.course
    && TakenOver(patch.source, was.source, now.source)
    && TakenOver(patch.curriculum, was.curriculum, now.curriculum)
    && TakenOver(patch.admissionYear, was.admissionYear, now.admissionYear)
    && TakenOver(patch.specialty, was.specialty, now.specialty)
  }

  /** An accepted update changes that group only, as the patch says. */
  lemma {:induction false} UpdatePatches(g: Groups, id: int, patch: Group)
    requires Update(g, id, patch).Success?
    ensures var after := Update(g, id, patch).value;
      && id in g && id in after && after == g[id := after[id]] && PatchedTo(g[id], patch, after[id])
      && (patch.source.Some? ==> patch.source != Some(id) && patch.source.value in g)
  {
  }

  /** Without a new source, or without a group, nothing depends on the walk. */
  lemma {:induction false} UpdateWithoutSource(g: Groups, id: int, patch: Group)
    ensures id !in g ==> Update(g, id, patch) == Failure(NotFound)
    ensures id in g && patch.source.None? ==> Update(g, id, patch).Success?
    ensures id in g && patch.source == Some(id) ==> Update(g, id, patch) == Failure(SelfSource)
  {
  }

  /** In a table in which sources exist and there is no short cycle, that is all that can be in the way. */
  lemma {:induction false} UpdateAcceptedIff(g: Groups, id: int, patch: Group)
    requires SourcesExist(g) && NoShortCycle(g) && id in g
    ensures Update(g, id, patch).Success? <==>
      patch.source.Some? ==>
        && patch.source.value != id && patch.source.value in g
        && !exists k: nat :: k <= 9 && Follow(g, patch.source.value, k) == Some(id)
                             && PositivePath(g, patch.source.value, k)
  {
    if patch.source.Some? && patch.source.value != id {
      CycleReportedIff(g, id, patch.source.value);
      if patch.source.value in g {
        WalkFindsAll(g, patch.source.value, {id}, 10);
      }
    }
  }

  lemma {:induction false} WalkFindsAll(g: Groups, next: int, seen: set<int>, steps: nat)
    requires SourcesExist(g) && next in g
    ensures Walk(g, next, seen, steps) != Fail(NotFound)
    ensures Walk(g, next, seen, steps).Fail? ==> Walk(g, next, seen, steps).error == CycleDetected
    decreases steps
  {
    if steps > 0 && g[next].source.Some? {
      WalkFindsAll(g, g[next].source.value, seen + {next}, steps - 1);
    }
  }

  /** A creation is accepted exactly if the id is free and the source, if any, exists or is the new group. */
  lemma {:induction false} CreateStores(g: Groups, id: int, row: Group)
    ensures Create(g, id, row).Success? <==>
      id !in g && (row.source.Some? ==> row.source.value in g || row.source.value == id)
    ensures Create(g, id, row).Success? ==> Create(g, id, row).value == g[id := row]
  {
  }

  /** A deleted group is gone, and no group has it as its source; nothing else changes. */
  lemma {:induction false} DeleteClears(g: Groups, id: int)
    ensures Delete(g, id).Keys == g.Keys - {id}
    ensures forall x | x in Delete(g, id) :: Delete(g, id)[x].source != Some(id)
    ensures forall x | x in Delete(g, id) :: Delete(g, id)[x].(source := None) == g[x].(source := None)
    ensures forall x | x in Delete(g, id) && g[x].source != Some(id) :: Delete(g, id)[x] == g[x]
    ensures forall x | x in Delete(g, id) && g[x].source == Some(id) :: Delete(g, id)[x].source == None
  {
  }

  // ------------------------------------------------------------ chains

  /** The chain from the base down to the given group, of at most n groups. */
  function ChainWalk(g: Groups, id: int, seen: set<int>, n: nat): Result<seq<int>, GroupError>
    requires id in g
    decreases n
  {
    if n == 0 then Success([])
    else if id in seen then Failure(CycleDetected)
    else if g[id].source.None? then Success([id])
    else if g[id].source.value !in g then Failure(NotFound)
    else
      var rest :- ChainWalk(g, g[id].source.value, seen + {id}, n - 1);
      Success(rest + [id])
  }

  function Chain(g: Groups, id: int): Result<seq<int>, GroupError> {
    if id <= 0 then Failure(GroupIdRequired)
    else if id !in g then Failure(NotFound)
    else ChainWalk(g, id, {}, 10)
  }

  function Reversed<T>(s: seq<T>): seq<T> {
    seq(|s|, k requires 0 <= k < |s| => s[|s| - 1 - k])
  }

  lemma {:induction false} ReversedAppend<T>(s: seq<T>, x: T)
    ensures Reversed(s + [x]) == [x] + Reversed(s)
  {
  }

  function Behind(rest: Result<seq<int>, GroupError>, ids: seq<int>): Result<seq<int>, GroupError> {
    if rest.Success? then Success(rest.value + ids) else rest
  }

  lemma {:induction false} BehindNothing(rest: Result<seq<int>, GroupError>)
    ensures Behind(rest, []) == rest
  {
    assert rest.Success? ==> rest.value + [] == rest.value;
  }

  lemma {:induction false} BehindTwice(rest: Result<seq<int>, GroupError>, a: seq<int>, b: seq<int>)
    ensures Behind(Behind(rest, a), b) == Behind(rest, a + b)
  {
    assert rest.Success? ==> (rest.value + a) + b == rest.value + (a + b);
  }

  /** The depth-bounded walk from the leaf, then the reversal. */
  method ScheduleInheritanceChainIDs(g: Groups, id: int) returns (r: Result<seq<int>, GroupError>)
    ensures r == Chain(g, id)
  {
    if id <= 0 {
      return Failure(GroupIdRequired);
    }
    if id !in g {
      return Failure(NotFound);
    }
    var seen: set<int> := {};
    var idsRev: seq<int> := [];
    var cur := id;
    var depth := 0;
    var done := false;
    BehindNothing(ChainWalk(g, id, seen, 10));
    assert Reversed(idsRev) == [];
    while depth < 10 && !done
      invariant 0 <= depth <= 10 && cur in g
      invariant !done ==> Chain(g, id) == Behind(ChainWalk(g, cur, seen, 10 - depth), Reversed(idsRev))
      invariant done ==> Chain(g, id) == Success(Reversed(idsRev))
      decreases 10 - depth, !done
    {
      if cur in seen {
        return Failure(CycleDetected);
      }
      ReversedAppend(idsRev, cur);
      ghost var rest := ChainWalk(g, cur, seen, 10 - depth);
      seen := seen + {cur};
      assert (idsRev + [cur])[..|idsRev|] == idsRev;
      idsRev := idsRev + [cur];
      if g[cur].source.None? {
        done := true;
      } else {
        if g[cur].source.value !in g {
          return Failure(NotFound);
        }
        var next := ChainWalk(g, g[cur].source.value, seen, 10 - depth - 1);
        assert rest == Behind(next, [cur]);
        BehindTwice(next, [cur], Reversed(idsRev[..|idsRev| - 1]));
        cur := g[cur].source.value;
        depth := depth + 1;
      }
    }
    assert [] + Reversed(idsRev) == Reversed(idsRev);
    var ids: seq<int> := [];
    for i := 0 to |idsRev|
      invariant |ids| == i && forall k | 0 <= k < i :: ids[k] == idsRev[|idsRev| - 1 - k]
    {
      ids := ids + [idsRev[|idsRev| - 1 - i]];
    }
    assert ids == Reversed(idsRev);
    return Success(ids);
  }

  /** Consecutive ids are source and group. */
  predicate Linked(g: Groups, ids: seq<int>) {
    && (forall i | 0 <= i < |ids| :: ids[i] in g)
    && (forall i | 0 < i < |ids| :: g[ids[i]].source == Some(ids[i - 1]))
  }

  /** What a chain read from a table without short cycles is: linked, without repeats, ending in the group asked for. */
  lemma {:induction false} ChainIsSound(g: Groups, id: int)
    requires NoShortCycle(g)
    ensures match Chain(g, id)
      case Failure(GroupIdRequired) => id <= 0
      case Failure(e) => e == NotFound && id > 0 && exists k: nat ::
        k <= 10 && Follow(g, id, k).Some? && Follow(g, id, k).value !in g
      case Success(ids) =>
        && id > 0 && 1 <= |ids| <= 10 && ids[|ids| - 1] == id
        && Linked(g, ids)
        && (forall i, j | 0 <= i < j < |ids| :: ids[i] != ids[j])
        && (g[ids[0]].source.None? || |ids| == 10)
  {
    assert Follow(g, id, 0) == Some(id);
    if id > 0 && id in g {
      ChainWalkSound(g, id, {}, 10);
      if Chain(g, id).Success? {
        LinkedDistinct(g, Chain(g, id).value);
      }
    }
  }

  ghost predicate ReachesWithin(g: Groups, x: int, y: int, n: nat) {
    exists k: nat :: 1 <= k <= n && Follow(g, x, k) == Some(y)
  }

  lemma {:induction false} ChainWalkSound(g: Groups, id: int, seen: set<int>, n: nat)
    requires NoShortCycle(g) && id in g && n <= 10
    requires forall x | x in seen :: ReachesWithin(g, x, id, 10 - n)
    ensures match ChainWalk(g, id, seen, n)
      case Failure(e) => e == NotFound && exists k: nat ::
        1 <= k <= n && Follow(g, id, k).Some? && Follow(g, id, k).value !in g
      case Success(ids) =>
        && |ids| <= n && (n > 0 ==> ids != [] && ids[|ids| - 1] == id)
        && Linked(g, ids)
        && (n > 0 ==> g[ids[0]].source.None? || |ids| == n)
    decreases n
  {
    if n == 0 {
      return;
    }
    assert id !in seen;
    assert Follow(g, id, 0) == Some(id) && Follow(g, id, 1) == g[id].source;
    if g[id].source.Some? && g[id].source.value in g {
      var next := g[id].source.value;
      forall x | x in seen + {id}
        ensures ReachesWithin(g, x, next, 10 - (n - 1))
      {
        if x in seen {
          var k: nat :| 1 <= k <= 10 - n && Follow(g, x, k) == Some(id);
          assert Follow(g, x, k + 1) == Some(next);
        }
      }
      ChainWalkSound(g, next, seen + {id}, n - 1);
      var rest := ChainWalk(g, next, seen + {id}, n - 1);
      if rest.Failure? {
        var k: nat :| 1 <= k <= n - 1 && Follow(g, next, k).Some? && Follow(g, next, k).value !in g;
        FollowAdd(g, id, 1, k);
        assert Follow(g, id, k + 1).Some?;
      }
    }
  }

  lemma {:induction false} LinkedPath(g: Groups, ids: seq<int>, i: nat, j: nat)
    requires Linked(g, ids) && i <= j < |ids|
    ensures Follow(g, ids[j], j - i) == Some(ids[i])
    decreases j - i
  {
    if i < j {
      LinkedPath(g, ids, i + 1, j);
    }
  }

  lemma {:induction false} LinkedDistinct(g: Groups, ids: seq<int>)
    requires NoShortCycle(g) && Linked(g, ids) && |ids| <= 10
    ensures forall i, j | 0 <= i < j < |ids| :: ids[i] != ids[j]
  {
    forall i, j | 0 <= i < j < |ids|
      ensures ids[i] != ids[j]
    {
      LinkedPath(g, ids, i, j);
    }
  }
}
