# Schedule service: a verified model

A Dafny model of the parts of the schedule service that carry state: the write path of lessons, rooms and overrides,
the room allocator, the construction and validation of schedules, the curriculum import, and three smaller machines
(week cache, refresh tokens, teacher workload). `dafny verify dfyconfig.toml` checks all of it.

The database is a value. `Store.State` holds lessons by id, at most one room for each lesson, the append-only override
journal and the serial counter; `Store.Env` holds the tables no step changes (teacher days, calendar days, locations,
weekly availability). The class `Store.Tables` is what a transaction works on. An override has a *plan*, a function that
either fails or says which rows are written; the methods of `Overrides` take the steps of the original one after the
other and are proved to carry out the plan, and to change nothing when it fails. `Runs` strings requests together, and
the modules after it prove what whole runs keep: room exclusivity, slot uniqueness, constraint safety, versions without
lost updates, and a journal that replays to the current state.

| files | subject |
|---|---|
| `Wrappers`, `Text`, `Orders` | options and results; trimming and text order over any alphabet; strict orders, the one increasing arrangement of a set, sorting |
| `Store`, `Overrides`, `OverrideEffects`, `Runs` | tables, override requests, direct creation and update, what each does to the tables, runs of requests |
| `RoomExclusivity`, `SlotUniqueness`, `ConstraintSafety`, `LostUpdates`, `JournalReplay` | what every run keeps |
| `Views`, `Autofill`, `AutofillOptimality`, `AutofillIdempotence`, `AutofillRepeats`, `AutofillExactness`, `AutofillEffects` | listing lessons, giving rooms to lessons without one, doing so twice, and which room it is |
| `Inheritance`, `BuildDays` | the graph of schedule sources, and schedules laid over one another |
| `Occupancy`, `OccupancyProperties`, `OccupancyRule` | the occupancy check, its agreement with the write path, and its rule told from the schedules |
| `CurriculumForest`, `CurriculumTree` | the forest of curriculum items, as a value and as linked nodes sorted in place |
| `PlxBlocks`, `PlxPlan`, `PlxImport` | reading a plan sheet, and storing what was read |
| `WeekCache`, `ScheduleService` | the bounded week cache, and reading a range through it |
| `RefreshTokens`, `Workload` | token rotation with reuse detection; a teacher's workload |

The specification functions do not stand alone: for each operation there are lemmas that say what it does in terms of the
request, the stored columns and the texts themselves, such as `OverrideEffects`, `AutofillEffects`, `OccupancyRule`,
`ShownTellsStored`, `LogoutRevokes` and `LessComesFirst`.

Where the code does not do what one would expect, the model follows the code:

- A replace or a restore by id publishes a cancelled lesson without looking at its slot. `OverrideKeepsSlotsIff` says
  exactly when that breaks slot uniqueness, `RunKeepsSlotsIff` says it of whole runs of all requests, and
  `RestoreCanCollide` names an input. The schema has a partial unique index that stops it, so `Env.slotIndex` says
  whether the database enforces it, and both cases are proved.
- A direct update of a lesson looks at neither rooms nor slots. `StepKeepsRoomsIff` and `StepKeepsSlotsIff` say exactly
  when that breaks an invariant, `UpdateCanMoveIn` names an input.
- A lesson without a flow that a group takes over from another stands in both schedules, and the check reports it as a
  conflict with itself, but for sport in a gym or pool: `ConflictIff`.
- The cycle walk of `UpdateGroup` takes ten steps, and ends early at an id that is not positive. Creation binds the id
  from the request, so a group can name itself, or have a negative id. Inputs: `CycleOfElevenAccepted` and
  `NegativeIdHidesCycle`. Exactly when cycles stay out: `UpdateKeepsIff`, `CreateKeepsIff` and `RunKeepsIff` for cycles
  of length 10 or less, `UpdateKeepsAcyclicIff` for all of them. With positive ids and no creation that names itself
  there is never a cycle of length 10 or less: `RunKeepsNoShortCycle`.
- A negative cell in a plan sheet can make a block's sum negative, and such a sum is dropped: `HoursConservedIff`, with
  `NegativeCellIsDropped` as a case.
- The cache key holds the version at whole seconds. `TransparentIff` says for which queries every answer is that of a
  fresh build, and `RemovedLessonStillShown` is a case where it is not. `CacheIsTransparent` is the case where equal
  version texts imply equal data.
- Repeating an autofill run can change something, since virtual rooms are replaced by default and may be candidates
  too: `OnlineRoomsSwap`. A second run merely repeats the skips of the first, on every state, exactly if no candidate
  is virtual while virtual rooms are replaced (`FindsNothingIff`); it leaves the tables alone exactly if no virtual
  candidate has another beside it (`SettlesIff`).

Dates are day numbers; day 0 is the zero date of the original, a Monday, so the Monday of day d is d - d % 7.
Character classes, case folding, regular expressions, number formats and word lists are parameters, so the results hold
for every choice of them. Hashes, tokens and new ids are fresh values given from outside.

## Model

| member | source | states |
|---|---|---|
| Store.Tables.UpsertRoom | internal/schedule/repository_rooms.go:440-468 | updates the one room assignment of a lesson or inserts it, published; a location that is not positive is refused and nothing changes |
| Overrides.NormalizeFlow | internal/schedule/repository_lessons.go:258-264 | a stored flow key is absent, or trimmed and not empty |
| Overrides.NormalizeIff | internal/schedule/repository_lessons.go:228-267 | a row passes if and only if it has a group and a date, a pair from 1 to 8, a subgroup of 1 or 2 or none and a known status or none; it keeps its slot, subject and teacher, and only a version below 1 becomes 1 |
| Overrides.NormalizeKeepsStored | internal/schedule/repository_lessons.go:228-267 | a stored lesson passes and comes out as it is, if the alphabet keeps the words for format and source |
| Text.TrimIsTrimmed | internal/schedule/repository_lessons.go:258-264 | trimming leaves no white space at either end, in any alphabet |
| Text.TrimTakesOff | internal/schedule/repository_lessons.go:258-264 | trimming takes all white space off both ends and nothing else; nothing is left exactly if there was nothing else |
| Text.TextLessIff | internal/httpapi/handlers_curricula.go:680-687 | texts are ordered by their first difference, a text before those it begins |
| Overrides.CheckTeacherConstraints | internal/schedule/service_overrides.go:400-420 | the early-leaving loop over the ordered rows decides as the unordered rule: any hard block first, else the lowest unconfirmed warning |
| Overrides.ScanOrdered | internal/schedule/service_overrides.go:407-418 | leaving at the first row in the query order loses no hard block behind a warning |
| ConstraintSafety.DayRefusedIff | internal/schedule/service_overrides.go:422-452 | the day check refuses under every confirmation exactly on a closed day, refuses without one exactly on a blocked day or one that asks for it, and a confirmation never turns a pass into a refusal |
| Overrides.LocatedIff | internal/schedule/service_overrides.go:381-398 | a request means the stored lesson it names, or of the active lessons in its slot the one with the lowest id, and fails exactly if there is none |
| Overrides.ApplyScheduleOverride | internal/schedule/service_overrides.go:74-114 | one transaction: the planned rows are written and the planned journal row returned, or the first failing check is returned and no table changes |
| Overrides.ApplyExistingLessonOverride | internal/schedule/service_overrides.go:185-298 | cancel, replace and restore: the version check, then the planned change or no change |
| Overrides.Republish | internal/schedule/service_overrides.go:236-297 | a replace or restore writes lesson, room and journal row as planned, after day, teacher and room checks in that order |
| Overrides.ApplyAddOverride | internal/schedule/service_overrides.go:300-379 | an add fills an empty slot at version 1, or fails and changes nothing |
| Overrides.CheckRepublish | internal/schedule/service_overrides.go:236-268 | the checks of a replace or restore in the order of the original; passing, the room is a real one |
| Overrides.CheckAdd | internal/schedule/service_overrides.go:301-347 | the checks of an add in the order of the original; passing, the room is a real one |
| Overrides.CreateScheduleLesson | internal/schedule/service_overrides.go:116-134 | inserts the normalised row under the next id after the day and teacher checks, or fails and changes nothing |
| Overrides.UpdateScheduleLesson | internal/schedule/service_overrides.go:136-183 | checks the expected version, raises the version, normalises and checks, then stores; or fails and changes nothing |
| OverrideEffects.CancelAcceptedIff | internal/schedule/service_overrides.go:185-192 | a cancel, by the trimmed and lower-cased text of the action, is accepted if and only if it is well addressed and means a lesson at the version it expects |
| OverrideEffects.CancelCancels | internal/schedule/service_overrides.go:194-233 | it cancels that lesson and raises its version; subject, teacher, format and room stay; its journal row tells the lesson before and the request |
| OverrideEffects.RepublishAcceptedIff | internal/schedule/service_overrides.go:236-268 | a replace or restore is accepted if and only if it is well addressed, means a lesson at the version it expects, and neither day, teacher, room nor index stands in its way |
| OverrideEffects.RepublishPublishes | internal/schedule/service_overrides.go:240-297 | it publishes that lesson as a replacement with the subject, teacher, format and location given, the old ones where none is given, and journals both |
| OverrideEffects.AddAcceptedIff | internal/schedule/service_overrides.go:301-347 | an add is accepted if and only if it is well addressed, has a subject and a date, its slot is free, and neither day, teacher, room nor index stands in its way |
| OverrideEffects.AddAdds | internal/schedule/service_overrides.go:324-378 | it stores the slot and content of the request as a published lesson at version 1 under the next id, in the room given, and journals it |
| OverrideEffects.BadRequestRefused | internal/schedule/service_overrides.go:75-88 | any other action text is refused, then a missing group, a pair outside 1 to 8, a subgroup other than 1 and 2, in this order |
| OverrideEffects.TargetRefused | internal/schedule/service_overrides.go:185-192 | a request about a stored lesson fails with not found if it means none, and with a version conflict if the version differs |
| OverrideEffects.RepublishRefused | internal/schedule/service_overrides.go:236-268 | a refused replace or restore names the first of day, teacher, room and index that stands in its way |
| OverrideEffects.AddRefused | internal/schedule/service_overrides.go:301-347 | a refused add names the occupied slot, the missing subject, or the first of day, teacher, date, room and index |
| OverrideEffects.FlowIsTrimmed | internal/schedule/repository_lessons.go:258-264 | a flow key is stored without the white space around it, and not at all if there is nothing else |
| OverrideEffects.CreateTells | internal/schedule/service_overrides.go:116-134 | a direct creation is accepted if and only if the row is good and neither day, teacher nor index stands in its way; it stores what was handed in, texts read, under the next id, and nothing else |
| OverrideEffects.UpdateTells | internal/schedule/service_overrides.go:136-183 | likewise an update, of a lesson at the version it expects, which it raises by one |
| Runs.PlanShape | internal/schedule/service_overrides.go:185-379 | every accepted override writes one lesson, one journal row about it and at most that lesson's room, and keeps identity, slot and flow of a stored lesson |
| Runs.RunKeepsWellFormed | internal/schedule/service_overrides.go:74-183 | any run of overrides, creations, updates and automatic rooms keeps ids below the serial counter, rooms attached to lessons, and every lesson valid |
| RoomExclusivity.PassedCheckShares | internal/schedule/service_overrides.go:454-481 | when the room check passes, every other active lesson published in that room, day and pair shares a non-empty flow key with the asking one |
| RoomExclusivity.RoomRefusedIff | internal/schedule/service_overrides.go:454-481 | a location is refused if and only if it is not positive, or real and held at that time by another active lesson that shares no flow with the asking one |
| RoomExclusivity.OverrideKeepsRooms | internal/schedule/service_overrides.go:264-293 | any override request keeps room exclusivity: two active lessons published in one real room at one time share a flow |
| RoomExclusivity.FillKeepsRooms | internal/schedule/service_location_autofill.go:131-190 | an autofill run keeps room exclusivity |
| RoomExclusivity.RunKeepsRooms | internal/schedule/service_overrides.go:264-292 | any run of overrides and autofill runs keeps room exclusivity |
| RoomExclusivity.StepKeepsRoomsIff | internal/schedule/service_overrides.go:116-183 | a single request of any kind keeps rooms exclusive if and only if it is not an accepted update that leaves its lesson active in a published real room a stranger holds at its new day and pair |
| RoomExclusivity.RunKeepsRoomsIff | internal/schedule/service_overrides.go:116-183 | in any run of any requests, rooms are exclusive after every one of them if and only if none is such an update in the state it meets |
| RoomExclusivity.UpdateCanMoveIn | internal/schedule/service_overrides.go:136-183 | a concrete accepted update that moves a lesson to a pair at which another group has its room |
| SlotUniqueness.OverrideKeepsSlotsIff | internal/schedule/service_overrides.go:275-280 | an accepted override keeps slots unique if and only if it is not a replace or restore by id of a cancelled lesson whose slot another active lesson holds |
| SlotUniqueness.StepKeepsSlotsIff | internal/schedule/service_overrides.go:116-183 | a single request of any kind keeps slots unique if and only if it does not put an active lesson where another one is |
| SlotUniqueness.RunKeepsSlotsIff | internal/schedule/service_overrides.go:275-280 | in any run of any requests, slots are unique after every one of them if and only if none collides in the state it meets |
| SlotUniqueness.RunKeepsSlots | internal/schedule/service_overrides.go:300-314 | any run of adds, cancels, slot-addressed replaces and restores, and autofill runs keeps at most one active lesson per group, date, pair and subgroup |
| SlotUniqueness.RestoreCanCollide | internal/schedule/service_overrides.go:381-397 | a concrete restore by id after which two active lessons share a slot |
| SlotUniqueness.IndexRejectsExactlyReopening | db/migrations/20260513210000_schedule_lessons_refactor.sql:27-34 | with the partial unique index every override ends as without it, except that exactly the reopening ones are refused |
| SlotUniqueness.IndexedRunKeepsSlots | db/migrations/20260513210000_schedule_lessons_refactor.sql:27-34 | with the index, every run of any requests at all keeps slots unique |
| ConstraintSafety.HardBlockComesFirst | internal/schedule/service_overrides.go:404-418 | the check reports a hard block if and only if there is one, and asks for confirmation if and only if there is none but an unconfirmed warning; the row reported is that teacher's on that day |
| ConstraintSafety.RunIsSafe | internal/schedule/service_overrides.go:116-183 | over any run, no lesson's teacher is hard-blocked on its date and no active lesson is on a blocked date that nobody may confirm |
| LostUpdates.StepVersions | internal/schedule/service_overrides.go:146-164 | an accepted change met its expected version and raises that lesson's version by exactly one; every other lesson is untouched; an added lesson starts at 1 |
| LostUpdates.AtMostOneWins | internal/schedule/service_overrides.go:190-192 | in any run, of all requests that expect one version of one lesson at most one is accepted |
| LostUpdates.RunKeepsJournalOrdered | internal/schedule/service_overrides.go:280-283 | over any run, the applied versions of each lesson strictly increase along the journal |
| JournalReplay.OverrideIsJournaled | internal/schedule/service_overrides.go:199-233 | an accepted override adds one journal row whose source fields are the lesson just before, and redoing the row gives the lesson just after |
| JournalReplay.RunReplays | internal/schedule/service_overrides.go:199-297 | over any run of overrides, folding a lesson's journal rows over its first state gives its current subject, teacher, format, location, status and version |
| JournalReplay.RowsTellBefore | internal/schedule/service_overrides.go:200-217 | every journal row's source fields are what replaying the rows before it gives |
| JournalReplay.RestoreUndoesCancel | internal/schedule/service_overrides.go:219-297 | cancel, then any requests aimed at other lessons, then a plain restore gives back the same content and room at version + 2 |
| Views.ListLessonViews | internal/schedule/repository_lessons.go:154-190 | the active lessons of a group between two days, each once, in listing order |
| Views.RowsAreStored | internal/schedule/repository_lessons.go:154-190 | one row for each active lesson of the group between the days and no other, with its columns, its subject's name and its published room |
| Views.RowsInOrder | internal/schedule/repository_lessons.go:180-186 | rows come by date, pair, subgroup with none first, and id |
| Autofill.CandidatesAreOffered | internal/schedule/repository_planning.go:165-190 | a location is a candidate for a week exactly if an availability row offers it, active and suiting campus and type |
| Autofill.FirstFreeIsChosen | internal/schedule/service_location_autofill.go:223-232 | of the candidates in their order, the first one not taken at that day and pair is chosen |
| Autofill.OccupiedLocationSlots | internal/schedule/service_location_autofill.go:234-253 | exactly the day, pair and location of every active lesson with a published room, whatever its group |
| Autofill.ChooseRooms | internal/schedule/service_location_autofill.go:108-161 | the loop with its growing occupancy map and weekly memo makes the choices of the greedy pass, and counts them |
| Autofill.SaveRooms | internal/schedule/service_location_autofill.go:167-191 | writes exactly the chosen rooms, marks each, and reports as many created and as many updated as it marked so |
| Autofill.MarksAddUp | internal/schedule/service_location_autofill.go:180-186 | every room given is marked as created or as updated |
| Autofill.AutofillLocations | internal/schedule/service_location_autofill.go:54-205 | reports the choices, their marks and the count of each mark; a real run writes them, a dry run or a refused request changes nothing |
| AutofillEffects.AssignmentTells | internal/schedule/service_location_autofill.go:108-161 | every assignment is about an active lesson of the group in the range that has no published room, or a virtual one to be replaced, and tells its time, subject and outcome |
| AutofillEffects.LookedAtIsReported | internal/schedule/service_location_autofill.go:108-112 | every such lesson is reported |
| AutofillEffects.ReportedInOrder | internal/schedule/service_location_autofill.go:108-161 | lessons are looked at by date, pair, subgroup and id, each once |
| AutofillEffects.FirstOnOfferIsGiven | internal/schedule/service_location_autofill.go:223-232 | a lesson is given the first location on offer for its week, in order of name and id, that nobody has at its time, neither before the run nor by an earlier assignment; it is given none if and only if there is none |
| AutofillEffects.RoomsWritten | internal/schedule/service_location_autofill.go:167-191 | after a real run the lessons given a location have it, published as automatic; all other rooms and tables are as they were |
| AutofillEffects.ReportCounts | internal/schedule/service_location_autofill.go:163-191 | placed, created and updated are the numbers of such assignments |
| AutofillEffects.RefusedIff | internal/schedule/service_location_autofill.go:55-64 | a request is refused if and only if it has no group, no date, or its days the wrong way round; then, and on a dry run, nothing changes |
| AutofillIdempotence.MarksTell | internal/schedule/service_location_autofill.go:173-186 | on a real run a room given is marked as updated exactly if its lesson had one before the run, else as created |
| AutofillOptimality.PlacesAllItCan | internal/schedule/service_location_autofill.go:108-161 | for every day and pair the number placed is the smaller of the needy lessons and the free candidates, each in a free candidate of its own |
| AutofillOptimality.GreedyIsBest | internal/schedule/service_location_autofill.go:223-232 | no allotment of free candidates to needy lessons of a day and pair, however found, is larger than the greedy one |
| AutofillOptimality.NeverDoubleBooks | internal/schedule/service_location_autofill.go:147-148 | no day, pair and location is given twice in a run, nor taken from a prior occupant |
| AutofillIdempotence.SecondRunFindsNothing | internal/schedule/service_location_autofill.go:207-221 | when no candidate for a day of the range is virtual, a second real run at once assigns and writes nothing and skips exactly the lessons skipped before, for the same reasons |
| AutofillExactness.FindsNothingIff | internal/schedule/service_location_autofill.go:207-221 | this holds of every state if and only if no candidate for a day of the range is virtual while virtual rooms are being replaced |
| AutofillExactness.SettlesIff | internal/schedule/service_location_autofill.go:108-191 | a second real run leaves the tables alone, on every state, if and only if no virtual candidate for a day of the range has another candidate beside it while virtual rooms are being replaced |
| AutofillExactness.OnlineRoomsSwap | internal/schedule/service_location_autofill.go:207-221 | a concrete state with two free online rooms, where each run moves a lesson to the other room |
| AutofillIdempotence.DryRunForetells | internal/schedule/service_location_autofill.go:163-191 | a dry run changes nothing and makes the choices of the real run; on a real run created plus updated is assigned |
| AutofillIdempotence.CandidateStaysOccupied | internal/schedule/service_location_autofill.go:131-148 | a candidate occupied before a run is occupied after it, if no virtual candidate has another beside it while virtual rooms are being replaced |
| Inheritance.GroupTable.UpdateGroup | internal/schedule/repository_admin.go:65-111 | walks at most ten source links, then stores the patched row; on an error nothing changes |
| Inheritance.UpdatePatches | internal/schedule/repository_admin.go:70-111 | an accepted update changes that group only: name and course are replaced, the other columns where the patch gives them, and nothing is cleared |
| Inheritance.UpdateWithoutSource | internal/schedule/repository_admin.go:65-76 | without a new source an update of an existing group is accepted; a missing group and a group as its own source are refused |
| Inheritance.UpdateAcceptedIff | internal/schedule/repository_admin.go:72-97 | in a graph without short cycles an update is accepted if and only if its source, where given, exists, is another group, and does not lead back within nine steps over positive ids |
| Inheritance.CreateStores | internal/schedule/repository_admin.go:61-63 | a creation is accepted if and only if the id is free and its source, where given, exists or is itself; it stores that row |
| Inheritance.DeleteClears | internal/schedule/repository_admin.go:113-115 | a deleted group is gone and is no one's source; nothing else changes |
| Inheritance.UpdateKeepsIff | internal/schedule/repository_admin.go:72-97 | with any ids, an accepted update of a graph without a cycle of length 10 or less leads to one if and only if the new source did not lead to the group within nine steps |
| Inheritance.AcceptedClosesOverNonPositive | internal/schedule/repository_admin.go:79-95 | a path that an accepted update closes has ten steps or more, or holds an id that is not positive |
| Inheritance.UpdateKeepsAcyclicIff | internal/schedule/repository_admin.go:72-97 | an accepted update of a graph without cycles of any length leaves none if and only if the new source did not lead to the group; if it did, then as in the row above |
| Inheritance.UpdateKeepsNoShortCycle | internal/schedule/repository_admin.go:72-97 | with positive ids, every accepted update of a graph without a cycle of length 10 or less leads to one |
| Inheritance.CycleReportedIff | internal/schedule/repository_admin.go:77-95 | in a graph without a cycle of length 10 or less, the walk reports a cycle if and only if the new source leads to the group within nine steps over positive ids |
| Inheritance.CycleOfElevenAccepted | internal/schedule/repository_admin.go:79-95 | a concrete accepted update that closes a cycle of eleven groups: the invariant is not full acyclicity |
| Inheritance.CreateKeepsIff | internal/httpapi/handlers_admin.go:240-259 | creating a group under any id given by the caller keeps short cycles out if and only if the group does not name itself as source |
| Inheritance.DeleteKeepsNoShortCycle | internal/schedule/repository_admin.go:113-115 | deleting a group keeps the invariant |
| Inheritance.RunKeepsIff | internal/schedule/repository_admin.go:61-115 | with any ids, any run of creations, updates and deletions is free of short cycles throughout if and only if no accepted update leads back to its group within nine steps and no accepted creation names itself |
| Inheritance.RunKeepsNoShortCycle | internal/schedule/repository_admin.go:61-115 | with positive ids, any run of updates, creations that do not name themselves, and deletions keeps short cycles out |
| Inheritance.NegativeIdHidesCycle | internal/schedule/repository_admin.go:79-82 | three accepted requests, the first creating group -1, after which -1 and 5 are each other's source |
| Inheritance.ScheduleInheritanceChainIDs | internal/schedule/service_inheritance.go:7-44 | the loop and the reversal give the chain, base first |
| Inheritance.ChainIsSound | internal/schedule/service_inheritance.go:16-43 | from a graph without short cycles no cycle is ever reported: the walk ends in a missing group or in at most ten distinct linked ids, the requested group last |
| BuildDays.Build | internal/schedule/service_build.go:49-205 | the map-filling and sorting loops give the declarative schedule of the chain |
| BuildDays.Overlay | internal/schedule/service_build.go:128-136 | laying rows over a map keeps, at each day and key, the last row there, else what was there |
| BuildDays.CollectDay | internal/schedule/service_build.go:144-164 | collecting a day's map in any order and sorting gives one and the same list |
| BuildDays.NearestGroupWins | internal/schedule/service_build.go:122-137 | each day's lesson at a pair and subgroup is that of the group nearest the leaf that has an active one there, and of several of that group the one with the highest id |
| BuildDays.UnheldStaysEmpty | internal/schedule/service_build.go:122-137 | where no group of the chain has an active lesson, the day shows none |
| BuildDays.ShownTellsStored | internal/schedule/service_build.go:122-137 | every lesson shown is a stored active lesson of that day and of the nearest group that has one at its pair and subgroup, and tells its pair, subject, teacher, format, subgroup, flow, subject name, published room and whether it was changed |
| BuildDays.StoredIsShown | internal/schedule/service_build.go:122-137 | every such stored lesson is shown |
| BuildDays.ShownInOrder | internal/schedule/service_build.go:149-164 | a day's lessons come by pair, that of the whole group before those of subgroups |
| BuildDays.ResolvedIsUnique | internal/schedule/service_build.go:122-137 | at most one lesson is resolved at a key |
| BuildDays.DayLessonsSorted | internal/schedule/service_build.go:149-164 | a day's lessons are strictly sorted by pair and subgroup, and are exactly the resolved ones |
| BuildDays.OnePerDay | internal/schedule/service_build.go:139-164 | one entry for each day of the range |
| BuildDays.DayInRange | internal/schedule/service_build.go:139-164 | a day's entry is the same in every range that includes it |
| Occupancy.Gather | internal/schedule/service_validate.go:371-392 | for each slot the map ends up with exactly the uses of it, group by group |
| Occupancy.UniqueGroupIDs | internal/schedule/service_validate.go:792-803 | the distinct groups of the entries, in increasing order |
| Occupancy.EntriesHaveSharedFlow | internal/schedule/service_validate.go:830-846 | true exactly if all entries carry one non-empty flow key |
| Occupancy.JudgeSlot | internal/schedule/service_validate.go:394-418 | one slot is judged as the declarative rule says |
| Occupancy.ValidateLocationOccupancyRules | internal/schedule/service_validate.go:366-421 | the nested loops over unordered maps give the declarative warnings in slot order |
| OccupancyProperties.ReportedIff | internal/schedule/service_validate.go:394-418 | a warning is reported exactly if its slot is a conflict the target takes part in, with the target's first lesson there and all groups that meet |
| OccupancyProperties.OneWarningPerSlot | internal/schedule/service_validate.go:775-790 | warnings come strictly by date, pair and location, one to a slot |
| OccupancyProperties.ReportedToAll | internal/schedule/service_validate.go:394-400 | a slot is reported to one of the groups in it if and only if it is reported to each of them |
| OccupancyProperties.SilentIff | internal/schedule/service_validate.go:394-418 | nobody is warned if and only if lessons of different groups in one slot share a non-empty key, wherever they are not all sport in a gym or pool |
| OccupancyProperties.ConflictIff | internal/schedule/service_validate.go:394-418 | over exclusive rooms and schedules laid over any chains, a slot is a conflict if and only if one stored lesson without a flow is shown there by two groups, and not all there is sport in a gym or pool |
| OccupancyProperties.ExclusiveMeansNoConflict | internal/schedule/service_validate.go:401-409 | where rooms are exclusive no slot of the groups' own schedules is a conflict |
| OccupancyProperties.RunsConflictIff | internal/schedule/service_validate.go:366-421 | the same after any run of overrides and autofill runs from exclusive rooms, for the schedules groups have, whoever takes over from whom |
| OccupancyProperties.RunsRaiseNoConflict | internal/schedule/service_validate.go:366-421 | from exclusive rooms, after any run of overrides and autofill runs, the validator reports nothing to any group, if no group has a schedule source |
| OccupancyRule.WarnedIff | internal/schedule/service_validate.go:366-421 | a group is warned of a slot if and only if it and another group have lessons at that time in that room, real by kind and types, which is not a gym or pool with nothing but sport, and the lessons there have no trimmed and lower-cased flow key in common |
| OccupancyRule.WarningTells | internal/schedule/service_validate.go:404-418 | a warning names the target's first lesson there in the order of its schedule, and all groups there in increasing order |
| CurriculumForest.SiblingsLinear | internal/httpapi/handlers_curricula.go:669-694 | sibling order is a strict total order on items with different ids |
| CurriculumForest.LessComesFirst | internal/httpapi/handlers_curricula.go:669-688 | items without a code come last; then codes, names and ids decide, texts by their first difference |
| CurriculumForest.ForestInOrder | internal/httpapi/handlers_curricula.go:690-697 | siblings come in that order at every level of the forest |
| CurriculumForest.DepthBound | internal/httpapi/handlers_curricula.go:690-697 | no item is deeper than there are items, so the recursion ends |
| CurriculumForest.ForestHoldsGroundedOnce | internal/httpapi/handlers_curricula.go:649-667 | for any rows, rings and missing parents included, the forest holds exactly the items whose chain of parents reaches a root, each once |
| CurriculumForest.ChildrenAreKids | internal/httpapi/handlers_curricula.go:660-667 | every tree has as children exactly its item's kids, in sibling order |
| CurriculumTree.Register | internal/httpapi/handlers_curricula.go:640-647 | one fresh node for each id |
| CurriculumTree.LastRowCounts | internal/httpapi/handlers_curricula.go:640-647 | of rows with one id the last counts |
| CurriculumTree.Link | internal/httpapi/handlers_curricula.go:649-667 | in whatever order the map yields nodes, the roots and the children fields end up holding exactly the roots and each node's kids |
| CurriculumTree.SortSiblings | internal/httpapi/handlers_curricula.go:692-693 | sorting a list of siblings gives the one increasing arrangement of it |
| CurriculumTree.SortRec | internal/httpapi/handlers_curricula.go:690-697 | the recursion sorts everything at and below the given items and nothing else |
| CurriculumTree.BuildCurriculumItemTree | internal/httpapi/handlers_curricula.go:639-700 | the linked nodes mirror the forest of the rows, all of them new; the roots and the children of every node of it come by code, name and id, items without a code last |
| PlxBlocks.ParseSemesterBlocks | internal/httpapi/handlers_import_plx.go:434-486 | the header loops give the blocks, filled with the columns of their range |
| PlxBlocks.StartsAreOpenings | internal/httpapi/handlers_import_plx.go:436-458 | every block starts at a cell that opens one, and is labelled from it |
| PlxBlocks.EveryOpeningStarts | internal/httpapi/handlers_import_plx.go:436-458 | every cell that opens a block starts one |
| PlxBlocks.BlockTells | internal/httpapi/handlers_import_plx.go:434-502 | a block stands at a header cell that names a semester from 1 to 12 and has that semester and the weeks named; only if no cell does, sessions open blocks, numbered from 1 |
| PlxBlocks.BlocksAreDisjoint | internal/httpapi/handlers_import_plx.go:462-484 | blocks hold ordered, disjoint columns, and no column is in two buckets or twice in one |
| PlxBlocks.EveryColumnHasBucket | internal/httpapi/handlers_import_plx.go:468-484 | the columns in some bucket are exactly those from the first block on that hold hours, each under its own kind |
| PlxBlocks.ParseAssessmentColumns | internal/httpapi/handlers_import_plx.go:504-520 | the column of a role is the last one that names it |
| PlxBlocks.SumColumns | internal/httpapi/handlers_import_plx.go:550-556 | the loop adds up the hours of the columns |
| PlxBlocks.ParseAllocations | internal/httpapi/handlers_import_plx.go:522-548 | one allocation for each block that is not idle, in order |
| PlxBlocks.AllocationsAreOfBlocks | internal/httpapi/handlers_import_plx.go:522-548 | the allocations are those of the blocks in use, in their order, each with the semester, weeks, positive hours of every kind and assessment of its block |
| PlxBlocks.AssessmentIs | internal/httpapi/handlers_import_plx.go:558-576 | the first of exam, credit, graded credit and other whose column lists the semester is reported, and none exactly if no column does |
| PlxBlocks.HoursConservedIff | internal/httpapi/handlers_import_plx.go:522-556 | for each kind, allocated hours equal the row's hours from the first block on if and only if no block's sum of that kind is negative |
| PlxBlocks.HoursConserved | internal/httpapi/handlers_import_plx.go:522-556 | a row without negative cells loses no hours and counts none twice |
| PlxBlocks.NegativeCellIsDropped | internal/httpapi/handlers_import_plx.go:522-556 | a concrete sheet row with the cell "-2" under one semester and one total column: its hours are not conserved, for any reader that takes these texts as the original does |
| PlxPlan.FindHeaderRow | internal/httpapi/handlers_import_plx.go:414-432 | the first row that has both titles, or none |
| PlxPlan.SplitAtFirstDot | internal/httpapi/handlers_import_plx.go:596-609 | a header splits at its first dot if and only if there is text on both sides and at most 20 characters on the left; only white space is lost |
| PlxPlan.NoDotNoSplit | internal/httpapi/handlers_import_plx.go:596-609 | a header without a dot is all name |
| PlxPlan.RowKinds | internal/httpapi/handlers_import_plx.go:352-391 | a row is counted if and only if marked and named, and a header if and only if unmarked and its name, or else its marker standing alone, is neither empty nor a summary; what the cells say is kept |
| PlxPlan.LatestHeader | internal/httpapi/handlers_import_plx.go:346-347 | the latest header, or root header, before a row, with none between |
| PlxPlan.ParseRows | internal/httpapi/handlers_import_plx.go:345-410 | with its two running positions the loop gives each item the parent found by looking back |
| PlxPlan.ParsePlanSheet | internal/httpapi/handlers_import_plx.go:331-412 | which of the three errors, or the items below the first header row |
| PlxPlan.ItemsAreRows | internal/httpapi/handlers_import_plx.go:345-410 | the items are those of the rows below the header that are read as something, in their order, with the code, name, kind and allocations of the row |
| PlxPlan.ParentTells | internal/httpapi/handlers_import_plx.go:345-410 | a counted item is under the last header before it, a header under the last root header before it, a root header under none |
| PlxPlan.ParsedNesting | internal/httpapi/handlers_import_plx.go:345-410 | every parent is -1 or an earlier header, and no item is more than three deep, root headers one and other headers two |
| PlxImport.ImportItems | internal/httpapi/handlers_import_plx.go:815-840 | each row is stored under a fresh id with the id of its parsed parent |
| CurriculumForest.StandsAtDepth | internal/httpapi/handlers_curricula.go:649-667 | an item stands in the forest as deep as its chain of parents is long, right below its parent |
| PlxImport.SheetToForest | internal/httpapi/handlers_import_plx.go:331-412 | from the sheet to the tree: every item below the header row is stored with its code and name and is in the tree once, at its parsed depth of at most three, right below its header as the layout has it, and nothing else is |
| PlxImport.ImportThenTree | internal/httpapi/handlers_import_plx.go:815-849 | building the tree of the imported rows gives every parsed item exactly once and nothing else |
| PlxImport.DepthKept | internal/httpapi/handlers_import_plx.go:827-830 | an imported row is as deep as it was parsed |
| PlxImport.ChildrenAreParsedUnder | internal/httpapi/handlers_import_plx.go:827-830 | the children in an item's tree are, in sibling order, exactly the items parsed under it |
| WeekCache.Cache.constructor | internal/schedule/week_cache.go:20-29 | an empty cache with room for at least one entry |
| WeekCache.Cache.Set | internal/schedule/week_cache.go:38-52 | replaces in place, or appends and evicts the oldest at capacity; the order lists exactly the keys |
| WeekCache.PutIsSound | internal/schedule/week_cache.go:38-52 | storing keeps the order free of repeats, equal to the keys, and within capacity |
| WeekCache.RunIsSound | internal/schedule/week_cache.go:38-52 | over any run of sets the order lists exactly the keys, each once, and the size never exceeds the capacity |
| WeekCache.HitIsLastSet | internal/schedule/week_cache.go:31-52 | after any run of sets, a hit is the value an unbounded map would hold |
| WeekCache.HoldsNewest | internal/schedule/week_cache.go:45-51 | after any run, the keys held are exactly the newest insertions up to capacity, oldest first |
| WeekCache.LargeCacheKeepsAll | internal/schedule/week_cache.go:38-52 | with room for every key the cache is the unbounded map |
| ScheduleService.CloneDay | internal/schedule/week_cache.go:63-76 | the copy shows the same day and shares no slice or box with it |
| ScheduleService.CloneResponse | internal/schedule/week_cache.go:54-61 | the copy shows the same week and is made of new objects only |
| ScheduleService.Service.GetRange | internal/schedule/service.go:95-142 | answers from the cache or by a build and stores a canonical week built afresh; the response and what the cache takes on are all new, so no response ever handed out shares an object with the cache |
| ScheduleService.FreshFails | internal/schedule/service.go:95-124 | without a group, with the days the wrong way round, or without a chain of groups, the answer is that error |
| ScheduleService.FreshTells | internal/schedule/service.go:112-133 | else a fresh answer has the group, days and version asked for, and day after day the lessons shown that day over the chain and that day's own notes |
| ScheduleService.ShowsOne | internal/schedule/week_cache.go:54-76 | a response shows one week only: dates, lessons, events and day boxes can all be read off it |
| ScheduleService.AlteringLeavesCache | internal/schedule/week_cache.go:54-76 | whatever is done to objects outside the cache leaves every cached week as it was |
| ScheduleService.AlteringHandedOut | internal/schedule/week_cache.go:54-76 | so does altering any objects handed out by any call so far |
| ScheduleService.ReadAndOverwrite | internal/schedule/service.go:95-142 | over any run of reads, after each of which all lessons handed out so far are overwritten, the cache holds what it would without that |
| ScheduleService.HeldWasBuilt | internal/schedule/service.go:112-139 | whatever the cache holds was the fresh answer to an earlier query with the same key |
| ScheduleService.CacheIsTransparent | internal/schedule/service.go:109-139 | if equal version texts imply equal data, then after any run of queries the next answer is that of a fresh build |
| ScheduleService.SameVersionAnswersStale | internal/schedule/service.go:109-118 | a week once built is answered again under its key, whatever a fresh build would give |
| ScheduleService.TransparentIff | internal/schedule/service.go:109-139 | over any queries drawn from a collection every answer is that of a fresh build if and only if those for one key are built alike |
| ScheduleService.RemovedLessonStillShown | internal/schedule/service.go:105-139 | two concrete queries under one version text, a lesson removed between them: the second answer still shows it |
| RefreshTokens.TokenTable.CreateRefreshToken | internal/schedule/repository_refresh_tokens.go:12-24 | a row under the next id, unless the user id is not positive or the hash is taken |
| RefreshTokens.TokenTable.GetRefreshTokenByHash | internal/schedule/repository_refresh_tokens.go:26-35 | the row with the hash, if there is one |
| RefreshTokens.TokenTable.RevokeRefreshToken | internal/schedule/repository_refresh_tokens.go:37-45 | touches the row only while it is not revoked |
| RefreshTokens.TokenTable.RevokeAllRefreshTokensForUser | internal/schedule/repository_refresh_tokens.go:47-55 | revokes exactly the user's live tokens |
| RefreshTokens.HandleLogin | internal/httpapi/handlers_auth.go:30-88 | the reply and the new table of a login |
| RefreshTokens.HandleRefresh | internal/httpapi/handlers_auth.go:101-169 | the reply and the new table of a refresh, with reuse, expiry, unknown user and exchange |
| RefreshTokens.HandleLogout | internal/httpapi/handlers_auth.go:171-193 | the reply and the new table of a logout |
| RefreshTokens.LoginAdds | internal/httpapi/handlers_auth.go:30-88 | a login is granted if and only if the credentials are a user's and a new hash was generated; it adds one live row with the user, hash and expiry given, and a refused one changes nothing |
| RefreshTokens.RefreshAnswers | internal/httpapi/handlers_auth.go:101-169 | the first obstacle decides: a revoked token revokes all live tokens of its user, an expired one itself, an unknown user or a failed generation nothing; without any the token is revoked in favour of a new one of the user with the hash and expiry given |
| RefreshTokens.UnknownRefused | internal/httpapi/handlers_auth.go:101-123 | a refresh without a token or with an unknown one is refused and changes nothing |
| RefreshTokens.LogoutRevokes | internal/httpapi/handlers_auth.go:171-193 | a logout revokes the token presented, at the time given and without a successor, unless it was revoked before; all other rows are untouched, and an unknown token changes nothing |
| RefreshTokens.LoggedOutForGood | internal/httpapi/handlers_auth.go:171-193 | over any run after a logout no refresh with its token is granted |
| RefreshTokens.RunIsSound | internal/httpapi/handlers_auth.go:101-163 | after any run, replacement links lead injectively from revoked tokens to newer ones of the same user |
| RefreshTokens.RunKeeps | internal/schedule/repository_refresh_tokens.go:37-55 | over any run, revoked tokens stay revoked, with their time and link |
| RefreshTokens.ExchangeRotates | internal/httpapi/handlers_auth.go:126-163 | a token is exchanged only while live and unexpired, and its successor is live and the same user's |
| RefreshTokens.ExchangedOnce | internal/httpapi/handlers_auth.go:126-163 | once exchanged a token is never exchanged again, whatever happens in between |
| RefreshTokens.ChainsAreDisjoint | internal/schedule/repository_refresh_tokens.go:41-43 | of two tokens whose links lead to one token, one leads to the other |
| RefreshTokens.ChainRises | internal/schedule/repository_refresh_tokens.go:41-43 | links lead to newer tokens of the same user, and only the last token of a chain can be live |
| RefreshTokens.OneLivePerChain | internal/httpapi/handlers_auth.go:126-163 | of the tokens of one chain at most one is live |
| RefreshTokens.ReuseEndsSessions | internal/httpapi/handlers_auth.go:124-129 | presenting a revoked token leaves its user without a live token, and no one else touched |
| RefreshTokens.NoneLiveUntilLogin | internal/httpapi/handlers_auth.go:124-129 | and so it stays over any run until that user logs in |
| RefreshTokens.LiveAtMostLogins | internal/httpapi/handlers_auth.go:30-193 | over any run a user never has more live tokens than logins |
| Workload.TallyCounts | internal/httpapi/handlers_teacher.go:131-149 | each key is counted as often as it occurs, under the name it first occurs with |
| Workload.ReportByName | internal/httpapi/handlers_teacher.go:165-194 | one row for each counter, in name order, whatever order the map yields |
| Workload.OneSubjectPerSlot | internal/httpapi/handlers_teacher.go:137-149 | as many subject entries as distinct slots, and no more slots than lessons |
| Workload.BuildTeacherWorkload | internal/httpapi/handlers_teacher.go:108-210 | distinct slots, a row for each subject and group in name order, and the lessons rearranged in order |
| Workload.WorkIsConserved | internal/httpapi/handlers_teacher.go:108-210 | pairs by subject add up to the distinct slots, pairs by group to the lessons, and there are no more slots than lessons |
| Workload.HeldAre | internal/httpapi/handlers_teacher.go:131-133 | the lessons counted are those of the days, one after the other, with the date of their day |
| Workload.SlotsArePairs | internal/httpapi/handlers_teacher.go:134-149 | the total is the number of lessons that are the first with their date, pair, subgroup, subject and location, what is absent counting as 0 |
| Workload.GroupRowTells | internal/httpapi/handlers_teacher.go:135-138 | a group's row has as many pairs as the group has lessons, twice as many hours, and the group name of the first of them |
| Workload.EveryGroupHasRow | internal/httpapi/handlers_teacher.go:181-189 | every group with a lesson has a row |
| Workload.SubjectRowTells | internal/httpapi/handlers_teacher.go:140-150 | a subject's row has as many pairs as there are first lessons of it, twice as many hours, and the name in the first of them |
| Workload.EverySubjectHasRow | internal/httpapi/handlers_teacher.go:165-173 | the subject of every first lesson has a row |
| Workload.OrdersTell | internal/httpapi/handlers_teacher.go:174-206 | no row has a name that precedes the name of an earlier one, and no lesson an earlier one's date, pair and group name |

## Left out

- Concurrency and isolation: each transaction, and each autofill run with its reads, is one atomic step.
- Database failures: every statement succeeds, but for the unique keys and indexes modelled. In particular the ignored
  error of revoking an exchanged token, and of revoking after reuse, does not occur.
- Foreign keys: the model accepts requests the database would refuse, so what runs keep holds all the more.
- The schedule version bump, creation and application times, reasons of failure as text, comments and audit rows.
- Direct creation, change and removal of room assignments, and cancelling or deleting lessons outside overrides.
- The case of lower-casing: the Go code and the database are taken to agree on it.
- Location kinds other than physical and virtual: a CHECK constraint rules them out, so the two tests for virtual agree.
- Overlay texts, events, week parity, weekday and study-day state in built days: `ScheduleService` carries the events, the study-day state and the day constraint of a day as values from outside, the rest is not modelled.
- Study-day-state precedence.
- The other validation rules (facilities of physical education, weekly hours, day off, fifth pair, campus), and the text, names and semester of warnings. Which subjects are physical education is a set of names given from outside.
- Width of integers: pair numbers, versions, hours and weeks are unbounded. Weeks are stored as 16 bits in the original, versions as a machine integer.
- Calendar graph sheets, file names, specialties, subjects and the calendar written by the curriculum import; only the item loop is modelled, and allocations are parsed but not stored.
- Pointers inside a cached lesson (subject, location, subgroup, comment) are values here. The original copies slices and the two day boxes but shares those pointers, so a caller who writes through one would reach the cache.
- Signing, hashing and random generation of tokens, passwords and roles.
- Removal of users, whose tokens the database deletes with them.
- Views.ListLessonViews: covers one group and the listing without cancelled lessons, the only form the callers modelled here use.
- BuildDays.Build: gives dates and lessons, without overlay texts, events, week parity and study state.
- Occupancy.ValidateLocationOccupancyRules: leaves out the text, the names and the semester of a warning.
- PlxImport.ImportItems: leaves out the type and subject of an item and the storing of its allocations.
- ScheduleService.AlteringLeavesCache: says nothing of writes through pointers inside a lesson, as above.
- Dates in workloads are day numbers, ordered like the texts they stand for; a slot key is a tuple, where the original joins the same five parts with bars.
