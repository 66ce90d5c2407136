# e-campus-server, modelled and proved

A Dafny 4.11 model of the hard cores of the e-campus server, and proofs of what they guarantee. `dafny verify dfyconfig.toml` checks everything; nothing is executed.

What the system does, and where the model of it is:

- **Counted inode references.** One content is one inode that counts its references; a background sweep reclaims at zero. `InodeTable`, `FileStore` and `ClassroomFiles` are the store and the loops around it; `ReferenceProtocol` is one machine whose steps are the single store operations of uploads, attachments, drafts, cover swaps, expiry and sweep, interleaved by any number of calls that may crash or fail; `ReferenceSafety`, `RowRules`, `ObjectBytes` and `ExpiryCount` are its theorems, and `Tally` the bag arithmetic under them. In the code modelled here overlapping calls leave the law in two places: a delete transaction that lists files and then deletes rows (`DiscardRace`), and the two use cases that write a column without a guard (`UnguardedColumns`).
- **Optimistic concurrency.** `VersionedRow` is the read, patch, compare-and-swap loop with three tries for any number of callers and any patch function; `PatchLoop` is the loop itself, `PatchedRows` and `SemesterLifecycle` its clients, and `SemesterEnd` the one call that ends a semester. `EndRaces` is that call as a machine over the semester and its students, and `EndRuns` two of its runs.
- **Semester bulk operations.** `GenerateOfferings`, `BulkEnroll` with `BulkEnrollRun`, `EnrollmentReport` and `EnrollmentOutcomes`, and `YearEnd`.
- **Packing teams.** `PlanMerge`, with the in-place compaction on an array.
- **Authorization.** `StaffRoles` and `RoleGrants` for who may manage and hand out roles, `StaffCheck` for the lazy decision, `PolicyStore`, `PolicyTable` and `PolicyCache` for the stored policies and their cache, `CacheRaces` for the cache under overlapping calls.
- **Sessions.** `TokenRotation` is refresh-token rotation as a machine; `AuthService` is one call on its own.
- **Grades.** `Grading`, `GradeSheet`, `ExamGrading` and `Transcript`, over the reals.
- `Academic`, `Collections` and `Wrappers` hold what several modules share.

Where the source works by changing state the model does too: stores are classes, loops are loops, slices that are filled or compacted in place are arrays. Each such method is proved against a function or relation, and the lemmas are about that. A failing lookup or write and the order in which a map is ranged are parameters or free choices. The methods run one call at a time, at most with the commits of rivals as a parameter; calls that overlap, and may crash between two steps, are machines (`ReferenceProtocol`, `UnguardedColumns`, `VersionedRow`, `EndRaces`, `TokenRotation`, `CacheRaces`).

Some comments in the source claim more than the code keeps. For these the project proves a concrete run that breaks the claim, and exactly when it holds:

- `internal/files/inode.go:12-16`: no record ever points at missing bytes. The removal of an object after the deletion of its row can cross an upload of the same content, before its claim or after it (`ObjectBytes.LateRemovalLosesBytes`, `ObjectBytes.EarlyRemovalLosesBytes`, `ObjectBytes.RunKeepsBytesIff`).
- `internal/classroom/project.go:202-203`: below-target groups take priority (`PlanMerge.PriorityIsLost`, `PlanMerge.PriorityHoldsIff`).
- `internal/classroom/postgres/assignment.go:72-74`: every inode of a deleted assignment is said to be collected first, in the same transaction. The collecting and the deleting are two statements that no lock ties together, in discarding a draft too (`:216-247`), so the list can be out of date by the time of the delete (`DiscardRace.StaleListMiscounts`, `ReferenceSafety.DeleteStepIff`, `ReferenceSafety.RunKeepsInvIff`).
- `internal/management/semester.go:750-768`: the archive retry refreshes only the version, so it writes back the row it once read (`SemesterLifecycle.RetryOverwrites`, `SemesterLifecycle.ArchiveAfterDefinalize`, `SemesterLifecycle.LifecycleHoldsIff`). The students have moved before it, so when it fails, or while it is still to come, another call can move them again (`EndRuns.FailedArchiveMovesTwice`, `EndRuns.OverlapMovesTwice`, `EndRaces.EndedTwiceIff`, `EndRaces.FoundFinalizedIff`).
- `internal/identity/redis/tokens.go:72-85`: the mark is called an atomic compare-and-swap, but reads the time to live in a command of its own (`TokenRotation.LogoutRaceForks`, `TokenRotation.RunKeepsLineIff`, `TokenRotation.RunExchangesOnceIff`). A revocation, too, lists its family before it deletes it, and ends it only when no rotation is under way and none has finished in between (`TokenRotation.RevokeKillsIff`, `TokenRotation.RevocationEndsFamily`, `TokenRotation.LateRevocationMisses`).
- `internal/classroom/exam.go:328-342`: equal sets are tested by length and membership, so 1,1 passes for 1,2, and against a key 1,1 the answer 1 fails (`ExamGrading.WrongMatches`, `ExamGrading.MatchIsSetEqualityIff`).
- `internal/authz/staff.go:63-65`: unknown levels are said to satisfy nothing; they satisfy exactly the permissions whose own level is unknown (`StaffCheck.UnknownLevelGetsIn`, `StaffCheck.UnknownLevelAllowedIff`, `StaffCheck.UnknownLevelFailedLookupIff`).
- `internal/identity/staff.go:95-106`: creating an account with a role checks level and scope but not the unit (`StaffRoles.GrantReachesOutside`, `StaffRoles.GrantIsManageInside`); the claim that a role cannot exceed the actor's authority holds on the two axes (`RoleGrants.CreatedAreOutranked`) and, unit included, for assignments (`RoleGrants.AssignedAreManaged`).
- `internal/announcements/activity.go:586-587`: a failed unlink over-counts and never loses a file. Two overlapping removals of one attachment under-count without any failure (`UnguardedColumns.DoubleRemovalUncounts`, `UnguardedColumns.RunKeepsExactIff`).
- `internal/authz/redis/policy.go:1-4`: deleting the cache makes the system slower, never less correct. A fill that comes after a write and its drop stays stale, and so does one that lands behind the cursor of a scan that is still running (`CacheRaces.LateFillIsStale`, `CacheRaces.FillBehindScanIsStale`, `CacheRaces.RunKeepsFreshIff`).
- `internal/files/upload.go:62-64`: the count of an expiry is documented as that of the receipts; the statement returns the number of inodes it updated (`ExpiryCount.TwoExpireOneIsReported`, `ExpiryCount.ReportedIsReceiptsIff`).

One documented rule has a consequence a reader may not expect: duplicates are decided by the unique index (`internal/authz/postgres/policy.go:56-57`), which also sees inactive rows, so a permission that was switched off cannot be created again before a reset (`PolicyTable.CreatedAgainIsRefused`, `PolicyTable.SwitchedOffCannotBeCreated`).

## Model

| member | source | states |
|---|---|---|
| `InodeTable.LinkBalances` | internal/files/postgres/inode.go:38-61 | a successful Link keeps the counting law with one more reference held |
| `InodeTable.UnlinkBalances` | internal/files/postgres/inode.go:65-80 | an Unlink of a held inode always finds a row to change and keeps the law with one reference less; the last one turns the inode over to the sweeper |
| `InodeTable.ClaimBalances` | internal/files/postgres/upload.go:27-62 | claiming a content by hash (insert, resurrect or count up) keeps the law with one more reference, on a row of that hash |
| `InodeTable.DropAllBalances` | internal/files/postgres/upload.go:92-119 | expiring any bag of receipts in one statement lowers each count by exactly that bag and keeps the law |
| `InodeTable.ReclaimBalances` | internal/files/postgres/inode.go:95-130 | a reclaim keeps the law, takes only inodes nobody holds, and its foreign-key veto never has to fire |
| `FileStore.InodeStore.Link` | internal/files/postgres/inode.go:38-61 | Link succeeds exactly on live inodes and then adds one; otherwise it changes nothing and says gone or missing |
| `FileStore.InodeStore.Unlink` | internal/files/postgres/inode.go:65-80 | Unlink changes the row exactly when it has a count, and moves it to the sweeper at zero |
| `FileStore.InodeStore.Reclaim` | internal/files/postgres/inode.go:95-130 | a row is deleted exactly when it awaits the sweeper and no row references it; a referenced one comes back to life |
| `FileStore.InodeStore.GCCandidates` | internal/files/postgres/inode.go:84-91 | distinct inodes awaiting the sweeper, at most the batch, and all of them when they fit |
| `FileStore.InodeStore.SweepGC` | internal/files/inode.go:148-173 | whatever candidates and removals fail, the sweep deletes exactly the dead rows among those it tried, removes exactly their bytes, counts exactly the deletions, and tries every dead row when the table fits the batch |
| `FileStore.SweepAdvances` | internal/files/inode.go:148-173 | one more candidate extends the swept table, the removed bytes and the count together |
| `ClassroomFiles.ResolveUploads` | internal/classroom/files_reader.go:43-55 | succeeds exactly when every receipt exists and belongs to the actor, and then returns each receipt's inode slot for slot, under the given name or the file's own |
| `ClassroomFiles.LinkAll` | internal/classroom/files_reader.go:60-73 | all or nothing as a multiset: success adds one link per listed file, repeats included; failure adds only what its own failing compensations left over, and nothing when none failed |
| `ClassroomFiles.UnlinkEach` | internal/classroom/files_reader.go:76-80 | each taken link is given back once, and exactly the failing Unlinks leave theirs |
| `ClassroomFiles.LinkAllBalances` | internal/classroom/files_reader.go:57-73 | a table under the counting law is one linkAll accepts, and stays under it with the new files held |
| `ReferenceSafety.StepInBalance` | internal/classroom/assignment.go:262-424 | each step of each use case, edits included, keeps every count equal to receipts, rows, links in flight and leaked links if and only if it is not a DELETE whose list is out of date |
| `ReferenceSafety.DeleteStepIff` | internal/classroom/postgres/assignment.go:75-103 | the DELETE of a delete transaction keeps the counting law exactly when the inodes it listed before are still what the deleted rows hold |
| `ReferenceSafety.StepSnapshots` | internal/announcements/activity.go:410-472 | a cover snapshot read by a retry loop stays true of its version: same version, same cover |
| `ReferenceSafety.RunKeepsInvIff` | internal/classroom/postgres/assignment.go:216-247 | through any interleaving, crashes and failing Link and Unlink calls included, the law holds throughout if and only if every delete transaction that goes through still has a current list |
| `ReferenceSafety.StepKeepsInvIff` | internal/classroom/assignment.go:262-424 | the same for one step and both invariants, counts and snapshots |
| `DiscardRace.StaleListMiscounts` | internal/classroom/postgres/assignment.go:216-247 | saving a draft between the two statements of discarding it: without any fault the run ends with a referenced file awaiting the sweeper and another counted once too often |
| `RowRules.SaveLandsIff` | internal/classroom/postgres/assignment.go:151-194 | a draft is saved if and only if its assignment is there and it is not turned in; its row is then the new files and the replaced ones are to be given back, else the new ones |
| `RowRules.DiscardTakesDraft` | internal/classroom/postgres/assignment.go:216-247 | discarding takes the one draft exactly when it is there and not turned in, and only then gives the listed files back |
| `RowRules.DeleteTakesAssignment` | internal/classroom/postgres/assignment.go:75-103 | deleting an assignment takes it, its attachments and all its drafts, turned in or not, and not one row besides |
| `RowRules.StepKeepsTurnedIn` | internal/classroom/postgres/assignment.go:196-214 | whatever any call does, a draft that is turned in keeps exactly its files and stays turned in, unless its assignment is deleted |
| `RowRules.TurnedInIsFinal` | internal/classroom/postgres/assignment.go:148-167 | the same over any run, crashes and overlapping saves included |
| `RowRules.ResolvesOwnOnly` | internal/classroom/files_reader.go:43-55 | a receipt resolves to its own inode if and only if it exists and is the actor's; else the call is over |
| `RowRules.PicksOwnOnly` | internal/announcements/activity.go:345-357 | a cover is picked if and only if it is an image and its receipt is the actor's |
| `ReferenceSafety.SwapStep` | internal/announcements/activity.go:436-470 | won, lost or failed, the compare-and-swap keeps the law: the row takes the new cover's link over, and the call keeps exactly the link it still has to give back |
| `ReferenceSafety.CountsCoverReferences` | internal/files/inode.go:81-95 | in every world that runs with current delete lists reach, whatever crashed or failed, each count is exactly the references that exist, the links in flight and the leaked ones, and what is held is live |
| `ReferenceSafety.HeldIsNeverReclaimed` | internal/files/inode.go:81-95 | no sweep in any such world takes a held inode, and no referenced inode ever awaits the sweeper |
| `ReferenceSafety.OnlyFaultsLeak` | internal/classroom/files_reader.go:76-80 | only a crash of a call or a failing Unlink leaks a link |
| `ReferenceSafety.AtRestCountsAreExact` | internal/announcements/activity.go:410-472 | in such a run without those faults, once no call is in flight each count equals its receipts and rows, and exactly the unreferenced inodes await the sweeper |
| `ObjectBytes.RemovalKeepsBytesIff` | internal/files/inode.go:155-167 | removing an object after its row was deleted leaves every row with its bytes exactly when no row has that content again |
| `ObjectBytes.ClaimKeepsBytesIff` | internal/files/upload.go:78-112 | claiming a row for a copied content leaves every row with its bytes exactly when the object is still there |
| `ObjectBytes.StepKeepsBytesIff` | internal/files/inode.go:12-16 | a step keeps 'no record points at missing bytes' exactly when it is neither a removal under a row of its content nor a claim whose object is gone |
| `ObjectBytes.RunKeepsBytesIff` | internal/files/inode.go:12-16 | no row is without its bytes throughout a run if and only if each removal in it finds no row of its content and each claim finds its object |
| `ObjectBytes.LateRemovalLosesBytes` | internal/files/upload.go:78-112 | a seven-step run of two uploads, an expiry and a sweep that ends with a live row without bytes |
| `ObjectBytes.EarlyRemovalLosesBytes` | internal/files/upload.go:78-112 | the other crossing: the object goes between the copy and the claim |
| `ExpiryCount.ReportedIsReceiptsIff` | internal/files/postgres/upload.go:92-119 | an expiry never reports more than the receipts that expired, and reports their number if and only if no two of them are of one inode |
| `ExpiryCount.TwoExpireOneIsReported` | internal/files/upload.go:62-64 | two uploads of one content, two expired receipts, one reported |
| `UnguardedColumns.StepKeepsExactIff` | internal/announcements/activity.go:551-564 | a step of attachment removals and question edits keeps every count exact if and only if it is not a write over something its call has not seen |
| `UnguardedColumns.RunKeepsExactIff` | internal/classroom/question.go:256-323 | through any interleaving the counts are exact throughout if and only if every write still finds the inode its call had read |
| `UnguardedColumns.OneAtATime` | internal/classroom/question.go:256-323 | a call that runs on its own keeps them exact |
| `UnguardedColumns.DoubleRemovalUncounts` | internal/announcements/activity.go:551-564 | two removals of one attachment unlink twice and leave another row's inode without a count |
| `VersionedRow.RowIsCommitsInOrder` | internal/announcements/postgres/activity.go:65-78 | in every reachable world of any number of calls the row is the committed patches applied in commit order, each to the row it read, the version counts them, and the history table holds every row on the way |
| `VersionedRow.SuccessIsOneCommit` | internal/subscription/subscription.go:348-370 | a success is exactly one commit of the call's own patch, made while it ran, and returns the row of that commit; every other outcome is no commit |
| `VersionedRow.ConflictSawThreeOthers` | internal/announcements/activity.go:490-511 | a call gives up as a conflict only after three commits of other calls landed while it ran |
| `VersionedRow.ColumnsMerge` | internal/management/student.go:272-316 | each column of the row ends with its own last committed writer |
| `PatchLoop.UpdateWithRetry` | internal/subscription/subscription.go:348-370 | the loop writes once, at the first attempt nobody raced, its patch of the row as it then is; it gives up only when all three attempts were raced, and the version counts every write |
| `PatchLoop.RowStore.CompareAndSwap` | internal/announcements/postgres/activity.go:65-78 | writes and bumps exactly when the version still matches, else changes nothing |
| `PatchedRows.StudentEditsMerge` | internal/management/student.go:275-316 | concurrent partial edits of a student merge field by field, the last committed edit of each field winning |
| `PatchedRows.LimitsHaveLastWord` | internal/subscription/subscription.go:136-239 | after any run of tier and override changes each limit in force is the last committed override of it, or the tier's own value when that override was cleared or never set; a limit neither sets is not in force |
| `PatchedRows.HistoryTellsEveryChange` | internal/subscription/subscription.go:348-370 | each commit leaves one history entry, which is the change applied to the entry before it; the newest entry is the row |
| `SemesterLifecycle.EveryChangeIsAnEdge` | internal/management/semester.go:181-195 | under any interleaving of edits, status changes, definalizations and semester ends every committed edit keeps the status and every committed status change or definalization follows the table |
| `SemesterLifecycle.UndisturbedChange` | internal/management/semester.go:425-477 | an unraced status change commits exactly along one of them and a definalization exactly on a finalized semester; any other is refused and changes nothing |
| `SemesterLifecycle.UndisturbedEdit` | internal/management/semester.go:368-421 | an unraced edit sets the fields it names and no other, and is refused exactly when it moves to a term that is taken |
| `SemesterLifecycle.LifecycleHoldsIff` | internal/management/semester.go:750-768 | over any run all commits follow the table if and only if no archive write lands after commits, made since its read, the last of which to set the status left it anything but finalized |
| `SemesterLifecycle.ArchiveWritesWhatItRead` | internal/management/semester.go:750-768 | an archive write restores the row it first read, archived: whatever others changed since then is lost |
| `SemesterLifecycle.RetryOverwrites` | internal/management/semester.go:750-768 | for any change that lands between the read and the first swap: the retry takes it back and archives |
| `SemesterLifecycle.ArchivedIsForever` | internal/management/semester.go:425-477 | no later commit of any kind brings an archived semester back |
| `SemesterLifecycle.ArchivedPassedEveryStage` | internal/management/semester.go:181-195 | a semester that was upcoming and is archived was active, then grading, then finalized, in that order, overtaken archive writes included |
| `SemesterEnd.Archive` | internal/management/semester.go:750-768 | the archive loop with rivals, failing writes and failing re-reads: its outcome, the row and the version it leaves |
| `SemesterEnd.LandsIff` | internal/management/semester.go:750-768 | the archive write lands exactly when some attempt is unraced and works and each before it only lost its race |
| `SemesterEnd.LosesIff` | internal/management/semester.go:750-768 | the call ends as a conflict exactly when every attempt is raced and nothing fails |
| `SemesterEnd.LandedIsArchived` | internal/management/semester.go:750-768 | a write that lands leaves the row that was read, archived; without rivals any other outcome leaves the row alone |
| `SemesterLifecycle.ArchiveAfterDefinalize` | internal/management/semester.go:750-768 | a run of the machine in which a definalization overtakes the archive write: the semester goes from grading to archived |
| `SemesterEnd.EndSemester` | internal/management/semester.go:701-769 | the guards, the students, then the archive loop; a conflict or a failure at the end leaves the students moved and the semester as the rivals left it |
| `EndRaces.EndedTwiceIff` | internal/management/semester.go:701-769 | two semester ends, however they overlap, fail or crash afterwards: a student nobody else touches rises by two if and only if both read the semester as finalized, both listed the student as one to be moved, and one listed after the other had written; by one if one of them did or both from one listing; else not at all |
| `EndRaces.MovedIff` | internal/management/semester.go:701-744 | over any run each call has moved a student once or never, and once exactly when its own read found the semester finalized and its own listing has the student as one to be moved, however often others have moved the student before |
| `EndRaces.ActiveAreMoved` | internal/management/semester.go:722-744 | in a year-end with full-year repeat where nothing fails for the student, a call that has come to its archive write has moved the student exactly if it listed the student as active |
| `EndRaces.StandingIsLevel` | internal/management/semester.go:831-857 | over any run of any number of calls, edits by others, failures and crashes a standing is one more than at the listing of the call that wrote last, or what an edit set since |
| `EndRaces.FoundFinalizedIff` | internal/management/semester.go:701-708 | while nobody edits the semester, a call that reads it finds it finalized exactly until an archive write has landed |
| `EndRaces.EditOvertakes` | internal/management/semester.go:750-768 | any edit of the semester makes an archive write under way lose its race |
| `EndRaces.TurnsAreTheLoop` | internal/management/semester.go:726-744 | the machine's turns of a call that nobody disturbs are the loop over the students |
| `EndRuns.FailedArchiveMovesTwice` | internal/management/semester.go:750-768 | the archive write fails, the semester is ended again, and the student is two years on |
| `EndRuns.OverlapMovesTwice` | internal/management/semester.go:701-769 | two overlapping calls move the student two years without any failure, and both archive |
| `PlanMerge.SortIsStable` | internal/classroom/project.go:196-198 | the sort is descending, a permutation, and keeps the order of equal sizes |
| `PlanMerge.BestFitIsEarliestBest` | internal/classroom/project.go:202-211 | the chosen group is the earliest minimum of distance to target, then fill, among the groups with room, and there is none only when no group has room |
| `PlanMerge.ChosenIsNearest` | internal/classroom/project.go:249-256 | in plain arithmetic: the chosen group has room, and against every group with room it is nearer to the target, or as near and less full, or the same on both and earlier |
| `PlanMerge.SeedJoinsIff` | internal/classroom/project.go:201-219 | a team joins a group exactly when that group is the earliest best fit and below the target; otherwise it opens its own |
| `PlanMerge.SeedJoinsNearest` | internal/classroom/project.go:201-219 | a team joins a group if and only if the group has room, is below the target and comes before every group with room in that order |
| `PlanMerge.PlanConservesTeams` | internal/classroom/project.go:192-246 | groups and unmerged teams together are exactly the given teams |
| `PlanMerge.GroupsAreInBounds` | internal/classroom/project.go:192-246 | for teams of at most max members every returned group has between min and max |
| `PlanMerge.EveryTeamIsNeeded` | internal/classroom/project.go:201-219 | without any one of its teams, a first-pass group of several is below the target |
| `PlanMerge.UnmergedFitNowhere` | internal/classroom/project.go:221-245 | unmerged are exactly the groups given up; each is below min and even at the end does not fit any group kept before it |
| `PlanMerge.PriorityHoldsIff` | internal/classroom/project.go:202-203 | the comment that below-target groups take priority holds for a team exactly when some below-target group with room beats every group with room that has reached the target |
| `PlanMerge.PriorityIsLost` | internal/classroom/project.go:202-203 | sizes 3,1,1,1 within 4 to 5: the last team is left over although a below-target group had room |
| `PlanMerge.ChooseBest` | internal/classroom/project.go:204-211 | the index loop computes the best fit |
| `PlanMerge.CompactOne` | internal/classroom/project.go:225-244 | one round of the second pass writes at most the next kept slot and leaves all later slots alone |
| `PlanMerge.Compact` | internal/classroom/project.go:221-245 | compacting the slice while ranging over it gives the pure fold over the original groups |
| `PlanMerge.PlanTeams` | internal/classroom/project.go:192-246 | the whole in-place run returns what the pure plan says |
| `StaffRoles.ManageIsIrreflexive` | internal/authz/staff.go:179-203 | no role manages itself |
| `StaffRoles.ManageIsAsymmetric` | internal/authz/staff.go:179-203 | no two roles manage each other, malformed ones and failing lookups included |
| `StaffRoles.ManageIsTransitive` | internal/authz/staff.go:179-203 | over well-formed roles of one org tree managing is transitive |
| `StaffRoles.TransitivityNeedsUnits` | internal/authz/staff.go:196-200 | a department role without a unit breaks transitivity |
| `StaffRoles.ManagesIff` | internal/authz/staff.go:311-341 | managing is exactly outranking on level and scope together with containing the target's unit |
| `StaffRoles.LevelsInOrder` | internal/authz/staff.go:40-71 | viewer, operator, administrator and super administrator in this order, unknown levels below all |
| `StaffRoles.ScopesInOrder` | internal/authz/staff.go:40-73 | program, department, college, university and platform in this order, unknown scopes below all |
| `StaffRoles.InsideIff` | internal/authz/staff.go:313-327 | inside means that the actor's unit is the department or college the tree gives the target's unit |
| `StaffRoles.GrantIsManageInside` | internal/authz/staff.go:125-132 | granting on account creation agrees with managing exactly when the actor's unit contains the target's |
| `StaffRoles.GrantReachesOutside` | internal/identity/staff.go:95-106 | a college administrator creates an operator in a department of another college, whom he may not manage |
| `StaffRoles.FailedLookupDenies` | internal/authz/staff.go:309-325 | whatever is allowed with a failing lineage lookup is allowed with a working one |
| `RoleGrants.RoleService.AssignRole` | internal/identity/role.go:103-151 | the checks in order, the role written, the target's sessions deleted; any refusal or failed write changes nothing |
| `RoleGrants.RoleService.RemoveRole` | internal/identity/role.go:156-188 | the checks in the source's order, then the role and its sessions go; a success is never on oneself and always under a claim that outranks the role |
| `RoleGrants.RemovalsOutrank` | internal/identity/role.go:156-171 | a role is taken away only by somebody else's act, under a live claim that outranks it, whether or not the lookup answers |
| `RoleGrants.RemovedIff` | internal/identity/role.go:156-176 | between well-formed roles, with a lookup that answers: it is taken away if and only if the claim outranks it and its unit contains the role's; else nothing changes |
| `RoleGrants.AssignedIff` | internal/identity/role.go:103-130 | a well-formed role is assigned on the same terms to a user there is; else nothing changes |
| `RoleGrants.TokensIff` | internal/identity/auth.go:322-341 | a token states the role of the login until it expires, whatever becomes of the role |
| `RoleGrants.CreatedAreOutranked` | internal/identity/role.go:99-131 | over every run of assignments, removals, hirings and reorganisations, with stale tokens and failing lookups, each role handed out is outranked by one somebody held at the start |
| `RoleGrants.AssignedAreManaged` | internal/identity/role.go:99-131 | while the tree stands still and nobody is hired, each role assigned is managed, unit included, by one somebody held at the start |
| `RoleGrants.RemovedAreOutranked` | internal/identity/role.go:150-176 | over any run, stale tokens and failing lookups included, each role taken away is outranked by a role somebody held at the start |
| `RoleGrants.RemovedAreManaged` | internal/identity/role.go:150-176 | with a still tree and no hiring, each is managed, unit included, by a role held at the start |
| `StaffCheck.LazyIsEager` | internal/authz/staff.go:205-240 | on one row the lazy check allows exactly when the plain definition with the row's true lineage does |
| `StaffCheck.AllowedIff` | internal/authz/staff.go:209-240 | on a list, and on a row whose lookup succeeds: allowed if and only if the role has the level of some permission of its domain whose scope is narrower, or the same in its own unit |
| `StaffCheck.MatchIsFirst` | internal/authz/staff.go:244-274 | the permission reported as matched is the first in the list that settles the question |
| `StaffCheck.FailedLookupIff` | internal/authz/staff.go:223-230 | with a failing lookup it allows exactly what the role alone settles |
| `StaffCheck.LookupOnlyWhenItDecides` | internal/authz/staff.go:269-278 | the answer depends on the reader exactly when the role alone does not settle it and a unit still could |
| `StaffCheck.OrderIsIrrelevant` | internal/authz/staff.go:242-267 | the order and repetition of permissions plays no part in the verdict |
| `StaffCheck.FilterIsExact` | internal/authz/staff.go:286-305 | once the list is allowed, a row is allowed on its own exactly when the role alone settles it or the row lies in the list's filter |
| `StaffCheck.DeniedListDeniesRows` | internal/authz/staff.go:217-222 | a denied list means every row is denied |
| `StaffCheck.PermsReaching` | internal/authz/posts.go:123-131 | keeps exactly the permissions at least min wide |
| `StaffCheck.FloorHolds` | internal/authz/staff.go:165-175 | with only those permissions nobody narrower than min is admitted |
| `StaffCheck.UnknownLevelAllowedIff` | internal/authz/staff.go:63-65 | on a list, and on a row whose lookup succeeds, a role of unknown level is let in exactly when a permission of unknown level covers its domain and place |
| `StaffCheck.UnknownLevelFailedLookupIff` | internal/authz/staff.go:63-65 | when the lookup fails, exactly when the role alone settles such a permission |
| `StaffCheck.UnknownLevelGetsIn` | internal/authz/staff.go:63-65 | a role and a permission of unknown levels: the role is let in |
| `PolicyStore.AssemblePolicy` | internal/authz/postgres/policy.go:196-218 | the loop folds the rows in order and skips malformed ones |
| `PolicyStore.ReadsActiveRows` | internal/authz/postgres/policy.go:196-217 | a pair reads exactly what its active rows grant, whatever other rows there are and however malformed |
| `PolicyStore.ShapedIff` | migrations/000054_authz_permission_type.up.sql:30-35 | a row is well formed exactly when it grants something and has no column of the other kind |
| `PolicyStore.SameEntryIff` | migrations/000054_authz_permission_type.up.sql:48-52 | two rows are one to the unique index if and only if they agree in every column, a missing value being the same as an empty one |
| `PolicyStore.InsertedPolicyReads` | internal/authz/postgres/policy.go:171-191 | a policy inserted for a pair without rows is what the pair reads afterwards, in order, and no other pair reads differently |
| `PolicyStore.IndexAdmitsIff` | migrations/000054_authz_permission_type.up.sql:48-52 | the unique index lets a policy's rows in exactly when the policy repeats no permission |
| `PolicyTable.InsertPolicy` | internal/authz/postgres/policy.go:171-191 | appends the policy's rows in order, or stops exactly when the policy repeats a permission |
| `PolicyTable.KnownPairs` | internal/authz/postgres/policy.go:154-168 | true exactly for the pairs with a row, active or not |
| `PolicyTable.InsertMissing` | internal/authz/postgres/policy.go:99-114 | in whatever order the map is ranged, each unknown pair reads its default afterwards and every other pair reads what it read |
| `PolicyTable.Store.CreatePermission` | internal/authz/postgres/policy.go:58-74 | one new active row, or a refusal exactly when the tuple is stored already, inactive rows included |
| `PolicyTable.Store.DeactivatePermission` | internal/authz/postgres/policy.go:79-93 | only an active row can be switched off, and only its flag changes |
| `PolicyTable.Store.Seed` | internal/authz/postgres/policy.go:99-114 | all the missing defaults in one transaction, or no change |
| `PolicyTable.Store.Reset` | internal/authz/postgres/policy.go:119-131 | afterwards each pair reads exactly its default, or nobody; a failure changes nothing |
| `PolicyTable.SwitchedOffStaysOff` | internal/authz/postgres/policy.go:76-98 | a pair whose rows are all switched off denies everyone through any number of boots, deactivations and edits of other pairs |
| `PolicyTable.SwitchedOffCannotBeCreated` | internal/authz/postgres/policy.go:56-71 | a permission once stored cannot be created again before a reset, also after it was switched off |
| `PolicyTable.CreatedAgainIsRefused` | internal/authz/postgres/policy.go:56-71 | any permission that is created, switched off and created again stays switched off |
| `PolicyCache.KeysAreDistinct` | internal/authz/redis/policy.go:43-43 | cache keys of resources without a colon are injective |
| `PolicyCache.ColonsWouldClash` | internal/authz/redis/policy.go:43-43 | with a colon in the resource two pairs can share a key |
| `PolicyCache.Cache.PolicyFor` | internal/authz/redis/policy.go:42-54 | every answer is the store's answer, hit or miss, with Redis failing or not; no other key changes |
| `PolicyCache.Cache.InvalidateAll` | internal/authz/redis/policy.go:131-147 | the batched unlink leaves no policy key and every foreign key as it was |
| `PolicyCache.Cache.CreatePermission` | internal/authz/redis/policy.go:62-69 | dropping one key is enough: the cache stays coherent with the changed table |
| `PolicyCache.Cache.DeactivatePermission` | internal/authz/redis/policy.go:73-79 | writes through and stays coherent |
| `PolicyCache.Cache.Seed` | internal/authz/redis/policy.go:83-89 | seeds through and stays coherent |
| `PolicyCache.Cache.Reset` | internal/authz/redis/policy.go:92-98 | resets through, gives back the defaults and stays coherent |
| `CacheRaces.StepKeepsFreshIff` | internal/authz/redis/policy.go:42-54 | with overlapping calls and failing Redis commands a step keeps every stale entry about to be dropped if and only if it is neither a fill that comes too late (behind the drop, or behind the scan's cursor) nor a failure that gives up a stale entry no other writer will drop |
| `CacheRaces.RunKeepsFreshIff` | internal/authz/redis/policy.go:60-147 | the same over whole runs of loads, fills, writes, scan replies, batched unlinks, failures and expiries |
| `CacheRaces.CachedIff` | internal/authz/redis/policy.go:42-54 | what is cached after a step: what a fill has put there, and what was there and neither ran out nor was unlinked |
| `CacheRaces.SettledCacheIsTheStore` | internal/authz/redis/policy.go:25-28 | after such a harmless run, once no writer has keys left to drop, a cached pair answers as the store |
| `CacheRaces.LateFillIsStale` | internal/authz/redis/policy.go:42-54 | a write and its drop between a load and its fill leave a stale entry |
| `CacheRaces.FillBehindScanIsStale` | internal/authz/redis/policy.go:131-147 | a fill behind the cursor of a running scan leaves one too, although its writer has not finished |
| `CacheRaces.FailedUnlinkIsStale` | internal/authz/redis/policy.go:122-127 | a failing unlink leaves one without any overlap |
| `TokenRotation.RotationIsOneLine` | internal/identity/auth.go:319-424 | in every quiet run a family has at most one unused token or rotation in flight, no token is exchanged twice, and no token has two successors |
| `TokenRotation.QuietIff` | internal/identity/auth.go:254-256 | a step keeps every token that is about to be marked in the store exactly when it removes none of them |
| `TokenRotation.MarkKeepsLineIff` | internal/identity/redis/tokens.go:75-85 | a mark that wins keeps its family on one line exactly when nothing of the family was left besides the marked token |
| `TokenRotation.RunKeepsLineIff` | internal/identity/auth.go:319-424 | a run, quiet or not, keeps every family on one line throughout if and only if each winning mark finds nothing else left of its family |
| `TokenRotation.RunExchangesOnceIff` | internal/identity/redis/tokens.go:72-85 | a run exchanges no token twice if and only if each winning mark's token was not exchanged before |
| `TokenRotation.LiveIff` | internal/identity/redis/tokens.go:36-55 | a token is in the store from its issue until it expires, is logged out or deleted with its family |
| `TokenRotation.UsedIff` | internal/identity/redis/tokens.go:75-85 | its mark from the first mark until it is removed with the token or runs out after it |
| `TokenRotation.ListedIff` | internal/identity/redis/tokens.go:36-55 | a token is in its family's set until it is logged out or the set is deleted; a logout everywhere leaves the sets alone |
| `TokenRotation.LogoutRaceForks` | internal/identity/redis/tokens.go:75-85 | a logout between the two Redis commands of the mark lets two refreshes exchange one token and forks the family |
| `TokenRotation.RevokeKillsIff` | internal/identity/redis/tokens.go:87-118 | the deletion of a revocation ends its family exactly when no refresh of it is between its look and its successor and every token the family still has was found when the family was listed |
| `TokenRotation.StepKeepsListedIff` | internal/identity/redis/tokens.go:87-118 | every live token is in its family's set until a deletion that has not found all of its family's tokens |
| `TokenRotation.RevocationEndsFamily` | internal/identity/redis/tokens.go:87-118 | over a whole revocation with anything in between: when the family got no new token meanwhile, it ends the family exactly when no refresh of it is under way |
| `TokenRotation.LateRevocationMisses` | internal/identity/redis/tokens.go:87-118 | a run in which a rotation finishes between the listing and the deletion: its token survives unused and is on no list any more |
| `TokenRotation.DeadStaysDead` | internal/identity/auth.go:366-373 | an ended family never exchanges or creates a token again, however the run goes on |
| `AuthService.Auth.Login` | internal/identity/auth.go:322-341 | a login starts a family with exactly its one token |
| `AuthService.Auth.Refresh` | internal/identity/auth.go:347-383 | one call on its own: unknown tokens are refused; a used one reports reuse and, when the revocation succeeds, is a run of the machine that ends the family; a success is the machine's four steps, and the successor is all the family has left |
| `TokenRotation.UndisturbedRefresh` | internal/identity/auth.go:347-383 | the four steps of a refresh that nobody disturbs spend its token and create the successor |
| `AuthService.Auth.Logout` | internal/identity/auth.go:387-389 | exactly the presented token stops being usable |
| `GenerateOfferings.Offerings.OfferShift` | internal/management/semester.go:532-557 | one wanted offering is skipped, created or recorded as failed, and counted accordingly |
| `GenerateOfferings.Offerings.Generate` | internal/management/semester.go:482-561 | whatever order the cohort map is ranged in, the offerings afterwards are those before and all the curriculum requires, save failed inserts; Created is the size of the difference, errors are exactly the failed inserts and skipped what was there |
| `GenerateOfferings.Offerings.GenerateTwice` | internal/management/semester.go:479-481 | a second run creates nothing |
| `GenerateOfferings.SharedOfferingIff` | internal/management/semester.go:519-533 | two cohorts, of whatever programs, need a common offering exactly when they are of the same year and share a course that exists |
| `GenerateOfferings.WantedIff` | internal/management/semester.go:482-533 | an offering is wanted if and only if its shift is asked for, its course exists and the curriculum of some cohort of its year requires it |
| `GenerateOfferings.ShiftByShift` | internal/management/semester.go:526-533 | a day run and then an evening run fill what one run for both fills, and a shift there is not means both |
| `BulkEnroll.SecondRunEnrollsNobody` | internal/management/semester.go:564-696 | run again on unchanged facts it enrolls nobody and leaves the table as it was, whichever lookups and inserts fail in both runs |
| `BulkEnroll.RunGrows` | internal/management/semester.go:797-810 | rows only come in, as enrolled, and none is changed |
| `BulkEnroll.GrowthKeepsRecord` | internal/management/postgres/enrollment.go:270-280 | such growth changes nobody's passed or failed courses |
| `EnrollmentReport.EnrollmentsAreExplained` | internal/management/semester.go:603-694 | every enrollment answers to an open course on the rows from before the run: no completed row of the student is of it; a planned one that is no pretake has a completed row for its prerequisite, a pretake has none and an approval, and it is a retake exactly with a failed row; outside the plan it is an approved retake |
| `EnrollmentReport.BlockedAreLacking` | internal/management/semester.go:632-656 | every course reported as blocked is planned and open; on the rows from before the run none is completed of it nor of the missing one, which the record names, there is no seat, and no pretake was approved |
| `EnrollmentOutcomes.LackingAreBlocked` | internal/management/semester.go:632-656 | conversely a student who lacks the prerequisite and gets no seat through the run is reported as blocked |
| `EnrollmentOutcomes.SkippedIff` | internal/management/semester.go:612-624 | skipped are exactly the known courses in the plans of the students whose lookups answer that have no offering |
| `EnrollmentOutcomes.ErrorsAre` | internal/management/semester.go:582-694 | every student whose lookups fail, every unknown planned course and every failing retake lookup is counted as an error; when everything else answers and no seat was given up, nothing else is |
| `EnrollmentReport.ReportIsTheChange` | internal/management/semester.go:797-810 | the table is the old one with exactly the reported enrollments, each a new row, and every count is the length of its list |
| `EnrollmentReport.MayTakeIsEnrolled` | internal/management/semester.go:603-665 | nobody is left without a row who may take a planned course, read off the rows: none completed of it, and one of its prerequisite or an approved pretake; unless the store refuses the insert |
| `BulkEnrollRun.Enrollments.EnrollPlanned` | internal/management/semester.go:603-665 | the checks of one planned course act as its verdict says |
| `BulkEnrollRun.Enrollments.EnrollTurn` | internal/management/semester.go:582-694 | one student's two loops are the two passes |
| `BulkEnrollRun.Enrollments.BulkEnroll` | internal/management/semester.go:568-696 | the nested loops compute the fold over all students, or refuse and change nothing |
| `YearEnd.OutcomesAddUp` | internal/management/semester.go:722-744 | Processed counts the active students and is Promoted + Repeated + Unchanged + Errors |
| `YearEnd.PromotedIff` | internal/management/semester.go:812-857 | in a spring or annual semester an active listed student goes up a year exactly when the credits reach the requirement, or 0 where there is none; otherwise the year stays and the cohort goes up exactly with full-year repeat; a failing lookup or write leaves the student alone |
| `YearEnd.HistoryRowIff` | internal/management/semester.go:840-851 | exactly an active student who does not reach it gets a history row, with the cohorts before and after and the year as it was, unless a write fails |
| `YearEnd.CountsTell` | internal/management/semester.go:722-744 | promoted, repeated and unchanged are the numbers of active students on those conditions |
| `YearEnd.OneStepPerYearEnd` | internal/management/semester.go:831-857 | in a year-end with full-year repeat each listed active student's year plus cohort rises by exactly one and nobody else moves |
| `YearEnd.StandingCountsYearEnds` | internal/management/semester.go:812-857 | over any sequence of semester ends without faults for a student the standing has risen by the year-ends the student was there for |
| `YearEnd.TurnExplainedIff` | internal/management/semester.go:840-851 | one student's turn keeps every cohort explained by the history exactly when it does not move the cohort and then fail to record it |
| `YearEnd.HistoryExplainsCohorts` | internal/management/semester.go:840-851 | over any sequence of semester ends that loses no history row each cohort has moved by the sum of its recorded changes |
| `YearEnd.Students.ProcessYearEnd` | internal/management/semester.go:831-857 | the writes in their order, each failure leaving the earlier ones standing |
| `YearEnd.Students.EndStudents` | internal/management/semester.go:701-744 | the guards, then one turn per active listed student, with the counts of the outcomes |
| `Grading.ValidateRules` | internal/classroom/grading.go:88-100 | accepts exactly known kinds whose weights total 100 within 0.01 |
| `Grading.FinalGrade` | internal/classroom/grading.go:103-136 | the nested loops compute the weighted sum, rounded half away from zero |
| `Grading.MeasureIs` | internal/classroom/grading.go:106-134 | a rule measures one exam's percentage, the highest of several, their average, the attendance, or the assignments where there are any |
| `Grading.RoundIsNearest` | internal/classroom/grading.go:103-136 | rounding gives the nearest integer, and of two as near the one further from zero |
| `Grading.RuleAdds` | internal/classroom/grading.go:106-134 | each rule adds a hundredth of its measure for each point of its weight |
| `Grading.GradeInRange` | internal/classroom/grading.go:102-136 | for inputs within 0 to 100 and positive weights the grade is an integer from 0 to 100 despite the tolerance |
| `Grading.FullMarksGrade` | internal/classroom/grading.go:88-136 | when every rule measures 100 the grade is exactly 100 |
| `Grading.GradeMonotone` | internal/classroom/grading.go:103-136 | results that are nowhere worse never lower the grade |
| `Grading.OrderOfRulesIsIrrelevant` | internal/classroom/grading.go:103-136 | permuting the rules does not change the grade |
| `Grading.NamedIff` | internal/classroom/grading.go:147-165 | the collected exams are exactly those the rules name, each once |
| `Grading.RuleExamIDs` | internal/classroom/grading.go:147-165 | the loop with its seen map collects them in the order they are first named |
| `Grading.NamedInOrder` | internal/classroom/grading.go:147-165 | they come in the order in which the rules first name them |
| `Grading.NamedExamsSuffice` | internal/classroom/grading.go:402-411 | scores of exams the rules do not name never change the grade |
| `GradeSheet.PreviewIsGrade` | internal/classroom/grading.go:390-400 | a preview is the grade of the student's full results |
| `GradeSheet.GradedIs` | internal/classroom/grading.go:139-145 | an enrolled student gets the grade of the full results and is through exactly when it reaches the threshold; every other row stays |
| `GradeSheet.FinishingIsTheSame` | internal/classroom/grading.go:271-275 | however far an earlier run came, finishing gives the sheet of one unbroken run |
| `GradeSheet.Gradebook.Finalize` | internal/classroom/grading.go:276-342 | refuses with the first check that fails, in the source's order; else grades the roster in order and stops at the first failing student; success grades every enrolled row as its preview and finalizes the offering |
| `GradeSheet.OnlyCountedWorkMatters` | internal/classroom/grading.go:296-317 | ungraded work that no rule counts holds no run up |
| `GradeSheet.FinishedIsRefused` | internal/classroom/grading.go:284-290 | a sheet that a run has finished is refused by every later run |
| `ExamGrading.MatchIsSetEqualityIff` | internal/classroom/exam.go:328-342 | for every key and answer: the comparison is set equality except that it accepts answers of the key's length that leave out some of the key, and refuses the key's own set in another length |
| `ExamGrading.WrongMatches` | internal/classroom/exam.go:328-342 | 1,1 passes for the key 1,2; against the key 1,1, which question creation stores unchecked, the answer 1 fails |
| `ExamGrading.CompareIntSets` | internal/classroom/exam.go:328-342 | the loops compute that comparison |
| `ExamGrading.AutoGrade` | internal/classroom/exam.go:229-251 | scores each question by its kind and answer |
| `ExamGrading.ScoreIs` | internal/classroom/exam.go:229-297 | unanswered scores zero, an answered short answer awaits a human, a choice scores its whole weight exactly when the answer is what the key asks for and else zero |
| `ExamGrading.TotalOf` | internal/classroom/exam.go:254-262 | the sum of the given scores in any order, awaiting ones as zero |
| `ExamGrading.HasUngraded` | internal/classroom/exam.go:265-272 | true exactly when a score awaits a human |
| `ExamGrading.UngradedIff` | internal/classroom/exam.go:244-246 | exactly the answered short answers await a human |
| `ExamGrading.QuestionWeights` | internal/classroom/exam.go:541-547 | the loop keeps the last weight of each referenced question |
| `ExamGrading.LastWeightCounts` | internal/classroom/exam.go:541-547 | of a question's references the last one counts |
| `ExamGrading.ExamTotal` | internal/classroom/exam.go:218-224 | the loop sums the weights of all references |
| `ExamGrading.WeightsWithinTotal` | internal/classroom/exam.go:541-547 | the weights sum to the exam total exactly when no question is referenced twice, else to less |
| `ExamGrading.EarnedWithinTotal` | internal/classroom/exam.go:217-262 | what choices earn is between zero and the exam total |
| `ExamGrading.FullMarksIff` | internal/classroom/exam.go:217-262 | the exam total is earned exactly when no question is referenced twice, all references resolve and every question is a choice answered right |
| `Transcript.SemestersHoldEverything` | internal/management/transcript.go:119-138 | the semesters together hold exactly the attempts, none lost or doubled |
| `Transcript.KeysAreFirstOccurrences` | internal/management/transcript.go:119-130 | the semesters are distinct and exactly those the record mentions |
| `Transcript.KeysInFirstOrder` | internal/management/transcript.go:119-130 | the semesters come in the order in which the record first mentions them |
| `Transcript.EarnedIsSumOfSemesters` | internal/management/transcript.go:146-151 | credits earned over all are the semesters' completed credits together |
| `Transcript.AveragesInRange` | internal/management/transcript.go:154-167 | without negative credits every average is between 0 and 4 |
| `Transcript.PointsMonotone` | internal/management/transcript.go:74-97 | a better grade never has fewer points |
| `Transcript.PointsScale` | internal/management/transcript.go:74-97 | the scale of grade points, step by step |
| `Transcript.TotalsAre` | internal/management/transcript.go:132-166 | in a semester completed and failed courses count, over all only completed ones; each average times the credits is the points |
| `Transcript.BuildTranscript` | internal/management/transcript.go:102-187 | the loop over a map of running semesters refines the plain group-by, and a missing record gives the empty shell |

## Left out

- HTTP handlers, wiring, notifications, logging, JWT signing, password hashing, object storage transport and SQL beyond the statements cited: library calls and plumbing. Token hashes are injective and fresh identifiers unused by assumption.
- Saving a draft (its upsert locks the row first), creating an upload, expiring receipts and reclaiming an inode are single steps; a commit that succeeds but reports an error is not modelled.
- JSON encoding of rules, scores, answers, policies and role claims: the model works on decoded values. An index answer that arrives as a fractional number is truncated before it reaches the model.
- Floating point: grades, scores and averages are reals, and rounding is half away from zero on them.
- Announcements RemoveAttachment and the question bank's image update read an inode before an unguarded write; they are a machine of their own (`UnguardedColumns`) and not steps of the reference machine, whose law they can break too.
- The content tree and the question-and-answer attachments count references in the same shape as assignments and add nothing new.
- File size and quota limits, derived prefixes and legacy object keys of the file store; the mime type of a cover is one bit of the step that picks it.
- Soft deletion of activities does not bump the version and is not part of the versioned-row machine.
- Expiry of a subscription when limits are read, enum validators, publish windows and language fallbacks: settled by reading one branch.
- Cohort-group reassignment at year-end is only its success or failure.
- Role expiry dates, titles and the notification after an assignment.
- Policy rows are read in table order; the SELECT promises none. The verdict does not depend on it (`StaffCheck.OrderIsIrrelevant`).
- The separate commands of one Redis pipeline are one step: the deletes of a revocation, and the creation of a token with its entry in the family's set. A scan visits each slot of the keyspace once.
- PolicyCache.Cache.PolicyFor: coherence is for one call at a time with a Redis that does not fail to unlink; overlapping calls and failing unlinks are `CacheRaces`, whose stale entries stay until their hour is up.
- YearEnd.Students.EndStudents: ends before the archiving, which is SemesterEnd.EndSemester.
- SemesterEnd.EndSemester: rivals get in during the archive loop only; semester ends that overlap otherwise are `EndRaces`, where one student's turn is one step and a write that succeeds but reports an error is not modelled.
- RoleGrants.AssignedAreManaged: leaves hirings and moves of units out, because account creation does not check units and a moved unit changes who contains whom; RoleGrants.CreatedAreOutranked covers both on level and scope.
- The contents of the default policy table: every theorem holds for any table.
- Random question sampling and mention parsing.
