# CodeDefender backend: a Dafny model and its proofs

CodeDefender is a NestJS backend for running security scans on repositories. This
project models the parts of it that hold state and make decisions, and proves
properties of that model for all inputs, all runs and all interleavings:

- **Permissions** (`Access`, `PermissionCache`, `SlowReads`, `PermissionsServices`,
  `Roles`): who may do what, memoised under string keys with a time to live and partial
  invalidation, also when an answer is stored later than it was read, and the calls that
  assign, remove and change roles.
- **The scan pipeline** (`Scans`, `Schedules`, `Pipeline`, `PipelineServices`):
  schedule rows, the repeatable queue that mirrors them, scan rows, and workers whose
  database calls interleave with everything else; every call of every operation may fail.
- **Usage reports** (`Usage`, `Reports`): group-by loops that update nested tables in
  place, and the sums they must add up to.
- **Sessions and magic links** (`Sessions`): rows whose flags only move one way.
- **Guards and plans** (`Guards`, `PermissionGuards`, `PolicyGuards`, `ContextGuards`,
  `UnifiedGuards`, `GuardComposition`, `Plans`): three single-purpose guards, one guard
  that does all three jobs with implementations of its own, and the plan tables.
- **Workspaces** (`Workspaces`): membership, agreement of list and single read, and what
  a deletion takes along.

`Common` and `Directories` hold what these share. Services that update stored data are
classes whose methods follow the source statement by statement; each is proved against
a function on the stored data as a value. What each call does to the data, who may call
it, and what it answers is then stated in the terms of the data alone (the lemmas named
`...Exactly`, `...Decides`, `...Meaning`, `...Read`), and the laws are lemmas about those
functions and about runs of them. Calls into the database, the queues, the cache and the JWT
library become tables, sequences, maps and a `genuine` flag. The call that throws is a
parameter of every operation that writes (`Fault`, `Failure`, `bad`, `ok`, `fails`);
a read that throws before the first write leaves everything as it was. Foreign keys
throw without being told to. `dafny verify dfyconfig.toml` checks the whole project.

## What the proofs found

Some expected properties do not hold of the code as it stands. Each has its exact
condition as an if-and-only-if lemma, or a concrete input.

- An update of a schedule drops the queue entry before it writes the row. When the write
  throws, as it does for a workspace or repository that does not exist and for a field
  sent as null, which validation lets through, or the queue's add throws, as it does for
  a cron expression it cannot read, the schedule stays active and never fires
  (`Schedules.UpdateKeepsAgreement`, at two concrete requests in
  `Schedules.RefusedUpdateLosesTheEntry`). Which schedules lack their entry is exact
  for every run with any failures (`Pipeline.ScheduleLacksEntry`); stray, stale and
  double entries never arise (`Pipeline.RunIsGood`). The service would also stop
  queueing a schedule given the empty cron expression, but request validation refuses
  it (`@IsNotEmpty` in `src/schedules/dto/create-schedule.dto.ts`).
- A scan whose job could not be queued stays QUEUED for ever
  (`Pipeline.ScanLacksJob`).
- `assignRole` and `removeRole` report failure and keep the changed row when the audit
  entry fails, or the cache invalidation does before its last key; then the keys before
  that one are gone and the others still show the old rows. `changeRole` rolls its rows
  back, but not the invalidation (`Roles.WhenRowsChange`, `Roles.AnswersAfterCall`).
- `changeRole` invalidates before its transaction commits, so a list read in between is
  stale after it (`Roles.ChangeLeavesReadListsStale`).
- An answer is stored without a look at what happened since its data were read. So the
  bound on staleness is the lifetime plus the time between read and store, and that bound
  is reached (`SlowReads.SlowBoundedStaleness`, `SlowReads.BoundIsReached`); a list read
  before a role call and stored after it outlives the invalidation
  (`Roles.ListReadAcrossCallIsStale`).
- After a role change, cached `userHasPermission` answers, and the cached list for a
  workspace the user is no member of, stay until they age out (`Roles.AnswersAfterCall`).
- Removing a member from a workspace ends access to the workspace but leaves every
  permission decision as it was (`Workspaces.MembershipGrantsNoPermission`).
- The unified guard never looks at `requireWorkspace`, the policy guard never at
  `workspace_id`, and of a request with both spellings the permission guard reads
  `workspaceId` and the unified guard `workspace_id`; for SUPER users the guards read an
  unset `allowSuper` differently (`GuardComposition.MissedIdSplitsTheGuards`,
  `GuardComposition.TwoSpellingsSplitTheGuards`, `GuardComposition.SnakeCaseSplitsTheGuards`,
  `GuardComposition.UnsetSuperFlagSplitsTheGuards`,
  `GuardComposition.OneFlagStopsTheUnifiedGuard`).
- A request without a user id is refused by the unified guard on every route that has any
  metadata, even an empty list of permissions; the permission guard falls back on `sub`
  (`GuardComposition.UnauthenticatedSplitsTheGuards`).
- The known permission `WORKSPACE:CREATE` is in no plan: a policy that asks for it refuses
  under every plan and names none (`GuardComposition.WorkspaceCreateIsInNoPlan`).
- Hour keys are not padded, and weekdays and months are keyed by name, so the time series
  of a day, a week and a year are not in time order (`Usage.DayKeysSortByHour`,
  `Usage.WeekKeysSortByName`, `Usage.YearKeysSortByName`).
- A session row expires seven days after its token, because the configured lifetime is
  added to a default of seven days instead of replacing it (`Sessions.RowOutlivesToken`).
- A validation answers every throwing call as a rejection, so a live token can be
  rejected and accepted again (`Sessions.FailedValidationIsForgotten`,
  `Sessions.RejectedThenAccepted`); a rejection in which no call throws is permanent
  (`Sessions.RejectionIsPermanent`).
- A magic link is spent without a session when the audit entry or the session write
  fails (`Sessions.FailureMaySpendTheLink`).
- A scan whose SCAN_COMPLETED entry cannot be written ends FAILED with results and
  completion time set (`PipelineServices.HandlerOutcome`).

Where documentation and code differ, the model follows the code:
`docs/overview/authentication.md` speaks of thirty-day refresh tokens, the code defaults
to seven days; comments give the cache lifetime of 300 in seconds, the unit being the
cache library's, so the model counts ticks.

## Model

| member | source | states |
|---|---|---|
| `Access.DecideMeaning` | src/permissions/permissions.service.ts:39-109 | access is granted exactly to an existing user who is SUPER, holds a role with the code globally or in the workspace, or owns the workspace |
| `Access.ListMeaning` | src/permissions/permissions.service.ts:173-248 | exactly which codes the list holds: every permission for SUPER, else role codes plus the workspace-scoped ones for the owner |
| `Access.ListAgreesWithDecide` | src/permissions/permissions.service.ts:161-249 | every listed code is granted and listed once, and exactly when a granted code is not listed |
| `Directories.MayManageMeaning` | src/scans/scans.service.ts:32-43 | the test on the first membership row means SUPER, owner or ADMIN member, given unique rows |
| `PermissionCache.KeysUnambiguous` | src/permissions/permissions.service.ts:32 | over all key families, queries with colon-free ids share a key exactly when they are the same query up to the spelling of absent parts |
| `PermissionCache.KeysRead` | src/permissions/permissions.service.ts:32 | how the keys of all families read |
| `PermissionCache.SameKeySameAnswer` | src/permissions/permissions.service.ts:166 | well-formed queries that share a key have the same answer on every database |
| `PermissionCache.GlobalCollides` | src/permissions/permissions.service.ts:32 | a workspace id "global" would share a key with a query of another answer |
| `PermissionCache.ColonCollides` | src/permissions/permissions.service.ts:32 | so would a user id with a colon |
| `PermissionCache.KeysToClearMeaning` | src/permissions/permissions.service.ts:364-378 | the keys to delete are those of the user's lists in the global context and in each workspace the user is a member of, and of no other query |
| `PermissionCache.RunIsBacked` | src/permissions/permissions.service.ts:24-109 | in every run each cache entry was computed from the data of an earlier instant, the one it is stamped with |
| `PermissionCache.BoundedStaleness` | src/permissions/permissions.service.ts:24-109 | in every run every answer equals the uncached one on the data as it stood at most the lifetime ago |
| `PermissionCache.AnswersWereRight` | src/permissions/permissions.service.ts:24-109 | in every run every answer of every kind, a plan among them, was right on the data at some instant at most the lifetime ago |
| `PermissionCache.MissIsAnsweredRightly` | src/permissions/permissions.service.ts:38-109 | an answer not cached is right on the data as they are, is given for three hundred ticks whatever becomes of them, and is right on the new data after |
| `PermissionCache.FillKeepsAnswers` | src/permissions/permissions.service.ts:60-108 | answering one query changes the answer to no other |
| `PermissionCache.ClearReaches` | src/permissions/permissions.service.ts:364-385 | clearing a user drops exactly that user's list entries for the global context and each membership |
| `PermissionCache.ClearPlanReaches` | src/plans/plans.service.ts:327-330 | after clearing, the next answer is the plan now stored, and no other answer changes |
| `SlowReads.RunIsTraced` | src/permissions/permissions.service.ts:161-249 | in every run with reads and stores apart, each entry was computed from data read at most the given time before it was stored |
| `SlowReads.SlowBoundedStaleness` | src/permissions/permissions.service.ts:24-109 | every answer equals the uncached one on the data as it stood at most the lifetime and that time ago |
| `SlowReads.BoundIsReached` | src/permissions/permissions.service.ts:24-109 | for any such time and any change of the permissions there is a run whose answer is that old |
| `PermissionsServices.PermissionsService.UserHasPermission` | src/permissions/permissions.service.ts:24-114 | the reply is the cached answer, or on a miss whether the user may use the permission, which is stored; when any of its calls throws, access is refused and nothing is stored |
| `PermissionsServices.FailedCheckRefuses` | src/permissions/permissions.service.ts:110-113 | exactly which failing call makes a check refuse without storing |
| `PermissionsServices.PermissionsService.UserHasAnyPermission` | src/permissions/permissions.service.ts:122-134 | whatever checks fail, the loop is the fold whose law is `AnyOfMeaning` |
| `PermissionsServices.PermissionsService.UserHasAllPermissions` | src/permissions/permissions.service.ts:142-154 | whatever checks fail, the loop is the fold whose law is `AllOfMeaning` |
| `PermissionsServices.AnyOfMeaning` | src/permissions/permissions.service.ts:122-134 | admits only holders of a granted code, refuses nobody whose check of a granted code goes through, changes no later answer |
| `PermissionsServices.AllOfMeaning` | src/permissions/permissions.service.ts:142-154 | admits only holders of every code, admits all of them when no check fails, changes no later answer |
| `PermissionsServices.CoherentLoopsDecide` | src/permissions/permissions.service.ts:122-154 | on a coherent cache the loops are the exists and forall of the uncached decision, err only towards refusing when calls fail, and keep the cache coherent |
| `PermissionsServices.PermissionsService.GetUserPermissions` | src/permissions/permissions.service.ts:161-249 | the cached list, or on a miss exactly the codes the user may list, which is stored; nothing returned or stored when a call throws |
| `PermissionsServices.PermissionsService.ClearUserPermissionCache` | src/permissions/permissions.service.ts:364-385 | deletes the keys in order and, when it throws, has deleted exactly those before |
| `PermissionsServices.PlansService.GetUserPlan` | src/plans/plans.service.ts:76-92 | the cached plan, or on a miss the plan stored for the user and STARTER for an unknown one; nothing when a call throws |
| `PermissionsServices.PlansService.ClearUserPlanCache` | src/plans/plans.service.ts:327-330 | drops exactly the user's plan entry, or nothing when the call throws |
| `Roles.RolesService.AssignRole` | src/roles/roles.service.ts:24-124 | for every failing call, the step whose laws are `OutcomeExactly`, `RowsExactly` and `AnswersAfterCall` |
| `Roles.RolesService.RemoveRole` | src/roles/roles.service.ts:133-203 | deleting the found row by id removes exactly that assignment; the same laws hold for every failing call |
| `Roles.RolesService.ChangeRole` | src/roles/roles.service.ts:212-311 | the delete loop and the new row commit together or not at all, whatever fails; the same laws hold |
| `Roles.RolesService.DeleteRows` | src/roles/roles.service.ts:258-263 | the loop deletes exactly the rows with the given ids |
| `Roles.RolesService.VerifyAssignerPermission` | src/roles/roles.service.ts:391-409 | the check `OutcomeExactly` speaks of: owner, or the answer for WORKSPACE:MANAGE_ROLES, refused when that check fails |
| `Roles.PerformKeepsSound` | prisma/schema.prisma:130-144 | a call keeps ids and (user, role, workspace) unique and references intact |
| `Roles.RunKeepsRowsUnique` | prisma/schema.prisma:142 | so does every run of role calls mixed with queries, eviction and time |
| `Roles.WhenRowsChange` | src/roles/roles.service.ts:69-123 | for every failing call, exactly when rows change, when success is reported, and when a failed call leaves a change |
| `Roles.OutcomeExactly` | src/roles/roles.service.ts:24-311 | which outcome every call has; rows change and Done is answered only for an actor who owns the workspace or is answered yes for managing its roles |
| `Roles.EntitledMeaning` | src/roles/roles.service.ts:391-409 | on a coherent cache that is the owner and whoever may use that permission there |
| `Roles.RowsExactly` | src/roles/roles.service.ts:85-275 | the rows each successful call leaves, in order |
| `Roles.ChangeReplaces` | src/roles/roles.service.ts:257-275 | after a change the assignments of the user in the workspace are exactly the new role, all others untouched and in order |
| `Roles.ChangeResolves` | src/permissions/permissions.service.ts:205-243 | a user who is neither SUPER nor owner then resolves to global permissions plus those of the new role |
| `Roles.AssignRemoveEffect` | src/roles/roles.service.ts:85-95 | assigning and removing change exactly one (user, role, workspace) |
| `Roles.AnswersAfterCall` | src/roles/roles.service.ts:110-111 | what every query answers after any call, failed or not: which are computed afresh, which keep their cached answer, and that no other user's entry is dropped |
| `Roles.OnlyListsDropped` | src/permissions/permissions.service.ts:364-385 | a call that runs to its end drops exactly the user's lists for the global context and each membership; an interrupted one drops no others |
| `Roles.ListsAreFresh` | src/roles/roles.service.ts:297-298 | after a successful call those lists are computed from the new rows |
| `Roles.ListReadAcrossCallIsStale` | src/permissions/permissions.service.ts:161-249 | a list read before a successful call and stored after it shows the old rows for a whole lifetime, though the call dropped it |
| `Roles.ChangeLeavesReadListsStale` | src/roles/roles.service.ts:257-303 | with other requests answered between invalidation and commit, a dropped list shows the old rows exactly when one of them asked for it |
| `Roles.CallIsARun` | src/roles/roles.service.ts:212-311 | every call, failed or not, is a run of cache steps, so bounded staleness covers it |
| `Scans.WorkKeeps` | src/scans/scans.processor.ts:20-71 | every await of every worker keeps scans, jobs, workers and audit consistent |
| `Scans.WorkTerminates` | src/scans/scans.processor.ts:20-71 | a job stops after at most nine awaits whatever fails |
| `Scans.ScanCreationExactly` | src/scans/scans.service.ts:17-76 | reply, row, job and audit entry for every request, user and failing call; nothing changes for who does not manage the workspace |
| `Scans.ScanRemovalExactly` | src/scans/scans.service.ts:177-226 | reply, rows and audit entry for every request; nothing changes for who does not manage the workspace |
| `Pipeline.StepKeepsGood` | src/schedules/schedules.service.ts:20-313 | every event of the pipeline, failing anywhere, keeps the invariant and moves scans only forward |
| `Pipeline.RunIsGood` | src/schedules/schedules.service.ts:20-313 | in every reachable state, whatever failed, each queue entry belongs to an active schedule and has its cron, none is double, and rows refer to existing rows |
| `Pipeline.ScheduleLacksEntry` | src/schedules/schedules.service.ts:180-194 | in every run an active schedule lacks its entry exactly when a named event took it and none since mended it |
| `Pipeline.QueueAgrees` | src/schedules/schedules.service.ts:20-80 | rows and queue agree, one entry for each active schedule, exactly when no schedule has lost its entry so; in particular while no call has lost one |
| `Pipeline.ScanLacksJob` | src/scans/scans.service.ts:46-61 | a scan row exists without a job exactly when the queue's add threw as it was created; such a scan stays QUEUED |
| `Pipeline.ScansMoveForward` | src/scans/scans.service.ts:228-248 | between any two states of a run no status moves back, completion data is kept, and no deleted scan reappears |
| `Pipeline.RemovedScanStaysGone` | src/scans/scans.service.ts:177-226 | after a permitted removal whose delete goes through the scan is in no later state |
| `Pipeline.AuditedOnceAfterCompletion` | src/scans/scans.processor.ts:47-59 | each scan gets at most one SCAN_COMPLETED entry, only after a state where it was COMPLETED without one |
| `Pipeline.EveryFiringFindsItsSchedule` | src/schedules/schedules.service.ts:293-313 | in every reachable state firing a job finds an active schedule; it adds exactly one scan and one job, nothing, or exactly when the add throws a scan alone |
| `PipelineServices.ScansService.Create` | src/scans/scans.service.ts:17-76 | for every failing call, the step whose laws are `ScanCreationExactly` and `ScanLacksJob` |
| `PipelineServices.ScansService.Remove` | src/scans/scans.service.ts:177-226 | for every failing call, the step whose laws are `ScanRemovalExactly` and `RemovedScanStaysGone` |
| `PipelineServices.ScansService.UpdateScanStatus` | src/scans/scans.service.ts:228-248 | find then write; completion data only for COMPLETED; throws when the row is gone |
| `PipelineServices.ScansProcessor.HandleScan` | src/scans/scans.processor.ts:20-71 | the handler run alone equals the step machine run to its end, for every set of failing calls |
| `PipelineServices.HandlerOutcome` | src/scans/scans.processor.ts:20-71 | the final status, results and audit of a job for every combination of failing calls |
| `PipelineServices.FirstCallFails` | src/scans/scans.processor.ts:63-70 | a job whose scan is gone or whose first call throws changes nothing but possibly the status to FAILED |
| `PipelineServices.SchedulesService.CreateSchedule` | src/schedules/schedules.service.ts:20-80 | for every failing call, the step whose laws are `CreateWritesExactly`, `CreateLeaves` and `CreatedScheduleFires` |
| `PipelineServices.SchedulesService.UpdateSchedule` | src/schedules/schedules.service.ts:147-207 | for every failing call, dangling reference and null field, the step whose laws are `UpdateWritesExactly`, `UpdateQueuesExactly` and `UpdateLeaves` |
| `PipelineServices.SchedulesService.RemoveSchedule` | src/schedules/schedules.service.ts:210-264 | for every failing call, the step whose laws are `RemoveWritesExactly` and `RemoveLeaves` |
| `PipelineServices.SchedulesService.AddToQueue` | src/schedules/schedules.service.ts:266-281 | where the schedule has no entry, exactly its entry is added; a key already there adds nothing |
| `PipelineServices.SchedulesService.RemoveFromQueue` | src/schedules/schedules.service.ts:283-291 | in a queue that fits its rows, exactly the schedule's entry goes, and nothing when the queue throws |
| `PipelineServices.SchedulesService.Trigger` | src/schedules/schedules.service.ts:293-313 | for every failing call, the step whose law is `FiringCreatesOneScan` |
| `Schedules.RemovalRemovesExactly` | src/schedules/schedules.service.ts:283-291 | with one entry a job, first-match removal removes exactly the schedule's entry |
| `Schedules.CreateWritesExactly` | src/schedules/schedules.service.ts:20-80 | reply, row with its defaults and audit entry for every request, user and failing call |
| `Schedules.UpdateWritesExactly` | src/schedules/schedules.service.ts:147-207 | reply, row field by field and audit entry for every request, user and failing call; no other row changes |
| `Schedules.UpdateQueuesExactly` | src/schedules/schedules.service.ts:180-194 | exactly the entries the schedule has after an update the queue takes, and that no other entry changes |
| `Schedules.InactiveStaysInactive` | src/schedules/schedules.service.ts:180-194 | an inactive schedule whose update does not activate it stays inactive and gains no entry, whatever fails |
| `Schedules.UpdateParts` | src/schedules/schedules.service.ts:181-192 | the conditions of an update, dropping, adding and being refused by the database, read off the request |
| `Schedules.RemoveWritesExactly` | src/schedules/schedules.service.ts:210-264 | reply, rows, entries and audit entry for every request, user and failing call |
| `Schedules.CreateLeaves` | src/schedules/schedules.service.ts:48-64 | whatever fails, no stray entry; a schedule without entry exactly when the add throws for an active one |
| `Schedules.UpdateLeaves` | src/schedules/schedules.service.ts:180-194 | whatever fails and whatever the update names, exactly which schedules lack their entry afterwards, and exactly when an entry is stale |
| `Schedules.RemoveLeaves` | src/schedules/schedules.service.ts:243-251 | whatever fails, no stray entry; a schedule without entry exactly when deleting an active row throws |
| `Schedules.CreateKeepsAgreement` | src/schedules/schedules.service.ts:48-64 | create keeps rows and queue in agreement exactly unless the row is written and the add throws for an active schedule |
| `Schedules.UpdateKeepsAgreement` | src/schedules/schedules.service.ts:180-194 | update keeps them in agreement exactly unless it drops the entry and its write throws, its add throws, or it empties the cron |
| `Schedules.RefusedUpdateLosesTheEntry` | src/schedules/schedules.service.ts:181-189 | at two accepted requests, one naming a workspace that does not exist and one with a null field, the entry is dropped, the write throws and the schedule stays active |
| `Schedules.RemoveKeepsAgreement` | src/schedules/schedules.service.ts:243-251 | remove keeps them in agreement exactly unless deleting an active row throws |
| `Schedules.FiringCreatesOneScan` | src/schedules/schedules.service.ts:293-313 | firing a fitting entry adds one QUEUED scan copied from the schedule and one job, and exactly which of them when a call throws |
| `Schedules.CreatedScheduleFires` | src/schedules/schedules.service.ts:48-64 | a schedule created active is queued with its cron, and firing it creates the scan the request described, defaults included |
| `Schedules.UpdatedScheduleFires` | src/schedules/schedules.service.ts:185-189 | after an update the row and the fired scan have each given field and keep each omitted one, and no other schedule changed |
| `Usage.TimeKeysDistinguishUnits` | src/analytics/analytics.service.ts:286-299 | two instants share a key exactly when they share the calendar unit |
| `Usage.KeysRead` | src/analytics/analytics.service.ts:286-299 | how a time key reads: the hour as a number and ":00", the names of weekdays and months, the day as two digits |
| `Usage.MonthKeysSortByDay` | src/analytics/analytics.service.ts:292-293 | padded day keys sort in calendar order |
| `Usage.DayKeysSortByHour` | src/analytics/analytics.service.ts:288-289 | exactly which pairs of hours sort in time order |
| `Usage.WeekKeysSortByName` | src/analytics/analytics.service.ts:290-291 | exactly which pairs of weekdays sort in time order |
| `Usage.YearKeysSortByName` | src/analytics/analytics.service.ts:294-295 | exactly which pairs of months sort in time order |
| `Usage.SumIgnoresOrder` | src/plans/usage.service.ts:81-82 | figures do not depend on the order of the logs |
| `Usage.SumIsSumOfParts` | src/analytics/analytics.service.ts:115-148 | a figure equals the sum of its parts along any other dimension |
| `Usage.SelectMeaning` | src/plans/usage.service.ts:62-82 | which rows a query returns |
| `Reports.AddCount` | src/analytics/analytics.service.ts:44-48 | the initialiser that also fires on 0 is harmless |
| `Reports.AnalyticsUserStats` | src/analytics/analytics.service.ts:32-59 | the loop's tables hold exactly the keys seen, with their sums |
| `Reports.AnalyticsWorkspaceStats` | src/analytics/analytics.service.ts:109-159 | so do the resource, user and time tables of a workspace report |
| `Reports.UsageUserStats` | src/plans/usage.service.ts:84-112 | so does the usage service's own loop |
| `Reports.GetTimeSeriesData` | src/analytics/analytics.service.ts:225-261 | one bucket for each key seen, strictly increasing, with its sums; its keys read as `Usage.KeysRead` says |
| `Reports.LogHasItsDay` | src/analytics/analytics.service.ts:235-243 | in a month series every log has the bucket of its calendar day |
| `Reports.SortByTime` | src/analytics/analytics.service.ts:255-260 | the sort yields the same buckets in strictly increasing order |
| `Reports.TotalCount` | src/analytics/analytics.service.ts:153-155 | the reduction is the sum of all counts |
| `Reports.OneMoreLog` | src/analytics/analytics.service.ts:115-148 | what one more log adds to every figure of a report |
| `Reports.EmptyReport` | src/analytics/analytics.service.ts:109-159 | without logs a report is empty |
| `Reports.OneMoreLogInSeries` | src/analytics/analytics.service.ts:234-253 | what one more log adds to a time series |
| `Reports.OneMoreRow` | src/plans/usage.service.ts:124-185 | what one more row adds to the direct sums |
| `Reports.AggregatorsAgree` | src/plans/usage.service.ts:92-110 | the two services compute equal tables from the same logs in any order |
| `Reports.DirectSumAgrees` | src/plans/usage.service.ts:124-146 | the direct sums equal the report's totals over the same window, 0 when absent |
| `Reports.ResourceFilterRestricts` | src/plans/usage.service.ts:62-82 | asking for one resource gives that resource's figures and no others |
| `Reports.DailyAtMostMonthly` | src/plans/usage.service.ts:158-180 | with non-negative counts daily usage is at most monthly usage |
| `Reports.WorkspaceIsSumOfMembers` | src/analytics/analytics.service.ts:76-130 | each resource total and by-action count of a workspace is the sum over its members' own reports |
| `Reports.UserEntriesAreOwnTotals` | src/analytics/analytics.service.ts:132-147 | each user entry is that user's own total, and only members have entries |
| `Reports.ReportConserves` | src/analytics/analytics.service.ts:109-159 | total usage is the sum over resources, users and buckets; each resource total over actions, users' shares and buckets' shares |
| `Reports.UserSharesConserve` | src/analytics/analytics.service.ts:141-147 | a user's shares add up to that user's total |
| `Reports.BucketPartsConserve` | src/analytics/analytics.service.ts:245-252 | a bucket's parts add up to its total |
| `Sessions.TokensService.GenerateRefreshToken` | src/auth/tokens.service.ts:36-86 | for every failing call, the row and token whose life `MintedTokenLives` and `RowOutlivesToken` describe |
| `Sessions.TokensService.ValidateRefreshToken` | src/auth/tokens.service.ts:91-134 | for every failing call; accepts exactly while the row passes, by `ListedSessionsPass`, and rejects for good unless a call throws, by `RejectionIsPermanent` and `FailedValidationIsForgotten` |
| `Sessions.TokensService.RevokeRefreshToken` | src/auth/tokens.service.ts:139-159 | for every failing call and every set of rows the filter of a token without `jti` matches; a token so revoked is rejected for good, by `RejectionIsPermanent` |
| `Sessions.TokensService.RevokeAllUserRefreshTokens` | src/auth/tokens.service.ts:164-176 | marks exactly the user's rows, or none when the call throws, with the effect `RevokeAllKillsExactly` states |
| `Sessions.MintExactly` | src/auth/tokens.service.ts:36-86 | the row and token of every mint, with both lifetimes in milliseconds |
| `Sessions.ValidateExactly` | src/auth/tokens.service.ts:91-134 | which tokens a validation accepts, for whom, and what it changes |
| `Sessions.RevokeExactly` | src/auth/tokens.service.ts:139-176 | which rows each revocation marks |
| `Sessions.RejectionIsPermanent` | src/auth/tokens.service.ts:91-176 | over every run a token once revoked, or rejected by a validation in which no call throws, is rejected by every later validation |
| `Sessions.FailedValidationIsForgotten` | src/auth/tokens.service.ts:120-133 | a rejection in which a call throws changes nothing: it hits a live token exactly when it would have been accepted, which is then accepted exactly while it verifies and its row passes |
| `Sessions.RejectedThenAccepted` | src/auth/tokens.service.ts:120-133 | such a run exists |
| `Sessions.MintedTokenLives` | src/auth/tokens.service.ts:36-176 | over every run with any failing calls a minted token is accepted exactly until it or its row expires or a revocation that goes through touches its row |
| `Sessions.RevokeAllKillsExactly` | src/auth/tokens.service.ts:164-176 | revoking all rejects exactly the tokens of that user's sessions |
| `Sessions.ListedSessionsPass` | src/auth/tokens.service.ts:181-198 | a session is listed exactly when its row passes validation, except at the instant of expiry |
| `Sessions.RowOutlivesToken` | src/auth/tokens.service.ts:42-59 | exactly when the row outlives the token, and by how much |
| `Sessions.RunIsOneWay` | prisma/schema.prisma:147-182 | between any two states of a run no flag clears, no expiry or owner changes, no value is reused |
| `Sessions.PasswordlessService.CreateMagicLink` | src/auth/passwordless/passwordless.service.ts:33-72 | for every failing call, the link whose life `CreatedLinkLives` describes |
| `Sessions.PasswordlessService.VerifyMagicLink` | src/auth/passwordless/passwordless.service.ts:78-155 | for every failing call and every row the query may return, the step whose laws are `SuccessConsumesOneLink` and `FailureMaySpendTheLink` |
| `Sessions.CreateLinkExactly` | src/auth/passwordless/passwordless.service.ts:33-72 | the row and token of every link |
| `Sessions.VerifyLinkExactly` | src/auth/passwordless/passwordless.service.ts:78-155 | which links a verification accepts and what it changes |
| `Sessions.SuccessConsumesOneLink` | src/auth/passwordless/passwordless.service.ts:86-109 | a success consumes exactly one unused, unexpired link of that user and mints exactly one session |
| `Sessions.FailureMaySpendTheLink` | src/auth/passwordless/passwordless.service.ts:106-155 | a verification changes something without success exactly when the link is spent and a later call throws, and what it then leaves |
| `Sessions.CreatedLinkLives` | src/auth/passwordless/passwordless.service.ts:86-98 | over every run a link can be used exactly while its time lasts and nothing consumed it |
| `Sessions.LinksAreConserved` | src/auth/passwordless/passwordless.service.ts:23-109 | over every run successes never exceed the links used, nor those the links created |
| `Plans.MinimumPlanDecides` | src/plans/maps/plan-permission.map.ts:136-176 | a plan includes a permission exactly from the minimum plan up; when a message exists and which plan it names |
| `Plans.MessageNamesPlan` | src/plans/maps/plan-permission.map.ts:175 | messages of different plans differ |
| `Plans.MessageReads` | src/plans/maps/plan-permission.map.ts:175 | how the message of each plan reads |
| `Plans.TablesGrow` | src/plans/constants/plan-features.ts:45-144 | features grow with the plan, and every limit with every step up |
| `Plans.TablesRead` | src/plans/constants/plan-features.ts:45-144 | the least plan with each feature, and each limit from plan to plan |
| `Plans.PercentageIsNearest` | src/plans/plans.service.ts:145-158 | use is allowed exactly below the limit; the percentage is the nearest whole one, and how it relates to the decision |
| `GuardComposition.UnifiedRefinesTheThree` | src/permissions/guards/unified-auth.guard.ts:24-282 | the three guards all allow exactly when the unified one does and no required workspace is missing |
| `GuardComposition.UnauthenticatedIsRefused` | src/permissions/guards/unified-auth.guard.ts:52-56 | without a user id every guard answers Unauthorized on every route it guards, but for the fallback on sub |
| `GuardComposition.UnauthenticatedSplitsTheGuards` | src/permissions/guards/unified-auth.guard.ts:52-56 | without a user id, exactly where the three allow what the unified guard refuses, and never the reverse |
| `GuardComposition.SameContextVerdict` | src/permissions/guards/unified-auth.guard.ts:216-282 | the two implementations of ownership, membership, hours and addresses give the same verdict, text included |
| `GuardComposition.SamePolicyVerdict` | src/plans/guards/unified-policy.guard.ts:47-126 | the two implementations of the plan policy allow the same requests, and refuse a permission with the same text |
| `GuardComposition.SamePermissionVerdict` | src/permissions/guards/permission.guard.ts:28-102 | for any request, the permission guard gives the verdict of the unified check in the workspace it reads, but for a missing workspace and for SUPER |
| `GuardComposition.ThreeAllowExactly` | src/permissions/guards/unified-auth.guard.ts:24-282 | what the three guards together ask of any authenticated request, whatever ids they read and whoever asks, in terms of the unified guard's checks |
| `GuardComposition.PathParameterIsReadAlike` | src/common/utils/request.utils.ts:14-43 | with the id only as path parameter workspaceId all guards read the same one |
| `GuardComposition.MissedIdSplitsTheGuards` | src/plans/guards/unified-policy.guard.ts:155-172 | for any route and any ids, exactly when the three refuse what the unified guard allows a user who is not SUPER |
| `GuardComposition.TwoSpellingsSplitTheGuards` | src/common/utils/request.utils.ts:22-33 | at a request with both spellings, the unified guard allows the owner of one of the two workspaces and the permission guard does not |
| `GuardComposition.SnakeCaseSplitsTheGuards` | src/plans/guards/unified-policy.guard.ts:155-172 | at a request with the id only under workspace_id, the unified guard allows the owner and the policy guard does not |
| `GuardComposition.UnsetSuperFlagSplitsTheGuards` | src/plans/guards/unified-policy.guard.ts:42-45 | for a SUPER user and no flag saying no, the unified guard always allows, and the three exactly when each part whose flag is unset passes its own check |
| `GuardComposition.OneFlagStopsTheUnifiedGuard` | src/permissions/guards/unified-auth.guard.ts:494-515 | where a flag says no, exactly when the three allow a SUPER user whom the unified guard refuses, in terms of the parts; the reverse only for a missed workspace |
| `PermissionGuards.PermissionGuardDecides` | src/permissions/guards/permission.guard.ts:28-102 | the guard admits exactly as the any and all loops reply, on a coherent cache exactly by the uncached decision |
| `GuardComposition.UnifiedDecides` | src/permissions/guards/unified-auth.guard.ts:24-282 | what the unified guard allows, for every request and route, in the terms of the data: user, SUPER flags, permissions, policy, context |
| `GuardComposition.PermissionGuardAllows` | src/permissions/guards/permission.guard.ts:28-102 | what the permission guard allows a request with a user id |
| `GuardComposition.SingleGuardsDecide` | src/permissions/guards/context-aware.guard.ts:27-132 | what the policy guard and the context guard allow |
| `GuardComposition.IdsReadInOrder` | src/permissions/guards/unified-auth.guard.ts:315-333 | the order in which each guard looks for the workspace id |
| `GuardComposition.UpgradingKeepsAccess` | src/permissions/guards/unified-auth.guard.ts:147-211 | what the unified guard allows under a plan it allows under every higher one |
| `GuardComposition.UpgradingKeepsPolicyAccess` | src/plans/guards/unified-policy.guard.ts:47-126 | and so does the policy guard |
| `GuardComposition.PolicyRefusalNamesTheLeastPlan` | src/plans/guards/unified-policy.guard.ts:60-69 | the verdict of the policy guard for the plan alone names the least plan whose check passes, under every plan |
| `GuardComposition.UnifiedRefusalNamesTheLeastPlan` | src/permissions/guards/unified-auth.guard.ts:162-174 | and so does the verdict of the unified guard |
| `GuardComposition.WorkspaceCreateIsInNoPlan` | src/permissions/constants/permission-codes.ts:46 | a policy that asks for this code refuses under every plan and names none |
| `Workspaces.WorkspacesService.AddMember` | src/workspaces/workspaces.service.ts:210-298 | for every failing call, the step whose laws are `AddExactly` and `AccessChangesExactly` |
| `Workspaces.WorkspacesService.RemoveMember` | src/workspaces/workspaces.service.ts:300-372 | for every failing call, the step whose laws are `RemoveExactly`, `AccessChangesExactly` and `OwnerStays` |
| `Workspaces.WorkspacesService.CreateWorkspace` | src/workspaces/workspaces.service.ts:12-41 | for every failing call, the step whose laws are `OwnersActExactly` and `AccessChangesExactly` |
| `Workspaces.WorkspacesService.UpdateWorkspace` | src/workspaces/workspaces.service.ts:131-169 | for every failing call and null field, the step whose laws are `OwnersActExactly` and `AccessChangesExactly` |
| `Workspaces.WorkspacesService.RemoveWorkspace` | src/workspaces/workspaces.service.ts:171-208 | for every failing call and a workspace in use, the step whose laws are `OwnersActExactly` and `DeletionTakesRoles` |
| `Workspaces.AddExactly` | src/workspaces/workspaces.service.ts:210-298 | reply, row and audit entry for every request, user and failing call; only the owner and ADMIN members add |
| `Workspaces.RemoveExactly` | src/workspaces/workspaces.service.ts:300-372 | reply, rows and audit entry for every request, user and failing call; only the owner and ADMIN members remove |
| `Workspaces.OwnersActExactly` | src/workspaces/workspaces.service.ts:12-208 | reply and effect of every creation, update and deletion; only the owner updates and deletes |
| `Workspaces.OpensExactly` | src/workspaces/workspaces.service.ts:87-129 | to whom opening a workspace succeeds, is Forbidden or NotFound |
| `Workspaces.ListedExactlyIfOpenable` | src/workspaces/workspaces.service.ts:43-129 | a workspace is listed exactly when opening it succeeds, each once |
| `Workspaces.EveryRunAgrees` | src/workspaces/workspaces.service.ts:43-129 | in every reachable state that holds and membership rows are unique |
| `Workspaces.AccessChangesExactly` | src/workspaces/workspaces.service.ts:210-372 | each call changes exactly the access it names and nobody else's |
| `Workspaces.OwnerStays` | src/workspaces/workspaces.service.ts:326-329 | the owner can never be removed |
| `Workspaces.MembershipGrantsNoPermission` | src/workspaces/workspaces.service.ts:345-354 | adding and removing members changes no permission decision |
| `Workspaces.DeletionTakesRoles` | src/workspaces/workspaces.service.ts:171-208 | a deletion succeeds exactly when the owner asks, nothing refers to the workspace and no call throws; decisions there fall back to global roles and stay elsewhere |

## Left out

- The global (no workspace) branches of the role service: they depend on how the database library filters on null and undefined.
- Interleaving inside one read of a permission check, one magic-link verification or one call of the role, schedule or scan service: each is one step, except that `SlowReads` separates reading an answer from storing it, and `Roles.ChangeLeavesReadListsStale` the invalidation of a role change from its commit. Only the workers of the scan queue interleave await by await.
- `Roles.RolesService.ChangeRole`: isolation of the transaction from others that write the same rows is the database's.
- What the database library makes of an undefined filter: for tokens without a `jti` or a link value, the rows it then returns or updates are parameters (`Sessions.Target`, `Sessions.Touched`).
- `Sessions.TokensService.GenerateRefreshToken`: the configured lifetime is a number of days, of hours, or a text in another unit, as a value; parsing that text and daylight-saving shifts of calendar days are not modelled.
- `Sessions.PasswordlessService.CreateMagicLink`: starts from the user found by address.
- The order in which a query returns equal rows, and what the deletion of a workspace does to the workspace reference of older audit entries.
- `Reports.AnalyticsUserStats`: starts from the logs the query returned (any order, as `Usage.Returned` says); the empty report returned when the query throws, and the computation of the window's start, are not modelled.
- `Reports.AddCount`: tables hold only what was put there; in the source they are plain objects, so for an action or resource named like an inherited property (`constructor`) the initialiser does not fire and the count is not a number.
- `Reports.SortByTime`: the library's sort is modelled as insertion; only its result matters.
- `PolicyGuards.PolicyGuard`: texts that report counts, hours or resource kinds are fixed strings; the decision is not affected.
- Internal errors of guards (the failing-open and failing-closed paths), and time zones.
- Which cron expressions the queue can read: an unreadable one is the fault `AddFails`. A null `active` in a create request, which the database refuses before anything is queued, is the fault `WriteFails`.
- `Plans.CheckLimit`: rounds the exact share half up; the source rounds a floating-point value, which at a tie may be one less (57 of 200 is 28 there). The bounds of `Plans.PercentageIsNearest` hold of both.
- Counts behind a limit check are inputs: checking and creating are separate steps in the services, so no bound over runs follows.
- `roleHasPermission`, `getRolePermissions` and `getAllPermissions` appear as query families of the cache only.
- Registration, OAuth, password and device handling, controllers, decorators, logging, billing, seeds and mock scan results.
