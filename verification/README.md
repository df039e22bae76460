# Control plane verification

A Dafny model of the platform's control plane: its concurrency and rate gates,
the deployment lifecycle, cell routing, and the path from detected services to
a plan and an invoice. Objects the program updates in place are classes whose
methods are proved against functions on values; the theorems quantify over
every interleaving, every sequence of calls, or every input of those functions.

- `IdemStore`, `IdemProtocol`: the `idempotency_keys` table, one operation per
  SQL statement, and the protocol of `idem` as a transition system over
  arbitrary interleavings of requests, store failures, purges and clock ticks.
- `RetryClient`, `EndToEnd`: the SDK retry loop, and the loop composed with
  every server run. Retried methods are idempotent in the sense of section
  9.2.2 of RFC 9110.
- `RateLimits`, `BuildGates`, `DeployLocks`, `Webhook`, `SignupLimit`: the gates.
- `DeployState`, `Rollback`, `Revisions`, `DeletePipeline`: the lifecycle.
- `Cells`: the registry. `Cron`, `SpecPipeline`, `Invoice`: specs, plans, bills.
- `Sorting`, `Common`: string order and sorting, result types.

Time and float64 values are `real`; a `now` is passed to each operation.
Hashes, signatures, build references and handler outcomes are parameters. Go
visits a map in any order, and so do the loops here.

Where the code and its comments differ, the model follows the code:

- `CompleteIdempotency` updates by key only. Replay fidelity therefore has the
  exact condition of `IdemProtocol.FaithfulRunIff`; what breaking it does to a
  replay is `IdemProtocol.UnsafeCompletionMisleadsIff`.
- The payload hash runs method, path and body together without a separator, so
  a different request is told apart exactly as `IdemStore.SameHashIff` says. The
  query is not hashed.
- The signup limiter is a fixed window. Nine signups, not five, can fall in one
  hour, and never more; `SignupLimit.ReopeningKeepsRollingIff` says when the
  rolling reading survives a new window, `SignupLimit.QuietRunsRoll` which runs
  keep it.
- `Assign` does not unpin an earlier cell (`Cells.AssignTakesEffectIff`,
  `Cells.MoveToLaterCellIgnored`).
- `RollbackLatest` acts on the deployment of greatest id, and ids are random
  uuids, so not always on the newest (`Revisions.NewestIsActedOnIff`,
  `Revisions.OlderDeploymentActedOn`).
- `GuardStart` also accepts FAILED and DELETING (`DeployState.StartIff`).
- A response recorder that is given a header other than 200 after a write, or an
  informational header first, records a status its first caller did not see
  (`IdemStore.CapturedIsSentIff`, `IdemStore.RecordedIsNotSent`).
- An explicit empty or blank key is sent as an empty header, which the server takes for
  no key: each retry of such a PUT or DELETE runs the handler again
  (`EndToEnd.AttemptsShareSlot`).

`dafny verify dfyconfig.toml` checks the whole project. Nothing was executed.

## Model

| member | source | states |
|---|---|---|
| `IdemProtocol.ClaimsAreTtlApart` | control-plane/internal/auth/idem.go:107-127 | in every interleaving of requests, purges and clock ticks, two successful claims of one (key, org) are at least 24 hours apart |
| `IdemProtocol.ExecutionsAreTtlApart` | control-plane/internal/auth/idem.go:45-97 | two handler executions under one (key, org) belong to claims at least 24 hours apart, so at most one is started per window |
| `IdemProtocol.ClaimWinsIff` | control-plane/internal/auth/idem.go:107-127 | after any run, a claim whose two statements follow each other wins exactly when the key has no claim younger than the TTL |
| `IdemProtocol.ReplaysAreFaithful` | control-plane/internal/auth/idem.go:75-96 | if every execution completes before its row expires, every replay sent has the status and the body (an empty one as {}) of an execution earlier in the history with the same key, org and payload hash, even across expiry and re-claim |
| `IdemProtocol.FaithfulStepIff` | control-plane/internal/auth/idem.go:163-174 | one step keeps every recorded outcome under its own payload hash exactly when it is not a completion that finds another payload's row |
| `IdemProtocol.FaithfulRunIff` | control-plane/internal/auth/idem.go:163-174 | a whole run keeps that throughout exactly when each of its completions finds no row or a row with its own hash |
| `IdemProtocol.OnTimeIsSafe` | control-plane/internal/auth/idem.go:163-174 | a completion sent before its row expires always finds its own row |
| `IdemProtocol.LateCompletionMisleads` | control-plane/internal/auth/idem.go:163-174 | a concrete run in which a late UPDATE, matching on the key alone, makes a replay carry another payload's outcome |
| `IdemProtocol.UnsafeCompletionMisleadsIff` | control-plane/internal/auth/idem.go:131-174 | after any run, the repeat of the row's payload that follows a completion on an unexpired row is replayed that outcome, and justifiably so exactly when some execution of that payload had it; a safe completion always qualifies |
| `IdemProtocol.SafeReplaysAreFaithful` | control-plane/internal/auth/idem.go:131-161 | the same replay guarantee under the weaker, exact hypothesis on completions |
| `IdemProtocol.RepeatWithinTtl` | control-plane/internal/auth/idem.go:70-96 | a repeat whose statements follow each other inside the TTL of a claim runs nothing: 422 for another payload, 409 until an outcome is recorded, then that outcome |
| `IdemProtocol.FailureAnswers` | control-plane/internal/auth/idem.go:70-97 | a failing statement changes no row and is answered 500, except that a failure to record leaves the caller its outcome |
| `IdemProtocol.CleanupIsInvisible` | control-plane/internal/auth/idem.go:177-184 | the hourly purge leaves exactly the unexpired rows, and the next claim goes as without it |
| `IdemProtocol.StepKeepsInv` | control-plane/internal/auth/idem.go:45-184 | each statement, the handler, a store failure, the purge and the clock keep the invariants of table, requests and history |
| `IdemStore.KeyTable.ClaimIdempotency` | control-plane/internal/auth/idem.go:107-127 | first is returned exactly when there was no row or it had expired; otherwise nothing changes |
| `IdemStore.KeyTable.LoadIdempotentResponse` | control-plane/internal/auth/idem.go:131-161 | replay only with a recorded outcome and an equal hash; else 500, 422 or 409 in that order |
| `IdemStore.KeyTable.CompleteIdempotency` | control-plane/internal/auth/idem.go:163-174 | records status and body, an empty one as {}, on whatever row the key has, and opens no row |
| `IdemStore.KeyTable.CleanupExpiredIdempotency` | control-plane/internal/auth/idem.go:177-184 | deletes exactly the expired rows and reports how many |
| `IdemStore.KeyTable.Serve` | control-plane/internal/auth/idem.go:70-97 | an uninterrupted request runs the handler exactly when the key is free or expired, and touches no other slot |
| `IdemStore.ServeTwice` | control-plane/internal/auth/idem.go:42-97 | an uninterrupted repeat inside the TTL is answered with the status and body of the first |
| `IdemStore.Capture` | control-plane/internal/auth/idem.go:16-35 | the recorder ends with the first header written (200 if none) and the concatenated body |
| `IdemStore.BodyIsConcatenated` | control-plane/internal/auth/idem.go:30-35 | the recorded body is everything written, in order, and headers add nothing |
| `IdemStore.Classify` | control-plane/internal/auth/idem.go:37-68 | which requests pass by, are refused for want of an identity, or are guarded, and on which (key, org) |
| `IdemStore.CapturedIsSentIff` | control-plane/internal/auth/idem.go:23-35 | the recorded status is the one the first caller was sent exactly when the first header the handler sets, if any, is 200, or is a final status set before anything is written |
| `IdemStore.RecordedIsNotSent` | control-plane/internal/auth/idem.go:23-35 | inputs that fail it: a header after a write and an informational header are recorded although 200 was sent |
| `IdemStore.SameHashIff` | control-plane/internal/auth/idem.go:51-68 | with a collision-free digest, two guarded requests on rooted paths share a hash exactly when the method is the same and path and body run together alike, so equally long paths make it the same request up to its query |
| `IdemStore.OneHashTwoRequests` | control-plane/internal/auth/idem.go:67-68 | with paths of different length two different requests can share a hash |
| `RetryClient.TenaraClient.Request` | sdk/ts/src/client.ts:71-121 | attempts are identical, key included; at most maxRetries+1, and one for POST and PATCH; every answer before the last is 429 or 5xx, and GET, HEAD, PUT and DELETE give up on one only with the retries used up; a rejected fetch ends the call; r retries sleep backoffMs*(2^r-1) in total |
| `EndToEnd.OneExecution` | control-plane/internal/auth/idem.go:70-97 | for one key and payload inside one TTL and without store failures: at most one handler is started, and every answer is its own outcome, a recorded copy of it, or 409 |
| `EndToEnd.CallAgainstServer` | sdk/ts/src/client.ts:81-120 | one mutating call of the SDK, retries included, against any such server run: at most one handler is started and at most one attempt ran it, which is answered its outcome; every other routed answer is the recorded copy (5xx included) or 409; a blank key bypasses the table every time |
| `EndToEnd.HeaderIsTrimmed` | sdk/ts/src/client.ts:84-101 | white space around a key is not part of it |
| `EndToEnd.TargetIsCut` | sdk/ts/src/client.ts:101 | a target is cut at its first ? or #, and only the path is hashed |
| `EndToEnd.AttemptsShareSlot` | control-plane/internal/auth/idem.go:51-68 | a mutating attempt is guarded exactly when its key is not blank, and then always on one (key, org) and one payload hash |
| `RateLimits.TokenBucket.Allow` | control-plane/internal/limits/limits.go:38-53 | the in-place refill and charge are the bucket functions the theorems are about |
| `RateLimits.RateLimiter.Allow` | control-plane/internal/limits/limits.go:68-77 | only the caller's bucket changes, and it is created full on first use |
| `RateLimits.KeysAreIsolated` | control-plane/internal/limits/limits.go:55-77 | whatever other keys do, a key gets the answers of a bucket of its own |
| `RateLimits.WindowBound` | control-plane/internal/limits/limits.go:34-77 | any window [s, e] admits at most capacity + perMinute*(e-s) calls on a key |
| `RateLimits.DeniedOnlyWhenSpent` | control-plane/internal/limits/limits.go:34-77 | the converse: a call is denied only when the window opened by some call of its key has admitted more than its budget less one |
| `RateLimits.FirstCallsAreAdmitted` | control-plane/internal/limits/limits.go:34-52 | a key starts with its whole capacity: its first n <= capacity calls are admitted, however close together |
| `RateLimits.WaitIsExact` | control-plane/internal/limits/limits.go:47-50 | after a denial the key's next call is admitted if and only if it comes at or after now+wait |
| `RateLimits.StarvedBelowOne` | control-plane/internal/limits/limits.go:47-52 | with capacity below one nothing is ever admitted, so WaitIsExact cannot do without capacity >= 1 |
| `RateLimits.SteadyClientIsNeverDenied` | control-plane/internal/limits/limits.go:38-53 | a client leaving at least 1/perMinute between calls is never denied |
| `BuildGates.BuildGate.TryAcquire` | control-plane/internal/limits/limits.go:91-99 | admits exactly below the limit, and then counts one more |
| `BuildGates.BuildGate.Release` | control-plane/internal/limits/limits.go:102-108 | one fewer, and never below zero |
| `BuildGates.NeverOverLimit` | control-plane/internal/limits/limits.go:80-108 | in every interleaving of builds that release what they hold, the counter is the number of builds in flight and never exceeds the limit |
| `BuildGates.AdmittedIffBelowLimit` | control-plane/internal/limits/limits.go:91-99 | on every interleaving a build is admitted exactly while fewer than the limit of its org are in flight |
| `BuildGates.StrayReleaseIff` | control-plane/internal/limits/limits.go:102-108 | a release by a caller holding nothing keeps the counters true exactly when the org has nothing in flight |
| `DeployLocks.DeployLocks.Acquire` | control-plane/internal/orchestrator/deploy_state.go:96-104 | fails exactly while the app is locked |
| `DeployLocks.DeployLocks.Release` | control-plane/internal/orchestrator/deploy_state.go:107-111 | frees that app and no other |
| `DeployLocks.LocksAreAGateOfOne` | control-plane/internal/orchestrator/deploy_state.go:85-111 | on every interleaving the locks behave as a build gate of limit one |
| `DeployLocks.MutualExclusion` | control-plane/internal/orchestrator/deploy_state.go:85-111 | at most one deploy holds an app, and the app reads as busy exactly while one does |
| `Webhook.ReplayGuard.Allow` | control-plane/internal/previews/webhook.go:84-100 | the pruning loop, in any map order, keeps exactly the entries within ttl |
| `Webhook.PruningIsInvisible` | control-plane/internal/previews/webhook.go:71-100 | on a nondecreasing clock the pruned map answers as the rule over the full history: non-empty and not admitted within the last ttl |
| `Webhook.RefusalsLeaveNoTrace` | control-plane/internal/previews/webhook.go:90-97 | leaving out a refused delivery changes no later answer |
| `Webhook.Handler.ServeHTTP` | control-plane/internal/previews/webhook.go:123-161 | which of 202, 400, 401, 409 and 500 is sent, and that a hook fires only past signature, guard and payload checks |
| `Webhook.EveryCallWasAskedFor` | control-plane/internal/previews/webhook.go:44-57 | every hook call answers a signed request: opened or reopened for open, closed for close, with that hook installed |
| `Webhook.HooksFireOncePerWindow` | control-plane/internal/previews/webhook.go:123-161 | over any sequence of requests, two hook calls for one delivery id are more than ttl apart |
| `SignupLimit.Store.CheckSignupLimit` | control-plane/internal/auth/store.go:132-178 | admits when there is no row, when the window is over an hour old, or below five; a refusal changes nothing |
| `SignupLimit.WindowsAreApart` | control-plane/internal/auth/store.go:161-166 | window starts of one IP are more than an hour apart |
| `SignupLimit.FivePerWindow` | control-plane/internal/auth/store.go:167-176 | each window admits at most five |
| `SignupLimit.NinePerHour` | control-plane/internal/auth/store.go:131-178 | any span of one hour holds at most nine admitted signups of an IP |
| `SignupLimit.NineInOneHour` | control-plane/internal/auth/store.go:131-178 | nine is attained, so the limit is not five per rolling hour as its comment says |
| `SignupLimit.ReopeningKeepsRollingIff` | control-plane/internal/auth/store.go:161-166 | where a window is reopened, five per rolling hour survives every sequence of calls inside the new window exactly when the IP has no signup yet or its last one is more than an hour old |
| `SignupLimit.QuietRunsRoll` | control-plane/internal/auth/store.go:131-178 | a run whose every reopening is so spaced keeps five per rolling hour throughout |
| `SignupLimit.RefusedAfterFive` | control-plane/internal/auth/store.go:167-170 | a refused IP has five admitted signups within the hour before |
| `SignupLimit.IpsAreIsolated` | control-plane/internal/auth/store.go:131-178 | whatever other IPs do, an IP has the admissions and the row of a limiter that sees only its calls |
| `SignupLimit.RefusalsLeaveNoTrace` | control-plane/internal/auth/store.go:167-170 | deleting a refused call anywhere in a run changes no row, admission or later answer |
| `Cron.ValidateSchedule` | control-plane/internal/appspec/cron.go:13-26 | accepts exactly the accepted strings, and otherwise names the first bad field and its first bad part |
| `Cron.CheckField` | control-plane/internal/appspec/cron.go:28-35 | accepts when every part does, and otherwise returns the first bad part |
| `Cron.AcceptedIffGenerated` | control-plane/internal/appspec/cron.go:13-61 | a string is accepted if and only if the grammar of five fields of *, */n, a-b, n and comma lists generates it |
| `Cron.GrammarIsUnambiguous` | control-plane/internal/appspec/cron.go:28-61 | two parse trees of one string have the same fields |
| `Cron.PartSound` | control-plane/internal/appspec/cron.go:37-61 | an accepted part is the text of the tree it parses to |
| `Cron.PartComplete` | control-plane/internal/appspec/cron.go:37-61 | the text of every well-formed part is accepted and parses back to it |
| `Cron.AtoiReads` | control-plane/internal/appspec/cron.go:37-61 | the decimal text of n, with leading zeros and a sign, reads as n or -n within 64 bits |
| `Cron.AtoiReadsOnly` | control-plane/internal/appspec/cron.go:37-61 | nothing else reads as a number |
| `Cron.ValueAcceptedIff` | control-plane/internal/appspec/cron.go:56-60 | the text of n is an accepted part exactly when lo <= n <= hi |
| `Cron.RangeAcceptedIff` | control-plane/internal/appspec/cron.go:48-54 | the text a-b is an accepted part exactly when lo <= a <= b <= hi |
| `Cron.StepAcceptedIff` | control-plane/internal/appspec/cron.go:41-46 | the text */n is an accepted part exactly for positive 64-bit n |
| `Cron.PlainScheduleIff` | control-plane/internal/appspec/cron.go:13-26 | five numbers with white space between them are accepted exactly for a minute, hour, day, month and weekday |
| `Cron.ValueStandsFor` | control-plane/internal/appspec/cron.go:56-60 | an accepted number stands for itself |
| `Cron.RangeStandsFor` | control-plane/internal/appspec/cron.go:48-55 | an accepted a-b stands for a to b |
| `Cron.StepStandsFor` | control-plane/internal/appspec/cron.go:41-47 | an accepted */n stands for every n-th value from the start of the domain |
| `Cron.AcceptedFieldsDenote` | control-plane/internal/appspec/cron.go:18-24 | every field of an accepted schedule stands for a non-empty subset of its domain |
| `Cron.MinusOnlyAsZeroUpperBound` | control-plane/internal/appspec/cron.go:48-54 | a minus sign in a number is possible only as a zero upper bound of a range from zero |
| `DeployState.Transition` | control-plane/internal/orchestrator/deploy_state.go:76-81 | the event, with its actor and time, exactly for table moves, else the illegal-transition error |
| `DeployState.StartIff` | control-plane/internal/orchestrator/lifecycle.go:28-30 | start is allowed from STOPPED, FAILED and DELETING, and from nowhere else |
| `DeployState.StopIff` | control-plane/internal/orchestrator/lifecycle.go:22-24 | stop is allowed from RUNNING and DEGRADED only |
| `DeployState.MovesOnTrailsIff` | control-plane/internal/orchestrator/deploy_state.go:35-81 | the moves that occur on trails are exactly the table's, read backwards, each of them on some trail from PLANNED |
| `DeployState.TrailDeterminesState` | control-plane/internal/orchestrator/deploy_state.go:59-81 | the accepted events of one app start at PLANNED, link head to tail, use only table moves and fold to its state |
| `DeployState.LiveWasBuiltDeployedVerified` | control-plane/internal/orchestrator/deploy_state.go:35-57 | whenever an app is VERIFYING, RUNNING, DEGRADED, ROLLING_BACK or STOPPED, the stretch since its last PLANNED holds BUILDING, then DEPLOYING, then VERIFYING |
| `DeployState.DeletionEndsTheTrail` | control-plane/internal/orchestrator/deploy_state.go:35-81 | on every trail the event into DELETED comes from DELETING and is the last one |
| `DeployState.DeletedStays` | control-plane/internal/orchestrator/deploy_state.go:35-52 | a deleted app stays deleted whatever is asked of it |
| `DeployState.DeletedIsReachable` | control-plane/internal/orchestrator/deploy_state.go:35-52 | DELETED can be reached from every other state of the table |
| `Rollback.ResolveRollbackTarget` | control-plane/internal/orchestrator/rollback.go:47-74 | the default is the first of the scanned and signed snapshots of greatest number below current, or ErrNoRollbackPath when there is none; which error an explicit target gets |
| `Rollback.ChainVisitsEveryCandidate` | control-plane/internal/orchestrator/rollback.go:59-73 | repeated default rollbacks visit every distinct eligible number below current once, strictly decreasing, and then end |
| `Rollback.ExplicitIff` | control-plane/internal/orchestrator/rollback.go:48-57 | an explicit target succeeds exactly when it is on that chain and the first snapshot with its number is eligible, and returns what the default would |
| `Rollback.DistinctExplicitIff` | control-plane/internal/orchestrator/rollback.go:48-57 | with distinct numbers: exactly when it is on the chain |
| `Rollback.DuplicateNumberRefused` | control-plane/internal/orchestrator/rollback.go:35-42 | with a repeated number, one on the chain is refused when asked for explicitly |
| `Rollback.PlanRollback` | control-plane/internal/orchestrator/rollback.go:78-90 | an event only when both the move and the target succeed; the state guard answers first |
| `Rollback.PlannedRollbackIsSafe` | control-plane/internal/orchestrator/rollback.go:78-90 | a planned rollback starts from RUNNING or DEGRADED and lands on an eligible older revision |
| `Revisions.History.SaveRevision` | control-plane/internal/apps/deployments.go:52-85 | appends one row, or nothing at all on each error |
| `Revisions.History.RollbackTarget` | control-plane/internal/apps/deployments.go:93-109 | the second-newest row, or not enough revisions |
| `Revisions.App.RollbackLatest` | control-plane/internal/apps/store.go:476-507 | acts on the deployment of greatest id: saves its second-newest row's content again, returns that row too, even when the save fails, and touches no other deployment |
| `Revisions.NewestIsActedOnIff` | control-plane/internal/apps/store.go:482-486 | that is the newest deployment exactly when its id is above every earlier one |
| `Revisions.OlderDeploymentActedOn` | control-plane/internal/apps/store.go:482-486 | two deployments of which the older is acted on |
| `Revisions.HistoryIsNumbered` | control-plane/internal/apps/deployments.go:52-85 | over any serialised calls revisions are 1..n in insertion order and every stored digest and build reference is well formed |
| `Revisions.SaveAppendsItsContent` | control-plane/internal/apps/deployments.go:52-85 | after any calls a save appends exactly its content under the next number, or changes nothing |
| `Revisions.DigestIff` | control-plane/internal/apps/deployments.go:17 | a digest is sha256: and 64 lower-case hexadecimal digits |
| `Revisions.EarlierRowsNeverChange` | control-plane/internal/apps/deployments.go:49-85 | later calls never change or remove a row |
| `Revisions.RollbackCopiesThePrevious` | control-plane/internal/apps/store.go:494-506 | a rollback appends a copy of row n-1 and fails only below two revisions, never on the digest |
| `Revisions.TwoRollbacksRestore` | control-plane/internal/apps/store.go:474-507 | two consecutive rollbacks bring the original live content back |
| `Cells.Registry.Register` | control-plane/internal/cells/cells.go:71-89 | the error order, and the new cell last in the list |
| `Cells.Registry.Assign` | control-plane/internal/cells/cells.go:92-101 | adds one pin and changes nothing else |
| `Cells.Registry.RouteForOrg` | control-plane/internal/cells/cells.go:105-122 | the loop with a fallback returns the first pinned cell, else the first default, else ErrNoCell |
| `Cells.Registry.TargetForOrg` | control-plane/internal/cells/cells.go:126-135 | the routed cell's identity and endpoint |
| `Cells.Registry.FleetByCloud` | control-plane/internal/cells/cells.go:138-150 | every registered name once, under its own cloud, each group strictly sorted and non-empty |
| `Cells.RegistryReflectsCalls` | control-plane/internal/cells/cells.go:58-89 | names lists the map's keys without repeats, in order of the accepted registrations |
| `Cells.RouteIsEarliest` | control-plane/internal/cells/cells.go:103-122 | the route is the earliest-registered cell the org was ever assigned to, else the earliest-registered default, else none |
| `Cells.RouteIsStable` | control-plane/internal/cells/cells.go:71-122 | a successful route is unchanged by any later registrations and assignments of other orgs |
| `Cells.OthersKeepTheirRoute` | control-plane/internal/cells/cells.go:92-101 | assigning one org never changes another's route, found or not |
| `Cells.AssignTakesEffectIff` | control-plane/internal/cells/cells.go:92-113 | an org is routed to the cell it was just assigned to exactly when no earlier-registered cell was ever assigned to it |
| `Cells.MoveToLaterCellIgnored` | control-plane/internal/cells/cells.go:92-113 | with two cells, assigning an org to the earlier and then to the later leaves it on the earlier |
| `DeletePipeline.NextDeleteStep` | control-plane/internal/orchestrator/delete_pipeline.go:55-69 | the least missing step; unknown ids fail closed; complete exactly when all seven are there |
| `DeletePipeline.DriveEmitsTheMissing` | control-plane/internal/orchestrator/delete_pipeline.go:53-69 | from any valid list the driver emits exactly the missing steps, strictly increasing |
| `DeletePipeline.DriveCompletes` | control-plane/internal/orchestrator/delete_pipeline.go:53-69 | and then the pipeline reports completion |
| `DeletePipeline.DriveLength` | control-plane/internal/orchestrator/delete_pipeline.go:53-69 | after exactly seven minus the number of distinct steps done |
| `DeletePipeline.DrivePurgesLast` | control-plane/internal/orchestrator/delete_pipeline.go:36-69 | when the driver purges the data, that is its last step and steps 1 to 6 were done or driven before |
| `DeletePipeline.RestoreWindowOpen` | control-plane/internal/orchestrator/delete_pipeline.go:98-105 | open when no step of at least 4 is done |
| `DeletePipeline.WindowOpenIff` | control-plane/internal/orchestrator/delete_pipeline.go:96-105 | on lists grown from empty the window is open exactly while the next step is at most 4 |
| `DeletePipeline.WindowNeverReopens` | control-plane/internal/orchestrator/delete_pipeline.go:96-105 | once closed it stays closed |
| `SpecPipeline.Generate` | analyzer/internal/generator/generator.go:57-93 | succeeds exactly with at least one service and only node, python and go; in every map order a service is a frontend exactly for five frameworks; unsupported dirs are listed once each |
| `SpecPipeline.BuildRouting` | analyzer/internal/generator/generator.go:95-130 | one / route to a frontend and one /api route to a backend where they exist; routing no larger than the services, so the rewrite branch is dead |
| `SpecPipeline.RoutedByFramework` | analyzer/internal/generator/generator.go:95-130 | / goes to a service of a frontend framework and /api to another, wherever there is one |
| `SpecPipeline.GeneratedSizes` | analyzer/internal/generator/generator.go:90-139 | confidence has exactly one entry more than routing |
| `SpecPipeline.Validate` | control-plane/internal/appspec/spec.go:74-109 | the verdict of the two scans does not depend on the map order, and the error returned names the first check of version, services, then routes that fails |
| `SpecPipeline.GeneratedValidatesIff` | control-plane/internal/appspec/spec.go:74-109 | what the analyzer emits validates exactly when no service directory is blank |
| `SpecPipeline.RenderPlan` | control-plane/internal/orchestrator/plan/generator.go:52-91 | a plan exactly for complete identifiers and HTTP services; services are the spec's keys, each once, strictly sorted; else the kind refused is that of the least-named service without an estimate |
| `SpecPipeline.ShortIdIs` | control-plane/internal/orchestrator/plan/generator.go:57 | the short id is the id up to its first dash |
| `SpecPipeline.AnalyzeToPlan` | control-plane/internal/orchestrator/plan/generator.go:52-91 | analysis, validation and plan in a row end in a plan exactly for supported services in non-blank directories and complete identifiers, listing exactly those directories, strictly sorted, 250m and 256 MB for a frontend framework and 500m and 512 MB otherwise |
| `Invoice.AggregateInvoice` | control-plane/internal/billing/invoice.go:29-54 | each line present with its quantity, rate and amount, and a total that is their sum |
| `Invoice.Round2Is` | control-plane/internal/billing/invoice.go:56 | quantities are rounded to the nearest hundredth, a half up |
| `Invoice.OverageAccuracy` | control-plane/internal/billing/invoice.go:37-44 | the overage never exceeds extra*rate by more than 0.005*rate nor falls short by 0.005*rate + 1 cents or more |
| `Invoice.OverageMonotone` | control-plane/internal/billing/invoice.go:37-44 | more CPU hours never cost less |
| `Invoice.CompareInvoices` | control-plane/internal/billing/invoice.go:25-54 | totals are at least the base, monotone in CPU hours and independent of build minutes |

## Left out

- Store errors that take effect although the caller sees a failure: a failing
  statement of the idempotency protocol has no effect in the model.
- Concurrent first signups of one IP: the loser of the insert gets a store error,
  and calls are taken as serialised by the row lock.
- Interleaved `SaveRevision` calls: the maximum and the insert are two statements,
  and the properties are stated for serialised calls.
- 32-bit revision numbers and 64-bit cents: integers are unbounded, except in
  the numbers of a cron field.
- Rounding of float64 token levels, waits and prices, and the nanosecond
  truncation of a wait.
- Lower and upper case outside ASCII in HTTP method names of the SDK.
- What a URL goes through between SDK and server besides losing its query and
  fragment: percent-decoding, dot segments and the path of the base URL.
- Header values that fetch refuses: the call then fails without a request.
- The JSON parsing of a response by the SDK, and the text of problem documents.
- The text of errors; where a plan, a spec or a schedule is refused, the model
  keeps which check refused it.
- HMAC and SHA-256: a signature is valid or not, a digest is a function.
- `AffectedApps`, `PreviewEnvName`, retention periods and restart guards: one-line
  filters and comparisons.
- HTTP handlers, JSON decoding, SQL drivers, mail, OAuth and log fetching: plumbing.
- Providers, controllers, web consoles, MCP tools and generated code.
- RevisionRow.createdAt, AuditEvent.AppID: the first is a parameter, the second
  is left empty by `Transition`, so the model keeps one trail per app.
