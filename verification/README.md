# Trackmate: a verified model of its delivery, review and rendering core

Trackmate is a Telegram bot with a background worker over PostgreSQL. This project models the rows and the steps
that change them, and proves what holds over every run: every interleaving, every failed statement, every crash.
Telegram, the clocks and other processes are the environment, and may do anything. `dafny verify dfyconfig.toml`
checks the project.

- **RetryLedger, DeliveryErrors, DeliveryProtocol, DrainLoops**: worker deliveries. An outbox with claims and
  five-minute leases, a retry ledger with backoff and suspension, compensation by deletion. DeliveryProtocol is a
  state machine whose actions are single statements, requests, commits and crashes; DrainLoops writes out the three
  loops (alerts, progress events, notices of automatic closes), other processes acting between their statements, and
  shows that what they do is a run of that machine and that they end. The termination measure is a set of (row,
  remaining attempt) pairs.
- **MonthlyReports**: reserve by insert, send once, compare-and-set the outcome, with any number of publishers.
- **Calendar, GoalReviews**: seasons, fortnightly review Sundays, and the weekly and final reviews of a goal set.
- **Streaks, Checkins, PlanSnapshots**: routines. The streak fold against a declarative notion of a block, the life
  of a check-in, and which list a check-in carries when the plan changes.
- **DailyEntries**: tasks and evening summaries, the pending input, late reports, progress events.
- **EntityRendering, Brackets, NamedBrackets, EntityNesting, EntityExchange**: HTML from entities at UTF-16 offsets
  (section 2.1 of RFC 2781), when every tag closes its own entity, and when the tags are balanced by name.
- **Callbacks**: the printers and the parser of callback data.
- **Updates**: the polling loop with replays, and the final review that absorbs them.

Dates are day numbers, instants are seconds, and a time zone is a function from instants to local days or from days
to instants, with only monotonicity assumed. Every transaction is one atomic step. A class such as
`DrainLoops.Worker` carries, as ghost state, the list of machine actions it has performed, so that what is proved of
runs holds after any calls of its methods. What the database and Telegram answered is ghost state too, so that
contracts can say what follows from which answer.

## Where the code and expectations part

Each of these has a lemma with a concrete input, next to the exact condition under which the expected property holds.

- Eight failures are guaranteed to take 127 minutes if and only if the clock that records them never lags behind the
  clock that gates them (`RetryLedger.FullBackoffIffNoLag`). The drain loops gate on the database clock and record with the instant their
  stage began, so every minute a stage has been busy shortens each delay by one, and after 64 minutes eight failures of
  one row follow each other without a pause (`RetryLedger.MinSpacingIsExact`,
  `RetryLedger.StageClockCancelsTheBackoff`).
- `docs/architecture.md:202` calls an open routine card neutral for the streak. The code counts an open card as broken
  when an item before its first open one has failed (`Streaks.OpenCheckinIsNeutral`).
- A routine check-in carries the list in force before the first change of its window unless the dispatcher runs only
  after a change in a later window (`PlanSnapshots.SnapshotTheorem`, `PlanSnapshots.LateDispatchTakesTheNewList`).
- The progress loop drops the error of the statement that marks an event failed. Repeated losses with expiring leases
  keep it going (`DeliveryProtocol.DroppedErrorsGoRound`); `PublishPending` therefore ends under the assumption that
  finitely many such statements are lost (`ignoredLosses`).
- A replayed update may be accepted although it was refused the first time: a message sent before the final status was
  chosen, or a finish pressed before the first message. Exactly-once holds if and only if the stream has neither
  (`Updates.ExactlyOnceIffOrderly`).
- Rendered tags are not always balanced: entities that overlap, are empty, or are listed in the wrong order at a common
  boundary cross. Every tag closes its own entity exactly under `EntityNesting.BalancedIffNested`. Tags show only their
  names, though, and one entity's tag may close another's of its name (`EntityExchange.TwinsAreBalanced`,
  `EntityExchange.EmptyInsideIsBalanced`): they are balanced exactly when the entities can exchange their ends within
  names so that they nest (`EntityExchange.TagsCloseIffExchange`), which is the same condition as long as no entity ends
  inside another one of its name (`EntityNesting.TagsCloseIffNested`).
- Callback data is not unique: the parser accepts signs and leading zeros (`Callbacks.OnlyNumeralsVary`).

## Model

| member | source | states |
|---|---|---|
| RetryLedger.Ledger.DeliveryReady | internal/storage/postgres/retries.go:8-12 | a pair may be attempted exactly when its row is absent, or not suspended and past its next attempt; a failed query decides nothing |
| RetryLedger.Ledger.RecordDeliveryFailure | internal/storage/postgres/retries.go:14-23 | the upsert as a function of the old row; a lost statement changes nothing |
| RetryLedger.Ledger.ClearDeliveryRetry | internal/storage/postgres/retries.go:25-28 | the row is removed and no other row is touched |
| RetryLedger.ReplayIsConsistent | internal/storage/postgres/retries.go:8-28 | over every history of attempts: recorded attempts are the failures since the last clear and at most 8, the k-th failure delays the next attempt 2^min(k-1, 6) minutes, suspended exactly after an ambiguous failure or the eighth |
| RetryLedger.SuspensionIsFinal | internal/app/delivery/retry.go:16-27 | once suspended, no further attempt is let through or recorded, whatever the later clocks read |
| RetryLedger.EightFailuresSuspend | internal/storage/postgres/retries.go:14-23 | the eighth recorded failure is the last, even without an ambiguous one |
| RetryLedger.GapsAddUp | internal/storage/postgres/retries.go:14-23 | when no failure is recorded with an instant before its gate, failures i and j are let through at least 2^j - 2^i minutes apart (counting from 0) |
| RetryLedger.SevenGapsTakeAtLeast127Minutes | internal/storage/postgres/retries.go:14-23 | under that condition the first and the eighth failure are at least 127 minutes apart |
| RetryLedger.RunKeepsFullBackoff | internal/app/delivery/retry.go:16-25 | gate and record with one clock, as every gated delivery has it, keep the 127 minutes |
| RetryLedger.FullBackoffIffNoLag | internal/app/progress/progress.go:15-57 | with a record clock at most a given lag behind the gate clock, the 127 minutes are guaranteed if and only if the lag is zero |
| RetryLedger.MinSpacingIsExact | internal/app/progress/progress.go:15-57 | the least distance of eight failures as a function of the lag, each delay shortened by it, attained for every lag |
| RetryLedger.LagEatsTheBackoff | internal/storage/postgres/retries.go:14-23 | any lag shortens the 127 minutes, and from 64 minutes on nothing is left |
| RetryLedger.SpacedReplays | internal/storage/postgres/retries.go:8-23 | failures spaced as the gate demands all pass it and are all recorded |
| RetryLedger.StageClockCancelsTheBackoff | internal/worker/worker.go:77-168 | the drain loops record with the instant of their stage: once a stage has been busy for 64 minutes, eight failures of one row follow each other without a pause |
| DeliveryErrors.ClassificationReadsLeaves | internal/app/delivery/retry.go:29-69 | the recursive classification of an error tree depends on its leaves only: no foreign leaf, and the verdict of the first API error |
| DeliveryErrors.OnlyTelegramErrors | internal/app/delivery/retry.go:55-69 | the loop over joined errors decides the recursive predicate |
| DeliveryErrors.Defer | internal/app/delivery/retry.go:29-53 | the ledger is written exactly for errors made of API errors only, a cancelled caller writing ambiguous ones alone; the caller goes on exactly after a recorded, unambiguous failure whose status is none of 0, 401, 429 and below 500 |
| DeliveryErrors.Run | internal/app/delivery/retry.go:16-27 | the closure runs exactly when the gate is open, and the row of the key makes one step of its single-clock life; a closed gate is no error, a failure is one unless recorded, unambiguous and not service-wide; other rows are untouched |
| DeliveryProtocol.StepKeepsSuspension | internal/storage/postgres/retries.go:14-23 | between gate and ledger statement the worker never stands at a suspended entity; every step keeps a suspension and sends nothing for it, except that the bot may refresh a leaderboard |
| DeliveryProtocol.SuspensionIsSticky | internal/storage/postgres/progress.go:32-44 | over all runs of ticks, crashes, lease expiries and other processes the worker sends nothing for a suspended entity until its ledger row is removed by hand; the only sends are the bot's own leaderboard refreshes, counted exactly |
| DeliveryProtocol.SuspendNeedsAmbiguity | internal/app/delivery/retry.go:31-49 | a failure suspends at once only after a send whose outcome is unknown |
| DeliveryProtocol.ReconcileResumes | internal/storage/postgres/retries.go:8-28 | once its ledger row is removed by hand an entity is let through again |
| DeliveryProtocol.LatePromptIsTakenBack | internal/app/goals/goals.go:227-234 | a prompt whose review was closed meanwhile is deleted and counts as delivered, or as a failure if it cannot be deleted |
| DeliveryProtocol.StepKeepsBound | internal/app/progress/progress.go:44-66 | each statement, request, commit and crash keeps the bound on visible messages per queued row |
| DeliveryProtocol.DuplicatesNeedFaults | internal/app/delivery/compensation.go:12-22 | in every reachable state visible messages per progress event, alert or owed close notice are at most 1 plus the takeovers of stale claims, ambiguous sends with a lost ledger write, manual resumptions and notice transactions that ended unrecorded; none while the row can be sent again without such events |
| DeliveryProtocol.FaultsHaveCauses | internal/storage/postgres/worker.go:72-92 | the lost-knowledge events one by one: a step counts one exactly for a stale takeover, an unrecorded ambiguous failure, an unrecorded notice at a crash, failed deletion or lost commit, or a resumption by hand |
| DeliveryProtocol.TakeoversDuplicate | internal/storage/postgres/progress.go:32-44 | a worker that dies after every send leaves one message per claim |
| DeliveryProtocol.BoundIsTight | internal/storage/postgres/worker.go:72-92 | for every n there is a run with n faults and n + 1 messages |
| DeliveryProtocol.DroppedErrorsGoRound | internal/app/progress/progress.go:30-41 | while the dropped statement keeps failing and leases keep expiring the loop goes round any number of times |
| DeliveryProtocol.FinishedRowsStay | internal/storage/postgres/progress.go:55-85 | no row disappears over runs of worker, participants and other writers, finished rows keep their status, a published message id is not overwritten |
| DeliveryProtocol.AbandonedClaimKeepsItsLease | internal/storage/postgres/worker.go:72-92 | over every run in which no claim reads a clock five minutes later, a claim whose worker died keeps its row untouched and nothing is sent for it |
| DrainLoops.RoundShrinks | internal/app/progress/progress.go:20-67 | a round that finished a row or recorded a failure strictly shrinks the set of remaining attempts |
| DrainLoops.ArrivalsKeepRemaining | internal/storage/postgres/progress.go:13-25 | rows inserted meanwhile by other processes do not enlarge the measure that counts them from the start |
| DrainLoops.AskedCounts | internal/app/progress/progress.go:25-43 | one round of lookups finds the topic once, or misses one needed row, or fails |
| DrainLoops.BooksChain | internal/app/progress/progress.go:15-68 | rounds add up: the sends of every entity remain the times its topic was found, and every finished row keeps its reason |
| DrainLoops.Worker.ClaimNext | internal/storage/postgres/progress.go:27-53 | the lowest eligible id is claimed; an empty answer means every row is finished, acknowledged, blocked by the ledger or under an unexpired lease |
| DrainLoops.Worker.Requeue | internal/storage/postgres/progress.go:55-63 | back to pending only from the claimed state; a lost claim is reported |
| DrainLoops.Worker.SaveMessageId | internal/storage/postgres/progress.go:75-85 | the message id is stored only on a claimed row, or the worker holds an unsaved message |
| DrainLoops.Worker.LookUpEvent | internal/app/progress/progress.go:25-43 | the workspace, then its topic; the verdict is the last answer |
| DrainLoops.Worker.LookUpAlert | internal/worker/worker.go:87-139 | task, participant, workspace, topic, each after the one before it; only the participant may be missing |
| DrainLoops.Worker.Compensate | internal/app/delivery/compensation.go:12-22 | the row becomes retryable only after the message was deleted |
| DrainLoops.Worker.DeferAndRequeue | internal/app/progress/progress.go:50-57 | the loop goes on only if the failure is in the ledger, unambiguous and not service-wide, and the row is pending again |
| DrainLoops.Worker.DeferUnavailable | internal/worker/worker.go:184-192 | a missing dependency spends one attempt without a send |
| DrainLoops.Worker.PublishOne | internal/app/progress/progress.go:25-66 | one claimed event: looked up in order, sent once exactly when workspace and topic are found, marked failed exactly when one is missing (unless that statement is lost), an error exactly when any other call returned one; only its row and ledger entry change |
| DrainLoops.Worker.DispatchOne | internal/worker/worker.go:87-166 | one claimed alert: sent once exactly when task, workspace and topic are found, an attempt spent without a send when one is missing, never failed; an error exactly when a call returned one |
| DrainLoops.Worker.PublishPending | internal/app/progress/progress.go:15-68 | ends for all clocks, other processes acting between its statements; returns an error exactly when a call returned one whose error is not dropped, and else every event is published, failed, held by the ledger or under a live lease; per event one send for each time its topic was found, and a newly published event was sent, a newly failed one lacked its workspace or topic |
| DrainLoops.Worker.DispatchAlerts | internal/worker/worker.go:77-168 | ends for all clocks, other processes acting between its statements; returns an error exactly when a call returned one, and else every alert is sent, acknowledged, held by the ledger or under a live lease; one send for each time the topic was found, and a newly sent alert was sent in this call |
| DrainLoops.Worker.LockNotice | internal/storage/postgres/routines.go:114-141 | the first check-in by date and id that owes a notice is locked; an empty answer means every check-in has its notice or is held by the ledger |
| DrainLoops.Worker.CommitNotice | internal/app/routine/routine.go:234-239 | id and lock end with one commit; only a failed statement is compensated |
| DrainLoops.Worker.NoticeOne | internal/app/routine/routine.go:191-240 | one locked check-in: only its row and ledger entry change, a stored notice was sent, going on means the notice is stored or an attempt is spent, and an error is returned exactly when a call returned one |
| DrainLoops.Worker.SendAutoCloseNotices | internal/app/routine/routine.go:147-170 | ends for all clocks; returns an error exactly when a call returned one, and else every automatically closed check-in has its notice or is held by the ledger; a newly stored notice was sent |
| DrainLoops.Worker.ChatIsBounded | internal/app/progress/progress.go:15-68 | whatever loops a worker ran, its statements form a run of the protocol and obey the bound on duplicates |
| DrainLoops.Worker.SuspensionHolds | internal/worker/worker.go:77-168 | a suspension in force at any statement of the loops stopped every later send of the worker for that entity |
| MonthlyReports.CanonicalIsTheCore | internal/app/monthlyreport/report.go:65-85 | the canonical text is the tight core of the input, refused when blank or over 4096 UTF-16 units |
| MonthlyReports.CanonicalIsStable | internal/app/monthlyreport/report.go:72-85 | preparing prepared text changes nothing, and every accepted input is padding around its core |
| MonthlyReports.Utf16LengthCounts | internal/app/monthlyreport/report.go:72-85 | the length that is limited is the number of UTF-16 code units |
| MonthlyReports.StepKeepsInv | internal/app/monthlyreport/report.go:262-318 | every step of every publisher keeps: one owner per reservation, at most one send, outcomes only from publishing |
| MonthlyReports.SentAtMostOnce | internal/app/monthlyreport/report.go:262-318 | any number of publishers, any interleaving, death after any step: one send request per workspace and month |
| MonthlyReports.RowsMoveForward | internal/app/monthlyreport/report.go:280-318 | text, hash and destination of a row never change, its status moves once from publishing, a decided row is final |
| MonthlyReports.ToldMeansPublished | internal/app/monthlyreport/report.go:245-318 | who is told published holds the row itself, now and later: own canonical hash and a positive message id |
| MonthlyReports.SaveDecidesTheRow | internal/app/monthlyreport/report.go:280-308 | over every run an update that takes effect makes the row published if and only if the reply is a positive id with the chat, thread and text stored in it, and keeps the id exactly when id, chat and thread fit; a failed one changes nothing |
| MonthlyReports.Service.Publish | internal/app/monthlyreport/report.go:262-318 | one call between arbitrary steps of others: a receipt carries the hash of the caller's canonical text, a send happens only for a month never sent before, and after it a receipt is returned exactly when the reply is a positive id with the caller's own chat, thread and text and the outcome was saved and read back; without a send exactly when the row read is published with that hash |
| MonthlyReports.Service.Reserve | internal/app/monthlyreport/report.go:262-318 | only the insert that took effect goes on to send |
| MonthlyReports.Service.SendAndSave | internal/app/monthlyreport/report.go:262-318 | at the send no request for the month has been made yet, and a save that takes effect decides the row by the reply: published exactly for the reserved chat, thread and text with a positive id |
| Calendar.NumberCountsDays | internal/domain/rules.go:327-338 | the day number of the next calendar day is one larger, leap years included |
| Calendar.KnownSunday | internal/domain/rules.go:250-266 | 2 March 2025 is a Sunday, and Sundays are seven days apart |
| Calendar.SeasonContainsToday | internal/domain/rules.go:207-248 | every date lies in [start, end) of its season |
| Calendar.SeasonsShareBoundaries | internal/domain/rules.go:207-248 | the end of a season is the start of the next |
| Calendar.KeyDeterminesPeriod | internal/domain/rules.go:207-248 | one interval per season key and one key per interval |
| Calendar.OneSeasonPerDay | internal/domain/rules.go:207-248 | a day lies in the season of another day exactly when both have the same season |
| Calendar.ReviewsAreFortnightly | internal/domain/rules.go:250-266 | a Sunday is due exactly when it is the first Sunday from the 13th day on, or a multiple of 14 days later |
| Calendar.SixReviewsPerSeason | internal/domain/rules.go:303-311 | every season, a 90-day winter included, has exactly six review Sundays 14 days apart |
| Calendar.ClosedFormCounts | internal/domain/rules.go:281-301 | the closed form is the cardinality of the set of review days |
| Calendar.GoalReviewCountdown | internal/domain/rules.go:281-301 | the day-by-day loop finds the closed form, the number of review days strictly between today and the end |
| Calendar.ReviewsAddUp | internal/domain/rules.go:281-301 | reviews due so far and reviews left add up to six on every day of a season |
| GoalReviews.StepKeepsInv | internal/app/goals/goals.go:61-329 | every statement of the weekly and final stages, every answer and every crash keeps the invariant |
| GoalReviews.AtMostOneOpen | internal/app/goals/goals.go:61-111 | a goal set has at most one open weekly review at any time |
| GoalReviews.FinalWaitsForWeekly | internal/app/goals/goals.go:253-316 | a final prompt is sent only with no weekly review open and the period over on the local calendar |
| GoalReviews.NoWeeklyPromptAfterFinal | internal/domain/rules.go:313-323 | with a monotone clock no weekly prompt follows a final prompt |
| GoalReviews.ReviewLife | internal/domain/rules.go:268-279 | at most one initial and then one reminder prompt, at least 24 hours apart; a skip at least 71 hours after the first delivery; answered and skipped exclude each other |
| GoalReviews.ReviewsEvolve | internal/storage/postgres/goals.go:191-251 | persisted prompts accumulate, a skip is final, the first delivery time is never rewritten |
| GoalReviews.SkipMeetsDeleteWindow | internal/app/messagecleanup/messagecleanup.go:29-41 | with ticks less than an hour after the last completed walk, a skipped review can still be deleted exactly when it had its reminder |
| GoalReviews.ActionFollowsTheClock | internal/domain/rules.go:268-279 | for every row and instant: a skip exactly from 71 hours on, a reminder exactly between 24 and 71 hours without an earlier one, nothing once answered or skipped |
| GoalReviews.ReviewsOpenOnReviewDays | internal/app/goals/goals.go:84-105 | over all runs a weekly review comes into being only after 20:00 on a review Sunday of the period, for the week that ends that day |
| GoalReviews.ReviewDayOpensReview | internal/app/goals/goals.go:84-106 | and there it does come into being, unless blocked or present |
| GoalReviews.AtMostSixReviews | internal/domain/rules.go:250-266 | a season never has more than six weekly reviews, each for the week before one of its six review Sundays |
| GoalReviews.OpenReviewFollowsTheClock | internal/domain/rules.go:268-279 | an open review is prompted until 71 hours after its request, reminded exactly once from 24 hours on, skipped from 71 hours on |
| GoalReviews.FinalStartsWhenDue | internal/app/goals/goals.go:253-289 | the final review is prompted exactly when the period is over, no weekly review is open and none was prompted or completed before |
| GoalReviews.StoredPromptIsTheMessage | internal/storage/postgres/goals.go:191-217 | a stored prompt carries the id of the message sent and the instant of its tick; an answered review is left alone |
| GoalReviews.GoalSet.DispatchWeeklyReview | internal/app/goals/goals.go:61-111 | the stage for one goal set is a run of the machine, the participant answering between any two statements; a week is opened exactly when none is open, nothing blocks it and the instant is after 20:00 on a review Sunday of the period |
| GoalReviews.GoalSet.AdvanceWeeklyReview | internal/app/goals/goals.go:113-161 | prompt, remind, skip or nothing on the row as it was read, by the hours since its request |
| GoalReviews.GoalSet.DeliverPrompt | internal/app/goals/goals.go:187-235 | exactly one send, persisted under the guard of the row |
| GoalReviews.GoalSet.StorePrompt | internal/app/goals/goals.go:201-226 | a reported success has set the prompt under the guards of the row; a reported failure may have done so too |
| GoalReviews.GoalSet.DispatchFinalReview | internal/app/goals/goals.go:253-316 | exactly one send when the period is over, no weekly review is open, nothing blocks it and none was prompted or completed; otherwise none |
| Streaks.StreakState | internal/storage/postgres/routines.go:604-621 | the scan decides resolved and continuing by the first item that is open or failed |
| Streaks.OpenCheckinIsNeutral | internal/storage/postgres/routines.go:604-621 | an open check-in counts for nothing exactly when no item before its first open one has failed |
| Streaks.FoldStreaks | internal/storage/postgres/routines.go:573-602 | on sorted check-ins the fold finds the longest block reaching the end and the longest block anywhere |
| Streaks.RoutineStreaks | internal/storage/postgres/routines.go:573-602 | sorts in place, keeps the multiset, returns those two lengths |
| Streaks.StreaksAreUnique | internal/storage/postgres/routines.go:573-602 | the specification determines both numbers, and current never exceeds max |
| Checkins.StepKeepsInv | internal/bot/routines.go:79-211 | every handler, worker statement and cleanup keeps: answered prefix, completed means all answered, at most one reminder and one notice |
| Checkins.CheckinIsConsistent | internal/storage/postgres/routines.go:402-476 | in every reachable state: answers form a prefix, auto-failed means completed, one reminder and one notice ever persisted |
| Checkins.CheckinEvolves | internal/storage/postgres/routines.go:309-349 | a recorded outcome never changes, a completed check-in is frozen, sent marks survive the cleanup of message ids |
| Checkins.CardThenReminder | internal/app/routine/routine.go:20-146 | a fresh check-in can get its card and then its one reminder, which are stored |
| Checkins.CloseThenNotice | internal/app/routine/routine.go:75-240 | every incomplete check-in with a card can be closed with its open items failed, and its notice follows |
| Checkins.PressRecordsTheAnswer | internal/bot/routines.go:79-150 | an accepted press records exactly that answer on the next item, asks for a reason unless done, and completes exactly on a done last item |
| Checkins.ReasonCompletesWhenAllAnswered | internal/bot/routines.go:152-211 | the reason goes to its item, and completes the check-in exactly when every item is answered |
| Checkins.NextItemIsPrefixLength | internal/ui/formatters.go:458-465 | the next item is the length of the answered prefix |
| Checkins.CheckinRow.HandleRoutineItem | internal/bot/routines.go:79-150 | accepted exactly for the next open item of an open check-in without a pending reason or another pending input |
| Checkins.CheckinRow.Advance | internal/bot/routines.go:180-211 | completes the check-in when nothing is left to answer |
| Checkins.CheckinRow.ConsumeRoutineReason | internal/bot/routines.go:152-178 | a reason is stored for its item, never on a completed check-in |
| Checkins.CheckinRow.AutoFail | internal/storage/postgres/routines.go:402-423 | open items become failed, recorded ones stay, the row is completed and marked automatic |
| Checkins.CheckinRow.RowIsReachable | internal/bot/routines.go:79-211 | after any calls of the handlers the row satisfies the invariant and evolved from every earlier state |
| PlanSnapshots.SnapshotMatchesNextDispatch | internal/domain/rules.go:120-170 | the snapshot date of a change at any instant is the date the dispatcher picks at the first 08:00 after it |
| PlanSnapshots.DueFromEightToMidnight | internal/domain/rules.go:120-170 | at every instant: from 08:00 to midnight the day before is due unless older than the plan, before 08:00 none |
| PlanSnapshots.DispatchMakesTheDueCheckin | internal/app/routine/routine.go:25-50 | a dispatch makes the check-in of the due day exactly when it has none and the list is not empty, with the current list, and no other |
| PlanSnapshots.StepKeepsInv | internal/bot/routines.go:39-63 | every plan setting and every dispatch keeps what is known about each check-in |
| PlanSnapshots.SnapshotTheorem | internal/storage/postgres/routines.go:192-228 | a check-in carries the list in force before the first change of its window exactly when it was not dispatched after a change of a later window; none predates the plan |
| PlanSnapshots.SnapshotsStay | internal/storage/postgres/routines.go:192-228 | a check-in keeps its list in every continuation |
| PlanSnapshots.ChangeInWindowProtects | internal/bot/routines.go:39-63 | a change inside the window of a day fixes that day however late the dispatcher is |
| PlanSnapshots.LateDispatchTakesTheNewList | internal/app/routine/routine.go:25-50 | counterexample: a dispatcher two hours late gives yesterday the list set at 08:00 today |
| PlanSnapshots.Routine.GetOrCreateCheckin | internal/storage/postgres/routines.go:192-228 | the first writer wins, one item per line of the plan |
| PlanSnapshots.Routine.ConsumeRoutinePlan | internal/bot/routines.go:39-63 | the running day is written down with the old list before the list is replaced |
| PlanSnapshots.Routine.DispatchDueCheckin | internal/app/routine/routine.go:25-50 | the due date gets the current list unless it has a check-in |
| PlanSnapshots.Routine.CheckinsAreReachable | internal/storage/postgres/routines.go:192-228 | after any calls under a clock that goes forward every check-in of the table carries its governing list unless overtaken |
| DailyEntries.StepKeepsInv | internal/bot/service.go:294-381 | every transaction keeps one open task, one entry per date, and the gate that a pending task text implies no open task |
| DailyEntries.OneTaskOneEntry | internal/storage/postgres/today.go:61-83 | in every reachable state at most one task is open and no local date has two entries |
| DailyEntries.OneTerminalEvent | internal/storage/postgres/today.go:135-234 | a closed entry has exactly one terminal event of the matching kind, an open one none; at most one report is accepted, and none for an automatically failed summary |
| DailyEntries.AlertsFollowTransitions | internal/app/today/today.go:26-38 | the overdue alert exists exactly for automatic failures, the day-closed alert for every entry awaiting its report and for none still active |
| DailyEntries.ClosedStaysClosed | internal/storage/postgres/models.go:66-74 | a closed status is absorbing, also through the one late report of a failed task; a reported entry never changes |
| DailyEntries.LastTickDecides | internal/domain/rules.go:372-392 | for nondecreasing ticks the status depends on the last tick only |
| DailyEntries.TickIsPointwise | internal/app/today/today.go:11-54 | the walk gives every entry it reaches exactly its own transition and leaves the others alone |
| DailyEntries.TicksReachEntries | internal/app/today/today.go:11-54 | over any ticks an entry moves as the ticks that reach it do, taken alone |
| DailyEntries.TickFollowsTheClock | internal/domain/rules.go:372-392 | what a tick does, by the clock: nothing to an active entry before its following midnight, awaiting from then on, failed at the tick from the following noon on; alerts and events exactly for these changes |
| DailyEntries.AlertsNeedTheirTick | internal/app/today/today.go:11-54 | over every run a day-closed alert needs a tick at or after the following midnight that reached the entry, an overdue alert one at or after noon |
| DailyEntries.TaskIsAdded | internal/bot/service.go:294-465 | the button and then a text add one active task of the day |
| DailyEntries.SummaryIsAdded | internal/bot/service.go:294-381 | in the evening the button adds the summary, or nothing when refused |
| DailyEntries.PressNeedsAFreeInput | internal/bot/service.go:599-669 | a status can be chosen unless another kind of input is pending; choosing again replaces the choice |
| DailyEntries.ReportStoresTheChoice | internal/storage/postgres/today.go:135-234 | a status chosen and then a report: the chosen status is stored, an open entry takes it as its own and gets one event, a failed task stays failed |
| DailyEntries.Today.RunDailyTaskTransitions | internal/app/today/today.go:11-54 | list first, then update one by one; the walk ends at the first open entry whose workspace is missing, and every entry before it is left alone before its following midnight, awaits its report from then on and has failed from its noon on |
| DailyEntries.Today.RowsAreReachable | internal/app/today/today.go:11-54 | after any calls of the handlers the rows satisfy the invariant and evolved from every earlier state |
| DailyEntries.Today.HandleTodayAdd | internal/bot/service.go:294-381 | refused on an entry of the day, an open task or a pending input; in the evening a summary, else the text is asked for |
| DailyEntries.Today.ConsumeDailyTaskText | internal/bot/service.go:414-465 | the pending text is consumed, and a task made unless the day has an entry |
| DailyEntries.Today.HandleTaskStatus | internal/bot/service.go:599-669 | a status choice opens the report input only for entries that accept a report and no other pending kind |
| DailyEntries.Today.ConsumeDailyReport | internal/bot/service.go:475-559 | the pending report is consumed and submitted once |
| EntityRendering.Utf16UnitToRuneIndex | internal/telegram/input.go:224-236 | the loop builds exactly the map from code-unit offsets of runes to rune indexes |
| EntityRendering.UsableOffsets | internal/telegram/input.go:224-236 | an offset is usable exactly when it lies in the UTF-16 text and does not point into a surrogate pair |
| EntityRendering.SortTags | internal/telegram/input.go:177-182 | in place: sorted by position with closers first, the order of equal tags kept, nothing lost |
| EntityRendering.RunOfTags | internal/telegram/input.go:183-196 | in sorted order the tags of one position are one run, closers then openers |
| EntityRendering.CollectTags | internal/telegram/input.go:161-176 | one opening and one closing tag per entity of a known type with two usable offsets |
| EntityRendering.Merge | internal/telegram/input.go:183-196 | the merge writes before each rune the tags that end there, then those that start there, in list order |
| EntityRendering.RenderEntitiesHTML | internal/telegram/input.go:147-197 | the output equals the reference rendering by position, a scan of it gives its tags and runes back, and every usable link can be read in it with its address; empty text gives nothing |
| EntityRendering.TagReadsBack | internal/telegram/input.go:199-222 | the markup of every tag reads back as that tag by literal tag names, an opening link tag with its unescaped address |
| EntityRendering.ScanWritten | internal/telegram/input.go:183-196 | scanning the markup gives back the tokens it was written from |
| EntityRendering.MarkupOfTypes | internal/telegram/input.go:199-222 | each entity type has the tags of its name, and no other type has any |
| EntityRendering.EntityIsWritten | internal/telegram/input.go:161-196 | both tags of every usable entity can be read in the output |
| EntityRendering.RenderingPreservesText | internal/telegram/input.go:147-197 | for every text and entity list, removing the tags leaves the escaped text and unescaping that leaves the text |
| EntityRendering.EscapingIsLossless | internal/telegram/input.go:151-153 | unescaping the escaped text gives the text |
| EntityRendering.PlainText | internal/telegram/input.go:151-153 | the shortcut without entities agrees with the general path |
| EntityRendering.EntityAddsItsTags | internal/telegram/input.go:162-176 | one more entity adds exactly its opening and closing tag at the runes of its offsets, or nothing at all |
| Brackets.BalancedIffWellNested | internal/telegram/input.go:183-196 | brackets without repetition, read with a stack, balance exactly when every pair opens before it closes and no two pairs cross |
| Brackets.StackHolds | internal/telegram/input.go:183-196 | the stack of a reading holds exactly the pairs opened and not closed, in the order they opened |
| NamedBrackets.NamedBalancedIffExchange | internal/telegram/input.go:183-196 | brackets that show a name only balance exactly when closing brackets can be exchanged within names so that every pair opens before it closes and no two cross |
| NamedBrackets.UnambiguousReads | internal/telegram/input.go:199-222 | when no pair ends while another one of its name is open, names read like identities |
| EntityNesting.MarksRender | internal/telegram/input.go:147-197 | the rendering is the image of its tags taken with the list indexes of their entities |
| EntityNesting.BalancedIffNested | internal/telegram/input.go:177-182 | for every text and entity list every rendered tag closes its own entity's tag, and all are closed, if and only if every usable entity is non-empty and any two share no rune or lie one inside the other, in the list order their common boundary asks for |
| EntityNesting.NestedEntitiesReadBack | internal/telegram/input.go:147-197 | a nested list reads back from its tokens: all tags closed, every rune with the styles of exactly the entities around it, outermost first |
| EntityNesting.TokensFollowNames | internal/telegram/input.go:199-222 | a reader of the tokens, which compares tag names and ignores the address of a link, does what reading the indexed tags by name does |
| EntityNesting.TagsCloseIffNested | internal/telegram/input.go:147-222 | when no entity ends inside another one of its name, the rendered tags are balanced if and only if the entities are nested |
| EntityNesting.SeparateIsDistinguishable | internal/telegram/input.go:147-222 | that condition holds whenever non-empty entities of one name share no rune |
| EntityNesting.DisjointEntitiesReadBack | internal/telegram/input.go:147-197 | for disjoint non-empty entities the output is balanced and every rune reads back with the style of its one entity |
| EntityNesting.RenderingIgnoresListOrder | internal/telegram/input.go:177-182 | for disjoint non-empty entities the order of the list makes no difference |
| EntityNesting.SharedBoundariesCross | internal/telegram/input.go:177-182 | of two entities over the same runes one closes the other's tag, in every list; the tags are out of balance unless an entity ends inside another one of its name |
| EntityNesting.BoldItalicTokens | internal/telegram/input.go:177-182 | the smallest instance: equal spans open and close in list order |
| EntityNesting.EmptyEntityClosesFirst | internal/telegram/input.go:177-182 | an entity that does not end after its start never closes its own tag; the tags are out of balance unless an entity ends inside another one of its name |
| EntityNesting.EmptyEntityTags | internal/telegram/input.go:177-182 | an entity of length zero closes before it opens |
| EntityExchange.TagsCloseIffExchange | internal/telegram/input.go:147-222 | for every text and entity list the rendered tags are balanced if and only if the usable entities can exchange their ends within names so that none is empty and no two cross |
| EntityExchange.ExchangeIsUnique | internal/telegram/input.go:177-196 | there is at most one such exchange |
| EntityExchange.NestedKeepsEnds | internal/telegram/input.go:177-196 | the nested lists are those for which keeping every end is that exchange |
| EntityExchange.SameRunesIffPalindrome | internal/telegram/input.go:177-196 | entities over the same runes render balanced if and only if their names read the same backwards |
| EntityExchange.TwinsAreBalanced | internal/telegram/input.go:177-196 | counterexample: two entities of one name over the same runes are balanced, though not nested |
| EntityExchange.EmptyInsideIsBalanced | internal/telegram/input.go:177-196 | counterexample: so are an entity and an empty one of its name inside it |
| Callbacks.RoundTrip | internal/domain/callback.go:41-132 | for all int64 numbers printed data fits 64 bytes and parses back to the action if and only if ids are positive and the index is not negative |
| Callbacks.PrintFits | internal/ui/keyboards.go:39-102 | every printed callback has at most 64 bytes |
| Callbacks.PrintIsInjective | internal/ui/keyboards.go:39-102 | distinct actions never share data |
| Callbacks.FormatParses | internal/domain/callback.go:123-132 | decimal output of an integer parses back exactly within the range of int64 |
| Callbacks.SplitJoin | internal/domain/callback.go:58-58 | splitting at colons recovers colon-free parts |
| Callbacks.OnlyNumeralsVary | internal/domain/callback.go:41-121 | accepted data is the printed data exactly when its numerals are canonical; only meaningful actions are accepted |
| Callbacks.SignedIdIsAccepted | internal/domain/callback.go:123-132 | a signed or zero-padded id names the same action |
| Updates.OffsetPassesHandledUpdates | cmd/trackmate-api/main.go:103-115 | over all runs the offset and the server's acknowledgement pass an update only after its handler succeeded |
| Updates.PassedUpdatesStayPassed | cmd/trackmate-api/main.go:47-101 | no update below the offset is handled again while the process lives, none below the acknowledged offset ever |
| Updates.CalledIsHandled | cmd/trackmate-api/main.go:103-115 | an update counts as handled exactly when its handler is called, and then it has its effect |
| Updates.ExactlyOnce | internal/bot/goals.go:221-268 | in an orderly stream the review is what handling each reached update once and in order gives, through any failures, crashes and replays |
| Updates.ExactlyOnceIffOrderly | internal/bot/goals.go:221-332 | that holds on every run if and only if no part precedes the first chosen status and finish is not pressed before the first part |
| Updates.EarlyPartIsAcceptedLater | internal/bot/goals.go:221-252 | a part refused before the status is chosen is accepted when it is replayed after it |
| Updates.EarlyFinishCompletesLater | internal/bot/goals.go:270-332 | a finish refused before the first part completes the review when it is replayed after it |
| Updates.ReplayChangesNothing | internal/storage/postgres/goals.go:297-343 | handling an event of an orderly history again changes nothing |
| Updates.SummaryIsJoin | internal/storage/postgres/goals.go:297-322 | whatever the history, the summary is the in-order join of the distinct accepted parts |
| Updates.OrderlyAcceptsAll | internal/storage/postgres/goals.go:297-322 | in an orderly history the accepted parts are all distinct non-blank messages |
| Updates.FinishNeedsAPart | internal/storage/postgres/goals.go:324-343 | finish completes an open review exactly when a part was accepted |
| Updates.FirstChoiceStands | internal/bot/goals.go:125-219 | whatever is pressed or replayed later, the status of the review is the one chosen first |
| Updates.CompletedIsFrozen | internal/storage/postgres/goals.go:297-343 | a completed review never changes |
| Updates.VisibleInput | internal/bot/goals.go:221-224 | a message that is not blank renders to visible text, so a part is never empty |
| Updates.Api.ProcessUpdates | cmd/trackmate-api/main.go:103-115 | without an error the whole batch is passed, with one the offset stops at the failed update; the calls form a run of the loop |
| Updates.Api.Turn | cmd/trackmate-api/main.go:47-101 | one turn of the main loop takes over the offset whether or not a handler failed |

## Left out

- HTTP transport, JSON, rate-limit waiting and matching of Telegram error texts: a send has an outcome, with its status code and ambiguous flag, as environment input.
- SQL text, row locks, pools and the advisory lock: a statement is one guarded atomic update, and the worker lease is mutual exclusion of one worker.
- Lease fencing between two live workers: completion checks the claimed state, not a token, and one worker at a time is assumed.
- Exactly-once delivery across a crash between send and save: the design leaves it open (`docs/architecture.md:286`); the model counts such takeovers instead of excluding them.
- DeliveryProtocol.FinishedRowsStay: the operator reset of an end-to-end test workspace (`internal/storage/postgres/control.go:23-78`) deletes alerts, progress events and check-ins; no other writer does.
- DrainLoops.Worker.ClaimNext: the claims skip locked rows (`internal/storage/postgres/progress.go:42`, `internal/storage/postgres/worker.go:90`, `internal/storage/postgres/routines.go:125`), so an empty answer, and with it the end of PublishPending, DispatchAlerts and SendAutoCloseNotices, can also leave out a row that an uncommitted writer holds (`internal/storage/postgres/today.go:292`, `internal/storage/postgres/today.go:398`) until the next tick; in the model no statement is uncommitted while another runs.
- DrainLoops.Worker.PublishPending: ends under the assumption that only finitely many of the statements whose error it drops are lost.
- GoalReviews.GoalSet.DeliverPrompt: the pending input written with the prompt, and the deletion of a prompt that could not be stored; DeliveryProtocol has the deletion.
- Row inserts inside the drain loops: the rows that other processes will add are finite in number and carry no visible message.
- A failing statement has no effect, except the save of a message id and the skip of a weekly review, which may also take effect and report failure; an insert that does so is one followed by a crash.
- DeliveryRetryIDs, the order of the stages of one tick, and the best-effort edit of the daily card before an alert: they add no state to the protocol.
- DeliveryProtocol sends for reviews and routines as single gated entities; their own rows are modelled in GoalReviews and Checkins.
- Snapshot JSON of the monthly report, and month parsing: the key is an opaque month number. SHA-256 is an arbitrary function of the canonical text. Escaping before sending is not part of this module.
- ParseRoutineItems and routineCompletionRate, leaderboard ordering and texts: arithmetic or presentation.
- Weekly review answers and the pending-input slot of goals: a pending input of another kind is a nondeterministic block.
- Time-zone database and daylight saving: abstracted as monotone maps.
- Daily entries outside serialised transactions: the code lists and then updates without checking affected rows, so one event per closed entry is claimed for atomic transactions with one Today thread per workspace. A transaction that is rolled back changes nothing. Task text, edits, cards, and owner checks are not modelled.
- The routine reminder and notice deadlines: when the worker looks is free; what it persists is modelled.
- Text with invalid UTF-8: a rune is a Unicode scalar value. Overflow of offset plus length is not modelled.
- EntityRendering.Merge: collects the pieces of the builder as tokens and joins them once at the end.
- Callbacks.RoundTrip: builds the data as its colon-separated parts, joined, where the source uses one format string per button.
- Updates.ExactlyOnce: the thread holds no pending input of another kind, which would make the status button answer busy. Stale inputs of the final review have their own lifecycle and are not expired by the worker. Messages of other authors and other goal sets are updates without effect on the review.
- Bot setup, topic repair, configuration, logging, control server, migrations, authorisation of callbacks, message catalogue, plurals, nudges: plumbing or presentation.
