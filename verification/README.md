# A verified model of the Slack bot's coordination core

The bot hands work to remote agents over A2A, hears back by push notification, by polling
and from users, and answers in Slack.  Its correctness lies in what keeps those paths from
stepping on each other.  This project models that part and proves what it promises:

- **Settling a delegated task** (`A2aTaskTracker`, `Settlement*`, `Reconciler*`).  One row per
  task, changed by conditional updates; push notifications, reconciler ticks and user
  replies race on it, each from a stale snapshot, each committing first, posting to Slack
  second and undoing the commit when the post is refused.  `Settlement` gives every actor as
  a machine whose phases are its awaits; `SettlementRuns` interleaves any number of them
  with database errors, lost replies and crashes at every await.  A ledger of posts and
  commits per task turns "at most one answer" and "no answer lost without a reason" into
  balances that every step keeps, and a history of committed writes does the same for
  deadlines and questions.  `SettlementServices` and `ReconcilerServices` hold the services
  in their imperative form, each method proved to do what its actor does when it runs alone,
  and `SettlementSequential` proves that an actor running alone, and a whole tick, are runs
  of the interleaved system.  `SettlementEffects` says what each of them comes to, case by
  case, in terms of the row alone.  `SettlementReverts`, `SettlementQuestions` and
  `SettlementWitnesses` say when an answer or a question can be lost without any error, and
  show it.
- **Turns of a thread** (`ThreadTurns`, `ThreadContext`, `InFlightTurns`).  The promise-tail
  queue, the read-then-write checkpoint behind it, the cursor computed from tags in the
  history, the choice of messages a turn is told, and the registry of turns in flight.
- **The in-memory scheduler** (`Scheduler`) and its client that watches CI runs.
- **The event log** (`EventGate`, `ResponseSlot`): which deliveries are acted on, and the one
  response an event gets.
- **Images and reasoning text** (`ImageBlocks`, `ThinkBlocks`).

State types are small-step machines: `Next(state, action)` is one atomic step, an action that
is not enabled changes nothing, and a run is any sequence of actions, so a lemma about
`Run(...)` or `After(...)` speaks of every interleaving.  Faults are a parameter of each
database call: it succeeds, never ran, or ran and lost its reply.  Every Slack post either
reports success or counts as refused.

## Where the code falls short of what its comments say

Each is stated with its condition and shown by a run or an input.

- A comment at src/plugins/llm-agent/response-finalizer.ts:189-195 says a settle whose post
  failed is rolled back so that a later attempt can retry it.  For a task its agent reports
  as failed no attempt ever does, by push or by the reconciler:
  `SettlementAlone.RefusedFailureIsNeverRetried`, and a run that gets there,
  `SettlementWitnesses.RemoteFailureIsNeverRetried`.  Exactly the other terminal states are
  retried: `SettlementAlone.RetryDeliversExactlyWhen`.  What two ticks recover of an overdue
  row, and what not, is `ReconcilerServices.TwoTicksRecoverExactlyWhen`.
- Undoing a question writes back the snapshot's state, and with a terminal snapshot that
  settles a row with nothing posted; `SettlementWitnesses.AnswerCanBeLostToARevert` is such a
  run, without any error or crash.  It takes a refused and rolled back answer for the same
  row first, or a task recorded as already over
  (`SettlementReverts.RevertedOnlyAfterARollBack`).
- A refused question is undone so that a later attempt can ask it
  (`SettlementEffects.RefusedQuestionIsAskedLater`), but what comes back is the state of the
  snapshot; a stale one leaves the row waiting or over, and then no push that finds the agent
  waiting asks it (`StaleUndoIsAskedLaterExactlyWhen`).
- An agent may answer the user's reply with the finished task.  The state is written, which
  settles the row, and its answer is posted by nobody:
  `SettlementWitnesses.AnswerCanBeLostToAReply`, without any error, crash or refused post.
  It happens exactly when a committed resume leaves a terminal state
  (`SettlementReverts.FinishedExactlyWhen`).  These two are the only ways: without them, an
  answer was delivered, is about to be, or a new task took its place
  (`SettlementReverts.CalmRunKeepsEveryAnswer`).
- A task recorded as waiting for its user, or a reply answered with another question, stands
  at input-required with a question that is never posted
  (`SettlementWitnesses.ABornQuestionIsNotAsked`, `AReplysQuestionIsNotAsked` and
  `SettlementAlone.StandingQuestionIsNeverPosted`).  Every other question is asked:
  `SettlementQuestions.StandingQuestionsAreAsked`.
- A hundred questions that users leave unanswered keep every younger row off the
  reconciler's page, over any number of ticks:
  `ReconcilerFairness.UnansweredQuestionsStarveTheRest`, for a table like `CrowdedTable`.
- The scheduler finds a task by its name.  A caller that cancels a task during a tick and
  schedules the name again gets two ticking tasks, or strands the new one
  (`Scheduler.CancelThenReuseGoesWrong`, and for any state `ImpoliteScheduleMakesTwoTick` and
  `ImpoliteScheduleOrphansTheNewTask`).  Nothing in the program cancels a task, and without a
  cancel it cannot happen: `Scheduler.RunsWithoutCancelAreLawful`.
- A mention with a file is dispatched twice exactly when its message came and some
  app_mention was checked before the message was on record:
  `EventGate.AttachedMentionTwiceExactlyWhen`; `AttachedMentionMayBeDispatchedTwice` is a run.
- The registry of turns in flight leaves a window, which the code accepts: a mention whose
  call comes only after another turn's sync is both told and answered
  (`InFlightTurns.AMentionMayBeReadTwice`).  It is also a set of keys, so when one mention
  makes two calls, the first to finish withdraws the key of both, and the other may be told
  its own trigger (`ATwinMayBeToldItself`).  Apart from these two, never:
  `ATurnIsNotAlsoContext` and, where triggers are distinct, `DistinctTriggersAreReadOnce`.
- A mention in flight while another turn syncs, whose own turn then fails, is read by nobody:
  the other turn's tag has passed it (`InFlightTurns.AMentionMayBeReadByNobody`).
- An insert of an event that ran and lost its reply, or a roll back that never ran, leaves a
  row behind an error, and Slack's retry is then dropped: `EventGate.EventIntake.RunOnEvent`
  and `RecordedIsNeverDispatchedAgain`.
- Removing a think block can join the text around it into a new opening tag; the visible
  text from there on is then cut as well, and only then:
  `ThinkBlocks.VisibleSurvivesExactlyWhen`; `VisibleTextMayBeCut` is such a reply.

## Model

| member | source | states |
|---|---|---|
| `A2aTaskTracker.TaskTracker.RecordDelegated` | src/plugins/llm-agent/a2a-task-tracker.ts:183-205 | a row is inserted unsettled, and an existing row of that id is left alone |
| `A2aTaskTracker.TaskTracker.FindByTaskId` | src/plugins/llm-agent/a2a-task-tracker.ts:249-262 | returns the row, if there is one |
| `A2aTaskTracker.TaskTracker.Transition` | src/plugins/llm-agent/a2a-task-tracker.ts:263-286 | writes exactly when the row is unsettled, its state passes the guard and its deadline the limit; tells the caller whether it did, and touches no other row |
| `A2aTaskTracker.TaskTracker.Unsettle` | src/plugins/llm-agent/a2a-task-tracker.ts:287-297 | reopens a settled row, keeps its state, and tells the caller whether it did |
| `A2aTaskTracker.TaskTracker.DeleteSettledOlderThan` | src/plugins/llm-agent/a2a-task-tracker.ts:320-332 | deletes exactly the settled rows older than the cutoff, keeps every other as it is, and counts what it deleted |
| `Settlement.StepKeepsBalanced` | src/plugins/llm-agent/response-finalizer.ts:196-319 | one await of any actor keeps all balances of its task: every inserted row is open, owed, delivered or settled in one named way; questions match entries into input-required; reports match deliveries |
| `Settlement.StepKeepsOrphansExplained` | src/plugins/llm-agent/response-finalizer.ts:224-238 | a roll back finds nothing to undo only if the row was pruned or inserted anew meanwhile, so only its owner unsettles a settled row |
| `SettlementRuns.NextKeepsLaw` | src/plugins/llm-agent/task-reconciler.ts:177-360 | any atomic step of the whole system, including crashes, pruning and new delegations, keeps the balances of every task |
| `SettlementRuns.RowsAreKeptExactlyUnless` | src/plugins/llm-agent/a2a-task-tracker.ts:320-332 | a row leaves the table exactly when a tick prunes it: settled and last written more than seven days before |
| `SettlementRuns.RunsLeaveFreshRowsAlone` | src/plugins/llm-agent/task-reconciler.ts:288-306 | a run takes up only rows that are unsettled and were last written more than two minutes before, and none if its query failed |
| `SettlementGuarantees.ReachableIsBalanced` | src/plugins/llm-agent/a2a-task-tracker.ts:183-332 | the balances hold in every reachable state |
| `SettlementGuarantees.AtMostOneAnswer` | src/plugins/llm-agent/response-finalizer.ts:196-262 | over every interleaving, delivered answers and actors that owe one together never exceed the rows inserted: one insertion, at most one answer |
| `SettlementGuarantees.EverySettleIsAccountedFor` | src/plugins/llm-agent/response-finalizer.ts:196-319 | a row is settled if and only if exactly one holds: delivered, still owed, settled by a reply, settled by undoing a question, lost to a fault; and then its state is terminal |
| `SettlementGuarantees.CalmRunLosesNothing` | src/plugins/llm-agent/task-reconciler.ts:138-152 | without database errors and crashes nothing is lost to a fault |
| `SettlementGuarantees.OneQuestionPerEpisode` | src/plugins/llm-agent/response-finalizer.ts:268-319 | questions asked, owed and given up are exactly the guarded entries into input-required, and between any two moments entries exceed exits by at most one |
| `SettlementHistory.ReachableIsRecorded` | src/plugins/llm-agent/a2a-task-tracker.ts:263-297 | the committed writes of every run chain: each finds the row as the last one left it, and meets the demands of its cause |
| `SettlementHistory.DeadlineFailureIsSound` | src/plugins/llm-agent/task-reconciler.ts:181-203 | a deadline failure commits only on a row that at that moment is unsettled, working or submitted, and at or past its current deadline |
| `SettlementHistory.ResumeIsNotClobbered` | src/plugins/llm-agent/steps/resume-active-task.ts:300-312 | a committed resume with a deadline later than a tick's clock is not failed by that tick unless another resume or insertion came between |
| `SettlementHistory.NothingInterruptsAQuestion` | src/plugins/llm-agent/a2a-task-transition-guard.ts:14-21 | between a row's entry into input-required and a deadline failure or a second question there is a committed exit |
| `SettlementTotals.RunsNeverOverlap` | src/plugins/llm-agent/task-reconciler.ts:286-360 | overlapping calls of runOnce never run the sweep twice at once |
| `SettlementTotals.ReachableIsReconciled` | src/plugins/llm-agent/task-reconciler.ts:288-349 | in every reachable state, answers delivered equal those reported, being counted, aborted with their run or lost with their actor |
| `SettlementTotals.TotalIsSum` | src/plugins/llm-agent/response-finalizer.ts:217-261 | the total delivered is the sum over all tasks |
| `SettlementTotals.ReportsAddUp` | src/plugins/llm-agent/task-reconciler.ts:286-360 | once nothing is under way, the ticks' settled counts and the push calls' settled outcomes add up to the answers delivered, exactly so without errors and crashes |
| `SettlementAlone.EveryStepMakesProgress` | src/plugins/llm-agent/response-finalizer.ts:390-461 | every actor ends after a bounded number of awaits, whoever else moves |
| `SettlementAlone.VisitSettlesExactlyWhen` | src/plugins/llm-agent/task-reconciler.ts:177-282 | a visit without faults or rivals settles and posts if and only if the row is overdue in active execution, or the poll says not found, completed, canceled, rejected, or failed while the row is in active execution |
| `SettlementAlone.TwoVisitsRecoverExactlyWhen` | src/plugins/llm-agent/response-finalizer.ts:363-387 | of two faultless visits to an overdue unsettled row, each with its own poll, the first delivers the answer if it decides; else the second does, whatever it polls, if the first revived the row by a heartbeat with the deadline untouched, and otherwise exactly if it decides |
| `SettlementAlone.VisitWithoutDecision` | src/plugins/llm-agent/response-finalizer.ts:363-387 | a visit that decides nothing changes at most state and update time, by a heartbeat |
| `SettlementAlone.RefusedFailureIsNeverRetried` | src/plugins/llm-agent/a2a-task-transition-guard.ts:16-21 | a failed row left unsettled stays as it is over any number of attempts, by push or reconciler, that see failed again, whatever else fails |
| `SettlementAlone.StandingQuestionIsNeverPosted` | src/plugins/llm-agent/a2a-task-transition-guard.ts:16-21 | no attempt that finds the agent waiting changes a row at input-required or posts for it |
| `SettlementAlone.PushSettlesExactlyWhen` | src/plugins/llm-agent/response-finalizer.ts:325-461 | a push without faults or rivals settles and posts if and only if it sees a terminal state, for failed only while the row is in active execution |
| `SettlementAlone.RetryDeliversExactlyWhen` | src/plugins/llm-agent/response-finalizer.ts:189-195 | an answer rolled back in a terminal state is delivered by the next faultless attempt that sees that state, push or visit, if and only if the state is not failed |
| `SettlementEffects.ObservationDoesExactly` | src/plugins/llm-agent/response-finalizer.ts:196-388 | an observation of an open row, by any snapshot: a terminal state settles it and is answered, or is open again if Slack refuses; a question is asked only of a row at work, and refused it leaves the snapshot's state; a heartbeat is written; all else is a duplicate that changes nothing |
| `SettlementEffects.ObservationUnderFault` | src/plugins/llm-agent/response-finalizer.ts:196-388 | if the commit fails, nothing is posted, and the row is as it was or, if only the reply was lost, as written |
| `SettlementEffects.LateObservationIsIdle` | src/plugins/llm-agent/a2a-task-tracker.ts:263-286 | an observation about a settled or missing row changes nothing and posts nothing |
| `SettlementEffects.DeadlineFailsExactly` | src/plugins/llm-agent/task-reconciler.ts:181-203 | an overdue snapshot fails its row exactly if the row is still at work and its present deadline has passed; otherwise, or after an error, the agent is polled |
| `SettlementEffects.GoneTaskFailsExactly` | src/plugins/llm-agent/task-reconciler.ts:218-262 | a task its agent does not know is failed exactly if its row is still at work, or still in the state the snapshot had |
| `SettlementEffects.PollDoesExactly` | src/plugins/llm-agent/task-reconciler.ts:205-282 | an unlisted agent or a failed poll skips the row, a malformed answer is an error, and a state seen is acted on |
| `SettlementEffects.PushDoesExactly` | src/plugins/llm-agent/response-finalizer.ts:390-461 | a push about no row, or without a usable answer, changes nothing; otherwise it acts on the state seen |
| `SettlementEffects.RetryFindsALateRow` | src/plugins/llm-agent/response-finalizer.ts:429-436 | a push that comes before its row is recorded does nothing at first and then, if the row is there at its second look, what any push does |
| `SettlementEffects.ReplyDoesExactly` | src/plugins/llm-agent/steps/resume-active-task.ts:202-314 | a reply to an open question: a failed send changes nothing, an unresumable task is failed and settled without an answer, and otherwise the state and deadline that came back are written |
| `SettlementEffects.LateReplyIsIdle` | src/plugins/llm-agent/steps/resume-active-task.ts:300-312 | a reply to a question no longer open changes nothing, whatever the agent says |
| `SettlementEffects.RefusedQuestionIsAskedLater` | src/plugins/llm-agent/response-finalizer.ts:290-318 | a question Slack refuses is undone: the row is at work as before, and the next attempt that finds the agent waiting, by push or visit, asks it |
| `SettlementEffects.StaleUndoIsAskedLaterExactlyWhen` | src/plugins/llm-agent/response-finalizer.ts:290-318 | with a stale snapshot the snapshot's state comes back, and the question is asked by a later push if and only if that is a state at work |
| `SettlementReverts.ReachableIsUnreverted` | src/plugins/llm-agent/response-finalizer.ts:290-318 | in every run, while a row recorded once was never left terminal and unsettled, no actor can revert it to a terminal state |
| `SettlementReverts.RevertedOnlyAfterARollBack` | src/plugins/llm-agent/response-finalizer.ts:290-318 | undoing a question settles a row only if an answer for it was rolled back before, or it was recorded in a terminal state |
| `SettlementReverts.CalmRunAccountsForEveryAnswer` | src/plugins/llm-agent/response-finalizer.ts:196-319 | without errors, crashes, refused answers and tasks recorded as over, a row is settled in exactly one of four ways: delivered, about to be, replaced by a new task, or finished by a reply |
| `SettlementReverts.FinishedExactlyWhen` | src/plugins/llm-agent/steps/resume-active-task.ts:278-314 | a task was finished by a reply exactly if a committed resume left it in a terminal state |
| `SettlementReverts.CalmRunKeepsEveryAnswer` | src/plugins/llm-agent/steps/resume-active-task.ts:202-314 | if moreover no agent answers a reply with a finished task, a row is settled exactly if its answer was delivered or is about to be, or a new task took its place |
| `SettlementQuestions.StandingQuestionsAreAsked` | src/plugins/llm-agent/response-finalizer.ts:268-319 | without errors, crashes and refused questions, every observed entry into input-required has its question posted or about to be, and a task stands there because of one unless it was recorded so or a reply was answered so |
| `SettlementSequential.AloneIsARun` | src/plugins/llm-agent/task-reconciler.ts:177-282 | a run of one actor's steps, with no rival moving, leaves the row, ledger and outcome that it has alone |
| `SettlementSequential.TickIsARun` | src/plugins/llm-agent/task-reconciler.ts:288-360 | a tick as the reconciler runs it, with any outcome of its query, its agent list, its visits and its prune, is a run of the interleaved system, with the same table, posts and reported count |
| `SettlementServices.ResponseFinalizer.PostOrRollBack` | src/plugins/llm-agent/response-finalizer.ts:224-261 | table, posts and outcome are those of an actor that owes the answer and runs alone |
| `SettlementServices.ResponseFinalizer.SettleTerminal` | src/plugins/llm-agent/response-finalizer.ts:196-262 | the same for an actor that saw a terminal state |
| `SettlementServices.ResponseFinalizer.SettleInputRequired` | src/plugins/llm-agent/response-finalizer.ts:268-319 | the same for an actor that saw input-required |
| `SettlementServices.ResponseFinalizer.DispatchTask` | src/plugins/llm-agent/response-finalizer.ts:325-388 | the same for any observation, with an unrecognised state a failure that changes nothing |
| `SettlementServices.ResponseFinalizer.FinalizeRow` | src/plugins/llm-agent/response-finalizer.ts:390-424 | the same for an actor about to fetch its task |
| `SettlementServices.ResponseFinalizer.Finalize` | src/plugins/llm-agent/response-finalizer.ts:429-461 | a push notification: a task not on record is looked up once more after a pause, and if it was recorded meanwhile the effect is that of a push about that row; a row on record has the effect of its actor running alone |
| `SettlementServices.PostOrRollBackEffect` | src/plugins/llm-agent/response-finalizer.ts:224-261 | owing an answer ends with one more answer and the table untouched, or with no answer and the row reopened |
| `SettlementServices.AskEffect` | src/plugins/llm-agent/response-finalizer.ts:285-318 | owing a question ends with one more question, or with none and the guarded write back of the snapshot's state |
| `ReconcilerServices.TaskReconciler.SettleFailure` | src/plugins/llm-agent/task-reconciler.ts:133-171 | posts a failure the tick has committed, or reopens the row; reports whether it was delivered |
| `ReconcilerServices.TaskReconciler.ReconcileRow` | src/plugins/llm-agent/task-reconciler.ts:177-282 | table, posts and report are those of the reconciler's actor running alone |
| `ReconcilerServices.TaskReconciler.PollAndSettle` | src/plugins/llm-agent/task-reconciler.ts:205-282 | the same from the poll on |
| `ReconcilerServices.TaskReconciler.ReconcileRows` | src/plugins/llm-agent/task-reconciler.ts:309-326 | the loop visits the page in order and counts its settles |
| `ReconcilerServices.TaskReconciler.RunOnceLocked` | src/plugins/llm-agent/task-reconciler.ts:288-349 | a tick visits its page, prunes and reports both counts; it is rejected before any visit if the agents cannot be listed |
| `ReconcilerServices.TaskReconciler.RunOnce` | src/plugins/llm-agent/task-reconciler.ts:351-360 | a call that finds a tick under way does nothing; otherwise it is one tick, and the flag is free again even after a rejection |
| `ReconcilerServices.ResumeActiveTask` | src/plugins/llm-agent/steps/resume-active-task.ts:231-315 | a reply's updates are those of the resume actor, and it posts no answer |
| `ReconcilerServices.TickCountsItsAnswers` | src/plugins/llm-agent/task-reconciler.ts:288-349 | the count a tick returns is the number of answers Slack accepted from it, whatever fails |
| `ReconcilerServices.TickCountsItsPrunes` | src/plugins/llm-agent/task-reconciler.ts:288-349 | the other count it returns is the number of rows that left the table, none if the prune failed; it is rejected exactly if it has rows to visit and no list of agents, and then changes nothing |
| `ReconcilerServices.TickSettlesExactly` | src/plugins/llm-agent/task-reconciler.ts:288-349 | a faultless tick settles exactly the rows of its page that the single-visit condition picks out, and returns their number |
| `ReconcilerServices.TwoTicksRecoverExactlyWhen` | src/plugins/llm-agent/task-reconciler.ts:177-282 | two ticks that select an overdue row, faultless at that row, deliver its answer by the second if the first saw the agent at work, and otherwise exactly if the second decides |
| `ReconcilerServices.SweepVisitsEachRowAlone` | src/plugins/llm-agent/task-reconciler.ts:309-326 | what a whole sweep does to one row of its page, and posts for it, is what that row's visit does alone |
| `ReconcilerFairness.OldestHundredAreServed` | src/plugins/llm-agent/a2a-task-tracker.ts:232-248 | only unsettled rows past the grace period are on the page, each once and the older first; such a row is on it if fewer than a hundred others are as old, and no row is while a hundred are older |
| `ReconcilerFairness.UnansweredQuestionsStarveTheRest` | src/plugins/llm-agent/a2a-task-tracker.ts:232-248 | over any series of ticks, a row younger than a hundred open questions is on no page, nothing is posted and no unsettled row changes |
| `ReconcilerFairness.CrowdedTableStarves` | src/plugins/llm-agent/a2a-task-limits.ts:2-2 | a table with a hundred open questions and a younger task at work meets that premise |
| `SettlementWitnesses.AnswerCanBeLostToARevert` | src/plugins/llm-agent/response-finalizer.ts:290-318 | a run with no error and no crash whose row ends settled with no answer delivered or owed |
| `SettlementWitnesses.AnswerCanBeLostToAReply` | src/plugins/llm-agent/steps/resume-active-task.ts:278-314 | a run with no error, crash or refused post in which a reply is answered with the completed task: the row ends settled and its answer is posted by nobody |
| `SettlementWitnesses.AReplysQuestionIsNotAsked` | src/plugins/llm-agent/steps/resume-active-task.ts:300-312 | a run in which a reply is answered with another question, and only the first was posted |
| `SettlementWitnesses.ABornQuestionIsNotAsked` | src/plugins/llm-agent/a2a-task-tracker.ts:183-205 | a task recorded as waiting for its user, whose question was not posted |
| `SettlementWitnesses.RemoteFailureIsNeverRetried` | src/plugins/llm-agent/response-finalizer.ts:196-262 | a run without error or crash in which an agent reports a failure, Slack refuses the answer, and the row stays failed and unsettled whatever attempts follow |
| `ThreadContext.Eligible` | src/plugins/llm-agent/steps/sync-thread-context.ts:108-135 | keeps exactly the messages that pass the cursor, own-message and in-flight rules |
| `ThreadContext.EligibleConcat` | src/plugins/llm-agent/steps/sync-thread-context.ts:123-135 | messages are judged one by one and kept in fetch order |
| `ThreadContext.EligibleOne` | src/plugins/llm-agent/steps/sync-thread-context.ts:97-121 | a message is kept if it has a timestamp past the cursor and is the bot's own on a cold start, another bot's, or a user's not in flight |
| `ThreadContext.SelectForInjection` | src/plugins/llm-agent/steps/sync-thread-context.ts:123-135 | the loop collects the eligible messages in fetch order |
| `ThreadContext.MaxTsOf` | src/plugins/llm-agent/steps/sync-thread-context.ts:73-79 | the largest timestamp of all messages, none if there is none |
| `ThreadContext.FetchThreadReplies` | src/plugins/llm-agent/steps/sync-thread-context.ts:44-71 | reads pages up to the fifth, reports a cut, and gives nothing when any page fails |
| `ThreadContext.PagesAreReadExactly` | src/plugins/llm-agent/steps/sync-thread-context.ts:44-71 | the result is all messages of the first n pages in order, where n is the first page without more or five, cut exactly if the fifth has more; none exactly if a page asked for fails |
| `ThreadContext.FitByCharBudget` | src/plugins/llm-agent/steps/sync-thread-context.ts:159-177 | the start of the longest suffix within the character budget, always keeping the last line |
| `ThreadContext.FitBoth` | src/plugins/llm-agent/steps/sync-thread-context.ts:346-370 | the longest suffix within both limits; the note is set exactly when a message was dropped or paging was cut |
| `ThreadContext.LongestAllowedSuffixIsUnique` | src/plugins/llm-agent/steps/sync-thread-context.ts:159-177 | that suffix is determined by the eligible messages |
| `ThreadContext.AllowedExactlyWhen` | src/plugins/llm-agent/steps/sync-thread-context.ts:24-25 | the limits are a hundred messages and, for more than one, 16,000 characters of the lines as text |
| `ThreadContext.SyncThreadContext` | src/plugins/llm-agent/steps/sync-thread-context.ts:313-406 | the context is empty when a page fails, and otherwise the longest allowed suffix of the eligible messages with its note and newest timestamp |
| `ThreadTurns.ComputeThreadCursor` | src/plugins/llm-agent/conversation-agent/conversation-agent.ts:259-276 | the loop finds the newest tag, skipping messages without one; a history without tags is a cold start |
| `ThreadTurns.Cursor` | src/plugins/llm-agent/conversation-agent/conversation-agent.ts:259-276 | that tag occurs among the turns, as a trigger or as a newest fetched message, and no tag of either kind is newer; there is none exactly if no turn is tagged |
| `ThreadTurns.QueueIsAFifoLock` | src/plugins/llm-agent/thread-turn-queue.ts:11-33 | per thread at most one function runs, in call order, and a rejected one lets the next go |
| `ThreadTurns.SomebodyCanMove` | src/plugins/llm-agent/thread-turn-queue.ts:14-26 | a waiting call is never wedged: the oldest unreleased call of its thread can move |
| `ThreadTurns.TailsDrain` | src/plugins/llm-agent/thread-turn-queue.ts:24-31 | a tail is never removed while a later call is chained on it, and the map is empty after the last cleanup |
| `ThreadTurns.NoTurnIsLost` | src/plugins/llm-agent/dispatcher.ts:165-188 | a thread's history is exactly its successful turns in call order |
| `ThreadTurns.WithoutTheQueueATurnIsLost` | src/plugins/llm-agent/conversation-agent/conversation-agent.ts:112-118 | without the queue two turns can succeed and only one be in the history |
| `ThreadTurns.NothingIsToldTwice` | src/plugins/llm-agent/dispatcher.ts:65-87 | no message is told to two different turns, also when cursor or fetch failed in between |
| `ThreadTurns.CursorNeverDecreases` | src/plugins/llm-agent/conversation-agent/conversation-agent.ts:404-425 | a thread's cursor never goes back, nor back to a cold start |
| `ThreadTurns.SyncTellsOnlyNews` | src/plugins/llm-agent/steps/sync-thread-context.ts:108-121 | whatever a sync tells is newer than every tag of the history and no newer than the tag the turn leaves |
| `ThreadTurns.SyncAccountsForEveryMessage` | src/plugins/llm-agent/steps/sync-thread-context.ts:44-177 | every message of every page read is told only if newer than the cursor, not the bot's own after its first turn, and not a user's in flight; if all that holds and it is not told, a limit dropped it and the note is set |
| `ThreadTurns.SyncTellsTheNewest` | src/plugins/llm-agent/steps/sync-thread-context.ts:313-406 | what is told are the eligible messages from some point of the pages on, in order, at most 100 and, beyond one, at most 16,000 characters; all of them if they fit; the note is set exactly if some came before or pages were left unread |
| `ThreadTurns.FailedSyncTellsNothing` | src/plugins/llm-agent/steps/sync-thread-context.ts:318-335 | a page that fails, or an unknown cursor, leaves a turn without context and without a tag of it |
| `ThreadTurns.ThreadTurnQueue.Run` | src/plugins/llm-agent/thread-turn-queue.ts:14-26 | a call chains behind the current tail of its thread and becomes the tail |
| `ThreadTurns.ThreadTurnQueue.OnSettled` | src/plugins/llm-agent/thread-turn-queue.ts:27-31 | cleanup removes the entry only if it is still this call's own tail |
| `InFlightTurns.ATurnIsNotAlsoContext` | src/plugins/llm-agent/dispatcher.ts:198-260 | a message that is a turn in the history is told to no turn that synced after its call came, itself included, unless another call with its trigger had finished by then |
| `InFlightTurns.DistinctTriggersAreReadOnce` | src/plugins/llm-agent/dispatcher.ts:198-260 | where no two calls share a trigger, it is told to none |
| `InFlightTurns.ATwinMayBeToldItself` | src/plugins/llm-agent/in-flight-turns.ts:18-30 | a run in which one of two calls with one trigger fails, withdraws the key, and the other is told its own trigger |
| `InFlightTurns.AMentionMayBeReadByNobody` | src/plugins/llm-agent/steps/sync-thread-context.ts:108-121 | a run that leaves a mention in no turn and below the cursor of all later syncs |
| `InFlightTurns.SyncIsUnmixed` | src/plugins/llm-agent/steps/sync-thread-context.ts:97-121 | of the calls that have come, a sync tells only triggers of earlier turns that failed and triggers whose key another call has withdrawn |
| `InFlightTurns.AMentionMayBeReadTwice` | src/plugins/llm-agent/dispatcher.ts:206-212 | a run in which a mention whose call comes after another turn's sync is told to that turn and is a turn as well |
| `InFlightTurns.InFlightTurnRegistry.Start` | src/plugins/llm-agent/in-flight-turns.ts:20-22 | registers the key and no other, as a run of turns does when the call enters |
| `InFlightTurns.InFlightTurnRegistry.Finish` | src/plugins/llm-agent/in-flight-turns.ts:23-25 | withdraws the key and no other, as a run of turns does when the call is over |
| `Scheduler.TasksAreBounded` | src/scheduler/scheduler.ts:88-188 | at most floor(maxDuration / interval) ticks; a done tick and a time-out never both, nor either twice; the active set within its limit |
| `Scheduler.NextKeepsChains` | src/scheduler/scheduler.ts:73-160 | one step keeps every task within its time: the k-th tick starts no earlier than k intervals after the start and none past the deadline, and a task that saw done or timed out does neither again |
| `Scheduler.TicksAreSpaced` | src/scheduler/scheduler.ts:88-150 | a task's next tick starts only after its last has returned, and at least an interval after that one started |
| `Scheduler.FireDoesExactly` | src/scheduler/scheduler.ts:88-110 | a timer that fires past the duration times the task out, unlists it and calls its onTimeout exactly if it has one; one in time starts one tick; an unlisted task just ends |
| `Scheduler.TickReturnDoesExactly` | src/scheduler/scheduler.ts:109-144 | a tick that is done completes and unlists its task; one that threw goes to the error handler if there is one; otherwise the timer is armed again, and for an unlisted task nothing happens |
| `Scheduler.HandlerReturnDoesExactly` | src/scheduler/scheduler.ts:92-144 | after an error handler the timer is armed again if the task is still listed, after onTimeout never |
| `Scheduler.ScheduleDoesExactly` | src/scheduler/scheduler.ts:153-188 | a schedule call is refused for an invalid argument, a name in use or a full set, in that order, and otherwise lists one new task with its timer armed |
| `Scheduler.CancelDoesExactly` | src/scheduler/scheduler.ts:174-178 | cancel ends the task listed under the name, stops its timer and touches no other |
| `Scheduler.TasksEndAsTheirStatus` | src/scheduler/scheduler.ts:73-144 | in every run that reuses no name over an awaited tick: completed means one tick was done, timed out means none was and onTimeout was called if there is one, running means neither |
| `Scheduler.EndedTasksStayEnded` | src/scheduler/scheduler.ts:73-144 | a task that left running keeps its status and starts no further tick |
| `Scheduler.PoliteRunsAreLawful` | src/scheduler/scheduler.ts:73-86 | if no name is reused over an awaited tick, a task is listed exactly while it runs and leaves running at most once |
| `Scheduler.RunsWithoutCancelAreLawful` | src/scheduler/scheduler.ts:73-188 | the same without any premise as long as nobody cancels, since an awaited tick still owns its name |
| `Scheduler.NamesNeverOverlap` | src/scheduler/scheduler.ts:73-86 | then nothing of an older task of the same name is still to come |
| `Scheduler.ImpoliteScheduleMakesTwoTick` | src/scheduler/scheduler.ts:88-144 | that premise is needed: an older tick or error handler coming back undecided sets two tasks of one name ticking |
| `Scheduler.ImpoliteScheduleOrphansTheNewTask` | src/scheduler/scheduler.ts:75-106 | an older tick coming back done ends its handle a second time and unlists the new task, which then runs no tick and stays running |
| `Scheduler.CancelThenReuseGoesWrong` | src/scheduler/scheduler.ts:174-178 | a run from the empty scheduler that cancels during a tick and reuses the name reaches both failures |
| `Scheduler.CiWatchIsBounded` | src/plugins/blog/ci-watcher.ts:131-178 | a CI watch polls at most 30 times and patches its message at most once |
| `Scheduler.CiWatchPatchesExactlyOnce` | src/plugins/blog/ci-watcher.ts:131-178 | in every run without a cancel, a CI watch has patched its message exactly once when it has left running, and not before |
| `Scheduler.CiWatchEndsInTime` | src/plugins/blog/ci-watcher.ts:157-166 | the first timer after 15 minutes makes that patch; any earlier one polls once |
| `Scheduler.InMemoryScheduler.Schedule` | src/scheduler/scheduler.ts:153-188 | refuses a bad interval or duration, a name in use or a full set, in that order; otherwise arms the first timer |
| `Scheduler.InMemoryScheduler.SetStatus` | src/scheduler/scheduler.ts:75-86 | ends the status, stops the timer and frees the name |
| `Scheduler.InMemoryScheduler.Cancel` | src/scheduler/scheduler.ts:174-178 | cancels what the name stands for, if anything |
| `Scheduler.InMemoryScheduler.RunTask` | src/scheduler/scheduler.ts:88-109 | a timer callback up to its first await |
| `Scheduler.InMemoryScheduler.AfterTickReturns` | src/scheduler/scheduler.ts:110-144 | what follows a tick: completion, the error handler, or the next timer |
| `ResponseSlot.RunKeepsSlotLaw` | src/plugins/llm-agent/steps/post-final-response.ts:56-133 | in every run each event's slot is in exactly one place per row recorded: open, held, used, lost or withdrawn |
| `ResponseSlot.OneResponsePerEvent` | src/plugins/llm-agent/steps/post-final-response.ts:32-133 | over all interleavings at most one call posts, suppresses or marks an event recorded once, and none while another holds its slot |
| `ResponseSlot.FailedPostLeavesTheSlotWinnable` | src/plugins/llm-agent/steps/post-final-response.ts:94-111 | a failed post that gives its mark back leaves the slot open, unheld and unanswered |
| `ResponseSlot.PostAloneDoesExactly` | src/plugins/llm-agent/steps/post-final-response.ts:56-111 | a post alone takes an open slot and no other, keeps it if Slack accepts and gives it back if not; it loses the slot exactly if the mark lost its reply or the way back never ran |
| `ResponseSlot.MarkAloneDoesExactly` | src/plugins/llm-agent/steps/post-final-response.ts:118-133 | a call that only marks takes an open slot for good and leaves any other alone |
| `ResponseSlot.EventLogStore.RecordReceived` | src/plugins/llm-agent/event-log-store.ts:80-99 | inserts once and says whether it did |
| `ResponseSlot.EventLogStore.DeleteReceived` | src/plugins/llm-agent/event-log-store.ts:100-106 | removes the row |
| `ResponseSlot.EventLogStore.MarkResponded` | src/plugins/llm-agent/event-log-store.ts:185-203 | changes an open row and reports the count, so one caller wins |
| `ResponseSlot.EventLogStore.UnmarkResponded` | src/plugins/llm-agent/event-log-store.ts:204-219 | reopens a responded row and no other, and reports the count |
| `ResponseSlot.EventLogStore.PostFinalResponse` | src/plugins/llm-agent/steps/post-final-response.ts:56-111 | posts if and only if this call won the slot and Slack accepted; leaves the log exactly as a post of the runs above does alone |
| `ResponseSlot.EventLogStore.SuppressFinalResponse` | src/plugins/llm-agent/steps/post-final-response.ts:118-133 | takes the slot without a post, and reports whether it won |
| `EventGate.EveryEventIsDispatchedOnce` | src/plugins/llm-agent/event-log-store.ts:80-99 | an event is dispatched once if it is on record and not at all otherwise, however often delivered |
| `EventGate.GateHearsExactly` | src/plugins/llm-agent/plugin.ts:76-299 | lets through exactly a user's event with an id that is a message of a supported subtype, being direct, a file with a mention, or without a mention in a thread that some lookup found; or a mention no other recorded event is about |
| `EventGate.ReasonsOfMessages` | src/plugins/llm-agent/plugin.ts:115-245 | each reason is given for exactly its case |
| `EventGate.DispatchedExactlyWhenHeard` | src/plugins/llm-agent/plugin.ts:276-442 | over any run, once what is accepted is recorded, an event is dispatched exactly once if some delivery of it was let through, and never otherwise |
| `EventGate.HeardMessageIsDispatchedOnce` | src/plugins/llm-agent/plugin.ts:147-147 | a direct message, a file with a mention, or a reply in a thread of the bot's, once delivered, is dispatched exactly once |
| `EventGate.PlainMentionIsDispatchedOnce` | src/plugins/llm-agent/plugin.ts:115-164 | any order and repetition of a plain mention's two deliveries dispatches it exactly once, if its app_mention came |
| `EventGate.AttachedMentionIsDispatched` | src/plugins/llm-agent/plugin.ts:247-274 | a mention with a file is dispatched at least once, and neither delivery twice |
| `EventGate.AttachedMentionTwiceExactlyWhen` | src/plugins/llm-agent/plugin.ts:247-274 | it is dispatched twice if and only if its message came and some app_mention was checked before that was on record |
| `EventGate.AttachedMentionMayBeDispatchedTwice` | src/plugins/llm-agent/plugin.ts:254-258 | every mention with a file has a run in which it is dispatched twice |
| `EventGate.EventIntake.RunOnEvent` | src/plugins/llm-agent/plugin.ts:276-442 | dispatches exactly a new delivery that the gate lets through, whose row is recorded and which onAccepted takes; states exactly when its row stays, under lost replies and failed roll backs |
| `EventGate.RecordedIsNeverDispatchedAgain` | src/plugins/llm-agent/event-log-store.ts:80-99 | once a row is on record, no later delivery dispatches its event |
| `EventGate.EventIntake.DecideForMention` | src/plugins/llm-agent/plugin.ts:247-274 | a mention is a duplicate exactly when another event about the same message is on record; a failed lookup decides nothing |
| `EventGate.OneDelivery` | src/plugins/llm-agent/plugin.ts:276-442 | that is one `Deliver` and one `Record` of the runs above, with nothing in between |
| `ImageBlocks.ResolveThumbnail` | src/plugins/llm-agent/steps/resolve-image-blocks.ts:76-121 | the largest tier that downloads and fits, and an error if and only if none does |
| `ImageBlocks.ResolveImageBlocks` | src/plugins/llm-agent/steps/resolve-image-blocks.ts:130-167 | on success the thumbnails of a prefix of the images, complete unless the budget is used up to the byte; an error if and only if some reached image has no tier that fits |
| `ImageBlocks.BudgetIsKept` | src/plugins/llm-agent/steps/resolve-image-blocks.ts:20-21 | each block is at most 500 KiB and all together at most 700 KiB |
| `ImageBlocks.NoLargerTierIsPassedOver` | src/plugins/llm-agent/steps/resolve-image-blocks.ts:76-121 | a tier that downloads and keeps within both caps is taken unless a larger one is |
| `ImageBlocks.SelectionIsUnique` | src/plugins/llm-agent/steps/resolve-image-blocks.ts:130-167 | images and downloads leave only one such selection |
| `ImageBlocks.SelectionNeverGetsStuck` | src/plugins/llm-agent/steps/resolve-image-blocks.ts:123-129 | success and failure exclude each other: no earlier block survives an unusable image |
| `ThinkBlocks.ReadIsAReading` | src/plugins/llm-agent/conversation-agent/strip-think-blocks.ts:7-7 | the leftmost-match split puts no opening tag in visible text and no closing tag in reasoning |
| `ThinkBlocks.TagsInAnyCase` | src/plugins/llm-agent/conversation-agent/strip-think-blocks.ts:7-7 | a tag is its letters in either case and nothing else |
| `ThinkBlocks.ReadRenders` | src/plugins/llm-agent/conversation-agent/strip-think-blocks.ts:7-7 | the split loses nothing: its pieces put together are the text |
| `ThinkBlocks.ReadingIsUnique` | src/plugins/llm-agent/conversation-agent/strip-think-blocks.ts:7-13 | a text can be split in only one such way |
| `ThinkBlocks.StripShowsTheVisible` | src/plugins/llm-agent/conversation-agent/strip-think-blocks.ts:20-27 | the result is the trimmed visible text, cut where removing blocks joined up a new opening tag |
| `ThinkBlocks.ReasoningDoesNotLeak` | src/plugins/llm-agent/conversation-agent/strip-think-blocks.ts:1-5 | replies that differ only in their reasoning come out the same |
| `ThinkBlocks.VisibleSurvivesExactlyWhen` | src/plugins/llm-agent/conversation-agent/strip-think-blocks.ts:20-27 | all visible text survives if and only if no new opening tag is joined up |
| `ThinkBlocks.VisibleTextMayBeCut` | src/plugins/llm-agent/conversation-agent/strip-think-blocks.ts:20-27 | a reply whose visible text is cut because removing a block joins up an opening tag |
| `ThinkBlocks.NoOpeningTagIsLeft` | src/plugins/llm-agent/conversation-agent/strip-think-blocks.ts:20-27 | no opening tag in any letter case is left |
| `ThinkBlocks.StrippedExactlyWhen` | src/plugins/llm-agent/conversation-agent/strip-think-blocks.ts:24-27 | `stripped` is set if and only if the text had an opening tag |
| `ThinkBlocks.PlainTextIsOnlyTrimmed` | src/plugins/llm-agent/conversation-agent/strip-think-blocks.ts:20-27 | text without an opening tag is only trimmed |
| `ThinkBlocks.StripIsIdempotent` | src/plugins/llm-agent/conversation-agent/strip-think-blocks.ts:20-27 | stripping its own result changes nothing |
| `ThinkBlocks.TrimIsASlice` | src/plugins/llm-agent/conversation-agent/strip-think-blocks.ts:25-25 | the trim takes white space off both ends, all of it and nothing else |
| `ThinkBlocks.SpacesByCodePoint` | src/plugins/llm-agent/conversation-agent/strip-think-blocks.ts:25-25 | white space is what the ECMAScript Language Specification trims |

## Left out

- Drizzle and Postgres, LangGraph, the Slack and A2A clients, fetch, tracing and logging: each call is one atomic step whose outcome the surroundings choose.
- Message wording: persona paraphrasing, artifact and error texts, image analysis and descriptions; only whether and when something is posted is modelled.
- HTTP server, router, signature check, configuration, shutdown, health and the assistant-status indicator.
- Blog rendering and its service client; of the CI watch only its life as a scheduled task is modelled.
- The columns that decide nothing, such as `createdBy` texts and URLs of rows; `findActiveInputRequired` is the premise that a reply starts on an unsettled input-required row, read at that moment.
- Redelegation after an unresumable task: the settle is modelled, the new task it records is a `Delegate` of its own, at any time.
- A resume marks its event before it sends; that mark is `ResponseSlot`'s, not part of the settlement machine.
- The finalizer's and the reconciler's mark of the event after a delivered answer: in `ResponseSlot` as bookkeeping; in the settlement machine it is the step that reports the settle.
- Retention of the event log, and deletion of a thread's activity row.
- The turns of `ThreadTurns` are the tagged ones; what an untagged message of an older checkpoint had said may be told once more at its thread's first tagged turn, as the code's comment accepts.
- A partial checkpoint left by a failed turn: a failed turn is taken to write nothing.
- Slack timestamps are natural numbers of microseconds; JavaScript's rounding of them is not modelled.
- In `ThreadTurns` the in-flight set is arbitrary at each sync, so what is proved there holds whatever it contains; `InFlightTurns` adds the registry, on the premise that a trigger is never a bot's message.
- Turns that resume a delegated task do not go through the queue; they only add keys to the registry.
- Thread-context images and their descriptions; the file extension read off a thumbnail's content type; both kinds of selection are modelled by sizes and lines.
- Starting a timer early: a timer fires no earlier than its interval, at any later time, and the clock never goes back.
- The thread lookups of a mention-less message are part of its event; their failures count as nothing found, as in the code.
- `EventGate` runs assume that recording and `onAccepted` succeed; their failures are in `EventIntake.RunOnEvent`, for one delivery.
