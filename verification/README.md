# Bunshō: proofs about its stateful parts

Bunshō is a flashcard service: a FastAPI back end with a spaced-repetition engine, and a React client that
follows content builds over a WebSocket. This project models the parts of it that keep a promise over a
whole run, and proves those promises in Dafny. `dafny verify dfyconfig.toml` checks all of it.

What is modelled, part by part:

* **The review store and concurrent answers** (`ReviewTables`, `AnswerRuns`). The tables `card_state` and
  `review_log` are fields of a class; a call of `answer` is a sequence of small steps, one for every await, and a
  run is any interleaving of any number of calls. The scheduler is arbitrary, but it stamps the review time
  and never returns a card as new.
* **The day's plan** (`StableSort`, `NewCardPolicies`, `DailyPlan`, `StudyRuns`). The ordered list of candidates,
  the mastery unlock, the choice among the types, and runs in which every served card is answered.
* **Study days and statistics** (`StudyDay`, `ReviewStats`, `Timestamps`, `DueQueries`). A zone is a list of clock
  changes with a constant offset between them. Stored times are fixed-width texts.
* **The build manager and its live view** (`BuildTasks`, `BuildOutcomes`, `TaskManager`, `BuildFeed`). Event-loop
  callbacks and coroutine pieces are the steps; the worker thread takes part by reporting and by ending. One
  subscriber's queue, lost sockets and new ones, and the browser's fold of the messages are joined to it.
* **The reconnecting client and the browser session** (`BuildStreams`, `StreamProtocol`, `BrowserSessions`). State
  machines over generations and epochs; the client refines a protocol of six phases.
* **Ending login sessions** (`SessionRevocation`, `SocketRegistry`). A table, a map that a restart loses, tokens
  that share a session id, and the registry of open sockets.
* **The login throttle** (`LoginThrottle`), **distractors** (`Distractors`) and the **furigana parser**
  (`Furigana`, `FuriganaMarks`).

Code that changes state in place is a class or a method with a loop, proved against a function on values; runs
are sequences of steps of those functions, and the promises are lemmas about every run.

Places where the code does less than its comments say. For the first four the condition is exact, an if-and-only-if
over every run or every zone, and an input on the failing side is given; the last two say when the code does what
is expected of it, and give a failing input too.

* `record_review` compares `last_review` only. Of the times at which a card was reviewed, every run with these times
  leaves a chain in the log exactly when no two of them but the last are the same microsecond
  (`AnswerRuns.ChainIffUnambiguous`; `AnswerRuns.SameTimeBreaksChain` builds a failing run for any repeated time).
* `study_day_window` promises that every instant of a study day agrees on its window. For clock changes of at most a
  day that holds exactly when none skips or repeats an interval with a rollover strictly inside
  (`StudyDay.WindowsSoundIff`). `StudyDay.DaySkipped` is the day Samoa left out in 2011: sound for a rollover at
  midnight, and for no other. With no rollover inside a change, `study_date` tells the windows apart exactly when no
  skip that begins at a rollover ends past midnight within the same study day (`StudyDay.SameDateSameWindowIff`).
  `StudyDay.LastHourSkipped` is a clock that goes from 23:00 to midnight, as in Nuuk, with rollover at 23:00: its
  windows are sound and two of them share a date.
* `AuthService.revoke` promises that any token of the session is refused. At every moment of a revocation, the tokens
  in time that it ends for ever are exactly those it shields (`SessionRevocation.ShieldedIff`). A token refreshed
  while the revocation is being stored can outlast it (`SessionRevocation.RefreshedWhileRevoking`), and of two
  revocations of one session that overlap the one with the earlier expiry can be stored last, so a token issued
  before the later one began can come back (`SessionRevocation.OverlappingRevocations`).
* A build whose runner has ended still holds the single-flight slot exactly when the runner was cancelled before its
  first step (`BuildTasks.EndedHoldsSlotIff`), and then it holds it for ever (`BuildTasks.CancelledBeforeStart`);
  `BuildTasks.EarlyCancelHappens` is such a run.
* With a queue for one event a browser can miss the last progress (`BuildFeed.OnePlaceLosesProgress`, from the state
  that `BuildFeed.AboutToEndHappens` reaches); with any other size it catches up (`BuildFeed.BrowserCatchesUp`).
* `_due_view` can serve a kana card although the earliest due card that still exists is not kana: it does when an
  orphaned kana card comes before that one and a later kana card that exists outranks the orphan
  (`DailyPlan.OrphanLeads`). `DailyPlan.DueView` says for every scan when kana is served.

## Model

| member | source | states |
|---|---|---|
| ReviewTables.ProgressRepository.RecordReview | src/bunsho/db/progress_repository.py:201-272 | one transaction: the insert or compare-and-set with the log append, or nothing at all, with the outcome that says which |
| ReviewTables.ProgressRepository.GetCard | src/bunsho/db/progress_repository.py:75-83 | the stored row of a card, or none for a card never reviewed |
| ReviewTables.ProgressRepository.NewCardsIntroduced | src/bunsho/db/progress_repository.py:129-142 | per item type the number of logged first reviews in a window, types without one left out |
| ReviewTables.SumByType | src/bunsho/db/progress_repository.py:292-297 | the grouped rows add up per item type, and a type is present exactly when a row of it is |
| ReviewTables.DirectionsAddUp | src/bunsho/db/progress_repository.py:129-142 | grouping by direction and adding up again loses and repeats no first review |
| ReviewTables.WindowsAddUp | src/bunsho/db/progress_repository.py:129-142 | a window cut in two counts every first review once |
| AnswerRuns.TablesAgree | src/bunsho/db/progress_repository.py:215-272 | after any interleaving a card has a row exactly when it has log entries; reps, last review and lapses are what the entries say, and exactly the first entry is of a new card |
| AnswerRuns.IntroducedOnce | src/bunsho/db/progress_repository.py:129-142 | in every run the count of introduced cards is the number of distinct cards whose first review is in the window |
| AnswerRuns.RowsInOrder | src/bunsho/db/progress_repository.py:226-240 | in every run the rows were inserted in the order of the first reviews in the log |
| AnswerRuns.CommitStores | src/bunsho/db/progress_repository.py:215-272 | a commit is answered exactly when the card is as its request read it; then the row holds the new schedule, other rows stay, and the log has one more entry of what the request said |
| AnswerRuns.EarlierSteps | src/bunsho/orchestration/review_session.py:269-284 | before the commit an unknown item is refused, the card is read as it is, and a token that is not its last review is refused |
| AnswerRuns.RefusalChangesNothing | src/bunsho/orchestration/review_session.py:269-289 | only a commit that answers its request changes the tables; every refusal leaves them alone |
| AnswerRuns.LogIsChain | src/bunsho/db/progress_repository.py:242-258 | in any interleaving in which no two reviews of a card but the last share a time, each review was based on exactly the state its predecessor stored |
| AnswerRuns.EntriesTellStates | src/bunsho/db/progress_repository.py:259-272 | then each log entry tells the state, stability and difficulty the review before it left, and the time since |
| AnswerRuns.TokenSpentOnce | src/bunsho/orchestration/review_session.py:275-280 | each review's token is the time of the one before it, so no token is spent twice |
| AnswerRuns.Linearizable | src/bunsho/orchestration/review_session.py:242-298 | the tables after any interleaving are those of its committed answers replayed one at a time |
| AnswerRuns.AloneNeedsToken | src/bunsho/orchestration/review_session.py:269-289 | such a single answer is recorded exactly when its token is the card's last review, none for a new card |
| AnswerRuns.SameTimeBreaksChain | src/bunsho/db/progress_repository.py:244-248 | for any list of review times in which one before the last is repeated, a run that reviews the card at exactly these times and whose log is no chain |
| AnswerRuns.ChainIffUnambiguous | src/bunsho/db/progress_repository.py:242-258 | every run with given review times of a card leaves a chain exactly when none of them but the last repeats another |
| AnswerRuns.Answer | src/bunsho/orchestration/review_session.py:269-289 | a call that nothing interleaves with: unknown item, stale token or the recorded review, and the tables after each |
| Timestamps.Civil | src/bunsho/db/timestamps.py:27 | every instant of the years 1000 to 9999 has a calendar time that is that instant |
| Timestamps.MonthsBegin | src/bunsho/db/timestamps.py:27 | the months begin on the days that the calendar's table says, a day later after a leap February |
| Timestamps.EarlierIffSmaller | src/bunsho/db/timestamps.py:10 | comparing calendar times field by field, the most significant first, is comparing instants |
| Timestamps.ParseFormat | src/bunsho/db/timestamps.py:10-36 | reading the fixed-width text gives every calendar field back |
| Timestamps.ParseUndoesFormat | src/bunsho/db/timestamps.py:13-36 | what is written for an instant reads back as that instant, to the microsecond |
| Timestamps.StringOrderIsTimeOrder | src/bunsho/db/timestamps.py:1-4 | the texts are ordered as the instants, and equal only for equal instants |
| DueQueries.DueTextsAreTimes | src/bunsho/db/progress_repository.py:85-96 | filtering, ordering and limiting by text returns the rows that comparing instants returns |
| DueQueries.DueCardsAreEarliest | src/bunsho/db/progress_repository.py:85-96 | only due cards, by due time and then id; a due card left out comes after every returned one in that order, and only at the limit |
| DueQueries.NextDueReadsBack | src/bunsho/db/progress_repository.py:108-114 | the least text after the given one reads back as the soonest later instant a card is due; none when there is none |
| DueQueries.WindowTextsAreTimes | src/bunsho/db/progress_repository.py:133-156 | the window queries keep by text exactly the rows that comparing instants keeps |
| DueQueries.ReviewsAreOldestFirst | src/bunsho/db/progress_repository.py:144-158 | `reviews_between` returns the one list of exactly the reviews of the window by time and then id |
| StableSort.SortSorts | src/bunsho/services/new_card_policies.py:38 | the sort used for the catalogue orders it |
| NewCardPolicies.CandidatesAreStudyList | src/bunsho/services/new_card_policies.py:31-44 | the candidates are all unintroduced allowed cards, each once, by level, position and direction |
| NewCardPolicies.StudyOrderIs | src/bunsho/services/new_card_policies.py:31-44 | items without a level come first, then the levels from N5 to N1, and within a level the position decides |
| NewCardPolicies.StudyListIsUnique | src/bunsho/services/new_card_policies.py:47-62 | no other list fits that description, so `select` takes the first of exactly that list |
| NewCardPolicies.SelectsFirst | src/bunsho/services/new_card_policies.py:47-62 | what is selected is a prefix of that list: all of it without a limit, else as long as the limit allows |
| NewCardPolicies.IntroducingRemovesOne | src/bunsho/services/new_card_policies.py:31-48 | introducing an offered card and using up one of the allowance removes exactly that card from the offer |
| NewCardPolicies.CountLevels | src/bunsho/services/new_card_policies.py:106-115 | the counters hold the cards of each level and those of them in Review |
| NewCardPolicies.UnlockedLevels | src/bunsho/services/new_card_policies.py:100-121 | a level is unlocked exactly when every non-empty level before it meets the threshold |
| NewCardPolicies.UnlockedMeans | src/bunsho/services/new_card_policies.py:100-121 | that is: of the cards of every level before it, counted once each, at least the threshold are in Review |
| NewCardPolicies.UnlockingGrows | src/bunsho/services/new_card_policies.py:100-121 | the unlocked levels are a prefix of the study order that only grows as more cards reach Review |
| DailyPlan.PlanType | src/bunsho/orchestration/review_session.py:334-355 | what the plan offers of a type: nothing when held back or used up, else the first of the list within the allowance |
| DailyPlan.OffersFirst | src/bunsho/orchestration/review_session.py:334-355 | a type on offer gets the beginning of its study list, as long as what is left of its allowance, all of it without a limit; any other type nothing |
| DailyPlan.PlanNewKeys | src/bunsho/orchestration/review_session.py:333-356 | the plan has an entry for every type, the offer of that type |
| DailyPlan.PickNew | src/bunsho/orchestration/review_session.py:66-90 | none exactly when nothing is offered; else a card of the type with the largest share, ties to the earlier type, kana by lowest rank |
| DailyPlan.ShareIsLeft | src/bunsho/orchestration/review_session.py:66-77 | the share is what is left of the limit, and a type without a limit counts as untouched |
| DailyPlan.PickDue | src/bunsho/orchestration/review_session.py:93-99 | the earliest due card, or when it is kana the due kana of lowest rank |
| DailyPlan.DueView | src/bunsho/orchestration/review_session.py:300-318 | gives up only when every scanned card is an orphan; serves kana exactly when a kana card with only orphans before it is usable or outranked by a usable one, and then the usable kana none outranks; else the earliest card that is no orphan |
| DailyPlan.OrphanLeads | src/bunsho/orchestration/review_session.py:93-99 | an orphaned kana card, a usable card of another type, a usable kana card: the last one is served exactly when it outranks the orphan |
| DailyPlan.EarliestDecides | src/bunsho/orchestration/review_session.py:93-99 | with no orphaned kana card before it, the earliest usable card decides whether kana is served |
| StudyRuns.StudyWindowsTile | src/bunsho/services/study_day.py:28-37 | the study windows of a zone are what the runs below assume of days |
| StudyRuns.PickServes | src/bunsho/orchestration/review_session.py:229-233 | what `pick_new` returns for the plan of the moment is an unseen card such a run may serve |
| StudyRuns.DailyLimitHolds | src/bunsho/orchestration/review_session.py:344-355 | in a sequential run from any tables, the cards of a type introduced on a study day never exceed its positive limit, or stay where they were if more were introduced before |
| StudyRuns.AnsweringShrinksPlan | src/bunsho/orchestration/review_session.py:320-356 | in a sequential run from any tables, answering a planned new card removes exactly it from its type's plan for the day |
| StudyRuns.PicksAreFair | src/bunsho/orchestration/review_session.py:66-84 | in a sequential run from any tables, once it introduced a type on a day, no type still on offer is ahead by more than one card of that type's allowance |
| StudyDay.InOwnWindow | src/bunsho/services/study_day.py:28-37 | with no rollover skipped or repeated, every instant lies in the window computed for it |
| StudyDay.SameWindow | src/bunsho/services/study_day.py:31-37 | then all instants of a window compute the same window |
| StudyDay.NextWindowFollows | src/bunsho/services/study_day.py:36-37 | then the window of a window's end starts there, so the windows tile time |
| StudyDay.WindowIsOfDay | src/bunsho/services/study_day.py:31-37 | the window of an instant is from the last time of rollover its clock showed to the next one, a day on by the clock |
| StudyDay.FirstOccurrence | src/bunsho/services/study_day.py:31-33 | a wall time that is shown twice is read as its first occurrence |
| StudyDay.RolloverInsideBreaks | src/bunsho/services/study_day.py:33-37 | with a rollover strictly inside a skipped or repeated interval the instant of the change is outside its own window |
| StudyDay.WindowsSoundIff | src/bunsho/services/study_day.py:11-37 | for changes of at most a day, every instant is in its own window exactly when no rollover is skipped or repeated |
| StudyDay.StudyDateIsDay | src/bunsho/services/study_day.py:40-43 | if moreover no skip that begins at a rollover ends past midnight within the study day, the study date is the day whose rollover began the window |
| StudyDay.StudyDateIsDayIff | src/bunsho/services/study_day.py:40-43 | and that condition is exact: the study date is that day for every instant if and only if it holds |
| StudyDay.SameDateSameWindow | src/bunsho/services/study_day.py:40-43 | under the same conditions two instants have one study date exactly when one is in the other's window |
| StudyDay.SameDateSameWindowIff | src/bunsho/services/study_day.py:28-43 | dates and windows correspond for all instants if and only if no such skip moves a date |
| StudyDay.DaySkipped | src/bunsho/services/study_day.py:33-37 | a zone that skips a day at midnight: dates and windows correspond for rollover 0, and for any other rollover the instant of the change is outside its own window |
| StudyDay.LastHourSkipped | src/bunsho/services/study_day.py:33-43 | a zone whose clock goes from 23:00 to midnight, with rollover at 23:00: every instant is in its own window, yet dates and windows do not correspond, and the change has the date of the next day |
| ReviewStats.CountRecords | src/bunsho/services/review_stats.py:72-87 | the loop's counts: reviews of each of the 30 dates, and those of cards in Review, answered and passed |
| ReviewStats.SummaryComplete | src/bunsho/services/review_stats.py:70-87 | under the same conditions, reading a month of the log loses and double-counts no review of the 30 dates, and today's count is that of the window |
| ReviewStats.Summary | src/bunsho/services/review_stats.py:58-87 | under the same conditions every daily count, the retention counts and today's count are those of the whole log |
| LoginThrottle.LoginThrottle.Recent | src/bunsho/services/login_throttle.py:34-43 | the pruned deque is exactly the failures since the last reset that are in the window |
| LoginThrottle.LoginThrottle.RetryAfter | src/bunsho/services/login_throttle.py:45-50 | none exactly when fewer than the maximum of all failures since the reset are in the window; else the time until the oldest of them leaves it |
| LoginThrottle.LoginThrottle.RecordFailure | src/bunsho/services/login_throttle.py:52-57 | the failure joins the history of its key, whatever is pruned on the way |
| LoginThrottle.LoginThrottle.Reset | src/bunsho/services/login_throttle.py:59-61 | the key's history is forgotten and no other one |
| LoginThrottle.LoginThrottle.BeginLogin | src/bunsho/api/routers/auth.py:40-50 | an admitted attempt is reserved before its check, no window exceeds the maximum, and a refused client is admitted after the returned wait |
| LoginThrottle.LoginThrottle.FinishLogin | src/bunsho/api/routers/auth.py:51-59 | a success clears the client's attempts, a failure leaves the reserved one |
| LoginThrottle.AdmittingKeepsLimit | src/bunsho/api/routers/auth.py:41-50 | admitting only below the maximum keeps every stretch of one window length at or below it |
| LoginThrottle.WaitingIsEnough | src/bunsho/services/login_throttle.py:45-50 | after the returned time the next attempt is admitted unless another was recorded |
| LoginThrottle.NextAttempt | src/bunsho/api/routers/auth.py:40-59 | an attempt is admitted exactly when fewer than the maximum of those admitted since the client's last success are in the window; only a success forgets them |
| LoginThrottle.ChecksAreLimited | src/bunsho/api/routers/auth.py:48-51 | however logins interleave, no window holds more than the maximum of password checks of a client since its last success |
| Distractors.Shuffle | src/bunsho/services/distractors.py:53-54 | whatever is drawn, a shuffle keeps every element |
| Distractors.RankedPool | src/bunsho/services/distractors.py:41-55 | the pool is every other entry, none before one of a more preferred band |
| Distractors.PickDistractors | src/bunsho/services/distractors.py:95-107 | at most three new distinct answers; fewer only if all on offer are shown; none from a band while a better one has an answer not shown |
| Distractors.ChoicesFor | src/bunsho/services/distractors.py:87-111 | the correct answer once among at most four distinct options, fewer only if all on offer are shown, bands used in order |
| Distractors.FairMeans | src/bunsho/services/distractors.py:95-107 | every other option is the first answer of another item in the card's script, and from a worse band only when the better ones are used up |
| BuildTasks.OneWorker | src/bunsho/orchestration/build_tasks.py:135-150 | through any failures and cancellations at most one worker thread is alive, and it holds the slot |
| BuildTasks.EventsAreBlocks | src/bunsho/orchestration/build_tasks.py:174-274 | the events of a build are one block: a running state first, progress in between, at most one final state last |
| BuildTasks.EventsTellTask | src/bunsho/orchestration/build_tasks.py:211-220 | a build's progress is the last published, its published end is its state and error, and a running build holds the slot |
| BuildTasks.SucceededWasBuilt | src/bunsho/orchestration/build_tasks.py:190-210 | a build has succeeded only if its worker thread ended well, and has an error exactly when it failed |
| BuildOutcomes.EndedBuild | src/bunsho/orchestration/build_tasks.py:174-220 | from the steps of the run: an ended build succeeded exactly when its worker ended well, no cancellation was delivered, and it was dry or the content was reopened; else its error is the cancellation's, the worker's, the factory's or the reopening's own; its end is published unless the clock fails |
| BuildOutcomes.UnendedBuild | src/bunsho/orchestration/build_tasks.py:174-213 | before that it is running, or failed by a delivered cancellation, and no end is published |
| BuildOutcomes.RunnerFollows | src/bunsho/orchestration/build_tasks.py:174-238 | where the runner is and whether its worker thread lives is what the steps say: it ends with a failing or cancelled first step, or when it hears of the worker's end |
| BuildOutcomes.ProgressIsLastHeard | src/bunsho/orchestration/build_tasks.py:264-268 | a build's progress is the last report heard before its end and before an interruption |
| BuildOutcomes.RanInOrder | src/bunsho/orchestration/build_tasks.py:240-262 | the event loop runs the workers' callbacks in the order they were scheduled, losing none |
| BuildTasks.TrimmedKeepsNewest | src/bunsho/orchestration/build_tasks.py:167-172 | trimming forgets the oldest builds only and never the one just started |
| BuildTasks.EndedHoldsSlotIff | src/bunsho/orchestration/build_tasks.py:174-213 | in every run, a runner that has ended still holds the slot exactly when it was cancelled before its first step |
| BuildTasks.CancelledBeforeStart | src/bunsho/orchestration/build_tasks.py:194-213 | a runner that ended after such a cancellation keeps the slot through every later step and every later start is refused |
| BuildTasks.EarlyCancelHappens | src/bunsho/orchestration/build_tasks.py:135-150 | starting a build, cancelling its runner and letting it run is such a run |
| TaskManager.EventQueue.Offer | src/bunsho/orchestration/build_tasks.py:270-274 | the queue gets the event, dropping its oldest when full, and stays the newest part of what was published since it subscribed |
| TaskManager.BuildTaskManager.Publish | src/bunsho/orchestration/build_tasks.py:270-274 | every subscriber's queue receives the event that way, and remains the newest part of the manager's own events |
| TaskManager.BuildTaskManager.Subscribe | src/bunsho/orchestration/build_tasks.py:107-116 | a new empty queue joins the subscribers |
| TaskManager.BuildTaskManager.TrimHistory | src/bunsho/orchestration/build_tasks.py:167-172 | the newest builds within the limit are remembered, the active one always |
| TaskManager.BuildTaskManager.Start | src/bunsho/orchestration/build_tasks.py:127-150 | refused without effect while a build is active; else the new running build holds the slot; every queue receives exactly the events that were published |
| TaskManager.BuildTaskManager.Progress | src/bunsho/orchestration/build_tasks.py:264-268 | ignored unless the build is running; else kept, and every queue receives exactly the events that were published |
| TaskManager.BuildTaskManager.BeginRun | src/bunsho/orchestration/build_tasks.py:174-189 | the piece of `_run` before its first await, with a cancellation or a failing factory, and the events every queue receives |
| TaskManager.BuildTaskManager.SettleRun | src/bunsho/orchestration/build_tasks.py:190-220 | the piece after the shielded await: cancelled, broken, built, or built and not reopened, and the events every queue receives |
| TaskManager.BuildTaskManager.WaitRun | src/bunsho/orchestration/build_tasks.py:229-238 | waiting for the worker after a cancellation: another one changes nothing, the worker's end frees the slot, and the events every queue receives |
| TaskManager.BuildTaskManager.Release | src/bunsho/orchestration/build_tasks.py:211-220 | the slot is freed first, a failing clock loses only the last event, and else every queue receives it |
| BuildFeed.BrowserCatchesUp | src/bunsho/api/routers/ws.py:117-128 | through any interleaving with lost sockets and new ones, with room for two events and no build started while online, a drained queue leaves the browser with the latest build's progress, and its state and error once running or published; dependents are refreshed once for each build newly shown as ended |
| BuildFeed.OncePerCompletion | frontend/src/api/queries.ts:36-43 | between showing a build as running and as ended there is exactly one refresh, and none after that, however often the socket was lost and replaced |
| BuildFeed.JoinRefreshes | frontend/src/realtime/applyMessage.ts:25-32 | a snapshot replaces what is shown, and refreshes exactly when it shows an ended build where another or a running one was shown |
| BuildFeed.LosingAndRejoining | src/bunsho/api/routers/ws.py:117-128 | a lost socket changes nothing shown, and a new one shows the latest build with an empty queue |
| BuildFeed.UnseenEvent | frontend/src/realtime/applyMessage.ts:34-50 | an event of a build not shown changes nothing shown, and refreshes exactly at that build's end |
| BuildFeed.PushTells | src/bunsho/orchestration/build_tasks.py:270-274 | with room for two events dropping the oldest never loses the newest progress or the end |
| BuildFeed.DeliverKeeps | frontend/src/realtime/applyMessage.ts:34-50 | folding the next event keeps browser and queue together telling the build, and refreshes only at its first end |
| BuildFeed.JoinedOk | src/bunsho/api/routers/ws.py:117-125 | subscribing and taking the snapshot in one piece misses nothing |
| BuildFeed.OnePlaceLosesProgress | src/bunsho/orchestration/build_tasks.py:272-274 | with room for one event a build about to report and to end ends with progress the browser never shows |
| BuildFeed.AboutToEndHappens | src/bunsho/orchestration/build_tasks.py:174-189 | a run of a dry build reaches that state, for any progress |
| BuildStreams.OneContinuation | frontend/src/realtime/BuildStream.ts:58-158 | while not stopped exactly one thing can move the client on, or it has given up and shows so; a timer runs exactly while it shows retrying |
| StreamProtocol.FollowsProtocol | frontend/src/realtime/BuildStream.ts:58-158 | whatever arrives in whatever order, the client is in the phase, and has shown and forwarded exactly what, a protocol of six phases without sockets and promises says |
| StreamProtocol.ForwardsWhatArrives | frontend/src/realtime/BuildStream.ts:96-127 | exactly the messages that arrive on the socket open at the time reach the application, in order |
| StreamProtocol.ShowsConnected | frontend/src/realtime/BuildStream.ts:117-127 | the connection is shown from a ready frame until its socket closes or the client stops, and not before |
| BuildStreams.StoppedIsSilent | frontend/src/realtime/BuildStream.ts:66-86 | after a stop nothing still pending changes or shows anything |
| BuildStreams.StaleIsSilent | frontend/src/realtime/BuildStream.ts:96-110 | nothing left over from an earlier attempt changes or shows anything |
| BuildStreams.RefreshesOnce | frontend/src/realtime/BuildStream.ts:129-141 | the session is refreshed, a new answer waited for, at most once between two ready frames or starts |
| BuildStreams.GivesUpOnRefusal | frontend/src/realtime/BuildStream.ts:129-147 | it gives up only when refused again after a refresh, or when the refresh failed |
| BuildStreams.DelayInRange | frontend/src/realtime/backoff.ts:1-13 | every delay is between a quarter of a second and its ceiling, which doubles up to half a minute |
| BuildStreams.AttemptsAreRetries | frontend/src/realtime/BuildStream.ts:149-152 | the attempt a delay is computed from is the number of retries since the last ready frame or start |
| BuildStreams.BuildStream.Start | frontend/src/realtime/BuildStream.ts:58-64 | a stopped client forgets its attempts and connects; a running one is left alone |
| BuildStreams.BuildStream.Stop | frontend/src/realtime/BuildStream.ts:66-86 | the timer is cleared, the socket detached, the generation advanced and the end shown |
| BuildStreams.BuildStream.TokenSettled | frontend/src/realtime/BuildStream.ts:92-115 | a token of the current attempt opens a socket, a failure retries later, a stale one does nothing |
| BuildStreams.BuildStream.Message | frontend/src/realtime/BuildStream.ts:106-127 | a ready frame resets the attempts and shows the connection; other readable frames are forwarded |
| BuildStreams.BuildStream.SocketClosed | frontend/src/realtime/BuildStream.ts:109-141 | a close retries later, or asks for one refresh after a refusal, or gives up |
| BuildStreams.BuildStream.RefreshSettled | frontend/src/realtime/BuildStream.ts:140-147 | a refresh that worked reconnects, one that failed gives up, a stale one does nothing |
| BrowserSessions.OneRefresh | frontend/src/api/client.ts:38-46 | two unanswered refreshes are never both of the current epoch |
| BrowserSessions.BeginsWhenNoneRuns | frontend/src/api/client.ts:38-46 | a refresh makes a request of its own exactly when no unfinished one is of the current epoch, and else joins that |
| BrowserSessions.LateAnswerDropped | frontend/src/auth/session.ts:65-91 | a refresh pending when the session ended stores and ends nothing when its answer comes, whatever happened since |
| BrowserSessions.NoTokenUntilLogin | frontend/src/auth/session.ts:73-79 | once the session ended there is no token, in memory or stored, until a login stores one |
| BrowserSessions.ToldOncePerEpoch | frontend/src/auth/session.ts:85-91 | listeners are told at most once of the end of each epoch |
| BrowserSessions.ToldWhenItEnds | frontend/src/auth/session.ts:73-91 | they are told exactly when the session ends otherwise than by a logout |
| BrowserSessions.OnlyTheseEnd | frontend/src/api/client.ts:10-29 | a session ends exactly by a logout, a rejected refresh of its own epoch, or a refresh without a stored token |
| BrowserSessions.UsableIsLastGranted | frontend/src/auth/session.ts:51-71 | the token in use is that of the last pair granted since the session ended, until half a minute before it expires |
| BrowserSessions.StoredIsLastGranted | frontend/src/auth/session.ts:65-79 | the stored refresh token is of the same pair, before the first one what the page found, and none after an end |
| BrowserSessions.BrowserSession.GetAccessToken | frontend/src/auth/session.ts:51-54 | never a token that expires within the margin |
| BrowserSessions.BrowserSession.StoreTokens | frontend/src/auth/session.ts:65-71 | a pair is stored exactly when it is of the expected epoch |
| BrowserSessions.BrowserSession.ExpireSession | frontend/src/auth/session.ts:85-91 | a rejection of the current epoch forgets everything and tells the listeners; an earlier one does nothing |
| BrowserSessions.BrowserSession.StartRefresh | frontend/src/api/client.ts:38-46 | a call joins the refresh of its epoch or begins one, which ends at once without a stored token |
| BrowserSessions.BrowserSession.FinishRefresh | frontend/src/api/client.ts:16-28 | an answer is kept exactly when it is a grant and its epoch is still current |
| SessionRevocation.RevokedForEver | src/bunsho/services/auth.py:167-183 | a token that a revocation shields at any moment of being stored, whenever it was issued, is refused once the revocation has completed, through all later steps and restarts |
| SessionRevocation.ShieldedIff | src/bunsho/services/auth.py:167-183 | at every moment of every run, of the session's tokens still in time, a revocation under way ends for ever exactly those it shields |
| SessionRevocation.UnshieldedReadmitted | src/bunsho/db/revoked_session_store.py:60-72 | for any other one, steps by which the revocation completes and the token is later accepted again |
| SessionRevocation.BeginShields | src/bunsho/services/auth.py:181-182 | a revocation that begins shields exactly the tokens of its session that outlast no other revocation of it under way |
| SessionRevocation.MintShields | src/bunsho/services/auth.py:164-165 | an access token handed out while a lone revocation is not yet stored is shielded exactly when it ends by the stored expiry |
| SessionRevocation.RefreshedWhileRevoking | src/bunsho/services/auth.py:164-182 | two seconds into a revocation a refresh succeeds: its access token is shielded and its refresh token is not |
| SessionRevocation.OverlappingRevocations | src/bunsho/db/revoked_session_store.py:60-72 | a run in which a second revocation covers a token issued before it to its end, and yet does not end it for ever, since the first one is still under way and lapses earlier |
| SessionRevocation.PrunedMeansExpired | src/bunsho/db/revoked_session_store.py:66-72 | when the entry of a revoked session is gone from the table or from memory, every token the revocation shielded has ended |
| SessionRevocation.IssueOk | src/bunsho/services/auth.py:91-118 | a token is of the kind and session it was issued for, and ends within a second before its lifetime is over |
| SessionRevocation.TokensComeFrom | src/bunsho/services/auth.py:120-165 | in every run each token came with a login, or by a refresh token of its session that was in time and not revoked |
| SessionRevocation.RevocationsComeFrom | src/bunsho/services/auth.py:167-183 | and each revocation was begun by such a refresh token, for its session and a full refresh lifetime |
| SessionRevocation.LoginWorks | src/bunsho/services/auth.py:91-118 | a login begins a session of its own with a pair of tokens |
| SessionRevocation.RefreshTokenWorks | src/bunsho/services/auth.py:157-183 | conversely such a refresh token gets a new pair of tokens, and begins a revocation |
| SessionRevocation.SessionRunsOut | src/bunsho/services/auth.py:120-165 | once every refresh token of a session has ended no step adds a token to it |
| SessionRevocation.StagesAre | src/bunsho/db/revoked_session_store.py:50-72 | in every run a revocation is written and then remembered, and a failed write or a crash ends it |
| SessionRevocation.StoreIsLast | src/bunsho/db/revoked_session_store.py:37-72 | in every run the table holds for each session the expiry last written, and memory the one last loaded or remembered, until it lapses |
| SessionRevocation.LapsedGo | src/bunsho/db/revoked_session_store.py:37-72 | a start drops every lapsed row and remembers the rest; a revocation drops those that had lapsed when it began |
| SessionRevocation.RevokedSessionStore.LoadRows | src/bunsho/db/revoked_session_store.py:37-45 | lapsed rows are deleted and the rest is the memory |
| SessionRevocation.RevokedSessionStore.IsRevoked | src/bunsho/db/revoked_session_store.py:47-49 | true exactly for the sessions in memory |
| SessionRevocation.RevokedSessionStore.WriteRevocation | src/bunsho/db/revoked_session_store.py:60-70 | lapsed rows go and the session's row is set in one transaction; a failed write changes nothing |
| SessionRevocation.RevokedSessionStore.RememberRevocation | src/bunsho/db/revoked_session_store.py:71-72 | lapsed entries go and the session's entry is set |
| SocketRegistry.SessionSockets.Register | src/bunsho/orchestration/session_sockets.py:34-36 | the socket joins its session's set |
| SocketRegistry.SessionSockets.Unregister | src/bunsho/orchestration/session_sockets.py:38-45 | the socket leaves, an empty set goes with it, unknown ones are ignored |
| SocketRegistry.SessionSockets.CloseSession | src/bunsho/orchestration/session_sockets.py:53-83 | every socket listed for the session is asked to close once, however many closes fail |
| SocketRegistry.HandlersHaveAccess | src/bunsho/api/routers/ws.py:150-188 | in every run every handler serves an issued access token |
| SocketRegistry.AccessTokenWorks | src/bunsho/api/routers/ws.py:150-188 | conversely an access token in time, of a session not revoked, is served and its socket listed |
| SocketRegistry.LogoutMissesNoSocket | src/bunsho/orchestration/session_logout.py:36-43 | when a logout takes its list it is every live handler of the session; no token of it is accepted then, and none that its revocation shields ever after |
| SocketRegistry.NoHandlerSurvives | src/bunsho/api/routers/ws.py:175-188 | a handler that runs after the logout on a token its revocation shields was on the list |
| Furigana.ParseMatches | src/bunsho/services/furigana.py:43-57 | the loop yields what is read from the start on, one match and the plain text before it at a time |
| Furigana.ChunkSpelled | src/bunsho/services/furigana.py:43-57 | the segments spell the chunk, but for at most one whitespace dropped before each ruby |
| Furigana.ParsePrint | src/bunsho/services/furigana.py:11 | printing canonical segments and parsing the text gives them back |
| Furigana.SearchIsLeftmost | src/bunsho/services/furigana.py:11 | the search finds the leftmost text the pattern accepts and misses none |
| Furigana.ClassesAre | src/bunsho/services/furigana.py:11 | a base holds no bracket and none of the space characters of Unicode, listed one by one, and a reading no closing bracket |
| FuriganaMarks.ParseFurigana | src/bunsho/services/furigana.py:29-40 | the segments of the parts in turn, tags dropped, the mark tags switching the highlighting |
| FuriganaMarks.SplitLosesNothing | src/bunsho/services/furigana.py:10 | the parts put together are the text |
| FuriganaMarks.SplitAlternates | src/bunsho/services/furigana.py:10 | text and tags alternate and the text has no tag in it |
| FuriganaMarks.HighlightedByLastTag | src/bunsho/services/furigana.py:31-39 | a segment is highlighted exactly when the last mark tag before its part is an opening one |
| FuriganaMarks.ParsedSpells | src/bunsho/services/furigana.py:29-40 | the segments spell the text without its tags |
| FuriganaMarks.ParseMarkup | src/bunsho/services/furigana.py:14-40 | printing runs of canonical segments, the highlighted ones in mark tags, and parsing gives them back |

## Left out

- AnswerRuns.LogIsChain: claims nothing for two reviews of one card in the same microsecond, neither of them the last, because the compare-and-set cannot tell them apart.
- SessionRevocation.RevokedForEver: claims nothing for tokens the revocation does not shield, because those can be accepted again.
- SessionRevocation.PrunedMeansExpired: speaks of the tokens a completed revocation shielded, for the same reason.
- DailyPlan.DueView: claims nothing beyond the scanned cards, because the source cuts the scan at 50.
- DailyPlan.PickNew: takes plans in which a limited type on offer has some allowance left, as `_plan` builds them.
- BuildTasks.OneWorker: does not claim that a slot is always released, because a runner cancelled before its first step never releases it; nor does it model cancelling the worker task itself at shutdown.
- BuildFeed.BrowserCatchesUp: leaves out the answers of the refetches the browser asks for, builds started while it is online, and a queue for one event.
- BuildStreams.OneContinuation: assumes that a socket closes once and is then silent, that creating a socket does not fail, and that `onState` and `onMessage` do not call back into the client.
- LoginThrottle.LoginThrottle.RetryAfter: needs a positive maximum and window; the source fails on an empty deque for a maximum of 0.
- Distractors.ChoicesFor: the card's own level, script and accepted answers are parameters, and a card without answers is the failure of the source's index.
- The FSRS scheduler is an arbitrary function under its contract; stability, difficulty, retrievability and fuzzing are not modelled.
- Signatures, password hashing, rank hashes and random ids: tokens are records, ranks an arbitrary function, ids fresh values. Settings such as token lifetimes stay the same over a run.
- SQLite, asyncio, threads and HTTP as systems: a transaction is one step, and so is the code between two awaits.
- Floating point: shares and thresholds are reals, times are integers of microseconds.
- Lists and dictionaries that the source changes in place are fields of a value type that the methods reassign, so aliasing of a returned deque or list is not captured.
- Log columns `mode` and `duration_ms`, the rounding of the retention percentage and the per-level progress counts.
- `strptime` accepts some texts that `strftime` never writes (unpadded fields); `Timestamps.Parse` reads the written form only.
- Storage that is blocked, storage events and several browser tabs: `BrowserSessions` has one tab with working storage.
- The retry of an API call after a 401 (`request`) and the promises handed to callers that share a refresh.
- The limit on unauthenticated sockets, the authentication timeout and the classification of a bad first message.
- The kana gate and switched-off types enter the plan as a set of available types; `StudyRuns.PicksAreFair` takes it as fixed.
- React components, static files, configuration loading, migrations, file locks, dictionary data and health checks.
