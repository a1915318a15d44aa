# Arc LMS: a verified model of its stateful core

Arc LMS is a multi-tenant school platform: a Go service over Postgres and Redis. Most of it stores and fetches
records. This project models the parts in which state, loops or interleavings decide the outcome, and proves what
those parts promise to the rest of the system.

| module | what it models |
|---|---|
| `Idempotency` | the middleware's protocol over one Redis cell per (tenant, key): the class methods, one request's atomic steps, and all interleavings of any number of requests, with Redis calls that fail before or after taking effect |
| `RateLimit` | the sliding-window limiter over a trimmed sorted set |
| `Grading` | the examination grader, the quiz grader and manual grading |
| `Examination`, `ExaminationOutcomes`, `ExaminationServices` | examinations, submissions and the background window job: every run of service calls, and the service object whose methods take exactly those steps |
| `Ranking`, `ProgressServices` | grades, class positions and report cards |
| `Calendar`, `CalendarServices` | academic sessions and terms |
| `Billing` | invoices from bulk runs and from term activation |
| `Scheduler` | ticker loops, manual triggers, Start and Stop, one critical section at a time |
| `Money`, `LogMask`, `Pagination` | money printing, masking of logged bodies (in place, on heap objects), page arithmetic |
| `Wrappers`, `Counting`, `JsonValues` | what the others share |

Where the source changes state, the model has a class with the same fields, and its methods are proved equal to pure
step functions. The theorems over whole runs are about those step functions.

An identifier, a clock reading and the answer of a failing repository or Redis call are parameters. A service call
is one atomic step, except in `Idempotency` and `Scheduler`, where each Redis call and each critical section is one.

## What the proofs found

* At-most-once holds under every Redis fault for handlers that run under a key. A request with a well-formed key runs
  its handler without the key exactly when its Get or its TryAcquire fails, so the guarantee over all handlers needs
  those two calls to answer.
* The rate limit is documented as 1000 requests a minute with bursts of twice the sustained rate for up to 30 seconds
  (BRD.md:553-555): 1000 in a burst window, 1500 in a minute with one burst. The code multiplies the limit of a whole
  window instead. `MostAllowed` is the exact maximum over all runs, for every length of interval and every
  configuration but a multiplier of zero with a positive limit; as shipped it is 2001 in 30 seconds and 4002 in a
  minute. A documented rate is kept by every run if and only if it exceeds the number of clock ticks in its interval,
  in which case it forbids nothing. The "within sustained rate" branch lives exactly for multipliers below one with a
  positive limit.
* README.md:227 of the system calls billing idempotent under a second activation. It is not: only the bulk run looks
  for an existing invoice. A term keeps at most one invoice through an activation if and only if it had none before.
* A bulk run ignores the error of its invoice lookup. It keeps one invoice per term if and only if it bills no tenant
  behind a failed lookup whose term has an invoice, or gets one earlier in the run.
* The business rule of exactly three terms per session is enforced only as at most three. The explicit "session
  already has 3 terms" check is never reached.
* A term's status goes back if and only if ActivateTerm meets a completed term of a session with no other active term.
* Inside its window a scheduled examination can be started if and only if no event has opened the window or published
  the results: the window job takes the starting away a minute into the window, and publishing early closes it too.
  What the job submits carries no score and no marks at all, and waits unchanged until a tutor grades it.
* Manual grading limits the marks only of questions it finds on the paper. The score of a submission that waits for a
  tutor is bounded by the paper for every list of grades if and only if each of its ungraded answers is to a question
  of the paper. A student who answers a question that is not on the paper, and is handed in by the job, can be given
  any score.
* The two graders' tests differ. On single-choice questions the quiz grader looks at the first entries only; on
  MULTIPLE_ANSWER it accepts an option selected twice in place of a missing one. `OnlyOneRewards` is the exact
  condition for every question type, key and selection.
* A report card shows the student's rank if and only if the positions stored in the student's records of other classes
  exceed the rank by a sum of at least zero and less than the number of records. Otherwise the integer average lies
  above or below the rank, down to position 0 while the other class is unranked; the database then refuses the card,
  after the grades and positions are saved.
* Cards of one class need not agree with each other: a card regrades its own student only, and ungraded classmates
  average 0. Two cards made one after the other can show the same position if and only if the two students' ties
  overlap, each taken at the time of its own card.
* "Stop gracefully stops all running jobs", says `internal/scheduler/scheduler.go:84`. Once Stop has cancelled the
  context it leaves nothing running, however the goroutines go on, if and only if every manual goroutine has exited by
  then; Stop itself can always return.
* A job's runs exclude each other in every run in which its name is not registered again while it is busy, and
  registering a name is safe if and only if its job is not busy.
* Some services build page metadata from parameters that were never normalised; it matches the page returned if and
  only if page and limit were normal already.
* Arrays directly inside arrays are not masked; a body comes out free of secrets if and only if such arrays hold none.

A remark on the repositories as they are committed, which is read off their code rather than proved:
`internal/repository/postgres/term.go:156-223` and `internal/repository/postgres/session.go:95-131` leave the status
column out of their UPDATE statements, and `internal/repository/postgres/term.go:29-32` refuses the call without a
transaction that the service makes. So as committed no service call creates a term or activates anything. The calendar
model carries both as the parameter `Repositories`; every invariant is proved for all its values. BRD.md:554 gives
SUPER_ADMIN endpoints 200 requests a minute; the code gives 2000.

## Model

| member | source | states |
|---|---|---|
| Idempotency.BuildKeyInjective | internal/pkg/idempotency/store.go:37-40 | distinct (tenant, key) pairs never share a Redis key, whatever the client's key contains |
| Idempotency.Store.TryAcquire | internal/pkg/idempotency/store.go:42-55 | SET NX: succeeds exactly when the key is free and then leaves the marker; a failure may strike before or after the write |
| Idempotency.Store.Get | internal/pkg/idempotency/store.go:57-80 | gives a response exactly when one is stored; an absent key and the "processing" marker look the same |
| Idempotency.Store.Put | internal/pkg/idempotency/store.go:82-103 | replaces the cell by the response and touches no other key |
| Idempotency.Store.Delete | internal/pkg/idempotency/store.go:105-109 | frees the cell and touches no other key |
| Idempotency.Middleware.Handle | internal/middleware/idempotency.go:16-118 | a whole request leaves the cell and has the outcome that the atomic steps give, under every combination of faults, and no other cell changes; when Redis answers, what happens to the key and the client is spelled out case by case: stored success, freed failure, kept marker, replay, conflict, refused key, no key |
| Idempotency.StepsKeepPromise | internal/middleware/idempotency.go:16-118 | the atomic steps of one request keep that promise |
| Idempotency.Middleware.HandleKeyed | internal/middleware/idempotency.go:55-77 | the same from the cache lookup on |
| Idempotency.Middleware.HandleMiss | internal/middleware/idempotency.go:79-93 | the same from the attempt to acquire the key on |
| Idempotency.Middleware.RunGuarded | internal/middleware/idempotency.go:95-116 | stores a success whose body is an object or null, frees the key after a failure, and leaves the marker after a panic or a success with any other body |
| Idempotency.NextKeepsInv | internal/middleware/idempotency.go:55-117 | every step of every request keeps the protocol invariant: one claim per key, a held key is marked, a stored response comes from a successful run |
| Idempotency.AtMostOnce | internal/middleware/idempotency.go:79-116 | in every interleaving and under every fault, two requests of one (tenant, key) never both hold it, never both succeed, and none runs after a success |
| Idempotency.UnfinishedConflictUnreachable | internal/middleware/idempotency.go:63-71 | the 409 for a cached response of status 0 is never sent |
| Idempotency.RefinesWriteOnce | internal/pkg/idempotency/store.go:42-109 | every step is a step of a write-once cell (empty, busy, done, stuck) on every key at once |
| Idempotency.BusyCellMovesByOwner | internal/middleware/idempotency.go:95-116 | a busy cell moves only by a step of the request that holds it, and a response appears in it only as that request's own |
| Idempotency.HandlerEnds | internal/middleware/idempotency.go:102-116 | a handler's end leads to Store for a success with an object or null, to Delete for a status outside 200..399, and to neither otherwise |
| Idempotency.BusyEndsIff | internal/middleware/idempotency.go:102-116 | in every reachable step a busy cell becomes done, empty or stuck exactly when its owner's store or its delete takes effect, or neither |
| Idempotency.RetryIsServed | internal/middleware/idempotency.go:63-116 | on a free key, a retry after a success is answered with the first response, and a retry after a failure runs its handler |
| Idempotency.OtherPairsUntouched | internal/pkg/idempotency/store.go:37-40 | a step for one (tenant, key) leaves the abstract cell of every other pair as it was |
| Idempotency.StoredNeverChanges | internal/pkg/idempotency/store.go:82-103 | a stored response survives every further run unchanged |
| Idempotency.LaterRequestsReplay | internal/middleware/idempotency.go:55-77 | a request that begins after a response was stored gets that response, unless its Redis call fails or it opted out |
| Idempotency.CleanRunsAreGuarded | internal/middleware/idempotency.go:55-93 | when Get and TryAcquire answer and keys are well formed, no handler ever runs without its key |
| Idempotency.CleanRunsRunOnce | internal/middleware/idempotency.go:55-117 | then at most one handler of a (tenant, key) runs at a time, and none runs once one has succeeded |
| Idempotency.CleanLaterRequestsReplay | internal/middleware/idempotency.go:63-77 | then every later request is waiting for its Get or has been answered with exactly the stored response, whose status is not 0 |
| Idempotency.UnguardedIffCallFails | internal/middleware/idempotency.go:55-93 | in every run an admitted request with a well-formed key runs its handler without the key if and only if its Get or its TryAcquire fails |
| Idempotency.FailedCallRunsASecondHandler | internal/middleware/idempotency.go:55-93 | both assumptions are needed: with either call failing, before or after it took effect, a second handler runs beside the first |
| RateLimit.SortedSet.ZRemRangeByScore | internal/middleware/rate_limit.go:141-142 | removes exactly the members in the range |
| RateLimit.SortedSet.ZCount | internal/middleware/rate_limit.go:144-148 | counts the members from a score on |
| RateLimit.CheckRateLimit | internal/middleware/rate_limit.go:131-198 | trim, two counts, add and decide, as one change of the set and one decision on the set before it |
| RateLimit.BurstWithinWindow | internal/middleware/rate_limit.go:141-148 | after the trim the window count is the size of the set, so the burst count never exceeds it |
| RateLimit.SustainedBranchLiveIff | internal/middleware/rate_limit.go:176-192 | the "within sustained rate" branch can fire for some history if and only if the multiplier is below one and the limit positive |
| RateLimit.TrimmedIsRecentHistory | internal/middleware/rate_limit.go:133-154 | in every run the trimmed set is exactly the requests younger than the window |
| RateLimit.CountsAreHistoryCounts | internal/middleware/rate_limit.go:144-148 | both counts equal counts over the untrimmed history, whichever of the two windows is longer |
| RateLimit.AllowedIff | internal/middleware/rate_limit.go:176-192 | for every configuration, a request is allowed if and only if at most limit * multiplier requests, answered or rejected, came in the burst window before it, or at most `limit` in the window |
| RateLimit.OneTestDecides | internal/middleware/rate_limit.go:176-192 | unless the multiplier is zero and the limit positive, the larger of the two limits decides alone |
| RateLimit.AnswerSays | internal/middleware/rate_limit.go:176-198 | an allowed answer says how far the count is from the burst limit, a rejected one zero, and both that the reset is one window away |
| RateLimit.RemainingAreAllowed | internal/middleware/rate_limit.go:176-198 | that many further requests are allowed, whenever they come |
| RateLimit.NoMoreThanRemaining | internal/middleware/rate_limit.go:176-198 | and the next one is not, if nothing has left the burst window by then |
| RateLimit.AtMostBurstPerInterval | internal/middleware/rate_limit.go:131-198 | in every run every closed interval as long as the deciding window holds at most one allowed request more than the deciding limit: for the documented multipliers, limit * multiplier + 1 per burst window |
| RateLimit.AtMostMostAllowed | internal/middleware/rate_limit.go:131-198 | in every run no closed interval of any length holds more than `MostAllowed` allowed requests |
| RateLimit.MostAllowedIsReached | internal/middleware/rate_limit.go:176-192 | and for every length, and every configuration but a multiplier of zero with a positive limit, a run reaches that number |
| RateLimit.KeepsIff | internal/middleware/rate_limit.go:131-198 | a promise about intervals of any length is kept by every run if and only if it is at least that number |
| RateLimit.MostAllowedClosed | internal/middleware/rate_limit.go:131-198 | the number in closed form: a burst for each whole burst window, and what fits into the rest |
| RateLimit.AtMostWholeBursts | internal/middleware/rate_limit.go:131-198 | hence, for the documented multipliers, at most (length / (burst window + 1) + 1) * (limit * multiplier + 1) in any closed interval, a whole window among them |
| RateLimit.WholeBurstsReachedIff | internal/middleware/rate_limit.go:131-198 | that simpler bound is the exact one if and only if the last stretch has room for a whole burst |
| RateLimit.DocumentedRateKeptIff | internal/middleware/rate_limit.go:17-25 | every run keeps `limit` per window if and only if the limit exceeds the number of clock ticks of the window |
| RateLimit.DocumentedBurstKeptIff | internal/middleware/rate_limit.go:17-25 | the same for the documented burst, over the burst window and over the window |
| RateLimit.ShippedNumbers | internal/middleware/rate_limit.go:17-25 | the shipped configuration: 1000 and 1500 documented, 2001 and 4002 let through |
| RateLimit.SteadyOverloadIsRejected | internal/middleware/rate_limit.go:150-192 | rejected requests count: under steady overload nothing is allowed |
| Grading.ContainsAll | internal/service/examination_service.go:624-664 | the nested loops decide containment of the two lists as sets |
| Grading.ExamGradeOne | internal/service/examination_service.go:593-685 | one round follows the rule of the first question with the answer's id, type by type: equal one-element lists, equal sets, text left unmarked for a tutor, other types and foreign answers left alone |
| Grading.ExamGradedByRule | internal/service/examination_service.go:593-685 | that rule for the step function |
| Grading.RightAnswersEarnAll | internal/service/examination_service.go:577-703 | on a paper a machine can mark, the right answers earn all of its marks |
| Grading.ExamAutoGrade | internal/service/examination_service.go:577-703 | the grading loop marks every answer independently, adds the awards up and reports whether any needs a tutor |
| Grading.ExamScoreIsSumOfMarks | internal/service/examination_service.go:666-690 | on unmarked answers the score equals the sum of the marks written to the answers |
| Grading.ApplyGrades | internal/service/examination_service.go:737-769 | manual grading fails exactly when some unmarked answer gets more than its question's marks, and otherwise gives the graded answers with their sum |
| Grading.SumAtMostTotal | internal/service/examination_service.go:88-98 | marks on answers to distinct questions of the paper add up to at most the paper's marks |
| Grading.AutoScoreBounded | internal/service/examination_service.go:577-703 | an auto-graded score lies between 0 and the paper's marks |
| Grading.ManualGradingInRange | internal/service/examination_service.go:737-764 | accepted grades keep every mark within its question's marks |
| Grading.ManualGradedByRule | internal/service/examination_service.go:737-764 | marks that are there stay, otherwise the first entry for the question gives marks and feedback |
| Grading.RejectedIff | internal/service/examination_service.go:748-758 | grades are refused if and only if the first entry for some unmarked answer asks for more than its question has |
| Grading.ManualScoreBoundedIff | internal/service/examination_service.go:737-769 | the score is within the paper's marks for every accepted list of grades if and only if every unmarked answer is to a question of the paper |
| Grading.QuizGradeOne | internal/service/assessment_service.go:285-331 | one round of the quiz loop, type by type: first option against first right one, right number and all of them right, nothing marked without a selection or with the wrong number, text left for a tutor |
| Grading.QuizGradedByRule | internal/service/assessment_service.go:285-331 | that rule for the step function |
| Grading.QuizScoreIsSumOfMarks | internal/service/assessment_service.go:285-333 | on unmarked answers the quiz score is the sum of the marks written |
| Grading.QuizAutoGrade | internal/service/assessment_service.go:273-333 | map building and the grading loop give, answer by answer, the quiz verdicts, their total and whether all was auto-graded |
| Grading.DistinctCount | internal/service/assessment_service.go:305-328 | pigeonhole: a list has as many distinct options as entries if and only if it repeats none |
| Grading.MultipleAnswerTestsDisagreeIff | internal/service/assessment_service.go:305-328 | for every key and selection, exactly when the two MULTIPLE_ANSWER tests differ |
| Grading.VerdictsDisagreeIff | internal/service/assessment_service.go:291-328 | for every question type, key and selection, exactly when only one of the graders rewards |
| Grading.PlainKeyDisagreeIff | internal/service/assessment_service.go:305-328 | for a key that repeats nothing, they differ on selections of correct options with a repeat that have the right length or cover the key |
| Grading.QuizAcceptsRepeatedOption | internal/service/assessment_service.go:305-328 | one of them: the quiz grader accepts an option selected twice, the examination grader does not |
| Grading.VerdictsAgree | internal/service/assessment_service.go:291-328 | singleton and duplicate-free lists are never such a case |
| Grading.MapFindsWhatScanFinds | internal/service/assessment_service.go:278-281 | with distinct ids the map lookup and the linear scan find the same question |
| Grading.GradersAgree | internal/service/assessment_service.go:273-333 | without such a case the quiz grader and the examination grader give the same score and the same need for a tutor |
| Grading.OneAnswerScoresAgreeIff | internal/service/assessment_service.go:273-333 | on one answer the scores are equal if and only if it is no such case |
| Examination.RunKeepsInv | internal/service/examination_service.go:148-842 | over every run of calls: one attempt per student, answers distinct and in time, scores equal to sums, marks in range, published examinations hold only published submissions |
| Examination.RunEvolves | internal/service/examination_service.go:148-842 | over every run: submissions are never lost, move only forward, and keep answers and marks once submitted; a paper with a submission is never deleted or changed |
| Examination.PublishedIsFinal | internal/service/examination_service.go:784-842 | once results are out, every submission of the examination is PUBLISHED and stays so |
| Examination.PublishedExamStays | internal/domain/examination.go:108-121 | a published examination is never changed again by any run |
| Examination.ScoresAreSums | internal/service/examination_service.go:687-703 | in every reachable state a score is the sum of the marks, and lies within the paper's marks when the marked answers are to its questions |
| Examination.WaitingScoreBoundedIff | internal/service/examination_service.go:737-769 | in every reachable state, exactly when every accepted list of grades leaves a waiting submission within the paper's marks |
| Examination.ForeignAnswerEarnsAnything | internal/service/examination_service.go:423-769 | calls the service accepts that break it: save an answer to a foreign question, close the window, grade it with any number |
| Examination.OneTimelyAttempt | internal/service/examination_service.go:356-492 | in every reachable state a student has at most one attempt, and each answer came before the window's end and within the student's time |
| Examination.UnscoredIsUnmarked | internal/service/examination_service.go:577-703 | in every reachable state a submission without a score carries no marks |
| Examination.JobSubmissionsAreUnmarked | internal/scheduler/jobs/examination_window_job.go:138-150 | what the job submits has no score and no marks, and the answers as they were |
| Examination.WaitsForTutor | internal/service/examination_service.go:713-781 | until it is graded, no run changes anything in a SUBMITTED submission |
| Examination.ExamStatusMovesForward | internal/domain/examination.go:12-29 | an examination that has left DRAFT is never deleted and its status never goes back |
| Examination.CanBeStartedIff | internal/domain/examination.go:84-92 | inside its window a scheduled examination is accessible after a run if and only if the run has neither opened its window nor published it |
| Examination.StartIsRefusedIff | internal/service/examination_service.go:356-382 | and exactly then a student who starts it is refused as not accessible |
| Examination.NobodyStartsOnceUnderway | internal/scheduler/jobs/examination_window_job.go:83-118 | after the job has opened the window, starting fails in every later state, at any time |
| Examination.ScoreWithinDeclaredTotal | internal/service/examination_service.go:88-98 | in every run without an explicit override of the total, scores for questions of the paper lie within the declared total |
| Examination.UpsertKeeps | internal/service/examination_service.go:464-483 | a save keeps the answers distinct and unmarked and adds nothing but the saved answer |
| Examination.UpsertAppends | internal/service/examination_service.go:477-483 | the first answer to a question is appended, nothing else changes |
| Examination.UpsertReplaces | internal/service/examination_service.go:464-476 | a later answer replaces the first match where it stands, nothing else changes |
| Examination.LastWriteWins | internal/service/examination_service.go:464-483 | any sequence of saves leaves one answer per question, in the order of first saves, holding the last write |
| Examination.AnswersAreTheAcceptedSaves | internal/service/examination_service.go:423-492 | in every run a submission holds exactly the saves accepted in time, in that form; submitting and grading change none of it |
| Examination.LateSaveSubmitsEarlierAnswers | internal/service/examination_service.go:450-462 | a save past either limit hands in the earlier answers as they were |
| ExaminationOutcomes.SubmitHandsIn | internal/service/examination_service.go:537-703 | a submit leaves the attempt GRADED if and only if it answers no text question of the paper, SUBMITTED otherwise, every answer marked by its question's rule, the score their sum, and its times and flags set |
| ExaminationOutcomes.LateSaveHandsIn | internal/service/examination_service.go:450-462 | so does a save past either limit, as an automatic one |
| ExaminationOutcomes.SaveInTimeWrites | internal/service/examination_service.go:450-483 | a save up to the window's end and within the minutes of the examination writes the answer and nothing else |
| ExaminationOutcomes.OthersChangeNothing | internal/service/examination_service.go:423-565 | no other student's call, and no call on an attempt that is not open, changes anything |
| ExaminationOutcomes.IntegrityEventIsLogged | internal/service/examination_service.go:501-534 | an integrity event is added at the end of the log, nothing else changes |
| ExaminationOutcomes.GradeIsAcceptedIff | internal/service/examination_service.go:713-764 | grades are accepted if and only if the submission waits and no entry asks for too much |
| ExaminationOutcomes.GradeFinishes | internal/service/examination_service.go:737-781 | they finish the submission: marks by the tutor's rule, their sum, feedback, time and tutor |
| ExaminationOutcomes.PublishIsAcceptedIff | internal/service/examination_service.go:784-820 | results can be published if and only if they are not out and no attempt is open or waiting |
| ExaminationOutcomes.PublishChanges | internal/service/examination_service.go:820-842 | publishing changes the two flags of the examination and the status of its graded submissions, nothing else |
| ExaminationOutcomes.CreateIsAcceptedIff | internal/service/examination_service.go:61-98 | creation succeeds if and only if the actor is in charge of the course, the window is ordered and the total is the sum |
| ExaminationOutcomes.CreateMakesDraft | internal/service/examination_service.go:100-140 | the new examination is an unpublished draft with exactly the requested questions, total, duration and window |
| ExaminationOutcomes.UpdateSetsFields | internal/service/examination_service.go:161-226 | an update sets what it names and keeps the rest; new questions without a new total bring their own |
| ExaminationOutcomes.DraftsOnly | internal/service/examination_service.go:148-265 | updating and deleting are for drafts, and deleting removes the examination and its submissions only |
| ExaminationOutcomes.ScheduleIsAcceptedIff | internal/service/examination_service.go:268-315 | a draft is scheduled if and only if it has a question and its window has not begun |
| ExaminationOutcomes.StartOpens | internal/service/examination_service.go:356-413 | inside the window a student without an attempt gets an open, empty one that begins now |
| ExaminationOutcomes.StartAgain | internal/service/examination_service.go:379-390 | starting again returns the open attempt, and is refused once it is handed in |
| ExaminationOutcomes.JobActsIff | internal/scheduler/jobs/examination_window_job.go:83-152 | the job acts exactly on windows that began, or ended, within the last sixty seconds |
| ExaminationOutcomes.RunKeepsTraces | internal/service/examination_service.go:356-842 | over every run: attempts begin inside their window, open ones carry no trace of grading, waiting ones no marks on text answers, finished ones who graded them and when |
| ExaminationOutcomes.TutorsGradeText | internal/service/examination_service.go:573-703 | in every reachable state a finished submission that no tutor graded answers no text question, and a waiting one with a score answers one |
| ExaminationOutcomes.GradeBecomesMarks | internal/service/examination_service.go:737-764 | in every reachable state a waiting text answer has no marks, and an accepted grade for it becomes its marks |
| ExaminationServices.ExaminationService.AssignIds | internal/service/examination_service.go:88-98 | the loop that numbers the questions and adds their marks |
| ExaminationServices.ExaminationService.CreateExamination | internal/service/examination_service.go:61-140 | checks the course, its tenant and its tutor, the window and the declared total, in this order; the new examination is a draft |
| ExaminationServices.ExaminationService.UpdateExamination | internal/service/examination_service.go:148-226 | drafts only; recomputes the total with new questions, then lets an explicit total override it |
| ExaminationServices.ExaminationService.DeleteExamination | internal/service/examination_service.go:229-265 | drafts only; submissions go with it |
| ExaminationServices.ExaminationService.ScheduleExamination | internal/service/examination_service.go:268-315 | drafts with questions whose window has not begun |
| ExaminationServices.ExaminationService.StartExamination | internal/service/examination_service.go:356-413 | opens one attempt inside the window, returns an attempt in progress, refuses a submitted one |
| ExaminationServices.ExaminationService.SaveAnswer | internal/service/examination_service.go:423-492 | replaces or appends the answer in time; past either limit submits and grades the earlier answers instead |
| ExaminationServices.ExaminationService.PutAnswer | internal/service/examination_service.go:464-483 | the find-or-append loop is the upsert whose laws are stated above |
| ExaminationServices.ExaminationService.RecordIntegrityEvent | internal/service/examination_service.go:501-534 | appends the event to the student's own attempt in progress |
| ExaminationServices.ExaminationService.SubmitExamination | internal/service/examination_service.go:537-565 | submits and grades the student's own attempt in progress |
| ExaminationServices.ExaminationService.SubmitAndGrade | internal/service/examination_service.go:577-703 | the submission becomes GRADED, or SUBMITTED when a tutor is needed, with all its fields; no other submission changes |
| ExaminationServices.ExaminationService.GradeSubmission | internal/service/examination_service.go:713-781 | SUBMITTED only; marks, score, feedback and grader are saved, or nothing on an excessive grade |
| ExaminationServices.ExaminationService.PublishResults | internal/service/examination_service.go:784-842 | refused while any submission waits or runs; otherwise every GRADED submission of the examination is published with it |
| ExaminationServices.ExaminationService.OpenWindow | internal/scheduler/jobs/examination_window_job.go:83-118 | a scheduled examination whose window began within the last minute gets under way |
| ExaminationServices.ExaminationService.CloseWindow | internal/scheduler/jobs/examination_window_job.go:121-152 | an examination under way whose window ended within the last minute is completed and what is in progress is submitted ungraded |
| Ranking.ComputeGrade | internal/domain/progress.go:61-116 | sums the scores, weighs them with truncating division and picks the letter |
| Ranking.WeightedGradeIsBetween | internal/domain/progress.go:73-98 | with weights that add up to 100 the grade lies between the two scores it weighs, a missing score counting zero |
| Ranking.GradeRecords | internal/domain/progress.go:61-98 | a grade records both scores as they are and the weighted total rounded down |
| Ranking.OneWeightDecides | internal/domain/progress.go:73-98 | with all the weight on one score the total is that score |
| Ranking.LetterThresholds | internal/domain/progress.go:101-116 | where each letter begins and ends |
| Ranking.AverageTimesCount | internal/service/progress_service.go:285-289 | a student's average times the number of the student's records is the sum of their percentages |
| Ranking.AverageIsBetween | internal/service/progress_service.go:285-289 | the average lies between the student's worst and best percentage, ungraded records counting zero |
| Ranking.BetterEverywhereIsBetter | internal/service/progress_service.go:285-302 | a student whose every percentage exceeds every percentage of another has the better average |
| Ranking.PositionOf | internal/service/progress_service.go:305-308 | the position of the i-th student of the sorted list is i, and only listed students have one |
| Ranking.PositionCountsBetter | internal/service/progress_service.go:292-308 | a position exceeds the number of strictly better students and is at most the number of students at least as good |
| Ranking.PositionsAreRanks | internal/service/progress_service.go:285-308 | for every iteration order and tie order, positions are one-to-one into 1..n and a better average means a smaller position |
| Ranking.EveryPositionIsTaken | internal/service/progress_service.go:305-308 | and onto 1..n |
| Ranking.PositionIsPossibleIff | internal/service/progress_service.go:285-308 | the positions a student can get, over all orders of map iteration and of ties, are exactly those of the student's tie |
| Ranking.CardPositionIsRankIff | internal/service/progress_service.go:600-610 | the integer average of any stored positions equals a rank if and only if their excess over it is from 0 to less than the number of records |
| Ranking.UnrankedCardPositionIsRankIff | internal/service/progress_service.go:600-610 | while other classes are unranked, that is if and only if all the records are of the ranked class |
| Ranking.OtherClassMovesTheCard | internal/service/progress_service.go:600-610 | for the best of a class, another class's position 1 leaves the card at 1, position 9 moves it to 5, and no position to 0 |
| Ranking.LetterMonotone | internal/domain/progress.go:101-116 | a higher percentage never has a lower letter |
| Ranking.OverallIsBetween | internal/domain/progress.go:174-188 | the overall percentage and letter lie between the worst and the best course's |
| ProgressServices.SortDescending | internal/service/progress_service.go:292-302 | the same averages in descending order, ties in any order |
| ProgressServices.ProgressService.GroupByStudent | internal/service/progress_service.go:274-282 | the maps hold each student's record count and sum of percentages, ungraded records counting zero |
| ProgressServices.ProgressService.AverageByStudent | internal/service/progress_service.go:285-291 | every student of the class once, with the average over all records |
| ProgressServices.ProgressService.ComputeClassPositions | internal/service/progress_service.go:263-322 | every record of the class gets its student's position in some ranking by average; other records stay as they are |
| ProgressServices.ProgressService.UpdatePositions | internal/service/progress_service.go:311-319 | the closing loop saves exactly those positions |
| ProgressServices.ProgressService.ComputeGrades | internal/service/progress_service.go:564-570 | the student's records are regraded, other records stay as they are |
| ProgressServices.RegradesOwnRecords | internal/service/progress_service.go:564-570 | regrading touches the student's own records of the term only, and in them the grade only |
| ProgressServices.RanksOwnClass | internal/service/progress_service.go:311-319 | ranking touches the class's records of the term only, and in them the position only |
| ProgressServices.ProgressService.BuildCard | internal/service/progress_service.go:593-637 | the card's position, percentage and letter from the records |
| ProgressServices.ProgressService.ReportOn | internal/service/progress_service.go:563-637 | regrades, ranks the class and builds the card from the resulting store |
| ProgressServices.ProgressService.GenerateReportCard | internal/service/progress_service.go:545-659 | without a record fails and changes nothing; otherwise regrades and ranks, and then stores the card, or fails if the database refuses it as a second card, for position 0 or for its percentage |
| ProgressServices.RankedStudents | internal/service/progress_service.go:305-319 | after ranking, two records of the class have equal positions if and only if they are one student's, and all lie in 1..n |
| ProgressServices.BetterIsAhead | internal/service/progress_service.go:263-322 | and on the ranked class is stored with the smaller position |
| ProgressServices.CardShowsRankIff | internal/service/progress_service.go:545-659 | the card shows the rank if and only if the excess of the positions stored for other classes before the call is in that range |
| ProgressServices.CardShowsRank | internal/service/progress_service.go:545-659 | when the student's records are all of one class, the card shows the position stored in each of them, within 1..TotalStudents |
| ProgressServices.CardPositionIsPossibleIff | internal/service/progress_service.go:545-659 | the positions such a card can show are exactly those of the student's tie, as the class is graded when the card is made |
| ProgressServices.TwoCardsCanAgreeIff | internal/service/progress_service.go:545-659 | two cards of a class made one after the other can show the same position if and only if the ties overlap, each at the time of its card |
| ProgressServices.BothCardsSayFirst | internal/service/progress_service.go:545-659 | both say "first" when each student is alone at the top at the time of the own card |
| Calendar.RunKeepsInv | internal/service/term_service.go:67-400 | over every run: distinct ordinals, start before end, disjoint half-open ranges, at most one active term per session and one active session per tenant |
| Calendar.CreateTermIsAcceptedIff | internal/service/term_service.go:67-145 | a term is created if and only if its session exists, its dates are ordered, and ordinal and time are free; it is a draft with the requested fields |
| Calendar.UpdateTermIsAcceptedIff | internal/service/term_service.go:157-235 | a draft is updated if and only if the patched dates are ordered and clear of the other terms; exactly the named fields change |
| Calendar.TermStatusCalls | internal/service/term_service.go:238-400 | when deleting, activating and completing a term succeed, and what each changes |
| Calendar.LockedTermStays | internal/service/term_service.go:157-276 | over every run a term that has left DRAFT goes only with its session, and only its status changes |
| Calendar.ActivationLeavesOne | internal/service/session_service.go:237-272 | with statuses saved, activation leaves exactly the given session active for its tenant, archives the one before and touches no other |
| Calendar.SessionCalls | internal/service/session_service.go:54-330 | when creating and deleting a session succeed, and what creating, archiving and deleting change |
| Calendar.AtMostThreeTerms | internal/service/term_service.go:81-108 | a session has at most three terms, one per ordinal at most |
| Calendar.SessionFullIsUnreachable | internal/service/term_service.go:81-108 | in no reachable state does creation fail with "session already has 3 terms" |
| Calendar.ActiveSessionIsUnique | internal/service/billing_service.go:821-849 | in every reachable state the lookup of a tenant's active session has at most one answer |
| Calendar.ActiveTermIsUnique | internal/service/billing_service.go:850-879 | and so has the lookup of a session's active term |
| Calendar.IsInstructionalDay | internal/domain/term.go:99-129 | true exactly inside the closed range on a weekday that is no holiday and no other day off |
| Calendar.InstructionalIff | internal/domain/term.go:99-129 | in day numbers: Monday to Friday, inside the term, on no day of the two lists |
| Calendar.InstructionalInBothIff | internal/service/term_service.go:421-426 | a school day is instructional in two terms of a session if and only if it is the instant where one ends and the other starts |
| Calendar.WithoutStatusNothingActivates | internal/repository/postgres/term.go:156-223 | with updates that leave out the status column, no run activates any term or session |
| Calendar.StatusGoesBackIff | internal/service/term_service.go:293-355 | exactly which call makes a term's status go back: activating a completed term while no other is active |
| Calendar.CompletedTermReactivates | internal/service/term_service.go:293-400 | so completing and activating again restores the state |
| CalendarServices.CalendarService.ListBySession | internal/service/term_service.go:85-88 | lists the session's terms once each, in any order |
| CalendarServices.CalendarService.CreateTerm | internal/service/term_service.go:67-145 | checks dates, ordinal, overlap and number in this order, and stores a draft if the repository takes the call without a transaction |
| CalendarServices.CalendarService.UpdateTerm | internal/service/term_service.go:157-235 | drafts only; the patched dates must be in order and clear of the other terms |
| CalendarServices.CalendarService.DeleteTerm | internal/service/term_service.go:238-276 | drafts only |
| CalendarServices.CalendarService.ActivateTerm | internal/service/term_service.go:293-323 | refused exactly when another term of the session is active |
| CalendarServices.CalendarService.CompleteTerm | internal/service/term_service.go:358-400 | active terms only |
| CalendarServices.CalendarService.CreateSession | internal/service/session_service.go:54-100 | start year before end year; the new session is a draft |
| CalendarServices.CalendarService.ActivateSession | internal/service/session_service.go:224-289 | archives the tenant's active session, if it is another one, and activates this one |
| CalendarServices.CalendarService.ArchiveSession | internal/service/session_service.go:292-330 | archives a session of any status |
| CalendarServices.CalendarService.DeleteSession | internal/service/session_service.go:160-198 | refused for the active session; terms go with it |
| Billing.BillingService.GenerateTermInvoice | internal/service/billing_service.go:49-143 | adds one invoice of 50000 kobo a student, with no look at existing ones, or changes nothing on failure |
| Billing.BillingService.GenerateInvoicesForActiveTerm | internal/service/billing_service.go:718-818 | one result per tenant, counters equal to the results' counts, and created + skipped + failed = tenants |
| Billing.BillingService.BillTenant | internal/service/billing_service.go:738-815 | one round of the bulk loop, every skip and failure in the source's order |
| Billing.ActivateTerm | internal/service/term_service.go:293-355 | activation bills on success and stays in place when counting or generating fails |
| Billing.BulkRunConserves | internal/service/billing_service.go:718-818 | a run keeps all old invoices, adds one per Created result, and adds 50000 kobo for every student billed |
| Billing.OutcomeIs | internal/service/billing_service.go:738-815 | why a tenant is skipped, fails or is billed, and what its invoice says |
| Billing.AddedInvoicesAreRight | internal/service/billing_service.go:738-815 | every invoice a run adds bills one of its tenants, for its active term, 500 naira for every student counted |
| Billing.ActivationBills | internal/service/term_service.go:325-338 | activation adds the term's invoice if and only if it succeeds, the students are counted and the invoice is made |
| Billing.HasInvoiceAfterIff | internal/service/billing_service.go:738-815 | a run leaves an invoice for a term if and only if there was one or some tenant of the run bills the term |
| Billing.BulkRunKeepsOnePerTermIff | internal/service/billing_service.go:762-772 | a run keeps at most one invoice per term if and only if it bills no tenant again behind a failed lookup |
| Billing.TwoViewsBillTwice | internal/service/billing_service.go:762-772 | such a run: two views of one term, the second behind a failed lookup |
| Billing.BulkRunsKeepOnePerTerm | internal/service/billing_service.go:762-772 | any number of bulk runs whose invoice lookups answer keeps at most one invoice per term |
| Billing.CleanRunCovers | internal/service/billing_service.go:738-815 | after a clean run every tenant of it with an active term and students has its invoice |
| Billing.SecondRunCreatesNothing | internal/service/billing_service.go:762-772 | a second run right after a clean one changes nothing |
| Billing.FailedLookupBillsTwiceIff | internal/service/billing_service.go:762-772 | billing one tenant keeps at most one invoice per term unless the ignored error of its lookup hides one |
| Billing.ActivationKeepsOnePerTermIff | internal/service/term_service.go:325-338 | activation keeps at most one invoice per term if and only if the term had none |
| Billing.SecondActivationBillsAgain | internal/service/term_service.go:325-338 | activating the active term again bills it twice |
| Billing.BulkRunAddsAtMostOne | internal/service/billing_service.go:762-772 | a bulk run adds an invoice for a term only when it had none |
| Billing.DuplicatesComeFromActivation | internal/service/billing_service.go:718-818 | over every mix of bulk runs and activations a term has as many invoices as activations, or one more |
| Billing.WithoutStatusNobodyIsBilled | internal/repository/postgres/session.go:95-131 | with updates that leave out the status column no bulk run bills anybody |
| Billing.ViewsAgree | internal/service/billing_service.go:821-879 | in every reachable calendar two lookups for a tenant find the same session and term |
| Scheduler.SchedulerTable.Register | internal/scheduler/scheduler.go:54-63 | appends the job and gives its name a fresh status object |
| Scheduler.SchedulerTable.BeginRun | internal/scheduler/scheduler.go:122-135 | the first critical section: claims the status object exactly when it is not running |
| Scheduler.SchedulerTable.EndRun | internal/scheduler/scheduler.go:138-154 | the second: releases it and counts the run, and the error if there was one |
| Scheduler.SchedulerTable.HasJob | internal/scheduler/scheduler.go:183-200 | the lookup of a manual trigger finds exactly the registered names |
| Scheduler.ExecKeepsInv | internal/scheduler/scheduler.go:54-154 | every interleaving keeps the scheduler's invariant: one goroutine per running status, exact counters, wait group equal to live ticker loops |
| Scheduler.OneRunPerStatus | internal/scheduler/scheduler.go:122-154 | a status says "running" exactly while one goroutine is in its run, and never two |
| Scheduler.MutualExclusion | internal/scheduler/scheduler.go:101-200 | in every run in which a name is not registered while its job is busy, ticker loops and manual triggers never run the job at the same time |
| Scheduler.DistinctNamesAreQuiet | internal/scheduler/scheduler.go:54-63 | registering each name once is enough for that |
| Scheduler.RegisterIsSafeIff | internal/scheduler/scheduler.go:54-63 | registering a name keeps its runs apart in every continuation if and only if its job is not busy |
| Scheduler.CountersAreExact | internal/scheduler/scheduler.go:138-154 | run and error counts equal the finished and failed runs whenever the job is idle, and lag by at most one otherwise |
| Scheduler.StopWaitsForTickers | internal/scheduler/scheduler.go:85-98 | when Stop returns every ticker loop has exited |
| Scheduler.StoppedMeansNoTickers | internal/scheduler/scheduler.go:66-119 | and none is back until Start is called |
| Scheduler.TickersStay | internal/scheduler/scheduler.go:101-119 | while the scheduler is running no ticker loop ends |
| Scheduler.TickRunsTheJob | internal/scheduler/scheduler.go:112-119 | when a ticker waits and its job is idle, the next tick runs the job |
| Scheduler.RoundRuns | internal/scheduler/scheduler.go:112-154 | a whole round counts one run, and its error if there was one, and the loop waits again |
| Scheduler.TickerRunsAgain | internal/scheduler/scheduler.go:112-119 | so without another Start or trigger a ticker can run its job any number of times |
| Scheduler.JobRunsAnyNumberOfTimes | internal/scheduler/scheduler.go:54-119 | from the start: for every n there is a run with one Start and n + 1 completed runs of the job |
| Scheduler.StartLaunchesOneEach | internal/scheduler/scheduler.go:66-82 | when no Start is under way, every registration a Start has found has its one ticker loop, and there are no others |
| Scheduler.OneStartLaunches | internal/scheduler/scheduler.go:66-82 | when a Start has returned it has launched as many loops for a name as the name was registered |
| Scheduler.ReRegisteringRunsTwice | internal/scheduler/scheduler.go:54-63 | registering a busy job's name again lets it run twice at once |
| Scheduler.StopLeavesNothingIff | internal/scheduler/scheduler.go:84-98 | from the moment Stop waits, nothing is running when it returns, in every continuation without another trigger, if and only if every manual goroutine has exited |
| Scheduler.StopCanReturn | internal/scheduler/scheduler.go:85-98 | from every state of its wait there is a continuation in which every goroutine exits and Stop returns |
| Scheduler.ManualSurvives | internal/scheduler/scheduler.go:183-200 | a manual goroutine that has not exited, even one that has not begun, can be in its run when Stop returns |
| Scheduler.StopIgnoresManualRuns | internal/scheduler/scheduler.go:85-98 | one such run from the start |
| Money.FormatAmount | internal/service/pdf_service.go:122-143 | the loop from the left prints the grouping that is defined from the right |
| Money.WrittenIsGrouped | internal/service/pdf_service.go:130-139 | the same for every prefix whose rest is a multiple of three |
| Money.DecimalRoundTrip | internal/service/pdf_service.go:123-128 | a printed number reads back as itself |
| Money.StripGrouped | internal/service/pdf_service.go:130-139 | grouping adds nothing but commas |
| Money.FormatRoundTrip | internal/service/pdf_service.go:122-143 | every amount, negative ones included, is read back from its printed text |
| Money.FormatInjective | internal/service/pdf_service.go:122-143 | no two amounts print alike |
| Money.CommaPlaces | internal/service/pdf_service.go:130-139 | commas stand at every fourth place from the right and nowhere else, never in front |
| Money.CommaAfterSignIff | internal/service/pdf_service.go:130-139 | a comma directly after the sign appears if and only if the amount is negative and its naira have 3, 6, 9, ... digits |
| Money.ShapeOfAmount | internal/service/pdf_service.go:122-143 | a sign for negative amounts only, naira without leading zeros, a point and two digits |
| LogMask.MaskFields | internal/middleware/logger.go:191-216 | the body's objects, updated in place, end up holding the masked tree |
| LogMask.MaskKey | internal/middleware/logger.go:193-214 | one key: masked if sensitive, descended into in any case, nothing else in the object changed |
| LogMask.MaskValue | internal/middleware/logger.go:202-214 | objects, and objects directly in an array, are masked where they are |
| LogMask.DescendedTreeJson | internal/middleware/logger.go:191-216 | masking the tree of objects is masking the JSON body it stands for |
| LogMask.DescendedTreeObjects | internal/middleware/logger.go:191-216 | masking allocates no object and moves none |
| LogMask.IsSensitive | internal/middleware/logger.go:17-19 | finds exactly the listed names |
| LogMask.SensitiveIff | internal/middleware/logger.go:17-19 | the seven names, and the mask |
| LogMask.MaskingCharacterised | internal/middleware/logger.go:191-216 | the result is the one body that hides every secret reachable through objects and arrays of objects and changes nothing else |
| LogMask.MaskingIsIdempotent | internal/middleware/logger.go:191-216 | masking twice is masking once |
| LogMask.FullyMaskedIff | internal/middleware/logger.go:207-214 | every secret at every depth is hidden if and only if arrays directly inside arrays hold none |
| LogMask.NestedArrayLeaks | internal/middleware/logger.go:207-214 | a secret two arrays deep is logged as it is |
| Pagination.ValidatePaginationParams | internal/repository/repository.go:188-203 | each good field is kept, each other gets its default or its bound, DESC and 20 among them; nothing changes exactly when all were good |
| Pagination.CeilingBounds | internal/repository/repository.go:220-235 | the page count is the ceiling of total over limit |
| Pagination.RecordHasPage | internal/repository/repository.go:205-208 | every record is on a page of 1..TotalPages |
| Pagination.RecordHasOnePage | internal/repository/repository.go:205-208 | and on no other |
| Pagination.NoEmptyPage | internal/repository/repository.go:205-235 | a page is among 1..TotalPages if and only if it starts before the end of the records |
| Pagination.HasNextIff | internal/repository/repository.go:220-235 | there is a next page if and only if records are left after this one |
| Pagination.MetadataIs | internal/repository/repository.go:220-235 | there is a page before if and only if records were passed over; the page count is the ceiling, and the rest is what was asked |
| Pagination.RawMetadataMatchesIff | internal/repository/repository.go:188-235 | metadata built from raw parameters agrees with the normalised query for every total if and only if they were normal |

## Left out

- Idempotency.LaterRequestsReplay: Redis expiry is not modelled, so the replay holds while the key lives.
- Idempotency.AtMostOnce: likewise holds while the key lives; a key that expires frees its cell.
- ExaminationServices.ExaminationService.StartExamination: asks for the store invariant, because only under it the lookup of the student's attempt has one answer; every run from the empty store keeps it.
- CalendarServices.CalendarService.ActivateTerm: asks for the calendar invariant for the same reason, as does CalendarServices.CalendarService.ActivateSession.
- Pagination.ValidatePaginationParams: returns the normalised parameters instead of updating the caller's copy.
- Ranking.ComputeGrade: returns the regraded record instead of assigning its fields; the store it is saved to is updated in place.
- Money.FormatAmount: prints the quotient exactly; the source divides in float64, which is exact for amounts below 10^15 kobo.
- RateLimit.CheckRateLimit: sorted-set scores are exact integers and a pipeline is one atomic step; float64 scores and interleaved pipelines are not modelled.
- LogMask.MaskFields: for decoded bodies, in which no object occurs twice; the regular-expression masking of raw strings is not modelled.
- RateLimit.MostAllowed: not stated for a multiplier of zero with a positive limit, where the two tests mix; `RateLimit.AllowedIff` covers it.
- Averages and percentages are exact rationals; rounding of float64 is not modelled.
- Races between the repository calls inside one service call, and database constraints other than those on report cards.
- Tenant and role checks other than those of CreateExamination.
- Titles, instructions, timestamps, percentages of submissions, audit entries and notifications.
- The quiz life cycle other than its auto-grader, and manual grading of quizzes.
- Attendance and flags for low performance.
- Invoice numbers, due dates, subscriptions, and everything after an invoice is created.
- Job durations, ticker timing, last-run times, logging and panics inside a job.
- Time zones: days are days in UTC.
- Handlers, routing, authentication, timetables, users, mail, PDF pages and the WebSocket hub.
