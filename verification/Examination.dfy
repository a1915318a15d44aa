/**
  The life of an examination and its submissions: internal/service/examination_service.go,
  internal/domain/examination.go and the background window job
  (internal/scheduler/jobs/examination_window_job.go).

  Each service call is one atomic step on a store of examinations and submissions. A step that stops with an
  error changes nothing: the source mutates a freshly loaded copy and saves it only at the end.
 */
module Examination {
  import opened Wrappers
  import opened Grading

  const MINUTE := 60

  datatype ExamStatus = Draft | Scheduled | Underway | Completed | Archived

  datatype SubmissionStatus = NotStarted | InProgress | Submitted | Graded | Published

  datatype Exam = Exam(
    questions: seq<Question>,
    totalMarks: int,
    duration: int,             // in minutes
    windowStart: int,
    windowEnd: int,
    status: ExamStatus,
    resultsPublished: bool)
  {
    predicate CanAccess(now: int) {
      status.Scheduled? && windowStart < now < windowEnd
    }
  }

  datatype Submission = Submission(
    examId: Id,
    studentId: Id,
    status: SubmissionStatus,
    startedAt: Option<int>,
    submittedAt: Option<int>,
    autoSubmitted: bool,
    answers: seq<Answer>,
    score: Option<int>,
    isAutoGraded: bool,
    feedback: Option<string>,
    gradedAt: Option<int>,
    gradedBy: Option<Id>,
    integrityEvents: seq<string>)
  {
    predicate IsSubmitted() {
      status.Submitted? || status.Graded? || status.Published?
    }

    predicate Open() {
      status.NotStarted? || status.InProgress?
    }
  }

  datatype State = State(exams: map<Id, Exam>, subs: map<Id, Submission>)

  datatype Error =
    | NotFound | NotDraft | BadWindow | MarksMismatch | NoQuestions | WindowInPast | NotAccessible
    | AlreadySubmitted | DuplicateSubmission | NotOwner | NotInProgress | NotSubmitted | ExcessiveMarks
    | AlreadyPublished | PendingGrading | StillInProgress | WrongTenant | NotAssigned

  /** Marks as the request validation lets them through. */
  type Marks = m: int | 1 <= m <= 100 witness 1

  /** A question as a request carries it; the service gives it a new id. */
  datatype QuestionDraft = QuestionDraft(qtype: QuestionType, correctAnswers: seq<string>, marks: Marks)

  datatype AnswerRequest = AnswerRequest(questionId: Id, answerText: Option<string>, selectedOptions: seq<string>)

  datatype ExamPatch = ExamPatch(
    questions: Option<seq<QuestionDraft>>,
    totalMarks: Option<int>,
    duration: Option<int>,
    windowStart: Option<int>,
    windowEnd: Option<int>)

  datatype Course = Course(tenantId: Id, tutorId: Id)

  /** Who creates an examination for which course; None: the course cannot be loaded, or the actor is no tutor. */
  datatype Access = Access(course: Option<Course>, tenantId: Id, tutor: Option<Id>)

  // ---------------------------------------------------------------- the steps

  function Denied(a: Access): Option<Error> {
    match a.course
    case None => Some(NotFound)
    case Some(course) =>
      if course.tenantId != a.tenantId then Some(WrongTenant)
      else if a.tutor.Some? && course.tutorId != a.tutor.value then Some(NotAssigned)
      else None
  }

  /** Questions with the ids uuid.New gave them, one by one. */
  function WithIds(drafts: seq<QuestionDraft>, ids: seq<Id>): (qs: seq<Question>)
    requires |ids| == |drafts|
    ensures |qs| == |drafts|
    ensures forall i :: 0 <= i < |qs| ==>
              && qs[i].id == ids[i] && qs[i].marks == drafts[i].marks
              && qs[i].qtype == drafts[i].qtype && qs[i].correctAnswers == drafts[i].correctAnswers
  {
    seq(|drafts|, i requires 0 <= i < |drafts| =>
      Question(ids[i], drafts[i].qtype, drafts[i].correctAnswers, drafts[i].marks))
  }

  function Created(s: State, id: Id, access: Access, drafts: seq<QuestionDraft>, ids: seq<Id>, totalMarks: int,
                   duration: int, windowStart: int, windowEnd: int): Result<State, Error>
    requires |ids| == |drafts|
  {
    var qs := WithIds(drafts, ids);
    var denied := Denied(access);
    if denied.Some? then Failure(denied.value)
    else if windowEnd < windowStart then Failure(BadWindow)
    else if TotalMarks(qs) != totalMarks then Failure(MarksMismatch)
    else Success(s.(exams := s.exams[id := Exam(qs, totalMarks, duration, windowStart, windowEnd, Draft, false)]))
  }

  function Patched(e: Exam, p: ExamPatch, ids: seq<Id>): Exam
    requires p.questions.Some? ==> |ids| == |p.questions.value|
  {
    var qs := if p.questions.Some? then WithIds(p.questions.value, ids) else e.questions;
    Exam(qs,
         Or(p.totalMarks, if p.questions.Some? then TotalMarks(qs) else e.totalMarks),
         Or(p.duration, e.duration), Or(p.windowStart, e.windowStart), Or(p.windowEnd, e.windowEnd),
         e.status, e.resultsPublished)
  }

  function Updated(s: State, id: Id, p: ExamPatch, ids: seq<Id>): Result<State, Error>
    requires p.questions.Some? ==> |ids| == |p.questions.value|
  {
    if id !in s.exams then Failure(NotFound)
    else if !s.exams[id].status.Draft? then Failure(NotDraft)
    else
      var e := Patched(s.exams[id], p, ids);
      if e.windowEnd < e.windowStart then Failure(BadWindow)
      else Success(s.(exams := s.exams[id := e]))
  }

  /** Deleting an examination cascades to its submissions. */
  function Deleted(s: State, id: Id): Result<State, Error> {
    if id !in s.exams then Failure(NotFound)
    else if !s.exams[id].status.Draft? then Failure(NotDraft)
    else Success(State(s.exams - {id}, map k | k in s.subs && s.subs[k].examId != id :: s.subs[k]))
  }

  function ScheduledStep(s: State, id: Id, now: int): Result<State, Error> {
    if id !in s.exams then Failure(NotFound)
    else if !s.exams[id].status.Draft? then Failure(NotDraft)
    else if s.exams[id].questions == [] then Failure(NoQuestions)
    else if s.exams[id].windowStart < now then Failure(WindowInPast)
    else Success(s.(exams := s.exams[id := s.exams[id].(status := Scheduled)]))
  }

  predicate IsAttempt(sub: Submission, examId: Id, studentId: Id) {
    sub.examId == examId && sub.studentId == studentId
  }

  function NewAttempt(examId: Id, studentId: Id, now: int): Submission {
    Submission(examId, studentId, InProgress, Some(now), None, false, [], None, false, None, None, None, [])
  }

  /** Starting again while in progress returns the existing attempt. */
  ghost function Started(s: State, examId: Id, studentId: Id, newId: Id, now: int): Result<State, Error> {
    if examId !in s.exams then Failure(NotFound)
    else if !s.exams[examId].CanAccess(now) then Failure(NotAccessible)
    else if k :| k in s.subs && IsAttempt(s.subs[k], examId, studentId) then
      (match s.subs[k].status
       case InProgress => Success(s)
       case NotStarted => Failure(DuplicateSubmission)
       case _ => Failure(AlreadySubmitted))
    else Success(s.(subs := s.subs[newId := NewAttempt(examId, studentId, now)]))
  }

  /** Replaces the answer to the same question in place, or appends. */
  function Upsert(ans: seq<Answer>, r: AnswerRequest, now: int): seq<Answer> {
    if ans == [] then [Answer(r.questionId, r.answerText, r.selectedOptions, None, None, None, now)]
    else if ans[0].questionId == r.questionId then
      [ans[0].(answerText := r.answerText, selectedOptions := r.selectedOptions, submittedAt := now)] + ans[1..]
    else [ans[0]] + Upsert(ans[1..], r, now)
  }

  /** submitAndGrade on one submission. */
  function SubmittedAndGraded(sub: Submission, exam: Exam, auto: bool, now: int): Submission {
    var manual := AnyManual(exam.questions, sub.answers);
    sub.(status := if manual then Submitted else Graded,
         submittedAt := Some(now),
         autoSubmitted := auto,
         answers := ExamGradedAll(exam.questions, sub.answers),
         score := Some(ExamScore(exam.questions, sub.answers)),
         isAutoGraded := sub.isAutoGraded || !manual,
         gradedAt := if manual then sub.gradedAt else Some(now))
  }

  predicate PastLimit(sub: Submission, exam: Exam, now: int) {
    now > exam.windowEnd || (sub.startedAt.Some? && now > sub.startedAt.value + exam.duration * MINUTE)
  }

  /** The checks SaveAnswer, SubmitExamination and RecordIntegrityEvent share. */
  function Guard(s: State, id: Id, studentId: Id): Option<Error> {
    if id !in s.subs then Some(NotFound)
    else if s.subs[id].studentId != studentId then Some(NotOwner)
    else if !s.subs[id].status.InProgress? then Some(NotInProgress)
    else None
  }

  function Saved(s: State, id: Id, r: AnswerRequest, studentId: Id, now: int): Result<State, Error> {
    var g := Guard(s, id, studentId);
    if g.Some? then Failure(g.value)
    else if s.subs[id].examId !in s.exams then Failure(NotFound)
    else
      var sub, exam := s.subs[id], s.exams[s.subs[id].examId];
      if PastLimit(sub, exam, now) then Success(s.(subs := s.subs[id := SubmittedAndGraded(sub, exam, true, now)]))
      else Success(s.(subs := s.subs[id := sub.(answers := Upsert(sub.answers, r, now))]))
  }

  function EventRecorded(s: State, id: Id, studentId: Id, event: string): Result<State, Error> {
    var g := Guard(s, id, studentId);
    if g.Some? then Failure(g.value)
    else Success(s.(subs := s.subs[id := s.subs[id].(integrityEvents := s.subs[id].integrityEvents + [event])]))
  }

  function SubmittedStep(s: State, id: Id, studentId: Id, now: int): Result<State, Error> {
    var g := Guard(s, id, studentId);
    if g.Some? then Failure(g.value)
    else if s.subs[id].examId !in s.exams then Failure(NotFound)
    else Success(s.(subs := s.subs[id := SubmittedAndGraded(s.subs[id], s.exams[s.subs[id].examId], false, now)]))
  }

  function GradedStep(s: State, id: Id, gs: seq<ManualGrade>, feedback: Option<string>, actor: Id, now: int)
    : Result<State, Error>
  {
    if id !in s.subs then Failure(NotFound)
    else if !s.subs[id].status.Submitted? then Failure(NotSubmitted)
    else if s.subs[id].examId !in s.exams then Failure(NotFound)
    else
      var sub, exam := s.subs[id], s.exams[s.subs[id].examId];
      if AnyRejected(exam.questions, gs, sub.answers) then Failure(ExcessiveMarks)
      else
        var graded := ManuallyGradedAll(gs, sub.answers);
        Success(s.(subs := s.subs[id := sub.(answers := graded, score := Some(SumMarks(graded)), status := Graded,
                                             feedback := feedback, gradedAt := Some(now), gradedBy := Some(actor))]))
  }

  predicate HasStatus(s: State, examId: Id, status: SubmissionStatus) {
    exists k :: k in s.subs && s.subs[k].examId == examId && s.subs[k].status == status
  }

  function PublishedSub(sub: Submission, examId: Id): Submission {
    if sub.examId == examId && sub.status.Graded? then sub.(status := Published) else sub
  }

  function PublishedStep(s: State, id: Id): Result<State, Error> {
    if id !in s.exams then Failure(NotFound)
    else if s.exams[id].resultsPublished then Failure(AlreadyPublished)
    else if HasStatus(s, id, Submitted) then Failure(PendingGrading)
    else if HasStatus(s, id, InProgress) then Failure(StillInProgress)
    else Success(State(s.exams[id := s.exams[id].(resultsPublished := true, status := Completed)],
                       map k | k in s.subs :: PublishedSub(s.subs[k], id)))
  }

  /** The background job runs once a minute and looks one minute back. */
  predicate JustPassed(t: int, now: int) {
    now - MINUTE <= t < now
  }

  function WindowOpened(s: State, id: Id, now: int): State {
    if id in s.exams && s.exams[id].status.Scheduled? && JustPassed(s.exams[id].windowStart, now)
    then s.(exams := s.exams[id := s.exams[id].(status := Underway)])
    else s
  }

  function AutoSubmittedSub(sub: Submission, examId: Id, now: int): Submission {
    if sub.examId == examId && sub.status.InProgress?
    then sub.(status := Submitted, submittedAt := Some(now), autoSubmitted := true)
    else sub
  }

  /** The job completes the examination; submitting what is still in progress may fail separately. It grades nothing. */
  function WindowClosed(s: State, id: Id, now: int, autoSubmit: bool): State {
    if id in s.exams && s.exams[id].status.Underway? && JustPassed(s.exams[id].windowEnd, now)
    then State(s.exams[id := s.exams[id].(status := Completed)],
               if autoSubmit then map k | k in s.subs :: AutoSubmittedSub(s.subs[k], id, now) else s.subs)
    else s
  }

  // ---------------------------------------------------------------- runs

  datatype Event =
    | Create(id: Id, access: Access, drafts: seq<QuestionDraft>, ids: seq<Id>, totalMarks: int, duration: int,
             windowStart: int, windowEnd: int)
    | Update(id: Id, patch: ExamPatch, ids: seq<Id>)
    | Delete(id: Id)
    | Schedule(id: Id, now: int)
    | Start(id: Id, studentId: Id, newId: Id, now: int)
    | Save(id: Id, request: AnswerRequest, studentId: Id, now: int)
    | Integrity(id: Id, studentId: Id, event: string)
    | Submit(id: Id, studentId: Id, now: int)
    | Grade(id: Id, grades: seq<ManualGrade>, feedback: Option<string>, actor: Id, now: int)
    | Publish(id: Id)
    | OpenWindow(id: Id, now: int)
    | CloseWindow(id: Id, now: int, autoSubmit: bool)

  predicate DistinctIds(ids: seq<Id>) {
    forall i, j :: 0 <= i < j < |ids| ==> ids[i] != ids[j]
  }

  /** uuid.New never returns an id that is in use. */
  predicate Fresh(s: State, ev: Event) {
    match ev
    case Create(id, _, drafts, ids, _, _, _, _) => id !in s.exams && |ids| == |drafts| && DistinctIds(ids)
    case Update(_, p, ids) => p.questions.Some? ==> |ids| == |p.questions.value| && DistinctIds(ids)
    case Start(_, _, newId, _) => newId !in s.subs
    case _ => true
  }

  ghost function Attempt(s: State, ev: Event): Result<State, Error>
    requires Fresh(s, ev)
  {
    match ev
    case Create(id, access, drafts, ids, total, duration, ws, we) =>
      Created(s, id, access, drafts, ids, total, duration, ws, we)
    case Update(id, p, ids) => Updated(s, id, p, ids)
    case Delete(id) => Deleted(s, id)
    case Schedule(id, now) => ScheduledStep(s, id, now)
    case Start(id, studentId, newId, now) => Started(s, id, studentId, newId, now)
    case Save(id, r, studentId, now) => Saved(s, id, r, studentId, now)
    case Integrity(id, studentId, e) => EventRecorded(s, id, studentId, e)
    case Submit(id, studentId, now) => SubmittedStep(s, id, studentId, now)
    case Grade(id, gs, feedback, actor, now) => GradedStep(s, id, gs, feedback, actor, now)
    case Publish(id) => PublishedStep(s, id)
    case OpenWindow(id, now) => Success(WindowOpened(s, id, now))
    case CloseWindow(id, now, autoSubmit) => Success(WindowClosed(s, id, now, autoSubmit))
  }

  ghost function Apply(s: State, ev: Event): State
    requires Fresh(s, ev)
  {
    var r := Attempt(s, ev);
    if r.Success? then r.value else s
  }

  ghost predicate Run(s: State, evs: seq<Event>)
    decreases evs
  {
    evs != [] ==> Fresh(s, evs[0]) && Run(Apply(s, evs[0]), evs[1..])
  }

  ghost function Final(s: State, evs: seq<Event>): State
    requires Run(s, evs)
    decreases evs
  {
    if evs == [] then s else Final(Apply(s, evs[0]), evs[1..])
  }

  const EMPTY := State(map[], map[])

  // ---------------------------------------------------------------- the invariant

  predicate ExamOk(e: Exam) {
    && DistinctQuestions(e.questions) && PositiveMarks(e.questions)
    && !e.status.Archived?   // no service archives an examination
    && (e.resultsPublished ==> e.status.Completed?)
  }

  /** Every stored answer was given inside the window and inside the student's time. */
  predicate InTime(sub: Submission, e: Exam) {
    && sub.startedAt.Some?
    && forall i :: 0 <= i < |sub.answers| ==>
         sub.answers[i].submittedAt <= e.windowEnd
         && sub.answers[i].submittedAt <= sub.startedAt.value + e.duration * MINUTE
  }

  predicate Scored(sub: Submission) {
    && (sub.Open() ==> sub.score.None?)
    && (sub.score.None? ==> Unmarked(sub.answers))
    && (sub.score.Some? ==> sub.score.value == SumMarks(sub.answers))
    && (sub.status.Graded? || sub.status.Published? ==> sub.score.Some?)
  }

  predicate SubOk(exams: map<Id, Exam>, sub: Submission) {
    && sub.examId in exams
    && var e := exams[sub.examId];
    && !e.status.Draft?
    && !sub.status.NotStarted?
    && DistinctAnswers(sub.answers)
    && MarksInRange(e.questions, sub.answers)
    && Scored(sub)
    && InTime(sub, e)
    && (e.resultsPublished ==> sub.status.Published?)
    && (sub.status.Submitted? ==> MarksRefer(e.questions, sub.answers))
  }

  predicate OneAttemptEach(subs: map<Id, Submission>) {
    forall i, j :: i in subs && j in subs && i != j ==> !IsAttempt(subs[i], subs[j].examId, subs[j].studentId)
  }

  predicate Inv(s: State) {
    && (forall i :: i in s.exams ==> ExamOk(s.exams[i]))
    && (forall i :: i in s.subs ==> SubOk(s.exams, s.subs[i]))
    && OneAttemptEach(s.subs)
  }

  /** An examination changes in nothing its submissions depend on. */
  predicate SamePaper(e: Exam, e': Exam) {
    && e.questions == e'.questions && e.totalMarks == e'.totalMarks && e.duration == e'.duration
    && e.windowStart == e'.windowStart && e.windowEnd == e'.windowEnd
  }

  lemma PutSubmission(s: State, id: Id, sub: Submission)
    requires Inv(s) && id in s.subs
    requires IsAttempt(sub, s.subs[id].examId, s.subs[id].studentId) && SubOk(s.exams, sub)
    ensures Inv(s.(subs := s.subs[id := sub]))
  {
  }

  lemma PutExam(s: State, id: Id, e: Exam)
    requires Inv(s) && ExamOk(e)
    requires forall k :: k in s.subs && s.subs[k].examId == id ==>
               id in s.exams && SamePaper(s.exams[id], e) && !e.status.Draft?
               && (e.resultsPublished ==> s.exams[id].resultsPublished)
    ensures Inv(s.(exams := s.exams[id := e]))
  {
    forall k | k in s.subs ensures SubOk(s.exams[id := e], s.subs[k]) {
      assert SubOk(s.exams, s.subs[k]);
    }
  }

  lemma {:induction false} UpsertKeeps(ans: seq<Answer>, r: AnswerRequest, now: int)
    requires DistinctAnswers(ans) && Unmarked(ans)
    ensures DistinctAnswers(Upsert(ans, r, now)) && Unmarked(Upsert(ans, r, now))
    ensures forall a :: a in Upsert(ans, r, now) ==> a in ans || a.submittedAt == now
    ensures forall a :: a in Upsert(ans, r, now) ==> a.questionId == r.questionId || a in ans
  {
    if ans != [] {
      if ans[0].questionId == r.questionId {
        assert ans == [ans[0]] + ans[1..];
      } else {
        UpsertKeeps(ans[1..], r, now);
        var rest := Upsert(ans[1..], r, now);
        assert ans == [ans[0]] + ans[1..];
        forall i | 0 <= i < |rest| ensures rest[i].questionId != ans[0].questionId {
          assert rest[i] in rest;
        }
      }
    }
  }

  lemma SavedSubOk(s: State, id: Id, r: AnswerRequest, now: int)
    requires Inv(s) && id in s.subs && s.subs[id].status.InProgress?
    requires !PastLimit(s.subs[id], s.exams[s.subs[id].examId], now)
    ensures SubOk(s.exams, s.subs[id].(answers := Upsert(s.subs[id].answers, r, now)))
  {
    var sub := s.subs[id];
    var e := s.exams[sub.examId];
    var ans := Upsert(sub.answers, r, now);
    UpsertKeeps(sub.answers, r, now);
    forall i | 0 <= i < |ans|
      ensures ans[i].submittedAt <= e.windowEnd
              && ans[i].submittedAt <= sub.startedAt.value + e.duration * MINUTE
      ensures AnswerInRange(e.questions, ans[i])
    {
      assert ans[i] in ans;
      PositiveQuestion(e.questions, ans[i].questionId);
    }
  }

  lemma PositiveQuestion(qs: seq<Question>, id: Id)
    requires PositiveMarks(qs)
    ensures FindQuestion(qs, id).Some? ==> 1 <= FindQuestion(qs, id).value.marks
  {
    var q := FindQuestion(qs, id);
    if q.Some? {
      var i :| 0 <= i < |qs| && qs[i] == q.value;
    }
  }

  lemma GradedAllSameTimes(qs: seq<Question>, ans: seq<Answer>)
    ensures forall i :: 0 <= i < |ans| ==> ExamGradedAll(qs, ans)[i].submittedAt == ans[i].submittedAt
  {
  }

  lemma SubmittedSubOk(s: State, id: Id, auto: bool, now: int)
    requires Inv(s) && id in s.subs && s.subs[id].status.InProgress?
    ensures SubOk(s.exams, SubmittedAndGraded(s.subs[id], s.exams[s.subs[id].examId], auto, now))
  {
    var sub := s.subs[id];
    var e := s.exams[sub.examId];
    ExamScoreIsSumOfMarks(e.questions, sub.answers);
    AutoGradingInRange(e.questions, sub.answers);
    GradedAllSameTimes(e.questions, sub.answers);
  }

  lemma GradedSubOk(s: State, id: Id, gs: seq<ManualGrade>, feedback: Option<string>, actor: Id, now: int)
    requires Inv(s) && GradedStep(s, id, gs, feedback, actor, now).Success?
    ensures SubOk(s.exams, GradedStep(s, id, gs, feedback, actor, now).value.subs[id])
  {
    var sub := s.subs[id];
    ManualGradingInRange(s.exams[sub.examId].questions, gs, sub.answers);
    var graded := ManuallyGradedAll(gs, sub.answers);
    assert forall i :: 0 <= i < |graded| ==> graded[i].submittedAt == sub.answers[i].submittedAt;
  }

  lemma NewExamOk(drafts: seq<QuestionDraft>, ids: seq<Id>)
    requires |ids| == |drafts| && DistinctIds(ids)
    ensures DistinctQuestions(WithIds(drafts, ids)) && PositiveMarks(WithIds(drafts, ids))
  {
  }

  lemma PublishedSubOk(s: State, id: Id, k: Id)
    requires Inv(s) && PublishedStep(s, id).Success? && k in s.subs
    ensures SubOk(PublishedStep(s, id).value.exams, PublishedSub(s.subs[k], id))
  {
    assert SubOk(s.exams, s.subs[k]);
    if s.subs[k].examId == id {
      assert !s.subs[k].status.Submitted? && !s.subs[k].status.InProgress?;
    }
  }

  lemma PublishKeepsInv(s: State, id: Id)
    requires Inv(s) && PublishedStep(s, id).Success?
    ensures Inv(PublishedStep(s, id).value)
  {
    var s' := PublishedStep(s, id).value;
    forall k | k in s'.subs ensures SubOk(s'.exams, s'.subs[k]) {
      PublishedSubOk(s, id, k);
    }
    forall i | i in s'.exams ensures ExamOk(s'.exams[i]) {
      assert ExamOk(s.exams[i]);
    }
    SameAttempts(s.subs, s'.subs);
  }

  lemma SameAttempts(subs: map<Id, Submission>, subs': map<Id, Submission>)
    requires OneAttemptEach(subs) && subs'.Keys == subs.Keys
    requires forall k :: k in subs ==> IsAttempt(subs'[k], subs[k].examId, subs[k].studentId)
    ensures OneAttemptEach(subs')
  {
  }

  lemma CloseKeepsInv(s: State, id: Id, now: int, autoSubmit: bool)
    requires Inv(s)
    ensures Inv(WindowClosed(s, id, now, autoSubmit))
  {
    var s' := WindowClosed(s, id, now, autoSubmit);
    forall k | k in s'.subs ensures SubOk(s'.exams, s'.subs[k]) {
      assert SubOk(s.exams, s.subs[k]);
    }
    forall i | i in s'.exams ensures ExamOk(s'.exams[i]) {
      assert ExamOk(s.exams[i]);
    }
    SameAttempts(s.subs, s'.subs);
  }

  lemma ExamStepsKeepInv(s: State, ev: Event)
    requires Inv(s) && Fresh(s, ev)
    requires ev.Create? || ev.Update? || ev.Delete? || ev.Schedule? || ev.OpenWindow?
    ensures Inv(Apply(s, ev))
  {
    match ev
    case Create(id, _, drafts, ids, total, duration, ws, we) =>
      NewExamOk(drafts, ids);
      PutExam(s, id, Exam(WithIds(drafts, ids), total, duration, ws, we, Draft, false));
    case Update(id, p, ids) =>
      if p.questions.Some? {
        NewExamOk(p.questions.value, ids);
      }
      if id in s.exams && s.exams[id].status.Draft? {
        PutExam(s, id, Patched(s.exams[id], p, ids));
      }
    case Delete(id) =>
    case Schedule(id, now) =>
      if id in s.exams && s.exams[id].status.Draft? {
        PutExam(s, id, s.exams[id].(status := Scheduled));
      }
    case OpenWindow(id, now) =>
      if id in s.exams && s.exams[id].status.Scheduled? {
        PutExam(s, id, s.exams[id].(status := Underway));
      }
  }

  lemma SubmissionStepsKeepInv(s: State, ev: Event)
    requires Inv(s) && Fresh(s, ev)
    requires ev.Start? || ev.Save? || ev.Integrity? || ev.Submit? || ev.Grade?
    ensures Inv(Apply(s, ev))
  {
    match ev
    case Start(id, studentId, newId, now) =>
    case Save(id, r, studentId, now) =>
      if Guard(s, id, studentId).None? {
        var exam := s.exams[s.subs[id].examId];
        if PastLimit(s.subs[id], exam, now) {
          SubmittedSubOk(s, id, true, now);
          PutSubmission(s, id, SubmittedAndGraded(s.subs[id], exam, true, now));
        } else {
          SavedSubOk(s, id, r, now);
          PutSubmission(s, id, s.subs[id].(answers := Upsert(s.subs[id].answers, r, now)));
        }
      }
    case Integrity(id, studentId, e) =>
      if Guard(s, id, studentId).None? {
        PutSubmission(s, id, s.subs[id].(integrityEvents := s.subs[id].integrityEvents + [e]));
      }
    case Submit(id, studentId, now) =>
      if Guard(s, id, studentId).None? {
        SubmittedSubOk(s, id, false, now);
        PutSubmission(s, id, SubmittedAndGraded(s.subs[id], s.exams[s.subs[id].examId], false, now));
      }
    case Grade(id, gs, feedback, actor, now) =>
      if Attempt(s, ev).Success? {
        GradedSubOk(s, id, gs, feedback, actor, now);
        PutSubmission(s, id, Attempt(s, ev).value.subs[id]);
      }
  }

  lemma ApplyKeepsInv(s: State, ev: Event)
    requires Inv(s) && Fresh(s, ev)
    ensures Inv(Apply(s, ev))
  {
    match ev {
      case Publish(id) =>
        if PublishedStep(s, id).Success? {
          PublishKeepsInv(s, id);
        }
      case CloseWindow(id, now, autoSubmit) => CloseKeepsInv(s, id, now, autoSubmit);
      case Start(_, _, _, _) => SubmissionStepsKeepInv(s, ev);
      case Save(_, _, _, _) => SubmissionStepsKeepInv(s, ev);
      case Integrity(_, _, _) => SubmissionStepsKeepInv(s, ev);
      case Submit(_, _, _) => SubmissionStepsKeepInv(s, ev);
      case Grade(_, _, _, _, _) => SubmissionStepsKeepInv(s, ev);
      case _ => ExamStepsKeepInv(s, ev);
    }
  }

  lemma {:induction false} RunKeepsInv(s: State, evs: seq<Event>)
    requires Inv(s) && Run(s, evs)
    ensures Inv(Final(s, evs))
    decreases evs
  {
    if evs != [] {
      ApplyKeepsInv(s, evs[0]);
      RunKeepsInv(Apply(s, evs[0]), evs[1..]);
    }
  }

  // ---------------------------------------------------------------- what every run keeps

  function Rank(status: SubmissionStatus): nat {
    match status
    case NotStarted => 0
    case InProgress => 1
    case Submitted => 2
    case Graded => 3
    case Published => 4
  }

  /** What the student wrote is the same, and a mark that was there is still there. */
  predicate SameAnswer(a: Answer, a': Answer) {
    && a.questionId == a'.questionId && a.answerText == a'.answerText
    && a.selectedOptions == a'.selectedOptions && a.submittedAt == a'.submittedAt
    && (a.marksEarned.Some? ==> a'.marksEarned == a.marksEarned && a'.isCorrect == a.isCorrect)
  }

  predicate SameAnswers(ans: seq<Answer>, ans': seq<Answer>) {
    |ans| == |ans'| && forall i :: 0 <= i < |ans| ==> SameAnswer(ans[i], ans'[i])
  }

  predicate SubmissionEvolves(sub: Submission, sub': Submission) {
    && IsAttempt(sub', sub.examId, sub.studentId)
    && sub'.startedAt == sub.startedAt
    && Rank(sub.status) <= Rank(sub'.status)
    && (sub.IsSubmitted() ==> SameAnswers(sub.answers, sub'.answers))
    && (sub.status.Graded? || sub.status.Published? ==> sub'.score == sub.score)
  }

  predicate ExamEvolves(e: Exam, e': Exam) {
    && SamePaper(e, e')
    && !e'.status.Draft?
    && (e.resultsPublished ==> e' == e)
  }

  /**
    Submissions are never lost, only move forward and keep their answers once submitted; an examination with a
    submission is never deleted and keeps its questions, marks, duration and window.
   */
  ghost predicate Evolves(s: State, s': State) {
    && (forall k :: k in s.subs ==> k in s'.subs && SubmissionEvolves(s.subs[k], s'.subs[k]))
    && (forall k :: k in s.subs && s.subs[k].examId in s.exams ==>
          s.subs[k].examId in s'.exams && ExamEvolves(s.exams[s.subs[k].examId], s'.exams[s.subs[k].examId]))
  }

  lemma SubmittedEvolves(sub: Submission, exam: Exam, auto: bool, now: int)
    requires sub.status.InProgress?
    ensures SubmissionEvolves(sub, SubmittedAndGraded(sub, exam, auto, now))
  {
  }

  lemma GradedEvolves(s: State, id: Id, gs: seq<ManualGrade>, feedback: Option<string>, actor: Id, now: int)
    requires Inv(s) && GradedStep(s, id, gs, feedback, actor, now).Success?
    ensures SubmissionEvolves(s.subs[id], GradedStep(s, id, gs, feedback, actor, now).value.subs[id])
  {
    var sub := s.subs[id];
    var graded := ManuallyGradedAll(gs, sub.answers);
    assert forall i :: 0 <= i < |graded| ==> SameAnswer(sub.answers[i], graded[i]);
  }

  lemma SameEvolves(sub: Submission)
    ensures SubmissionEvolves(sub, sub)
  {
  }

  lemma ExamEventEvolvesSubmission(s: State, ev: Event, k: Id)
    requires Inv(s) && Fresh(s, ev) && k in s.subs
    requires ev.Create? || ev.Update? || ev.Delete? || ev.Schedule? || ev.OpenWindow? || ev.CloseWindow? || ev.Publish?
    ensures k in Apply(s, ev).subs && SubmissionEvolves(s.subs[k], Apply(s, ev).subs[k])
  {
    assert SubOk(s.exams, s.subs[k]);
    SameEvolves(s.subs[k]);
  }

  lemma StudentEventEvolvesSubmission(s: State, ev: Event, k: Id)
    requires Inv(s) && Fresh(s, ev) && k in s.subs
    requires ev.Start? || ev.Save? || ev.Integrity? || ev.Submit?
    ensures k in Apply(s, ev).subs && SubmissionEvolves(s.subs[k], Apply(s, ev).subs[k])
  {
    SameEvolves(s.subs[k]);
    if !ev.Start? && Guard(s, ev.id, ev.studentId).None? && ev.id == k {
      assert SubOk(s.exams, s.subs[k]);
      var exam := s.exams[s.subs[k].examId];
      if ev.Save? {
        SubmittedEvolves(s.subs[k], exam, true, ev.now);
      } else if ev.Submit? {
        SubmittedEvolves(s.subs[k], exam, false, ev.now);
      }
    }
  }

  lemma ApplyEvolvesSubmission(s: State, ev: Event, k: Id)
    requires Inv(s) && Fresh(s, ev) && k in s.subs
    ensures k in Apply(s, ev).subs && SubmissionEvolves(s.subs[k], Apply(s, ev).subs[k])
  {
    if ev.Start? || ev.Save? || ev.Integrity? || ev.Submit? {
      StudentEventEvolvesSubmission(s, ev, k);
    } else if ev.Grade? {
      SameEvolves(s.subs[k]);
      if Attempt(s, ev).Success? {
        GradedEvolves(s, ev.id, ev.grades, ev.feedback, ev.actor, ev.now);
      }
    } else {
      ExamEventEvolvesSubmission(s, ev, k);
    }
  }

  lemma ApplyEvolvesExam(s: State, ev: Event, id: Id)
    requires Inv(s) && Fresh(s, ev) && id in s.exams && !s.exams[id].status.Draft?
    ensures id in Apply(s, ev).exams && ExamEvolves(s.exams[id], Apply(s, ev).exams[id])
  {
    assert ExamOk(s.exams[id]);
  }

  lemma ApplyEvolves(s: State, ev: Event)
    requires Inv(s) && Fresh(s, ev)
    ensures Evolves(s, Apply(s, ev))
  {
    forall k | k in s.subs
      ensures k in Apply(s, ev).subs && SubmissionEvolves(s.subs[k], Apply(s, ev).subs[k])
      ensures s.subs[k].examId in Apply(s, ev).exams
              && ExamEvolves(s.exams[s.subs[k].examId], Apply(s, ev).exams[s.subs[k].examId])
    {
      ApplyEvolvesSubmission(s, ev, k);
      ApplyEvolvesExam(s, ev, s.subs[k].examId);
    }
  }

  lemma SubmissionEvolvesTransitive(a: Submission, b: Submission, c: Submission)
    requires SubmissionEvolves(a, b) && SubmissionEvolves(b, c)
    ensures SubmissionEvolves(a, c)
  {
    if a.IsSubmitted() {
      forall i | 0 <= i < |a.answers| ensures SameAnswer(a.answers[i], c.answers[i]) {
        assert SameAnswer(a.answers[i], b.answers[i]) && SameAnswer(b.answers[i], c.answers[i]);
      }
    }
  }

  lemma EvolvesTransitive(a: State, b: State, c: State)
    requires Evolves(a, b) && Evolves(b, c)
    ensures Evolves(a, c)
  {
    forall k | k in a.subs
      ensures k in c.subs && SubmissionEvolves(a.subs[k], c.subs[k])
      ensures a.subs[k].examId in a.exams ==>
                a.subs[k].examId in c.exams && ExamEvolves(a.exams[a.subs[k].examId], c.exams[a.subs[k].examId])
    {
      SubmissionEvolvesTransitive(a.subs[k], b.subs[k], c.subs[k]);
      assert b.subs[k].examId == a.subs[k].examId;
    }
  }

  /** Over every run: see `Evolves`. */
  lemma {:induction false} RunEvolves(s: State, evs: seq<Event>)
    requires Inv(s) && Run(s, evs)
    ensures Evolves(s, Final(s, evs))
    decreases evs
  {
    if evs == [] {
      forall k | k in s.subs ensures ExamEvolves(s.exams[s.subs[k].examId], s.exams[s.subs[k].examId]) {
        assert SubOk(s.exams, s.subs[k]);
      }
    } else {
      ApplyKeepsInv(s, evs[0]);
      ApplyEvolves(s, evs[0]);
      RunEvolves(Apply(s, evs[0]), evs[1..]);
      EvolvesTransitive(s, Apply(s, evs[0]), Final(s, evs));
    }
  }

  /**
    In every reachable state, the submissions of an examination whose results are out are all PUBLISHED, and stay so.
   */
  lemma PublishedIsFinal(before: seq<Event>, evs: seq<Event>, id: Id, k: Id)
    requires Run(EMPTY, before) && Run(Final(EMPTY, before), evs)
    requires var s := Final(EMPTY, before); id in s.exams && s.exams[id].resultsPublished
    requires var s' := Final(Final(EMPTY, before), evs); k in s'.subs && s'.subs[k].examId == id
    ensures var s' := Final(Final(EMPTY, before), evs);
            id in s'.exams && s'.exams[id].resultsPublished && s'.subs[k].status.Published?
  {
    var s := Final(EMPTY, before);
    RunKeepsInv(EMPTY, before);
    PublishedExamStays(s, evs, id);
    RunKeepsInv(s, evs);
    assert SubOk(Final(s, evs).exams, Final(s, evs).subs[k]);
  }

  lemma {:induction false} PublishedExamStays(s: State, evs: seq<Event>, id: Id)
    requires Inv(s) && Run(s, evs) && id in s.exams && s.exams[id].resultsPublished
    ensures id in Final(s, evs).exams && Final(s, evs).exams[id] == s.exams[id]
    decreases evs
  {
    assert ExamOk(s.exams[id]);
    if evs != [] {
      ApplyKeepsInv(s, evs[0]);
      ApplyEvolvesExam(s, evs[0], id);
      PublishedExamStays(Apply(s, evs[0]), evs[1..], id);
    }
  }

  /**
    In every reachable state a score is the sum of the marks on the answers, and it lies between 0 and the marks
    of the paper when the marked answers are to questions of the paper.
   */
  lemma ScoresAreSums(evs: seq<Event>, k: Id)
    requires Run(EMPTY, evs) && k in Final(EMPTY, evs).subs
    ensures var s := Final(EMPTY, evs); var sub := s.subs[k];
            && sub.examId in s.exams
            && (sub.status.Graded? || sub.status.Published? ==> sub.score.Some?)
            && (sub.score.Some? ==> sub.score.value == SumMarks(sub.answers))
            && (sub.score.Some? && MarksRefer(s.exams[sub.examId].questions, sub.answers) ==>
                  0 <= sub.score.value <= TotalMarks(s.exams[sub.examId].questions))
  {
    RunKeepsInv(EMPTY, evs);
    var s := Final(EMPTY, evs);
    var sub := s.subs[k];
    assert SubOk(s.exams, sub) && ExamOk(s.exams[sub.examId]);
    if MarksRefer(s.exams[sub.examId].questions, sub.answers) {
      SumAtMostTotal(s.exams[sub.examId].questions, sub.answers);
    }
  }

  /**
    In every reachable state, a submission that waits for a tutor stays within the marks of the paper under every
    list of grades that is accepted, exactly when each of its ungraded answers is to a question of the paper.
   */
  lemma WaitingScoreBoundedIff(evs: seq<Event>, k: Id)
    requires Run(EMPTY, evs) && k in Final(EMPTY, evs).subs && Final(EMPTY, evs).subs[k].status.Submitted?
    ensures var s := Final(EMPTY, evs); var sub := s.subs[k];
            && sub.examId in s.exams
            && var qs := s.exams[sub.examId].questions;
            (ManualScoreAlwaysBounded(qs, sub.answers) <==>
             forall i :: 0 <= i < |sub.answers| && sub.answers[i].marksEarned.None? ==>
               FindQuestion(qs, sub.answers[i].questionId).Some?)
  {
    RunKeepsInv(EMPTY, evs);
    var s := Final(EMPTY, evs);
    var sub := s.subs[k];
    assert SubOk(s.exams, sub) && ExamOk(s.exams[sub.examId]);
    ManualScoreBoundedIff(s.exams[sub.examId].questions, sub.answers);
  }

  /**
    A waiting submission that breaks the bound: a student answers a question that is not on the paper, the job hands
    the attempt in, and the tutor gives that answer any number of marks.
   */
  lemma ForeignAnswerEarnsAnything(s: State, k: Id, foreign: Id, t1: int, t2: int, big: nat, actor: Id)
    requires Inv(s) && k in s.subs && s.subs[k].status.InProgress? && s.subs[k].answers == []
    requires var e := s.exams[s.subs[k].examId];
             && e.status.Underway? && FindQuestion(e.questions, foreign).None?
             && !PastLimit(s.subs[k], e, t1) && JustPassed(e.windowEnd, t2)
    ensures var evs := [Save(k, AnswerRequest(foreign, None, []), s.subs[k].studentId, t1),
                        CloseWindow(s.subs[k].examId, t2, true),
                        Grade(k, [ManualGrade(foreign, big, None)], None, actor, t2)];
            && Run(s, evs) && k in Final(s, evs).subs
            && Final(s, evs).subs[k].status.Graded? && Final(s, evs).subs[k].score == Some(big)
  {
    var examId := s.subs[k].examId;
    var save := Save(k, AnswerRequest(foreign, None, []), s.subs[k].studentId, t1);
    var close := CloseWindow(examId, t2, true);
    var grade := Grade(k, [ManualGrade(foreign, big, None)], None, actor, t2);
    var s1, s2, s3 := ForeignAnswerSteps(s, k, foreign, t1, t2, big, actor);
    RunOfThree(s, save, close, grade);
  }

  lemma RunCons(s: State, ev: Event, evs: seq<Event>)
    requires Fresh(s, ev) && Run(Apply(s, ev), evs)
    ensures Run(s, [ev] + evs) && Final(s, [ev] + evs) == Final(Apply(s, ev), evs)
  {
    assert ([ev] + evs)[1..] == evs && ([ev] + evs)[0] == ev;
  }

  lemma RunOfThree(s: State, a: Event, b: Event, c: Event)
    requires Fresh(s, a) && Fresh(Apply(s, a), b) && Fresh(Apply(Apply(s, a), b), c)
    ensures Run(s, [a, b, c]) && Final(s, [a, b, c]) == Apply(Apply(Apply(s, a), b), c)
  {
    RunCons(Apply(Apply(s, a), b), c, []);
    RunCons(Apply(s, a), b, [c] + []);
    RunCons(s, a, [b] + ([c] + []));
    assert [a, b, c] == [a] + ([b] + ([c] + []));
  }

  lemma ForeignAnswerSteps(s: State, k: Id, foreign: Id, t1: int, t2: int, big: nat, actor: Id)
    returns (s1: State, s2: State, s3: State)
    requires Inv(s) && k in s.subs && s.subs[k].status.InProgress? && s.subs[k].answers == []
    requires var e := s.exams[s.subs[k].examId];
             && e.status.Underway? && FindQuestion(e.questions, foreign).None?
             && !PastLimit(s.subs[k], e, t1) && JustPassed(e.windowEnd, t2)
    ensures s1 == Apply(s, Save(k, AnswerRequest(foreign, None, []), s.subs[k].studentId, t1))
    ensures s2 == Apply(s1, CloseWindow(s.subs[k].examId, t2, true))
    ensures s3 == Apply(s2, Grade(k, [ManualGrade(foreign, big, None)], None, actor, t2))
    ensures k in s3.subs && s3.subs[k].status.Graded? && s3.subs[k].score == Some(big)
  {
    var examId, r := s.subs[k].examId, AnswerRequest(foreign, None, []);
    assert SubOk(s.exams, s.subs[k]);
    s1 := Apply(s, Save(k, r, s.subs[k].studentId, t1));
    var answer := Answer(foreign, None, [], None, None, None, t1);
    assert s1.exams == s.exams && s1.subs[k].answers == [answer] && s1.subs[k].status.InProgress?;
    s2 := Apply(s1, CloseWindow(examId, t2, true));
    assert s2.subs[k].answers == [answer] && s2.subs[k].status.Submitted? && examId in s2.exams;
    assert s2.exams[examId].questions == s.exams[examId].questions;
    s3 := Apply(s2, Grade(k, [ManualGrade(foreign, big, None)], None, actor, t2));
    GradesForeign(s2.exams[examId].questions, answer, big);
  }

  lemma GradesForeign(qs: seq<Question>, answer: Answer, big: nat)
    requires answer.marksEarned.None? && FindQuestion(qs, answer.questionId).None?
    ensures var gs := [ManualGrade(answer.questionId, big, None)];
            !AnyRejected(qs, gs, [answer]) && SumMarks(ManuallyGradedAll(gs, [answer])) == big
  {
    var gs := [ManualGrade(answer.questionId, big, None)];
    assert FindGrade(gs, answer.questionId) == Some(gs[0]);
    var graded := ManuallyGradedAll(gs, [answer]);
    assert graded[..0] == [];
  }

  /** In every reachable state a student has at most one attempt at an examination, and its answers came in time. */
  lemma OneTimelyAttempt(evs: seq<Event>, i: Id, j: Id, n: nat)
    requires Run(EMPTY, evs)
    requires var s := Final(EMPTY, evs); i in s.subs && j in s.subs && n < |s.subs[i].answers|
    ensures var s := Final(EMPTY, evs);
            && (IsAttempt(s.subs[i], s.subs[j].examId, s.subs[j].studentId) ==> i == j)
            && s.subs[i].examId in s.exams && s.subs[i].startedAt.Some?
            && var e := s.exams[s.subs[i].examId];
            && s.subs[i].answers[n].submittedAt <= e.windowEnd
            && s.subs[i].answers[n].submittedAt <= s.subs[i].startedAt.value + e.duration * MINUTE
  {
    RunKeepsInv(EMPTY, evs);
    assert SubOk(Final(EMPTY, evs).exams, Final(EMPTY, evs).subs[i]);
  }

  /** In every reachable state, a submission without a score carries no marks. */
  lemma UnscoredIsUnmarked(evs: seq<Event>, k: Id)
    requires Run(EMPTY, evs) && k in Final(EMPTY, evs).subs && Final(EMPTY, evs).subs[k].score.None?
    ensures Unmarked(Final(EMPTY, evs).subs[k].answers)
  {
    RunKeepsInv(EMPTY, evs);
    assert SubOk(Final(EMPTY, evs).exams, Final(EMPTY, evs).subs[k]);
  }

  /**
    What the background job submits carries no score and no marks at all: even its multiple-choice answers wait for a
    tutor.
   */
  lemma JobSubmissionsAreUnmarked(s: State, id: Id, now: int, k: Id)
    requires Inv(s) && k in s.subs && s.subs[k].examId == id && s.subs[k].status.InProgress?
    requires id in s.exams && s.exams[id].status.Underway? && JustPassed(s.exams[id].windowEnd, now)
    ensures var sub := Apply(s, CloseWindow(id, now, true)).subs[k];
            && sub.status.Submitted? && sub.autoSubmitted && sub.submittedAt == Some(now)
            && sub.score.None? && Unmarked(sub.answers) && sub.answers == s.subs[k].answers
  {
    assert SubOk(s.exams, s.subs[k]);
  }

  lemma WaitingStep(s: State, ev: Event, k: Id)
    requires Inv(s) && Fresh(s, ev) && k in s.subs && s.subs[k].status.Submitted?
    requires !(ev.Grade? && ev.id == k)
    ensures k in Apply(s, ev).subs && Apply(s, ev).subs[k] == s.subs[k]
  {
    assert SubOk(s.exams, s.subs[k]);
  }

  /** And it waits: until a tutor grades it, no run changes anything in a submission that is SUBMITTED. */
  lemma {:induction false} WaitsForTutor(s: State, evs: seq<Event>, k: Id)
    requires Inv(s) && Run(s, evs) && k in s.subs && s.subs[k].status.Submitted?
    requires forall ev :: ev in evs ==> !(ev.Grade? && ev.id == k)
    ensures k in Final(s, evs).subs && Final(s, evs).subs[k] == s.subs[k]
    decreases evs
  {
    if evs != [] {
      assert evs[0] in evs;
      ApplyKeepsInv(s, evs[0]);
      WaitingStep(s, evs[0], k);
      WaitsForTutor(Apply(s, evs[0]), evs[1..], k);
    }
  }

  function ExamRank(status: ExamStatus): nat {
    match status
    case Draft => 0
    case Scheduled => 1
    case Underway => 2
    case Completed => 3
    case Archived => 4
  }

  /** An examination that has left DRAFT is never deleted and its status only moves forward. */
  lemma {:induction false} ExamStatusMovesForward(s: State, evs: seq<Event>, id: Id)
    requires Inv(s) && Run(s, evs) && id in s.exams && !s.exams[id].status.Draft?
    ensures id in Final(s, evs).exams && ExamRank(s.exams[id].status) <= ExamRank(Final(s, evs).exams[id].status)
    decreases evs
  {
    if evs != [] {
      ApplyKeepsInv(s, evs[0]);
      ApplyEvolvesExam(s, evs[0], id);
      ApplyRaisesRank(s, evs[0], id);
      ExamStatusMovesForward(Apply(s, evs[0]), evs[1..], id);
    }
  }

  lemma ApplyRaisesRank(s: State, ev: Event, id: Id)
    requires Inv(s) && Fresh(s, ev) && id in s.exams && id in Apply(s, ev).exams
    ensures ExamRank(s.exams[id].status) <= ExamRank(Apply(s, ev).exams[id].status)
  {
    assert ExamOk(s.exams[id]);
  }

  /**
    Once the background job has marked an examination as under way, no student can start it: starting asks for
    the status SCHEDULED, which never comes back.
   */
  lemma NobodyStartsOnceUnderway(s: State, evs: seq<Event>, id: Id, studentId: Id, newId: Id, now: int)
    requires Inv(s) && Run(s, evs) && id in s.exams && s.exams[id].status.Underway?
    ensures Started(Final(s, evs), id, studentId, newId, now) == Failure(NotAccessible)
  {
    ExamStatusMovesForward(s, evs, id);
  }

  /** The event ends the time in which the scheduled examination can be started. */
  predicate EndsStarting(s: State, ev: Event, id: Id)
    requires id in s.exams
  {
    || (ev.OpenWindow? && ev.id == id && JustPassed(s.exams[id].windowStart, ev.now))
    || (ev.Publish? && ev.id == id && PublishedStep(s, id).Success?)
  }

  ghost predicate SomeEventEndsStarting(s: State, evs: seq<Event>, id: Id)
    requires Run(s, evs)
    decreases evs
  {
    && evs != [] && id in s.exams
    && (EndsStarting(s, evs[0], id) || SomeEventEndsStarting(Apply(s, evs[0]), evs[1..], id))
  }

  lemma ScheduledStepKeeps(s: State, ev: Event, id: Id)
    requires Inv(s) && Fresh(s, ev) && id in s.exams && s.exams[id].status.Scheduled?
    ensures id in Apply(s, ev).exams && SamePaper(s.exams[id], Apply(s, ev).exams[id])
    ensures Apply(s, ev).exams[id].status.Scheduled? <==> !EndsStarting(s, ev, id)
  {
    ApplyEvolvesExam(s, ev, id);
  }

  /**
    Inside its window a scheduled examination can be started after a run exactly when the run has neither opened its
    window nor published its results: the window job takes the starting away a minute into the window, and so does
    publishing early.
   */
  lemma {:induction false} CanBeStartedIff(s: State, evs: seq<Event>, id: Id, now: int)
    requires Inv(s) && Run(s, evs) && id in s.exams && s.exams[id].status.Scheduled?
    requires s.exams[id].windowStart < now < s.exams[id].windowEnd
    ensures id in Final(s, evs).exams
    ensures Final(s, evs).exams[id].CanAccess(now) <==> !SomeEventEndsStarting(s, evs, id)
    decreases evs
  {
    if evs != [] {
      var s' := Apply(s, evs[0]);
      ApplyKeepsInv(s, evs[0]);
      ScheduledStepKeeps(s, evs[0], id);
      if EndsStarting(s, evs[0], id) {
        ExamStatusMovesForward(s', evs[1..], id);
      } else {
        CanBeStartedIff(s', evs[1..], id, now);
      }
    }
  }

  /** What that means for the student who tries. */
  lemma StartIsRefusedIff(s: State, evs: seq<Event>, id: Id, studentId: Id, newId: Id, now: int)
    requires Inv(s) && Run(s, evs) && id in s.exams && s.exams[id].status.Scheduled?
    requires s.exams[id].windowStart < now < s.exams[id].windowEnd
    ensures Started(Final(s, evs), id, studentId, newId, now) == Failure(NotAccessible)
            <==> SomeEventEndsStarting(s, evs, id)
  {
    CanBeStartedIff(s, evs, id, now);
  }

  // ---------------------------------------------------------------- the declared total

  predicate TotalsDeclared(s: State) {
    forall i :: i in s.exams ==> s.exams[i].totalMarks == TotalMarks(s.exams[i].questions)
  }

  predicate OverridesTotal(ev: Event) {
    ev.Update? && ev.patch.totalMarks.Some?
  }

  lemma {:induction false} RunKeepsTotals(s: State, evs: seq<Event>)
    requires TotalsDeclared(s) && Run(s, evs) && forall ev :: ev in evs ==> !OverridesTotal(ev)
    ensures TotalsDeclared(Final(s, evs))
    decreases evs
  {
    if evs != [] {
      assert !OverridesTotal(evs[0]);
      ApplyKeepsTotals(s, evs[0]);
      RunKeepsTotals(Apply(s, evs[0]), evs[1..]);
    }
  }

  lemma ApplyKeepsTotals(s: State, ev: Event)
    requires TotalsDeclared(s) && Fresh(s, ev) && !OverridesTotal(ev)
    ensures TotalsDeclared(Apply(s, ev))
  {
  }

  /** In a run without an explicit override, scores for questions of the paper also stay within the declared total. */
  lemma ScoreWithinDeclaredTotal(evs: seq<Event>, k: Id)
    requires Run(EMPTY, evs) && forall ev :: ev in evs ==> !OverridesTotal(ev)
    requires k in Final(EMPTY, evs).subs && Final(EMPTY, evs).subs[k].score.Some?
    ensures var s := Final(EMPTY, evs); var sub := s.subs[k];
            && sub.examId in s.exams
            && (MarksRefer(s.exams[sub.examId].questions, sub.answers) ==>
                  0 <= sub.score.value <= s.exams[sub.examId].totalMarks)
  {
    RunKeepsTotals(EMPTY, evs);
    ScoresAreSums(evs, k);
  }

  // ---------------------------------------------------------------- progressive saving

  /** Saves one after the other, all in time. */
  function UpsertAll(ans: seq<Answer>, rs: seq<(AnswerRequest, int)>): seq<Answer> {
    if rs == [] then ans
    else Upsert(UpsertAll(ans, rs[..|rs| - 1]), rs[|rs| - 1].0, rs[|rs| - 1].1)
  }

  /** The question ids in the order of their first save. */
  function FirstSaves(rs: seq<(AnswerRequest, int)>): seq<Id> {
    if rs == [] then []
    else
      var ids, id := FirstSaves(rs[..|rs| - 1]), rs[|rs| - 1].0.questionId;
      if id in ids then ids else ids + [id]
  }

  /** The map a client would get by writing every save under its question id. */
  function LastWrites(rs: seq<(AnswerRequest, int)>): map<Id, (AnswerRequest, int)> {
    if rs == [] then map[]
    else LastWrites(rs[..|rs| - 1])[rs[|rs| - 1].0.questionId := rs[|rs| - 1]]
  }

  /** The list holds, in the given order, exactly the entries of the map. */
  ghost predicate Represents(ans: seq<Answer>, ids: seq<Id>, m: map<Id, (AnswerRequest, int)>) {
    && |ans| == |ids|
    && (forall i, j :: 0 <= i < j < |ids| ==> ids[i] != ids[j])
    && (forall id :: id in m <==> id in ids)
    && (forall i :: 0 <= i < |ans| ==> ids[i] in m && Holds(ans[i], ids[i], m[ids[i]]))
  }

  predicate Holds(a: Answer, id: Id, w: (AnswerRequest, int)) {
    && a.questionId == id && a.answerText == w.0.answerText && a.selectedOptions == w.0.selectedOptions
    && a.submittedAt == w.1
  }

  /** The first answer to a question is appended with nothing else changed ... */
  lemma {:induction false} UpsertAppends(ans: seq<Answer>, r: AnswerRequest, now: int)
    requires forall i :: 0 <= i < |ans| ==> ans[i].questionId != r.questionId
    ensures Upsert(ans, r, now)
            == ans + [Answer(r.questionId, r.answerText, r.selectedOptions, None, None, None, now)]
  {
    if ans != [] {
      UpsertAppends(ans[1..], r, now);
      assert ans == [ans[0]] + ans[1..];
    }
  }

  /** ... and a later one replaces it where it stands. */
  lemma {:induction false} UpsertReplaces(ans: seq<Answer>, k: nat, r: AnswerRequest, now: int)
    requires k < |ans| && ans[k].questionId == r.questionId
    requires forall i :: 0 <= i < k ==> ans[i].questionId != r.questionId
    ensures Upsert(ans, r, now)
            == ans[k := ans[k].(answerText := r.answerText, selectedOptions := r.selectedOptions, submittedAt := now)]
  {
    if k > 0 {
      UpsertReplaces(ans[1..], k - 1, r, now);
    }
  }

  lemma RepresentsAppended(ans: seq<Answer>, ids: seq<Id>, m: map<Id, (AnswerRequest, int)>,
                           a: Answer, id: Id, w: (AnswerRequest, int))
    requires Represents(ans, ids, m) && id !in ids && Holds(a, id, w)
    ensures Represents(ans + [a], ids + [id], m[id := w])
  {
  }

  lemma RepresentsReplaced(ans: seq<Answer>, ids: seq<Id>, m: map<Id, (AnswerRequest, int)>,
                           k: nat, a: Answer, w: (AnswerRequest, int))
    requires Represents(ans, ids, m) && k < |ids| && Holds(a, ids[k], w)
    ensures Represents(ans[k := a], ids, m[ids[k] := w])
  {
  }

  lemma UpsertRepresents(ans: seq<Answer>, ids: seq<Id>, m: map<Id, (AnswerRequest, int)>, r: AnswerRequest, now: int)
    requires Represents(ans, ids, m)
    ensures Represents(Upsert(ans, r, now),
                       if r.questionId in ids then ids else ids + [r.questionId], m[r.questionId := (r, now)])
  {
    RepresentsIds(ans, ids, m);
    if k :| 0 <= k < |ids| && ids[k] == r.questionId {
      UpsertReplaces(ans, k, r, now);
      RepresentsReplaced(ans, ids, m, k, Upsert(ans, r, now)[k], (r, now));
    } else {
      UpsertAppends(ans, r, now);
      RepresentsAppended(ans, ids, m, Upsert(ans, r, now)[|ans|], r.questionId, (r, now));
    }
  }

  lemma RepresentsIds(ans: seq<Answer>, ids: seq<Id>, m: map<Id, (AnswerRequest, int)>)
    requires Represents(ans, ids, m)
    ensures |ans| == |ids| && forall i :: 0 <= i < |ans| ==> ans[i].questionId == ids[i]
    ensures forall i, j :: 0 <= i < j < |ids| ==> ids[i] != ids[j]
  {
  }

  /** Any sequence of saves leaves one answer per question, in the order of first saves, holding the last write. */
  lemma {:induction false} LastWriteWins(rs: seq<(AnswerRequest, int)>)
    ensures Represents(UpsertAll([], rs), FirstSaves(rs), LastWrites(rs))
  {
    if rs != [] {
      var init, last := rs[..|rs| - 1], rs[|rs| - 1];
      LastWriteWins(init);
      UpsertRepresents(UpsertAll([], init), FirstSaves(init), LastWrites(init), last.0, last.1);
    }
  }

  /** The save that an event makes to submission `k` in time, if it makes one. */
  function AcceptedSave(s: State, ev: Event, k: Id): seq<(AnswerRequest, int)> {
    if ev.Save? && ev.id == k && Guard(s, k, ev.studentId).None? && s.subs[k].examId in s.exams
       && !PastLimit(s.subs[k], s.exams[s.subs[k].examId], ev.now)
    then [(ev.request, ev.now)] else []
  }

  ghost function AcceptedSaves(s: State, evs: seq<Event>, k: Id): seq<(AnswerRequest, int)>
    requires Run(s, evs)
    decreases evs
  {
    if evs == [] then [] else AcceptedSave(s, evs[0], k) + AcceptedSaves(Apply(s, evs[0]), evs[1..], k)
  }

  /** The submission holds the saves `rs`, unchanged once it is submitted; one that does not exist holds none. */
  ghost predicate HoldsSaves(s: State, k: Id, rs: seq<(AnswerRequest, int)>) {
    if k !in s.subs then rs == []
    else
      && SameAnswers(UpsertAll([], rs), s.subs[k].answers)
      && (s.subs[k].status.InProgress? ==> s.subs[k].answers == UpsertAll([], rs))
  }

  lemma SameAnswersTransitive(a: seq<Answer>, b: seq<Answer>, c: seq<Answer>)
    requires SameAnswers(a, b) && SameAnswers(b, c)
    ensures SameAnswers(a, c)
  {
    forall i | 0 <= i < |a| ensures SameAnswer(a[i], c[i]) {
      assert SameAnswer(a[i], b[i]) && SameAnswer(b[i], c[i]);
    }
  }

  /** A save past either limit, like any submission, hands in the earlier answers as they were. */
  lemma SubmittingKeepsAnswers(sub: Submission, exam: Exam, auto: bool, now: int)
    requires sub.status.InProgress? && Unmarked(sub.answers)
    ensures SameAnswers(sub.answers, SubmittedAndGraded(sub, exam, auto, now).answers)
    ensures SubmittedAndGraded(sub, exam, auto, now).IsSubmitted()
  {
  }

  lemma LateSaveSubmitsEarlierAnswers(s: State, id: Id, r: AnswerRequest, studentId: Id, now: int)
    requires Inv(s) && Guard(s, id, studentId).None?
    requires PastLimit(s.subs[id], s.exams[s.subs[id].examId], now)
    ensures var s' := Apply(s, Save(id, r, studentId, now));
            && id in s'.subs && s'.subs[id].IsSubmitted() && s'.subs[id].autoSubmitted
            && SameAnswers(s.subs[id].answers, s'.subs[id].answers)
  {
    assert SubOk(s.exams, s.subs[id]);
    SubmittingKeepsAnswers(s.subs[id], s.exams[s.subs[id].examId], true, now);
  }

  lemma SaveKeepsSaves(s: State, ev: Event, k: Id, rs: seq<(AnswerRequest, int)>)
    requires Inv(s) && ev.Save? && HoldsSaves(s, k, rs)
    ensures HoldsSaves(Apply(s, ev), k, rs + AcceptedSave(s, ev, k))
  {
    if ev.id == k && Guard(s, k, ev.studentId).None? {
      assert SubOk(s.exams, s.subs[k]);
      var exam := s.exams[s.subs[k].examId];
      if PastLimit(s.subs[k], exam, ev.now) {
        SubmittingKeepsAnswers(s.subs[k], exam, true, ev.now);
        assert rs + AcceptedSave(s, ev, k) == rs;
      } else {
        var all := rs + [(ev.request, ev.now)];
        assert all[..|all| - 1] == rs;
        SameAsItself(UpsertAll([], all));
      }
    } else {
      assert rs + AcceptedSave(s, ev, k) == rs;
    }
  }

  lemma SameAsItself(ans: seq<Answer>)
    ensures SameAnswers(ans, ans)
  {
  }

  /** Nothing but a save changes what an open submission says. */
  lemma ExamEventKeepsAnswers(s: State, ev: Event, k: Id)
    requires Inv(s) && Fresh(s, ev) && k in s.subs && s.subs[k].status.InProgress?
    requires ev.Create? || ev.Update? || ev.Delete? || ev.Schedule? || ev.OpenWindow? || ev.CloseWindow? || ev.Publish?
    ensures k in Apply(s, ev).subs && Apply(s, ev).subs[k].answers == s.subs[k].answers
  {
    assert SubOk(s.exams, s.subs[k]);
  }

  lemma StudentEventKeepsAnswers(s: State, ev: Event, k: Id)
    requires Inv(s) && Fresh(s, ev) && k in s.subs && s.subs[k].status.InProgress?
    requires ev.Start? || ev.Integrity? || ev.Grade?
    ensures k in Apply(s, ev).subs && Apply(s, ev).subs[k].answers == s.subs[k].answers
  {
  }

  lemma SubmitKeepsAnswers(s: State, ev: Event, k: Id)
    requires Inv(s) && ev.Submit? && k in s.subs && s.subs[k].status.InProgress?
    ensures var s' := Apply(s, ev);
            && k in s'.subs && SameAnswers(s.subs[k].answers, s'.subs[k].answers)
            && (s'.subs[k].status.InProgress? ==> s'.subs[k].answers == s.subs[k].answers)
  {
    SameAsItself(s.subs[k].answers);
    if ev.id == k && Guard(s, k, ev.studentId).None? {
      assert SubOk(s.exams, s.subs[k]);
      SubmittingKeepsAnswers(s.subs[k], s.exams[s.subs[k].examId], false, ev.now);
    }
  }

  lemma OpenKeepsSaves(s: State, ev: Event, k: Id, rs: seq<(AnswerRequest, int)>)
    requires Inv(s) && Fresh(s, ev) && !ev.Save? && k in s.subs && HoldsSaves(s, k, rs)
    requires s.subs[k].status.InProgress?
    ensures HoldsSaves(Apply(s, ev), k, rs)
  {
    if ev.Submit? {
      SubmitKeepsAnswers(s, ev, k);
    } else if ev.Start? || ev.Integrity? || ev.Grade? {
      StudentEventKeepsAnswers(s, ev, k);
    } else {
      ExamEventKeepsAnswers(s, ev, k);
    }
  }

  lemma SubmittedKeepsSaves(s: State, ev: Event, k: Id, rs: seq<(AnswerRequest, int)>)
    requires Inv(s) && Fresh(s, ev) && k in s.subs && HoldsSaves(s, k, rs) && s.subs[k].IsSubmitted()
    ensures HoldsSaves(Apply(s, ev), k, rs)
  {
    ApplyEvolvesSubmission(s, ev, k);
    SameAnswersTransitive(UpsertAll([], rs), s.subs[k].answers, Apply(s, ev).subs[k].answers);
  }

  lemma NewKeepsSaves(s: State, ev: Event, k: Id)
    requires Inv(s) && Fresh(s, ev) && k !in s.subs
    ensures HoldsSaves(Apply(s, ev), k, []) && AcceptedSave(s, ev, k) == []
  {
  }

  lemma ApplyHoldsSaves(s: State, ev: Event, k: Id, rs: seq<(AnswerRequest, int)>)
    requires Inv(s) && Fresh(s, ev) && HoldsSaves(s, k, rs)
    ensures HoldsSaves(Apply(s, ev), k, rs + AcceptedSave(s, ev, k))
  {
    if ev.Save? {
      SaveKeepsSaves(s, ev, k, rs);
    } else {
      assert rs + AcceptedSave(s, ev, k) == rs;
      if k !in s.subs {
        NewKeepsSaves(s, ev, k);
      } else if s.subs[k].IsSubmitted() {
        SubmittedKeepsSaves(s, ev, k, rs);
      } else {
        assert SubOk(s.exams, s.subs[k]);
        OpenKeepsSaves(s, ev, k, rs);
      }
    }
  }

  lemma Associate<T>(a: seq<T>, b: seq<T>, c: seq<T>)
    ensures a + (b + c) == (a + b) + c
  {
  }

  /** What is left to prove of a run: the saves so far and those to come make `all`. */
  ghost predicate Holding(s: State, evs: seq<Event>, k: Id, rs: seq<(AnswerRequest, int)>,
                          all: seq<(AnswerRequest, int)>)
  {
    Inv(s) && Run(s, evs) && HoldsSaves(s, k, rs) && all == rs + AcceptedSaves(s, evs, k)
  }

  lemma HoldingNext(s: State, evs: seq<Event>, k: Id, rs: seq<(AnswerRequest, int)>, all: seq<(AnswerRequest, int)>)
    requires Holding(s, evs, k, rs, all) && evs != []
    ensures Holding(Apply(s, evs[0]), evs[1..], k, rs + AcceptedSave(s, evs[0], k), all)
    ensures Final(s, evs) == Final(Apply(s, evs[0]), evs[1..])
  {
    var first := AcceptedSave(s, evs[0], k);
    ApplyKeepsInv(s, evs[0]);
    ApplyHoldsSaves(s, evs[0], k, rs);
    Associate(rs, first, AcceptedSaves(Apply(s, evs[0]), evs[1..], k));
  }

  lemma {:induction false} RunHoldsSaves(s: State, evs: seq<Event>, k: Id, rs: seq<(AnswerRequest, int)>,
                                         all: seq<(AnswerRequest, int)>)
    requires Holding(s, evs, k, rs, all)
    ensures HoldsSaves(Final(s, evs), k, all)
    decreases evs
  {
    if evs == [] {
      assert all == rs;
    } else {
      HoldingNext(s, evs, k, rs, all);
      RunHoldsSaves(Apply(s, evs[0]), evs[1..], k, rs + AcceptedSave(s, evs[0], k), all);
    }
  }

  /**
    Over every run: a submission holds exactly the saves the service accepted in time, one answer per question, in
    the order of first saves, with the last write; submitting and grading change none of it.
   */
  lemma AnswersAreTheAcceptedSaves(evs: seq<Event>, k: Id)
    requires Run(EMPTY, evs) && k in Final(EMPTY, evs).subs
    ensures var saves := AcceptedSaves(EMPTY, evs, k); var sub := Final(EMPTY, evs).subs[k];
            && Represents(UpsertAll([], saves), FirstSaves(saves), LastWrites(saves))
            && SameAnswers(UpsertAll([], saves), sub.answers)
            && (sub.status.InProgress? ==> sub.answers == UpsertAll([], saves))
  {
    var saves := AcceptedSaves(EMPTY, evs, k);
    RunHoldsSaves(EMPTY, evs, k, [], saves);
    LastWriteWins(saves);
  }
}
