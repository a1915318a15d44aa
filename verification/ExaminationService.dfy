/**
  The examination service in the source's own form: an object over two repositories whose methods load a record,
  change it, and save it. Every method is proved to take exactly the step that module Examination reasons about.
 */
module ExaminationServices {
  import opened Wrappers
  import opened Grading
  import opened Examination

  class ExaminationService {
    var exams: map<Id, Exam>
    var subs: map<Id, Submission>

    function Store(): State
      reads this
    {
      State(exams, subs)
    }

    /** uuid.New hands out `ids`, one for each question. */
    method AssignIds(drafts: seq<QuestionDraft>, ids: seq<Id>) returns (questions: seq<Question>, total: int)
      requires |ids| == |drafts|
      ensures questions == WithIds(drafts, ids) && total == TotalMarks(questions)
    {
      questions, total := [], 0;
      for i := 0 to |drafts|
        invariant questions == WithIds(drafts, ids)[..i] && total == TotalMarks(questions)
      {
        var q := Question(ids[i], drafts[i].qtype, drafts[i].correctAnswers, drafts[i].marks);
        assert (questions + [q])[..i] == questions;
        questions := questions + [q];
        total := total + q.marks;
      }
    }

    method CreateExamination(id: Id, access: Access, drafts: seq<QuestionDraft>, ids: seq<Id>, totalMarks: int,
                             duration: int, windowStart: int, windowEnd: int)
      returns (r: Option<Error>)
      requires |ids| == |drafts|
      modifies this
      ensures Commits(Created(old(Store()), id, access, drafts, ids, totalMarks, duration, windowStart, windowEnd),
                      old(Store()), Store(), r)
    {
      if access.course.None? {
        return Some(NotFound);
      }
      if access.course.value.tenantId != access.tenantId {
        return Some(WrongTenant);
      }
      if access.tutor.Some? && access.course.value.tutorId != access.tutor.value {
        return Some(NotAssigned);
      }
      if windowEnd < windowStart {
        return Some(BadWindow);
      }
      var questions, calculatedTotal := AssignIds(drafts, ids);
      if calculatedTotal != totalMarks {
        return Some(MarksMismatch);
      }
      exams := exams[id := Exam(questions, totalMarks, duration, windowStart, windowEnd, Draft, false)];
      return None;
    }

    method UpdateExamination(id: Id, patch: ExamPatch, ids: seq<Id>) returns (r: Option<Error>)
      requires patch.questions.Some? ==> |ids| == |patch.questions.value|
      modifies this
      ensures Commits(Updated(old(Store()), id, patch, ids), old(Store()), Store(), r)
    {
      if id !in exams {
        return Some(NotFound);
      }
      var exam := exams[id];
      if !exam.status.Draft? {
        return Some(NotDraft);
      }
      if patch.questions.Some? {
        var questions, calculatedTotal := AssignIds(patch.questions.value, ids);
        exam := exam.(questions := questions, totalMarks := calculatedTotal);
      }
      if patch.totalMarks.Some? {
        exam := exam.(totalMarks := patch.totalMarks.value);
      }
      if patch.duration.Some? {
        exam := exam.(duration := patch.duration.value);
      }
      if patch.windowStart.Some? {
        exam := exam.(windowStart := patch.windowStart.value);
      }
      if patch.windowEnd.Some? {
        exam := exam.(windowEnd := patch.windowEnd.value);
      }
      if exam.windowEnd < exam.windowStart {
        return Some(BadWindow);
      }
      exams := exams[id := exam];
      return None;
    }

    method DeleteExamination(id: Id) returns (r: Option<Error>)
      modifies this
      ensures Commits(Deleted(old(Store()), id), old(Store()), Store(), r)
    {
      if id !in exams {
        return Some(NotFound);
      }
      if !exams[id].status.Draft? {
        return Some(NotDraft);
      }
      exams := exams - {id};
      subs := map k | k in subs && subs[k].examId != id :: subs[k];
      return None;
    }

    method ScheduleExamination(id: Id, now: int) returns (r: Option<Error>)
      modifies this
      ensures Commits(ScheduledStep(old(Store()), id, now), old(Store()), Store(), r)
    {
      if id !in exams {
        return Some(NotFound);
      }
      var exam := exams[id];
      if !exam.status.Draft? {
        return Some(NotDraft);
      }
      if |exam.questions| == 0 {
        return Some(NoQuestions);
      }
      if exam.windowStart < now {
        return Some(WindowInPast);
      }
      exams := exams[id := exam.(status := Scheduled)];
      return None;
    }

    method StartExamination(examId: Id, studentId: Id, newId: Id, now: int) returns (r: Option<Error>)
      requires Inv(Store())
      modifies this
      ensures Commits(Started(old(Store()), examId, studentId, newId, now), old(Store()), Store(), r)
    {
      if examId !in exams {
        return Some(NotFound);
      }
      if !exams[examId].CanAccess(now) {
        return Some(NotAccessible);
      }
      if k :| k in subs && IsAttempt(subs[k], examId, studentId) {
        assert forall j :: j in subs && IsAttempt(subs[j], examId, studentId) ==> j == k;
        if subs[k].IsSubmitted() {
          return Some(AlreadySubmitted);
        }
        if subs[k].status.InProgress? {
          return None;
        }
        return Some(DuplicateSubmission);
      }
      subs := subs[newId := NewAttempt(examId, studentId, now)];
      return None;
    }

    method SaveAnswer(id: Id, request: AnswerRequest, studentId: Id, now: int) returns (r: Option<Error>)
      modifies this
      ensures Commits(Saved(old(Store()), id, request, studentId, now), old(Store()), Store(), r)
    {
      if id !in subs {
        return Some(NotFound);
      }
      var sub := subs[id];
      if sub.studentId != studentId {
        return Some(NotOwner);
      }
      if !sub.status.InProgress? {
        return Some(NotInProgress);
      }
      if sub.examId !in exams {
        return Some(NotFound);
      }
      var exam := exams[sub.examId];
      if now > exam.windowEnd {
        SubmitAndGrade(id, true, now);
        return None;
      }
      if sub.startedAt.Some? {
        var deadline := sub.startedAt.value + exam.duration * MINUTE;
        if now > deadline {
          SubmitAndGrade(id, true, now);
          return None;
        }
      }
      var answers := PutAnswer(sub.answers, request, now);
      subs := subs[id := sub.(answers := answers)];
      return None;
    }

    /** The find-or-append loop of SaveAnswer. */
    method PutAnswer(ans: seq<Answer>, request: AnswerRequest, now: int) returns (answers: seq<Answer>)
      ensures answers == Upsert(ans, request, now)
    {
      answers := ans;
      var found := false;
      for i := 0 to |ans|
        invariant !found && answers == ans
        invariant Upsert(ans, request, now) == ans[..i] + Upsert(ans[i..], request, now)
      {
        if answers[i].questionId == request.questionId {
          answers := answers[i := answers[i].(answerText := request.answerText,
                                              selectedOptions := request.selectedOptions, submittedAt := now)];
          found := true;
          assert ans[i..][1..] == ans[i + 1..];
          break;
        }
        assert ans[..i] + ([ans[i]] + Upsert(ans[i + 1..], request, now))
            == ans[..i + 1] + Upsert(ans[i + 1..], request, now);
        assert ans[i..][1..] == ans[i + 1..];
      }
      if !found {
        answers := answers + [Answer(request.questionId, request.answerText, request.selectedOptions,
                                     None, None, None, now)];
      }
    }

    method RecordIntegrityEvent(id: Id, studentId: Id, event: string) returns (r: Option<Error>)
      modifies this
      ensures Commits(EventRecorded(old(Store()), id, studentId, event), old(Store()), Store(), r)
    {
      if id !in subs {
        return Some(NotFound);
      }
      var sub := subs[id];
      if sub.studentId != studentId {
        return Some(NotOwner);
      }
      if !sub.status.InProgress? {
        return Some(NotInProgress);
      }
      subs := subs[id := sub.(integrityEvents := sub.integrityEvents + [event])];
      return None;
    }

    method SubmitExamination(id: Id, studentId: Id, now: int) returns (r: Option<Error>)
      modifies this
      ensures Commits(SubmittedStep(old(Store()), id, studentId, now), old(Store()), Store(), r)
    {
      if id !in subs {
        return Some(NotFound);
      }
      if subs[id].studentId != studentId {
        return Some(NotOwner);
      }
      if !subs[id].status.InProgress? {
        return Some(NotInProgress);
      }
      if subs[id].examId !in exams {
        return Some(NotFound);
      }
      SubmitAndGrade(id, false, now);
      return None;
    }

    method SubmitAndGrade(id: Id, auto: bool, now: int)
      requires id in subs && subs[id].examId in exams
      modifies this
      ensures exams == old(exams)
      ensures subs == old(subs)[id := SubmittedAndGraded(old(subs)[id], exams[old(subs)[id].examId], auto, now)]
    {
      var sub := subs[id];
      sub := sub.(status := Submitted, submittedAt := Some(now), autoSubmitted := auto);
      var graded, totalScore, hasManualGrading := ExamAutoGrade(exams[sub.examId].questions, sub.answers);
      sub := sub.(answers := graded, score := Some(totalScore));
      if !hasManualGrading {
        sub := sub.(status := Graded, isAutoGraded := true, gradedAt := Some(now));
      }
      subs := subs[id := sub];
    }

    method GradeSubmission(id: Id, grades: seq<ManualGrade>, feedback: Option<string>, actor: Id, now: int)
      returns (r: Option<Error>)
      modifies this
      ensures Commits(GradedStep(old(Store()), id, grades, feedback, actor, now), old(Store()), Store(), r)
    {
      if id !in subs {
        return Some(NotFound);
      }
      var sub := subs[id];
      if !sub.status.Submitted? {
        return Some(NotSubmitted);
      }
      if sub.examId !in exams {
        return Some(NotFound);
      }
      var applied := ApplyGrades(exams[sub.examId].questions, grades, sub.answers);
      if applied.Failure? {
        return Some(ExcessiveMarks);
      }
      sub := sub.(answers := applied.value.0, score := Some(applied.value.1), status := Graded,
                  feedback := feedback, gradedAt := Some(now), gradedBy := Some(actor));
      subs := subs[id := sub];
      return None;
    }

    method CountSubmissions(examId: Id, status: SubmissionStatus) returns (n: nat)
      ensures n > 0 <==> HasStatus(Store(), examId, status)
    {
      var found := set k | k in subs && subs[k].examId == examId && subs[k].status == status;
      if k :| k in subs && subs[k].examId == examId && subs[k].status == status {
        assert k in found;
      } else {
        assert found == {};
      }
      return |found|;
    }

    method PublishResults(id: Id) returns (r: Option<Error>)
      modifies this
      ensures Commits(PublishedStep(old(Store()), id), old(Store()), Store(), r)
    {
      if id !in exams {
        return Some(NotFound);
      }
      var exam := exams[id];
      if exam.resultsPublished {
        return Some(AlreadyPublished);
      }
      var pending := CountSubmissions(id, Submitted);
      if pending > 0 {
        return Some(PendingGrading);
      }
      var running := CountSubmissions(id, InProgress);
      if running > 0 {
        return Some(StillInProgress);
      }
      exam := exam.(resultsPublished := true);
      exam := exam.(status := Completed);
      exams := exams[id := exam];
      subs := map k | k in subs :: PublishedSub(subs[k], id);
      return None;
    }

    /** One examination of the job's processWindowOpenings. */
    method OpenWindow(id: Id, now: int)
      modifies this
      ensures Store() == WindowOpened(old(Store()), id, now)
    {
      if id in exams && exams[id].status.Scheduled? && JustPassed(exams[id].windowStart, now) {
        exams := exams[id := exams[id].(status := Underway)];
      }
    }

    /** One examination of the job's processWindowClosings. */
    method CloseWindow(id: Id, now: int, autoSubmit: bool)
      modifies this
      ensures Store() == WindowClosed(old(Store()), id, now, autoSubmit)
    {
      if id in exams && exams[id].status.Underway? && JustPassed(exams[id].windowEnd, now) {
        exams := exams[id := exams[id].(status := Completed)];
        if autoSubmit {
          subs := map k | k in subs :: AutoSubmittedSub(subs[k], id, now);
        }
      }
    }
  }
}
