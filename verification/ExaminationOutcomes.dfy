/**
  What each call of the examination service does to the record it is about, and what that means over whole runs for
  how a submission came to its status: internal/service/examination_service.go.
 */
module ExaminationOutcomes {
  import opened Wrappers
  import opened Grading
  import opened Examination

  predicate TextQuestion(q: Question) {
    q.qtype.ShortAnswer? || q.qtype.Essay?
  }

  /** The answer is to a text question of the paper. */
  predicate ToText(qs: seq<Question>, a: Answer) {
    exists j :: 0 <= j < |qs| && qs[j].id == a.questionId && TextQuestion(qs[j])
  }

  predicate SomeText(qs: seq<Question>, ans: seq<Answer>) {
    exists i :: 0 <= i < |ans| && ToText(qs, ans[i])
  }

  lemma DistinctIsFirst(qs: seq<Question>, j: int)
    requires DistinctQuestions(qs) && 0 <= j < |qs|
    ensures FirstMatch(qs, qs[j].id, j)
  {
  }

  lemma NeedsManualIff(qs: seq<Question>, a: Answer)
    requires DistinctQuestions(qs)
    ensures NeedsManual(qs, a) <==> ToText(qs, a)
  {
    if FindQuestion(qs, a.questionId).Some? {
      var j := SomeFirstMatch(qs, a.questionId);
      FirstMatchFound(qs, a.questionId, j);
    }
    if j :| 0 <= j < |qs| && qs[j].id == a.questionId && TextQuestion(qs[j]) {
      DistinctIsFirst(qs, j);
      FirstMatchFound(qs, a.questionId, j);
    }
  }

  lemma AnyManualIff(qs: seq<Question>, ans: seq<Answer>)
    requires DistinctQuestions(qs)
    ensures AnyManual(qs, ans) <==> SomeText(qs, ans)
  {
    forall i | 0 <= i < |ans| ensures NeedsManual(qs, ans[i]) <==> ToText(qs, ans[i]) {
      NeedsManualIff(qs, ans[i]);
    }
  }

  /** An auto-graded text answer is as it was. */
  lemma TextIsUnchanged(qs: seq<Question>, a: Answer)
    requires DistinctQuestions(qs) && ToText(qs, a)
    ensures ExamGraded(qs, a) == a
  {
    var j :| 0 <= j < |qs| && qs[j].id == a.questionId && TextQuestion(qs[j]);
    DistinctIsFirst(qs, j);
    ExamGradedByRule(qs, a, j);
  }

  // ---------------------------------------------------------------- handing in

  /**
    The submission `after` is `sub` handed in for the paper: graded at once when no text question is answered,
    waiting for a tutor otherwise; every answer is marked by its question's rule, and the score is their sum.
   */
  ghost predicate HandedIn(qs: seq<Question>, sub: Submission, after: Submission, auto: bool, now: int) {
    var text := SomeText(qs, sub.answers);
    && after.status == (if text then Submitted else Graded)
    && after.submittedAt == Some(now) && after.autoSubmitted == auto
    && after.isAutoGraded == (sub.isAutoGraded || !text)
    && after.gradedAt == (if text then sub.gradedAt else Some(now))
    && after.gradedBy == sub.gradedBy && after.feedback == sub.feedback
    && after.integrityEvents == sub.integrityEvents && after.startedAt == sub.startedAt
    && after.examId == sub.examId && after.studentId == sub.studentId
    && |after.answers| == |sub.answers|
    && (forall i :: 0 <= i < |sub.answers| ==> MarkedByRule(qs, sub.answers[i], after.answers[i]))
    && after.score == Some(SumMarks(after.answers))
  }

  ghost predicate MarkedByRule(qs: seq<Question>, a: Answer, graded: Answer) {
    exists manual :: FollowsRule(qs, a, graded, MarksOf(graded), manual)
  }

  lemma SubmittingHandsIn(qs: seq<Question>, sub: Submission, exam: Exam, auto: bool, now: int)
    requires qs == exam.questions && DistinctQuestions(qs) && Unmarked(sub.answers)
    ensures HandedIn(qs, sub, SubmittedAndGraded(sub, exam, auto, now), auto, now)
  {
    AnyManualIff(qs, sub.answers);
    ExamScoreIsSumOfMarks(qs, sub.answers);
    forall i | 0 <= i < |sub.answers| ensures MarkedByRule(qs, sub.answers[i], ExamGraded(qs, sub.answers[i])) {
      var a := sub.answers[i];
      RuleIsFollowed(qs, a);
      assert MarksOf(ExamGraded(qs, a)) == ExamAwarded(qs, a);
      assert FollowsRule(qs, a, ExamGraded(qs, a), MarksOf(ExamGraded(qs, a)), NeedsManual(qs, a));
    }
  }

  lemma SubmitStep(s: State, k: Id, now: int)
    requires Inv(s) && k in s.subs && s.subs[k].status.InProgress?
    ensures s.subs[k].examId in s.exams && DistinctQuestions(s.exams[s.subs[k].examId].questions)
    ensures Unmarked(s.subs[k].answers) && s.subs[k].startedAt.Some?
    ensures var after := SubmittedAndGraded(s.subs[k], s.exams[s.subs[k].examId], false, now);
            Apply(s, Submit(k, s.subs[k].studentId, now)) == s.(subs := s.subs[k := after])
  {
    assert SubOk(s.exams, s.subs[k]) && ExamOk(s.exams[s.subs[k].examId]);
  }

  /** A submission handed in by its student. */
  lemma SubmitHandsIn(s: State, k: Id, now: int)
    requires Inv(s) && k in s.subs && s.subs[k].status.InProgress?
    ensures s.subs[k].examId in s.exams
    ensures var after := Apply(s, Submit(k, s.subs[k].studentId, now)).subs[k];
            && Apply(s, Submit(k, s.subs[k].studentId, now)) == s.(subs := s.subs[k := after])
            && HandedIn(s.exams[s.subs[k].examId].questions, s.subs[k], after, false, now)
  {
    SubmitStep(s, k, now);
    SubmittingHandsIn(s.exams[s.subs[k].examId].questions, s.subs[k], s.exams[s.subs[k].examId], false, now);
  }

  /** The student's save is in time: the window is open and the time, given in minutes, is not used up. */
  predicate SaveInTime(e: Exam, started: int, now: int) {
    now <= e.windowEnd && now - started <= 60 * e.duration
  }

  /** A save in time leaves the attempt open and writes the answer ... */
  lemma SaveInTimeWrites(s: State, k: Id, r: AnswerRequest, now: int)
    requires Inv(s) && k in s.subs && s.subs[k].status.InProgress?
    ensures s.subs[k].examId in s.exams && s.subs[k].startedAt.Some?
    ensures SaveInTime(s.exams[s.subs[k].examId], s.subs[k].startedAt.value, now) ==>
              var after := s.subs[k].(answers := Upsert(s.subs[k].answers, r, now));
              Apply(s, Save(k, r, s.subs[k].studentId, now)) == s.(subs := s.subs[k := after])
  {
    assert SubOk(s.exams, s.subs[k]);
  }

  lemma LateSaveStep(s: State, k: Id, r: AnswerRequest, now: int)
    requires Inv(s) && k in s.subs && s.subs[k].status.InProgress?
    ensures s.subs[k].examId in s.exams && s.subs[k].startedAt.Some?
    ensures !SaveInTime(s.exams[s.subs[k].examId], s.subs[k].startedAt.value, now) ==>
              var after := SubmittedAndGraded(s.subs[k], s.exams[s.subs[k].examId], true, now);
              Apply(s, Save(k, r, s.subs[k].studentId, now)) == s.(subs := s.subs[k := after])
  {
    assert SubOk(s.exams, s.subs[k]);
  }

  /** ... and a late one hands in the earlier answers. */
  lemma LateSaveHandsIn(s: State, k: Id, r: AnswerRequest, now: int)
    requires Inv(s) && k in s.subs && s.subs[k].status.InProgress?
    ensures s.subs[k].examId in s.exams && s.subs[k].startedAt.Some?
    ensures !SaveInTime(s.exams[s.subs[k].examId], s.subs[k].startedAt.value, now) ==>
              var after := Apply(s, Save(k, r, s.subs[k].studentId, now)).subs[k];
              && Apply(s, Save(k, r, s.subs[k].studentId, now)) == s.(subs := s.subs[k := after])
              && HandedIn(s.exams[s.subs[k].examId].questions, s.subs[k], after, true, now)
  {
    SubmitStep(s, k, now);
    LateSaveStep(s, k, r, now);
    SubmittingHandsIn(s.exams[s.subs[k].examId].questions, s.subs[k], s.exams[s.subs[k].examId], true, now);
  }

  /** Nobody else's call, and no call on an attempt that is not open, changes anything. */
  lemma OthersChangeNothing(s: State, k: Id, r: AnswerRequest, event: string, studentId: Id, now: int)
    requires k in s.subs ==> s.subs[k].studentId != studentId || !s.subs[k].status.InProgress?
    ensures Apply(s, Save(k, r, studentId, now)) == s
    ensures Apply(s, Submit(k, studentId, now)) == s
    ensures Apply(s, Integrity(k, studentId, event)) == s
  {
  }

  lemma IntegrityEventIsLogged(s: State, k: Id, event: string)
    requires k in s.subs && s.subs[k].status.InProgress?
    ensures var s', sub := Apply(s, Integrity(k, s.subs[k].studentId, event)), s.subs[k];
            && s'.exams == s.exams && s'.subs == s.subs[k := s'.subs[k]]
            && |s'.subs[k].integrityEvents| == |sub.integrityEvents| + 1
            && sub.integrityEvents <= s'.subs[k].integrityEvents
            && s'.subs[k].integrityEvents[|sub.integrityEvents|] == event
            && s'.subs[k].(integrityEvents := sub.integrityEvents) == sub
  {
  }

  // ---------------------------------------------------------------- grading and publishing

  /** The tutor's grades are accepted exactly when the submission waits and no entry asks for too much. */
  lemma GradeIsAcceptedIff(s: State, k: Id, gs: seq<ManualGrade>, feedback: Option<string>, actor: Id, now: int)
    requires Inv(s)
    ensures GradedStep(s, k, gs, feedback, actor, now).Success?
            <==> k in s.subs && s.subs[k].status.Submitted?
                 && forall i, g, q :: !RejectedAt(s.exams[s.subs[k].examId].questions, gs, s.subs[k].answers, i, g, q)
  {
    if k in s.subs && s.subs[k].status.Submitted? {
      assert SubOk(s.exams, s.subs[k]);
      RejectedIff(s.exams[s.subs[k].examId].questions, gs, s.subs[k].answers);
    }
  }

  /** ... and then finish the submission, answer by answer. */
  lemma GradeFinishes(s: State, k: Id, gs: seq<ManualGrade>, feedback: Option<string>, actor: Id, now: int)
    requires GradedStep(s, k, gs, feedback, actor, now).Success?
    ensures var s', sub := Apply(s, Grade(k, gs, feedback, actor, now)), s.subs[k];
            && s'.exams == s.exams && k in s'.subs && s'.subs == s.subs[k := s'.subs[k]]
            && var after := s'.subs[k];
            && after.status.Graded? && after.feedback == feedback
            && after.gradedAt == Some(now) && after.gradedBy == Some(actor)
            && after.startedAt == sub.startedAt && after.submittedAt == sub.submittedAt
            && after.examId == sub.examId && after.studentId == sub.studentId
            && after.autoSubmitted == sub.autoSubmitted && after.isAutoGraded == sub.isAutoGraded
            && |after.answers| == |sub.answers|
            && (forall i :: 0 <= i < |sub.answers| ==> ManualRule(gs, sub.answers[i], after.answers[i]))
            && after.score == Some(SumMarks(after.answers))
  {
    var sub := s.subs[k];
    forall i | 0 <= i < |sub.answers| ensures ManualRule(gs, sub.answers[i], ManuallyGraded(gs, sub.answers[i])) {
      ManualGradedByRule(gs, sub.answers[i]);
    }
  }

  /** Results can be published exactly when they are not out and no attempt is open or waiting. */
  lemma PublishIsAcceptedIff(s: State, id: Id)
    ensures PublishedStep(s, id).Success?
            <==> id in s.exams && !s.exams[id].resultsPublished
                 && forall k :: k in s.subs && s.subs[k].examId == id ==>
                      !s.subs[k].status.Submitted? && !s.subs[k].status.InProgress?
  {
    if id in s.exams && !s.exams[id].resultsPublished {
      if k :| k in s.subs && s.subs[k].examId == id && s.subs[k].status.Submitted? {
        assert HasStatus(s, id, Submitted);
      }
      if k :| k in s.subs && s.subs[k].examId == id && s.subs[k].status.InProgress? {
        assert HasStatus(s, id, InProgress);
      }
    }
  }

  /** ... and publishing changes the examination's two flags and the status of its graded submissions, nothing else. */
  lemma PublishChanges(s: State, id: Id)
    requires PublishedStep(s, id).Success?
    ensures var s' := Apply(s, Publish(id));
            && s'.exams == s.exams[id := s'.exams[id]] && s'.subs.Keys == s.subs.Keys
            && s'.exams[id].resultsPublished && s'.exams[id].status.Completed? && SamePaper(s.exams[id], s'.exams[id])
            && forall k :: k in s.subs ==>
                 && s'.subs[k].(status := s.subs[k].status) == s.subs[k]
                 && s'.subs[k].status == if s.subs[k].examId == id && s.subs[k].status.Graded? then Published
                                         else s.subs[k].status
  {
  }

  // ---------------------------------------------------------------- the examination itself

  /**
    An examination is created exactly for somebody in charge of the course, with an ordered window and an honest
    total.
   */
  lemma CreateIsAcceptedIff(s: State, id: Id, access: Access, drafts: seq<QuestionDraft>, ids: seq<Id>, totalMarks: int,
                            duration: int, windowStart: int, windowEnd: int)
    requires |ids| == |drafts|
    ensures var r := Created(s, id, access, drafts, ids, totalMarks, duration, windowStart, windowEnd);
            r.Success? <==> && access.course.Some? && access.course.value.tenantId == access.tenantId
                            && (access.tutor.Some? ==> access.tutor.value == access.course.value.tutorId)
                            && windowStart <= windowEnd && TotalMarks(WithIds(drafts, ids)) == totalMarks
  {
  }

  lemma CreateMakesDraft(s: State, id: Id, access: Access, drafts: seq<QuestionDraft>, ids: seq<Id>, totalMarks: int,
                         duration: int, windowStart: int, windowEnd: int)
    requires |ids| == |drafts| && DistinctIds(ids) && id !in s.exams
    requires Created(s, id, access, drafts, ids, totalMarks, duration, windowStart, windowEnd).Success?
    ensures var s' := Apply(s, Create(id, access, drafts, ids, totalMarks, duration, windowStart, windowEnd));
            && s'.subs == s.subs && s'.exams.Keys == s.exams.Keys + {id} && s'.exams - {id} == s.exams
            && var e := s'.exams[id];
            && e.status.Draft? && !e.resultsPublished && e.totalMarks == totalMarks && e.duration == duration
            && e.windowStart == windowStart && e.windowEnd == windowEnd && |e.questions| == |drafts|
            && forall i :: 0 <= i < |drafts| ==>
                 && e.questions[i].id == ids[i] && e.questions[i].qtype == drafts[i].qtype
                 && e.questions[i].correctAnswers == drafts[i].correctAnswers && e.questions[i].marks == drafts[i].marks
  {
  }

  /** An update sets what the patch names and keeps the rest; new questions without a new total bring their own. */
  lemma UpdateSetsFields(s: State, id: Id, p: ExamPatch, ids: seq<Id>)
    requires p.questions.Some? ==> |ids| == |p.questions.value| && DistinctIds(ids)
    requires Updated(s, id, p, ids).Success?
    ensures var s' := Apply(s, Update(id, p, ids));
            && s'.subs == s.subs && id in s'.exams && id in s.exams && s'.exams == s.exams[id := s'.exams[id]]
            && var e, e' := s.exams[id], s'.exams[id];
            && e.status.Draft? && e'.status.Draft? && e'.resultsPublished == e.resultsPublished
            && e'.windowStart <= e'.windowEnd
            && (p.questions.None? ==> e'.questions == e.questions)
            && (p.questions.Some? ==> e'.questions == WithIds(p.questions.value, ids))
            && (p.totalMarks.Some? ==> e'.totalMarks == p.totalMarks.value)
            && (p.totalMarks.None? && p.questions.Some? ==> e'.totalMarks == TotalMarks(e'.questions))
            && (p.totalMarks.None? && p.questions.None? ==> e'.totalMarks == e.totalMarks)
            && (p.duration.Some? ==> e'.duration == p.duration.value)
            && (p.duration.None? ==> e'.duration == e.duration)
            && (p.windowStart.Some? ==> e'.windowStart == p.windowStart.value)
            && (p.windowStart.None? ==> e'.windowStart == e.windowStart)
            && (p.windowEnd.Some? ==> e'.windowEnd == p.windowEnd.value)
            && (p.windowEnd.None? ==> e'.windowEnd == e.windowEnd)
  {
  }

  /** Updating and deleting are for drafts, and every draft can be deleted. */
  lemma DraftsOnly(s: State, id: Id, p: ExamPatch, ids: seq<Id>)
    requires p.questions.Some? ==> |ids| == |p.questions.value|
    ensures Updated(s, id, p, ids).Success? ==> id in s.exams && s.exams[id].status.Draft?
    ensures Deleted(s, id).Success? <==> id in s.exams && s.exams[id].status.Draft?
    ensures Deleted(s, id).Success? ==>
              var s' := Apply(s, Delete(id));
              && s'.exams.Keys == s.exams.Keys - {id} && (forall j :: j in s'.exams ==> s'.exams[j] == s.exams[j])
              && (forall k :: k in s'.subs <==> k in s.subs && s.subs[k].examId != id)
              && (forall k :: k in s'.subs ==> s'.subs[k] == s.subs[k])
  {
  }

  /** A draft can be scheduled exactly when it has a question and its window has not begun. */
  lemma ScheduleIsAcceptedIff(s: State, id: Id, now: int)
    ensures ScheduledStep(s, id, now).Success?
            <==> id in s.exams && s.exams[id].status.Draft? && |s.exams[id].questions| > 0
                 && now <= s.exams[id].windowStart
    ensures ScheduledStep(s, id, now).Success? ==>
              var s' := Apply(s, Schedule(id, now));
              s'.subs == s.subs && s'.exams == s.exams[id := s.exams[id].(status := Scheduled)]
  {
  }

  /** Starting gives a student without an attempt an open, empty one that begins now. */
  lemma StartOpens(s: State, examId: Id, studentId: Id, newId: Id, now: int)
    requires newId !in s.subs && examId in s.exams && s.exams[examId].status.Scheduled?
    requires s.exams[examId].windowStart < now < s.exams[examId].windowEnd
    requires forall k :: k in s.subs ==> !IsAttempt(s.subs[k], examId, studentId)
    ensures var s' := Apply(s, Start(examId, studentId, newId, now));
            && s'.exams == s.exams && s'.subs.Keys == s.subs.Keys + {newId} && s'.subs - {newId} == s.subs
            && var sub := s'.subs[newId];
            && sub.examId == examId && sub.studentId == studentId && sub.status.InProgress?
            && sub.startedAt == Some(now) && sub.answers == [] && sub.integrityEvents == []
            && sub.score.None? && sub.submittedAt.None? && sub.gradedAt.None? && sub.gradedBy.None?
            && sub.feedback.None? && !sub.autoSubmitted && !sub.isAutoGraded
  {
  }

  /** Starting again returns the open attempt, and is refused once it is handed in. */
  lemma StartAgain(s: State, examId: Id, k: Id, newId: Id, now: int)
    requires Inv(s) && k in s.subs && s.subs[k].examId == examId && examId in s.exams
    requires s.exams[examId].CanAccess(now)
    ensures Started(s, examId, s.subs[k].studentId, newId, now)
            == if s.subs[k].status.InProgress? then Success(s) else Failure(AlreadySubmitted)
  {
    assert SubOk(s.exams, s.subs[k]);
    assert IsAttempt(s.subs[k], examId, s.subs[k].studentId);
    forall j | j in s.subs && IsAttempt(s.subs[j], examId, s.subs[k].studentId) ensures j == k {
    }
  }

  /** The job acts on windows that began, or ended, within the last sixty seconds. */
  lemma JobActsIff(s: State, id: Id, now: int)
    requires id in s.exams
    ensures var s' := Apply(s, OpenWindow(id, now));
            && s'.subs == s.subs && s'.exams == s.exams[id := s'.exams[id]]
            && s'.exams[id] == if s.exams[id].status.Scheduled? && 0 < now - s.exams[id].windowStart <= 60
                               then s.exams[id].(status := Underway) else s.exams[id]
    ensures var s' := Apply(s, CloseWindow(id, now, true));
            s'.exams == s.exams[id := s'.exams[id]]
            && if s.exams[id].status.Underway? && 0 < now - s.exams[id].windowEnd <= 60
               then && s'.exams[id] == s.exams[id].(status := Completed) && s'.subs.Keys == s.subs.Keys
                    && forall k :: k in s.subs ==>
                         s'.subs[k] ==
                         if s.subs[k].examId == id && s.subs[k].status.InProgress?
                         then s.subs[k].(status := Submitted, submittedAt := Some(now), autoSubmitted := true)
                         else s.subs[k]
               else s' == s
  {
  }

  // ---------------------------------------------------------------- how a submission came to its status

  ghost predicate TextUnmarked(qs: seq<Question>, ans: seq<Answer>) {
    forall i :: 0 <= i < |ans| && ToText(qs, ans[i]) ==> ans[i].marksEarned.None?
  }

  /** The traces a submission's history has left in it. */
  ghost predicate TraceOk(e: Exam, sub: Submission) {
    && sub.startedAt.Some? && e.windowStart < sub.startedAt.value < e.windowEnd
    && (sub.status.InProgress? ==>
          && sub.submittedAt.None? && sub.gradedAt.None? && sub.gradedBy.None? && sub.feedback.None?
          && !sub.autoSubmitted && !sub.isAutoGraded)
    && (sub.status.Submitted? ==>
          && sub.submittedAt.Some? && sub.gradedAt.None? && sub.gradedBy.None? && !sub.isAutoGraded
          && TextUnmarked(e.questions, sub.answers)
          && (sub.score.Some? ==> SomeText(e.questions, sub.answers)))
    && (sub.status.Graded? || sub.status.Published? ==>
          && sub.submittedAt.Some? && sub.gradedAt.Some?
          && (sub.isAutoGraded <==> sub.gradedBy.None?)
          && (sub.gradedBy.None? ==> !SomeText(e.questions, sub.answers)))
  }

  ghost predicate Traced(s: State) {
    forall k :: k in s.subs && s.subs[k].examId in s.exams ==> TraceOk(s.exams[s.subs[k].examId], s.subs[k])
  }

  lemma SameQuestionsSameText(qs: seq<Question>, ans: seq<Answer>, ans': seq<Answer>)
    requires |ans| == |ans'| && forall i :: 0 <= i < |ans| ==> ans[i].questionId == ans'[i].questionId
    ensures SomeText(qs, ans) <==> SomeText(qs, ans')
    ensures forall i :: 0 <= i < |ans| ==> (ToText(qs, ans[i]) <==> ToText(qs, ans'[i]))
  {
    forall i | 0 <= i < |ans| ensures ToText(qs, ans[i]) <==> ToText(qs, ans'[i]) {
    }
  }

  lemma HandingInTraces(s: State, k: Id, auto: bool, now: int)
    requires Inv(s) && k in s.subs && s.subs[k].status.InProgress?
    requires TraceOk(s.exams[s.subs[k].examId], s.subs[k])
    ensures var e := s.exams[s.subs[k].examId]; TraceOk(e, SubmittedAndGraded(s.subs[k], e, auto, now))
  {
    assert SubOk(s.exams, s.subs[k]) && ExamOk(s.exams[s.subs[k].examId]);
    var e, sub := s.exams[s.subs[k].examId], s.subs[k];
    var after := SubmittedAndGraded(sub, e, auto, now);
    SubmittingHandsIn(e.questions, sub, e, auto, now);
    SameQuestionsSameText(e.questions, sub.answers, after.answers);
    forall i | 0 <= i < |after.answers| && ToText(e.questions, after.answers[i])
      ensures after.answers[i].marksEarned.None?
    {
      TextIsUnchanged(e.questions, sub.answers[i]);
    }
  }

  lemma GradingTraces(e: Exam, sub: Submission, gs: seq<ManualGrade>, feedback: Option<string>, actor: Id, now: int)
    requires TraceOk(e, sub) && sub.status.Submitted?
    ensures var graded := ManuallyGradedAll(gs, sub.answers);
            TraceOk(e, sub.(answers := graded, score := Some(SumMarks(graded)), status := Graded, feedback := feedback,
                            gradedAt := Some(now), gradedBy := Some(actor)))
  {
  }

  lemma StartTraces(s: State, ev: Event, k: Id)
    requires Inv(s) && Traced(s) && Fresh(s, ev) && ev.Start?
    requires k in Apply(s, ev).subs && Apply(s, ev).subs[k].examId in s.exams
    ensures TraceOk(s.exams[Apply(s, ev).subs[k].examId], Apply(s, ev).subs[k])
  {
    if k in s.subs {
      assert s.subs[k].examId in s.exams ==> TraceOk(s.exams[s.subs[k].examId], s.subs[k]);
    }
  }

  lemma SaveTraces(s: State, ev: Event, k: Id)
    requires Inv(s) && Traced(s) && ev.Save? && k in s.subs && s.subs[k].examId in s.exams
    ensures k in Apply(s, ev).subs && TraceOk(s.exams[s.subs[k].examId], Apply(s, ev).subs[k])
    ensures Apply(s, ev).subs[k].examId == s.subs[k].examId
  {
    assert TraceOk(s.exams[s.subs[k].examId], s.subs[k]);
    if ev.id == k && Guard(s, k, ev.studentId).None? {
      HandingInTraces(s, k, true, ev.now);
    }
  }

  lemma SubmitTraces(s: State, ev: Event, k: Id)
    requires Inv(s) && Traced(s) && ev.Submit? && k in s.subs && s.subs[k].examId in s.exams
    ensures k in Apply(s, ev).subs && TraceOk(s.exams[s.subs[k].examId], Apply(s, ev).subs[k])
    ensures Apply(s, ev).subs[k].examId == s.subs[k].examId
  {
    assert TraceOk(s.exams[s.subs[k].examId], s.subs[k]);
    if ev.id == k && Guard(s, k, ev.studentId).None? {
      HandingInTraces(s, k, false, ev.now);
    }
  }

  lemma GradeTraces(s: State, ev: Event, k: Id)
    requires Inv(s) && Traced(s) && (ev.Grade? || ev.Integrity?) && k in s.subs && s.subs[k].examId in s.exams
    ensures k in Apply(s, ev).subs && TraceOk(s.exams[s.subs[k].examId], Apply(s, ev).subs[k])
    ensures Apply(s, ev).subs[k].examId == s.subs[k].examId
  {
    assert TraceOk(s.exams[s.subs[k].examId], s.subs[k]);
    if ev.Grade? && ev.id == k && Attempt(s, ev).Success? {
      GradingTraces(s.exams[s.subs[k].examId], s.subs[k], ev.grades, ev.feedback, ev.actor, ev.now);
    }
  }

  lemma SameSubmissions(s: State, ev: Event)
    requires Fresh(s, ev) && (ev.Save? || ev.Integrity? || ev.Submit? || ev.Grade?)
    ensures Apply(s, ev).subs.Keys == s.subs.Keys
    ensures forall k :: k in s.subs ==> Apply(s, ev).subs[k].examId == s.subs[k].examId
  {
  }

  lemma StudentEventTraces(s: State, ev: Event, k: Id)
    requires Inv(s) && Traced(s) && Fresh(s, ev) && (ev.Start? || ev.Save? || ev.Integrity? || ev.Submit? || ev.Grade?)
    requires k in Apply(s, ev).subs && Apply(s, ev).subs[k].examId in s.exams
    ensures TraceOk(s.exams[Apply(s, ev).subs[k].examId], Apply(s, ev).subs[k])
  {
    if ev.Start? {
      StartTraces(s, ev, k);
    } else {
      SameSubmissions(s, ev);
      if ev.Save? {
        SaveTraces(s, ev, k);
      } else if ev.Submit? {
        SubmitTraces(s, ev, k);
      } else {
        GradeTraces(s, ev, k);
      }
    }
  }

  /** What an examination event can do to one submission. */
  lemma ExamEventOnSubmission(s: State, ev: Event, k: Id)
    requires Fresh(s, ev) && !(ev.Start? || ev.Save? || ev.Integrity? || ev.Submit? || ev.Grade?)
    requires k in Apply(s, ev).subs
    ensures k in s.subs
    ensures var sub, after := s.subs[k], Apply(s, ev).subs[k];
            || after == sub
            || (sub.status.Graded? && after == sub.(status := Published))
            || (sub.status.InProgress? && exists t :: after == HandedInByJob(sub, t))
  {
    if ev.CloseWindow? && Apply(s, ev).subs[k] != s.subs[k] {
      assert Apply(s, ev).subs[k] == HandedInByJob(s.subs[k], ev.now);
    }
  }

  function HandedInByJob(sub: Submission, t: int): Submission {
    sub.(status := Submitted, submittedAt := Some(t), autoSubmitted := true)
  }

  lemma SameTrace(e: Exam, e': Exam, sub: Submission, after: Submission)
    requires TraceOk(e, sub) && SamePaper(e, e')
    requires sub.status.InProgress? ==> Unmarked(sub.answers) && sub.score.None?
    requires || after == sub
             || (sub.status.Graded? && after == sub.(status := Published))
             || (sub.status.InProgress? && exists t :: after == HandedInByJob(sub, t))
    ensures TraceOk(e', after)
  {
    UnmarkedText(e.questions, sub.answers);
  }

  lemma ExamEventTraces(s: State, ev: Event, k: Id)
    requires Inv(s) && Traced(s) && Fresh(s, ev) && !(ev.Start? || ev.Save? || ev.Integrity? || ev.Submit? || ev.Grade?)
    requires k in Apply(s, ev).subs && k in s.subs && s.subs[k].examId in Apply(s, ev).exams
    ensures TraceOk(Apply(s, ev).exams[s.subs[k].examId], Apply(s, ev).subs[k])
  {
    var examId := s.subs[k].examId;
    assert SubOk(s.exams, s.subs[k]);
    assert TraceOk(s.exams[examId], s.subs[k]);
    ApplyEvolvesExam(s, ev, examId);
    ExamEventOnSubmission(s, ev, k);
    SameTrace(s.exams[examId], Apply(s, ev).exams[examId], s.subs[k], Apply(s, ev).subs[k]);
  }

  lemma UnmarkedText(qs: seq<Question>, ans: seq<Answer>)
    ensures Unmarked(ans) ==> TextUnmarked(qs, ans)
  {
  }

  lemma ApplyKeepsTraces(s: State, ev: Event)
    requires Inv(s) && Traced(s) && Fresh(s, ev)
    ensures Traced(Apply(s, ev))
  {
    var s' := Apply(s, ev);
    forall k | k in s'.subs && s'.subs[k].examId in s'.exams ensures TraceOk(s'.exams[s'.subs[k].examId], s'.subs[k]) {
      if ev.Start? || ev.Save? || ev.Integrity? || ev.Submit? || ev.Grade? {
        SameExams(s, ev);
        StudentEventTraces(s, ev, k);
      } else {
        NoNewSubmission(s, ev, k);
        ExamEventTraces(s, ev, k);
      }
    }
  }

  lemma SameExams(s: State, ev: Event)
    requires Fresh(s, ev) && (ev.Start? || ev.Save? || ev.Integrity? || ev.Submit? || ev.Grade?)
    ensures Apply(s, ev).exams == s.exams
  {
  }

  lemma NoNewSubmission(s: State, ev: Event, k: Id)
    requires Fresh(s, ev) && !(ev.Start? || ev.Save? || ev.Integrity? || ev.Submit? || ev.Grade?)
    requires k in Apply(s, ev).subs
    ensures k in s.subs && Apply(s, ev).subs[k].examId == s.subs[k].examId
  {
  }

  lemma {:induction false} RunKeepsTraces(s: State, evs: seq<Event>)
    requires Inv(s) && Traced(s) && Run(s, evs)
    ensures Inv(Final(s, evs)) && Traced(Final(s, evs))
    decreases evs
  {
    if evs != [] {
      ApplyKeepsInv(s, evs[0]);
      ApplyKeepsTraces(s, evs[0]);
      RunKeepsTraces(Apply(s, evs[0]), evs[1..]);
    }
  }

  lemma ReachableTrace(evs: seq<Event>, k: Id)
    requires Run(EMPTY, evs) && k in Final(EMPTY, evs).subs
    ensures var s := Final(EMPTY, evs);
            && Inv(s) && s.subs[k].examId in s.exams && DistinctQuestions(s.exams[s.subs[k].examId].questions)
            && TraceOk(s.exams[s.subs[k].examId], s.subs[k])
  {
    RunKeepsTraces(EMPTY, evs);
    var s := Final(EMPTY, evs);
    assert SubOk(s.exams, s.subs[k]) && ExamOk(s.exams[s.subs[k].examId]);
  }

  /**
    In every reachable state: a finished submission that no tutor graded answers no text question, and one that waits
    with a score answers one.
   */
  lemma TutorsGradeText(evs: seq<Event>, k: Id)
    requires Run(EMPTY, evs) && k in Final(EMPTY, evs).subs
    ensures var s := Final(EMPTY, evs); var sub := s.subs[k];
            && sub.examId in s.exams
            && var qs := s.exams[sub.examId].questions;
            && ((sub.status.Graded? || sub.status.Published?) && sub.gradedBy.None? ==> !SomeText(qs, sub.answers))
            && (sub.status.Submitted? && sub.score.Some? ==> SomeText(qs, sub.answers))
  {
    ReachableTrace(evs, k);
  }

  /** In every reachable state, a text answer that waits carries no marks, and an accepted grade becomes its marks. */
  lemma GradeBecomesMarks(evs: seq<Event>, k: Id, i: nat, gs: seq<ManualGrade>, g: nat, feedback: Option<string>,
                          actor: Id, now: int)
    requires Run(EMPTY, evs) && k in Final(EMPTY, evs).subs && Final(EMPTY, evs).subs[k].status.Submitted?
    requires i < |Final(EMPTY, evs).subs[k].answers|
    requires var s := Final(EMPTY, evs);
             s.subs[k].examId in s.exams && ToText(s.exams[s.subs[k].examId].questions, s.subs[k].answers[i])
    requires FirstGrade(gs, Final(EMPTY, evs).subs[k].answers[i].questionId, g)
    requires GradedStep(Final(EMPTY, evs), k, gs, feedback, actor, now).Success?
    ensures Final(EMPTY, evs).subs[k].answers[i].marksEarned.None?
    ensures var s' := Apply(Final(EMPTY, evs), Grade(k, gs, feedback, actor, now));
            && k in s'.subs && i < |s'.subs[k].answers|
            && s'.subs[k].answers[i].marksEarned == Some(gs[g].marksEarned)
            && s'.subs[k].answers[i].feedback == gs[g].feedback
  {
    ReachableTrace(evs, k);
    GradeFinishes(Final(EMPTY, evs), k, gs, feedback, actor, now);
  }
}
