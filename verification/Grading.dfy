/**
  The two auto-graders and the manual grader.

  The examination grader (internal/service/examination_service.go:576-781) scans the questions and compares
  selections by mutual containment; the quiz grader (internal/service/assessment_service.go:273-333) looks
  questions up in a map and compares selections by length and membership.
 */
module Grading {
  import opened Wrappers
  import opened Counting

  type Id = nat

  datatype QuestionType =
    | MultipleChoice
    | MultipleAnswer
    | TrueFalse
    | ShortAnswer
    | Essay
    | OtherType(name: string)   // the field is a plain string; no grader handles any other value

  datatype Question = Question(id: Id, qtype: QuestionType, correctAnswers: seq<string>, marks: int)

  datatype Answer = Answer(
    questionId: Id,
    answerText: Option<string>,
    selectedOptions: seq<string>,
    isCorrect: Option<bool>,
    marksEarned: Option<int>,
    feedback: Option<string>,
    submittedAt: int)

  predicate DistinctQuestions(qs: seq<Question>) {
    forall i, j :: 0 <= i < j < |qs| ==> qs[i].id != qs[j].id
  }

  predicate DistinctAnswers(ans: seq<Answer>) {
    forall i, j :: 0 <= i < j < |ans| ==> ans[i].questionId != ans[j].questionId
  }

  /** The first question with the given id. */
  function FindQuestion(qs: seq<Question>, id: Id): (q: Option<Question>)
    ensures q.Some? ==> q.value in qs && q.value.id == id
    ensures q.None? <==> forall k :: 0 <= k < |qs| ==> qs[k].id != id
  {
    if qs == [] then None
    else if qs[0].id == id then Some(qs[0])
    else FindQuestion(qs[1..], id)
  }

  method ScanForQuestion(qs: seq<Question>, id: Id) returns (q: Option<Question>)
    ensures q == FindQuestion(qs, id)
  {
    for i := 0 to |qs|
      invariant FindQuestion(qs, id) == FindQuestion(qs[i..], id)
    {
      if qs[i].id == id {
        return Some(qs[i]);
      }
    }
    return None;
  }

  /** The sum of the marks the answers carry; an answer without marks counts zero. */
  function SumMarks(ans: seq<Answer>): int {
    if ans == [] then 0
    else SumMarks(ans[..|ans| - 1]) + MarksOf(ans[|ans| - 1])
  }

  function MarksOf(a: Answer): int {
    match a.marksEarned
    case Some(m) => m
    case None => 0
  }

  function TotalMarks(qs: seq<Question>): int {
    if qs == [] then 0 else TotalMarks(qs[..|qs| - 1]) + qs[|qs| - 1].marks
  }

  // ---------------------------------------------------------------- the examination grader

  function Elements(s: seq<string>): set<string> {
    set x | x in s
  }

  /** None: not auto-graded. */
  function ExamVerdict(q: Question, selected: seq<string>): Option<bool> {
    match q.qtype
    case MultipleChoice | TrueFalse =>
      Some(|selected| == 1 && |q.correctAnswers| == 1 && selected[0] == q.correctAnswers[0])
    case MultipleAnswer => Some(Elements(selected) == Elements(q.correctAnswers))
    case _ => None
  }

  predicate Manual(q: Question) {
    q.qtype.ShortAnswer? || q.qtype.Essay?
  }

  function Award(a: Answer, verdict: Option<bool>, marks: int): Answer {
    match verdict
    case None => a
    case Some(correct) => a.(isCorrect := Some(correct), marksEarned := Some(if correct then marks else 0))
  }

  function ExamGraded(qs: seq<Question>, a: Answer): Answer {
    match FindQuestion(qs, a.questionId)
    case None => a
    case Some(q) => Award(a, ExamVerdict(q, a.selectedOptions), q.marks)
  }

  function ExamAwarded(qs: seq<Question>, a: Answer): int {
    match FindQuestion(qs, a.questionId)
    case None => 0
    case Some(q) => if ExamVerdict(q, a.selectedOptions) == Some(true) then q.marks else 0
  }

  predicate NeedsManual(qs: seq<Question>, a: Answer) {
    var q := FindQuestion(qs, a.questionId);
    q.Some? && Manual(q.value)
  }

  function ExamGradedAll(qs: seq<Question>, ans: seq<Answer>): (graded: seq<Answer>)
    ensures |graded| == |ans|
    ensures forall i :: 0 <= i < |ans| ==> graded[i].questionId == ans[i].questionId
  {
    seq(|ans|, i requires 0 <= i < |ans| => ExamGraded(qs, ans[i]))
  }

  function ExamScore(qs: seq<Question>, ans: seq<Answer>): int {
    if ans == [] then 0
    else ExamScore(qs, ans[..|ans| - 1]) + ExamAwarded(qs, ans[|ans| - 1])
  }

  predicate AnyManual(qs: seq<Question>, ans: seq<Answer>) {
    exists i :: 0 <= i < |ans| && NeedsManual(qs, ans[i])
  }

  /** Question `i` is the one an answer with this id is graded against. */
  predicate FirstMatch(qs: seq<Question>, id: Id, i: int) {
    0 <= i < |qs| && qs[i].id == id && forall j :: 0 <= j < i ==> qs[j].id != id
  }

  lemma {:induction false} FirstMatchFound(qs: seq<Question>, id: Id, i: int)
    requires FirstMatch(qs, id, i)
    ensures FindQuestion(qs, id) == Some(qs[i])
  {
    if i > 0 {
      FirstMatchFound(qs[1..], id, i - 1);
    }
  }

  /** The answer is marked right or wrong, and full marks or none. */
  predicate Marked(a: Answer, graded: Answer, right: bool, marks: int) {
    graded == a.(isCorrect := Some(right), marksEarned := Some(if right then marks else 0))
  }

  predicate Unchanged(a: Answer, graded: Answer, awarded: int) {
    graded == a && awarded == 0
  }

  /**
    The rule by which examinations are marked, question type by question type: the one selected option must be the
    one right one; the selected options must be the right ones; text answers are left to a tutor, and other types to
    nobody.
   */
  ghost predicate ExamRule(q: Question, a: Answer, graded: Answer, awarded: int, manual: bool) {
    match q.qtype
    case MultipleChoice | TrueFalse =>
      var right := |a.selectedOptions| == 1 && a.selectedOptions == q.correctAnswers;
      Marked(a, graded, right, q.marks) && awarded == (if right then q.marks else 0) && !manual
    case MultipleAnswer =>
      var right := forall x :: x in a.selectedOptions <==> x in q.correctAnswers;
      Marked(a, graded, right, q.marks) && awarded == (if right then q.marks else 0) && !manual
    case ShortAnswer | Essay => Unchanged(a, graded, awarded) && manual
    case OtherType(_) => Unchanged(a, graded, awarded) && !manual
  }

  lemma SameElementsIff(xs: seq<string>, ys: seq<string>)
    ensures Elements(xs) == Elements(ys) <==> forall x :: x in xs <==> x in ys
  {
    if Elements(xs) == Elements(ys) {
      forall x ensures x in xs <==> x in ys {
        assert x in Elements(xs) <==> x in Elements(ys);
      }
    }
  }

  lemma ExamGradedByRule(qs: seq<Question>, a: Answer, i: int)
    requires FirstMatch(qs, a.questionId, i)
    ensures ExamRule(qs[i], a, ExamGraded(qs, a), ExamAwarded(qs, a), NeedsManual(qs, a))
  {
    FirstMatchFound(qs, a.questionId, i);
    SameElementsIff(a.selectedOptions, qs[i].correctAnswers);
  }

  lemma ForeignIsUnchanged(qs: seq<Question>, a: Answer)
    requires forall j :: 0 <= j < |qs| ==> qs[j].id != a.questionId
    ensures Unchanged(a, ExamGraded(qs, a), ExamAwarded(qs, a)) && !NeedsManual(qs, a)
  {
  }

  /** Every string of `xs` occurs in `ys`: the source's pair of nested loops. */
  method ContainsAll(xs: seq<string>, ys: seq<string>) returns (all: bool)
    ensures all <==> Elements(xs) <= Elements(ys)
  {
    for i := 0 to |xs|
      invariant forall k :: 0 <= k < i ==> xs[k] in ys
    {
      var found := false;
      for j := 0 to |ys|
        invariant xs[i] in ys || !found
        invariant !found ==> forall k :: 0 <= k < j ==> ys[k] != xs[i]
      {
        if xs[i] == ys[j] {
          found := true;
          break;
        }
      }
      if !found {
        assert xs[i] in Elements(xs) && xs[i] !in Elements(ys);
        return false;
      }
    }
    return true;
  }

  lemma RuleIsFollowed(qs: seq<Question>, a: Answer)
    ensures FollowsRule(qs, a, ExamGraded(qs, a), ExamAwarded(qs, a), NeedsManual(qs, a))
  {
    forall i | FirstMatch(qs, a.questionId, i)
      ensures ExamRule(qs[i], a, ExamGraded(qs, a), ExamAwarded(qs, a), NeedsManual(qs, a))
    {
      ExamGradedByRule(qs, a, i);
    }
  }

  /** The answer is graded by the rule of the question it matches, and left alone when it matches none. */
  ghost predicate FollowsRule(qs: seq<Question>, a: Answer, graded: Answer, awarded: int, manual: bool) {
    && (forall i :: FirstMatch(qs, a.questionId, i) ==> ExamRule(qs[i], a, graded, awarded, manual))
    && ((forall j :: 0 <= j < |qs| ==> qs[j].id != a.questionId) ==> Unchanged(a, graded, awarded) && !manual)
  }

  /** One round of the grading loop of submitAndGrade. */
  method ExamGradeOne(qs: seq<Question>, answer: Answer)
    returns (graded: Answer, marks: int, manual: bool)
    ensures graded == ExamGraded(qs, answer)
    ensures marks == ExamAwarded(qs, answer)
    ensures manual <==> NeedsManual(qs, answer)
    ensures FollowsRule(qs, answer, graded, marks, manual)
  {
    RuleIsFollowed(qs, answer);
    graded, marks, manual := answer, 0, false;
    var question := ScanForQuestion(qs, answer.questionId);
    if question.Some? {
      graded, marks, manual := ExamGradeByType(question.value, answer);
    }
  }

  /** The switch over the question type. */
  method ExamGradeByType(q: Question, answer: Answer) returns (graded: Answer, marks: int, manual: bool)
    ensures graded == Award(answer, ExamVerdict(q, answer.selectedOptions), q.marks)
    ensures marks == if ExamVerdict(q, answer.selectedOptions) == Some(true) then q.marks else 0
    ensures manual <==> Manual(q)
  {
    graded, marks, manual := answer, 0, false;
    var correct := false;
    match q.qtype {
      case MultipleChoice | TrueFalse =>
        correct := |answer.selectedOptions| == 1 && |q.correctAnswers| == 1
                   && answer.selectedOptions[0] == q.correctAnswers[0];
      case MultipleAnswer =>
        correct := ContainsAll(answer.selectedOptions, q.correctAnswers);
        if correct {
          correct := ContainsAll(q.correctAnswers, answer.selectedOptions);
        }
      case ShortAnswer | Essay =>
        manual := true;
        return;
      case OtherType(_) =>
        return;
    }
    if correct {
      marks := q.marks;
    }
    graded := answer.(isCorrect := Some(correct), marksEarned := Some(marks));
  }

  /** The grading loop of submitAndGrade. */
  method ExamAutoGrade(qs: seq<Question>, ans: seq<Answer>)
    returns (graded: seq<Answer>, totalScore: int, hasManualGrading: bool)
    ensures graded == ExamGradedAll(qs, ans)
    ensures totalScore == ExamScore(qs, ans)
    ensures hasManualGrading <==> AnyManual(qs, ans)
  {
    graded, totalScore, hasManualGrading := ans, 0, false;
    for i := 0 to |ans|
      invariant |graded| == |ans|
      invariant forall k :: 0 <= k < i ==> graded[k] == ExamGraded(qs, ans[k])
      invariant forall k :: i <= k < |ans| ==> graded[k] == ans[k]
      invariant totalScore == ExamScore(qs, ans[..i])
      invariant hasManualGrading <==> exists k :: 0 <= k < i && NeedsManual(qs, ans[k])
    {
      assert ans[..i + 1][..i] == ans[..i];
      var answer, marks, manual := ExamGradeOne(qs, graded[i]);
      graded := graded[i := answer];
      totalScore := totalScore + marks;
      if manual {
        hasManualGrading := true;
      }
    }
    assert ans[..|ans|] == ans;
  }

  /** No answer carries marks yet. */
  predicate Unmarked(ans: seq<Answer>) {
    forall i :: 0 <= i < |ans| ==> ans[i].marksEarned.None?
  }

  /** On answers without marks, the auto-graded score is the sum of the marks written to the answers. */
  lemma {:induction false} ExamScoreIsSumOfMarks(qs: seq<Question>, ans: seq<Answer>)
    requires Unmarked(ans)
    ensures ExamScore(qs, ans) == SumMarks(ExamGradedAll(qs, ans))
  {
    if ans != [] {
      var init := ans[..|ans| - 1];
      ExamScoreIsSumOfMarks(qs, init);
      assert ExamGradedAll(qs, ans)[..|ans| - 1] == ExamGradedAll(qs, init);
    }
  }

  /** A paper a machine can mark, and its right answers. */
  predicate Markable(q: Question) {
    q.qtype.MultipleAnswer? || ((q.qtype.MultipleChoice? || q.qtype.TrueFalse?) && |q.correctAnswers| == 1)
  }

  function RightAnswers(qs: seq<Question>, now: int): (ans: seq<Answer>)
    ensures |ans| == |qs|
  {
    seq(|qs|, i requires 0 <= i < |qs| =>
      Answer(qs[i].id, None, qs[i].correctAnswers, None, None, None, now))
  }

  lemma {:induction false} RightAnswersUpTo(qs: seq<Question>, now: int, n: nat)
    requires DistinctQuestions(qs) && n <= |qs| && forall i :: 0 <= i < |qs| ==> Markable(qs[i])
    ensures ExamScore(qs, RightAnswers(qs, now)[..n]) == TotalMarks(qs[..n])
  {
    if n > 0 {
      RightAnswersUpTo(qs, now, n - 1);
      var ans := RightAnswers(qs, now);
      assert ans[..n][..n - 1] == ans[..n - 1] && qs[..n][..n - 1] == qs[..n - 1];
      FirstMatchFound(qs, qs[n - 1].id, n - 1);
    }
  }

  /** Full marks can be had: on a paper a machine can mark, the right answers earn all of its marks. */
  lemma RightAnswersEarnAll(qs: seq<Question>, now: int)
    requires DistinctQuestions(qs) && forall i :: 0 <= i < |qs| ==> Markable(qs[i])
    ensures ExamScore(qs, RightAnswers(qs, now)) == TotalMarks(qs)
  {
    RightAnswersUpTo(qs, now, |qs|);
    assert RightAnswers(qs, now)[..|qs|] == RightAnswers(qs, now) && qs[..|qs|] == qs;
  }

  // ---------------------------------------------------------------- manual grading

  datatype ManualGrade = ManualGrade(questionId: Id, marksEarned: nat, feedback: Option<string>)

  function FindGrade(gs: seq<ManualGrade>, id: Id): (g: Option<ManualGrade>)
    ensures g.Some? ==> g.value in gs && g.value.questionId == id
  {
    if gs == [] then None
    else if gs[0].questionId == id then Some(gs[0])
    else FindGrade(gs[1..], id)
  }

  /** The grade asks for more marks than its question has. */
  predicate Excessive(qs: seq<Question>, g: ManualGrade) {
    var q := FindQuestion(qs, g.questionId);
    q.Some? && g.marksEarned > q.value.marks
  }

  predicate Rejects(qs: seq<Question>, gs: seq<ManualGrade>, a: Answer) {
    var g := FindGrade(gs, a.questionId);
    a.marksEarned.None? && g.Some? && Excessive(qs, g.value)
  }

  function ManuallyGraded(gs: seq<ManualGrade>, a: Answer): Answer {
    if a.marksEarned.Some? then a
    else match FindGrade(gs, a.questionId)
      case None => a
      case Some(g) => a.(marksEarned := Some(g.marksEarned), feedback := g.feedback)
  }

  /** Entry `i` is the one that grades the question. */
  predicate FirstGrade(gs: seq<ManualGrade>, id: Id, i: int) {
    0 <= i < |gs| && gs[i].questionId == id && forall j :: 0 <= j < i ==> gs[j].questionId != id
  }

  lemma {:induction false} FirstGradeFound(gs: seq<ManualGrade>, id: Id)
    ensures forall i :: FirstGrade(gs, id, i) ==> FindGrade(gs, id) == Some(gs[i])
    ensures FindGrade(gs, id).None? <==> forall i :: 0 <= i < |gs| ==> gs[i].questionId != id
  {
    if gs != [] && gs[0].questionId != id {
      FirstGradeFound(gs[1..], id);
      forall i | FirstGrade(gs, id, i) ensures FindGrade(gs, id) == Some(gs[i]) {
        assert FirstGrade(gs[1..], id, i - 1);
      }
    }
  }

  /**
    The tutor's rule: marks that are there stay; otherwise the first entry for the question gives marks and feedback.
   */
  ghost predicate ManualRule(gs: seq<ManualGrade>, a: Answer, graded: Answer) {
    && (a.marksEarned.Some? ==> graded == a)
    && (a.marksEarned.None? ==> forall i :: FirstGrade(gs, a.questionId, i) ==>
          graded == a.(marksEarned := Some(gs[i].marksEarned), feedback := gs[i].feedback))
    && ((forall i :: 0 <= i < |gs| ==> gs[i].questionId != a.questionId) ==> graded == a)
  }

  lemma ManualGradedByRule(gs: seq<ManualGrade>, a: Answer)
    ensures ManualRule(gs, a, ManuallyGraded(gs, a))
  {
    FirstGradeFound(gs, a.questionId);
  }

  /** The grades are refused exactly when the entry for some unmarked answer asks for more than its question has. */
  lemma RejectedIff(qs: seq<Question>, gs: seq<ManualGrade>, ans: seq<Answer>)
    ensures AnyRejected(qs, gs, ans) <==> exists i, g, q :: RejectedAt(qs, gs, ans, i, g, q)
  {
    if i :| 0 <= i < |ans| && Rejects(qs, gs, ans[i]) {
      FirstGradeFound(gs, ans[i].questionId);
      var g := SomeFirstGrade(gs, ans[i].questionId);
      var q := SomeFirstMatch(qs, ans[i].questionId);
      FirstMatchFound(qs, ans[i].questionId, q);
      assert RejectedAt(qs, gs, ans, i, g, q);
    }
    if i, g, q :| RejectedAt(qs, gs, ans, i, g, q) {
      FirstGradeFound(gs, ans[i].questionId);
      FirstMatchFound(qs, ans[i].questionId, q);
      assert Rejects(qs, gs, ans[i]);
    }
  }

  predicate RejectedAt(qs: seq<Question>, gs: seq<ManualGrade>, ans: seq<Answer>, i: int, g: int, q: int) {
    && 0 <= i < |ans| && ans[i].marksEarned.None?
    && FirstGrade(gs, ans[i].questionId, g) && FirstMatch(qs, ans[i].questionId, q)
    && gs[g].marksEarned > qs[q].marks
  }

  lemma {:induction false} SomeFirstGrade(gs: seq<ManualGrade>, id: Id) returns (i: int)
    requires FindGrade(gs, id).Some?
    ensures FirstGrade(gs, id, i)
  {
    i := 0;
    if gs[0].questionId != id {
      i := SomeFirstGrade(gs[1..], id);
      i := i + 1;
    }
  }

  lemma {:induction false} SomeFirstMatch(qs: seq<Question>, id: Id) returns (i: int)
    requires FindQuestion(qs, id).Some?
    ensures FirstMatch(qs, id, i)
  {
    i := 0;
    if qs[0].id != id {
      i := SomeFirstMatch(qs[1..], id);
      i := i + 1;
    }
  }

  function ManuallyGradedAll(gs: seq<ManualGrade>, ans: seq<Answer>): (graded: seq<Answer>)
    ensures |graded| == |ans|
    ensures forall i :: 0 <= i < |ans| ==> graded[i].questionId == ans[i].questionId
  {
    seq(|ans|, i requires 0 <= i < |ans| => ManuallyGraded(gs, ans[i]))
  }

  predicate AnyRejected(qs: seq<Question>, gs: seq<ManualGrade>, ans: seq<Answer>) {
    exists i :: 0 <= i < |ans| && Rejects(qs, gs, ans[i])
  }

  /** The grading loop of GradeSubmission; it stops at the first grade above its question's marks. */
  method ApplyGrades(qs: seq<Question>, gs: seq<ManualGrade>, ans: seq<Answer>)
    returns (r: Result<(seq<Answer>, int), string>)
    ensures r.Failure? <==> AnyRejected(qs, gs, ans)
    ensures r.Success? ==> r.value == (ManuallyGradedAll(gs, ans), SumMarks(ManuallyGradedAll(gs, ans)))
  {
    var graded, totalScore := ans, 0;
    for i := 0 to |ans|
      invariant |graded| == |ans|
      invariant forall k :: 0 <= k < i ==> graded[k] == ManuallyGraded(gs, ans[k]) && !Rejects(qs, gs, ans[k])
      invariant forall k :: i <= k < |ans| ==> graded[k] == ans[k]
      invariant totalScore == SumMarks(graded[..i])
    {
      ghost var before := graded;
      if graded[i].marksEarned.Some? {
        totalScore := totalScore + graded[i].marksEarned.value;
      } else {
        for j := 0 to |gs|
          invariant graded == before && totalScore == SumMarks(before[..i])
          invariant FindGrade(gs, ans[i].questionId) == FindGrade(gs[j..], ans[i].questionId)
        {
          if gs[j].questionId == ans[i].questionId {
            var q := ScanForQuestion(qs, gs[j].questionId);
            if q.Some? && gs[j].marksEarned > q.value.marks {
              assert Rejects(qs, gs, ans[i]);
              return Failure("marks exceed maximum");
            }
            graded := graded[i := ans[i].(marksEarned := Some(gs[j].marksEarned), feedback := gs[j].feedback)];
            totalScore := totalScore + gs[j].marksEarned;
            break;
          }
        }
      }
      assert graded[..i + 1][..i] == before[..i];
    }
    assert graded[..|ans|] == graded;
    assert graded == ManuallyGradedAll(gs, ans);
    return Success((graded, totalScore));
  }

  // ---------------------------------------------------------------- bounds on the score

  /** Each mark is non-negative and, when its question exists, at most that question's marks. */
  predicate MarksInRange(qs: seq<Question>, ans: seq<Answer>) {
    forall i :: 0 <= i < |ans| ==> AnswerInRange(qs, ans[i])
  }

  predicate AnswerInRange(qs: seq<Question>, a: Answer) {
    var q := FindQuestion(qs, a.questionId);
    0 <= MarksOf(a) && (q.Some? ==> MarksOf(a) <= q.value.marks)
  }

  /** Every answer that carries marks answers a question of the examination. */
  predicate MarksRefer(qs: seq<Question>, ans: seq<Answer>) {
    forall i :: 0 <= i < |ans| && ans[i].marksEarned.Some? ==> FindQuestion(qs, ans[i].questionId).Some?
  }

  predicate PositiveMarks(qs: seq<Question>) {
    forall i :: 0 <= i < |qs| ==> 1 <= qs[i].marks
  }

  function DropAt(ans: seq<Answer>, k: nat): seq<Answer>
    requires k < |ans|
  {
    ans[..k] + ans[k + 1..]
  }

  lemma {:induction false} SumDropAt(ans: seq<Answer>, k: nat)
    requires k < |ans|
    ensures SumMarks(ans) == SumMarks(DropAt(ans, k)) + MarksOf(ans[k])
    decreases |ans|
  {
    var init, last := ans[..|ans| - 1], ans[|ans| - 1];
    if k == |ans| - 1 {
      assert DropAt(ans, k) == init;
    } else {
      SumDropAt(init, k);
      assert DropAt(ans, k) == DropAt(init, k) + [last];
      assert (DropAt(init, k) + [last])[..|DropAt(init, k)|] == DropAt(init, k);
    }
  }

  lemma {:induction false} SumNonNegative(qs: seq<Question>, ans: seq<Answer>)
    requires MarksInRange(qs, ans)
    ensures 0 <= SumMarks(ans)
  {
    if ans != [] {
      SumNonNegative(qs, ans[..|ans| - 1]);
      assert AnswerInRange(qs, ans[|ans| - 1]);
    }
  }

  /** Unfolds TotalMarks at the front. */
  lemma {:induction false} TotalMarksFront(qs: seq<Question>)
    requires qs != []
    ensures TotalMarks(qs) == qs[0].marks + TotalMarks(qs[1..])
  {
    if |qs| > 1 {
      TotalMarksFront(qs[..|qs| - 1]);
      assert qs[..|qs| - 1][1..] == qs[1..][..|qs| - 2];
    }
  }

  /** Answers to distinct questions of the paper earn no more than the paper carries. */
  lemma {:induction false} SumAtMostTotal(qs: seq<Question>, ans: seq<Answer>)
    requires PositiveMarks(qs) && DistinctAnswers(ans) && MarksInRange(qs, ans) && MarksRefer(qs, ans)
    ensures 0 <= SumMarks(ans) <= TotalMarks(qs)
    decreases |qs|
  {
    SumNonNegative(qs, ans);
    if qs == [] {
      AllUnmarkedIsZero(ans);
    } else {
      TotalMarksFront(qs);
      if k :| 0 <= k < |ans| && ans[k].questionId == qs[0].id {
        var rest := DropAt(ans, k);
        SumDropAt(ans, k);
        forall i | 0 <= i < |rest|
          ensures AnswerInRange(qs[1..], rest[i]) && rest[i].questionId != qs[0].id
          ensures rest[i].marksEarned.Some? ==> FindQuestion(qs[1..], rest[i].questionId).Some?
        {
          assert AnswerInRange(qs, ans[if i < k then i else i + 1]);
        }
        assert AnswerInRange(qs, ans[k]);
        SumAtMostTotal(qs[1..], rest);
      } else {
        forall i | 0 <= i < |ans| ensures AnswerInRange(qs[1..], ans[i]) {
          assert AnswerInRange(qs, ans[i]);
        }
        SumAtMostTotal(qs[1..], ans);
      }
    }
  }

  lemma {:induction false} AllUnmarkedIsZero(ans: seq<Answer>)
    requires Unmarked(ans)
    ensures SumMarks(ans) == 0
  {
    if ans != [] {
      AllUnmarkedIsZero(ans[..|ans| - 1]);
    }
  }

  lemma AutoGradingInRange(qs: seq<Question>, ans: seq<Answer>)
    requires PositiveMarks(qs) && Unmarked(ans)
    ensures MarksInRange(qs, ExamGradedAll(qs, ans)) && MarksRefer(qs, ExamGradedAll(qs, ans))
  {
    forall i | 0 <= i < |ans|
      ensures AnswerInRange(qs, ExamGraded(qs, ans[i]))
    {
      var q := FindQuestion(qs, ans[i].questionId);
      if q.Some? {
        assert 1 <= q.value.marks;
      }
    }
  }

  /** The auto-graded score of answers to distinct questions lies between 0 and the marks of the paper. */
  lemma AutoScoreBounded(qs: seq<Question>, ans: seq<Answer>)
    requires PositiveMarks(qs) && DistinctAnswers(ans) && Unmarked(ans)
    ensures 0 <= ExamScore(qs, ans) <= TotalMarks(qs)
  {
    ExamScoreIsSumOfMarks(qs, ans);
    AutoGradingInRange(qs, ans);
    SumAtMostTotal(qs, ExamGradedAll(qs, ans));
  }

  lemma ManualGradingInRange(qs: seq<Question>, gs: seq<ManualGrade>, ans: seq<Answer>)
    requires MarksInRange(qs, ans) && !AnyRejected(qs, gs, ans)
    ensures MarksInRange(qs, ManuallyGradedAll(gs, ans))
  {
    forall i | 0 <= i < |ans| ensures AnswerInRange(qs, ManuallyGraded(gs, ans[i])) {
      assert AnswerInRange(qs, ans[i]) && !Rejects(qs, gs, ans[i]);
    }
  }

  /** A grader can be sure of the bound: whatever grades are accepted, the score stays within the paper's marks. */
  ghost predicate ManualScoreAlwaysBounded(qs: seq<Question>, ans: seq<Answer>) {
    forall gs :: !AnyRejected(qs, gs, ans) ==> 0 <= SumMarks(ManuallyGradedAll(gs, ans)) <= TotalMarks(qs)
  }

  /**
    The bound holds for every list of grades exactly when no answer still to be graded refers to a question that
    is not on the paper. Nothing in SaveAnswer checks that, and manual grading checks the maximum only of questions
    it finds.
   */
  lemma ManualScoreBoundedIff(qs: seq<Question>, ans: seq<Answer>)
    requires PositiveMarks(qs) && DistinctAnswers(ans) && MarksInRange(qs, ans) && MarksRefer(qs, ans)
    ensures ManualScoreAlwaysBounded(qs, ans) <==>
            forall i :: 0 <= i < |ans| && ans[i].marksEarned.None? ==> FindQuestion(qs, ans[i].questionId).Some?
  {
    if forall i :: 0 <= i < |ans| && ans[i].marksEarned.None? ==> FindQuestion(qs, ans[i].questionId).Some? {
      forall gs | !AnyRejected(qs, gs, ans)
        ensures 0 <= SumMarks(ManuallyGradedAll(gs, ans)) <= TotalMarks(qs)
      {
        ManualGradingInRange(qs, gs, ans);
        SumAtMostTotal(qs, ManuallyGradedAll(gs, ans));
      }
    } else {
      var i :| 0 <= i < |ans| && ans[i].marksEarned.None? && FindQuestion(qs, ans[i].questionId).None?;
      SumAtMostTotal(qs, ans);
      var gs := [ManualGrade(ans[i].questionId, TotalMarks(qs) + 1, None)];
      var graded := ManuallyGradedAll(gs, ans);
      assert FindGrade(gs, ans[i].questionId) == Some(gs[0]);
      assert forall id :: id != ans[i].questionId ==> FindGrade(gs, id).None? by {
        assert gs[1..] == [];
      }
      assert !AnyRejected(qs, gs, ans);
      ManualGradingInRange(qs, gs, ans);
      OneMarkAtMostSum(qs, graded, i);
      assert !(SumMarks(ManuallyGradedAll(gs, ans)) <= TotalMarks(qs));
    }
  }

  lemma {:induction false} OneMarkAtMostSum(qs: seq<Question>, ans: seq<Answer>, i: nat)
    requires MarksInRange(qs, ans) && i < |ans|
    ensures MarksOf(ans[i]) <= SumMarks(ans)
  {
    var init := ans[..|ans| - 1];
    SumNonNegative(qs, init);
    assert AnswerInRange(qs, ans[|ans| - 1]);
    if i < |ans| - 1 {
      OneMarkAtMostSum(qs, init, i);
    }
  }

  // ---------------------------------------------------------------- the quiz grader

  function QuestionMap(qs: seq<Question>): map<Id, Question> {
    if qs == [] then map[]
    else QuestionMap(qs[..|qs| - 1])[qs[|qs| - 1].id := qs[|qs| - 1]]
  }

  function QuizVerdict(q: Question, selected: seq<string>): Option<bool> {
    match q.qtype
    case MultipleChoice | TrueFalse =>
      if |selected| > 0 && |q.correctAnswers| > 0 then Some(selected[0] == q.correctAnswers[0]) else None
    case MultipleAnswer =>
      if |selected| == |q.correctAnswers| then Some(Elements(selected) <= Elements(q.correctAnswers)) else None
    case _ => None
  }

  function QuizGraded(questionMap: map<Id, Question>, a: Answer): Answer {
    if a.questionId !in questionMap then a
    else
      var q := questionMap[a.questionId];
      Award(a, QuizVerdict(q, a.selectedOptions), q.marks)
  }

  function QuizAwarded(questionMap: map<Id, Question>, a: Answer): int {
    if a.questionId !in questionMap then 0
    else
      var q := questionMap[a.questionId];
      if QuizVerdict(q, a.selectedOptions) == Some(true) then q.marks else 0
  }

  function QuizScore(questionMap: map<Id, Question>, ans: seq<Answer>): int {
    if ans == [] then 0
    else QuizScore(questionMap, ans[..|ans| - 1]) + QuizAwarded(questionMap, ans[|ans| - 1])
  }

  predicate QuizNeedsManual(questionMap: map<Id, Question>, a: Answer) {
    a.questionId in questionMap && Manual(questionMap[a.questionId])
  }

  predicate QuizAutoGraded(questionMap: map<Id, Question>, ans: seq<Answer>) {
    forall i :: 0 <= i < |ans| ==> !QuizNeedsManual(questionMap, ans[i])
  }

  /**
    The rule by which quizzes are marked: the first selected option must be the first right one; as many options as
    are right must be selected, all of them right ones; without a selection, or with the wrong number, nothing is
    marked.
   */
  ghost predicate QuizRule(q: Question, a: Answer, graded: Answer, awarded: int, manual: bool) {
    match q.qtype
    case MultipleChoice | TrueFalse =>
      if a.selectedOptions == [] || q.correctAnswers == [] then Unchanged(a, graded, awarded) && !manual
      else
        var right := a.selectedOptions[0] == q.correctAnswers[0];
        Marked(a, graded, right, q.marks) && awarded == (if right then q.marks else 0) && !manual
    case MultipleAnswer =>
      if |a.selectedOptions| != |q.correctAnswers| then Unchanged(a, graded, awarded) && !manual
      else
        var right := forall x :: x in a.selectedOptions ==> x in q.correctAnswers;
        Marked(a, graded, right, q.marks) && awarded == (if right then q.marks else 0) && !manual
    case ShortAnswer | Essay => Unchanged(a, graded, awarded) && manual
    case OtherType(_) => Unchanged(a, graded, awarded) && !manual
  }

  lemma QuizGradedByRule(questionMap: map<Id, Question>, a: Answer)
    ensures if a.questionId in questionMap
            then QuizRule(questionMap[a.questionId], a, QuizGraded(questionMap, a), QuizAwarded(questionMap, a),
                          QuizNeedsManual(questionMap, a))
            else Unchanged(a, QuizGraded(questionMap, a), QuizAwarded(questionMap, a))
                 && !QuizNeedsManual(questionMap, a)
  {
    if a.questionId in questionMap {
      var q := questionMap[a.questionId];
      if Elements(a.selectedOptions) <= Elements(q.correctAnswers) {
        forall x | x in a.selectedOptions ensures x in q.correctAnswers {
          assert x in Elements(a.selectedOptions);
        }
      }
    }
  }

  function QuizGradedAll(questionMap: map<Id, Question>, ans: seq<Answer>): (graded: seq<Answer>)
    ensures |graded| == |ans|
  {
    seq(|ans|, i requires 0 <= i < |ans| => QuizGraded(questionMap, ans[i]))
  }

  /** On answers without marks, the quiz score too is the sum of the marks written to the answers. */
  lemma {:induction false} QuizScoreIsSumOfMarks(questionMap: map<Id, Question>, ans: seq<Answer>)
    requires Unmarked(ans)
    ensures QuizScore(questionMap, ans) == SumMarks(QuizGradedAll(questionMap, ans))
  {
    if ans != [] {
      var init := ans[..|ans| - 1];
      QuizScoreIsSumOfMarks(questionMap, init);
      assert QuizGradedAll(questionMap, ans)[..|ans| - 1] == QuizGradedAll(questionMap, init);
    }
  }

  /** One round of the grading loop of SubmitQuiz. */
  method QuizGradeOne(questionMap: map<Id, Question>, answer: Answer)
    returns (result: Answer, marks: int, manual: bool)
    ensures result == QuizGraded(questionMap, answer)
    ensures marks == QuizAwarded(questionMap, answer)
    ensures manual <==> QuizNeedsManual(questionMap, answer)
    ensures if answer.questionId in questionMap
            then QuizRule(questionMap[answer.questionId], answer, result, marks, manual)
            else Unchanged(answer, result, marks) && !manual
  {
    QuizGradedByRule(questionMap, answer);
    result, marks, manual := answer, 0, false;
    if answer.questionId !in questionMap {
      return;
    }
    var q := questionMap[answer.questionId];
    var correct := false;
    match q.qtype {
      case MultipleChoice | TrueFalse =>
        if |answer.selectedOptions| == 0 || |q.correctAnswers| == 0 {
          return;
        }
        correct := answer.selectedOptions[0] == q.correctAnswers[0];
      case MultipleAnswer =>
        if |answer.selectedOptions| != |q.correctAnswers| {
          return;
        }
        correct := ContainsAll(answer.selectedOptions, q.correctAnswers);
      case ShortAnswer | Essay =>
        manual := true;
        return;
      case OtherType(_) =>
        return;
    }
    if correct {
      marks := q.marks;
    }
    result := answer.(isCorrect := Some(correct), marksEarned := Some(marks));
  }

  /** The grading loop of SubmitQuiz. */
  method QuizAutoGrade(qs: seq<Question>, ans: seq<Answer>)
    returns (graded: seq<Answer>, score: int, isAutoGraded: bool)
    ensures graded == QuizGradedAll(QuestionMap(qs), ans)
    ensures score == QuizScore(QuestionMap(qs), ans)
    ensures isAutoGraded <==> QuizAutoGraded(QuestionMap(qs), ans)
  {
    var questionMap: map<Id, Question> := map[];
    for i := 0 to |qs|
      invariant questionMap == QuestionMap(qs[..i])
    {
      assert qs[..i + 1][..i] == qs[..i];
      questionMap := questionMap[qs[i].id := qs[i]];
    }
    assert qs[..|qs|] == qs;
    graded, score, isAutoGraded := [], 0, true;
    for i := 0 to |ans|
      invariant |graded| == i && forall k :: 0 <= k < i ==> graded[k] == QuizGraded(questionMap, ans[k])
      invariant score == QuizScore(questionMap, ans[..i])
      invariant isAutoGraded <==> forall k :: 0 <= k < i ==> !QuizNeedsManual(questionMap, ans[k])
    {
      assert ans[..i + 1][..i] == ans[..i];
      var result, marks, manual := QuizGradeOne(questionMap, ans[i]);
      score := score + marks;
      if manual {
        isAutoGraded := false;
      }
      graded := graded + [result];
    }
    assert ans[..|ans|] == ans;
  }

  // ---------------------------------------------------------------- the two graders agree

  predicate NoDuplicates(s: seq<string>) {
    forall i, j :: 0 <= i < j < |s| ==> s[i] != s[j]
  }

  /** The pigeonhole principle: a list has as many distinct elements as entries exactly when it repeats none. */
  lemma {:induction false} DistinctCount(s: seq<string>)
    ensures |Elements(s)| <= |s|
    ensures |Elements(s)| == |s| <==> NoDuplicates(s)
  {
    if s == [] {
      assert Elements(s) == {};
    } else {
      var init, last := s[..|s| - 1], s[|s| - 1];
      DistinctCount(init);
      assert s == init + [last];
      assert Elements(s) == Elements(init) + {last};
    }
  }

  /**
    The two MULTIPLE_ANSWER tests disagree exactly on the selections of correct options only that have the right
    length with the wrong number of distinct options, or the other way round.
   */
  lemma MultipleAnswerTestsDisagreeIff(selected: seq<string>, correct: seq<string>)
    ensures (|selected| == |correct| && Elements(selected) <= Elements(correct))
            != (Elements(selected) == Elements(correct))
            <==> Elements(selected) <= Elements(correct)
                 && (|selected| == |correct|) != (|Elements(selected)| == |Elements(correct)|)
  {
    if Elements(selected) <= Elements(correct) {
      SubsetSize(Elements(selected), Elements(correct));
    }
  }

  /** For a key that repeats nothing, those selections repeat an option and have the right length or cover the key. */
  lemma PlainKeyDisagreeIff(selected: seq<string>, correct: seq<string>)
    requires NoDuplicates(correct)
    ensures (|selected| == |correct| && Elements(selected) <= Elements(correct))
            != (Elements(selected) == Elements(correct))
            <==> !NoDuplicates(selected) && Elements(selected) <= Elements(correct)
                 && (|selected| == |correct| || Elements(selected) == Elements(correct))
  {
    MultipleAnswerTestsDisagreeIff(selected, correct);
    DistinctCount(selected);
    DistinctCount(correct);
    if Elements(selected) <= Elements(correct) {
      SubsetSize(Elements(selected), Elements(correct));
    }
  }

  /** The selections only one of the graders rewards, by question type. */
  predicate OnlyOneRewards(q: Question, selected: seq<string>) {
    match q.qtype
    case MultipleChoice | TrueFalse =>
      // the quiz grader looks at the first entries only
      && selected != [] && q.correctAnswers != [] && selected[0] == q.correctAnswers[0]
      && (|selected| > 1 || |q.correctAnswers| > 1)
    case MultipleAnswer =>
      && Elements(selected) <= Elements(q.correctAnswers)
      && (|selected| == |q.correctAnswers|) != (|Elements(selected)| == |Elements(q.correctAnswers)|)
    case _ => false
  }

  /** For every question type, every answer key and every selection. */
  lemma VerdictsDisagreeIff(q: Question, selected: seq<string>)
    ensures (QuizVerdict(q, selected) == Some(true)) != (ExamVerdict(q, selected) == Some(true))
            <==> OnlyOneRewards(q, selected)
  {
    if q.qtype.MultipleAnswer? {
      MultipleAnswerTestsDisagreeIff(selected, q.correctAnswers);
    }
  }

  /** One of the selections they disagree on: the quiz grader accepts an option selected twice. */
  lemma QuizAcceptsRepeatedOption()
    ensures var q := Question(0, MultipleAnswer, ["a", "b"], 1);
            QuizVerdict(q, ["a", "a"]) == Some(true) && ExamVerdict(q, ["a", "a"]) == Some(false)
  {
    assert "b" in Elements(["a", "b"]) && "b" !in Elements(["a", "a"]);
    assert Elements(["a", "a"]) <= Elements(["a", "b"]) by {
      assert ["a", "b"][0] == "a";
    }
  }

  /** What the two graders are given by the user interface: one option per single-choice question, no repeats. */
  predicate WellFormed(q: Question, selected: seq<string>) {
    match q.qtype
    case MultipleChoice | TrueFalse => |selected| == 1 && |q.correctAnswers| == 1
    case MultipleAnswer => NoDuplicates(selected) && NoDuplicates(q.correctAnswers)
    case _ => true
  }

  lemma VerdictsAgree(q: Question, selected: seq<string>)
    requires WellFormed(q, selected)
    ensures !OnlyOneRewards(q, selected)
  {
    DistinctCount(selected);
    DistinctCount(q.correctAnswers);
  }

  /** With distinct ids the map finds what the scan finds. */
  lemma {:induction false} MapFindsWhatScanFinds(qs: seq<Question>, id: Id)
    requires DistinctQuestions(qs)
    ensures id in QuestionMap(qs) <==> FindQuestion(qs, id).Some?
    ensures id in QuestionMap(qs) ==> FindQuestion(qs, id) == Some(QuestionMap(qs)[id])
  {
    if qs != [] {
      var init, last := qs[..|qs| - 1], qs[|qs| - 1];
      MapFindsWhatScanFinds(init, id);
      assert qs == init + [last];
      FindInAppend(init, last, id);
    }
  }

  lemma {:induction false} FindInAppend(init: seq<Question>, last: Question, id: Id)
    ensures FindQuestion(init + [last], id) ==
            if FindQuestion(init, id).Some? then FindQuestion(init, id)
            else if last.id == id then Some(last) else None
  {
    if init == [] {
      assert init + [last] == [last];
    } else {
      FindInAppend(init[1..], last, id);
      assert (init + [last])[1..] == init[1..] + [last];
    }
  }

  /** No answer is one that only one of the graders rewards. */
  predicate RewardedAlike(qs: seq<Question>, ans: seq<Answer>) {
    forall i :: 0 <= i < |ans| ==> AnswerRewardedAlike(qs, ans[i])
  }

  predicate AnswerRewardedAlike(qs: seq<Question>, a: Answer) {
    var q := FindQuestion(qs, a.questionId);
    q.Some? ==> !OnlyOneRewards(q.value, a.selectedOptions)
  }

  /** On such answers the quiz grader and the examination grader give the same score and the same verdict. */
  lemma {:induction false} GradersAgree(qs: seq<Question>, ans: seq<Answer>)
    requires DistinctQuestions(qs) && RewardedAlike(qs, ans)
    ensures QuizScore(QuestionMap(qs), ans) == ExamScore(qs, ans)
    ensures QuizAutoGraded(QuestionMap(qs), ans) <==> !AnyManual(qs, ans)
  {
    if ans != [] {
      GradersAgree(qs, ans[..|ans| - 1]);
      var last := ans[|ans| - 1];
      var q := FindQuestion(qs, last.questionId);
      MapFindsWhatScanFinds(qs, last.questionId);
      assert AnswerRewardedAlike(qs, last);
      if q.Some? {
        VerdictsDisagreeIff(q.value, last.selectedOptions);
      }
    }
    forall i | 0 <= i < |ans| ensures QuizNeedsManual(QuestionMap(qs), ans[i]) <==> NeedsManual(qs, ans[i]) {
      MapFindsWhatScanFinds(qs, ans[i].questionId);
    }
  }

  /** On one answer to a question of positive marks, the scores are equal exactly when it is rewarded alike. */
  lemma OneAnswerScoresAgreeIff(qs: seq<Question>, a: Answer)
    requires DistinctQuestions(qs) && PositiveMarks(qs)
    ensures QuizAwarded(QuestionMap(qs), a) == ExamAwarded(qs, a) <==> AnswerRewardedAlike(qs, a)
  {
    MapFindsWhatScanFinds(qs, a.questionId);
    var q := FindQuestion(qs, a.questionId);
    if q.Some? {
      VerdictsDisagreeIff(q.value, a.selectedOptions);
      var i :| 0 <= i < |qs| && qs[i] == q.value;
    }
  }
}
