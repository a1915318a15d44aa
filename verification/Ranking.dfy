/**
  Grades, class positions and report cards: internal/domain/progress.go and
  internal/service/progress_service.go:262-322 and 544-659. Percentages and averages are exact rationals.
 */
module Ranking {
  import opened Wrappers
  import opened Counting

  type Id = nat

  datatype Letter = A | B | C | D | E | F

  datatype Grade = Grade(continuousAssessment: int, examination: int, total: int, percentage: real, letter: Letter)

  datatype Progress = Progress(
    id: Id,
    studentId: Id,
    classId: Id,
    termId: Id,
    quizScores: seq<int>,
    assignmentScores: seq<int>,
    examinationScore: Option<int>,
    grade: Option<Grade>,
    classPosition: Option<int>)

  datatype Weighting = Weighting(continuousAssessment: int, examination: int)

  // ---------------------------------------------------------------- one grade

  /** Go's integer division by a positive divisor: towards zero. */
  function TruncDiv(a: int, b: int): int
    requires 0 < b
  {
    if a >= 0 then a / b else -((-a) / b)
  }

  function LetterOf(percentage: real): Letter {
    if percentage >= 80.0 then A
    else if percentage >= 70.0 then B
    else if percentage >= 60.0 then C
    else if percentage >= 50.0 then D
    else if percentage >= 40.0 then E
    else F
  }

  function LetterRank(l: Letter): nat {
    match l
    case A => 5
    case B => 4
    case C => 3
    case D => 2
    case E => 1
    case F => 0
  }

  function Sum(xs: seq<int>): int {
    if xs == [] then 0 else Sum(xs[..|xs| - 1]) + xs[|xs| - 1]
  }

  method SumScores(xs: seq<int>) returns (total: int)
    ensures total == Sum(xs)
  {
    total := 0;
    for i := 0 to |xs|
      invariant total == Sum(xs[..i])
    {
      assert xs[..i + 1][..i] == xs[..i];
      total := total + xs[i];
    }
    assert xs[..|xs|] == xs;
  }

  function WithGrade(p: Progress, w: Weighting): Progress {
    var ca := Sum(p.quizScores) + Sum(p.assignmentScores);
    var exam := if p.examinationScore.Some? then p.examinationScore.value else 0;
    var total := TruncDiv(ca * w.continuousAssessment + exam * w.examination, 100);
    p.(grade := Some(Grade(ca, exam, total, total as real, LetterOf(total as real))))
  }

  method ComputeGrade(p: Progress, w: Weighting) returns (p': Progress)
    ensures p' == WithGrade(p, w)
  {
    var quiz := SumScores(p.quizScores);
    var assignment := SumScores(p.assignmentScores);
    var ca := quiz + assignment;
    var exam := 0;
    if p.examinationScore.Some? {
      exam := p.examinationScore.value;
    }
    var total := TruncDiv(ca * w.continuousAssessment + exam * w.examination, 100);
    var percentage := total as real;
    p' := p.(grade := Some(Grade(ca, exam, total, percentage, LetterOf(percentage))));
  }

  /** With weights that add up to 100, a grade lies between the two scores it weighs, a missing score counting zero. */
  lemma WeightedGradeIsBetween(p: Progress, w: Weighting, lo: int, hi: int)
    requires 0 <= w.continuousAssessment && 0 <= w.examination && w.continuousAssessment + w.examination == 100
    requires lo <= Sum(p.quizScores) + Sum(p.assignmentScores) <= hi
    requires lo <= (if p.examinationScore.Some? then p.examinationScore.value else 0) <= hi
    ensures lo <= WithGrade(p, w).grade.value.total <= hi
  {
    var ca := Sum(p.quizScores) + Sum(p.assignmentScores);
    var exam := if p.examinationScore.Some? then p.examinationScore.value else 0;
    var a, b := w.continuousAssessment, w.examination;
    MulMonotone(lo, ca, a);
    MulMonotone(ca, hi, a);
    MulMonotone(lo, exam, b);
    MulMonotone(exam, hi, b);
    assert lo * a + lo * b == lo * 100 by { Distribute(lo, a, b); }
    assert hi * a + hi * b == hi * 100 by { Distribute(hi, a, b); }
  }

  /** What a grade records: the two scores as they are, and the weighted total, rounded down to a whole percent. */
  lemma GradeRecords(p: Progress, w: Weighting)
    requires 0 <= Sum(p.quizScores) + Sum(p.assignmentScores) && 0 <= w.continuousAssessment && 0 <= w.examination
    requires p.examinationScore.Some? ==> 0 <= p.examinationScore.value
    ensures WithGrade(p, w).grade.Some? && WithGrade(p, w).(grade := p.grade) == p
    ensures var g := WithGrade(p, w).grade.value;
            && g.continuousAssessment == Sum(p.quizScores) + Sum(p.assignmentScores)
            && g.examination == (if p.examinationScore.Some? then p.examinationScore.value else 0)
            && var weighted := g.continuousAssessment * w.continuousAssessment + g.examination * w.examination;
            && 100 * g.total <= weighted < 100 * g.total + 100
            && g.percentage == g.total as real && Percentage(WithGrade(p, w)) == g.total as real
            && g.letter == LetterOf(g.percentage)
  {
    var g := WithGrade(p, w).grade.value;
    MulMonotone(0, g.continuousAssessment, w.continuousAssessment);
    MulMonotone(0, g.examination, w.examination);
  }

  /** With all the weight on one score, the total is that score. */
  lemma OneWeightDecides(p: Progress)
    ensures WithGrade(p, Weighting(100, 0)).grade.value.total == Sum(p.quizScores) + Sum(p.assignmentScores)
    ensures WithGrade(p, Weighting(0, 100)).grade.value.total
            == if p.examinationScore.Some? then p.examinationScore.value else 0
  {
  }

  lemma {:induction false} SumAppend(xs: seq<int>, ys: seq<int>)
    ensures Sum(xs + ys) == Sum(xs) + Sum(ys)
  {
    if ys == [] {
      assert xs + ys == xs;
    } else {
      SumAppend(xs, ys[..|ys| - 1]);
      assert (xs + ys)[..|xs + ys| - 1] == xs + ys[..|ys| - 1];
    }
  }

  lemma SumOfOne(x: int)
    ensures Sum([x]) == x
  {
    assert [x][..0] == [];
  }

  /** Where the letters begin. */
  lemma LetterThresholds(percentage: real)
    ensures LetterOf(percentage) == A <==> 80.0 <= percentage
    ensures LetterOf(percentage) == B <==> 70.0 <= percentage < 80.0
    ensures LetterOf(percentage) == C <==> 60.0 <= percentage < 70.0
    ensures LetterOf(percentage) == D <==> 50.0 <= percentage < 60.0
    ensures LetterOf(percentage) == E <==> 40.0 <= percentage < 50.0
    ensures LetterOf(percentage) == F <==> percentage < 40.0
  {
  }

  lemma Distribute(x: int, a: int, b: int)
    ensures x * a + x * b == x * (a + b)
  {
  }

  // ---------------------------------------------------------------- averages

  function Percentage(p: Progress): real {
    if p.grade.Some? then p.grade.value.percentage else 0.0
  }

  function SumFor(ps: seq<Progress>, s: Id): real {
    if ps == [] then 0.0
    else SumFor(ps[..|ps| - 1], s) + if ps[|ps| - 1].studentId == s then Percentage(ps[|ps| - 1]) else 0.0
  }

  function CountFor(ps: seq<Progress>, s: Id): nat {
    if ps == [] then 0
    else CountFor(ps[..|ps| - 1], s) + if ps[|ps| - 1].studentId == s then 1 else 0
  }

  function Students(ps: seq<Progress>): set<Id> {
    set p | p in ps :: p.studentId
  }

  lemma {:induction false} StudentsAreCounted(ps: seq<Progress>, s: Id)
    ensures s in Students(ps) <==> CountFor(ps, s) > 0
    ensures s !in Students(ps) ==> SumFor(ps, s) == 0.0
  {
    if ps != [] {
      StudentsAreCounted(ps[..|ps| - 1], s);
      assert ps == ps[..|ps| - 1] + [ps[|ps| - 1]];
    }
  }

  /** The student's average over all records, ungraded ones counting zero. */
  function Average(ps: seq<Progress>, s: Id): real {
    if CountFor(ps, s) == 0 then 0.0 else SumFor(ps, s) / CountFor(ps, s) as real
  }

  /** The student's records, in the order of the list. */
  function RecordsOf(ps: seq<Progress>, s: Id): seq<Progress> {
    if ps == [] then []
    else RecordsOf(ps[..|ps| - 1], s) + if ps[|ps| - 1].studentId == s then [ps[|ps| - 1]] else []
  }

  lemma {:induction false} RecordsAreTheStudents(ps: seq<Progress>, s: Id, p: Progress)
    ensures p in RecordsOf(ps, s) <==> p in ps && p.studentId == s
  {
    if ps != [] {
      RecordsAreTheStudents(ps[..|ps| - 1], s, p);
      assert ps == ps[..|ps| - 1] + [ps[|ps| - 1]];
    }
  }

  lemma {:induction false} SumsOverRecords(ps: seq<Progress>, s: Id)
    ensures CountFor(ps, s) == |RecordsOf(ps, s)|
    ensures SumFor(ps, s) == SumPercentages(RecordsOf(ps, s))
  {
    if ps != [] {
      var init, last := ps[..|ps| - 1], ps[|ps| - 1];
      SumsOverRecords(init, s);
      if last.studentId == s {
        assert (RecordsOf(init, s) + [last])[..|RecordsOf(init, s)|] == RecordsOf(init, s);
      } else {
        assert RecordsOf(ps, s) == RecordsOf(init, s);
      }
    }
  }

  lemma TimesCount(average: real, sum: real, n: real)
    requires if n == 0.0 then average == sum == 0.0 else average == sum / n
    ensures average * n == sum
  {
  }

  lemma AverageOfRecords(ps: seq<Progress>, s: Id)
    ensures RecordsOf(ps, s) != [] ==>
              Average(ps, s) == SumPercentages(RecordsOf(ps, s)) / |RecordsOf(ps, s)| as real
    ensures RecordsOf(ps, s) == [] ==> Average(ps, s) == 0.0 == SumPercentages(RecordsOf(ps, s))
  {
    SumsOverRecords(ps, s);
  }

  /** The average times the number of records is the sum of their percentages. */
  lemma AverageTimesCount(ps: seq<Progress>, s: Id, n: real)
    requires n == |RecordsOf(ps, s)| as real
    ensures Average(ps, s) * n == SumPercentages(RecordsOf(ps, s))
  {
    AverageOfRecords(ps, s);
    TimesCount(Average(ps, s), SumPercentages(RecordsOf(ps, s)), n);
  }

  lemma RecordsWithin(ps: seq<Progress>, s: Id, lo: real, hi: real)
    requires forall p :: p in ps && p.studentId == s ==> lo <= Percentage(p) <= hi
    ensures forall i :: 0 <= i < |RecordsOf(ps, s)| ==> lo <= Percentage(RecordsOf(ps, s)[i]) <= hi
  {
    forall i | 0 <= i < |RecordsOf(ps, s)| ensures lo <= Percentage(RecordsOf(ps, s)[i]) <= hi {
      RecordsAreTheStudents(ps, s, RecordsOf(ps, s)[i]);
    }
  }

  lemma HasRecords(ps: seq<Progress>, s: Id)
    requires s in Students(ps)
    ensures RecordsOf(ps, s) != []
  {
    var p :| p in ps && p.studentId == s;
    RecordsAreTheStudents(ps, s, p);
  }

  /** It lies between the student's worst and best percentage, an ungraded record counting zero. */
  lemma AverageIsBetween(ps: seq<Progress>, s: Id, lo: real, hi: real)
    requires s in Students(ps)
    requires forall p :: p in ps && p.studentId == s ==>
               && (p.grade.Some? ==> lo <= p.grade.value.percentage <= hi) && (p.grade.None? ==> lo <= 0.0 <= hi)
    ensures lo <= Average(ps, s) <= hi
  {
    HasRecords(ps, s);
    AverageOfRecords(ps, s);
    RecordsWithin(ps, s, lo, hi);
    OverallIsBetween(RecordsOf(ps, s), lo, hi);
  }

  /** A student whose every percentage exceeds every percentage of another has the better average. */
  lemma BetterEverywhereIsBetter(ps: seq<Progress>, s: Id, t: Id, mid: real)
    requires s in Students(ps) && t in Students(ps)
    requires forall p :: p in ps && p.studentId == s ==> Percentage(p) > mid
    requires forall p :: p in ps && p.studentId == t ==> Percentage(p) <= mid
    ensures Average(ps, s) > Average(ps, t)
  {
    var lo := LeastAbove(ps, s, mid);
    var hi := GreatestOf(ps, s);
    var worst := LeastOf(ps, t);
    AverageIsBetween(ps, s, lo, hi);
    AverageIsBetween(ps, t, worst, mid);
  }

  lemma {:induction false} LeastAbove(ps: seq<Progress>, s: Id, mid: real) returns (lo: real)
    requires forall p :: p in ps && p.studentId == s ==> Percentage(p) > mid
    ensures lo > mid && forall p :: p in ps && p.studentId == s ==> lo <= Percentage(p)
  {
    lo := mid + 1.0;
    if ps != [] {
      var init, last := ps[..|ps| - 1], ps[|ps| - 1];
      assert ps == init + [last];
      lo := LeastAbove(init, s, mid);
      if last.studentId == s && Percentage(last) < lo {
        lo := Percentage(last);
      }
    }
  }

  lemma {:induction false} GreatestOf(ps: seq<Progress>, s: Id) returns (hi: real)
    ensures forall p :: p in ps && p.studentId == s ==> Percentage(p) <= hi
  {
    hi := 0.0;
    if ps != [] {
      var init, last := ps[..|ps| - 1], ps[|ps| - 1];
      assert ps == init + [last];
      hi := GreatestOf(init, s);
      if Percentage(last) > hi {
        hi := Percentage(last);
      }
    }
  }

  lemma {:induction false} LeastOf(ps: seq<Progress>, s: Id) returns (lo: real)
    ensures forall p :: p in ps && p.studentId == s ==> lo <= Percentage(p)
  {
    lo := 0.0;
    if ps != [] {
      var init, last := ps[..|ps| - 1], ps[|ps| - 1];
      assert ps == init + [last];
      lo := LeastOf(init, s);
      if Percentage(last) < lo {
        lo := Percentage(last);
      }
    }
  }

  // ---------------------------------------------------------------- positions

  /** Every student once, higher averages first; the order among ties is left open. */
  ghost predicate IsRanking(rank: seq<Id>, ps: seq<Progress>) {
    && (forall i, j :: 0 <= i < j < |rank| ==> rank[i] != rank[j])
    && (forall s :: s in rank <==> s in Students(ps))
    && (forall i, j :: 0 <= i < j < |rank| ==> Average(ps, rank[i]) >= Average(ps, rank[j]))
  }

  function Positions(rank: seq<Id>): map<Id, int> {
    if rank == [] then map[]
    else Positions(rank[..|rank| - 1])[rank[|rank| - 1] := |rank|]
  }

  lemma {:induction false} PositionOf(rank: seq<Id>)
    requires forall i, j :: 0 <= i < j < |rank| ==> rank[i] != rank[j]
    ensures forall s :: s in Positions(rank) <==> s in rank
    ensures forall i :: 0 <= i < |rank| ==> rank[i] in Positions(rank) && Positions(rank)[rank[i]] == i + 1
  {
    if rank != [] {
      var init := rank[..|rank| - 1];
      PositionOf(init);
      assert rank == init + [rank[|rank| - 1]];
      forall i | 0 <= i < |rank| - 1 ensures Positions(rank)[rank[i]] == i + 1 {
        assert rank[i] == init[i] && rank[i] != rank[|rank| - 1];
      }
    }
  }

  function Better(ps: seq<Progress>, s: Id): set<Id> {
    set t | t in Students(ps) && Average(ps, t) > Average(ps, s)
  }

  function AtLeastAsGood(ps: seq<Progress>, s: Id): set<Id> {
    set t | t in Students(ps) && Average(ps, t) >= Average(ps, s)
  }

  function Prefix(rank: seq<Id>, n: nat): set<Id>
    requires n <= |rank|
  {
    set i | 0 <= i < n :: rank[i]
  }

  lemma {:induction false} PrefixSize(rank: seq<Id>, n: nat)
    requires n <= |rank| && forall i, j :: 0 <= i < j < |rank| ==> rank[i] != rank[j]
    ensures |Prefix(rank, n)| == n
  {
    if n > 0 {
      PrefixSize(rank, n - 1);
      assert Prefix(rank, n) == Prefix(rank, n - 1) + {rank[n - 1]};
    }
  }

  lemma PrefixBetween(ps: seq<Progress>, rank: seq<Id>, i: nat)
    requires IsRanking(rank, ps) && i < |rank|
    ensures Better(ps, rank[i]) <= Prefix(rank, i) && Prefix(rank, i + 1) <= AtLeastAsGood(ps, rank[i])
  {
    forall t | t in Better(ps, rank[i]) ensures t in Prefix(rank, i) {
      var j :| 0 <= j < |rank| && rank[j] == t;
    }
    forall t | t in Prefix(rank, i + 1) ensures t in AtLeastAsGood(ps, rank[i]) {
      var j :| 0 <= j < i + 1 && rank[j] == t;
      assert t in rank;
    }
  }

  lemma IndexBetween(ps: seq<Progress>, rank: seq<Id>, i: nat)
    requires IsRanking(rank, ps) && i < |rank|
    ensures |Better(ps, rank[i])| <= i < |AtLeastAsGood(ps, rank[i])|
  {
    PrefixSize(rank, i);
    PrefixSize(rank, i + 1);
    PrefixBetween(ps, rank, i);
    SubsetSize(Better(ps, rank[i]), Prefix(rank, i));
    SubsetSize(Prefix(rank, i + 1), AtLeastAsGood(ps, rank[i]));
  }

  /** A position is more than the number of better students and at most the number of students at least as good. */
  lemma PositionCountsBetter(ps: seq<Progress>, rank: seq<Id>, s: Id)
    requires IsRanking(rank, ps) && s in Students(ps)
    ensures s in Positions(rank)
    ensures |Better(ps, s)| < Positions(rank)[s] <= |AtLeastAsGood(ps, s)|
  {
    PositionOf(rank);
    var i :| 0 <= i < |rank| && rank[i] == s;
    IndexBetween(ps, rank, i);
  }

  lemma RankingSize(ps: seq<Progress>, rank: seq<Id>)
    requires IsRanking(rank, ps)
    ensures |rank| == |Students(ps)|
  {
    PrefixSize(rank, |rank|);
    assert Prefix(rank, |rank|) == Students(ps);
  }

  /**
    Whatever order map iteration and ties produce, the positions are one-to-one from the students of the class
    into 1..n, and a strictly better average is a strictly smaller position.
   */
  lemma PositionsAreRanks(ps: seq<Progress>, rank: seq<Id>, s: Id, t: Id)
    requires IsRanking(rank, ps) && s in Students(ps) && t in Students(ps)
    ensures s in Positions(rank) && t in Positions(rank)
    ensures 1 <= Positions(rank)[s] <= |Students(ps)|
    ensures s != t ==> Positions(rank)[s] != Positions(rank)[t]
    ensures Average(ps, t) > Average(ps, s) ==> Positions(rank)[t] < Positions(rank)[s]
  {
    PositionOf(rank);
    RankingSize(ps, rank);
    var i :| 0 <= i < |rank| && rank[i] == s;
    var j :| 0 <= j < |rank| && rank[j] == t;
  }

  /** ... and onto 1..n. */
  lemma EveryPositionIsTaken(ps: seq<Progress>, rank: seq<Id>, n: nat)
    requires IsRanking(rank, ps) && 1 <= n <= |Students(ps)|
    ensures exists s :: s in Students(ps) && s in Positions(rank) && Positions(rank)[s] == n
  {
    PositionOf(rank);
    RankingSize(ps, rank);
    assert rank[n - 1] in rank;
  }

  // ---------------------------------------------------------------- ties

  ghost predicate RankedBy(rank: seq<Id>, ps: seq<Progress>, students: set<Id>) {
    && (forall i, j :: 0 <= i < j < |rank| ==> rank[i] != rank[j])
    && (forall s :: s in rank <==> s in students)
    && (forall i, j :: 0 <= i < j < |rank| ==> Average(ps, rank[i]) >= Average(ps, rank[j]))
  }

  lemma {:induction false} InsertRanked(rank: seq<Id>, ps: seq<Progress>, students: set<Id>, s: Id)
    returns (r: seq<Id>)
    requires RankedBy(rank, ps, students) && s !in students
    ensures RankedBy(r, ps, students + {s})
  {
    if rank == [] || Average(ps, rank[0]) <= Average(ps, s) {
      r := [s] + rank;
    } else {
      var head, tail := rank[0], rank[1..];
      assert RankedBy(tail, ps, students - {head}) by {
        forall t | t in students && t != head ensures t in tail {
          var i :| 0 <= i < |rank| && rank[i] == t;
          assert tail[i - 1] == t;
        }
      }
      var rest := InsertRanked(tail, ps, students - {head}, s);
      forall t | t in rest ensures Average(ps, head) >= Average(ps, t) && t != head {
        if t != s {
          var i :| 0 <= i < |rank| && rank[i] == t;
        }
      }
      assert students + {s} == (students - {head} + {s}) + {head};
      r := ConsRanked(head, rest, ps, students - {head} + {s});
    }
  }

  lemma ConsRanked(head: Id, rest: seq<Id>, ps: seq<Progress>, students: set<Id>) returns (r: seq<Id>)
    requires RankedBy(rest, ps, students) && head !in students
    requires forall t :: t in rest ==> Average(ps, head) >= Average(ps, t)
    ensures RankedBy(r, ps, students + {head})
  {
    r := [head] + rest;
  }

  lemma {:induction false} SomeRankingOf(ps: seq<Progress>, students: set<Id>) returns (rank: seq<Id>)
    ensures RankedBy(rank, ps, students)
  {
    rank := [];
    if s :| s in students {
      var rest := SomeRankingOf(ps, students - {s});
      rank := InsertRanked(rest, ps, students - {s}, s);
      assert students == students - {s} + {s};
    }
  }

  lemma SwapTied(ps: seq<Progress>, rank: seq<Id>, i: nat, j: nat)
    requires IsRanking(rank, ps) && i < |rank| && j < |rank| && Average(ps, rank[i]) == Average(ps, rank[j])
    ensures IsRanking(rank[i := rank[j]][j := rank[i]], ps)
  {
    var r := rank[i := rank[j]][j := rank[i]];
    forall s ensures s in r <==> s in rank {
      if s in rank {
        var k :| 0 <= k < |rank| && rank[k] == s;
        assert r[if k == i then j else if k == j then i else k] == s;
      }
    }
    forall k | 0 <= k < |r| ensures Average(ps, r[k]) == Average(ps, rank[k]) {
    }
  }

  /** The student stands at position `n` of the ranking. */
  predicate StandsAt(rank: seq<Id>, s: Id, n: int) {
    1 <= n <= |rank| && rank[n - 1] == s
  }

  /** Between the better and the strictly worse students everybody has the same average. */
  lemma TiedAt(ps: seq<Progress>, rank: seq<Id>, s: Id, j: nat)
    requires IsRanking(rank, ps) && s in Students(ps) && |Better(ps, s)| <= j < |AtLeastAsGood(ps, s)|
    ensures j < |rank| && Average(ps, rank[j]) == Average(ps, s)
  {
    RankingSize(ps, rank);
    SubsetSize(AtLeastAsGood(ps, s), Students(ps));
    if Average(ps, rank[j]) > Average(ps, s) {
      PrefixSize(rank, j + 1);
      AllBetter(ps, rank, s, j);
      SubsetSize(Prefix(rank, j + 1), Better(ps, s));
    } else if Average(ps, rank[j]) < Average(ps, s) {
      PrefixSize(rank, j);
      AllAhead(ps, rank, s, j);
      SubsetSize(AtLeastAsGood(ps, s), Prefix(rank, j));
    }
  }

  lemma AllBetter(ps: seq<Progress>, rank: seq<Id>, s: Id, j: nat)
    requires IsRanking(rank, ps) && j < |rank| && Average(ps, rank[j]) > Average(ps, s)
    ensures Prefix(rank, j + 1) <= Better(ps, s)
  {
    forall t | t in Prefix(rank, j + 1) ensures t in Better(ps, s) {
      var i :| 0 <= i < j + 1 && rank[i] == t;
      assert t in rank;
    }
  }

  lemma AllAhead(ps: seq<Progress>, rank: seq<Id>, s: Id, j: nat)
    requires IsRanking(rank, ps) && j < |rank| && Average(ps, rank[j]) < Average(ps, s)
    ensures AtLeastAsGood(ps, s) <= Prefix(rank, j)
  {
    forall t | t in AtLeastAsGood(ps, s) ensures t in Prefix(rank, j) {
      var i :| 0 <= i < |rank| && rank[i] == t;
    }
  }

  /** The positions a student can get, over all orders of map iteration and of ties, are exactly those of the tie. */
  lemma PositionIsPossibleIff(ps: seq<Progress>, s: Id, n: int)
    requires s in Students(ps)
    ensures (exists rank :: IsRanking(rank, ps) && StandsAt(rank, s, n))
            <==> |Better(ps, s)| < n <= |AtLeastAsGood(ps, s)|
  {
    if rank :| IsRanking(rank, ps) && StandsAt(rank, s, n) {
      IndexBetween(ps, rank, n - 1);
    }
    if |Better(ps, s)| < n <= |AtLeastAsGood(ps, s)| {
      var rank := SomeRankingOf(ps, Students(ps));
      assert IsRanking(rank, ps);
      TiedAt(ps, rank, s, n - 1);
      var i :| 0 <= i < |rank| && rank[i] == s;
      SwapTied(ps, rank, i, n - 1);
      assert StandsAt(rank[i := rank[n - 1]][n - 1 := rank[i]], s, n);
    }
  }

  // ---------------------------------------------------------------- report cards

  datatype ReportCard = ReportCard(
    studentId: Id,
    classId: Id,
    courseProgresses: seq<Progress>,
    overallPercentage: real,
    overallGrade: Letter,
    classPosition: int,
    totalStudents: nat)

  function PositionOr0(p: Progress): int {
    if p.classPosition.Some? then p.classPosition.value else 0
  }

  function SumPositions(ps: seq<Progress>): int {
    if ps == [] then 0 else SumPositions(ps[..|ps| - 1]) + PositionOr0(ps[|ps| - 1])
  }

  /** The card's position: the integer average over the student's records, a missing position counting zero. */
  function CardPosition(ps: seq<Progress>): int {
    if ps == [] then 1 else TruncDiv(SumPositions(ps), |ps|)
  }

  /** By how much the positions exceed `rank`, summed over the records. */
  function Excess(ps: seq<Progress>, rank: int): int {
    if ps == [] then 0 else Excess(ps[..|ps| - 1], rank) + PositionOr0(ps[|ps| - 1]) - rank
  }

  /** The same over the records of other classes only. */
  function OtherExcess(ps: seq<Progress>, classId: Id, rank: int): int {
    if ps == [] then 0
    else OtherExcess(ps[..|ps| - 1], classId, rank)
         + if ps[|ps| - 1].classId == classId then 0 else PositionOr0(ps[|ps| - 1]) - rank
  }

  lemma {:induction false} SumIsRanksAndExcess(ps: seq<Progress>, rank: int)
    ensures SumPositions(ps) == |ps| * rank + Excess(ps, rank)
  {
    if ps != [] {
      SumIsRanksAndExcess(ps[..|ps| - 1], rank);
      assert |ps| * rank == (|ps| - 1) * rank + rank;
    }
  }

  lemma {:induction false} ExcessOfOthers(ps: seq<Progress>, classId: Id, rank: int)
    requires forall i :: 0 <= i < |ps| && ps[i].classId == classId ==> ps[i].classPosition == Some(rank)
    ensures Excess(ps, rank) == OtherExcess(ps, classId, rank)
  {
    if ps != [] {
      ExcessOfOthers(ps[..|ps| - 1], classId, rank);
    }
  }

  lemma QuotientIs(e: int, n: nat, rank: nat)
    requires 1 <= n && 1 <= rank
    ensures TruncDiv(n * rank + e, n) == rank <==> 0 <= e < n
  {
    var s := n * rank + e;
    if s >= 0 {
      var q := s / n;
      assert s == n * q + s % n;
      if q < rank {
        MulMonotone(q + 1, rank, n);
      } else if q > rank {
        MulMonotone(rank + 1, q, n);
      }
    } else {
      MulMonotone(0, rank, n);
      MulMonotone(0, -s / n, n);
    }
  }

  /**
    The card's position is `rank` exactly when the excess of the stored positions over it is not negative and
    smaller than the number of records.
   */
  lemma CardPositionIsRankIff(ps: seq<Progress>, rank: nat)
    requires ps != [] && 1 <= rank
    ensures CardPosition(ps) == rank <==> 0 <= Excess(ps, rank) < |ps|
  {
    SumIsRanksAndExcess(ps, rank);
    QuotientIs(Excess(ps, rank), |ps|, rank);
  }

  lemma {:induction false} UnrankedOthers(ps: seq<Progress>, classId: Id, rank: nat)
    requires 1 <= rank && forall i :: 0 <= i < |ps| && ps[i].classId != classId ==> ps[i].classPosition == None
    ensures OtherExcess(ps, classId, rank) <= 0
    ensures OtherExcess(ps, classId, rank) == 0 <==> forall i :: 0 <= i < |ps| ==> ps[i].classId == classId
  {
    if ps != [] {
      UnrankedOthers(ps[..|ps| - 1], classId, rank);
    }
  }

  /** While no other class has been ranked, that means: all the records are of the ranked class. */
  lemma UnrankedCardPositionIsRankIff(ps: seq<Progress>, classId: Id, rank: nat)
    requires ps != [] && 1 <= rank
    requires forall i :: 0 <= i < |ps| ==>
               ps[i].classPosition == if ps[i].classId == classId then Some(rank) else None
    ensures CardPosition(ps) == rank <==> forall i :: 0 <= i < |ps| ==> ps[i].classId == classId
  {
    CardPositionIsRankIff(ps, rank);
    ExcessOfOthers(ps, classId, rank);
    UnrankedOthers(ps, classId, rank);
  }

  /** Another class's position can leave the rank standing, or pull the card above or below it. */
  lemma OtherClassMovesTheCard(p: Progress, q: Progress)
    requires p.classPosition == Some(1) && p.classId != q.classId
    ensures q.classPosition == Some(1) ==> CardPosition([p, q]) == 1
    ensures q.classPosition == Some(9) ==> CardPosition([p, q]) == 5
    ensures q.classPosition == None ==> CardPosition([p, q]) == 0
  {
    assert [p, q][..1] == [p] && [p][..0] == [];
    assert SumPositions([]) == 0 && SumPositions([p]) == 1;
  }

  function SumPercentages(ps: seq<Progress>): real {
    if ps == [] then 0.0 else SumPercentages(ps[..|ps| - 1]) + Percentage(ps[|ps| - 1])
  }

  lemma {:induction false} SumPercentagesBetween(ps: seq<Progress>, lo: real, hi: real)
    requires forall i :: 0 <= i < |ps| ==> lo <= Percentage(ps[i]) <= hi
    ensures lo * |ps| as real <= SumPercentages(ps) <= hi * |ps| as real
  {
    if ps != [] {
      SumPercentagesBetween(ps[..|ps| - 1], lo, hi);
    }
  }

  lemma LetterMonotone(p: real, q: real)
    requires p <= q
    ensures LetterRank(LetterOf(p)) <= LetterRank(LetterOf(q))
  {
  }

  /** The overall percentage lies between the worst and the best course, and so does the overall letter. */
  lemma OverallIsBetween(ps: seq<Progress>, lo: real, hi: real)
    requires ps != [] && forall i :: 0 <= i < |ps| ==> lo <= Percentage(ps[i]) <= hi
    ensures var overall := SumPercentages(ps) / |ps| as real;
            && lo <= overall <= hi
            && LetterRank(LetterOf(lo)) <= LetterRank(LetterOf(overall)) <= LetterRank(LetterOf(hi))
  {
    SumPercentagesBetween(ps, lo, hi);
    var n, total := |ps| as real, SumPercentages(ps);
    DivBetween(lo, hi, total, n);
    LetterMonotone(lo, total / n);
    LetterMonotone(total / n, hi);
  }

  lemma RealMulStrict(a: real, b: real, n: real)
    requires a < b && 0.0 < n
    ensures a * n < b * n
  {
    assert (b - a) * n > 0.0;
  }

  lemma DivBetween(lo: real, hi: real, total: real, n: real)
    requires 0.0 < n && lo * n <= total <= hi * n
    ensures lo <= total / n <= hi
  {
    var q := total / n;
    assert q * n == total;
    if q < lo {
      RealMulStrict(q, lo, n);
    }
    if q > hi {
      RealMulStrict(hi, q, n);
    }
  }
}
