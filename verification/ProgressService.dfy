/**
  The progress service in the source's own form: loops over record lists and maps, a sorted slice, and updates of
  the stored records. The list a repository query returns may come in any order.
 */
module ProgressServices {
  import opened Wrappers
  import opened Ranking

  /** The two repository queries. */
  datatype Query = OfClass(classId: Id, termId: Id) | OfStudent(studentId: Id, termId: Id)

  predicate Selects(q: Query, p: Progress) {
    match q
    case OfClass(classId, termId) => p.classId == classId && p.termId == termId
    case OfStudent(studentId, termId) => p.studentId == studentId && p.termId == termId
  }

  predicate Keyed(store: map<Id, Progress>) {
    forall k :: k in store ==> store[k].id == k
  }

  /** `ps` lists the stored records that the query selects, each once, in some order. */
  ghost predicate Lists(ps: seq<Progress>, store: map<Id, Progress>, q: Query) {
    && (forall i, j :: 0 <= i < j < |ps| ==> ps[i].id != ps[j].id)
    && (forall i :: 0 <= i < |ps| ==> ps[i].id in store && store[ps[i].id] == ps[i] && Selects(q, ps[i]))
    && (forall k :: k in store && Selects(q, store[k]) ==> store[k] in ps)
  }

  /** The store after the class's records have received the positions of a ranking of the class. */
  function WithPositions(store: map<Id, Progress>, classId: Id, termId: Id, positions: map<Id, int>)
    : map<Id, Progress>
  {
    map k | k in store ::
      if Selects(OfClass(classId, termId), store[k]) && store[k].studentId in positions
      then store[k].(classPosition := Some(positions[store[k].studentId]))
      else store[k]
  }

  /** `after` is `before` with the positions of one of the possible rankings of the class. */
  ghost predicate Ranked(before: map<Id, Progress>, after: map<Id, Progress>, classId: Id, termId: Id) {
    exists ps, rank ::
      && Lists(ps, before, OfClass(classId, termId))
      && IsRanking(rank, ps)
      && after == WithPositions(before, classId, termId, Positions(rank))
  }

  datatype StudentRank = StudentRank(studentId: Id, average: real)

  predicate DistinctRanks(r: seq<StudentRank>) {
    forall i, j :: 0 <= i < j < |r| ==> r[i].studentId != r[j].studentId
  }

  predicate Descending(r: seq<StudentRank>) {
    forall i, j :: 0 <= i < j < |r| ==> r[i].average >= r[j].average
  }

  /** What sort.Slice promises: the same elements in descending order; nothing about ties. */
  method SortDescending(r: seq<StudentRank>) returns (sorted: seq<StudentRank>)
    requires DistinctRanks(r)
    ensures DistinctRanks(sorted) && Descending(sorted) && forall x :: x in sorted <==> x in r
  {
    sorted := [];
    for i := 0 to |r|
      invariant DistinctRanks(sorted) && Descending(sorted)
      invariant forall x :: x in sorted <==> x in r[..i]
    {
      var k := 0;
      while k < |sorted| && sorted[k].average >= r[i].average
        invariant 0 <= k <= |sorted|
        invariant forall j :: 0 <= j < k ==> sorted[j].average >= r[i].average
      {
        k := k + 1;
      }
      forall j | 0 <= j < |sorted| ensures sorted[j].studentId != r[i].studentId {
        assert sorted[j] in r[..i];
      }
      assert r[..i + 1] == r[..i] + [r[i]];
      sorted := Insert(sorted, k, r[i]);
    }
    assert r[..|r|] == r;
  }

  function Insert(s: seq<StudentRank>, k: nat, x: StudentRank): (s': seq<StudentRank>)
    requires k <= |s| && DistinctRanks(s) && Descending(s)
    requires forall j :: 0 <= j < |s| ==> s[j].studentId != x.studentId
    requires forall j :: 0 <= j < k ==> s[j].average >= x.average
    requires k < |s| ==> s[k].average < x.average
    ensures DistinctRanks(s') && Descending(s')
    ensures forall y :: y in s' <==> y in s || y == x
  {
    s[..k] + [x] + s[k..]
  }

  function CountOr0(counts: map<Id, nat>, s: Id): nat {
    if s in counts then counts[s] else 0
  }

  function SumOr0(sums: map<Id, real>, s: Id): real {
    if s in sums then sums[s] else 0.0
  }

  /** The two maps of ComputeClassPositions after the records `ps`. */
  ghost predicate IsGrouping(sums: map<Id, real>, counts: map<Id, nat>, ps: seq<Progress>) {
    && counts.Keys == Students(ps) && sums.Keys <= counts.Keys
    && (forall s :: CountOr0(counts, s) == CountFor(ps, s))
    && (forall s :: SumOr0(sums, s) == SumFor(ps, s))
  }

  lemma GroupNext(sums: map<Id, real>, counts: map<Id, nat>, ps: seq<Progress>, p: Progress)
    requires IsGrouping(sums, counts, ps)
    ensures var s := p.studentId;
            IsGrouping(if p.grade.Some? then sums[s := SumOr0(sums, s) + p.grade.value.percentage] else sums,
                       counts[s := CountOr0(counts, s) + 1], ps + [p])
  {
    var all, id := ps + [p], p.studentId;
    assert all[..|all| - 1] == ps && all[|all| - 1] == p;
    assert Students(all) == Students(ps) + {id};
    var counts' := counts[id := CountOr0(counts, id) + 1];
    var sums' := if p.grade.Some? then sums[id := SumOr0(sums, id) + p.grade.value.percentage] else sums;
    forall s ensures CountOr0(counts', s) == CountFor(all, s) && SumOr0(sums', s) == SumFor(all, s) {
      assert CountOr0(counts, s) == CountFor(ps, s) && SumOr0(sums, s) == SumFor(ps, s);
    }
  }

  class ProgressService {
    var store: map<Id, Progress>
    var cards: map<(Id, Id), ReportCard>   // by student and term

    method List(q: Query) returns (ps: seq<Progress>)
      requires Keyed(store)
      ensures Lists(ps, store, q)
    {
      ps := [];
      var todo := store.Keys;
      while todo != {}
        invariant todo <= store.Keys
        invariant forall i, j :: 0 <= i < j < |ps| ==> ps[i].id != ps[j].id
        invariant forall i :: 0 <= i < |ps| ==>
                    ps[i].id in store && ps[i].id !in todo && store[ps[i].id] == ps[i] && Selects(q, ps[i])
        invariant forall k :: k in store && k !in todo && Selects(q, store[k]) ==> store[k] in ps
        decreases |todo|
      {
        var k :| k in todo;
        todo := todo - {k};
        if Selects(q, store[k]) {
          ps := ps + [store[k]];
        }
      }
    }

    /** Sums and record counts per student: the first loop of ComputeClassPositions. */
    method GroupByStudent(ps: seq<Progress>) returns (sums: map<Id, real>, counts: map<Id, nat>)
      ensures IsGrouping(sums, counts, ps) && forall s :: s in counts ==> counts[s] > 0
    {
      sums, counts := map[], map[];
      for i := 0 to |ps|
        invariant IsGrouping(sums, counts, ps[..i])
      {
        var p := ps[i];
        GroupNext(sums, counts, ps[..i], p);
        assert ps[..i + 1] == ps[..i] + [p];
        counts := counts[p.studentId := CountOr0(counts, p.studentId) + 1];
        if p.grade.Some? {
          sums := sums[p.studentId := SumOr0(sums, p.studentId) + p.grade.value.percentage];
        }
      }
      assert ps[..|ps|] == ps;
      forall s | s in counts ensures CountFor(ps, s) > 0 {
        StudentsAreCounted(ps, s);
      }
    }

    /** Averages as a list in map-iteration order: the second and third loops of ComputeClassPositions. */
    method AverageByStudent(ps: seq<Progress>) returns (rankings: seq<StudentRank>)
      ensures DistinctRanks(rankings)
      ensures forall x :: x in rankings <==> x.studentId in Students(ps) && x.average == Average(ps, x.studentId)
    {
      var sums, counts := GroupByStudent(ps);
      rankings := [];
      var todo := counts.Keys;
      while todo != {}
        invariant todo <= counts.Keys
        invariant DistinctRanks(rankings)
        invariant forall i :: 0 <= i < |rankings| ==>
                    rankings[i].studentId in counts && rankings[i].studentId !in todo
                    && rankings[i].average == Average(ps, rankings[i].studentId)
        invariant forall s :: s in counts && s !in todo ==> StudentRank(s, Average(ps, s)) in rankings
        decreases |todo|
      {
        var s :| s in todo;
        todo := todo - {s};
        assert CountOr0(counts, s) == counts[s] && SumOr0(sums, s) == SumFor(ps, s);
        var average := SumOr0(sums, s) / counts[s] as real;
        rankings := rankings + [StudentRank(s, average)];
      }
    }

    method ComputeClassPositions(classId: Id, termId: Id)
      requires Keyed(store)
      modifies this`store
      ensures Keyed(store)
      ensures Ranked(old(store), store, classId, termId)
    {
      var ps := List(OfClass(classId, termId));
      var rankings := AverageByStudent(ps);
      rankings := SortDescending(rankings);
      ghost var rank := seq(|rankings|, i requires 0 <= i < |rankings| => rankings[i].studentId);
      var positions: map<Id, int> := map[];
      for i := 0 to |rankings|
        invariant positions == Positions(rank[..i])
      {
        assert rank[..i + 1][..i] == rank[..i];
        positions := positions[rankings[i].studentId := i + 1];
      }
      assert rank[..|rank|] == rank;
      RankIsRanking(ps, rankings, rank);
      UpdatePositions(ps, classId, termId, positions);
    }

    /** The closing loop of ComputeClassPositions. */
    method UpdatePositions(ps: seq<Progress>, classId: Id, termId: Id, positions: map<Id, int>)
      requires Keyed(store) && Lists(ps, store, OfClass(classId, termId))
      modifies this`store
      ensures Keyed(store)
      ensures store == WithPositions(old(store), classId, termId, positions)
    {
      for i := 0 to |ps|
        invariant Keyed(store)
        invariant store.Keys == old(store).Keys
        invariant forall j :: i <= j < |ps| ==> store[ps[j].id] == ps[j]
        invariant forall j :: 0 <= j < i ==> store[ps[j].id] == Positioned(ps[j], positions)
        invariant forall k :: k in store && old(store)[k] !in ps ==> store[k] == old(store)[k]
      {
        if ps[i].studentId in positions {
          store := store[ps[i].id := ps[i].(classPosition := Some(positions[ps[i].studentId]))];
        }
      }
      forall k | k in store
        ensures store[k] == WithPositions(old(store), classId, termId, positions)[k]
      {
        if old(store)[k] in ps {
          var j :| 0 <= j < |ps| && ps[j] == old(store)[k];
        }
      }
    }

    static function Positioned(p: Progress, positions: map<Id, int>): Progress {
      if p.studentId in positions then p.(classPosition := Some(positions[p.studentId])) else p
    }

    static lemma RankIsRanking(ps: seq<Progress>, rankings: seq<StudentRank>, rank: seq<Id>)
      requires DistinctRanks(rankings) && Descending(rankings)
      requires forall x :: x in rankings <==> x.studentId in Students(ps) && x.average == Average(ps, x.studentId)
      requires |rank| == |rankings| && forall i :: 0 <= i < |rank| ==> rank[i] == rankings[i].studentId
      ensures IsRanking(rank, ps)
    {
      forall i | 0 <= i < |rank| ensures rank[i] in Students(ps) && rankings[i].average == Average(ps, rank[i]) {
        assert rankings[i] in rankings;
      }
      forall s | s in Students(ps) ensures s in rank {
        var i :| 0 <= i < |rankings| && rankings[i] == StudentRank(s, Average(ps, s));
        assert rank[i] == s;
      }
    }

    /** The grades of the student's records are recomputed and saved: the first loop of GenerateReportCard. */
    method ComputeGrades(ps: seq<Progress>, w: Weighting)
      requires Keyed(store) && forall i :: 0 <= i < |ps| ==> ps[i].id in store && store[ps[i].id] == ps[i]
      requires forall i, j :: 0 <= i < j < |ps| ==> ps[i].id != ps[j].id
      modifies this`store
      ensures Keyed(store) && store.Keys == old(store).Keys
      ensures forall k :: k in store ==>
                store[k] == if old(store)[k] in ps then WithGrade(old(store)[k], w) else old(store)[k]
    {
      for i := 0 to |ps|
        invariant Keyed(store) && store.Keys == old(store).Keys
        invariant forall j :: i <= j < |ps| ==> store[ps[j].id] == ps[j]
        invariant forall j :: 0 <= j < i ==> store[ps[j].id] == WithGrade(ps[j], w)
        invariant forall k :: k in store && old(store)[k] !in ps ==> store[k] == old(store)[k]
      {
        var p := ComputeGrade(ps[i], w);
        store := store[ps[i].id := p];
      }
      forall k | k in store && old(store)[k] in ps ensures store[k] == WithGrade(old(store)[k], w) {
        var j :| 0 <= j < |ps| && ps[j] == old(store)[k];
      }
    }

    /** The card's position and overall percentage: the closing loops of GenerateReportCard and ComputeOverallGrade. */
    method BuildCard(studentId: Id, classId: Id, ps: seq<Progress>, totalStudents: nat) returns (card: ReportCard)
      requires ps != []
      ensures card.studentId == studentId && card.classId == classId && card.totalStudents == totalStudents
      ensures card.courseProgresses == ps && card.classPosition == CardPosition(ps)
      ensures card.overallPercentage == SumPercentages(ps) / |ps| as real
      ensures card.overallGrade == LetterOf(card.overallPercentage)
    {
      var totalPosition, totalPercentage := 0, 0.0;
      for i := 0 to |ps|
        invariant totalPosition == SumPositions(ps[..i]) && totalPercentage == SumPercentages(ps[..i])
      {
        assert ps[..i + 1][..i] == ps[..i];
        if ps[i].classPosition.Some? {
          totalPosition := totalPosition + ps[i].classPosition.value;
        }
        if ps[i].grade.Some? {
          totalPercentage := totalPercentage + ps[i].grade.value.percentage;
        }
      }
      assert ps[..|ps|] == ps;
      var avgPosition := TruncDiv(totalPosition, |ps|);
      var overall := totalPercentage / |ps| as real;
      card := ReportCard(studentId, classId, ps, overall, LetterOf(overall), avgPosition, totalStudents);
    }

    /**
      GenerateReportCard. Without a record it changes nothing. Otherwise it regrades the student and ranks the class,
      and these stay even when the card is then refused.
     */
    method GenerateReportCard(studentId: Id, termId: Id, w: Weighting) returns (r: Result<ReportCard, string>)
      requires Keyed(store)
      modifies this
      ensures Keyed(store)
      ensures !HasRecord(old(store), studentId, termId) ==> r.Failure? && store == old(store) && cards == old(cards)
      ensures HasRecord(old(store), studentId, termId) ==>
                exists card ::
                  && Reports(old(store), store, studentId, termId, w, card)
                  && if (studentId, termId) !in old(cards) && 1 <= card.classPosition
                        && -999.995 < card.overallPercentage < 999.995
                     then r == Success(card) && cards == old(cards)[(studentId, termId) := card]
                     else r.Failure? && cards == old(cards)
    {
      var progresses := List(OfStudent(studentId, termId));
      if |progresses| == 0 {
        return Failure("no progress records found for student in this term");
      }
      var card := ReportOn(studentId, termId, w, progresses);
      ReportCountsStudent(old(store), store, studentId, termId, w, card);
      if !Insertable(cards, termId, card) {
        return Failure("failed to create report card");
      }
      cards := cards[(studentId, termId) := card];
      return Success(card);
    }

    /** Everything but the insertion of the card. */
    method ReportOn(studentId: Id, termId: Id, w: Weighting, records: seq<Progress>) returns (card: ReportCard)
      requires Keyed(store) && Lists(records, store, OfStudent(studentId, termId)) && records != []
      modifies this`store
      ensures Keyed(store) && card.studentId == studentId
      ensures Reports(old(store), store, studentId, termId, w, card)
    {
      ComputeGrades(records, w);
      var classId := records[0].classId;
      ghost var k := records[0].id;
      assert Selects(OfStudent(studentId, termId), old(store)[k]) && old(store)[k].classId == classId;
      assert store == WithGrades(old(store), studentId, termId, w);
      ComputeClassPositions(classId, termId);
      SameSelection(old(store), store, studentId, termId, w, classId, k);
      var progresses := List(OfStudent(studentId, termId));
      var allClass := List(OfClass(classId, termId));
      var uniqueStudents := set p | p in allClass :: p.studentId;
      card := BuildCard(studentId, classId, progresses, |uniqueStudents|);
      assert IsCard(card, store, studentId, termId, progresses, allClass);
    }
  }

  predicate HasRecord(store: map<Id, Progress>, studentId: Id, termId: Id) {
    exists k :: k in store && Selects(OfStudent(studentId, termId), store[k])
  }

  /** What the database asks of a new card: the first of its student and term, a position, five digits of percentage. */
  predicate Insertable(cards: map<(Id, Id), ReportCard>, termId: Id, card: ReportCard) {
    && (card.studentId, termId) !in cards
    && 1 <= card.classPosition && 1 <= card.totalStudents
    && -999.995 < card.overallPercentage < 999.995
  }

  function WithGrades(store: map<Id, Progress>, studentId: Id, termId: Id, w: Weighting): map<Id, Progress> {
    map k | k in store ::
      if Selects(OfStudent(studentId, termId), store[k]) then WithGrade(store[k], w) else store[k]
  }

  /** Regrading touches the student's own records of the term only, and in them the grade only. */
  lemma RegradesOwnRecords(store: map<Id, Progress>, studentId: Id, termId: Id, w: Weighting, k: Id)
    requires k in store
    ensures WithGrades(store, studentId, termId, w).Keys == store.Keys
    ensures var p := WithGrades(store, studentId, termId, w)[k];
            if store[k].studentId == studentId && store[k].termId == termId
            then p == WithGrade(store[k], w) && p.(grade := store[k].grade) == store[k] else p == store[k]
  {
  }

  /** Ranking touches the class's records of the term only, and in them the position only. */
  lemma RanksOwnClass(before: map<Id, Progress>, after: map<Id, Progress>, classId: Id, termId: Id, k: Id)
    requires Ranked(before, after, classId, termId) && k in before
    ensures after.Keys == before.Keys && after[k].(classPosition := before[k].classPosition) == before[k]
    ensures before[k].classId != classId || before[k].termId != termId ==> after[k] == before[k]
  {
  }

  /** The card is built from the student's list and the class list of the store. */
  ghost predicate IsCard(card: ReportCard, store: map<Id, Progress>, studentId: Id, termId: Id,
                         ps: seq<Progress>, allClass: seq<Progress>)
  {
    && Lists(ps, store, OfStudent(studentId, termId)) && ps != []
    && Lists(allClass, store, OfClass(card.classId, termId))
    && card.studentId == studentId
    && card.courseProgresses == ps
    && card.totalStudents == |Students(allClass)|
    && card.classPosition == CardPosition(ps)
    && card.overallPercentage == SumPercentages(ps) / |ps| as real
    && card.overallGrade == LetterOf(card.overallPercentage)
  }

  /** What GenerateReportCard does: grade the student's records, rank the class, and build the card. */
  ghost predicate Reports(before: map<Id, Progress>, after: map<Id, Progress>, studentId: Id, termId: Id,
                          w: Weighting, card: ReportCard)
  {
    && Ranked(WithGrades(before, studentId, termId, w), after, card.classId, termId)
    && (exists k :: k in before && Selects(OfStudent(studentId, termId), before[k])
                    && before[k].classId == card.classId)
    && exists ps, allClass :: IsCard(card, after, studentId, termId, ps, allClass)
  }

  lemma ReportCountsStudent(before: map<Id, Progress>, after: map<Id, Progress>, studentId: Id, termId: Id,
                            w: Weighting, card: ReportCard)
    requires Reports(before, after, studentId, termId, w, card)
    ensures 1 <= card.totalStudents
  {
    var k :| k in before && Selects(OfStudent(studentId, termId), before[k]) && before[k].classId == card.classId;
    var ps: seq<Progress>, allClass: seq<Progress> :| IsCard(card, after, studentId, termId, ps, allClass);
    assert Selects(OfClass(card.classId, termId), after[k]) && after[k] in allClass;
    assert after[k].studentId in Students(allClass);
  }

  lemma SameSelection(before: map<Id, Progress>, after: map<Id, Progress>, studentId: Id, termId: Id, w: Weighting,
                      classId: Id, k: Id)
    requires Ranked(WithGrades(before, studentId, termId, w), after, classId, termId)
    requires k in before && Selects(OfStudent(studentId, termId), before[k])
    ensures k in after && Selects(OfStudent(studentId, termId), after[k])
  {
  }

  lemma RankedPair(before: map<Id, Progress>, classId: Id, termId: Id, ps: seq<Progress>, rank: seq<Id>, j: Id, k: Id)
    requires Keyed(before) && Lists(ps, before, OfClass(classId, termId)) && IsRanking(rank, ps)
    requires j in before && Selects(OfClass(classId, termId), before[j])
    requires k in before && Selects(OfClass(classId, termId), before[k])
    ensures var after := WithPositions(before, classId, termId, Positions(rank));
            && after[k].classPosition.Some? && 1 <= after[k].classPosition.value <= |Students(ps)|
            && (after[j].studentId == after[k].studentId <==> after[j].classPosition == after[k].classPosition)
  {
    assert before[j] in ps && before[k] in ps;
    PositionsAreRanks(ps, rank, before[k].studentId, before[j].studentId);
  }

  /** Two records of a ranked class have the same position exactly when they are the same student's; all lie in 1..n. */
  lemma RankedStudents(before: map<Id, Progress>, after: map<Id, Progress>, classId: Id, termId: Id,
                       allClass: seq<Progress>, j: Id, k: Id)
    requires Keyed(before) && Keyed(after) && Ranked(before, after, classId, termId)
    requires Lists(allClass, after, OfClass(classId, termId))
    requires j in after && Selects(OfClass(classId, termId), after[j])
    requires k in after && Selects(OfClass(classId, termId), after[k])
    ensures after[k].classPosition.Some? && 1 <= after[k].classPosition.value <= |Students(allClass)|
    ensures after[j].studentId == after[k].studentId <==> after[j].classPosition == after[k].classPosition
  {
    var ps: seq<Progress>, rank: seq<Id> :|
      Lists(ps, before, OfClass(classId, termId)) && IsRanking(rank, ps)
      && after == WithPositions(before, classId, termId, Positions(rank));
    SameStudents(before, after, classId, termId, ps, allClass, Positions(rank));
    RankedPair(before, classId, termId, ps, rank, j, k);
  }

  /**
    On the ranked class: a student whose every percentage exceeds every percentage of a classmate, ungraded records
    counting zero, is stored with the smaller position.
   */
  lemma BetterIsAhead(before: map<Id, Progress>, after: map<Id, Progress>, classId: Id, termId: Id, j: Id, k: Id,
                      mid: real)
    requires Keyed(before) && Ranked(before, after, classId, termId)
    requires j in before && Selects(OfClass(classId, termId), before[j])
    requires k in before && Selects(OfClass(classId, termId), before[k])
    requires forall i :: i in before && Selects(OfClass(classId, termId), before[i]) ==>
               var percentage := if before[i].grade.Some? then before[i].grade.value.percentage else 0.0;
               && (before[i].studentId == before[j].studentId ==> percentage > mid)
               && (before[i].studentId == before[k].studentId ==> percentage <= mid)
    ensures j in after && k in after && after[j].classPosition.Some? && after[k].classPosition.Some?
    ensures after[j].classPosition.value < after[k].classPosition.value
  {
    var ps: seq<Progress>, rank: seq<Id> :|
      Lists(ps, before, OfClass(classId, termId)) && IsRanking(rank, ps)
      && after == WithPositions(before, classId, termId, Positions(rank));
    assert before[j] in ps && before[k] in ps;
    forall p | p in ps
      ensures p.studentId == before[j].studentId ==> Percentage(p) > mid
      ensures p.studentId == before[k].studentId ==> Percentage(p) <= mid
    {
      assert before[p.id] == p;
    }
    BetterEverywhereIsBetter(ps, before[j].studentId, before[k].studentId, mid);
    PositionsAreRanks(ps, rank, before[k].studentId, before[j].studentId);
  }

  lemma SameStudents(before: map<Id, Progress>, after: map<Id, Progress>, classId: Id, termId: Id,
                     ps: seq<Progress>, allClass: seq<Progress>, positions: map<Id, int>)
    requires Keyed(before) && Keyed(after) && after == WithPositions(before, classId, termId, positions)
    requires Lists(ps, before, OfClass(classId, termId)) && Lists(allClass, after, OfClass(classId, termId))
    ensures Students(ps) == Students(allClass)
  {
    forall s ensures s in Students(ps) <==> s in Students(allClass) {
      if s in Students(ps) {
        var p :| p in ps && p.studentId == s;
        assert after[p.id] in allClass;
      }
      if s in Students(allClass) {
        var p :| p in allClass && p.studentId == s;
        assert before[p.id] in ps;
      }
    }
  }

  /** Ranking a class leaves the positions stored in other classes' records alone. */
  lemma OthersKeepPosition(before: map<Id, Progress>, after: map<Id, Progress>, classId: Id, termId: Id,
                           studentId: Id, w: Weighting, k: Id)
    requires Ranked(WithGrades(before, studentId, termId, w), after, classId, termId)
    requires k in after && after[k].classId != classId
    ensures k in before && before[k].classId == after[k].classId && before[k].classPosition == after[k].classPosition
  {
  }

  /**
    The card shows the student's rank exactly when the positions stored in the student's records of other classes,
    as they were before the call, exceed the rank by at least zero and less than the number of records in all.
   */
  lemma CardShowsRankIff(before: map<Id, Progress>, after: map<Id, Progress>, studentId: Id, termId: Id, w: Weighting,
                         card: ReportCard, k: Id)
    requires Keyed(before) && Keyed(after) && Reports(before, after, studentId, termId, w, card)
    requires k in after && Selects(OfStudent(studentId, termId), after[k]) && after[k].classId == card.classId
    ensures after[k].classPosition.Some? && 1 <= after[k].classPosition.value <= card.totalStudents
    ensures var rank, ps := after[k].classPosition.value, card.courseProgresses;
            && Lists(ps, after, OfStudent(studentId, termId))
            && (card.classPosition == rank <==> 0 <= OtherExcess(ps, card.classId, rank) < |ps|)
            && forall i :: 0 <= i < |ps| && ps[i].classId != card.classId ==>
                 ps[i].id in before && ps[i].classPosition == before[ps[i].id].classPosition
  {
    var ps: seq<Progress>, allClass: seq<Progress> :| IsCard(card, after, studentId, termId, ps, allClass);
    var graded := WithGrades(before, studentId, termId, w);
    RankedStudents(graded, after, card.classId, termId, allClass, k, k);
    var rank := after[k].classPosition.value;
    forall i | 0 <= i < |ps| && ps[i].classId == card.classId ensures ps[i].classPosition == Some(rank) {
      assert after[ps[i].id] == ps[i];
      RankedStudents(graded, after, card.classId, termId, allClass, k, ps[i].id);
    }
    forall i | 0 <= i < |ps| && ps[i].classId != card.classId
      ensures ps[i].id in before && ps[i].classPosition == before[ps[i].id].classPosition
    {
      assert after[ps[i].id] == ps[i];
      OthersKeepPosition(before, after, card.classId, termId, studentId, w, ps[i].id);
    }
    ExcessOfOthers(ps, card.classId, rank);
    CardPositionIsRankIff(ps, rank);
  }

  lemma {:induction false} NoOthers(ps: seq<Progress>, classId: Id, rank: int)
    requires forall i :: 0 <= i < |ps| ==> ps[i].classId == classId
    ensures OtherExcess(ps, classId, rank) == 0
  {
    if ps != [] {
      NoOthers(ps[..|ps| - 1], classId, rank);
    }
  }

  /**
    When every record of the student's term is in one class, the card's position is the position every one of those
    records has, hence the student's rank, and lies in 1..TotalStudents.
   */
  lemma CardShowsRank(before: map<Id, Progress>, after: map<Id, Progress>, studentId: Id, termId: Id, w: Weighting,
                      card: ReportCard, k: Id)
    requires Keyed(before) && Keyed(after) && Reports(before, after, studentId, termId, w, card)
    requires forall j :: j in after && Selects(OfStudent(studentId, termId), after[j]) ==>
               after[j].classId == card.classId
    requires k in after && Selects(OfStudent(studentId, termId), after[k])
    ensures after[k].classPosition == Some(card.classPosition)
    ensures 1 <= card.classPosition <= card.totalStudents
  {
    CardShowsRankIff(before, after, studentId, termId, w, card, k);
    var ps := card.courseProgresses;
    forall i | 0 <= i < |ps| ensures ps[i].classId == card.classId {
      assert after[ps[i].id] == ps[i];
    }
    NoOthers(ps, card.classId, after[k].classPosition.value);
    assert after[k] in ps;
  }

  // ---------------------------------------------------------------- which positions a card can show

  function Unplaced(p: Progress): Progress {
    p.(classPosition := None)
  }

  /** The two stores differ in class positions only. */
  predicate SameButPositions(a: map<Id, Progress>, b: map<Id, Progress>) {
    a.Keys == b.Keys && forall k :: k in a ==> Unplaced(a[k]) == Unplaced(b[k])
  }

  predicate DistinctRecords(ps: seq<Progress>) {
    forall i, j :: 0 <= i < j < |ps| ==> ps[i].id != ps[j].id
  }

  /** Every record of `ps` is in `qs`, but for its class position. */
  predicate Covers(qs: seq<Progress>, ps: seq<Progress>) {
    forall i :: 0 <= i < |ps| ==> CoversOne(qs, ps[i])
  }

  predicate CoversOne(qs: seq<Progress>, p: Progress) {
    exists j :: 0 <= j < |qs| && Unplaced(qs[j]) == Unplaced(p)
  }

  function Without(ps: seq<Progress>, k: nat): seq<Progress>
    requires k < |ps|
  {
    ps[..k] + ps[k + 1..]
  }

  lemma SumAppend(ps: seq<Progress>, p: Progress, s: Id)
    ensures CountFor(ps + [p], s) == CountFor(ps, s) + if p.studentId == s then 1 else 0
    ensures SumFor(ps + [p], s) == SumFor(ps, s) + if p.studentId == s then Percentage(p) else 0.0
  {
    assert (ps + [p])[..|ps|] == ps;
  }

  lemma {:induction false} SumWithout(ps: seq<Progress>, k: nat, s: Id)
    requires k < |ps|
    ensures CountFor(ps, s) == CountFor(Without(ps, k), s) + if ps[k].studentId == s then 1 else 0
    ensures SumFor(ps, s) == SumFor(Without(ps, k), s) + if ps[k].studentId == s then Percentage(ps[k]) else 0.0
    decreases |ps|
  {
    var init, last := ps[..|ps| - 1], ps[|ps| - 1];
    assert ps == init + [last];
    SumAppend(init, last, s);
    if k == |ps| - 1 {
      assert Without(ps, k) == init;
    } else {
      SumWithout(init, k, s);
      assert Without(ps, k) == Without(init, k) + [last];
      SumAppend(Without(init, k), last, s);
    }
  }

  lemma DistinctRest(ps: seq<Progress>, k: nat)
    requires DistinctRecords(ps) && k < |ps|
    ensures DistinctRecords(Without(ps, k))
    ensures forall i :: 0 <= i < |Without(ps, k)| ==> Without(ps, k)[i].id != ps[k].id
  {
    var rest := Without(ps, k);
    forall i | 0 <= i < |rest| ensures rest[i] == ps[if i < k then i else i + 1] {
    }
  }

  lemma SameUnplaced(p: Progress, q: Progress)
    requires Unplaced(p) == Unplaced(q)
    ensures p.id == q.id && p.studentId == q.studentId && Percentage(p) == Percentage(q)
  {
    assert Unplaced(p).id == p.id && Unplaced(p).studentId == p.studentId && Unplaced(p).grade == p.grade;
    assert Unplaced(q).id == q.id && Unplaced(q).studentId == q.studentId && Unplaced(q).grade == q.grade;
  }

  /** A record that is covered stays covered when another one is taken away. */
  lemma StillCovered(qs: seq<Progress>, k: nat, p: Progress)
    requires k < |qs| && CoversOne(qs, p) && p.id != qs[k].id
    ensures CoversOne(Without(qs, k), p)
  {
    var j :| 0 <= j < |qs| && Unplaced(qs[j]) == Unplaced(p);
    SameUnplaced(qs[j], p);
    assert Without(qs, k)[if j < k then j else j - 1] == qs[j];
  }

  lemma CoversRest(ps: seq<Progress>, qs: seq<Progress>, i: nat, k: nat)
    requires DistinctRecords(ps) && Covers(qs, ps) && i < |ps| && k < |qs| && ps[i].id == qs[k].id
    ensures Covers(Without(qs, k), Without(ps, i))
  {
    var rest := Without(ps, i);
    DistinctRest(ps, i);
    forall j | 0 <= j < |rest| ensures CoversOne(Without(qs, k), rest[j]) {
      assert CoversOne(qs, ps[if j < i then j else j + 1]);
      StillCovered(qs, k, rest[j]);
    }
  }

  /** The two lists hold the same records, but for the order and for class positions. */
  predicate Alike(ps: seq<Progress>, qs: seq<Progress>) {
    DistinctRecords(ps) && DistinctRecords(qs) && Covers(qs, ps) && Covers(ps, qs)
  }

  /** The first record of one list taken away from both. */
  lemma TakeFirst(ps: seq<Progress>, qs: seq<Progress>, s: Id)
    returns (ps': seq<Progress>, qs': seq<Progress>, n: nat, x: real)
    requires Alike(ps, qs) && ps != []
    ensures Alike(ps', qs') && |ps'| < |ps|
    ensures CountFor(ps, s) == CountFor(ps', s) + n && CountFor(qs, s) == CountFor(qs', s) + n
    ensures SumFor(ps, s) == SumFor(ps', s) + x && SumFor(qs, s) == SumFor(qs', s) + x
  {
    assert CoversOne(qs, ps[0]);
    var k :| 0 <= k < |qs| && Unplaced(qs[k]) == Unplaced(ps[0]);
    SameUnplaced(qs[k], ps[0]);
    ps', qs' := Without(ps, 0), Without(qs, k);
    n, x := if ps[0].studentId == s then 1 else 0, if ps[0].studentId == s then Percentage(ps[0]) else 0.0;
    CoversRest(ps, qs, 0, k);
    CoversRest(qs, ps, k, 0);
    DistinctRest(ps, 0);
    DistinctRest(qs, k);
    SumWithout(ps, 0, s);
    SumWithout(qs, k, s);
  }

  lemma CoverNonEmpty(ps: seq<Progress>, qs: seq<Progress>)
    requires Covers(ps, qs) && qs != []
    ensures ps != []
  {
    assert CoversOne(ps, qs[0]);
  }

  lemma EmptyAlike(ps: seq<Progress>, qs: seq<Progress>)
    requires Alike(ps, qs)
    ensures ps == [] ==> qs == []
  {
    if qs != [] {
      CoverNonEmpty(ps, qs);
    }
  }

  /** Averages do not depend on the order of the list or on the positions stored in it: neither counts ... */
  lemma {:induction false} SameCounts(ps: seq<Progress>, qs: seq<Progress>, s: Id)
    requires Alike(ps, qs)
    ensures CountFor(ps, s) == CountFor(qs, s)
    decreases |ps|
  {
    if ps == [] {
      EmptyAlike(ps, qs);
    } else {
      var ps', qs', _, _ := TakeFirst(ps, qs, s);
      SameCounts(ps', qs', s);
    }
  }

  /** ... nor sums. */
  lemma {:induction false} SameSums(ps: seq<Progress>, qs: seq<Progress>, s: Id)
    requires Alike(ps, qs)
    ensures SumFor(ps, s) == SumFor(qs, s)
    decreases |ps|
  {
    if ps == [] {
      EmptyAlike(ps, qs);
    } else {
      var ps', qs', _, _ := TakeFirst(ps, qs, s);
      SameSums(ps', qs', s);
    }
  }

  lemma SameStudentsCovered(ps: seq<Progress>, qs: seq<Progress>)
    requires Covers(qs, ps)
    ensures Students(ps) <= Students(qs)
  {
    forall s | s in Students(ps) ensures s in Students(qs) {
      var i :| 0 <= i < |ps| && ps[i].studentId == s;
      assert CoversOne(qs, ps[i]);
      var j :| 0 <= j < |qs| && Unplaced(qs[j]) == Unplaced(ps[i]);
      assert qs[j].studentId == Unplaced(qs[j]).studentId;
    }
  }

  lemma SameAverages(ps: seq<Progress>, qs: seq<Progress>, s: Id)
    requires Alike(ps, qs)
    ensures Average(ps, s) == Average(qs, s)
  {
    SameCounts(ps, qs, s);
    SameSums(ps, qs, s);
  }

  lemma SameStandings(ps: seq<Progress>, qs: seq<Progress>, s: Id)
    requires Students(ps) == Students(qs) && forall t :: Average(ps, t) == Average(qs, t)
    ensures Better(ps, s) == Better(qs, s) && AtLeastAsGood(ps, s) == AtLeastAsGood(qs, s)
  {
  }

  lemma ListsCover(ps: seq<Progress>, qs: seq<Progress>, a: map<Id, Progress>, b: map<Id, Progress>, q: Query)
    requires Lists(ps, a, q) && Lists(qs, b, q) && SameButPositions(a, b)
    ensures DistinctRecords(ps) && Covers(qs, ps)
  {
    forall i | 0 <= i < |ps| ensures CoversOne(qs, ps[i]) {
      var k := ps[i].id;
      assert Unplaced(b[k]) == Unplaced(a[k]) == Unplaced(ps[i]);
      assert Selects(q, Unplaced(b[k])) && Selects(q, b[k]);
      assert b[k] in qs;
    }
  }

  /** Two lists of one class, from stores that differ in positions only, rank alike. */
  lemma ListsStandAlike(ps: seq<Progress>, qs: seq<Progress>, a: map<Id, Progress>, b: map<Id, Progress>, q: Query,
                        s: Id)
    requires Lists(ps, a, q) && Lists(qs, b, q) && SameButPositions(a, b)
    ensures Students(ps) == Students(qs)
    ensures Better(ps, s) == Better(qs, s) && AtLeastAsGood(ps, s) == AtLeastAsGood(qs, s)
  {
    ListsCover(ps, qs, a, b, q);
    ListsCover(qs, ps, b, a, q);
    SameStudentsCovered(ps, qs);
    SameStudentsCovered(qs, ps);
    forall t ensures Average(ps, t) == Average(qs, t) {
      SameAverages(ps, qs, t);
    }
    SameStandings(ps, qs, s);
  }

  /** Every query has an answer. */
  lemma {:induction false} SomeList(store: map<Id, Progress>, q: Query, keys: set<Id>) returns (ps: seq<Progress>)
    requires Keyed(store) && keys <= store.Keys
    ensures DistinctRecords(ps)
    ensures forall i :: 0 <= i < |ps| ==> ps[i].id in keys && store[ps[i].id] == ps[i] && Selects(q, ps[i])
    ensures forall k :: k in keys && Selects(q, store[k]) ==> store[k] in ps
  {
    ps := [];
    if k :| k in keys {
      ps := SomeList(store, q, keys - {k});
      if Selects(q, store[k]) {
        ps := ps + [store[k]];
      }
    }
  }

  /** All of the student's records of the term, of which there are some, are of the class. */
  predicate InOneClass(store: map<Id, Progress>, studentId: Id, termId: Id, classId: Id) {
    && HasRecord(store, studentId, termId)
    && forall k :: k in store && Selects(OfStudent(studentId, termId), store[k]) ==> store[k].classId == classId
  }

  lemma RankedOne(graded: map<Id, Progress>, after: map<Id, Progress>, classId: Id, termId: Id, k: Id,
                  ps: seq<Progress>)
    requires Ranked(graded, after, classId, termId) && Lists(ps, graded, OfClass(classId, termId))
    requires k in graded && Selects(OfClass(classId, termId), graded[k])
    ensures k in after && after[k].classPosition.Some?
    ensures |Better(ps, graded[k].studentId)| < after[k].classPosition.value
            <= |AtLeastAsGood(ps, graded[k].studentId)|
  {
    var qs: seq<Progress>, rank: seq<Id> :|
      Lists(qs, graded, OfClass(classId, termId)) && IsRanking(rank, qs)
      && after == WithPositions(graded, classId, termId, Positions(rank));
    assert graded[k] in qs;
    PositionCountsBetter(qs, rank, graded[k].studentId);
    ListsStandAlike(ps, qs, graded, graded, OfClass(classId, termId), graded[k].studentId);
  }

  /** The card's position is one the ranking of the class allows. */
  lemma CardStandsWithin(before: map<Id, Progress>, after: map<Id, Progress>, studentId: Id, termId: Id, w: Weighting,
                         classId: Id, card: ReportCard, ps: seq<Progress>)
    requires Keyed(before) && InOneClass(before, studentId, termId, classId)
    requires Lists(ps, WithGrades(before, studentId, termId, w), OfClass(classId, termId))
    requires Reports(before, after, studentId, termId, w, card)
    ensures card.classId == classId && Keyed(after)
    ensures |Better(ps, studentId)| < card.classPosition <= |AtLeastAsGood(ps, studentId)|
  {
    var graded := WithGrades(before, studentId, termId, w);
    var k :| k in before && Selects(OfStudent(studentId, termId), before[k]) && before[k].classId == card.classId;
    RankingKeepsAlike(graded, after, classId, termId);
    CardShowsRank(before, after, studentId, termId, w, card, k);
    RankedOne(graded, after, classId, termId, k, ps);
  }

  lemma SomeCard(store: map<Id, Progress>, studentId: Id, termId: Id, classId: Id, k: Id) returns (card: ReportCard)
    requires Keyed(store) && k in store && Selects(OfStudent(studentId, termId), store[k])
    ensures card.classId == classId && exists ps, all :: IsCard(card, store, studentId, termId, ps, all)
  {
    var mine := SomeList(store, OfStudent(studentId, termId), store.Keys);
    var all := SomeList(store, OfClass(classId, termId), store.Keys);
    assert store[k] in mine;
    var overall := SumPercentages(mine) / |mine| as real;
    card := ReportCard(studentId, classId, mine, overall, LetterOf(overall), CardPosition(mine), |Students(all)|);
    assert IsCard(card, store, studentId, termId, mine, all);
  }

  lemma ReportFromRanking(before: map<Id, Progress>, studentId: Id, termId: Id, w: Weighting, classId: Id,
                          ps: seq<Progress>, rank: seq<Id>, k: Id)
    returns (after: map<Id, Progress>, card: ReportCard)
    requires Keyed(before) && k in before && Selects(OfStudent(studentId, termId), before[k])
    requires before[k].classId == classId && IsRanking(rank, ps)
    requires Lists(ps, WithGrades(before, studentId, termId, w), OfClass(classId, termId))
    ensures after == WithPositions(WithGrades(before, studentId, termId, w), classId, termId, Positions(rank))
    ensures Keyed(after) && k in after && Reports(before, after, studentId, termId, w, card)
    ensures card.classId == classId && Selects(OfStudent(studentId, termId), after[k])
  {
    var graded := WithGrades(before, studentId, termId, w);
    after := WithPositions(graded, classId, termId, Positions(rank));
    assert Ranked(graded, after, classId, termId);
    card := SomeCard(after, studentId, termId, classId, k);
  }

  lemma StandsAtPosition(rank: seq<Id>, ps: seq<Progress>, s: Id, n: int)
    requires IsRanking(rank, ps) && StandsAt(rank, s, n)
    ensures s in Positions(rank) && Positions(rank)[s] == n
  {
    PositionOf(rank);
  }

  /** From every ranking there is a card. */
  lemma CardFromRanking(before: map<Id, Progress>, studentId: Id, termId: Id, w: Weighting, classId: Id,
                        ps: seq<Progress>, rank: seq<Id>, n: int)
    returns (after: map<Id, Progress>, card: ReportCard)
    requires Keyed(before) && InOneClass(before, studentId, termId, classId)
    requires Lists(ps, WithGrades(before, studentId, termId, w), OfClass(classId, termId))
    requires IsRanking(rank, ps) && StandsAt(rank, studentId, n)
    ensures Reports(before, after, studentId, termId, w, card) && card.classPosition == n
  {
    var k :| k in before && Selects(OfStudent(studentId, termId), before[k]);
    after, card := ReportFromRanking(before, studentId, termId, w, classId, ps, rank, k);
    StandsAtPosition(rank, ps, studentId, n);
    CardShowsRank(before, after, studentId, termId, w, card, k);
  }

  /**
    For a student of one class, the positions that the card can show, over all orders of map iteration and of ties,
    are exactly those of the student's tie in the class as it is graded when the card is made.
   */
  lemma CardPositionIsPossibleIff(before: map<Id, Progress>, studentId: Id, termId: Id, w: Weighting, classId: Id,
                                  ps: seq<Progress>, n: int)
    requires Keyed(before) && InOneClass(before, studentId, termId, classId)
    requires Lists(ps, WithGrades(before, studentId, termId, w), OfClass(classId, termId))
    ensures (exists after, card :: Reports(before, after, studentId, termId, w, card) && card.classPosition == n)
            <==> |Better(ps, studentId)| < n <= |AtLeastAsGood(ps, studentId)|
  {
    if after, card :| Reports(before, after, studentId, termId, w, card) && card.classPosition == n {
      CardStandsWithin(before, after, studentId, termId, w, classId, card, ps);
    }
    if |Better(ps, studentId)| < n <= |AtLeastAsGood(ps, studentId)| {
      IsInClass(before, studentId, termId, w, classId, ps);
      PositionIsPossibleIff(ps, studentId, n);
      var rank :| IsRanking(rank, ps) && StandsAt(rank, studentId, n);
      var after, card := CardFromRanking(before, studentId, termId, w, classId, ps, rank, n);
    }
  }

  lemma IsInClass(before: map<Id, Progress>, studentId: Id, termId: Id, w: Weighting, classId: Id, ps: seq<Progress>)
    requires InOneClass(before, studentId, termId, classId)
    requires Lists(ps, WithGrades(before, studentId, termId, w), OfClass(classId, termId))
    ensures studentId in Students(ps)
  {
    var k :| k in before && Selects(OfStudent(studentId, termId), before[k]);
    assert WithGrades(before, studentId, termId, w)[k] in ps;
  }

  lemma GradingCommutes(p: Progress, q: Progress, w: Weighting)
    requires Unplaced(p) == Unplaced(q)
    ensures Unplaced(WithGrade(p, w)) == Unplaced(WithGrade(q, w))
  {
    assert WithGrade(Unplaced(p), w) == Unplaced(WithGrade(p, w));
    assert WithGrade(Unplaced(q), w) == Unplaced(WithGrade(q, w));
  }

  lemma GradingKeepsAlike(a: map<Id, Progress>, b: map<Id, Progress>, studentId: Id, termId: Id, w: Weighting)
    requires SameButPositions(a, b)
    ensures SameButPositions(WithGrades(a, studentId, termId, w), WithGrades(b, studentId, termId, w))
  {
    forall k | k in a
      ensures Unplaced(WithGrades(a, studentId, termId, w)[k]) == Unplaced(WithGrades(b, studentId, termId, w)[k])
    {
      GradingCommutes(a[k], b[k], w);
      assert Selects(OfStudent(studentId, termId), a[k]) <==> Selects(OfStudent(studentId, termId), Unplaced(a[k]));
      assert Selects(OfStudent(studentId, termId), b[k]) <==> Selects(OfStudent(studentId, termId), Unplaced(b[k]));
    }
  }

  lemma RankingKeepsAlike(before: map<Id, Progress>, after: map<Id, Progress>, classId: Id, termId: Id)
    requires Keyed(before) && Ranked(before, after, classId, termId)
    ensures Keyed(after) && SameButPositions(before, after)
  {
    var ps: seq<Progress>, rank: seq<Id> :| after == WithPositions(before, classId, termId, Positions(rank));
  }

  /** Ranking in between changes nothing but positions, before the second student is graded or after. */
  lemma RankingKeepsTheRest(before: map<Id, Progress>, after: map<Id, Progress>, classId: Id, termId: Id,
                            studentId: Id, w: Weighting)
    requires Keyed(before) && Ranked(before, after, classId, termId)
    ensures Keyed(after) && SameButPositions(WithGrades(before, studentId, termId, w),
                                             WithGrades(after, studentId, termId, w))
  {
    RankingKeepsAlike(before, after, classId, termId);
    GradingKeepsAlike(before, after, studentId, termId, w);
  }

  lemma OneClassStays(before: map<Id, Progress>, after: map<Id, Progress>, s: Id, t: Id, termId: Id, w: Weighting,
                      classId: Id)
    requires InOneClass(before, t, termId, classId)
    requires Ranked(WithGrades(before, s, termId, w), after, classId, termId)
    ensures InOneClass(after, t, termId, classId)
  {
    var k :| k in before && Selects(OfStudent(t, termId), before[k]);
    assert k in after && Selects(OfStudent(t, termId), after[k]);
  }

  /** The second card stands within its student's tie after both have been graded, however the first one was ranked. */
  lemma SecondStandsAlike(before: map<Id, Progress>, between: map<Id, Progress>, s: Id, t: Id, termId: Id, w: Weighting,
                          classId: Id, ps: seq<Progress>)
    returns (qs: seq<Progress>)
    requires Keyed(before) && Ranked(WithGrades(before, s, termId, w), between, classId, termId)
    requires Lists(ps, WithGrades(WithGrades(before, s, termId, w), t, termId, w), OfClass(classId, termId))
    ensures Keyed(between) && Lists(qs, WithGrades(between, t, termId, w), OfClass(classId, termId))
    ensures Better(ps, t) == Better(qs, t) && AtLeastAsGood(ps, t) == AtLeastAsGood(qs, t)
  {
    var graded := WithGrades(before, s, termId, w);
    RankingKeepsTheRest(graded, between, classId, termId, t, w);
    var regraded := WithGrades(between, t, termId, w);
    qs := SomeList(regraded, OfClass(classId, termId), regraded.Keys);
    ListsStandAlike(ps, qs, WithGrades(graded, t, termId, w), regraded, OfClass(classId, termId), t);
  }

  /** The cards of `s` and then of `t`, made one after the other. */
  ghost predicate TwoCards(before: map<Id, Progress>, s: Id, t: Id, termId: Id, w: Weighting, c: ReportCard,
                           d: ReportCard)
  {
    exists between, after :: Reports(before, between, s, termId, w, c) && Reports(between, after, t, termId, w, d)
  }

  /**
    Two cards of one class, made one after the other, can show the same position exactly when the ties overlap: the
    first student's as the class stands before the second is graded, the second student's as it stands after.
   */
  lemma TwoCardsCanAgreeIff(before: map<Id, Progress>, s: Id, t: Id, termId: Id, w: Weighting, classId: Id,
                            ps: seq<Progress>, qs: seq<Progress>)
    requires Keyed(before) && InOneClass(before, s, termId, classId) && InOneClass(before, t, termId, classId)
    requires Lists(ps, WithGrades(before, s, termId, w), OfClass(classId, termId))
    requires Lists(qs, WithGrades(WithGrades(before, s, termId, w), t, termId, w), OfClass(classId, termId))
    ensures (exists c, d :: TwoCards(before, s, t, termId, w, c, d) && c.classPosition == d.classPosition)
            <==> |Better(ps, s)| < |AtLeastAsGood(qs, t)| && |Better(qs, t)| < |AtLeastAsGood(ps, s)|
  {
    if c, d :| TwoCards(before, s, t, termId, w, c, d) && c.classPosition == d.classPosition {
      var between, after :| Reports(before, between, s, termId, w, c) && Reports(between, after, t, termId, w, d);
      CardStandsWithin(before, between, s, termId, w, classId, c, ps);
      OneClassStays(before, between, s, t, termId, w, classId);
      var rs := SecondStandsAlike(before, between, s, t, termId, w, classId, qs);
      CardStandsWithin(between, after, t, termId, w, classId, d, rs);
    }
    if |Better(ps, s)| < |AtLeastAsGood(qs, t)| && |Better(qs, t)| < |AtLeastAsGood(ps, s)| {
      var c, d := CardsThatAgree(before, s, t, termId, w, classId, ps, qs);
    }
  }

  lemma CardsThatAgree(before: map<Id, Progress>, s: Id, t: Id, termId: Id, w: Weighting, classId: Id,
                       ps: seq<Progress>, qs: seq<Progress>)
    returns (c: ReportCard, d: ReportCard)
    requires Keyed(before) && InOneClass(before, s, termId, classId) && InOneClass(before, t, termId, classId)
    requires Lists(ps, WithGrades(before, s, termId, w), OfClass(classId, termId))
    requires Lists(qs, WithGrades(WithGrades(before, s, termId, w), t, termId, w), OfClass(classId, termId))
    requires |Better(ps, s)| < |AtLeastAsGood(qs, t)| && |Better(qs, t)| < |AtLeastAsGood(ps, s)|
    ensures TwoCards(before, s, t, termId, w, c, d) && c.classPosition == d.classPosition
  {
    IsInClass(before, s, termId, w, classId, ps);
    var i := StandsSomewhere(ps, s);
    var n := if |Better(ps, s)| >= |Better(qs, t)| then |Better(ps, s)| + 1 else |Better(qs, t)| + 1;
    CardPositionIsPossibleIff(before, s, termId, w, classId, ps, n);
    var between, first :| Reports(before, between, s, termId, w, first) && first.classPosition == n;
    CardStandsWithin(before, between, s, termId, w, classId, first, ps);
    OneClassStays(before, between, s, t, termId, w, classId);
    var rs := SecondStandsAlike(before, between, s, t, termId, w, classId, qs);
    IsInClass(between, t, termId, w, classId, rs);
    var j := StandsSomewhere(rs, t);
    CardPositionIsPossibleIff(between, t, termId, w, classId, rs, n);
    var after, second :| Reports(between, after, t, termId, w, second) && second.classPosition == n;
    c, d := first, second;
  }

  /** A student's tie is not empty. */
  lemma StandsSomewhere(ps: seq<Progress>, s: Id) returns (n: int)
    requires s in Students(ps)
    ensures |Better(ps, s)| < n <= |AtLeastAsGood(ps, s)|
  {
    var rank := SomeRankingOf(ps, Students(ps));
    assert IsRanking(rank, ps);
    PositionCountsBetter(ps, rank, s);
    n := Positions(rank)[s];
  }

  /** In particular both cards say "first" when each student is alone at the top at the time of the own card. */
  lemma BothCardsSayFirst(before: map<Id, Progress>, between: map<Id, Progress>, after: map<Id, Progress>, s: Id, t: Id,
                          termId: Id, w: Weighting, classId: Id, ps: seq<Progress>, qs: seq<Progress>,
                          c: ReportCard, d: ReportCard)
    requires Keyed(before) && InOneClass(before, s, termId, classId) && InOneClass(before, t, termId, classId)
    requires Lists(ps, WithGrades(before, s, termId, w), OfClass(classId, termId))
    requires Lists(qs, WithGrades(WithGrades(before, s, termId, w), t, termId, w), OfClass(classId, termId))
    requires Reports(before, between, s, termId, w, c) && Reports(between, after, t, termId, w, d)
    requires AtLeastAsGood(ps, s) == {s} && AtLeastAsGood(qs, t) == {t}
    ensures c.classPosition == 1 == d.classPosition
  {
    CardStandsWithin(before, between, s, termId, w, classId, c, ps);
    OneClassStays(before, between, s, t, termId, w, classId);
    var rs := SecondStandsAlike(before, between, s, t, termId, w, classId, qs);
    CardStandsWithin(between, after, t, termId, w, classId, d, rs);
  }
}
