/**
  Academic sessions and their terms: internal/service/term_service.go, internal/service/session_service.go and
  internal/domain/term.go. Times are seconds since 1970 in UTC; a service call is one atomic step.

  `Repositories` says what the repositories do with what the services hand them. Every invariant holds for every
  kind of repository.
 */
module Calendar {
  import opened Wrappers

  type Id = nat

  datatype Ordinal = First | Second | Third

  datatype TermStatus = Draft | Active | Completed

  datatype Term = Term(
    sessionId: Id,
    ordinal: Ordinal,
    startDate: int,
    endDate: int,
    status: TermStatus,
    holidays: seq<int>,
    nonInstructionalDays: seq<int>)

  datatype SessionStatus = SessionDraft | SessionActive | SessionArchived

  datatype Session = Session(tenantId: Id, startYear: int, endYear: int, status: SessionStatus)

  datatype State = State(sessions: map<Id, Session>, terms: map<Id, Term>)

  datatype Error =
    | NotFound | BadYears | BadDates | OrdinalTaken | Overlap | SessionFull | Locked | AnotherActive
    | NotActive | SessionInUse | NeedsTransaction

  datatype TermRequest = TermRequest(ordinal: Ordinal, startDate: int, endDate: int, holidays: seq<int>,
                                     nonInstructionalDays: seq<int>)

  datatype TermPatch = TermPatch(startDate: Option<int>, endDate: Option<int>, holidays: Option<seq<int>>,
                                 nonInstructionalDays: Option<seq<int>>)

  /**
    Whether the repositories' Update writes the status column, and whether the term repository's Create accepts a
    call without a transaction, which is the only kind the service makes. The services rely on both.
   */
  datatype Repositories = Repositories(savesStatus: bool, createsWithoutTx: bool)

  /** The repositories as they are committed do neither. */
  const COMMITTED := Repositories(false, false)

  // ---------------------------------------------------------------- the steps

  predicate DatesOverlap(start1: int, end1: int, start2: int, end2: int) {
    start1 < end2 && end1 > start2
  }

  predicate Overlapping(a: Term, b: Term) {
    DatesOverlap(a.startDate, a.endDate, b.startDate, b.endDate)
  }

  function TermsOf(s: State, sessionId: Id): set<Id> {
    set k | k in s.terms && s.terms[k].sessionId == sessionId
  }

  function NewTerm(sessionId: Id, r: TermRequest): Term {
    Term(sessionId, r.ordinal, r.startDate, r.endDate, Draft, r.holidays, r.nonInstructionalDays)
  }

  function TermCreated(s: State, sessionId: Id, id: Id, r: TermRequest, repos: Repositories): Result<State, Error> {
    var t := NewTerm(sessionId, r);
    if sessionId !in s.sessions then Failure(NotFound)
    else if r.endDate <= r.startDate then Failure(BadDates)
    else if exists k :: k in TermsOf(s, sessionId) && s.terms[k].ordinal == r.ordinal then Failure(OrdinalTaken)
    else if exists k :: k in TermsOf(s, sessionId) && Overlapping(t, s.terms[k]) then Failure(Overlap)
    else if |TermsOf(s, sessionId)| >= 3 then Failure(SessionFull)
    else if !repos.createsWithoutTx then Failure(NeedsTransaction)
    else Success(s.(terms := s.terms[id := t]))
  }

  function PatchedTerm(t: Term, p: TermPatch): Term {
    t.(startDate := Or(p.startDate, t.startDate), endDate := Or(p.endDate, t.endDate),
       holidays := Or(p.holidays, t.holidays),
       nonInstructionalDays := Or(p.nonInstructionalDays, t.nonInstructionalDays))
  }

  function TermUpdated(s: State, id: Id, p: TermPatch): Result<State, Error> {
    if id !in s.terms then Failure(NotFound)
    else if !s.terms[id].status.Draft? then Failure(Locked)
    else
      var t := PatchedTerm(s.terms[id], p);
      if t.endDate <= t.startDate then Failure(BadDates)
      else if exists k :: k in TermsOf(s, t.sessionId) && k != id && Overlapping(t, s.terms[k]) then Failure(Overlap)
      else Success(s.(terms := s.terms[id := t]))
  }

  function TermDeleted(s: State, id: Id): Result<State, Error> {
    if id !in s.terms then Failure(NotFound)
    else if !s.terms[id].status.Draft? then Failure(Locked)
    else Success(s.(terms := s.terms - {id}))
  }

  /** Writing a status through the repository. */
  function PutTermStatus(s: State, id: Id, status: TermStatus, repos: Repositories): State
    requires id in s.terms
  {
    if repos.savesStatus then s.(terms := s.terms[id := s.terms[id].(status := status)]) else s
  }

  function PutSessionStatus(s: State, id: Id, status: SessionStatus, repos: Repositories): State
    requires id in s.sessions
  {
    if repos.savesStatus then s.(sessions := s.sessions[id := s.sessions[id].(status := status)]) else s
  }

  /** A term of any status can be activated, a completed one included. */
  function TermActivated(s: State, id: Id, repos: Repositories): Result<State, Error> {
    if id !in s.terms then Failure(NotFound)
    else if exists k :: k in TermsOf(s, s.terms[id].sessionId) && k != id && s.terms[k].status.Active?
      then Failure(AnotherActive)
    else Success(PutTermStatus(s, id, Active, repos))
  }

  function TermCompleted(s: State, id: Id, repos: Repositories): Result<State, Error> {
    if id !in s.terms then Failure(NotFound)
    else if !s.terms[id].status.Active? then Failure(NotActive)
    else Success(PutTermStatus(s, id, Completed, repos))
  }

  function SessionCreated(s: State, id: Id, tenantId: Id, startYear: int, endYear: int): Result<State, Error> {
    if endYear <= startYear then Failure(BadYears)
    else Success(s.(sessions := s.sessions[id := Session(tenantId, startYear, endYear, SessionDraft)]))
  }

  predicate IsActiveSession(s: State, k: Id, tenantId: Id) {
    k in s.sessions && s.sessions[k].tenantId == tenantId && s.sessions[k].status.SessionActive?
  }

  predicate IsActiveTerm(s: State, k: Id, sessionId: Id) {
    k in s.terms && s.terms[k].sessionId == sessionId && s.terms[k].status.Active?
  }

  /** Archives the tenant's active session, whichever the database returns, and activates the given one. */
  ghost function SessionActivated(s: State, id: Id, repos: Repositories): Result<State, Error> {
    if id !in s.sessions then Failure(NotFound)
    else if k :| IsActiveSession(s, k, s.sessions[id].tenantId) then
      var s' := if k != id then PutSessionStatus(s, k, SessionArchived, repos) else s;
      Success(PutSessionStatus(s', id, SessionActive, repos))
    else Success(PutSessionStatus(s, id, SessionActive, repos))
  }

  function SessionArchivedStep(s: State, id: Id, repos: Repositories): Result<State, Error> {
    if id !in s.sessions then Failure(NotFound)
    else Success(PutSessionStatus(s, id, SessionArchived, repos))
  }

  /** Deleting a session cascades to its terms. */
  function SessionDeleted(s: State, id: Id): Result<State, Error> {
    if id !in s.sessions then Failure(NotFound)
    else if s.sessions[id].status.SessionActive? then Failure(SessionInUse)
    else Success(State(s.sessions - {id}, map k | k in s.terms && s.terms[k].sessionId != id :: s.terms[k]))
  }

  // ---------------------------------------------------------------- runs

  datatype Event =
    | CreateSession(id: Id, tenantId: Id, startYear: int, endYear: int)
    | ActivateSession(id: Id)
    | ArchiveSession(id: Id)
    | DeleteSession(id: Id)
    | CreateTerm(sessionId: Id, id: Id, request: TermRequest)
    | UpdateTerm(id: Id, patch: TermPatch)
    | DeleteTerm(id: Id)
    | ActivateTerm(id: Id)
    | CompleteTerm(id: Id)

  /** uuid.New never returns an id that is in use. */
  predicate Fresh(s: State, ev: Event) {
    match ev
    case CreateSession(id, _, _, _) => id !in s.sessions
    case CreateTerm(_, id, _) => id !in s.terms
    case _ => true
  }

  ghost function Attempt(s: State, ev: Event, repos: Repositories): Result<State, Error> {
    match ev
    case CreateSession(id, tenantId, startYear, endYear) => SessionCreated(s, id, tenantId, startYear, endYear)
    case ActivateSession(id) => SessionActivated(s, id, repos)
    case ArchiveSession(id) => SessionArchivedStep(s, id, repos)
    case DeleteSession(id) => SessionDeleted(s, id)
    case CreateTerm(sessionId, id, r) => TermCreated(s, sessionId, id, r, repos)
    case UpdateTerm(id, p) => TermUpdated(s, id, p)
    case DeleteTerm(id) => TermDeleted(s, id)
    case ActivateTerm(id) => TermActivated(s, id, repos)
    case CompleteTerm(id) => TermCompleted(s, id, repos)
  }

  ghost function Apply(s: State, ev: Event, repos: Repositories): State {
    var r := Attempt(s, ev, repos);
    if r.Success? then r.value else s
  }

  ghost predicate Run(s: State, evs: seq<Event>, repos: Repositories)
    decreases evs
  {
    evs != [] ==> Fresh(s, evs[0]) && Run(Apply(s, evs[0], repos), evs[1..], repos)
  }

  ghost function Final(s: State, evs: seq<Event>, repos: Repositories): State
    decreases evs
  {
    if evs == [] then s else Final(Apply(s, evs[0], repos), evs[1..], repos)
  }

  const EMPTY := State(map[], map[])

  // ---------------------------------------------------------------- the invariant

  /** Two different terms of one session. */
  predicate Compatible(a: Term, b: Term) {
    && a.ordinal != b.ordinal
    && (a.endDate <= b.startDate || b.endDate <= a.startDate)
    && !(a.status.Active? && b.status.Active?)
  }

  predicate TermsOk(s: State) {
    && (forall k :: k in s.terms ==>
          s.terms[k].sessionId in s.sessions && s.terms[k].startDate < s.terms[k].endDate)
    && (forall i, j :: i in s.terms && j in s.terms && i != j && s.terms[i].sessionId == s.terms[j].sessionId ==>
          Compatible(s.terms[i], s.terms[j]))
  }

  predicate SessionsOk(s: State) {
    && (forall k :: k in s.sessions ==> s.sessions[k].startYear < s.sessions[k].endYear)
    && (forall i, j ::
          i in s.sessions && j in s.sessions && i != j && s.sessions[i].tenantId == s.sessions[j].tenantId ==>
          !(s.sessions[i].status.SessionActive? && s.sessions[j].status.SessionActive?))
  }

  predicate Inv(s: State) {
    TermsOk(s) && SessionsOk(s)
  }

  lemma PutTerm(s: State, id: Id, t: Term)
    requires Inv(s) && t.sessionId in s.sessions && t.startDate < t.endDate
    requires forall k :: k in TermsOf(s, t.sessionId) && k != id ==> Compatible(t, s.terms[k])
    ensures Inv(s.(terms := s.terms[id := t]))
  {
    forall k | k in s.terms && k != id && s.terms[k].sessionId == t.sessionId
      ensures Compatible(t, s.terms[k])
    {
      assert k in TermsOf(s, t.sessionId);
    }
  }

  lemma TermStepsKeepInv(s: State, ev: Event, repos: Repositories)
    requires Inv(s) && Fresh(s, ev)
    requires ev.CreateTerm? || ev.UpdateTerm? || ev.DeleteTerm? || ev.ActivateTerm? || ev.CompleteTerm?
    ensures Inv(Apply(s, ev, repos))
  {
    if Attempt(s, ev, repos).Success? {
      match ev
      case CreateTerm(sessionId, id, r) => PutTerm(s, id, NewTerm(sessionId, r));
      case UpdateTerm(id, p) => PutTerm(s, id, PatchedTerm(s.terms[id], p));
      case DeleteTerm(id) =>
      case ActivateTerm(id) => PutTerm(s, id, s.terms[id].(status := Active));
      case CompleteTerm(id) => PutTerm(s, id, s.terms[id].(status := Completed));
    }
  }

  lemma PutSession(s: State, id: Id, status: SessionStatus, repos: Repositories)
    requires Inv(s) && id in s.sessions
    requires status.SessionActive? ==>
               forall k :: IsActiveSession(s, k, s.sessions[id].tenantId) ==> k == id
    ensures Inv(PutSessionStatus(s, id, status, repos))
  {
    forall k | k in s.sessions && k != id && s.sessions[k].tenantId == s.sessions[id].tenantId
               && s.sessions[k].status.SessionActive?
      ensures !status.SessionActive?
    {
      assert IsActiveSession(s, k, s.sessions[id].tenantId);
    }
  }

  lemma ActivateSessionKeepsInv(s: State, id: Id, repos: Repositories)
    requires Inv(s) && id in s.sessions
    ensures Inv(SessionActivated(s, id, repos).value)
  {
    var tenant := s.sessions[id].tenantId;
    if k :| IsActiveSession(s, k, tenant) {
      assert forall j :: IsActiveSession(s, j, tenant) ==> j == k;
      if k != id {
        PutSession(s, k, SessionArchived, repos);
        var s' := PutSessionStatus(s, k, SessionArchived, repos);
        if repos.savesStatus {
          assert forall j :: !IsActiveSession(s', j, tenant);
          PutSession(s', id, SessionActive, repos);
        }
      } else {
        PutSession(s, id, SessionActive, repos);
      }
    } else {
      PutSession(s, id, SessionActive, repos);
    }
  }

  lemma ApplyKeepsInv(s: State, ev: Event, repos: Repositories)
    requires Inv(s) && Fresh(s, ev)
    ensures Inv(Apply(s, ev, repos))
  {
    match ev {
      case CreateSession(_, _, _, _) =>
      case ActivateSession(id) =>
        if id in s.sessions {
          ActivateSessionKeepsInv(s, id, repos);
        }
      case ArchiveSession(id) =>
        if id in s.sessions {
          PutSession(s, id, SessionArchived, repos);
        }
      case DeleteSession(_) =>
      case _ => TermStepsKeepInv(s, ev, repos);
    }
  }

  /**
    Over every run: the terms of a session have distinct ordinals, start before they end, and occupy disjoint
    half-open date ranges; at most one is ACTIVE; and a tenant has at most one ACTIVE session.
   */
  lemma {:induction false} RunKeepsInv(s: State, evs: seq<Event>, repos: Repositories)
    requires Inv(s) && Run(s, evs, repos)
    ensures Inv(Final(s, evs, repos))
    decreases evs
  {
    if evs != [] {
      ApplyKeepsInv(s, evs[0], repos);
      RunKeepsInv(Apply(s, evs[0], repos), evs[1..], repos);
    }
  }

  // ---------------------------------------------------------------- consequences

  function WithOrdinal(s: State, sessionId: Id, o: Ordinal): set<Id> {
    set k | k in TermsOf(s, sessionId) && s.terms[k].ordinal == o
  }

  lemma OneTermPerOrdinal(s: State, sessionId: Id, o: Ordinal)
    requires TermsOk(s)
    ensures |WithOrdinal(s, sessionId, o)| <= 1
  {
    var w := WithOrdinal(s, sessionId, o);
    if k :| k in w {
      assert w == {k};
    } else {
      assert w == {};
    }
  }

  lemma ThreePartsSize(a: set<Id>, b: set<Id>, c: set<Id>)
    requires a !! b && a !! c && b !! c
    ensures |a + b + c| == |a| + |b| + |c|
  {
  }

  /** A session never has more than three terms. */
  lemma AtMostThreeTerms(s: State, sessionId: Id)
    requires TermsOk(s)
    ensures |TermsOf(s, sessionId)| == |WithOrdinal(s, sessionId, First)|
                                       + |WithOrdinal(s, sessionId, Second)| + |WithOrdinal(s, sessionId, Third)|
    ensures |TermsOf(s, sessionId)| <= 3
  {
    OneTermPerOrdinal(s, sessionId, First);
    OneTermPerOrdinal(s, sessionId, Second);
    OneTermPerOrdinal(s, sessionId, Third);
    var a, b := WithOrdinal(s, sessionId, First), WithOrdinal(s, sessionId, Second);
    var c := WithOrdinal(s, sessionId, Third);
    assert TermsOf(s, sessionId) == a + b + c by {
      forall k | k in TermsOf(s, sessionId) ensures k in a + b + c {
        assert s.terms[k].ordinal.First? || s.terms[k].ordinal.Second? || s.terms[k].ordinal.Third?;
      }
    }
    assert a !! b && a !! c && b !! c;
    ThreePartsSize(a, b, c);
  }

  /** The check "session already has 3 terms" comes after the ordinal check and never fires. */
  lemma SessionFullIsUnreachable(evs: seq<Event>, repos: Repositories, sessionId: Id, id: Id, r: TermRequest)
    requires Run(EMPTY, evs, repos)
    ensures TermCreated(Final(EMPTY, evs, repos), sessionId, id, r, repos) != Failure(SessionFull)
  {
    RunKeepsInv(EMPTY, evs, repos);
    var s := Final(EMPTY, evs, repos);
    AtMostThreeTerms(s, sessionId);
    OneTermPerOrdinal(s, sessionId, First);
    OneTermPerOrdinal(s, sessionId, Second);
    OneTermPerOrdinal(s, sessionId, Third);
    var w := WithOrdinal(s, sessionId, r.ordinal);
    if k :| k in w {
      assert k in TermsOf(s, sessionId) && s.terms[k].ordinal == r.ordinal;
    } else {
      assert w == {};
    }
  }

  /** The "LIMIT 1" lookup of a tenant's active session never has a choice ... */
  lemma ActiveSessionIsUnique(evs: seq<Event>, repos: Repositories, tenantId: Id, i: Id, j: Id)
    requires Run(EMPTY, evs, repos)
    requires IsActiveSession(Final(EMPTY, evs, repos), i, tenantId)
    requires IsActiveSession(Final(EMPTY, evs, repos), j, tenantId)
    ensures i == j
  {
    RunKeepsInv(EMPTY, evs, repos);
  }

  /** ... nor has the lookup of a session's active term. */
  lemma ActiveTermIsUnique(evs: seq<Event>, repos: Repositories, sessionId: Id, i: Id, j: Id)
    requires Run(EMPTY, evs, repos)
    requires IsActiveTerm(Final(EMPTY, evs, repos), i, sessionId)
    requires IsActiveTerm(Final(EMPTY, evs, repos), j, sessionId)
    ensures i == j
  {
    RunKeepsInv(EMPTY, evs, repos);
  }

  const DAY := 86400

  /** 0 is Sunday; 1 January 1970 was a Thursday. */
  function Weekday(date: int): int {
    (date / DAY + 4) % 7
  }

  predicate SameDay(a: int, b: int) {
    a / DAY == b / DAY
  }

  /** Not a weekend, a holiday or another non-instructional day. */
  predicate SchoolDay(t: Term, date: int) {
    && Weekday(date) != 6 && Weekday(date) != 0
    && (forall k :: 0 <= k < |t.holidays| ==> !SameDay(t.holidays[k], date))
    && (forall k :: 0 <= k < |t.nonInstructionalDays| ==> !SameDay(t.nonInstructionalDays[k], date))
  }

  predicate Instructional(t: Term, date: int) {
    t.startDate <= date <= t.endDate && SchoolDay(t, date)
  }

  method IsInstructionalDay(t: Term, date: int) returns (yes: bool)
    ensures yes <==> Instructional(t, date)
  {
    if date < t.startDate || date > t.endDate {
      return false;
    }
    if Weekday(date) == 6 || Weekday(date) == 0 {
      return false;
    }
    for k := 0 to |t.holidays|
      invariant forall j :: 0 <= j < k ==> !SameDay(t.holidays[j], date)
    {
      if SameDay(t.holidays[k], date) {
        return false;
      }
    }
    for k := 0 to |t.nonInstructionalDays|
      invariant forall j :: 0 <= j < k ==> !SameDay(t.nonInstructionalDays[j], date)
    {
      if SameDay(t.nonInstructionalDays[k], date) {
        return false;
      }
    }
    return true;
  }

  /**
    The date ranges are half-open for the overlap check but closed for instruction. So an instant that is a school
    day for both terms is instructional in both exactly when one term ends and the other starts there.
   */
  lemma InstructionalInBothIff(evs: seq<Event>, repos: Repositories, i: Id, j: Id, date: int)
    requires Run(EMPTY, evs, repos) && i != j
    requires i in Final(EMPTY, evs, repos).terms && j in Final(EMPTY, evs, repos).terms
    requires var s := Final(EMPTY, evs, repos);
             s.terms[i].sessionId == s.terms[j].sessionId
             && SchoolDay(s.terms[i], date) && SchoolDay(s.terms[j], date)
    ensures var a, b := Final(EMPTY, evs, repos).terms[i], Final(EMPTY, evs, repos).terms[j];
            Instructional(a, date) && Instructional(b, date) <==>
            a.endDate == date == b.startDate || b.endDate == date == a.startDate
  {
    RunKeepsInv(EMPTY, evs, repos);
    var s := Final(EMPTY, evs, repos);
    assert Compatible(s.terms[i], s.terms[j]);
  }

  /** No term or session is ACTIVE. */
  predicate NothingActive(s: State) {
    && (forall k :: k in s.terms ==> s.terms[k].status.Draft?)
    && (forall k :: k in s.sessions ==> s.sessions[k].status.SessionDraft?)
  }

  /** With repositories that do not write the status column, no run of service calls ever activates anything. */
  lemma {:induction false} WithoutStatusNothingActivates(s: State, evs: seq<Event>, repos: Repositories)
    requires NothingActive(s) && !repos.savesStatus
    ensures NothingActive(Final(s, evs, repos))
    decreases evs
  {
    if evs != [] {
      WithoutStatusNothingActivates(Apply(s, evs[0], repos), evs[1..], repos);
    }
  }

  function StatusRank(status: TermStatus): nat {
    match status
    case Draft => 0
    case Active => 1
    case Completed => 2
  }

  /**
    A term's status goes back exactly when the service activates a completed term of a session in which no other
    term is active: nothing in ActivateTerm asks for a draft.
   */
  lemma StatusGoesBackIff(s: State, ev: Event, repos: Repositories, id: Id)
    requires Fresh(s, ev) && id in s.terms && id in Apply(s, ev, repos).terms
    ensures StatusRank(Apply(s, ev, repos).terms[id].status) < StatusRank(s.terms[id].status)
            <==> && repos.savesStatus && ev == ActivateTerm(id) && s.terms[id].status.Completed?
                 && forall k :: IsActiveTerm(s, k, s.terms[id].sessionId) ==> k == id
  {
    var sessionId := s.terms[id].sessionId;
    forall k ensures k in TermsOf(s, sessionId) && s.terms[k].status.Active? <==> IsActiveTerm(s, k, sessionId) {
    }
  }

  /** So completing an active term and activating it again ends where it began. */
  lemma CompletedTermReactivates(s: State, id: Id, repos: Repositories)
    requires Inv(s) && repos.savesStatus && id in s.terms && s.terms[id].status.Active?
    ensures Final(s, [CompleteTerm(id), ActivateTerm(id)], repos) == s
    ensures Apply(s, CompleteTerm(id), repos).terms[id].status.Completed?
  {
    var evs := [CompleteTerm(id), ActivateTerm(id)];
    var s1 := Apply(s, CompleteTerm(id), repos);
    assert evs[1..] == [ActivateTerm(id)] && evs[1..][1..] == [];
    assert Final(s1, [ActivateTerm(id)], repos) == Apply(s1, ActivateTerm(id), repos);
    assert s1.terms[id := s1.terms[id].(status := Active)] == s.terms;
  }

  // ---------------------------------------------------------------- what each call does

  /** A term is created exactly in a session that exists, with ordered dates, a free ordinal and a free time. */
  lemma CreateTermIsAcceptedIff(s: State, sessionId: Id, id: Id, r: TermRequest, repos: Repositories)
    requires TermsOk(s) && id !in s.terms
    ensures TermCreated(s, sessionId, id, r, repos).Success?
            <==> && sessionId in s.sessions && r.startDate < r.endDate && repos.createsWithoutTx
                 && forall k :: k in s.terms && s.terms[k].sessionId == sessionId ==>
                      && s.terms[k].ordinal != r.ordinal
                      && (s.terms[k].endDate <= r.startDate || r.endDate <= s.terms[k].startDate)
    ensures TermCreated(s, sessionId, id, r, repos).Success? ==>
              var s' := Apply(s, CreateTerm(sessionId, id, r), repos);
              && s'.sessions == s.sessions && s'.terms.Keys == s.terms.Keys + {id} && s'.terms - {id} == s.terms
              && s'.terms[id] == Term(sessionId, r.ordinal, r.startDate, r.endDate, Draft, r.holidays,
                                      r.nonInstructionalDays)
  {
    if forall k :: k in s.terms && s.terms[k].sessionId == sessionId ==> s.terms[k].ordinal != r.ordinal {
      RoomForOrdinal(s, sessionId, r.ordinal);
    }
    forall k | k in s.terms && s.terms[k].sessionId == sessionId ensures k in TermsOf(s, sessionId) {
    }
  }

  lemma RoomForOrdinal(s: State, sessionId: Id, o: Ordinal)
    requires TermsOk(s)
    requires forall k :: k in s.terms && s.terms[k].sessionId == sessionId ==> s.terms[k].ordinal != o
    ensures |TermsOf(s, sessionId)| < 3
  {
    AtMostThreeTerms(s, sessionId);
    OneTermPerOrdinal(s, sessionId, First);
    OneTermPerOrdinal(s, sessionId, Second);
    OneTermPerOrdinal(s, sessionId, Third);
    assert WithOrdinal(s, sessionId, o) == {};
  }

  /** A draft is updated exactly when its patched dates are in order and clear of the session's other terms. */
  lemma UpdateTermIsAcceptedIff(s: State, id: Id, p: TermPatch, repos: Repositories)
    requires id in s.terms
    ensures var t := s.terms[id];
            var start, end := if p.startDate.Some? then p.startDate.value else t.startDate,
                              if p.endDate.Some? then p.endDate.value else t.endDate;
            && (TermUpdated(s, id, p).Success? <==>
                && t.status.Draft? && start < end
                && forall k :: k in s.terms && k != id && s.terms[k].sessionId == t.sessionId ==>
                     s.terms[k].endDate <= start || end <= s.terms[k].startDate)
            && (TermUpdated(s, id, p).Success? ==>
                  var s' := Apply(s, UpdateTerm(id, p), repos);
                  && s'.sessions == s.sessions && s'.terms == s.terms[id := s'.terms[id]]
                  && var t' := s'.terms[id];
                  && t'.startDate == start && t'.endDate == end
                  && t'.holidays == (if p.holidays.Some? then p.holidays.value else t.holidays)
                  && t'.nonInstructionalDays == (if p.nonInstructionalDays.Some? then p.nonInstructionalDays.value
                                                 else t.nonInstructionalDays)
                  && t'.sessionId == t.sessionId && t'.ordinal == t.ordinal && t'.status == t.status)
  {
    forall k | k in s.terms && s.terms[k].sessionId == s.terms[id].sessionId
      ensures k in TermsOf(s, s.terms[id].sessionId)
    {
    }
  }

  /**
    A term of any status is activated exactly when no other term of its session is active; only active terms complete.
   */
  lemma TermStatusCalls(s: State, id: Id, repos: Repositories)
    requires id in s.terms
    ensures TermActivated(s, id, repos).Success?
            <==> forall k :: IsActiveTerm(s, k, s.terms[id].sessionId) ==> k == id
    ensures TermActivated(s, id, repos).Success? && repos.savesStatus ==>
              Apply(s, ActivateTerm(id), repos) == s.(terms := s.terms[id := s.terms[id].(status := Active)])
    ensures TermCompleted(s, id, repos).Success? <==> s.terms[id].status.Active?
    ensures s.terms[id].status.Active? && repos.savesStatus ==>
              Apply(s, CompleteTerm(id), repos) == s.(terms := s.terms[id := s.terms[id].(status := Completed)])
    ensures TermDeleted(s, id).Success? <==> s.terms[id].status.Draft?
    ensures s.terms[id].status.Draft? ==> Apply(s, DeleteTerm(id), repos) == s.(terms := s.terms - {id})
  {
    var sessionId := s.terms[id].sessionId;
    forall k ensures IsActiveTerm(s, k, sessionId) <==> k in TermsOf(s, sessionId) && s.terms[k].status.Active? {
    }
  }

  /** Nothing but the deletion of its session takes a term away, or changes its dates, once it has left DRAFT. */
  lemma LockedTermStep(s: State, ev: Event, repos: Repositories, id: Id)
    requires Fresh(s, ev) && id in s.terms && !s.terms[id].status.Draft? && ev != DeleteSession(s.terms[id].sessionId)
    ensures id in Apply(s, ev, repos).terms && !Apply(s, ev, repos).terms[id].status.Draft?
    ensures Apply(s, ev, repos).terms[id].(status := s.terms[id].status) == s.terms[id]
  {
  }

  lemma {:induction false} LockedTermStays(s: State, evs: seq<Event>, repos: Repositories, id: Id)
    requires Run(s, evs, repos) && id in s.terms && !s.terms[id].status.Draft?
    requires DeleteSession(s.terms[id].sessionId) !in evs
    ensures id in Final(s, evs, repos).terms && !Final(s, evs, repos).terms[id].status.Draft?
    ensures Final(s, evs, repos).terms[id].(status := s.terms[id].status) == s.terms[id]
    decreases evs
  {
    if evs != [] {
      assert evs[0] in evs;
      LockedTermStep(s, evs[0], repos, id);
      var s' := Apply(s, evs[0], repos);
      assert s'.terms[id].sessionId == s'.terms[id].(status := s.terms[id].status).sessionId;
      LockedTermStays(s', evs[1..], repos, id);
    }
  }

  /**
    Activation leaves exactly the given session active for its tenant, archives the one before, and touches no other.
   */
  lemma ActivationLeavesOne(s: State, id: Id, repos: Repositories)
    requires SessionsOk(s) && repos.savesStatus && id in s.sessions
    ensures var s', tenant := Apply(s, ActivateSession(id), repos), s.sessions[id].tenantId;
            && s'.terms == s.terms && s'.sessions.Keys == s.sessions.Keys
            && (forall k :: IsActiveSession(s', k, tenant) <==> k == id)
            && (forall k :: IsActiveSession(s, k, tenant) && k != id ==>
                  s'.sessions[k] == s.sessions[k].(status := SessionArchived))
            && s'.sessions[id] == s.sessions[id].(status := SessionActive)
            && (forall k :: k in s.sessions && k != id && !IsActiveSession(s, k, tenant) ==>
                  s'.sessions[k] == s.sessions[k])
  {
    var s', tenant := Apply(s, ActivateSession(id), repos), s.sessions[id].tenantId;
    var active := s.sessions[id].(status := SessionActive);
    if k :| IsActiveSession(s, k, tenant) {
      forall j | IsActiveSession(s, j, tenant) ensures j == k {
      }
      var archived := s.sessions[k].(status := SessionArchived);
      assert s'.sessions == if k == id then s.sessions[id := active] else s.sessions[k := archived][id := active];
    } else {
      assert s'.sessions == s.sessions[id := active];
      forall k ensures IsActiveSession(s', k, tenant) <==> k == id {
        assert !IsActiveSession(s, k, tenant);
      }
    }
  }

  /** Creating, archiving and deleting a session. */
  lemma SessionCalls(s: State, id: Id, tenantId: Id, startYear: int, endYear: int, repos: Repositories)
    requires TermsOk(s)
    ensures SessionCreated(s, id, tenantId, startYear, endYear).Success? <==> startYear < endYear
    ensures startYear < endYear ==>
              Apply(s, CreateSession(id, tenantId, startYear, endYear), repos)
              == s.(sessions := s.sessions[id := Session(tenantId, startYear, endYear, SessionDraft)])
    ensures id in s.sessions && repos.savesStatus ==>
              Apply(s, ArchiveSession(id), repos)
              == s.(sessions := s.sessions[id := s.sessions[id].(status := SessionArchived)])
    ensures SessionDeleted(s, id).Success? <==> id in s.sessions && !s.sessions[id].status.SessionActive?
    ensures SessionDeleted(s, id).Success? ==>
              var s' := Apply(s, DeleteSession(id), repos);
              && s'.sessions == s.sessions - {id}
              && (forall k :: k in s'.terms <==> k in s.terms && s.terms[k].sessionId != id)
              && (forall k :: k in s'.terms ==> s'.terms[k] == s.terms[k])
  {
  }

  lemma DayIs(n: int, t: int)
    ensures t / DAY == n <==> n * 86400 <= t < n * 86400 + 86400
  {
  }

  /** Day `n` begins `n` times 86400 seconds after the epoch, a Thursday, and weekdays repeat every seven days. */
  lemma DaysOfTheWeek(n: int, t: int)
    requires n * 86400 <= t < n * 86400 + 86400
    ensures Weekday(t) == (n + 4) % 7
  {
    DayIs(n, t);
  }

  lemma SameDayIff(n: int, a: int, b: int)
    requires n * 86400 <= a < n * 86400 + 86400
    ensures SameDay(a, b) <==> n * 86400 <= b < n * 86400 + 86400
  {
    DayIs(n, a);
    DayIs(n, b);
  }

  /** A date of day `n` is instructional exactly from Monday to Friday, inside the term, on no day of either list. */
  lemma InstructionalIff(t: Term, n: int, date: int)
    requires n * 86400 <= date < n * 86400 + 86400
    ensures Instructional(t, date)
            <==> && t.startDate <= date <= t.endDate && 1 <= (n + 4) % 7 <= 5
                 && (forall k :: 0 <= k < |t.holidays| ==>
                       !(n * 86400 <= t.holidays[k] < n * 86400 + 86400))
                 && (forall k :: 0 <= k < |t.nonInstructionalDays| ==>
                       !(n * 86400 <= t.nonInstructionalDays[k] < n * 86400 + 86400))
  {
    DaysOfTheWeek(n, date);
    forall d: int ensures SameDay(d, date) <==> n * 86400 <= d < n * 86400 + 86400 {
      SameDayIff(n, date, d);
      assert SameDay(d, date) <==> SameDay(date, d);
    }
  }
}
