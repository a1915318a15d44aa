/**
  The term and session services in the source's own form. Every method is proved to take exactly the step that
  module Calendar reasons about.
 */
module CalendarServices {
  import opened Wrappers
  import opened Calendar

  class CalendarService {
    var sessions: map<Id, Session>
    var terms: map<Id, Term>
    const repos: Repositories

    constructor (repos: Repositories)
      ensures Store() == EMPTY && this.repos == repos
    {
      sessions, terms := map[], map[];
      this.repos := repos;
    }

    function Store(): State
      reads this
    {
      State(sessions, terms)
    }

    /** The terms of a session, in some order. */
    method ListBySession(sessionId: Id) returns (ids: seq<Id>)
      ensures forall i :: 0 <= i < |ids| ==> ids[i] in terms && terms[ids[i]].sessionId == sessionId
      ensures forall k :: k in TermsOf(Store(), sessionId) ==> k in ids
      ensures |ids| == |TermsOf(Store(), sessionId)|
    {
      ids := [];
      var todo := set k | k in terms && terms[k].sessionId == sessionId;
      ghost var all := todo;
      while todo != {}
        invariant todo <= all && |ids| + |todo| == |all|
        invariant forall i :: 0 <= i < |ids| ==> ids[i] in all
        invariant forall k :: k in ids <==> k in all && k !in todo
        decreases |todo|
      {
        var k :| k in todo;
        ids := ids + [k];
        todo := todo - {k};
      }
    }

    method CreateTerm(sessionId: Id, id: Id, r: TermRequest) returns (e: Option<Error>)
      modifies this
      ensures Commits(TermCreated(old(Store()), sessionId, id, r, repos), old(Store()), Store(), e)
    {
      if sessionId !in sessions {
        return Some(NotFound);
      }
      if r.endDate < r.startDate || r.endDate == r.startDate {
        return Some(BadDates);
      }
      var existing := ListBySession(sessionId);
      for i := 0 to |existing|
        invariant forall j :: 0 <= j < i ==> terms[existing[j]].ordinal != r.ordinal
      {
        assert existing[i] in TermsOf(Store(), sessionId);
        if terms[existing[i]].ordinal == r.ordinal {
          return Some(OrdinalTaken);
        }
      }
      for i := 0 to |existing|
        invariant forall j :: 0 <= j < i ==> !Overlapping(NewTerm(sessionId, r), terms[existing[j]])
      {
        assert existing[i] in TermsOf(Store(), sessionId);
        var t := terms[existing[i]];
        if DatesOverlap(r.startDate, r.endDate, t.startDate, t.endDate) {
          return Some(Overlap);
        }
      }
      if |existing| >= 3 {
        return Some(SessionFull);
      }
      if !repos.createsWithoutTx {
        return Some(NeedsTransaction);
      }
      terms := terms[id := Term(sessionId, r.ordinal, r.startDate, r.endDate, Draft, r.holidays,
                                r.nonInstructionalDays)];
      return None;
    }

    method UpdateTerm(id: Id, p: TermPatch) returns (e: Option<Error>)
      modifies this
      ensures Commits(TermUpdated(old(Store()), id, p), old(Store()), Store(), e)
    {
      if id !in terms {
        return Some(NotFound);
      }
      var term := terms[id];
      if term.status.Active? || term.status.Completed? {
        return Some(Locked);
      }
      if p.startDate.Some? {
        term := term.(startDate := p.startDate.value);
      }
      if p.endDate.Some? {
        term := term.(endDate := p.endDate.value);
      }
      if p.holidays.Some? {
        term := term.(holidays := p.holidays.value);
      }
      if p.nonInstructionalDays.Some? {
        term := term.(nonInstructionalDays := p.nonInstructionalDays.value);
      }
      if term.endDate < term.startDate || term.endDate == term.startDate {
        return Some(BadDates);
      }
      var existing := ListBySession(term.sessionId);
      for i := 0 to |existing|
        invariant forall j :: 0 <= j < i ==> existing[j] == id || !Overlapping(term, terms[existing[j]])
      {
        assert existing[i] in TermsOf(Store(), term.sessionId);
        if existing[i] != id {
          var t := terms[existing[i]];
          if DatesOverlap(term.startDate, term.endDate, t.startDate, t.endDate) {
            assert Overlapping(term, terms[existing[i]]);
            return Some(Overlap);
          }
        }
      }
      terms := terms[id := term];
      return None;
    }

    method DeleteTerm(id: Id) returns (e: Option<Error>)
      modifies this
      ensures Commits(TermDeleted(old(Store()), id), old(Store()), Store(), e)
    {
      if id !in terms {
        return Some(NotFound);
      }
      if terms[id].status.Active? || terms[id].status.Completed? {
        return Some(Locked);
      }
      terms := terms - {id};
      return None;
    }

    method ActivateTerm(id: Id) returns (e: Option<Error>)
      requires Inv(Store())
      modifies this
      ensures Commits(TermActivated(old(Store()), id, repos), old(Store()), Store(), e)
    {
      if id !in terms {
        return Some(NotFound);
      }
      var sessionId := terms[id].sessionId;
      if k :| k in terms && terms[k].sessionId == sessionId && terms[k].status.Active? {
        if k != id {
          assert k in TermsOf(Store(), sessionId);
          return Some(AnotherActive);
        }
      }
      if repos.savesStatus {
        terms := terms[id := terms[id].(status := Active)];
      }
      return None;
    }

    method CompleteTerm(id: Id) returns (e: Option<Error>)
      modifies this
      ensures Commits(TermCompleted(old(Store()), id, repos), old(Store()), Store(), e)
    {
      if id !in terms {
        return Some(NotFound);
      }
      if !terms[id].status.Active? {
        return Some(NotActive);
      }
      if repos.savesStatus {
        terms := terms[id := terms[id].(status := Completed)];
      }
      return None;
    }

    method CreateSession(id: Id, tenantId: Id, startYear: int, endYear: int) returns (e: Option<Error>)
      modifies this
      ensures Commits(SessionCreated(old(Store()), id, tenantId, startYear, endYear), old(Store()), Store(), e)
    {
      if endYear <= startYear {
        return Some(BadYears);
      }
      sessions := sessions[id := Session(tenantId, startYear, endYear, SessionDraft)];
      return None;
    }

    method UpdateSessionStatus(id: Id, status: SessionStatus)
      requires id in sessions
      modifies this
      ensures Store() == PutSessionStatus(old(Store()), id, status, repos)
    {
      if repos.savesStatus {
        sessions := sessions[id := sessions[id].(status := status)];
      }
    }

    method ActivateSession(id: Id) returns (e: Option<Error>)
      requires Inv(Store())
      modifies this
      ensures Commits(SessionActivated(old(Store()), id, repos), old(Store()), Store(), e)
    {
      if id !in sessions {
        return Some(NotFound);
      }
      var tenantId := sessions[id].tenantId;
      if k :| k in sessions && sessions[k].tenantId == tenantId && sessions[k].status.SessionActive? {
        assert IsActiveSession(Store(), k, tenantId);
        assert forall j :: IsActiveSession(Store(), j, tenantId) ==> j == k;
        if k != id {
          UpdateSessionStatus(k, SessionArchived);
        }
      } else {
        assert forall j :: !IsActiveSession(Store(), j, tenantId);
      }
      UpdateSessionStatus(id, SessionActive);
      return None;
    }

    method ArchiveSession(id: Id) returns (e: Option<Error>)
      modifies this
      ensures Commits(SessionArchivedStep(old(Store()), id, repos), old(Store()), Store(), e)
    {
      if id !in sessions {
        return Some(NotFound);
      }
      UpdateSessionStatus(id, SessionArchived);
      return None;
    }

    method DeleteSession(id: Id) returns (e: Option<Error>)
      modifies this
      ensures Commits(SessionDeleted(old(Store()), id), old(Store()), Store(), e)
    {
      if id !in sessions {
        return Some(NotFound);
      }
      if sessions[id].status.SessionActive? {
        return Some(SessionInUse);
      }
      sessions := sessions - {id};
      terms := map k | k in terms && terms[k].sessionId != id :: terms[k];
      return None;
    }
  }
}
