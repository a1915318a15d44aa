/**
  Term invoices: internal/service/billing_service.go:41-143 and 697-879, and the billing that
  internal/service/term_service.go:325-338 triggers on activation. Amounts are in kobo.
 */
module Billing {
  import opened Wrappers
  import Calendar
  import opened CalendarServices

  type Id = Calendar.Id

  const PRICE_PER_STUDENT_PER_TERM := 50000

  datatype Invoice = Invoice(
    tenantId: Id,
    termId: Id,
    studentCount: nat,
    subtotal: int,
    tax: int,
    discount: int,
    total: int)

  function TermInvoice(tenantId: Id, termId: Id, studentCount: nat): Invoice {
    var amount := studentCount * PRICE_PER_STUDENT_PER_TERM;
    Invoice(tenantId, termId, studentCount, amount, 0, 0, amount)
  }

  predicate HasInvoice(invoices: seq<Invoice>, termId: Id) {
    exists i :: 0 <= i < |invoices| && invoices[i].termId == termId
  }

  // ---------------------------------------------------------------- one bulk run

  /** What a bulk run sees of one tenant, the answers of its repositories included. */
  datatype TenantView = TenantView(
    tenantId: Id,
    activeSession: Option<Id>,     // None: no active session, or the query failed
    activeTerm: Option<Id>,        // None: no active term, or the query failed
    invoiceLookupFails: bool,      // the error of this lookup is ignored
    students: Option<nat>,         // None: counting failed
    generateFails: bool)

  datatype SkipReason = NoActiveSession | NoActiveTerm | InvoiceExists | NoStudents

  datatype Outcome = Created(invoice: Invoice) | Skipped(reason: SkipReason) | Failed

  function OutcomeFor(invoices: seq<Invoice>, t: TenantView): Outcome {
    if t.activeSession.None? then Skipped(NoActiveSession)
    else if t.activeTerm.None? then Skipped(NoActiveTerm)
    else if !t.invoiceLookupFails && HasInvoice(invoices, t.activeTerm.value) then Skipped(InvoiceExists)
    else if t.students.None? then Failed
    else if t.students.value == 0 then Skipped(NoStudents)
    else if t.generateFails then Failed
    else Created(TermInvoice(t.tenantId, t.activeTerm.value, t.students.value))
  }

  function BilledOne(invoices: seq<Invoice>, t: TenantView): seq<Invoice> {
    var o := OutcomeFor(invoices, t);
    if o.Created? then invoices + [o.invoice] else invoices
  }

  function Billed(invoices: seq<Invoice>, ts: seq<TenantView>): seq<Invoice> {
    if ts == [] then invoices else BilledOne(Billed(invoices, ts[..|ts| - 1]), ts[|ts| - 1])
  }

  /** The results of a run, one per tenant. */
  function Outcomes(invoices: seq<Invoice>, ts: seq<TenantView>): seq<Outcome> {
    if ts == [] then []
    else Outcomes(invoices, ts[..|ts| - 1]) + [OutcomeFor(Billed(invoices, ts[..|ts| - 1]), ts[|ts| - 1])]
  }

  datatype Response = Response(totalTenants: nat, invoicesCreated: nat, skipped: nat, failed: nat,
                               results: seq<Outcome>)

  class BillingService {
    var invoices: seq<Invoice>

    method GetByTerm(termId: Id) returns (found: bool)
      ensures found <==> HasInvoice(invoices, termId)
    {
      found := false;
      for i := 0 to |invoices|
        invariant found <==> exists j :: 0 <= j < i && invoices[j].termId == termId
      {
        if invoices[i].termId == termId {
          found := true;
        }
      }
    }

    /** No check for an existing invoice here: only the bulk run makes one. */
    method GenerateTermInvoice(tenantId: Id, termId: Id, studentCount: nat, fails: bool)
      returns (r: Option<Invoice>)
      modifies this
      ensures r == if fails then None else Some(TermInvoice(tenantId, termId, studentCount))
      ensures invoices == if fails then old(invoices) else old(invoices) + [TermInvoice(tenantId, termId, studentCount)]
    {
      if fails {
        return None;
      }
      var totalAmountKobo := studentCount * PRICE_PER_STUDENT_PER_TERM;
      var invoice := Invoice(tenantId, termId, studentCount, totalAmountKobo, 0, 0, totalAmountKobo);
      invoices := invoices + [invoice];
      return Some(invoice);
    }

    method GenerateInvoicesForActiveTerm(tenants: seq<TenantView>) returns (response: Response)
      modifies this
      ensures invoices == Billed(old(invoices), tenants)
      ensures response.results == Outcomes(old(invoices), tenants)
      ensures response.totalTenants == |tenants| == |response.results|
      ensures response.invoicesCreated == CountCreated(response.results)
      ensures response.skipped == CountSkipped(response.results)
      ensures response.failed == CountFailed(response.results)
      ensures response.totalTenants == response.invoicesCreated + response.skipped + response.failed
    {
      var created, skipped, failed, results := 0, 0, 0, [];
      for i := 0 to |tenants|
        invariant invoices == Billed(old(invoices), tenants[..i])
        invariant results == Outcomes(old(invoices), tenants[..i]) && |results| == i
        invariant created == CountCreated(results) && skipped == CountSkipped(results)
        invariant failed == CountFailed(results) && created + skipped + failed == i
      {
        assert tenants[..i + 1][..i] == tenants[..i];
        var outcome := BillTenant(tenants[i]);
        CountNext(results, outcome);
        results := results + [outcome];
        match outcome
        case Created(_) => created := created + 1;
        case Skipped(_) => skipped := skipped + 1;
        case Failed => failed := failed + 1;
      }
      assert tenants[..|tenants|] == tenants;
      response := Response(|tenants|, created, skipped, failed, results);
    }

    /** One round of the bulk loop. */
    method BillTenant(t: TenantView) returns (o: Outcome)
      modifies this
      ensures o == OutcomeFor(old(invoices), t) && invoices == BilledOne(old(invoices), t)
    {
      if t.activeSession.None? {
        return Skipped(NoActiveSession);
      }
      if t.activeTerm.None? {
        return Skipped(NoActiveTerm);
      }
      var alreadyBilled := GetByTerm(t.activeTerm.value);
      if !t.invoiceLookupFails && alreadyBilled {
        return Skipped(InvoiceExists);
      }
      if t.students.None? {
        return Failed;
      }
      if t.students.value == 0 {
        return Skipped(NoStudents);
      }
      var invoice := GenerateTermInvoice(t.tenantId, t.activeTerm.value, t.students.value, t.generateFails);
      if invoice.None? {
        return Failed;
      }
      return Created(invoice.value);
    }
  }

  function CountCreated(rs: seq<Outcome>): nat {
    if rs == [] then 0 else CountCreated(rs[..|rs| - 1]) + if rs[|rs| - 1].Created? then 1 else 0
  }

  function CountSkipped(rs: seq<Outcome>): nat {
    if rs == [] then 0 else CountSkipped(rs[..|rs| - 1]) + if rs[|rs| - 1].Skipped? then 1 else 0
  }

  function CountFailed(rs: seq<Outcome>): nat {
    if rs == [] then 0 else CountFailed(rs[..|rs| - 1]) + if rs[|rs| - 1].Failed? then 1 else 0
  }

  lemma CountNext(rs: seq<Outcome>, o: Outcome)
    ensures CountCreated(rs + [o]) == CountCreated(rs) + if o.Created? then 1 else 0
    ensures CountSkipped(rs + [o]) == CountSkipped(rs) + if o.Skipped? then 1 else 0
    ensures CountFailed(rs + [o]) == CountFailed(rs) + if o.Failed? then 1 else 0
  {
    assert (rs + [o])[..|rs|] == rs;
  }

  function SumTotals(invoices: seq<Invoice>): int {
    if invoices == [] then 0 else SumTotals(invoices[..|invoices| - 1]) + invoices[|invoices| - 1].total
  }

  function StudentsBilled(rs: seq<Outcome>): nat {
    if rs == [] then 0
    else StudentsBilled(rs[..|rs| - 1]) + if rs[|rs| - 1].Created? then rs[|rs| - 1].invoice.studentCount else 0
  }

  /** A run adds one invoice per Created result, keeps the old ones, and bills 50000 kobo for every student billed. */
  lemma {:induction false} BulkRunConserves(invoices: seq<Invoice>, ts: seq<TenantView>)
    ensures invoices <= Billed(invoices, ts)
    ensures |Billed(invoices, ts)| == |invoices| + CountCreated(Outcomes(invoices, ts))
    ensures SumTotals(Billed(invoices, ts))
            == SumTotals(invoices) + StudentsBilled(Outcomes(invoices, ts)) * PRICE_PER_STUDENT_PER_TERM
    ensures |Outcomes(invoices, ts)| == |ts|
  {
    if ts != [] {
      var init, t := ts[..|ts| - 1], ts[|ts| - 1];
      BulkRunConserves(invoices, init);
      var before, o := Billed(invoices, init), OutcomeFor(Billed(invoices, init), t);
      assert (Outcomes(invoices, init) + [o])[..|ts| - 1] == Outcomes(invoices, init);
      if o.Created? {
        assert (before + [o.invoice])[..|before|] == before;
      }
    }
  }

  // ---------------------------------------------------------------- at most one invoice per term

  predicate OnePerTerm(invoices: seq<Invoice>) {
    forall i, j :: 0 <= i < j < |invoices| ==> invoices[i].termId != invoices[j].termId
  }

  predicate LookupsAnswer(ts: seq<TenantView>) {
    forall i :: 0 <= i < |ts| ==> !ts[i].invoiceLookupFails
  }

  /** Every repository call of the run succeeds. */
  predicate Clean(ts: seq<TenantView>) {
    LookupsAnswer(ts) && forall i :: 0 <= i < |ts| ==> ts[i].students.Some? && !ts[i].generateFails
  }

  /** The run reaches the point where it would create the tenant's invoice, whatever the lookup says. */
  predicate Billable(t: TenantView) {
    t.activeSession.Some? && t.activeTerm.Some? && t.students.Some? && t.students.value > 0 && !t.generateFails
  }

  predicate Bills(t: TenantView, termId: Id) {
    Billable(t) && t.activeTerm.value == termId
  }

  lemma HasInvoiceAppend(invoices: seq<Invoice>, i: Invoice, termId: Id)
    ensures HasInvoice(invoices + [i], termId) <==> HasInvoice(invoices, termId) || i.termId == termId
  {
    var after := invoices + [i];
    assert after[|invoices|] == i;
    if k :| 0 <= k < |invoices| && invoices[k].termId == termId {
      assert after[k].termId == termId;
    }
  }

  /** A run leaves an invoice for a term exactly when there was one, or when some tenant of the run bills the term. */
  lemma {:induction false} HasInvoiceAfterIff(invoices: seq<Invoice>, ts: seq<TenantView>, termId: Id)
    ensures HasInvoice(Billed(invoices, ts), termId)
            <==> HasInvoice(invoices, termId) || exists j :: 0 <= j < |ts| && Bills(ts[j], termId)
  {
    if ts != [] {
      var init, t := ts[..|ts| - 1], ts[|ts| - 1];
      var before := Billed(invoices, init);
      HasInvoiceAfterIff(invoices, init, termId);
      var o := OutcomeFor(before, t);
      if o.Created? {
        HasInvoiceAppend(before, o.invoice, termId);
      }
      if j :| 0 <= j < |init| && Bills(init[j], termId) {
        assert Bills(ts[j], termId);
      }
    }
  }

  /** Billing one tenant keeps one invoice per term unless the ignored error of its lookup hides an invoice. */
  lemma FailedLookupBillsTwiceIff(invoices: seq<Invoice>, t: TenantView)
    requires OnePerTerm(invoices)
    ensures OnePerTerm(BilledOne(invoices, t))
            <==> !(Billable(t) && t.invoiceLookupFails && HasInvoice(invoices, t.activeTerm.value))
  {
    var after := BilledOne(invoices, t);
    if Billable(t) && t.invoiceLookupFails {
      if i :| 0 <= i < |invoices| && invoices[i].termId == t.activeTerm.value {
        assert after[i].termId == after[|invoices|].termId;
      }
    }
  }

  /** Before the run: tenant `i` will be billed for a term that has an invoice, or will have one by then. */
  ghost predicate BillsAgain(invoices: seq<Invoice>, ts: seq<TenantView>, i: nat)
    requires i < |ts|
  {
    && Billable(ts[i]) && ts[i].invoiceLookupFails
    && (HasInvoice(invoices, ts[i].activeTerm.value) || exists j :: 0 <= j < i && Bills(ts[j], ts[i].activeTerm.value))
  }

  lemma LastBillsAgain(invoices: seq<Invoice>, ts: seq<TenantView>)
    requires ts != []
    ensures var t := ts[|ts| - 1];
            BillsAgain(invoices, ts, |ts| - 1) <==>
            Billable(t) && t.invoiceLookupFails && HasInvoice(Billed(invoices, ts[..|ts| - 1]), t.activeTerm.value)
  {
    var init, t := ts[..|ts| - 1], ts[|ts| - 1];
    if Billable(t) {
      var termId := t.activeTerm.value;
      HasInvoiceAfterIff(invoices, init, termId);
      forall j | 0 <= j < |init| ensures Bills(init[j], termId) <==> Bills(ts[j], termId) {
      }
    }
  }

  lemma {:induction false} OnePerTermPrefix(invoices: seq<Invoice>, more: seq<Invoice>)
    requires OnePerTerm(more) && invoices <= more
    ensures OnePerTerm(invoices)
  {
  }

  /** A bulk run keeps at most one invoice per term exactly when it bills no tenant again behind a failed lookup. */
  lemma {:induction false} BulkRunKeepsOnePerTermIff(invoices: seq<Invoice>, ts: seq<TenantView>)
    requires OnePerTerm(invoices)
    ensures OnePerTerm(Billed(invoices, ts)) <==> forall i :: 0 <= i < |ts| ==> !BillsAgain(invoices, ts, i)
  {
    if ts != [] {
      var init, t := ts[..|ts| - 1], ts[|ts| - 1];
      BulkRunKeepsOnePerTermIff(invoices, init);
      LastBillsAgain(invoices, ts);
      forall i | 0 <= i < |init| ensures BillsAgain(invoices, init, i) <==> BillsAgain(invoices, ts, i) {
      }
      var before := Billed(invoices, init);
      if OnePerTerm(before) {
        FailedLookupBillsTwiceIff(before, t);
      } else if OnePerTerm(BilledOne(before, t)) {
        OnePerTermPrefix(before, BilledOne(before, t));
      }
    }
  }

  /** Such a run: two views of one term, and the second lookup fails. */
  lemma TwoViewsBillTwice(t: TenantView, u: TenantView, termId: Id)
    requires Bills(t, termId) && Bills(u, termId) && u.invoiceLookupFails
    ensures !OnePerTerm(Billed([], [t, u]))
  {
    BulkRunKeepsOnePerTermIff([], [t, u]);
    assert Bills([t, u][0], termId);
    assert BillsAgain([], [t, u], 1);
  }

  /** Any number of bulk runs. */
  function BilledRuns(invoices: seq<Invoice>, runs: seq<seq<TenantView>>): seq<Invoice> {
    if runs == [] then invoices else Billed(BilledRuns(invoices, runs[..|runs| - 1]), runs[|runs| - 1])
  }

  lemma {:induction false} BulkRunsKeepOnePerTerm(invoices: seq<Invoice>, runs: seq<seq<TenantView>>)
    requires OnePerTerm(invoices) && forall i :: 0 <= i < |runs| ==> LookupsAnswer(runs[i])
    ensures OnePerTerm(BilledRuns(invoices, runs))
  {
    if runs != [] {
      BulkRunsKeepOnePerTerm(invoices, runs[..|runs| - 1]);
      BulkRunKeepsOnePerTermIff(BilledRuns(invoices, runs[..|runs| - 1]), runs[|runs| - 1]);
    }
  }

  /** After a clean run, every tenant of the run with an active term and students has its invoice. */
  lemma CleanRunCovers(invoices: seq<Invoice>, ts: seq<TenantView>, i: nat)
    requires Clean(ts) && i < |ts|
    requires ts[i].activeSession.Some? && ts[i].activeTerm.Some? && ts[i].students.value > 0
    ensures HasInvoice(Billed(invoices, ts), ts[i].activeTerm.value)
  {
    HasInvoiceAfterIff(invoices, ts, ts[i].activeTerm.value);
    assert Bills(ts[i], ts[i].activeTerm.value);
  }

  /** A second run right after a clean one creates nothing. */
  lemma SecondRunCreatesNothing(invoices: seq<Invoice>, ts: seq<TenantView>)
    requires Clean(ts)
    ensures Billed(Billed(invoices, ts), ts) == Billed(invoices, ts)
  {
    var after := Billed(invoices, ts);
    forall i | 0 <= i < |ts| ensures BilledOne(after, ts[i]) == after {
      if ts[i].activeSession.Some? && ts[i].activeTerm.Some? && ts[i].students.value > 0 {
        CleanRunCovers(invoices, ts, i);
      }
    }
    RunOfSkips(after, ts);
  }

  lemma {:induction false} RunOfSkips(invoices: seq<Invoice>, ts: seq<TenantView>)
    requires forall i :: 0 <= i < |ts| ==> BilledOne(invoices, ts[i]) == invoices
    ensures Billed(invoices, ts) == invoices
  {
    if ts != [] {
      RunOfSkips(invoices, ts[..|ts| - 1]);
    }
  }

  // ---------------------------------------------------------------- billing on activation

  /** ActivateTerm: on success a term invoice is generated, unless counting or generating fails. */
  function ActivatedAndBilled(cal: Calendar.State, invoices: seq<Invoice>, termId: Id, tenantId: Id,
                              students: Option<nat>, generateFails: bool, repos: Calendar.Repositories)
    : (Calendar.State, seq<Invoice>)
  {
    var r := Calendar.TermActivated(cal, termId, repos);
    if r.Failure? then (cal, invoices)
    else if students.None? || generateFails then (r.value, invoices)
    else (r.value, invoices + [TermInvoice(tenantId, termId, students.value)])
  }

  /** TermService.ActivateTerm with its billing; a failure to count or to generate leaves the activation in place. */
  method ActivateTerm(terms: CalendarService, billing: BillingService, termId: Id, tenantId: Id,
                      students: Option<nat>, generateFails: bool)
    returns (e: Option<Calendar.Error>)
    requires Calendar.Inv(terms.Store())
    modifies terms, billing
    ensures (terms.Store(), billing.invoices) == ActivatedAndBilled(old(terms.Store()), old(billing.invoices),
              termId, tenantId, students, generateFails, terms.repos)
    ensures e.None? <==> Calendar.TermActivated(old(terms.Store()), termId, terms.repos).Success?
  {
    e := terms.ActivateTerm(termId);
    if e.Some? {
      return;
    }
    if students.Some? {
      var _ := billing.GenerateTermInvoice(tenantId, termId, students.value, generateFails);
    }
  }

  /**
    Activation bills a term that has no invoice exactly once, but nothing stops it from billing again: the store
    keeps at most one invoice per term exactly when the term had none before the call.
   */
  lemma ActivationKeepsOnePerTermIff(cal: Calendar.State, invoices: seq<Invoice>, termId: Id, tenantId: Id,
                                     students: nat, repos: Calendar.Repositories)
    requires OnePerTerm(invoices) && Calendar.TermActivated(cal, termId, repos).Success?
    ensures OnePerTerm(ActivatedAndBilled(cal, invoices, termId, tenantId, Some(students), false, repos).1)
            <==> !HasInvoice(invoices, termId)
  {
    var after := invoices + [TermInvoice(tenantId, termId, students)];
    if i :| 0 <= i < |invoices| && invoices[i].termId == termId {
      assert after[i].termId == after[|invoices|].termId;
    }
  }

  /**
    So activating the active term once more bills it a second time, although the documentation calls billing
    idempotent.
   */
  lemma SecondActivationBillsAgain(cal: Calendar.State, invoices: seq<Invoice>, termId: Id, tenantId: Id,
                                   students: nat, repos: Calendar.Repositories)
    requires Calendar.TermActivated(cal, termId, repos).Success?
    ensures var (cal1, inv1) := ActivatedAndBilled(cal, invoices, termId, tenantId, Some(students), false, repos);
            var (cal2, inv2) := ActivatedAndBilled(cal1, inv1, termId, tenantId, Some(students), false, repos);
            !OnePerTerm(inv2) && |inv2| == |invoices| + 2
  {
    var (cal1, inv1) := ActivatedAndBilled(cal, invoices, termId, tenantId, Some(students), false, repos);
    var (cal2, inv2) := ActivatedAndBilled(cal1, inv1, termId, tenantId, Some(students), false, repos);
    assert inv2[|invoices|].termId == inv2[|invoices| + 1].termId;
  }

  // ---------------------------------------------------------------- both ways of billing, in any order

  datatype Event =
    | Bulk(tenants: seq<TenantView>)
    | Activation(tenantId: Id, termId: Id, students: nat)   // a billing triggered by an activation

  function Apply(invoices: seq<Invoice>, ev: Event): seq<Invoice> {
    match ev
    case Bulk(ts) => Billed(invoices, ts)
    case Activation(tenantId, termId, students) => invoices + [TermInvoice(tenantId, termId, students)]
  }

  function ApplyAll(invoices: seq<Invoice>, evs: seq<Event>): seq<Invoice> {
    if evs == [] then invoices else Apply(ApplyAll(invoices, evs[..|evs| - 1]), evs[|evs| - 1])
  }

  function InvoicesFor(invoices: seq<Invoice>, termId: Id): nat {
    if invoices == [] then 0
    else InvoicesFor(invoices[..|invoices| - 1], termId)
         + if invoices[|invoices| - 1].termId == termId then 1 else 0
  }

  function Activations(evs: seq<Event>, termId: Id): nat {
    if evs == [] then 0
    else Activations(evs[..|evs| - 1], termId)
         + if evs[|evs| - 1].Activation? && evs[|evs| - 1].termId == termId then 1 else 0
  }

  lemma {:induction false} InvoicesForZero(invoices: seq<Invoice>, termId: Id)
    ensures InvoicesFor(invoices, termId) == 0 <==> !HasInvoice(invoices, termId)
  {
    if invoices != [] {
      var init := invoices[..|invoices| - 1];
      InvoicesForZero(init, termId);
      if i :| 0 <= i < |init| && init[i].termId == termId {
        assert invoices[i].termId == termId;
      }
    }
  }

  /** A bulk run adds an invoice for a term only when it had none. */
  lemma {:induction false} BulkRunAddsAtMostOne(invoices: seq<Invoice>, ts: seq<TenantView>, termId: Id)
    requires LookupsAnswer(ts)
    ensures InvoicesFor(Billed(invoices, ts), termId) == InvoicesFor(invoices, termId)
            || (InvoicesFor(invoices, termId) == 0 && InvoicesFor(Billed(invoices, ts), termId) == 1)
  {
    if ts != [] {
      var init, t := ts[..|ts| - 1], ts[|ts| - 1];
      BulkRunAddsAtMostOne(invoices, init, termId);
      var before := Billed(invoices, init);
      var o := OutcomeFor(before, t);
      if o.Created? {
        InvoicesForZero(before, o.invoice.termId);
        assert (before + [o.invoice])[..|before|] == before;
      }
    }
  }

  /**
    Over every run that mixes bulk runs and activations, a term has at least one invoice per activation and at
    most one more: all duplicates come from activating a term.
   */
  lemma {:induction false} DuplicatesComeFromActivation(evs: seq<Event>, termId: Id)
    requires forall i :: 0 <= i < |evs| && evs[i].Bulk? ==> LookupsAnswer(evs[i].tenants)
    ensures Activations(evs, termId) <= InvoicesFor(ApplyAll([], evs), termId) <= Activations(evs, termId) + 1
  {
    if evs != [] {
      var init, ev := evs[..|evs| - 1], evs[|evs| - 1];
      DuplicatesComeFromActivation(init, termId);
      var before := ApplyAll([], init);
      match ev
      case Bulk(ts) => BulkRunAddsAtMostOne(before, ts, termId);
      case Activation(tenantId, id, students) =>
        assert (before + [TermInvoice(tenantId, id, students)])[..|before|] == before;
    }
  }

  // ---------------------------------------------------------------- billing and the calendar

  /** The view agrees with the calendar's active session and term. */
  predicate SeesCalendar(cal: Calendar.State, t: TenantView) {
    && (t.activeSession.Some? ==> Calendar.IsActiveSession(cal, t.activeSession.value, t.tenantId))
    && (t.activeSession.Some? && t.activeTerm.Some? ==>
          Calendar.IsActiveTerm(cal, t.activeTerm.value, t.activeSession.value))
  }

  /**
    With session and term repositories that leave the status column out of their updates, no bulk run after any
    run of the calendar services bills anybody.
   */
  lemma WithoutStatusNobodyIsBilled(evs: seq<Calendar.Event>, repos: Calendar.Repositories, invoices: seq<Invoice>,
                                    ts: seq<TenantView>)
    requires !repos.savesStatus
    requires forall i :: 0 <= i < |ts| ==> SeesCalendar(Calendar.Final(Calendar.EMPTY, evs, repos), ts[i])
    ensures Billed(invoices, ts) == invoices
  {
    Calendar.WithoutStatusNothingActivates(Calendar.EMPTY, evs, repos);
    forall i | 0 <= i < |ts| ensures BilledOne(invoices, ts[i]) == invoices {
      assert SeesCalendar(Calendar.Final(Calendar.EMPTY, evs, repos), ts[i]);
    }
    RunOfSkips(invoices, ts);
  }

  /** In every reachable calendar, two views of one tenant that found an active session and term found the same ones. */
  lemma ViewsAgree(evs: seq<Calendar.Event>, repos: Calendar.Repositories, a: TenantView, b: TenantView)
    requires Calendar.Run(Calendar.EMPTY, evs, repos) && a.tenantId == b.tenantId
    requires SeesCalendar(Calendar.Final(Calendar.EMPTY, evs, repos), a)
    requires SeesCalendar(Calendar.Final(Calendar.EMPTY, evs, repos), b)
    requires a.activeSession.Some? && b.activeSession.Some? && a.activeTerm.Some? && b.activeTerm.Some?
    ensures a.activeSession == b.activeSession && a.activeTerm == b.activeTerm
  {
    Calendar.ActiveSessionIsUnique(evs, repos, a.tenantId, a.activeSession.value, b.activeSession.value);
    Calendar.ActiveTermIsUnique(evs, repos, a.activeSession.value, a.activeTerm.value, b.activeTerm.value);
  }

  // ---------------------------------------------------------------- what is billed

  /** Why a tenant is not billed, or fails, is the first thing in its way. */
  lemma OutcomeIs(invoices: seq<Invoice>, t: TenantView)
    ensures var o := OutcomeFor(invoices, t);
            && (o == Skipped(NoActiveSession) <==> t.activeSession.None?)
            && (o == Skipped(NoActiveTerm) <==> t.activeSession.Some? && t.activeTerm.None?)
            && (o == Skipped(InvoiceExists) <==>
                t.activeSession.Some? && t.activeTerm.Some? && !t.invoiceLookupFails
                && exists i :: 0 <= i < |invoices| && invoices[i].termId == t.activeTerm.value)
            && (o == Skipped(NoStudents) ==> t.students == Some(0))
            && (o == Failed ==> t.students.None? || t.generateFails)
            && (o.Created? ==> Billable(t) && RightInvoice(o.invoice, t))
            && (Billable(t) ==> o.Created? || o == Skipped(InvoiceExists))
  {
  }

  /** The invoice bills the tenant, for its active term, 500 naira for every student counted. */
  predicate RightInvoice(i: Invoice, t: TenantView) {
    && t.activeTerm.Some? && t.students.Some?
    && i.tenantId == t.tenantId && i.termId == t.activeTerm.value && i.studentCount == t.students.value
    && i.subtotal == 500 * 100 * i.studentCount && i.tax == 0 && i.discount == 0
    && i.total == i.subtotal + i.tax - i.discount
  }

  /** Every invoice a run adds is the right one for one of its tenants. */
  lemma {:induction false} AddedInvoicesAreRight(invoices: seq<Invoice>, ts: seq<TenantView>, i: nat)
    requires |invoices| <= i < |Billed(invoices, ts)|
    ensures exists j :: 0 <= j < |ts| && RightInvoice(Billed(invoices, ts)[i], ts[j])
  {
    if ts != [] {
      var init, t := ts[..|ts| - 1], ts[|ts| - 1];
      var before := Billed(invoices, init);
      if i < |before| {
        AddedInvoicesAreRight(invoices, init, i);
        var j :| 0 <= j < |init| && RightInvoice(before[i], init[j]);
        assert RightInvoice(Billed(invoices, ts)[i], ts[j]);
      } else {
        OutcomeIs(before, t);
        assert RightInvoice(Billed(invoices, ts)[i], ts[|ts| - 1]);
      }
    }
  }

  /** Activation bills its term for its tenant when the students could be counted and the invoice be made. */
  lemma ActivationBills(cal: Calendar.State, invoices: seq<Invoice>, termId: Id, tenantId: Id, students: Option<nat>,
                        generateFails: bool, repos: Calendar.Repositories)
    ensures var (cal', after) := ActivatedAndBilled(cal, invoices, termId, tenantId, students, generateFails, repos);
            && cal' == Calendar.Apply(cal, Calendar.ActivateTerm(termId), repos)
            && var bills := Calendar.TermActivated(cal, termId, repos).Success? && students.Some? && !generateFails;
            && (!bills ==> after == invoices)
            && (bills ==>
                  && |after| == |invoices| + 1 && invoices <= after
                  && var i := after[|invoices|];
                  && i.tenantId == tenantId && i.termId == termId && i.studentCount == students.value
                  && i.total == i.subtotal == 500 * 100 * students.value && i.tax == 0 && i.discount == 0)
  {
  }
}
