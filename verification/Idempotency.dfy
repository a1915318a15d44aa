/**
  The idempotency middleware (internal/middleware/idempotency.go) over its Redis store
  (internal/pkg/idempotency/store.go).

  Every Redis call is one atomic step. Any number of requests take their steps in any order.
  `Act` says what one step of one request does to the Redis cell of that request;
  `Next` and `Exec` interleave the requests over the whole store.
 */
module Idempotency {
  import opened Wrappers
  import opened JsonValues

  /** The 36-character text form of a UUID. */
  type Uuid = s: string | |s| == 36 witness seq(36, _ => '0')

  /** The tenant used when the request carries none. */
  const GLOBAL_TENANT: Uuid := seq(36, i => if i in {8, 13, 18, 23} then '-' else '0')

  /** What a response body unmarshals to when a map is asked for: JSON null gives a nil map and no error. */
  datatype Body = NullBody | ObjectBody(fields: map<string, Json>)

  datatype StoredResponse = StoredResponse(statusCode: int, responseBody: Body)

  /** What Redis holds under a key: the "processing" marker or a marshalled response. */
  datatype Cell = Processing | Stored(response: StoredResponse)

  /** How a Redis call may fail: before it took effect, or after. */
  datatype Fault = NoFault | RequestLost | ReplyLost

  datatype HttpMethod = Get | Head | Options | Post | Put | Patch | Delete

  predicate Mutating(m: HttpMethod) {
    m.Post? || m.Put? || m.Patch? || m.Delete?
  }

  predicate OkStatus(status: int) {
    200 <= status < 400
  }

  const KEY_PREFIX := "idempotency"

  function BuildKey(tenant: Uuid, key: string): string {
    KEY_PREFIX + ":" + tenant + ":" + key
  }

  /** Fixed-length tenant ids keep the colon-separated keys apart, whatever the client's key contains. */
  lemma BuildKeyInjective(t1: Uuid, k1: string, t2: Uuid, k2: string)
    requires BuildKey(t1, k1) == BuildKey(t2, k2)
    ensures t1 == t2 && k1 == k2
  {
    var a, b := BuildKey(t1, k1), BuildKey(t2, k2);
    var n := |KEY_PREFIX| + 1;
    assert a[n..n + 36] == t1 && b[n..n + 36] == t2;
    assert a[n + 37..] == k1 && b[n + 37..] == k2;
  }

  // ---------------------------------------------------------------- one request

  datatype Outcome =
    | BadKey                                   // 400: the key's length is out of range
    | Replayed(response: StoredResponse)       // the cached response
    | ConflictUnfinished                       // 409: the cached response has status 0
    | ConflictHeld                             // 409: another request holds the key
    | Served(status: int)                      // the handler ran under the key
    | Panicked                                 // the handler ran under the key and panicked
    | ServedUnguarded(status: int)             // the handler ran without the key
    | PanickedUnguarded

  /** Where a request stands between two atomic steps. */
  datatype Pc =
    | AtGet
    | AtAcquire
    | Running
    | AtStore(status: int, body: Body)
    | AtDelete(status: int)
    | Unguarded
    | Finished(outcome: Outcome)

  datatype Event =
    | DoGet(fault: Fault)
    | DoAcquire(fault: Fault)
    | HandlerReturns(status: int, body: Option<Body>)   // None: the body is neither an object nor null
    | HandlerPanics
    | DoStore(fault: Fault)
    | DoDelete(fault: Fault)

  /** The checks made before Redis is asked. */
  function Admit(m: HttpMethod, key: string): Pc {
    if !Mutating(m) || key == "" then Unguarded
    else if |key| < 16 || |key| > 128 then Finished(BadKey)
    else AtGet
  }

  /**
    One atomic step of one request: the new cell and where the request stands. An event that does not fit is skipped.
   */
  function Act(cell: Option<Cell>, pc: Pc, ev: Event): (Option<Cell>, Pc) {
    match (pc, ev)
    case (AtGet, DoGet(fault)) =>
      (cell,
       if !fault.NoFault? then Unguarded
       else if cell.Some? && cell.value.Stored? then
         (if cell.value.response.statusCode == 0 then Finished(ConflictUnfinished)
          else Finished(Replayed(cell.value.response)))
       else AtAcquire)
    case (AtAcquire, DoAcquire(fault)) =>
      (if fault.RequestLost? || cell.Some? then cell else Some(Processing),
       if !fault.NoFault? then Unguarded
       else if cell.Some? then Finished(ConflictHeld)
       else Running)
    case (Running, HandlerReturns(status, body)) =>
      (cell,
       if !OkStatus(status) then AtDelete(status)
       else if body.Some? then AtStore(status, body.value)
       else Finished(Served(status)))
    case (Running, HandlerPanics) => (cell, Finished(Panicked))
    case (Unguarded, HandlerReturns(status, _)) => (cell, Finished(ServedUnguarded(status)))
    case (Unguarded, HandlerPanics) => (cell, Finished(PanickedUnguarded))
    case (AtStore(status, body), DoStore(fault)) =>
      (if fault.RequestLost? then cell else Some(Stored(StoredResponse(status, body))),
       Finished(Served(status)))
    case (AtDelete(status), DoDelete(fault)) =>
      (if fault.RequestLost? then cell else None, Finished(Served(status)))
    case _ => (cell, pc)
  }

  function ActAll(cell: Option<Cell>, pc: Pc, evs: seq<Event>): (Option<Cell>, Pc)
    decreases evs
  {
    if evs == [] then (cell, pc)
    else
      var (cell', pc') := Act(cell, pc, evs[0]);
      ActAll(cell', pc', evs[1..])
  }

  // ---------------------------------------------------------------- the store and the middleware

  function Lookup(cells: map<string, Cell>, k: string): Option<Cell> {
    if k in cells then Some(cells[k]) else None
  }

  function Put(cells: map<string, Cell>, k: string, cell: Option<Cell>): map<string, Cell> {
    match cell
    case Some(c) => cells[k := c]
    case None => cells - {k}
  }

  class Store {
    var client: map<string, Cell>

    /** SET NX with the "processing" marker. */
    method TryAcquire(tenant: Uuid, key: string, fault: Fault) returns (r: Result<bool, string>)
      modifies this
      ensures client == if fault.RequestLost? || BuildKey(tenant, key) in old(client) then old(client)
                        else old(client)[BuildKey(tenant, key) := Processing]
      ensures r == if fault.NoFault? then Success(BuildKey(tenant, key) !in old(client))
                   else Failure("failed to acquire idempotency key")
    {
      var k := BuildKey(tenant, key);
      var success := k !in client;
      if !fault.RequestLost? && success {
        client := client[k := Processing];
      }
      if fault.NoFault? {
        return Success(success);
      }
      return Failure("failed to acquire idempotency key");
    }

    /** The stored response; nothing when the key is absent or still "processing". */
    method Get(tenant: Uuid, key: string, fault: Fault) returns (r: Result<Option<StoredResponse>, string>)
      ensures !fault.NoFault? ==> r.Failure?
      ensures fault.NoFault? ==>
                r.Success? && forall resp ::
                  r.value == Some(resp) <==> Lookup(client, BuildKey(tenant, key)) == Some(Stored(resp))
    {
      var k := BuildKey(tenant, key);
      if !fault.NoFault? {
        return Failure("failed to get idempotency key");
      }
      if k !in client {
        return Success(None);
      }
      if client[k] == Processing {
        return Success(None);
      }
      return Success(Some(client[k].response));
    }

    method Put(tenant: Uuid, key: string, statusCode: int, responseBody: Body, fault: Fault)
      returns (r: Result<(), string>)
      modifies this
      ensures client == if fault.RequestLost? then old(client)
                        else old(client)[BuildKey(tenant, key) := Stored(StoredResponse(statusCode, responseBody))]
      ensures r.Success? <==> fault.NoFault?
    {
      if !fault.RequestLost? {
        client := client[BuildKey(tenant, key) := Stored(StoredResponse(statusCode, responseBody))];
      }
      if fault.NoFault? {
        return Success(());
      }
      return Failure("failed to store response");
    }

    method Delete(tenant: Uuid, key: string, fault: Fault) returns (r: Result<(), string>)
      modifies this
      ensures client == if fault.RequestLost? then old(client) else old(client) - {BuildKey(tenant, key)}
      ensures r.Success? <==> fault.NoFault?
    {
      if !fault.RequestLost? {
        client := client - {BuildKey(tenant, key)};
      }
      if fault.NoFault? {
        return Success(());
      }
      return Failure("failed to delete idempotency key");
    }
  }

  /** What the wrapped handler does; `body` is the captured response body after unmarshalling. */
  datatype Handler = Returns(status: int, body: Option<Body>) | Panics

  function HandlerEvent(h: Handler): Event {
    match h
    case Returns(status, body) => HandlerReturns(status, body)
    case Panics => HandlerPanics
  }

  /** The Redis faults one request meets. */
  datatype Faults = Faults(get: Fault, acquire: Fault, put: Fault, delete: Fault)

  function EndEvents(f: Faults): seq<Event> {
    [DoStore(f.put), DoDelete(f.delete)]
  }

  function AcquireEvents(f: Faults, h: Handler): seq<Event> {
    [DoAcquire(f.acquire)] + [HandlerEvent(h)] + EndEvents(f)
  }

  /** Get, TryAcquire, the handler, Store, Delete: the steps that do not fit are skipped. */
  function SoloEvents(f: Faults, h: Handler): seq<Event> {
    [DoGet(f.get), DoAcquire(f.acquire)] + [HandlerEvent(h)] + EndEvents(f)
  }

  lemma ActAllCons(cell: Option<Cell>, pc: Pc, ev: Event, evs: seq<Event>)
    ensures ActAll(cell, pc, [ev] + evs) == ActAll(Act(cell, pc, ev).0, Act(cell, pc, ev).1, evs)
  {
    assert ([ev] + evs)[1..] == evs;
  }

  /** Runs the steps of a request that has left the handler's guard: only its handler's event matters. */
  lemma ActAllUnguarded(cell: Option<Cell>, h: Handler, before: seq<Event>, after: seq<Event>)
    requires forall ev :: ev in before ==> ev.DoGet? || ev.DoAcquire?
    ensures ActAll(cell, Unguarded, before + [HandlerEvent(h)] + after) ==
            (cell, Finished(if h.Panics? then PanickedUnguarded else ServedUnguarded(h.status)))
  {
    if before == [] {
      ActAllCons(cell, Unguarded, HandlerEvent(h), after);
      ActAllFinished(cell, if h.Panics? then PanickedUnguarded else ServedUnguarded(h.status), after);
      assert before + [HandlerEvent(h)] + after == [HandlerEvent(h)] + after;
    } else {
      ActAllCons(cell, Unguarded, before[0], before[1..] + [HandlerEvent(h)] + after);
      ActAllUnguarded(cell, h, before[1..], after);
      assert before + [HandlerEvent(h)] + after == [before[0]] + (before[1..] + [HandlerEvent(h)] + after);
    }
  }

  lemma ActAllFinished(cell: Option<Cell>, outcome: Outcome, evs: seq<Event>)
    ensures ActAll(cell, Finished(outcome), evs) == (cell, Finished(outcome))
  {
  }

  const NO_FAULTS := Faults(NoFault, NoFault, NoFault, NoFault)

  /**
    What one request does to the keys and how it ends when Redis answers: a request without a key, or that changes
    nothing, runs its handler; a stored response is replayed; a held key is a conflict; and a free key is held while
    the handler runs, then keeps a successful response, is freed after a failure, and stays held after a panic or a
    success whose body cannot be kept.
   */
  ghost predicate Promised(m: HttpMethod, key: string, k: string, handler: Handler, before: map<string, Cell>,
                           after: map<string, Cell>, outcome: Outcome)
  {
    if m.Get? || m.Head? || m.Options? || key == "" then
      after == before && outcome == if handler.Panics? then PanickedUnguarded else ServedUnguarded(handler.status)
    else if |key| < 16 || |key| > 128 then
      after == before && outcome == BadKey
    else if k in before then
      && after == before
      && match before[k]
         case Processing => outcome == ConflictHeld
         case Stored(r) => outcome == if r.statusCode == 0 then ConflictUnfinished else Replayed(r)
    else
      match handler
      case Panics => outcome == Panicked && after == before[k := Processing]
      case Returns(status, body) =>
        && outcome == Served(status)
        && after == if status < 200 || 400 <= status then before
                    else if body.Some? then before[k := Stored(StoredResponse(status, body.value))]
                    else before[k := Processing]
  }

  lemma SoloSteps(cell: Option<Cell>, pc: Pc, h: Handler)
    ensures var r1 := Act(cell, pc, DoGet(NoFault));
            var r2 := Act(r1.0, r1.1, DoAcquire(NoFault));
            var r3 := Act(r2.0, r2.1, HandlerEvent(h));
            var r4 := Act(r3.0, r3.1, DoStore(NoFault));
            ActAll(cell, pc, SoloEvents(NO_FAULTS, h)) == Act(r4.0, r4.1, DoDelete(NoFault))
  {
    var get, acquire, run := DoGet(NoFault), DoAcquire(NoFault), HandlerEvent(h);
    var put, del := DoStore(NoFault), DoDelete(NoFault);
    var r1 := Act(cell, pc, get);
    var r2 := Act(r1.0, r1.1, acquire);
    var r3 := Act(r2.0, r2.1, run);
    var r4 := Act(r3.0, r3.1, put);
    assert SoloEvents(NO_FAULTS, h) == [get] + ([acquire] + ([run] + ([put] + ([del] + []))));
    ActAllCons(cell, pc, get, [acquire] + ([run] + ([put] + ([del] + []))));
    ActAllCons(r1.0, r1.1, acquire, [run] + ([put] + ([del] + [])));
    ActAllCons(r2.0, r2.1, run, [put] + ([del] + []));
    ActAllCons(r3.0, r3.1, put, [del] + []);
    ActAllCons(r4.0, r4.1, del, []);
  }

  lemma PutLookup(before: map<string, Cell>, after: map<string, Cell>, k: string, cell: Option<Cell>)
    requires Lookup(after, k) == cell && after - {k} == before - {k}
    ensures after == Put(before, k, cell)
  {
    forall j | j != k
      ensures j in after <==> j in before
      ensures j in after ==> after[j] == before[j]
    {
      assert j in after - {k} <==> j in before - {k};
      if j in after {
        assert (after - {k})[j] == (before - {k})[j];
      }
    }
  }

  lemma StepsKeepPromise(m: HttpMethod, key: string, k: string, h: Handler, before: map<string, Cell>,
                         after: map<string, Cell>, outcome: Outcome)
    requires (Lookup(after, k), Finished(outcome))
             == ActAll(Lookup(before, k), Admit(m, key), SoloEvents(NO_FAULTS, h))
    requires after - {k} == before - {k}
    ensures Promised(m, key, k, h, before, after, outcome)
  {
    SoloSteps(Lookup(before, k), Admit(m, key), h);
    PutLookup(before, after, k, Lookup(after, k));
  }

  class Middleware {
    const store: Store

    constructor (store: Store)
      ensures this.store == store
    {
      this.store := store;
    }

    /**
      The middleware run to its end by one request: exactly the protocol's steps, on that request's cell only; and,
      when Redis answers every call, what the client is promised.
     */
    method Handle(m: HttpMethod, tenantId: Option<Uuid>, key: string, handler: Handler, faults: Faults)
      returns (outcome: Outcome)
      modifies store
      ensures
        var k := BuildKey(if tenantId.Some? then tenantId.value else GLOBAL_TENANT, key);
        && (Lookup(store.client, k), Finished(outcome)) ==
           ActAll(Lookup(old(store.client), k), Admit(m, key), SoloEvents(faults, handler))
        && store.client - {k} == old(store.client) - {k}
        && (faults == NO_FAULTS ==> Promised(m, key, k, handler, old(store.client), store.client, outcome))
    {
      var tenant := if tenantId.Some? then tenantId.value else GLOBAL_TENANT;
      outcome := HandleTenant(m, tenant, key, handler, faults);
      if faults == NO_FAULTS {
        StepsKeepPromise(m, key, BuildKey(tenant, key), handler, old(store.client), store.client, outcome);
      }
    }

    /** The same for the tenant the request is counted under. */
    method HandleTenant(m: HttpMethod, tenant: Uuid, key: string, handler: Handler, faults: Faults)
      returns (outcome: Outcome)
      modifies store
      ensures (Lookup(store.client, BuildKey(tenant, key)), Finished(outcome)) ==
              ActAll(Lookup(old(store.client), BuildKey(tenant, key)), Admit(m, key), SoloEvents(faults, handler))
      ensures store.client - {BuildKey(tenant, key)} == old(store.client) - {BuildKey(tenant, key)}
    {
      ghost var cell := Lookup(store.client, BuildKey(tenant, key));
      if !Mutating(m) || key == "" {
        ActAllUnguarded(cell, handler, [DoGet(faults.get), DoAcquire(faults.acquire)], EndEvents(faults));
        outcome := RunUnguarded(handler);
        return;
      }
      if |key| < 16 || |key| > 128 {
        ActAllFinished(cell, BadKey, SoloEvents(faults, handler));
        return BadKey;
      }
      outcome := HandleKeyed(tenant, key, handler, faults);
    }

    /** From the cache lookup on. */
    method HandleKeyed(tenant: Uuid, key: string, handler: Handler, faults: Faults) returns (outcome: Outcome)
      modifies store
      ensures (Lookup(store.client, BuildKey(tenant, key)), Finished(outcome)) ==
              ActAll(Lookup(old(store.client), BuildKey(tenant, key)), AtGet, SoloEvents(faults, handler))
      ensures store.client - {BuildKey(tenant, key)} == old(store.client) - {BuildKey(tenant, key)}
    {
      ghost var cell := Lookup(store.client, BuildKey(tenant, key));
      ghost var rest := AcquireEvents(faults, handler);
      ActAllCons(cell, AtGet, DoGet(faults.get), rest);
      assert SoloEvents(faults, handler) == [DoGet(faults.get)] + rest;
      var cached := store.Get(tenant, key, faults.get);
      if cached.Failure? {
        ActAllUnguarded(cell, handler, [DoAcquire(faults.acquire)], EndEvents(faults));
        outcome := RunUnguarded(handler);
        return;
      }
      if cached.value.Some? {
        if cached.value.value.statusCode == 0 {
          ActAllFinished(cell, ConflictUnfinished, rest);
          return ConflictUnfinished;
        }
        ActAllFinished(cell, Replayed(cached.value.value), rest);
        return Replayed(cached.value.value);
      }
      outcome := HandleMiss(tenant, key, handler, faults);
    }

    /** From the attempt to acquire the key on. */
    method HandleMiss(tenant: Uuid, key: string, handler: Handler, faults: Faults) returns (outcome: Outcome)
      modifies store
      ensures (Lookup(store.client, BuildKey(tenant, key)), Finished(outcome)) ==
              ActAll(Lookup(old(store.client), BuildKey(tenant, key)), AtAcquire, AcquireEvents(faults, handler))
      ensures store.client - {BuildKey(tenant, key)} == old(store.client) - {BuildKey(tenant, key)}
    {
      ghost var cell := Lookup(store.client, BuildKey(tenant, key));
      ghost var rest := [HandlerEvent(handler)] + EndEvents(faults);
      ActAllCons(cell, AtAcquire, DoAcquire(faults.acquire), rest);
      assert AcquireEvents(faults, handler) == [DoAcquire(faults.acquire)] + rest;
      var acquired := store.TryAcquire(tenant, key, faults.acquire);
      if acquired.Failure? {
        ActAllUnguarded(Lookup(store.client, BuildKey(tenant, key)), handler, [], EndEvents(faults));
        assert [] + [HandlerEvent(handler)] + EndEvents(faults) == rest;
        outcome := RunUnguarded(handler);
        return;
      }
      if !acquired.value {
        ActAllFinished(cell, ConflictHeld, rest);
        return ConflictHeld;
      }
      outcome := RunGuarded(tenant, key, handler, faults);
    }

    /** The part of the middleware that runs once the key is acquired. */
    method RunGuarded(tenant: Uuid, key: string, handler: Handler, faults: Faults) returns (outcome: Outcome)
      requires Lookup(store.client, BuildKey(tenant, key)) == Some(Processing)
      modifies store
      ensures (Lookup(store.client, BuildKey(tenant, key)), Finished(outcome)) ==
              ActAll(Some(Processing), Running, [HandlerEvent(handler)] + EndEvents(faults))
      ensures store.client - {BuildKey(tenant, key)} == old(store.client) - {BuildKey(tenant, key)}
      ensures handler.Panics? ==>
                outcome == Panicked && Lookup(store.client, BuildKey(tenant, key)) == Some(Processing)
      ensures handler.Returns? ==>
                && outcome == Served(handler.status)
                && Lookup(store.client, BuildKey(tenant, key)) ==
                   if 200 <= handler.status < 400 then
                     if handler.body.Some? && !faults.put.RequestLost?
                     then Some(Stored(StoredResponse(handler.status, handler.body.value))) else Some(Processing)
                   else if faults.delete.RequestLost? then Some(Processing) else None
    {
      ghost var put, del, cell := DoStore(faults.put), DoDelete(faults.delete), Some(Processing);
      ActAllCons(cell, Running, HandlerEvent(handler), EndEvents(faults));
      ghost var pc := Act(cell, Running, HandlerEvent(handler)).1;
      ActAllCons(cell, pc, put, [del]);
      assert [put, del] == [put] + [del];
      ActAllCons(Act(cell, pc, put).0, Act(cell, pc, put).1, del, []);
      assert [del] == [del] + [];
      match handler
      case Panics =>
        return Panicked;
      case Returns(status, body) =>
        if OkStatus(status) {
          if body.Some? {
            var _ := store.Put(tenant, key, status, body.value, faults.put);
          }
        } else {
          var _ := store.Delete(tenant, key, faults.delete);
        }
        return Served(status);
    }

    method RunUnguarded(handler: Handler) returns (outcome: Outcome)
      ensures outcome == if handler.Panics? then PanickedUnguarded else ServedUnguarded(handler.status)
    {
      match handler
      case Panics => return PanickedUnguarded;
      case Returns(status, _) => return ServedUnguarded(status);
    }
  }

  // ---------------------------------------------------------------- all requests

  datatype Request = Request(tenant: Uuid, key: string, pc: Pc)

  datatype System = System(cells: map<string, Cell>, requests: map<nat, Request>)

  datatype Label =
    | Arrive(id: nat, httpMethod: HttpMethod, tenant: Uuid, key: string)
    | Step(id: nat, event: Event)

  function CellKey(q: Request): string {
    BuildKey(q.tenant, q.key)
  }

  function Next(s: System, l: Label): System {
    match l
    case Arrive(id, m, tenant, key) =>
      if id in s.requests then s
      else s.(requests := s.requests[id := Request(tenant, key, Admit(m, key))])
    case Step(id, ev) =>
      if id !in s.requests then s
      else
        var q := s.requests[id];
        var (cell, pc) := Act(Lookup(s.cells, CellKey(q)), q.pc, ev);
        System(Put(s.cells, CellKey(q), cell), s.requests[id := q.(pc := pc)])
  }

  function Exec(s: System, ls: seq<Label>): System
    decreases ls
  {
    if ls == [] then s else Exec(Next(s, ls[0]), ls[1..])
  }

  const START := System(map[], map[])

  /** The request owns its cell: nobody else may write it. */
  predicate Holds(pc: Pc) {
    pc.Running? || pc.AtStore? || pc.AtDelete?
  }

  /** The request's handler ran under the key and ended in 2xx or 3xx. */
  predicate Succeeded(pc: Pc) {
    pc.AtStore? || (pc.Finished? && pc.outcome.Served? && OkStatus(pc.outcome.status))
  }

  predicate Claims(pc: Pc) {
    Holds(pc) || Succeeded(pc)
  }

  /** What every reachable system satisfies. */
  ghost predicate Inv(s: System) {
    && (forall id :: id in s.requests ==> LocalInv(s.cells, s.requests[id]))
    && (forall i, j :: i in s.requests && j in s.requests && i != j
          && CellKey(s.requests[i]) == CellKey(s.requests[j])
          ==> !(Claims(s.requests[i].pc) && Claims(s.requests[j].pc)))
    && (forall k :: k in s.cells && s.cells[k].Stored? ==> Backed(s, k))
  }

  predicate LocalInv(cells: map<string, Cell>, q: Request) {
    && (Claims(q.pc) ==> CellKey(q) in cells)
    && (Holds(q.pc) ==> cells[CellKey(q)] == Processing)
    && (q.pc.AtStore? ==> OkStatus(q.pc.status))
    && (q.pc.AtDelete? ==> !OkStatus(q.pc.status))
    && q.pc != Finished(ConflictUnfinished)
  }

  /** A stored response is the successful result of a request that ran under the key. */
  ghost predicate Backed(s: System, k: string)
    requires k in s.cells && s.cells[k].Stored?
  {
    && OkStatus(s.cells[k].response.statusCode)
    && exists id :: id in s.requests && CellKey(s.requests[id]) == k
                    && s.requests[id].pc == Finished(Served(s.cells[k].response.statusCode))
  }

  /** How one step can change the cell and the request's claim on it. */
  lemma ActFacts(cell: Option<Cell>, pc: Pc, ev: Event)
    ensures var (cell', pc') := Act(cell, pc, ev);
            && (Claims(pc') && !Claims(pc) ==> cell.None? && cell' == Some(Processing) && pc'.Running?)
            && (cell' != cell ==> Holds(pc) || (cell.None? && cell' == Some(Processing)))
            && (Holds(pc') && pc' != pc ==> cell' == cell || pc.AtAcquire?)
            && (cell' != cell && cell'.Some? && cell'.value.Stored? ==>
                  pc.AtStore? && pc' == Finished(Served(pc.status)) && cell'.value.response.statusCode == pc.status)
            && (pc.Finished? ==> pc' == pc && cell' == cell)
  {
  }

  lemma NextKeepsLocalInv(s: System, l: Label, id: nat)
    requires Inv(s) && id in Next(s, l).requests
    ensures LocalInv(Next(s, l).cells, Next(s, l).requests[id])
  {
    if l.Step? && l.id in s.requests {
      var q := s.requests[l.id];
      ActFacts(Lookup(s.cells, CellKey(q)), q.pc, l.event);
      if id != l.id && CellKey(s.requests[id]) == CellKey(q) && Claims(s.requests[id].pc) {
        assert !Claims(q.pc);
      }
    }
  }

  lemma NextKeepsOneClaim(s: System, l: Label, i: nat, j: nat)
    requires Inv(s) && i in Next(s, l).requests && j in Next(s, l).requests && i != j
    requires CellKey(Next(s, l).requests[i]) == CellKey(Next(s, l).requests[j])
    ensures !(Claims(Next(s, l).requests[i].pc) && Claims(Next(s, l).requests[j].pc))
  {
    if l.Step? && l.id in s.requests {
      var q := s.requests[l.id];
      ActFacts(Lookup(s.cells, CellKey(q)), q.pc, l.event);
    }
  }

  lemma NextKeepsBacked(s: System, l: Label, k: string)
    requires Inv(s) && k in Next(s, l).cells && Next(s, l).cells[k].Stored?
    ensures Backed(Next(s, l), k)
  {
    var s' := Next(s, l);
    if l.Step? && l.id in s.requests {
      var q := s.requests[l.id];
      ActFacts(Lookup(s.cells, CellKey(q)), q.pc, l.event);
    }
    if k in s.cells && s.cells[k] == s'.cells[k] {
      var id :| id in s.requests && CellKey(s.requests[id]) == k
                && s.requests[id].pc == Finished(Served(s.cells[k].response.statusCode));
      assert s'.requests[id] == s.requests[id];
    } else {
      assert CellKey(s'.requests[l.id]) == k;
    }
  }

  lemma NextKeepsInv(s: System, l: Label)
    requires Inv(s)
    ensures Inv(Next(s, l))
  {
    forall id | id in Next(s, l).requests ensures LocalInv(Next(s, l).cells, Next(s, l).requests[id]) {
      NextKeepsLocalInv(s, l, id);
    }
    forall i, j | i in Next(s, l).requests && j in Next(s, l).requests && i != j
                  && CellKey(Next(s, l).requests[i]) == CellKey(Next(s, l).requests[j])
      ensures !(Claims(Next(s, l).requests[i].pc) && Claims(Next(s, l).requests[j].pc))
    {
      NextKeepsOneClaim(s, l, i, j);
    }
    forall k | k in Next(s, l).cells && Next(s, l).cells[k].Stored? ensures Backed(Next(s, l), k) {
      NextKeepsBacked(s, l, k);
    }
  }

  lemma {:induction false} ExecKeepsInv(s: System, ls: seq<Label>)
    requires Inv(s)
    ensures Inv(Exec(s, ls))
    decreases ls
  {
    if ls != [] {
      NextKeepsInv(s, ls[0]);
      ExecKeepsInv(Next(s, ls[0]), ls[1..]);
    }
  }

  lemma ReachableInv(ls: seq<Label>)
    ensures Inv(Exec(START, ls))
  {
    ExecKeepsInv(START, ls);
  }

  /**
    In every interleaving and under every Redis fault: two requests for the same tenant and key never both
    hold it (so at most one guarded handler runs), at most one guarded handler run ever succeeds, and once one
    has, none runs any more.
   */
  lemma AtMostOnce(ls: seq<Label>, i: nat, j: nat)
    requires i in Exec(START, ls).requests && j in Exec(START, ls).requests && i != j
    requires Exec(START, ls).requests[i].tenant == Exec(START, ls).requests[j].tenant
    requires Exec(START, ls).requests[i].key == Exec(START, ls).requests[j].key
    ensures !(Holds(Exec(START, ls).requests[i].pc) && Holds(Exec(START, ls).requests[j].pc))
    ensures !(Succeeded(Exec(START, ls).requests[i].pc) && Succeeded(Exec(START, ls).requests[j].pc))
    ensures !(Succeeded(Exec(START, ls).requests[i].pc) && Holds(Exec(START, ls).requests[j].pc))
  {
    ReachableInv(ls);
  }

  /** A stored response never has status 0, so the 409 for an unfinished cached response is never sent. */
  lemma UnfinishedConflictUnreachable(ls: seq<Label>, id: nat)
    requires id in Exec(START, ls).requests
    ensures Exec(START, ls).requests[id].pc != Finished(ConflictUnfinished)
  {
    ReachableInv(ls);
  }

  // ---------------------------------------------------------------- the write-once cell

  /** The abstract cell the protocol implements: written at most once, and stuck when the outcome is lost. */
  datatype WriteOnce = Empty | Busy(owner: nat) | Done(response: StoredResponse) | Stuck

  ghost function Abstract(s: System, k: string): WriteOnce {
    if k !in s.cells then Empty
    else if s.cells[k].Stored? then Done(s.cells[k].response)
    else if exists id :: HolderOf(s, k, id) then
      var id :| HolderOf(s, k, id);
      Busy(id)
    else Stuck
  }

  ghost predicate HolderOf(s: System, k: string, id: nat) {
    id in s.requests && CellKey(s.requests[id]) == k && Holds(s.requests[id].pc)
  }

  /** Done and Stuck are final; a busy cell changes only by its owner giving up, succeeding or vanishing. */
  predicate WriteOnceStep(a: WriteOnce, b: WriteOnce) {
    || a == b
    || (a.Empty? && (b.Busy? || b.Stuck?))
    || (a.Busy? && (b.Empty? || b.Done? || b.Stuck?))
  }

  lemma HolderUnique(s: System, k: string, i: nat, j: nat)
    requires Inv(s) && HolderOf(s, k, i) && HolderOf(s, k, j)
    ensures i == j
  {
  }

  lemma AbstractBusy(s: System, k: string, id: nat)
    requires Inv(s) && HolderOf(s, k, id)
    ensures Abstract(s, k) == Busy(id)
  {
    var j :| HolderOf(s, k, j) && Abstract(s, k) == Busy(j);
    HolderUnique(s, k, id, j);
  }

  /** Every concrete step is a step of the write-once cell, on every key at once. */
  lemma RefinesWriteOnce(s: System, l: Label, k: string)
    requires Inv(s)
    ensures WriteOnceStep(Abstract(s, k), Abstract(Next(s, l), k))
  {
    var s' := Next(s, l);
    NextKeepsInv(s, l);
    if l.Step? && l.id in s.requests {
      var q := s.requests[l.id];
      ActFacts(Lookup(s.cells, CellKey(q)), q.pc, l.event);
    }
    if id :| HolderOf(s, k, id) {
      AbstractBusy(s, k, id);
      if HolderOf(s', k, id) {
        AbstractBusy(s', k, id);
      } else {
        forall j ensures !HolderOf(s', k, j) {
          assert HolderOf(s', k, j) ==> HolderOf(s, k, j);
        }
      }
    } else if j :| HolderOf(s', k, j) {
      AbstractBusy(s', k, j);
      assert !HolderOf(s, k, j);
      assert k !in s.cells;
    } else {
      assert !HolderOf(s, k, l.id);
    }
  }

  /**
    Only its owner moves a busy cell: the step that ends Busy(id) is one of request `id`, and a response appears in
    the cell only as that request's own.
   */
  lemma BusyCellMovesByOwner(s: System, l: Label, k: string, id: nat)
    requires Inv(s) && HolderOf(s, k, id) && Abstract(Next(s, l), k) != Busy(id)
    ensures l.Step? && l.id == id
    ensures var a := Abstract(Next(s, l), k);
            a.Done? ==> s.requests[id].pc == AtStore(a.response.statusCode, a.response.responseBody)
  {
    var s' := Next(s, l);
    NextKeepsInv(s, l);
    AbstractBusy(s, k, id);
    if HolderOf(s', k, id) {
      AbstractBusy(s', k, id);
    } else {
      assert l.Step? && l.id == id;
    }
  }

  /** Where a handler's end leads: to Store, to Delete, or to neither. */
  lemma HandlerEnds(s: System, id: nat, status: int, body: Option<Body>)
    requires id in s.requests && s.requests[id].pc.Running?
    ensures Next(s, Step(id, HandlerPanics)).requests[id].pc == Finished(Panicked)
    ensures Next(s, Step(id, HandlerReturns(status, body))).requests[id].pc ==
            if status < 200 || 400 <= status then AtDelete(status)
            else if body.Some? then AtStore(status, body.value) else Finished(Served(status))
  {
  }

  /** The owner's store takes effect in this step, its delete does, or the owner goes without either. */
  predicate Stores(pc: Pc, ev: Event, r: StoredResponse) {
    pc == AtStore(r.statusCode, r.responseBody) && ev.DoStore? && !ev.fault.RequestLost?
  }

  predicate Deletes(pc: Pc, ev: Event) {
    pc.AtDelete? && ev.DoDelete? && !ev.fault.RequestLost?
  }

  predicate Abandons(pc: Pc, ev: Event) {
    || (pc.Running? && ev.HandlerPanics?)
    || (pc.Running? && ev.HandlerReturns? && 200 <= ev.status < 400 && ev.body.None?)
    || (pc.AtStore? && ev.DoStore? && ev.fault.RequestLost?)
    || (pc.AtDelete? && ev.DoDelete? && ev.fault.RequestLost?)
  }

  /** A busy cell becomes done, empty or stuck exactly when its owner's store or delete takes effect, or neither. */
  lemma BusyEndsIff(s: System, id: nat, ev: Event, k: string, r: StoredResponse)
    requires Inv(s) && HolderOf(s, k, id)
    ensures var pc, a := s.requests[id].pc, Abstract(Next(s, Step(id, ev)), k);
            && (a == Done(r) <==> Stores(pc, ev, r))
            && (a == Empty <==> Deletes(pc, ev))
            && (a == Stuck <==> Abandons(pc, ev))
  {
    var l, s' := Step(id, ev), Next(s, Step(id, ev));
    NextKeepsInv(s, l);
    AbstractBusy(s, k, id);
    if HolderOf(s', k, id) {
      AbstractBusy(s', k, id);
    } else {
      forall j ensures !HolderOf(s', k, j) {
        if j != id && HolderOf(s', k, j) {
          assert HolderOf(s, k, j);
          HolderUnique(s, k, id, j);
        }
      }
    }
  }

  lemma ExecOne(s: System, l: Label)
    ensures Exec(s, [l]) == Next(s, l)
  {
    assert [l][1..] == [];
  }

  lemma {:induction false} ExecAppend(s: System, ls: seq<Label>, more: seq<Label>)
    ensures Exec(s, ls + more) == Exec(Exec(s, ls), more)
    decreases ls
  {
    if ls == [] {
      assert ls + more == more;
    } else {
      ExecAppend(Next(s, ls[0]), ls[1..], more);
      assert (ls + more)[1..] == ls[1..] + more && (ls + more)[0] == ls[0];
    }
  }

  /** A request up to the point where its handler may run, when Redis answers. */
  function Opening(id: nat, tenant: Uuid, key: string): seq<Label> {
    [Arrive(id, Post, tenant, key)] + [Step(id, DoGet(NoFault))] + [Step(id, DoAcquire(NoFault))]
  }

  function Answering(id: nat, status: int, body: Option<Body>): seq<Label> {
    [Step(id, HandlerReturns(status, body))] + [Step(id, DoStore(NoFault))] + [Step(id, DoDelete(NoFault))]
  }

  lemma ExecThree(s: System, a: Label, b: Label, c: Label)
    ensures Exec(s, [a] + [b] + [c]) == Next(Next(Next(s, a), b), c)
  {
    ExecAppend(s, [a] + [b], [c]);
    ExecAppend(s, [a], [b]);
    ExecOne(s, a);
    ExecOne(Next(s, a), b);
    ExecOne(Next(Next(s, a), b), c);
  }

  /** Opening a free key starts the handler; opening a key with a response replays it. */
  lemma OpeningEnds(s: System, id: nat, tenant: Uuid, key: string)
    requires id !in s.requests && 16 <= |key| <= 128
    ensures var s', k := Exec(s, Opening(id, tenant, key)), BuildKey(tenant, key);
            && id in s'.requests && CellKey(s'.requests[id]) == k
            && (k !in s.cells ==> s'.requests[id].pc == Running && s'.cells == s.cells[k := Processing])
            && (k in s.cells && s.cells[k].Stored? && s.cells[k].response.statusCode != 0 ==>
                  s'.requests[id].pc == Finished(Replayed(s.cells[k].response)) && s'.cells == s.cells)
  {
    ExecThree(s, Arrive(id, Post, tenant, key), Step(id, DoGet(NoFault)), Step(id, DoAcquire(NoFault)));
  }

  lemma AnsweringEnds(s: System, id: nat, status: int, body: Option<Body>)
    requires id in s.requests && s.requests[id].pc.Running?
    requires Lookup(s.cells, CellKey(s.requests[id])) == Some(Processing)
    ensures var s', k := Exec(s, Answering(id, status, body)), CellKey(s.requests[id]);
            && s'.requests.Keys == s.requests.Keys && s'.requests[id].pc == Finished(Served(status))
            && Lookup(s'.cells, k) == if status < 200 || 400 <= status then None
                                      else if body.Some? then Some(Stored(StoredResponse(status, body.value)))
                                      else Some(Processing)
  {
    ExecThree(s, Step(id, HandlerReturns(status, body)), Step(id, DoStore(NoFault)), Step(id, DoDelete(NoFault)));
  }

  /**
    A retry after a success is answered with the first response, and a retry after a failure runs its handler: on a
    free key, one request run to its end and then another with the same tenant and key.
   */
  lemma RetryIsServed(s: System, id: nat, retry: nat, tenant: Uuid, key: string, status: int, body: Option<Body>)
    requires id !in s.requests && retry !in s.requests && id != retry && 16 <= |key| <= 128
    requires BuildKey(tenant, key) !in s.cells
    ensures var s' := Exec(s, Opening(id, tenant, key) + Answering(id, status, body) + Opening(retry, tenant, key));
            && id in s'.requests && s'.requests[id].pc == Finished(Served(status)) && retry in s'.requests
            && (200 <= status < 400 && body.Some? ==>
                  s'.requests[retry].pc == Finished(Replayed(StoredResponse(status, body.value))))
            && (status < 200 || 400 <= status ==> s'.requests[retry].pc == Running)
  {
    var first, second := Opening(id, tenant, key), Answering(id, status, body);
    var third := Opening(retry, tenant, key);
    ExecAppend(s, first + second, third);
    ExecAppend(s, first, second);
    var s1 := Exec(s, first);
    var s2 := Exec(s1, second);
    OpeningEnds(s, id, tenant, key);
    OpeningOthers(s, id, tenant, key, retry);
    AnsweringEnds(s1, id, status, body);
    OpeningEnds(s2, retry, tenant, key);
    OpeningOthers(s2, retry, tenant, key, id);
  }

  lemma OpeningOthers(s: System, id: nat, tenant: Uuid, key: string, other: nat)
    requires other != id
    ensures var s' := Exec(s, Opening(id, tenant, key));
            && (other in s'.requests <==> other in s.requests)
            && (other in s.requests ==> s'.requests[other] == s.requests[other])
  {
    ExecThree(s, Arrive(id, Post, tenant, key), Step(id, DoGet(NoFault)), Step(id, DoAcquire(NoFault)));
  }

  /** A request on one (tenant, key) pair leaves the cell of every other pair alone. */
  lemma OtherPairsUntouched(s: System, l: Label, tenant: Uuid, key: string)
    requires Inv(s)
    requires l.Step? && l.id in s.requests
    requires (s.requests[l.id].tenant, s.requests[l.id].key) != (tenant, key)
    ensures Abstract(Next(s, l), BuildKey(tenant, key)) == Abstract(s, BuildKey(tenant, key))
  {
    var k, s' := BuildKey(tenant, key), Next(s, l);
    NextKeepsInv(s, l);
    if CellKey(s.requests[l.id]) == k {
      BuildKeyInjective(s.requests[l.id].tenant, s.requests[l.id].key, tenant, key);
    }
    if id :| HolderOf(s, k, id) {
      assert HolderOf(s', k, id);
      AbstractBusy(s, k, id);
      AbstractBusy(s', k, id);
    } else if j :| HolderOf(s', k, j) {
      assert HolderOf(s, k, j);
    }
  }

  /** Once a response is stored under a key, no run changes it. */
  lemma {:induction false} StoredNeverChanges(s: System, ls: seq<Label>, k: string, r: StoredResponse)
    requires Inv(s) && Lookup(s.cells, k) == Some(Stored(r))
    ensures Lookup(Exec(s, ls).cells, k) == Some(Stored(r))
    decreases ls
  {
    if ls != [] {
      NextKeepsInv(s, ls[0]);
      StoredNeverChanges(Next(s, ls[0]), ls[1..], k, r);
    }
  }

  /** All a request can still be when it began after `r` was stored under its key. */
  predicate AfterStored(pc: Pc, r: StoredResponse) {
    || pc.AtGet?
    || pc == Finished(Replayed(r))
    || pc.Unguarded?
    || (pc.Finished? && (pc.outcome.BadKey? || pc.outcome.ServedUnguarded? || pc.outcome.PanickedUnguarded?))
  }

  /** A request that begins after `r` was stored is answered with `r`, unless Redis failed it or it opted out. */
  lemma {:induction false} LaterRequestsReplay(s: System, ls: seq<Label>, id: nat, k: string, r: StoredResponse)
    requires Inv(s) && Lookup(s.cells, k) == Some(Stored(r))
    requires id in s.requests && CellKey(s.requests[id]) == k ==> AfterStored(s.requests[id].pc, r)
    ensures id in Exec(s, ls).requests && CellKey(Exec(s, ls).requests[id]) == k
            ==> AfterStored(Exec(s, ls).requests[id].pc, r)
    decreases ls
  {
    if ls != [] {
      var s' := Next(s, ls[0]);
      NextKeepsInv(s, ls[0]);
      StoredNeverChanges(s, [ls[0]], k, r);
      assert Exec(s, [ls[0]]) == s' by { assert [ls[0]][1..] == []; }
      LaterRequestsReplay(s', ls[1..], id, k, r);
    }
  }

  // ---------------------------------------------------------------- Redis answers and every client uses a key

  /** Get and TryAcquire do not fail, and every request asks to be guarded with a well-formed key. */
  predicate Clean(l: Label) {
    match l
    case Arrive(_, m, _, key) => Mutating(m) && 16 <= |key| <= 128
    case Step(_, DoGet(fault)) => fault.NoFault?
    case Step(_, DoAcquire(fault)) => fault.NoFault?
    case _ => true
  }

  predicate Guarded(pc: Pc) {
    && !pc.Unguarded?
    && (pc.Finished? ==> !pc.outcome.BadKey? && !pc.outcome.ServedUnguarded? && !pc.outcome.PanickedUnguarded?)
  }

  ghost predicate AllGuarded(s: System) {
    forall id :: id in s.requests ==> Guarded(s.requests[id].pc)
  }

  lemma {:induction false} CleanRunsAreGuarded(s: System, ls: seq<Label>)
    requires AllGuarded(s) && forall l :: l in ls ==> Clean(l)
    ensures AllGuarded(Exec(s, ls))
    decreases ls
  {
    if ls != [] {
      assert Clean(ls[0]);
      CleanRunsAreGuarded(Next(s, ls[0]), ls[1..]);
    }
  }

  /**
    When Get and TryAcquire answer, the guarantee covers all handlers: of two requests with the same tenant and
    key at most one has its handler running, and one that began after a response was stored gets that response.
   */
  lemma CleanRunsRunOnce(ls: seq<Label>, i: nat, j: nat)
    requires forall l :: l in ls ==> Clean(l)
    requires i in Exec(START, ls).requests && j in Exec(START, ls).requests && i != j
    requires CellKey(Exec(START, ls).requests[i]) == CellKey(Exec(START, ls).requests[j])
    ensures var p, q := Exec(START, ls).requests[i].pc, Exec(START, ls).requests[j].pc;
            && Guarded(p)
            && !((p.Running? || p.Unguarded?) && (q.Running? || q.Unguarded?))
            && !(Succeeded(p) && (Succeeded(q) || q.Running? || q.Unguarded?))
  {
    ReachableInv(ls);
    CleanRunsAreGuarded(START, ls);
  }

  lemma CleanLaterRequestsReplay(before: seq<Label>, ls: seq<Label>, id: nat, k: string, r: StoredResponse)
    requires forall l :: l in before + ls ==> Clean(l)
    requires Lookup(Exec(START, before).cells, k) == Some(Stored(r)) && id !in Exec(START, before).requests
    requires id in Exec(Exec(START, before), ls).requests && CellKey(Exec(Exec(START, before), ls).requests[id]) == k
    ensures var pc := Exec(Exec(START, before), ls).requests[id].pc; pc.AtGet? || pc == Finished(Replayed(r))
    ensures r.statusCode != 0
  {
    var s := Exec(START, before);
    ReachableInv(before);
    CleanRunsAreGuarded(START, before);
    CleanRunsAreGuarded(s, ls);
    LaterRequestsReplay(s, ls, id, k, r);
  }

  /** The step is a Redis call of request `id` made before the key is acquired, and it fails. */
  predicate CallFails(s: System, l: Label, id: nat) {
    && l.Step? && l.id == id && id in s.requests
    && match (s.requests[id].pc, l.event)
       case (AtGet, DoGet(fault)) => !fault.NoFault?
       case (AtAcquire, DoAcquire(fault)) => !fault.NoFault?
       case _ => false
  }

  predicate SomeCallFails(s: System, ls: seq<Label>, id: nat)
    decreases ls
  {
    ls != [] && (CallFails(s, ls[0], id) || SomeCallFails(Next(s, ls[0]), ls[1..], id))
  }

  lemma GuardedStep(s: System, l: Label, id: nat)
    requires id in s.requests
    ensures id in Next(s, l).requests
    ensures Guarded(Next(s, l).requests[id].pc) <==> Guarded(s.requests[id].pc) && !CallFails(s, l, id)
  {
  }

  lemma {:induction false} UnguardedStays(s: System, ls: seq<Label>, id: nat)
    requires id in s.requests && !Guarded(s.requests[id].pc)
    ensures id in Exec(s, ls).requests && !Guarded(Exec(s, ls).requests[id].pc)
    decreases ls
  {
    if ls != [] {
      GuardedStep(s, ls[0], id);
      UnguardedStays(Next(s, ls[0]), ls[1..], id);
    }
  }

  /**
    In every run, a request that was admitted with a well-formed key runs its handler without the key exactly when
    its Get or its TryAcquire fails.
   */
  lemma {:induction false} UnguardedIffCallFails(s: System, ls: seq<Label>, id: nat)
    requires id in s.requests && Guarded(s.requests[id].pc)
    ensures id in Exec(s, ls).requests
    ensures Guarded(Exec(s, ls).requests[id].pc) <==> !SomeCallFails(s, ls, id)
    decreases ls
  {
    if ls != [] {
      GuardedStep(s, ls[0], id);
      if CallFails(s, ls[0], id) {
        UnguardedStays(Next(s, ls[0]), ls[1..], id);
      } else {
        UnguardedIffCallFails(Next(s, ls[0]), ls[1..], id);
      }
    }
  }

  /**
    Both assumptions are needed: while a handler runs under a key, a second request whose Get fails, or whose
    TryAcquire fails before or after taking effect, runs its handler as well.
   */
  lemma FailedCallRunsASecondHandler(s: System, holder: nat, id: nat, fault: Fault)
    requires Inv(s) && holder in s.requests && s.requests[holder].pc.Running? && id !in s.requests
    requires 16 <= |s.requests[holder].key| <= 128 && !fault.NoFault?
    ensures var q := s.requests[holder]; var arrive := Arrive(id, Post, q.tenant, q.key);
            && BothRun(Exec(s, [arrive, Step(id, DoGet(fault))]), holder, id)
            && BothRun(Exec(s, [arrive, Step(id, DoGet(NoFault)), Step(id, DoAcquire(fault))]), holder, id)
  {
    var q := s.requests[holder];
    var a, b := Arrive(id, Post, q.tenant, q.key), Step(id, DoGet(NoFault));
    var s1 := Next(s, a);
    ExecTwo(s1, b, Step(id, DoAcquire(fault)));
    assert [a, b, Step(id, DoAcquire(fault))][1..] == [b, Step(id, DoAcquire(fault))];
    ExecTwo(s, a, Step(id, DoGet(fault)));
  }

  lemma ExecTwo(s: System, a: Label, b: Label)
    ensures Exec(s, [a, b]) == Next(Next(s, a), b)
  {
    assert [a, b][1..] == [b] && [b][1..] == [];
    assert Exec(Next(s, a), [b]) == Next(Next(s, a), b);
  }

  /** Two requests of one (tenant, key) have their handlers running, one with the key and one without. */
  predicate BothRun(s: System, holder: nat, id: nat) {
    && id in s.requests && holder in s.requests && CellKey(s.requests[id]) == CellKey(s.requests[holder])
    && s.requests[holder].pc.Running? && s.requests[id].pc.Unguarded?
  }
}
