/**
  The background scheduler, internal/scheduler/scheduler.go: a mutex-guarded job table, one ticker goroutine per
  job, goroutines for manual triggers, and Start and Stop.

  Every critical section and every channel or wait-group operation is one atomic step; the goroutines take their
  steps in any order. Start and Stop do not overlap each other, so one control state describes both.
 */
module Scheduler {
  import opened Wrappers
  import opened Counting

  datatype JobStatus = JobStatus(name: string, isRunning: bool, runCount: nat, errorCount: nat, lastError: string)

  /**
    What the mutex guards. `cells` holds the JobStatus objects in the order they were created; a goroutine keeps
    the index of the object it works on, as it keeps the pointer in the source. `statusOf` is the map by name.
   */
  datatype Table = Table(jobs: seq<string>, statusOf: map<string, nat>, cells: seq<JobStatus>)

  // ---------------------------------------------------------------- the critical sections

  /** Registering a name again replaces the status object in the map. */
  function Registered(t: Table, name: string): Table {
    Table(t.jobs + [name], t.statusOf[name := |t.cells|], t.cells + [JobStatus(name, false, 0, 0, "")])
  }

  predicate CanBegin(t: Table, name: string) {
    name in t.statusOf && t.statusOf[name] < |t.cells| && !t.cells[t.statusOf[name]].isRunning
  }

  function Begun(t: Table, c: nat): Table
    requires c < |t.cells|
  {
    t.(cells := t.cells[c := t.cells[c].(isRunning := true)])
  }

  function Ended(t: Table, c: nat, error: Option<string>): Table
    requires c < |t.cells|
  {
    var status := t.cells[c];
    t.(cells := t.cells[c := status.(isRunning := false, runCount := status.runCount + 1,
                                     errorCount := status.errorCount + (if error.Some? then 1 else 0),
                                     lastError := if error.Some? then error.value else "")])
  }

  /** The object itself; each method is one critical section. */
  class SchedulerTable {
    var jobs: seq<string>
    var jobStatuses: map<string, nat>
    var cells: seq<JobStatus>

    function State(): Table
      reads this
    {
      Table(jobs, jobStatuses, cells)
    }

    method Register(name: string)
      modifies this
      ensures State() == Registered(old(State()), name)
    {
      jobs := jobs + [name];
      jobStatuses := jobStatuses[name := |cells|];
      cells := cells + [JobStatus(name, false, 0, 0, "")];
    }

    /** The first critical section of executeJob; None means the job is skipped. */
    method BeginRun(name: string) returns (cell: Option<nat>)
      requires name in jobStatuses && jobStatuses[name] < |cells|
      modifies this
      ensures cell == if CanBegin(old(State()), name) then Some(old(jobStatuses)[name]) else None
      ensures State() == if cell.Some? then Begun(old(State()), cell.value) else old(State())
    {
      var c := jobStatuses[name];
      if cells[c].isRunning {
        return None;
      }
      cells := cells[c := cells[c].(isRunning := true)];
      return Some(c);
    }

    /** The second critical section of executeJob. */
    method EndRun(c: nat, error: Option<string>)
      requires c < |cells|
      modifies this
      ensures State() == Ended(old(State()), c, error)
    {
      var status := cells[c].(isRunning := false);
      status := status.(runCount := status.runCount + 1);
      if error.Some? {
        status := status.(errorCount := status.errorCount + 1, lastError := error.value);
      } else {
        status := status.(lastError := "");
      }
      cells := cells[c := status];
    }

    /** The lookup of RunJobNow. */
    method HasJob(name: string) returns (found: bool)
      ensures found <==> name in jobs
    {
      for i := 0 to |jobs|
        invariant name !in jobs[..i]
      {
        if jobs[i] == name {
          return true;
        }
      }
      return false;
    }
  }

  // ---------------------------------------------------------------- goroutines

  datatype Kind = Ticker | Manual

  /** Where a goroutine stands. */
  datatype Pc =
    | AtBegin                                    // about to enter executeJob
    | InRun(cell: nat)                           // inside job.Run
    | AtEnd(cell: nat, error: Option<string>)    // Run has returned, the status is not updated yet
    | Waiting                                    // in the ticker loop's select
    | Exited

  datatype Thread = Thread(kind: Kind, name: string, pc: Pc)

  /** Where Start or Stop stands; Idle when neither is being called. */
  datatype Control =
    | Idle
    | Launching
    | Starting(todo: seq<string>)
    | Cancelling
    | Joining

  datatype Completion = Completion(cell: nat, failed: bool)

  datatype System = System(
    table: Table,
    running: bool,
    cancelled: bool,
    waitGroup: int,
    control: Control,
    threads: map<nat, Thread>,
    completed: seq<Completion>)          // every return of job.Run so far

  datatype Label =
    | Register(name: string)
    | CallStart
    | EnterLoop
    | Spawn(id: nat)
    | CallStop
    | Cancel
    | Join
    | RunJobNow(name: string, id: nat)
    | Begin(id: nat)
    | RunReturns(id: nat, error: Option<string>)
    | End(id: nat)
    | Tick(id: nat)
    | Quit(id: nat)

  function After(kind: Kind): Pc {
    if kind.Ticker? then Waiting else Exited
  }

  function Move(s: System, id: nat, pc: Pc): System
    requires id in s.threads
  {
    s.(threads := s.threads[id := s.threads[id].(pc := pc)])
  }

  /** One step; a label that does not fit the state changes nothing. */
  function Next(s: System, l: Label): System {
    match l
    case Register(name) => s.(table := Registered(s.table, name))
    case CallStart =>
      if s.control.Idle? && !s.running
      then s.(running := true, cancelled := false, control := Launching) else s
    case EnterLoop => if s.control.Launching? then s.(control := Starting(s.table.jobs)) else s
    case Spawn(id) =>
      if !s.control.Starting? || id in s.threads then s
      else if s.control.todo == [] then s.(control := Idle)
      else s.(control := Starting(s.control.todo[1..]), waitGroup := s.waitGroup + 1,
              threads := s.threads[id := Thread(Ticker, s.control.todo[0], AtBegin)])
    case CallStop => if s.control.Idle? && s.running then s.(running := false, control := Cancelling) else s
    case Cancel => if s.control.Cancelling? then s.(cancelled := true, control := Joining) else s
    case Join => if s.control.Joining? && s.waitGroup == 0 then s.(control := Idle) else s
    case RunJobNow(name, id) =>
      if name in s.table.jobs && id !in s.threads
      then s.(threads := s.threads[id := Thread(Manual, name, AtBegin)]) else s
    case Begin(id) =>
      if id !in s.threads || !s.threads[id].pc.AtBegin? then s
      else if CanBegin(s.table, s.threads[id].name) then
        var c := s.table.statusOf[s.threads[id].name];
        Move(s, id, InRun(c)).(table := Begun(s.table, c))
      else Move(s, id, After(s.threads[id].kind))
    case RunReturns(id, error) =>
      if id !in s.threads || !s.threads[id].pc.InRun? then s
      else Move(s, id, AtEnd(s.threads[id].pc.cell, error))
           .(completed := s.completed + [Completion(s.threads[id].pc.cell, error.Some?)])
    case End(id) =>
      if id !in s.threads || !s.threads[id].pc.AtEnd? || s.threads[id].pc.cell >= |s.table.cells| then s
      else Move(s, id, After(s.threads[id].kind))
           .(table := Ended(s.table, s.threads[id].pc.cell, s.threads[id].pc.error))
    case Tick(id) =>
      if id in s.threads && s.threads[id].pc.Waiting? then Move(s, id, AtBegin) else s
    case Quit(id) =>
      if id in s.threads && s.threads[id].pc.Waiting? && s.cancelled
      then Move(s, id, Exited).(waitGroup := s.waitGroup - 1) else s
  }

  function Exec(s: System, ls: seq<Label>): System
    decreases ls
  {
    if ls == [] then s else Exec(Next(s, ls[0]), ls[1..])
  }

  const START := System(Table([], map[], []), false, false, 0, Idle, map[], [])

  // ---------------------------------------------------------------- the invariant

  predicate OnCell(t: Thread, c: nat) {
    (t.pc.InRun? || t.pc.AtEnd?) && t.pc.cell == c
  }

  predicate Ending(t: Thread, c: nat) {
    t.pc.AtEnd? && t.pc.cell == c
  }

  predicate TableOk(t: Table) {
    && |t.cells| == |t.jobs|
    && (forall i :: 0 <= i < |t.cells| ==> t.cells[i].name == t.jobs[i])
    && (forall n :: n in t.jobs ==> n in t.statusOf)
    && (forall n :: n in t.statusOf ==> t.statusOf[n] < |t.cells| && t.jobs[t.statusOf[n]] == n)
  }

  predicate ThreadOk(table: Table, t: Thread) {
    && t.name in table.jobs
    && (t.pc.InRun? || t.pc.AtEnd? ==> t.pc.cell < |table.cells| && table.cells[t.pc.cell].isRunning
                                       && table.cells[t.pc.cell].name == t.name)
    && (t.pc.Waiting? ==> t.kind.Ticker?)
  }

  predicate OneThreadPerCell(threads: map<nat, Thread>) {
    forall i, j :: i in threads && j in threads && i != j && (threads[i].pc.InRun? || threads[i].pc.AtEnd?) ==>
      !OnCell(threads[j], threads[i].pc.cell)
  }

  predicate RunningHasThread(s: System) {
    forall c :: 0 <= c < |s.table.cells| && s.table.cells[c].isRunning ==>
      exists i :: i in s.threads && OnCell(s.threads[i], c)
  }

  function CountRuns(done: seq<Completion>, c: nat): nat {
    if done == [] then 0 else CountRuns(done[..|done| - 1], c) + if done[|done| - 1].cell == c then 1 else 0
  }

  function CountFailures(done: seq<Completion>, c: nat): nat {
    if done == [] then 0
    else CountFailures(done[..|done| - 1], c)
         + if done[|done| - 1].cell == c && done[|done| - 1].failed then 1 else 0
  }

  /** Runs of `c` that have returned but are not recorded yet. */
  ghost function Unrecorded(threads: map<nat, Thread>, c: nat): nat {
    if exists i :: i in threads && Ending(threads[i], c) then 1 else 0
  }

  ghost function UnrecordedFailures(threads: map<nat, Thread>, c: nat): nat {
    if exists i :: i in threads && Ending(threads[i], c) && threads[i].pc.error.Some? then 1 else 0
  }

  ghost predicate CountersOk(s: System, c: nat)
    requires c < |s.table.cells|
  {
    && s.table.cells[c].runCount + Unrecorded(s.threads, c) == CountRuns(s.completed, c)
    && s.table.cells[c].errorCount + UnrecordedFailures(s.threads, c) == CountFailures(s.completed, c)
  }

  function LiveTickers(threads: map<nat, Thread>): set<nat> {
    set i | i in threads && threads[i].kind.Ticker? && !threads[i].pc.Exited?
  }

  predicate ControlOk(s: System) {
    && s.waitGroup == |LiveTickers(s.threads)|
    && (s.control.Launching? ==> s.running)
    && (s.control.Starting? ==> s.running && forall n :: n in s.control.todo ==> n in s.table.jobs)
    && (s.control.Idle? && !s.running ==> s.waitGroup == 0)
    && (s.control.Cancelling? || s.control.Joining? ==> !s.running)
    && (s.control.Joining? ==> s.cancelled)
    && (s.running ==> !s.cancelled)
  }

  ghost predicate RunsOk(s: System) {
    && TableOk(s.table)
    && (forall i :: i in s.threads ==> ThreadOk(s.table, s.threads[i]))
    && OneThreadPerCell(s.threads)
    && RunningHasThread(s)
    && (forall c :: 0 <= c < |s.table.cells| ==> CountersOk(s, c))
    && (forall k :: 0 <= k < |s.completed| ==> s.completed[k].cell < |s.table.cells|)
  }

  ghost predicate Inv(s: System) {
    RunsOk(s) && ControlOk(s)
  }

  lemma {:induction false} NoRunsYet(done: seq<Completion>, c: nat)
    requires forall k :: 0 <= k < |done| ==> done[k].cell < c
    ensures CountRuns(done, c) == 0 && CountFailures(done, c) == 0
  {
    if done != [] {
      NoRunsYet(done[..|done| - 1], c);
    }
  }

  lemma RegisterKeepsRunning(s: System, name: string)
    requires RunningHasThread(s)
    ensures RunningHasThread(Next(s, Register(name)))
  {
    var s' := Next(s, Register(name));
    forall c | 0 <= c < |s'.table.cells| && s'.table.cells[c].isRunning
      ensures exists i :: i in s'.threads && OnCell(s'.threads[i], c)
    {
      var i :| i in s.threads && OnCell(s.threads[i], c);
      assert i in s'.threads && OnCell(s'.threads[i], c);
    }
  }

  lemma RegisterKeepsCounters(s: System, name: string, c: nat)
    requires RunsOk(s) && c <= |s.table.cells|
    ensures CountersOk(Next(s, Register(name)), c)
  {
    if c < |s.table.cells| {
      assert CountersOk(s, c);
    } else {
      NoRunsYet(s.completed, c);
      forall i | i in s.threads ensures !Ending(s.threads[i], c) {
        assert ThreadOk(s.table, s.threads[i]);
      }
    }
  }

  lemma RegisterKeepsRuns(s: System, name: string)
    requires RunsOk(s)
    ensures RunsOk(Next(s, Register(name)))
  {
    var s' := Next(s, Register(name));
    RegisterKeepsRunning(s, name);
    forall i | i in s'.threads ensures ThreadOk(s'.table, s'.threads[i]) {
      assert ThreadOk(s.table, s.threads[i]);
    }
    forall c | 0 <= c < |s'.table.cells| ensures CountersOk(s', c) {
      RegisterKeepsCounters(s, name, c);
    }
  }

  predicate Inactive(pc: Pc) {
    pc.AtBegin? || pc.Waiting? || pc.Exited?
  }

  /** A goroutine that starts, or moves, outside of job.Run disturbs no run. */
  lemma InactiveMoveKeepsRuns(s: System, s': System, id: nat, t: Thread)
    requires RunsOk(s) && s'.table == s.table && s'.completed == s.completed && s'.threads == s.threads[id := t]
    requires Inactive(t.pc) && ThreadOk(s.table, t)
    requires id in s.threads ==> Inactive(s.threads[id].pc)
    ensures RunsOk(s')
  {
    InactiveMoveKeepsRunning(s, s', id, t);
    forall c | 0 <= c < |s'.table.cells| ensures CountersOk(s', c) {
      assert CountersOk(s, c);
      SameEnding(s, s', id, c);
    }
  }

  lemma InactiveMoveKeepsRunning(s: System, s': System, id: nat, t: Thread)
    requires RunningHasThread(s) && s'.table == s.table && s'.threads == s.threads[id := t]
    requires id in s.threads ==> Inactive(s.threads[id].pc)
    ensures RunningHasThread(s')
  {
    forall c | 0 <= c < |s'.table.cells| && s'.table.cells[c].isRunning
      ensures exists i :: i in s'.threads && OnCell(s'.threads[i], c)
    {
      var i :| i in s.threads && OnCell(s.threads[i], c);
      assert i in s'.threads && OnCell(s'.threads[i], c);
    }
  }

  lemma SameEnding(s: System, s': System, id: nat, c: nat)
    requires id in s'.threads && s'.threads - {id} == s.threads - {id}
    requires !Ending(s'.threads[id], c) && (id in s.threads ==> !Ending(s.threads[id], c))
    ensures Unrecorded(s'.threads, c) == Unrecorded(s.threads, c)
    ensures UnrecordedFailures(s'.threads, c) == UnrecordedFailures(s.threads, c)
  {
    forall i | i != id ensures i in s.threads <==> i in s'.threads
                       ensures i in s.threads ==> s.threads[i] == s'.threads[i] {
      assert i in s.threads - {id} <==> i in s'.threads - {id};
      if i in s.threads {
        assert (s.threads - {id})[i] == (s'.threads - {id})[i];
      }
    }
  }

  lemma BeginKeepsOneThread(s: System, id: nat)
    requires OneThreadPerCell(s.threads) && (forall i :: i in s.threads ==> ThreadOk(s.table, s.threads[i]))
    requires id in s.threads && s.threads[id].pc.AtBegin? && CanBegin(s.table, s.threads[id].name)
    ensures OneThreadPerCell(Next(s, Begin(id)).threads)
  {
    var d := s.table.statusOf[s.threads[id].name];
    forall i | i in s.threads ensures !OnCell(s.threads[i], d) {
      assert ThreadOk(s.table, s.threads[i]);
    }
  }

  lemma BeginKeepsThreads(s: System, id: nat)
    requires TableOk(s.table) && forall i :: i in s.threads ==> ThreadOk(s.table, s.threads[i])
    requires id in s.threads && s.threads[id].pc.AtBegin? && CanBegin(s.table, s.threads[id].name)
    ensures forall i :: i in s.threads ==> ThreadOk(Next(s, Begin(id)).table, Next(s, Begin(id)).threads[i])
  {
    forall i | i in s.threads
      ensures ThreadOk(Next(s, Begin(id)).table, Next(s, Begin(id)).threads[i])
    {
      assert ThreadOk(s.table, s.threads[i]);
      assert ThreadOk(s.table, s.threads[id]);
    }
  }

  lemma BeginKeepsCounters(s: System, id: nat, c: nat)
    requires RunsOk(s) && id in s.threads && s.threads[id].pc.AtBegin? && CanBegin(s.table, s.threads[id].name)
    requires c < |s.table.cells|
    ensures CountersOk(Next(s, Begin(id)), c)
  {
    assert CountersOk(s, c);
    SameEnding(s, Next(s, Begin(id)), id, c);
  }

  lemma BeginKeepsRunning(s: System, id: nat)
    requires RunningHasThread(s) && TableOk(s.table)
    requires id in s.threads && s.threads[id].pc.AtBegin? && CanBegin(s.table, s.threads[id].name)
    ensures RunningHasThread(Next(s, Begin(id)))
  {
    var s' := Next(s, Begin(id));
    forall c | 0 <= c < |s'.table.cells| && s'.table.cells[c].isRunning
      ensures exists i :: i in s'.threads && OnCell(s'.threads[i], c)
    {
      if c == s.table.statusOf[s.threads[id].name] {
        assert OnCell(s'.threads[id], c);
      } else {
        var i :| i in s.threads && OnCell(s.threads[i], c);
        assert i in s'.threads && OnCell(s'.threads[i], c);
      }
    }
  }

  lemma BeginKeepsRuns(s: System, id: nat)
    requires RunsOk(s) && id in s.threads && s.threads[id].pc.AtBegin? && CanBegin(s.table, s.threads[id].name)
    ensures RunsOk(Next(s, Begin(id)))
  {
    BeginKeepsOneThread(s, id);
    BeginKeepsThreads(s, id);
    BeginKeepsRunning(s, id);
    var s' := Next(s, Begin(id));
    forall c | 0 <= c < |s'.table.cells| ensures CountersOk(s', c) {
      BeginKeepsCounters(s, id, c);
    }
  }

  /** The counters see exactly one goroutine per cell. */
  lemma EndingIsUnique(s: System, id: nat, c: nat)
    requires OneThreadPerCell(s.threads) && id in s.threads && OnCell(s.threads[id], c)
    ensures Unrecorded(s.threads, c) == if s.threads[id].pc.AtEnd? then 1 else 0
    ensures UnrecordedFailures(s.threads, c) == if s.threads[id].pc.AtEnd? && s.threads[id].pc.error.Some? then 1 else 0
  {
    forall i | i in s.threads && i != id ensures !Ending(s.threads[i], c) {
      assert !OnCell(s.threads[i], s.threads[id].pc.cell);
    }
    if s.threads[id].pc.AtEnd? {
      assert Ending(s.threads[id], c);
    }
  }

  lemma RunReturnsKeepsCounters(s: System, id: nat, error: Option<string>, c: nat)
    requires RunsOk(s) && id in s.threads && s.threads[id].pc.InRun? && c < |s.table.cells|
    ensures CountersOk(Next(s, RunReturns(id, error)), c)
  {
    var s' := Next(s, RunReturns(id, error));
    assert CountersOk(s, c);
    assert s'.completed[..|s'.completed| - 1] == s.completed;
    if c == s.threads[id].pc.cell {
      EndingIsUnique(s, id, c);
      EndingIsUnique(s', id, c);
    } else {
      SameEnding(s, s', id, c);
    }
  }

  lemma RunReturnsKeepsRuns(s: System, id: nat, error: Option<string>)
    requires RunsOk(s) && id in s.threads && s.threads[id].pc.InRun?
    ensures RunsOk(Next(s, RunReturns(id, error)))
  {
    var s' := Next(s, RunReturns(id, error));
    assert ThreadOk(s.table, s.threads[id]);
    forall c | 0 <= c < |s'.table.cells| ensures CountersOk(s', c) {
      RunReturnsKeepsCounters(s, id, error, c);
    }
    forall c | 0 <= c < |s'.table.cells| && s'.table.cells[c].isRunning
      ensures exists i :: i in s'.threads && OnCell(s'.threads[i], c)
    {
      var i :| i in s.threads && OnCell(s.threads[i], c);
      assert i in s'.threads && OnCell(s'.threads[i], c);
    }
  }

  lemma EndKeepsCounters(s: System, id: nat, c: nat)
    requires RunsOk(s) && id in s.threads && s.threads[id].pc.AtEnd? && c < |s.table.cells|
    ensures CountersOk(Next(s, End(id)), c)
  {
    var s' := Next(s, End(id));
    var d := s.threads[id].pc.cell;
    assert ThreadOk(s.table, s.threads[id]) && CountersOk(s, c);
    if c == d {
      EndingIsUnique(s, id, c);
      forall i | i in s'.threads ensures !Ending(s'.threads[i], c) {
        assert i != id ==> !OnCell(s.threads[i], d);
      }
    } else {
      SameEnding(s, s', id, c);
    }
  }

  lemma EndKeepsThreads(s: System, id: nat)
    requires RunsOk(s) && id in s.threads && s.threads[id].pc.AtEnd?
    ensures forall i :: i in s.threads ==> ThreadOk(Next(s, End(id)).table, Next(s, End(id)).threads[i])
  {
    var d := s.threads[id].pc.cell;
    assert ThreadOk(s.table, s.threads[id]);
    forall i | i in s.threads && i != id ensures ThreadOk(Next(s, End(id)).table, s.threads[i]) {
      assert ThreadOk(s.table, s.threads[i]);
      assert !OnCell(s.threads[i], d);
    }
  }

  lemma EndKeepsRunning(s: System, id: nat)
    requires RunningHasThread(s) && id in s.threads && s.threads[id].pc.AtEnd?
    ensures RunningHasThread(Next(s, End(id)))
  {
    var s' := Next(s, End(id));
    forall c | 0 <= c < |s'.table.cells| && s'.table.cells[c].isRunning
      ensures exists i :: i in s'.threads && OnCell(s'.threads[i], c)
    {
      var i :| i in s.threads && OnCell(s.threads[i], c);
      assert i in s'.threads && OnCell(s'.threads[i], c);
    }
  }

  lemma EndKeepsTable(s: System, id: nat)
    requires TableOk(s.table) && OneThreadPerCell(s.threads) && id in s.threads && s.threads[id].pc.AtEnd?
    ensures TableOk(Next(s, End(id)).table) && OneThreadPerCell(Next(s, End(id)).threads)
  {
  }

  lemma EndKeepsRuns(s: System, id: nat)
    requires RunsOk(s) && id in s.threads && s.threads[id].pc.AtEnd?
    ensures RunsOk(Next(s, End(id)))
  {
    var s' := Next(s, End(id));
    assert ThreadOk(s.table, s.threads[id]);
    EndKeepsThreads(s, id);
    EndKeepsTable(s, id);
    EndKeepsRunning(s, id);
    forall c | 0 <= c < |s'.table.cells| ensures CountersOk(s', c) {
      EndKeepsCounters(s, id, c);
    }
  }

  lemma SameThreadsKeepRuns(s: System, s': System)
    requires RunsOk(s) && s'.table == s.table && s'.threads == s.threads && s'.completed == s.completed
    ensures RunsOk(s')
  {
    forall c | 0 <= c < |s.table.cells| ensures CountersOk(s', c) {
      assert CountersOk(s, c);
    }
  }

  lemma NextKeepsRuns(s: System, l: Label)
    requires Inv(s)
    ensures RunsOk(Next(s, l))
  {
    var s' := Next(s, l);
    if s' != s {
      match l
      case Register(name) => RegisterKeepsRuns(s, name);
      case Spawn(id) =>
        if s.control.todo != [] {
          InactiveMoveKeepsRuns(s, s', id, s'.threads[id]);
        } else {
          SameThreadsKeepRuns(s, s');
        }
      case RunJobNow(name, id) => InactiveMoveKeepsRuns(s, s', id, s'.threads[id]);
      case Begin(id) =>
        if CanBegin(s.table, s.threads[id].name) {
          BeginKeepsRuns(s, id);
        } else {
          assert ThreadOk(s.table, s.threads[id]);
          InactiveMoveKeepsRuns(s, s', id, s'.threads[id]);
        }
      case RunReturns(id, error) => RunReturnsKeepsRuns(s, id, error);
      case End(id) => EndKeepsRuns(s, id);
      case Tick(id) =>
        assert ThreadOk(s.table, s.threads[id]);
        InactiveMoveKeepsRuns(s, s', id, s'.threads[id]);
      case Quit(id) =>
        assert ThreadOk(s.table, s.threads[id]);
        InactiveMoveKeepsRuns(s, s', id, s'.threads[id]);
      case _ => SameThreadsKeepRuns(s, s');
    }
  }

  lemma SameLiveTickers(threads: map<nat, Thread>, id: nat, t: Thread)
    requires t.kind.Ticker? && !t.pc.Exited? ==> id in threads && threads[id].kind.Ticker? && !threads[id].pc.Exited?
    requires id in threads && threads[id].kind.Ticker? && !threads[id].pc.Exited? ==> t.kind.Ticker? && !t.pc.Exited?
    ensures LiveTickers(threads[id := t]) == LiveTickers(threads)
  {
  }

  lemma SpawnKeepsControl(s: System, id: nat)
    requires Inv(s) && s.control.Starting? && id !in s.threads && s.control.todo != []
    ensures ControlOk(Next(s, Spawn(id)))
  {
    assert LiveTickers(Next(s, Spawn(id)).threads) == LiveTickers(s.threads) + {id};
    assert s.control.todo[0] in s.table.jobs;
  }

  lemma QuitRemovesTicker(threads: map<nat, Thread>, id: nat)
    requires id in threads && threads[id].kind.Ticker? && !threads[id].pc.Exited?
    ensures |LiveTickers(threads[id := threads[id].(pc := Exited)])| == |LiveTickers(threads)| - 1
  {
    var live := LiveTickers(threads[id := threads[id].(pc := Exited)]);
    assert id !in live;
    assert LiveTickers(threads) == live + {id};
  }

  lemma QuitKeepsControl(s: System, id: nat)
    requires ControlOk(s) && id in s.threads && s.threads[id].pc.Waiting? && s.threads[id].kind.Ticker? && s.cancelled
    ensures ControlOk(Next(s, Quit(id)))
  {
    QuitRemovesTicker(s.threads, id);
  }

  /** A goroutine that neither starts nor ends a ticker loop leaves the wait group right. */
  lemma MoveKeepsControl(s: System, l: Label)
    requires ControlOk(s) && (l.Begin? || l.End? || l.RunReturns? || l.Tick? || l.RunJobNow?) && Next(s, l) != s
    ensures ControlOk(Next(s, l))
  {
    SameLiveTickers(s.threads, l.id, Next(s, l).threads[l.id]);
  }

  lemma NextKeepsControl(s: System, l: Label)
    requires Inv(s)
    ensures ControlOk(Next(s, l))
  {
    if Next(s, l) != s {
      match l {
        case Spawn(id) =>
          if s.control.todo != [] {
            SpawnKeepsControl(s, id);
          }
        case Quit(id) =>
          assert ThreadOk(s.table, s.threads[id]);
          QuitKeepsControl(s, id);
        case Register(_) =>
        case CallStart =>
        case EnterLoop =>
        case CallStop =>
        case Cancel =>
        case Join =>
        case _ => MoveKeepsControl(s, l);
      }
    }
  }

  lemma {:induction false} ExecKeepsInv(s: System, ls: seq<Label>)
    requires Inv(s)
    ensures Inv(Exec(s, ls))
    decreases ls
  {
    if ls != [] {
      NextKeepsRuns(s, ls[0]);
      NextKeepsControl(s, ls[0]);
      ExecKeepsInv(Next(s, ls[0]), ls[1..]);
    }
  }

  lemma ReachableInv(ls: seq<Label>)
    ensures Inv(Exec(START, ls))
  {
    assert LiveTickers(START.threads) == {};
    ExecKeepsInv(START, ls);
  }

  // ---------------------------------------------------------------- the guarantees

  /**
    In every interleaving, a status object says "running" exactly while one goroutine is inside its run, and never
    two.
   */
  lemma OneRunPerStatus(ls: seq<Label>, c: nat)
    requires c < |Exec(START, ls).table.cells|
    ensures var s := Exec(START, ls);
            && (s.table.cells[c].isRunning <==> exists i :: i in s.threads && OnCell(s.threads[i], c))
            && (forall i, j :: i in s.threads && j in s.threads && OnCell(s.threads[i], c) && OnCell(s.threads[j], c)
                  ==> i == j)
  {
    ReachableInv(ls);
    var s := Exec(START, ls);
    if i :| i in s.threads && OnCell(s.threads[i], c) {
      assert ThreadOk(s.table, s.threads[i]);
    }
  }

  predicate RunsJob(t: Thread, name: string) {
    t.name == name && !Inactive(t.pc)
  }

  /** A run of the job is going on, or is over and about to be recorded. */
  predicate Busy(s: System, name: string) {
    exists i :: i in s.threads && RunsJob(s.threads[i], name)
  }

  predicate Exclusive(s: System, name: string) {
    forall i, j :: i in s.threads && j in s.threads && RunsJob(s.threads[i], name) && RunsJob(s.threads[j], name) ==>
      i == j
  }

  /** In this run from `s`, nobody registers `name` while it is busy. */
  predicate Quiet(s: System, ls: seq<Label>, name: string)
    decreases ls
  {
    ls != [] ==> !(ls[0] == Register(name) && Busy(s, name)) && Quiet(Next(s, ls[0]), ls[1..], name)
  }

  /** Every goroutine that runs the job works on the status object the name stands for now. */
  predicate OnCurrent(s: System, name: string) {
    forall i :: i in s.threads && RunsJob(s.threads[i], name) ==>
      name in s.table.statusOf && s.threads[i].pc.cell == s.table.statusOf[name]
  }

  lemma NextKeepsCurrent(s: System, l: Label, name: string)
    requires OnCurrent(s, name) && !(l == Register(name) && Busy(s, name))
    ensures OnCurrent(Next(s, l), name)
  {
    var s' := Next(s, l);
    forall i | i in s'.threads && RunsJob(s'.threads[i], name)
      ensures name in s'.table.statusOf && s'.threads[i].pc.cell == s'.table.statusOf[name]
    {
      if i in s.threads && s.threads[i] == s'.threads[i] {
        assert RunsJob(s.threads[i], name);
      } else if l.RunReturns? {
        assert RunsJob(s.threads[i], name);
      }
    }
  }

  lemma {:induction false} ExecKeepsCurrent(s: System, ls: seq<Label>, name: string)
    requires OnCurrent(s, name) && Quiet(s, ls, name)
    ensures OnCurrent(Exec(s, ls), name)
    decreases ls
  {
    if ls != [] {
      NextKeepsCurrent(s, ls[0], name);
      ExecKeepsCurrent(Next(s, ls[0]), ls[1..], name);
    }
  }

  lemma CurrentIsExclusive(s: System, name: string)
    requires RunsOk(s) && OnCurrent(s, name)
    ensures Exclusive(s, name)
  {
  }

  /**
    In every run in which a job's name is not registered again while the job is busy, ticker loops and manual
    triggers never run the job at the same time.
   */
  lemma MutualExclusion(ls: seq<Label>, name: string)
    requires Quiet(START, ls, name)
    ensures Exclusive(Exec(START, ls), name)
  {
    ReachableInv(ls);
    ExecKeepsCurrent(START, ls, name);
    CurrentIsExclusive(Exec(START, ls), name);
  }

  /** No job name was registered twice. */
  predicate DistinctJobs(s: System) {
    forall i, j :: 0 <= i < j < |s.table.jobs| ==> s.table.jobs[i] != s.table.jobs[j]
  }

  lemma NewAtEnd(jobs: seq<string>, name: string, all: seq<string>)
    requires jobs + [name] <= all && forall i, j :: 0 <= i < j < |all| ==> all[i] != all[j]
    ensures name !in jobs
  {
    assert all[|jobs|] == (jobs + [name])[|jobs|];
    forall k | 0 <= k < |jobs| ensures jobs[k] != name {
      assert all[k] == (jobs + [name])[k];
    }
  }

  lemma JobsGrowOnce(s: System, l: Label)
    ensures s.table.jobs <= Next(s, l).table.jobs
  {
  }

  lemma {:induction false} JobsOnlyGrow(s: System, ls: seq<Label>)
    ensures s.table.jobs <= Exec(s, ls).table.jobs
    decreases ls
  {
    if ls != [] {
      JobsGrowOnce(s, ls[0]);
      JobsOnlyGrow(Next(s, ls[0]), ls[1..]);
    }
  }

  /** Registering each name once is enough. */
  lemma {:induction false} DistinctNamesAreQuiet(s: System, ls: seq<Label>, name: string)
    requires Inv(s) && DistinctJobs(Exec(s, ls))
    ensures Quiet(s, ls, name)
    decreases ls
  {
    if ls != [] {
      NextKeepsRuns(s, ls[0]);
      NextKeepsControl(s, ls[0]);
      DistinctNamesAreQuiet(Next(s, ls[0]), ls[1..], name);
      if ls[0] == Register(name) {
        var jobs, all := s.table.jobs, Exec(s, ls).table.jobs;
        JobsOnlyGrow(Next(s, ls[0]), ls[1..]);
        assert jobs + [name] <= all;
        assert name !in jobs by {
          NewAtEnd(jobs, name, all);
        }
        forall i | i in s.threads ensures !RunsJob(s.threads[i], name) {
          assert ThreadOk(s.table, s.threads[i]) && name !in jobs;
        }
      }
    }
  }

  /**
    The counters are exact: RunCount and ErrorCount are the numbers of finished and of failed runs, less the one
    that has returned and is about to be recorded. Skipped triggers count for neither.
   */
  lemma CountersAreExact(ls: seq<Label>, c: nat)
    requires c < |Exec(START, ls).table.cells|
    ensures var s := Exec(START, ls); var status := s.table.cells[c];
            && status.runCount <= CountRuns(s.completed, c) <= status.runCount + 1
            && status.errorCount <= CountFailures(s.completed, c) <= status.errorCount + 1
            && (!status.isRunning ==> status.runCount == CountRuns(s.completed, c)
                                      && status.errorCount == CountFailures(s.completed, c))
  {
    ReachableInv(ls);
    var s := Exec(START, ls);
    assert CountersOk(s, c);
    if i :| i in s.threads && Ending(s.threads[i], c) {
      assert ThreadOk(s.table, s.threads[i]);
    }
  }

  /** When Stop returns, every ticker loop has exited. */
  lemma StopWaitsForTickers(ls: seq<Label>, i: nat)
    requires Exec(START, ls).control.Joining? && Next(Exec(START, ls), Join).control.Idle?
    requires i in Exec(START, ls).threads && Exec(START, ls).threads[i].kind.Ticker?
    ensures Next(Exec(START, ls), Join).threads[i].pc.Exited?
  {
    ReachableInv(ls);
    var s := Exec(START, ls);
    assert LiveTickers(s.threads) == {};
    assert i !in LiveTickers(s.threads);
  }

  /** ... and as long as nobody calls Start again, no ticker loop comes back. */
  lemma StoppedMeansNoTickers(ls: seq<Label>, i: nat)
    requires Exec(START, ls).control.Idle? && !Exec(START, ls).running
    requires i in Exec(START, ls).threads && Exec(START, ls).threads[i].kind.Ticker?
    ensures Exec(START, ls).threads[i].pc.Exited?
  {
    ReachableInv(ls);
    var s := Exec(START, ls);
    assert LiveTickers(s.threads) == {};
    assert i !in LiveTickers(s.threads);
  }

  /**
    Registering a busy job's name again gives the name a fresh status object, and a manual trigger then runs the job
    a second time at once.
   */
  lemma ReRegisteringRunsTwice(s: System, i: nat, j: nat, name: string)
    requires Inv(s) && i in s.threads && RunsJob(s.threads[i], name) && j !in s.threads
    ensures var s' := Exec(Next(s, Register(name)), [RunJobNow(name, j), Begin(j)]);
            i in s'.threads && j in s'.threads && i != j && RunsJob(s'.threads[i], name) && RunsJob(s'.threads[j], name)
  {
    var b, c := RunJobNow(name, j), Begin(j);
    var s1 := Next(s, Register(name));
    assert [b, c][1..] == [c] && [c][1..] == [];
    assert s1.table.jobs[|s.table.jobs|] == name;
    assert Exec(Next(s1, b), [c]) == Next(Next(s1, b), c);
    assert Exec(s1, [b, c]) == Exec(Next(s1, b), [c]);
  }

  lemma {:induction false} SomeIdIsFree(ids: set<nat>) returns (n: nat)
    ensures forall i :: i in ids ==> i < n
  {
    if ids == {} {
      n := 0;
    } else {
      var k :| k in ids;
      var m := SomeIdIsFree(ids - {k});
      n := if k < m then m else k + 1;
      forall i | i in ids ensures i < n {
        assert i == k || i in ids - {k};
      }
    }
  }

  /** No run that goes on from here without registering `name` breaks the exclusion. */
  ghost predicate StaysExclusive(s: System, name: string) {
    forall ls: seq<Label> :: Register(name) !in ls ==> Exclusive(Exec(s, ls), name)
  }

  lemma {:induction false} UnregisteredIsQuiet(s: System, ls: seq<Label>, name: string)
    requires Register(name) !in ls
    ensures Quiet(s, ls, name)
    decreases ls
  {
    if ls != [] {
      assert ls[0] in ls;
      UnregisteredIsQuiet(Next(s, ls[0]), ls[1..], name);
    }
  }

  /** Registering a name keeps its runs apart from then on exactly when the job is not busy. */
  lemma RegisterIsSafeIff(s: System, name: string)
    requires Inv(s)
    ensures StaysExclusive(Next(s, Register(name)), name) <==> !Busy(s, name)
  {
    var s1 := Next(s, Register(name));
    if Busy(s, name) {
      var i :| i in s.threads && RunsJob(s.threads[i], name);
      var j := SomeIdIsFree(s.threads.Keys);
      ReRegisteringRunsTwice(s, i, j, name);
      var ls := [RunJobNow(name, j), Begin(j)];
      assert Register(name) !in ls && !Exclusive(Exec(s1, ls), name);
    } else {
      assert OnCurrent(s, name);
      NextKeepsCurrent(s, Register(name), name);
      RegisterKeepsRuns(s, name);
      NextKeepsControl(s, Register(name));
      forall ls: seq<Label> | Register(name) !in ls ensures Exclusive(Exec(s1, ls), name) {
        UnregisteredIsQuiet(s1, ls, name);
        ExecKeepsInv(s1, ls);
        ExecKeepsCurrent(s1, ls, name);
        CurrentIsExclusive(Exec(s1, ls), name);
      }
    }
  }

  lemma ExecCons(s: System, l: Label, ls: seq<Label>)
    ensures Exec(s, [l] + ls) == Exec(Next(s, l), ls)
  {
    assert ([l] + ls)[1..] == ls;
  }

  /** Two label lists in a row. */
  lemma {:induction false} ExecAppend(s: System, ls: seq<Label>, more: seq<Label>)
    ensures Exec(s, ls + more) == Exec(Exec(s, ls), more)
    decreases ls
  {
    if ls == [] {
      assert ls + more == more;
    } else {
      ExecAppend(Next(s, ls[0]), ls[1..], more);
      assert ls == [ls[0]] + ls[1..] && ls + more == [ls[0]] + (ls[1..] + more);
      ExecCons(s, ls[0], ls[1..]);
      ExecCons(s, ls[0], ls[1..] + more);
    }
  }

  lemma Exec4(s: System, a: Label, b: Label, c: Label, d: Label)
    ensures Exec(s, [a, b, c, d]) == Next(Next(Next(Next(s, a), b), c), d)
  {
    assert [a, b, c, d] == [a] + ([b] + ([c] + ([d] + [])));
    ExecCons(s, a, [b] + ([c] + ([d] + [])));
    ExecCons(Next(s, a), b, [c] + ([d] + []));
    ExecCons(Next(Next(s, a), b), c, [d] + []);
    ExecCons(Next(Next(Next(s, a), b), c), d, []);
  }

  const STARTING: seq<Label> := [Register("job"), CallStart, EnterLoop, Spawn(1)]
  const TRIGGERING: seq<Label> := [Spawn(2), RunJobNow("job", 0), Begin(0), Begin(1)]
  const STOPPING: seq<Label> := [CallStop, Cancel, Quit(1), Join]

  /** Right after the ticker of the only job is spawned. */
  predicate Started(s: System) {
    && s.control == Starting([]) && s.running && s.waitGroup == 1
    && s.table.jobs == ["job"] && CanBegin(s.table, "job") && s.completed == []
    && s.table.cells[s.table.statusOf["job"]].name == "job"
    && s.threads == map[1 := Thread(Ticker, "job", AtBegin)]
  }

  /** A manual trigger runs the job, and its ticker has skipped it. */
  predicate Triggered(s: System) {
    && s.control.Idle? && s.running && s.waitGroup == 1 && s.threads.Keys == {0, 1}
    && s.threads[0].kind.Manual? && s.threads[0].pc.InRun?
    && s.threads[1].kind.Ticker? && s.threads[1].pc.Waiting?
  }

  lemma StartingStarts()
    ensures Started(Exec(START, STARTING))
  {
    Exec4(START, Register("job"), CallStart, EnterLoop, Spawn(1));
  }

  lemma TriggeringTriggers(s: System)
    requires Started(s)
    ensures Triggered(Exec(s, TRIGGERING))
  {
    Exec4(s, Spawn(2), RunJobNow("job", 0), Begin(0), Begin(1));
  }

  /** Stop has returned; the manual run has not. */
  predicate StoppedDuringRun(s: System) {
    !s.running && s.control.Idle? && 0 in s.threads && s.threads[0].kind.Manual? && s.threads[0].pc.InRun?
  }

  lemma StoppingStops(s: System)
    requires Triggered(s)
    ensures StoppedDuringRun(Exec(s, STOPPING))
  {
    Exec4(s, CallStop, Cancel, Quit(1), Join);
  }

  lemma ExecThrice(s: System, a: seq<Label>, b: seq<Label>, c: seq<Label>)
    ensures Exec(s, a + b + c) == Exec(Exec(Exec(s, a), b), c)
  {
    ExecAppend(s, a + b, c);
    ExecAppend(s, a, b);
  }

  /** A manual run is not in the wait group: in this run Stop returns while one is still going. */
  lemma StopIgnoresManualRuns()
    ensures StoppedDuringRun(Exec(START, STARTING + TRIGGERING + STOPPING))
  {
    ExecThrice(START, STARTING, TRIGGERING, STOPPING);
    StartingStarts();
    TriggeringTriggers(Exec(START, STARTING));
    StoppingStops(Exec(Exec(START, STARTING), TRIGGERING));
  }

  // ---------------------------------------------------------------- what survives Stop

  /** Stop is in its wait and the wait is over: it returns. */
  predicate StopReturns(s: System) {
    s.control.Joining? && s.waitGroup == 0
  }

  predicate NothingActive(s: System) {
    forall i :: i in s.threads ==> Inactive(s.threads[i].pc)
  }

  predicate NoTriggers(ls: seq<Label>) {
    forall l :: l in ls ==> !l.RunJobNow?
  }

  /** However the goroutines go on, without another manual trigger nothing is active when Stop returns. */
  ghost predicate StopLeavesNothing(s: System) {
    forall ls: seq<Label> :: NoTriggers(ls) && StopReturns(Exec(s, ls)) ==> NothingActive(Exec(s, ls))
  }

  predicate ManualsExited(s: System) {
    forall i :: i in s.threads && s.threads[i].kind.Manual? ==> s.threads[i].pc.Exited?
  }

  lemma NextKeepsManuals(s: System, l: Label)
    requires ManualsExited(s) && !l.RunJobNow?
    ensures ManualsExited(Next(s, l))
  {
  }

  lemma {:induction false} ExecKeepsManuals(s: System, ls: seq<Label>)
    requires ManualsExited(s) && NoTriggers(ls)
    ensures ManualsExited(Exec(s, ls))
    decreases ls
  {
    if ls != [] {
      assert ls[0] in ls;
      NextKeepsManuals(s, ls[0]);
      ExecKeepsManuals(Next(s, ls[0]), ls[1..]);
    }
  }

  function StepsLeft(pc: Pc): nat {
    match pc
    case AtBegin => 4
    case InRun(_) => 3
    case AtEnd(_, _) => 2
    case Waiting => 1
    case Exited => 0
  }

  /** The next step of a goroutine on its way out, once the context is cancelled and its run returns. */
  function StepOut(t: Thread, id: nat): Label {
    match t.pc
    case AtBegin => Begin(id)
    case InRun(_) => RunReturns(id, None)
    case AtEnd(_, _) => End(id)
    case _ => Quit(id)
  }

  /** A move of goroutine `id` towards its exit: the control state and the other goroutines are as they were. */
  ghost predicate MovesOut(s: System, s': System, id: nat) {
    && s'.control == s.control && s'.cancelled == s.cancelled
    && id in s.threads && s'.threads.Keys == s.threads.Keys
    && (forall i :: i in s.threads && i != id ==> s'.threads[i] == s.threads[i])
    && s'.threads[id].kind == s.threads[id].kind
  }

  lemma NextKeepsInv(s: System, l: Label)
    requires Inv(s)
    ensures Inv(Next(s, l))
  {
    NextKeepsRuns(s, l);
    NextKeepsControl(s, l);
  }

  lemma StepOutMoves(s: System, id: nat)
    requires s.cancelled && id in s.threads && !s.threads[id].pc.Exited? && ThreadOk(s.table, s.threads[id])
    ensures MovesOut(s, Next(s, StepOut(s.threads[id], id)), id)
    ensures StepsLeft(Next(s, StepOut(s.threads[id], id)).threads[id].pc) < StepsLeft(s.threads[id].pc)
  {
  }

  /** One goroutine can always be driven to its exit. */
  lemma {:induction false} DriveOut(s: System, id: nat) returns (ls: seq<Label>)
    requires Inv(s) && s.cancelled && id in s.threads
    ensures NoTriggers(ls) && Inv(Exec(s, ls)) && MovesOut(s, Exec(s, ls), id) && Exec(s, ls).threads[id].pc.Exited?
    decreases StepsLeft(s.threads[id].pc)
  {
    ls := [];
    if !s.threads[id].pc.Exited? {
      var l := StepOut(s.threads[id], id);
      StepOutMoves(s, id);
      NextKeepsInv(s, l);
      var rest := DriveOut(Next(s, l), id);
      ls := [l] + rest;
      ExecCons(s, l, rest);
    }
  }

  function LiveOthers(s: System, keep: set<nat>): set<nat> {
    set i | i in s.threads && i !in keep && !s.threads[i].pc.Exited?
  }

  /** So can all of them, but for those that are kept as they are. */
  lemma {:induction false} DriveAllOut(s: System, keep: set<nat>) returns (ls: seq<Label>)
    requires Inv(s) && s.cancelled
    ensures NoTriggers(ls) && Inv(Exec(s, ls)) && LiveOthers(Exec(s, ls), keep) == {}
    ensures Exec(s, ls).control == s.control && Exec(s, ls).threads.Keys == s.threads.Keys
    ensures forall i :: i in s.threads && i in keep ==> Exec(s, ls).threads[i] == s.threads[i]
    decreases |LiveOthers(s, keep)|
  {
    ls := [];
    if id :| id in LiveOthers(s, keep) {
      var first := DriveOut(s, id);
      var s' := Exec(s, first);
      FewerOthers(s, s', id, keep);
      var rest := DriveAllOut(s', keep);
      ls := first + rest;
      ExecAppend(s, first, rest);
    }
  }

  lemma FewerOthers(s: System, s': System, id: nat, keep: set<nat>)
    requires id in LiveOthers(s, keep) && MovesOut(s, s', id) && s'.threads[id].pc.Exited?
    ensures |LiveOthers(s', keep)| < |LiveOthers(s, keep)|
  {
    assert LiveOthers(s', keep) <= LiveOthers(s, keep) - {id};
    SubsetSize(LiveOthers(s', keep), LiveOthers(s, keep) - {id});
  }

  lemma NoTickersLeft(s: System, keep: set<nat>)
    requires Inv(s) && LiveOthers(s, keep) == {}
    requires forall i :: i in s.threads && i in keep ==> s.threads[i].kind.Manual?
    ensures s.waitGroup == 0
  {
    forall i | i in s.threads && s.threads[i].kind.Ticker? ensures s.threads[i].pc.Exited? {
      assert i !in LiveOthers(s, keep);
    }
    assert LiveTickers(s.threads) == {};
  }

  /** Stop can always return: from every state of its wait the goroutines can go on to where it does. */
  lemma StopCanReturn(s: System) returns (ls: seq<Label>)
    requires Inv(s) && s.control.Joining?
    ensures NoTriggers(ls) && StopReturns(Exec(s, ls)) && LiveOthers(Exec(s, ls), {}) == {}
  {
    ls := DriveAllOut(s, {});
    NoTickersLeft(Exec(s, ls), {});
  }

  /** With every other goroutine gone, one that has not begun finds its job idle. */
  lemma LastOneBegins(s: System, m: nat)
    requires RunsOk(s) && LiveOthers(s, {m}) == {} && m in s.threads && s.threads[m].pc.AtBegin?
    ensures var s' := Exec(s, [Begin(m)]);
            s'.control == s.control && s'.waitGroup == s.waitGroup && m in s'.threads && s'.threads[m].pc.InRun?
  {
    ExecOne(s, Begin(m));
    assert ThreadOk(s.table, s.threads[m]);
    var c := s.table.statusOf[s.threads[m].name];
    forall i | i in s.threads ensures !OnCell(s.threads[i], c) {
      assert i !in LiveOthers(s, {m});
    }
  }

  /** A manual goroutine that has not exited can still be in its run when Stop returns. */
  lemma ManualSurvives(s: System, m: nat) returns (ls: seq<Label>)
    requires Inv(s) && s.control.Joining?
    requires m in s.threads && s.threads[m].kind.Manual? && !s.threads[m].pc.Exited?
    ensures NoTriggers(ls) && StopReturns(Exec(s, ls)) && !NothingActive(Exec(s, ls))
  {
    ls := DriveAllOut(s, {m});
    var s' := Exec(s, ls);
    assert ThreadOk(s.table, s.threads[m]) && s'.threads[m] == s.threads[m];
    NoTickersLeft(s', {m});
    if s'.threads[m].pc.AtBegin? {
      LastOneBegins(s', m);
      ExecAppend(s, ls, [Begin(m)]);
      ls := ls + [Begin(m)];
    }
  }

  lemma ExecOne(s: System, l: Label)
    ensures Exec(s, [l]) == Next(s, l)
  {
    assert [l][1..] == [];
  }

  /**
    When Stop has cancelled the context, it leaves nothing running, however the goroutines go on, exactly when every
    manual goroutine has exited by then.
   */
  lemma StopLeavesNothingIff(s: System)
    requires Inv(s) && s.control.Joining?
    ensures StopLeavesNothing(s) <==> ManualsExited(s)
  {
    if ManualsExited(s) {
      forall ls: seq<Label> | NoTriggers(ls) && StopReturns(Exec(s, ls)) ensures NothingActive(Exec(s, ls)) {
        ExecKeepsInv(s, ls);
        ExecKeepsManuals(s, ls);
        AllExited(Exec(s, ls));
      }
    } else {
      var m :| m in s.threads && s.threads[m].kind.Manual? && !s.threads[m].pc.Exited?;
      var ls := ManualSurvives(s, m);
      assert NoTriggers(ls) && StopReturns(Exec(s, ls)) && !NothingActive(Exec(s, ls));
    }
  }

  lemma AllExited(s: System)
    requires Inv(s) && s.waitGroup == 0 && ManualsExited(s)
    ensures forall i :: i in s.threads ==> s.threads[i].pc.Exited?
  {
    assert LiveTickers(s.threads) == {};
    forall i | i in s.threads ensures s.threads[i].pc.Exited? {
      assert i !in LiveTickers(s.threads);
    }
  }

  // ---------------------------------------------------------------- what does run

  /** Ticker `id` waits for its next tick, and its job is not running. */
  predicate ReadyToTick(s: System, id: nat) {
    && id in s.threads && s.threads[id].kind.Ticker? && s.threads[id].pc.Waiting?
    && s.threads[id].name in s.table.statusOf && s.table.statusOf[s.threads[id].name] < |s.table.cells|
    && !s.table.cells[s.table.statusOf[s.threads[id].name]].isRunning
  }

  /** On the next tick the job runs. */
  lemma TickRunsTheJob(s: System, id: nat)
    requires ReadyToTick(s, id)
    ensures var s' := Exec(s, [Tick(id), Begin(id)]);
            && id in s'.threads && s'.threads[id] == s.threads[id].(pc := InRun(s.table.statusOf[s.threads[id].name]))
            && |s'.table.cells| == |s.table.cells| && s'.table.cells[s.table.statusOf[s.threads[id].name]].isRunning
  {
    ExecCons(s, Tick(id), [Begin(id)]);
    assert [Tick(id)] + [Begin(id)] == [Tick(id), Begin(id)];
    ExecOne(Next(s, Tick(id)), Begin(id));
  }

  /** One whole round of a ticker loop: the job has run once more, its error is recorded, and the loop waits again. */
  lemma RoundRuns(s: System, id: nat, error: Option<string>)
    requires ReadyToTick(s, id)
    ensures var c := s.table.statusOf[s.threads[id].name];
            var s' := Exec(s, [Tick(id), Begin(id), RunReturns(id, error), End(id)]);
            && ReadyToTick(s', id) && s'.threads == s.threads && s'.control == s.control
            && s'.table == s.table.(cells := s'.table.cells) && |s'.table.cells| == |s.table.cells|
            && s'.table.cells[c].name == s.table.cells[c].name
            && s'.table.cells[c].runCount == s.table.cells[c].runCount + 1
            && s'.table.cells[c].errorCount == s.table.cells[c].errorCount + (if error.Some? then 1 else 0)
            && s'.table.cells[c].lastError == (if error.Some? then error.value else "")
            && s'.completed == s.completed + [Completion(c, error.Some?)]
  {
    Exec4(s, Tick(id), Begin(id), RunReturns(id, error), End(id));
    var c := s.table.statusOf[s.threads[id].name];
    var s2 := RoundBegins(s, id);
    RoundEnds(s2, id, c, error);
    var s4 := Next(Next(s2, RunReturns(id, error)), End(id));
    assert s4.threads[id] == s.threads[id];
    assert s4.threads == s.threads;
  }

  lemma RoundBegins(s: System, id: nat) returns (s2: System)
    requires ReadyToTick(s, id)
    ensures s2 == Next(Next(s, Tick(id)), Begin(id))
    ensures var c := s.table.statusOf[s.threads[id].name];
            && s2 == s.(table := Begun(s.table, c), threads := s.threads[id := s.threads[id].(pc := InRun(c))])
  {
    s2 := Next(Next(s, Tick(id)), Begin(id));
  }

  lemma RoundEnds(s: System, id: nat, c: nat, error: Option<string>)
    requires id in s.threads && s.threads[id].kind.Ticker? && s.threads[id].pc == InRun(c) && c < |s.table.cells|
    ensures Next(Next(s, RunReturns(id, error)), End(id))
            == s.(table := Ended(s.table, c, error), threads := s.threads[id := s.threads[id].(pc := Waiting)],
                  completed := s.completed + [Completion(c, error.Some?)])
  {
  }

  predicate NoStarts(ls: seq<Label>) {
    forall l :: l in ls ==> !l.CallStart? && !l.RunJobNow?
  }

  /** Without a second Start or a trigger, a waiting ticker can run its job any number of times. */
  lemma {:induction false} TickerRunsAgain(s: System, id: nat, n: nat) returns (ls: seq<Label>)
    requires ReadyToTick(s, id)
    ensures var s', c := Exec(s, ls), s.table.statusOf[s.threads[id].name];
            && NoStarts(ls) && ReadyToTick(s', id) && s'.threads == s.threads
            && s'.table == s.table.(cells := s'.table.cells) && |s'.table.cells| == |s.table.cells|
            && s'.table.cells[c].runCount == s.table.cells[c].runCount + n
            && s'.table.cells[c].name == s.table.cells[c].name
            && CountRuns(s'.completed, c) == CountRuns(s.completed, c) + n
    decreases n
  {
    ls := [];
    if n > 0 {
      var round := [Tick(id), Begin(id), RunReturns(id, None), End(id)];
      var s1 := Exec(s, round);
      RoundRuns(s, id, None);
      CountNext(s.completed, s1.completed, s.table.statusOf[s.threads[id].name]);
      var rest := TickerRunsAgain(s1, id, n - 1);
      ExecAppend(s, round, rest);
      ls := round + rest;
    }
  }

  lemma CountNext(done: seq<Completion>, done': seq<Completion>, c: nat)
    requires done' == done + [Completion(c, false)]
    ensures CountRuns(done', c) == CountRuns(done, c) + 1
  {
    assert done'[..|done'| - 1] == done;
  }

  const ONE_JOB: seq<Label> := STARTING + [Spawn(2), Begin(1), RunReturns(1, None), End(1)]

  /** The job's first run, right after Start, is over and its ticker waits. */
  predicate RanOnce(s: System) {
    && ReadyToTick(s, 1) && s.threads[1].name == "job"
    && s.table.cells[s.table.statusOf["job"]].name == "job"
    && CountRuns(s.completed, s.table.statusOf["job"]) == 1
  }

  lemma FirstRunReturns(s: System)
    requires Started(s)
    ensures RanOnce(Exec(s, [Spawn(2), Begin(1), RunReturns(1, None), End(1)]))
  {
    Exec4(s, Spawn(2), Begin(1), RunReturns(1, None), End(1));
    CountNext([], [Completion(s.table.statusOf["job"], false)], s.table.statusOf["job"]);
  }

  lemma JobHasRun()
    ensures RanOnce(Exec(START, ONE_JOB))
  {
    ExecAppend(START, STARTING, [Spawn(2), Begin(1), RunReturns(1, None), End(1)]);
    StartingStarts();
    FirstRunReturns(Exec(START, STARTING));
  }

  /** From the start: for every n there is a run with one Start in which the job's ticker has run it n + 1 times. */
  lemma JobRunsAnyNumberOfTimes(n: nat) returns (ls: seq<Label>)
    ensures NoStarts(ls)
    ensures var s := Exec(START, ONE_JOB + ls);
            exists c :: 0 <= c < |s.table.cells| && s.table.cells[c].name == "job" && CountRuns(s.completed, c) == n + 1
  {
    JobHasRun();
    var s := Exec(START, ONE_JOB);
    var c := s.table.statusOf["job"];
    ls := TickerRunsAgain(s, 1, n);
    ExecAppend(START, ONE_JOB, ls);
    assert Exec(s, ls).table.cells[c].name == "job";
  }

  /** While the scheduler is running no ticker loop ends. */
  lemma TickersStay(ls: seq<Label>, l: Label, id: nat)
    requires var s := Exec(START, ls);
             s.running && id in s.threads && s.threads[id].kind.Ticker? && !s.threads[id].pc.Exited?
    ensures var s' := Next(Exec(START, ls), l);
            id in s'.threads && s'.threads[id].kind.Ticker? && !s'.threads[id].pc.Exited?
  {
    ReachableInv(ls);
    assert ThreadOk(Exec(START, ls).table, Exec(START, ls).threads[id]);
  }

  // ---------------------------------------------------------------- what Start launches

  function Occurrences(names: seq<string>, name: string): nat {
    if names == [] then 0 else Occurrences(names[1..], name) + if names[0] == name then 1 else 0
  }

  /** The ticker loops launched for a name so far. */
  function TickersOf(threads: map<nat, Thread>, name: string): set<nat> {
    set i | i in threads && threads[i].kind.Ticker? && threads[i].name == name
  }

  /** The loops a Start has still to launch for it. */
  function Pending(s: System, name: string): nat {
    if s.control.Starting? then Occurrences(s.control.todo, name) else 0
  }

  /** The loops a step commits a Start to: one for each registration of the name at that time. */
  function Commits(s: System, l: Label, name: string): nat {
    if l.EnterLoop? && s.control.Launching? then Occurrences(s.table.jobs, name) else 0
  }

  lemma OneMoreTicker(threads: map<nat, Thread>, id: nat, t: Thread, name: string)
    requires id !in threads && t.kind.Ticker?
    ensures |TickersOf(threads[id := t], name)| == |TickersOf(threads, name)| + if t.name == name then 1 else 0
  {
    var before, after := TickersOf(threads, name), TickersOf(threads[id := t], name);
    assert after == if t.name == name then before + {id} else before;
  }

  lemma SpawnLaunches(s: System, id: nat, name: string)
    requires s.control.Starting? && id !in s.threads && s.control.todo != []
    ensures |TickersOf(Next(s, Spawn(id)).threads, name)|
            == |TickersOf(s.threads, name)| + if s.control.todo[0] == name then 1 else 0
  {
    OneMoreTicker(s.threads, id, Thread(Ticker, s.control.todo[0], AtBegin), name);
  }

  lemma OthersLaunchNothing(s: System, l: Label, name: string)
    requires !l.Spawn?
    ensures TickersOf(Next(s, l).threads, name) == TickersOf(s.threads, name)
  {
  }

  lemma NextLaunches(s: System, l: Label, name: string)
    ensures |TickersOf(Next(s, l).threads, name)| + Pending(Next(s, l), name)
            == |TickersOf(s.threads, name)| + Pending(s, name) + Commits(s, l, name)
  {
    if l.Spawn? {
      if s.control.Starting? && l.id !in s.threads && s.control.todo != [] {
        SpawnLaunches(s, l.id, name);
      }
    } else {
      OthersLaunchNothing(s, l, name);
    }
  }

  function Committed(s: System, ls: seq<Label>, name: string): nat
    decreases ls
  {
    if ls == [] then 0 else Commits(s, ls[0], name) + Committed(Next(s, ls[0]), ls[1..], name)
  }

  lemma {:induction false} ExecLaunches(s: System, ls: seq<Label>, name: string)
    ensures |TickersOf(Exec(s, ls).threads, name)| + Pending(Exec(s, ls), name)
            == |TickersOf(s.threads, name)| + Pending(s, name) + Committed(s, ls, name)
    decreases ls
  {
    if ls != [] {
      NextLaunches(s, ls[0], name);
      ExecLaunches(Next(s, ls[0]), ls[1..], name);
    }
  }

  /**
    When no Start is under way, every registration that a Start has found has its one ticker loop, and no other has.
   */
  lemma StartLaunchesOneEach(ls: seq<Label>, name: string)
    requires !Exec(START, ls).control.Starting?
    ensures |TickersOf(Exec(START, ls).threads, name)| == Committed(START, ls, name)
  {
    ExecLaunches(START, ls, name);
    assert TickersOf(START.threads, name) == {};
  }

  lemma {:induction false} NothingCommitted(s: System, ls: seq<Label>, name: string)
    requires forall l :: l in ls ==> !l.EnterLoop?
    ensures Committed(s, ls, name) == 0
    decreases ls
  {
    if ls != [] {
      assert ls[0] in ls;
      NothingCommitted(Next(s, ls[0]), ls[1..], name);
    }
  }

  /** One Start: when it has returned, it has launched as many loops for a name as the name was registered. */
  lemma OneStartLaunches(s: System, ls: seq<Label>, name: string)
    requires s.control.Launching? && forall l :: l in ls ==> !l.EnterLoop?
    requires Exec(Next(s, EnterLoop), ls).control.Idle?
    ensures |TickersOf(Exec(Next(s, EnterLoop), ls).threads, name)|
            == |TickersOf(s.threads, name)| + Occurrences(s.table.jobs, name)
  {
    NextLaunches(s, EnterLoop, name);
    ExecLaunches(Next(s, EnterLoop), ls, name);
    NothingCommitted(Next(s, EnterLoop), ls, name);
  }

  lemma {:induction false} OccursOnce(names: seq<string>, name: string)
    requires forall i, j :: 0 <= i < j < |names| ==> names[i] != names[j]
    ensures Occurrences(names, name) == if name in names then 1 else 0
  {
    if names != [] {
      OccursOnce(names[1..], name);
    }
  }
}
