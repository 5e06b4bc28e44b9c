/**
 The crawl lifecycle as a step machine: StartCrawl calls, their completion
 callbacks, cancellations and restarts, interleaved statement by statement, with
 every store call allowed to fail before or after it took effect.
 */
module Lifecycle {
  import opened Budgets
  import opened CrawlTable

  /** Lost: not applied, error returned. Unsure: applied, error returned. */
  datatype Fault = NoFault | Lost | Unsure

  datatype StartCall = StartCall(principal: Principal, project: string, idempotencyKey: string)

  function KeyOf(c: StartCall): Key {
    Key(c.principal.keyId, c.idempotencyKey)
  }

  datatype Answer = Started(crawl: string) | Replay(crawl: string) | Refused(reply: Reply) | QuotaExceeded | Error

  /** Where a StartCrawl call is; each value names the call it makes next. */
  datatype Pc =
    | Replaying | Acquiring | Checking | Reserving | Launching | Marking
    | Stopping | Failing(code: string) | Returned(answer: Answer)

  /** The deferred release and the callback's release share one sync.Once. */
  datatype Slot = NoSlot | Held | Freed

  /** The crawl goroutine and its completion callback; Binding is entered once the cancel flag was read. */
  datatype Worker =
    | Absent
    | Crawling
    | Binding(canceled: bool, runFailed: bool, urls: int, issues: int)
    | Reporting(result: Completion, retried: bool)
    | Freeing(result: Completion)
    | Removing(result: Completion)
    | Done(result: Completion)

  /**
   One StartCrawl call with the worker it may have launched. `id` is empty until
   its row is reserved; `faults` counts the failed store calls of the call and its worker.
   */
  datatype Session = Session(call: StartCall, pc: Pc, slot: Slot, id: string, upstream: int, worker: Worker, faults: nat)

  datatype Act =
    | FindReplay(fault: Fault)
    | Acquire
    | Check(ok: bool)
    | ReserveRow(newId: string, at: int, fault: Fault)
    | Launch(ok: bool, upstreamId: int)
    | MarkRow(at: int, fault: Fault)
    | StopWorker
    | FailRow(at: int, fault: Fault)
    // the worker's
    | FinishRun(failed: bool, foundUrls: int, foundIssues: int)
    | Bind(at: int, fault: Fault)
    | Report(fault: Fault)
    | Free
    | Remove

  datatype Launched = Launched(key: Key, id: string)

  /** `running` is the crawler map with its cancel flags; `stops` are StopCrawler calls still to be made. */
  datatype System = System(table: Table, budget: Budget, sessions: seq<Session>, running: map<string, bool>,
                           stops: multiset<string>, launched: seq<Launched>)

  datatype Step =
    | Begin(call: StartCall)
    | At(k: nat, act: Act)
    | Cancel(principal: Principal, project: string, crawl: string, at: int, fault: Fault, lookedUp: bool)
    | StopProject(project: string)
    | Restart(at: int, fault: Fault)

  /** What passes StartCrawl's early guards. */
  predicate WellFormed(c: StartCall) {
    && c.principal.keyId != "" && c.principal.tenant != "" && c.project != ""
    && c.idempotencyKey != "" && |c.idempotencyKey| <= 191
  }

  /** Where a call starts: a call that fails a guard returns at once. */
  function FirstPc(c: StartCall): Pc {
    if c.principal.keyId == "" || c.principal.tenant == "" || c.project == "" then Returned(Refused(CrawlNotFound))
    else if c.idempotencyKey == "" || |c.idempotencyKey| > 191 then Returned(Refused(IdempotencyKeyRequired))
    else Replaying
  }

  predicate CanAct(s: Session, running: map<string, bool>, a: Act) {
    match a
    case FindReplay(_) => s.pc.Replaying?
    case Acquire => s.pc.Acquiring?
    case Check(_) => s.pc.Checking?
    case ReserveRow(_, _, _) => s.pc.Reserving?
    case Launch(ok, _) => s.pc.Launching? && (ok ==> s.call.project !in running)
    case MarkRow(_, _) => s.pc.Marking?
    case StopWorker => s.pc.Stopping?
    case FailRow(_, _) => s.pc.Failing?
    case FinishRun(_, _, _) => s.worker.Crawling?
    case Bind(_, _) => s.worker.Binding?
    case Report(_) => s.worker.Reporting?
    case Free => s.worker.Freeing?
    case Remove => s.worker.Removing?
  }

  function FaultOf(a: Act): Fault {
    match a
    case FindReplay(f) => f
    case ReserveRow(_, _, f) => f
    case MarkRow(_, f) => f
    case FailRow(_, f) => f
    case Bind(_, f) => f
    case Report(f) => f
    case _ => NoFault
  }

  function StartFailure(code: string, at: int): Completion {
    Completion(Failed, code, 0, 0, at)
  }

  /** The statement an act executes, when it is not lost. */
  function Statement(t: Table, s: Session, a: Act): Table {
    var p := s.call.principal;
    match a
    case ReserveRow(newId, at, _) => Reserve(t, p, s.call.project, s.call.idempotencyKey, newId, at)
    case MarkRow(at, _) => MarkRunning(t, p.tenant, s.id, s.upstream, at)
    case FailRow(at, _) => if s.pc.Failing? then Complete(t, p.tenant, s.id, StartFailure(s.pc.code, at)) else t
    case Bind(at, _) => MarkRunning(t, p.tenant, s.id, s.upstream, at)
    case Report(_) => if s.worker.Reporting? then Complete(t, p.tenant, s.id, s.worker.result) else t
    case _ => t
  }

  function TableAfter(t: Table, s: Session, a: Act): Table {
    if FaultOf(a).Lost? then t else Statement(t, s, a)
  }

  /** StartCrawl returns; its deferred function frees the slot unless a started worker owns it. */
  function Return(s: Session, answer: Answer): Session {
    s.(pc := Returned(answer), slot := if s.slot.Held? && !answer.Started? then Freed else s.slot)
  }

  /** The completion the callback reports: a failed binding wins over a cancel, a cancel over a run error. */
  function Outcome(bound: bool, w: Worker, at: int): Completion
    requires w.Binding?
  {
    if !bound then Completion(Failed, "state_persist_failed", w.urls, w.issues, at)
    else if w.canceled then Completion(Canceled, "", w.urls, w.issues, at)
    else if w.runFailed then Completion(Failed, "crawl_failed", w.urls, w.issues, at)
    else Completion(Succeeded, "", w.urls, w.issues, at)
  }

  predicate IsCanceled(running: map<string, bool>, project: string) {
    project in running && running[project]
  }

  /** The session after its act: its next point, and its fault count. */
  function SessionAfter(limits: Limits, t: Table, budget: Budget, running: map<string, bool>, s: Session, a: Act): Session
    requires CanAct(s, running, a)
  {
    Proceed(limits, t, budget, running, s, a).(faults := s.faults + Faulted(FaultOf(a)))
  }

  function Faulted(f: Fault): nat {
    if f.NoFault? then 0 else 1
  }

  function Proceed(limits: Limits, t: Table, budget: Budget, running: map<string, bool>, s: Session, a: Act): Session
    requires CanAct(s, running, a)
  {
    var c := s.call;
    match a
    case FindReplay(fault) =>
      if !fault.NoFault? then Return(s, Error)
      else
        var r := CrawlTable.FindReplay(t, c.principal, c.project, c.idempotencyKey);
        if r.Missing? then s.(pc := Acquiring)
        else if r.Replayed? then Return(s, Replay(r.crawl)) else Return(s, Refused(r))
    case Acquire =>
      if HasRoom(limits, budget, c.principal.tenant) then s.(pc := Checking, slot := Held) else Return(s, QuotaExceeded)
    case Check(ok) => if ok then s.(pc := Reserving) else Return(s, Error)
    case ReserveRow(newId, _, fault) =>
      if !fault.NoFault? then Return(s, Error)
      else
        var r := ReserveReply(t, c.principal, c.project, c.idempotencyKey, newId);
        if r.Reserved? then s.(pc := Launching, id := newId)
        else if r.Replayed? then Return(s, Replay(r.crawl)) else Return(s, Refused(r))
    case Launch(ok, upstreamId) =>
      if ok then s.(pc := Marking, upstream := upstreamId, worker := Crawling) else s.(pc := Failing("start_failed"))
    case MarkRow(_, fault) =>
      if fault.NoFault? && MarkSucceeds(t, c.principal.tenant, s.id) then Return(s, Started(s.id)) else s.(pc := Stopping)
    case StopWorker => s.(pc := Failing("state_persist_failed"))
    case FailRow(_, _) => Return(s, Error)
    case FinishRun(failed, urls, issues) =>
      s.(worker := Binding(IsCanceled(running, c.project), failed, urls, issues))
    case Bind(at, fault) =>
      var bound := fault.NoFault? && MarkSucceeds(t, c.principal.tenant, s.id);
      s.(worker := Reporting(Outcome(bound, s.worker, at), false))
    case Report(fault) =>
      var w := s.worker;
      if (fault.NoFault? && CompleteSucceeds(t, c.principal.tenant, s.id, w.result)) || w.retried
      then s.(worker := Freeing(w.result)) else s.(worker := w.(retried := true))
    case Free => s.(worker := Removing(s.worker.result), slot := if s.slot.Held? then Freed else s.slot)
    case Remove => s.(worker := Done(s.worker.result))
  }

  /** The budget follows the session's slot. */
  function BudgetAfter(b: Budget, s: Session, s': Session): Budget {
    var tenant := s.call.principal.tenant;
    if !s.slot.Held? && s'.slot.Held? then Acquired(b, tenant)
    else if s.slot.Held? && !s'.slot.Held? then Released(b, tenant)
    else b
  }

  function SetStop(running: map<string, bool>, project: string): map<string, bool> {
    if project in running then running[project := true] else running
  }

  function RunningAfter(running: map<string, bool>, s: Session, a: Act): map<string, bool> {
    match a
    case Launch(true, _) => running[s.call.project := false]
    case StopWorker => SetStop(running, s.call.project)
    case Remove => running - {s.call.project}
    case _ => running
  }

  predicate Enabled(sys: System, step: Step) {
    match step
    case Begin(_) => true
    case At(k, a) => k < |sys.sessions| && CanAct(sys.sessions[k], sys.running, a)
    case Cancel(_, _, _, _, _, _) => true
    case StopProject(project) => project in sys.stops
    case Restart(_, _) => true
  }

  function ApplyAct(limits: Limits, sys: System, k: nat, a: Act): System
    requires Enabled(sys, At(k, a))
  {
    var s := sys.sessions[k];
    var s' := SessionAfter(limits, sys.table, sys.budget, sys.running, s, a);
    System(TableAfter(sys.table, s, a), BudgetAfter(sys.budget, s, s'), sys.sessions[k := s'],
           RunningAfter(sys.running, s, a), sys.stops,
           if a.Launch? && a.ok then sys.launched + [Launched(KeyOf(s.call), s.id)] else sys.launched)
  }

  function Apply(limits: Limits, sys: System, step: Step): System
    requires Enabled(sys, step)
  {
    match step
    case Begin(c) => sys.(sessions := sys.sessions + [Session(c, FirstPc(c), NoSlot, "", 0, Absent, 0)])
    case At(k, a) => ApplyAct(limits, sys, k, a)
    case Cancel(p, project, id, at, fault, lookedUp) =>
      var table := if fault.Lost? then sys.table else RequestCancel(sys.table, p, project, id, at);
      var stop := fault.NoFault? && lookedUp && CancelSucceeds(sys.table, p, project, id)
                  && !Terminal(sys.table.rows[id].state);
      sys.(table := table, stops := if stop then sys.stops + multiset{project} else sys.stops)
    case StopProject(project) =>
      sys.(running := SetStop(sys.running, project), stops := sys.stops - multiset{project})
    case Restart(at, fault) =>
      System(if fault.Lost? then sys.table else RecoverInterrupted(sys.table, at),
             UNUSED, [], map[], multiset{}, sys.launched)
  }

  function Init(projects: set<(string, string)>): System {
    System(Table(map[], map[], projects), UNUSED, [], map[], multiset{}, [])
  }

  // Runs

  predicate Feasible(limits: Limits, projects: set<(string, string)>, steps: seq<Step>)
    decreases |steps|, 0
  {
    steps != [] ==>
      var before := steps[..|steps| - 1];
      Feasible(limits, projects, before) && Enabled(After(limits, projects, before), steps[|steps| - 1])
  }

  function After(limits: Limits, projects: set<(string, string)>, steps: seq<Step>): System
    requires Feasible(limits, projects, steps)
    decreases |steps|, 1
  {
    if steps == [] then Init(projects)
    else Apply(limits, After(limits, projects, steps[..|steps| - 1]), steps[|steps| - 1])
  }
}
