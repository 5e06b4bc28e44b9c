/** The promises of the crawl lifecycle, for every run, interleaving and store failure. */
module LifecycleResults {
  import opened Requests
  import opened Budgets
  import opened CrawlTable
  import opened Lifecycle
  import opened LifecycleSafety

  type Projects = set<(string, string)>

  /** What holds of the table at one moment of a run is carried to any later moment. */
  lemma {:induction false} RunKeepsTable(limits: Limits, projects: Projects, steps: seq<Step>, n: nat)
    requires n <= |steps| && Lifecycle.Feasible(limits, projects, steps)
    ensures Lifecycle.Feasible(limits, projects, steps[..n])
    ensures TableStep(After(limits, projects, steps[..n]).table, After(limits, projects, steps).table)
    decreases |steps|
  {
    if n == |steps| {
      assert steps[..n] == steps;
    } else {
      var before := steps[..|steps| - 1];
      assert before[..n] == steps[..n];
      RunKeepsTable(limits, projects, before, n);
      EveryStateIsSafe(limits, projects, before);
      StepKeepsTable(limits, After(limits, projects, before), steps[|steps| - 1]);
      TableStepTransitive(After(limits, projects, steps[..n]).table, After(limits, projects, before).table,
                          After(limits, projects, steps).table);
    }
  }

  /**
   In every state a row occupies its project's slot exactly while it is queued
   or running, and no project has two such rows.
   */
  lemma RowsAreConsistent(limits: Limits, projects: Projects, steps: seq<Step>, i: string, j: string)
    requires Lifecycle.Feasible(limits, projects, steps)
    requires i in After(limits, projects, steps).table.rows && j in After(limits, projects, steps).table.rows
    ensures var rows := After(limits, projects, steps).table.rows;
            && (rows[i].activeSlot <==> rows[i].state.Queued? || rows[i].state.Running?)
            && (rows[i].activeSlot && rows[j].activeSlot && rows[i].project == rows[j].project ==> i == j)
  {
    EveryStateIsSafe(limits, projects, steps);
    assert RowInv(After(limits, projects, steps).table.rows[i]);
  }

  /** A terminal row never changes again in any column, and an upstream crawl id once written stays. */
  lemma TerminalForever(limits: Limits, projects: Projects, steps: seq<Step>, n: nat, id: string)
    requires n <= |steps| && Lifecycle.Feasible(limits, projects, steps)
    requires Lifecycle.Feasible(limits, projects, steps[..n]) && id in After(limits, projects, steps[..n]).table.rows
    ensures var was := After(limits, projects, steps[..n]).table.rows[id];
            && id in After(limits, projects, steps).table.rows
            && var now := After(limits, projects, steps).table.rows[id];
            && (Terminal(was.state) ==> now == was)
            && (was.upstream.Some? ==> now.upstream == was.upstream)
  {
    RunKeepsTable(limits, projects, steps, n);
  }

  lemma BindReports(limits: Limits, t: Table, b: Budget, running: map<string, bool>, s: Session, a: Act)
    requires TableInv(t) && Shape(s) && Owns(t, s) && Faithful(t, s) && CanAct(s, running, a) && a.Bind? && a.fault.NoFault?
    ensures SessionAfter(limits, t, b, running, s, a).worker == Reporting(Outcome(true, s.worker, a.at), false)
  {
    assert RowInv(t.rows[s.id]);
  }

  /** As long as none of the session's store calls failed, binding succeeds, so the callback reports cancel, then failure, then success. */
  lemma ReportIsTheWorkersOwn(limits: Limits, projects: Projects, steps: seq<Step>, k: nat, a: Act)
    requires Lifecycle.Feasible(limits, projects, steps + [At(k, a)]) && a.Bind? && a.fault.NoFault?
    requires Lifecycle.Feasible(limits, projects, steps) && After(limits, projects, steps).sessions[k].faults == 0
    ensures var was := After(limits, projects, steps).sessions[k].worker;
            var now := After(limits, projects, steps + [At(k, a)]).sessions[k].worker;
            && now.Reporting?
            && now.result.state == (if was.canceled then Canceled else if was.runFailed then Failed else Succeeded)
            && (now.result.failure != "" <==> now.result.state.Failed?)
            && now.result.urls == was.urls && now.result.issues == was.issues
  {
    assert (steps + [At(k, a)])[..|steps|] == steps;
    EveryStateIsSafe(limits, projects, steps);
    var sys := After(limits, projects, steps);
    BindReports(limits, sys.table, sys.budget, sys.running, sys.sessions[k], a);
  }

  /** A failed binding is reported as such, whatever the worker found. */
  lemma BindingFailureIsReported(limits: Limits, projects: Projects, steps: seq<Step>, k: nat, a: Act)
    requires Lifecycle.Feasible(limits, projects, steps + [At(k, a)]) && a.Bind? && !a.fault.NoFault?
    requires Lifecycle.Feasible(limits, projects, steps)
    ensures var was := After(limits, projects, steps).sessions[k].worker;
            After(limits, projects, steps + [At(k, a)]).sessions[k].worker
            == Reporting(Completion(Failed, "state_persist_failed", was.urls, was.issues, a.at), false)
  {
    assert (steps + [At(k, a)])[..|steps|] == steps;
  }

  lemma RetryReports(limits: Limits, sys: System, k: nat, first: Fault, second: Fault)
    requires TableInv(sys.table) && ShapeInv(sys) && OwnInv(sys) && OutcomeInv(sys)
    requires k < |sys.sessions| && sys.sessions[k].worker.Reporting? && sys.sessions[k].faults == 0 && !first.NoFault?
    ensures Lifecycle.Enabled(sys, At(k, Report(first)))
    ensures var w, mid := sys.sessions[k].worker, ApplyAct(limits, sys, k, Report(first));
            && mid.sessions[k].worker == Reporting(w.result, true) && Lifecycle.Enabled(mid, At(k, Report(second)))
            && var end := ApplyAct(limits, mid, k, Report(second));
            && end.sessions[k].worker == Freeing(w.result)
            && (!(first.Lost? && second.Lost?) ==>
                  sys.sessions[k].id in end.table.rows && Matches(end.table.rows[sys.sessions[k].id], w.result))
  {
    var s := sys.sessions[k];
    assert Shape(s) && Owns(sys.table, s) && Faithful(sys.table, s);
    assert RowInv(sys.table.rows[s.id]);
  }

  /**
   The verdict is reported at most twice: after one failed report the worker
   tries again, and then goes on to free its slot in any case. Unless both
   statements were lost, the row is as the worker reported.
   */
  lemma ReportIsRetriedOnce(limits: Limits, projects: Projects, steps: seq<Step>, k: nat, first: Fault, second: Fault)
    requires Lifecycle.Feasible(limits, projects, steps) && k < |After(limits, projects, steps).sessions| && !first.NoFault?
    requires var s := After(limits, projects, steps).sessions[k];
             s.worker.Reporting? && s.faults == 0
    ensures Lifecycle.Feasible(limits, projects, steps + [At(k, Report(first))] + [At(k, Report(second))])
    ensures var s := After(limits, projects, steps).sessions[k];
            var end := After(limits, projects, steps + [At(k, Report(first))] + [At(k, Report(second))]);
            && end.sessions[k].worker == Freeing(s.worker.result)
            && (!(first.Lost? && second.Lost?) ==> s.id in end.table.rows && Matches(end.table.rows[s.id], s.worker.result))
  {
    var once := steps + [At(k, Report(first))];
    assert once[..|steps|] == steps;
    assert (once + [At(k, Report(second))])[..|once|] == once;
    EveryStateIsSafe(limits, projects, steps);
    RetryReports(limits, After(limits, projects, steps), k, first, second);
  }

  /** A call that fails a guard is refused at once and stays so: no slot, no row, no worker. */
  lemma {:induction false} IllFormedIsRefused(limits: Limits, projects: Projects, steps: seq<Step>, k: nat)
    requires Lifecycle.Feasible(limits, projects, steps) && k < |After(limits, projects, steps).sessions|
    ensures RefusedAtOnce(After(limits, projects, steps).sessions[k])
    decreases |steps|
  {
    var before, step := steps[..|steps| - 1], steps[|steps| - 1];
    var sys := After(limits, projects, before);
    if k < |sys.sessions| {
      IllFormedIsRefused(limits, projects, before, k);
    }
    StepKeepsRefusal(limits, sys, step, k);
  }

  /** What a session whose call failed a guard looks like. */
  predicate RefusedAtOnce(s: Session) {
    var p := s.call.principal;
    && (p.keyId == "" || p.tenant == "" || s.call.project == "" ==>
          s == Session(s.call, Returned(Refused(CrawlNotFound)), NoSlot, "", 0, Absent, 0))
    && (p.keyId != "" && p.tenant != "" && s.call.project != ""
        && (s.call.idempotencyKey == "" || |s.call.idempotencyKey| > 191) ==>
          s == Session(s.call, Returned(Refused(IdempotencyKeyRequired)), NoSlot, "", 0, Absent, 0))
  }

  /** The guards let exactly the well-formed calls through. */
  lemma GuardsPassWellFormed(c: StartCall)
    ensures WellFormed(c) <==> FirstPc(c) == Replaying
  {
  }

  lemma StepKeepsRefusal(limits: Limits, sys: System, step: Step, k: nat)
    requires Lifecycle.Enabled(sys, step) && k < |Lifecycle.Apply(limits, sys, step).sessions|
    requires k < |sys.sessions| ==> RefusedAtOnce(sys.sessions[k])
    ensures RefusedAtOnce(Lifecycle.Apply(limits, sys, step).sessions[k])
  {
    if step.At? && step.k == k {
      KeepsCall(limits, sys.table, sys.budget, sys.running, sys.sessions[k], step.act);
    }
  }

  lemma KeepsCall(limits: Limits, t: Table, b: Budget, running: map<string, bool>, s: Session, a: Act)
    requires CanAct(s, running, a)
    ensures SessionAfter(limits, t, b, running, s, a).call == s.call
    ensures !s.pc.Returned? || !s.worker.Absent?
  {
  }

  /**
   The start/completion race: once a worker is done and none of its session's
   store calls has failed, its row has the state and totals it reported, whichever
   of StartCrawl and the callback came first and whatever failed elsewhere; later
   steps, failures and restarts keep it so.
   */
  lemma WorkerVerdictStands(limits: Limits, projects: Projects, steps: seq<Step>, n: nat, k: nat)
    requires n <= |steps| && Lifecycle.Feasible(limits, projects, steps) && Lifecycle.Feasible(limits, projects, steps[..n])
    requires var sys := After(limits, projects, steps[..n]);
             k < |sys.sessions| && sys.sessions[k].faults == 0 && sys.sessions[k].worker.Done?
    ensures var s := After(limits, projects, steps[..n]).sessions[k];
            && s.id in After(limits, projects, steps).table.rows
            && var row, result := After(limits, projects, steps).table.rows[s.id], s.worker.result;
            && row.state == result.state && row.failure == result.failure && row.urls == result.urls
            && row.issues == result.issues && row.finishedAt == Some(result.at)
            && (row.state.Succeeded? || row.state.Failed? || row.state.Canceled?)
  {
    EveryStateIsSafe(limits, projects, steps[..n]);
    var sys := After(limits, projects, steps[..n]);
    assert Faithful(sys.table, sys.sessions[k]);
    TerminalForever(limits, projects, steps, n, sys.sessions[k].id);
  }

  /**
   A start that fails after its row was reserved returns an error, gives the slot
   back, and fails the row with its own code unless the worker settled it first.
   */
  lemma FailedStartSettlesRow(limits: Limits, projects: Projects, steps: seq<Step>, k: nat, a: Act)
    requires Lifecycle.Feasible(limits, projects, steps + [At(k, a)]) && a.FailRow? && a.fault.NoFault?
    requires Lifecycle.Feasible(limits, projects, steps)
    ensures var sys, sys' := After(limits, projects, steps), After(limits, projects, steps + [At(k, a)]);
            var s, s' := sys.sessions[k], sys'.sessions[k];
            && s'.pc == Returned(Error) && s'.slot.Freed?
            && s.id in sys.table.rows && s.id in sys'.table.rows
            && var was, now := sys.table.rows[s.id], sys'.table.rows[s.id];
            && (Terminal(was.state) ==> now == was)
            && (!Terminal(was.state) ==> now.state == Failed && now.failure == s.pc.code && now.finishedAt == Some(a.at))
  {
    assert (steps + [At(k, a)])[..|steps|] == steps;
    EveryStateIsSafe(limits, projects, steps);
    var sys := After(limits, projects, steps);
    FailRowSettles(limits, sys, k, a);
  }

  lemma FailRowSettles(limits: Limits, sys: System, k: nat, a: Act)
    requires TableInv(sys.table) && ShapeInv(sys) && OwnInv(sys)
    requires Lifecycle.Enabled(sys, At(k, a)) && a.FailRow? && a.fault.NoFault?
    ensures var s, s', t' := sys.sessions[k], ApplyAct(limits, sys, k, a).sessions[k], ApplyAct(limits, sys, k, a).table;
            && s'.pc == Returned(Error) && s'.slot.Freed?
            && s.id in sys.table.rows && s.id in t'.rows
            && (Terminal(sys.table.rows[s.id].state) ==> t'.rows[s.id] == sys.table.rows[s.id])
            && (!Terminal(sys.table.rows[s.id].state) ==>
                  t'.rows[s.id].state == Failed && t'.rows[s.id].failure == s.pc.code && t'.rows[s.id].finishedAt == Some(a.at))
  {
    var s := sys.sessions[k];
    assert Shape(s) && SlotFits(s) && Owns(sys.table, s);
    assert RowInv(sys.table.rows[s.id]);
  }

  // Cancellation reaches the worker.

  /**
   * A cancellation that finds its crawl unfinished records itself, unless the statement was lost, and orders a stop
   * when statement and look-up both succeed; any other changes nothing.
   */
  lemma CancelOrdersStop(limits: Limits, sys: System, p: Principal, project: string, id: string, at: int, fault: Fault,
                         lookedUp: bool)
    ensures var sys' := Lifecycle.Apply(limits, sys, Lifecycle.Step.Cancel(p, project, id, at, fault, lookedUp));
            var due := CancelSucceeds(sys.table, p, project, id) && !Terminal(sys.table.rows[id].state);
            && (if due && !fault.Lost? then sys'.table.rows[id].cancelRequested else sys'.table == sys.table)
            && (if due && fault.NoFault? && lookedUp then Lifecycle.Enabled(sys', StopProject(project))
                else sys'.stops == sys.stops)
            && (due || sys' == sys)
  {
    assert sys.table == sys.table.(rows := sys.table.rows);
  }

  /** A step that stops the crawler of a project: a cancellation's, or that of a start call that failed late. */
  predicate StopsProject(sys: System, step: Step, project: string)
    requires Lifecycle.Enabled(sys, step)
  {
    || step == StopProject(project)
    || (step.At? && step.act.StopWorker? && sys.sessions[step.k].call.project == project)
  }

  /** The k-th session's worker has its flag up, or has read it so and reports it, binding failures aside. */
  predicate Stopped(s: Session, running: map<string, bool>) {
    match s.worker
    case Absent => false
    case Crawling => IsCanceled(running, s.call.project)
    case Binding(canceled, _, _, _) => canceled
    case _ => s.faults == 0 ==> s.worker.result.state == Canceled
  }

  predicate StoppedAt(sys: System, k: nat) {
    k < |sys.sessions| && Stopped(sys.sessions[k], sys.running)
  }

  /** Only the launch and the removal of a project's own worker take its flag down. */
  lemma FlagStays(running: map<string, bool>, s: Session, a: Act, project: string)
    requires CanAct(s, running, a) && IsCanceled(running, project)
    requires a.Remove? ==> s.call.project != project
    ensures IsCanceled(RunningAfter(running, s, a), project)
  {
  }

  /** Another session's act leaves a stopped worker stopped. */
  lemma OthersKeepStopped(limits: Limits, sys: System, j: nat, a: Act, k: nat)
    requires LiveInv(sys) && Lifecycle.Enabled(sys, At(j, a)) && StoppedAt(sys, k) && j != k
    ensures StoppedAt(ApplyAct(limits, sys, j, a), k)
  {
    if sys.sessions[k].worker.Crawling? {
      assert a.Remove? ==> Live(sys.sessions[j].worker);
      FlagStays(sys.running, sys.sessions[j], a, sys.sessions[k].call.project);
    }
  }

  lemma OwnActKeepsStopped(limits: Limits, sys: System, k: nat, a: Act)
    requires TableInv(sys.table) && ShapeInv(sys) && OwnInv(sys) && OutcomeInv(sys)
    requires Lifecycle.Enabled(sys, At(k, a)) && StoppedAt(sys, k)
    ensures StoppedAt(ApplyAct(limits, sys, k, a), k)
  {
    var s := sys.sessions[k];
    assert Shape(s);
    if a.Bind? {
      if s.faults == 0 && a.fault.NoFault? {
        BindReports(limits, sys.table, sys.budget, sys.running, s, a);
      }
    } else if s.worker.Crawling? && !a.FinishRun? {
      FlagStays(sys.running, s, a, s.call.project);
    }
  }

  lemma StepKeepsStopped(limits: Limits, sys: System, step: Step, k: nat)
    requires LifecycleSafety.Inv(limits, sys) && Lifecycle.Enabled(sys, step) && !step.Restart? && StoppedAt(sys, k)
    ensures StoppedAt(Lifecycle.Apply(limits, sys, step), k)
  {
    match step
    case At(j, a) =>
      if j == k { OwnActKeepsStopped(limits, sys, k, a); } else { OthersKeepStopped(limits, sys, j, a, k); }
    case _ =>
  }

  lemma StopRaisesFlag(limits: Limits, sys: System, step: Step, k: nat)
    requires LiveInv(sys) && k < |sys.sessions| && sys.sessions[k].worker.Crawling?
    requires Lifecycle.Enabled(sys, step) && StopsProject(sys, step, sys.sessions[k].call.project)
    ensures StoppedAt(Lifecycle.Apply(limits, sys, step), k)
  {
  }

  /** A worker that reports a cancel now and did not before was crawling when this step stopped its project. */
  lemma CancelHasCause(limits: Limits, sys: System, step: Step, k: nat)
    requires ShapeInv(sys) && Lifecycle.Enabled(sys, step)
    requires var sys' := Lifecycle.Apply(limits, sys, step);
             k < |sys'.sessions| && ReportsCancel(sys'.sessions[k], sys'.running)
    ensures k < |sys.sessions| && !step.Restart?
    ensures ReportsCancel(sys.sessions[k], sys.running)
            || (sys.sessions[k].worker.Crawling? && StopsProject(sys, step, sys.sessions[k].call.project))
  {
    match step
    case At(j, a) =>
      if j == k {
        OwnCancelHasCause(limits, sys, k, a);
      } else if sys.sessions[k].worker.Crawling? {
        FlagHasCause(sys.running, sys.sessions[j], a, sys.sessions[k].call.project);
      }
    case _ =>
  }

  lemma OwnCancelHasCause(limits: Limits, sys: System, k: nat, a: Act)
    requires ShapeInv(sys) && Lifecycle.Enabled(sys, At(k, a))
    requires var sys' := ApplyAct(limits, sys, k, a);
             ReportsCancel(sys'.sessions[k], sys'.running)
    ensures ReportsCancel(sys.sessions[k], sys.running)
            || (sys.sessions[k].worker.Crawling? && StopsProject(sys, At(k, a), sys.sessions[k].call.project))
  {
    assert Shape(sys.sessions[k]);
  }

  /** Only StopWorker raises a flag among the acts. */
  lemma FlagHasCause(running: map<string, bool>, s: Session, a: Act, project: string)
    requires CanAct(s, running, a) && IsCanceled(RunningAfter(running, s, a), project)
    ensures IsCanceled(running, project) || (a.StopWorker? && s.call.project == project)
  {
  }

  predicate ReportsCancel(s: Session, running: map<string, bool>) {
    match s.worker
    case Absent => false
    case Crawling => IsCanceled(running, s.call.project)
    case Binding(canceled, _, _, _) => canceled
    case _ => s.worker.result.state == Canceled
  }

  /** The state after one more step of a run. */
  lemma NextState(limits: Limits, projects: Projects, steps: seq<Step>, n: nat)
    requires n < |steps| && Lifecycle.Feasible(limits, projects, steps[..n + 1])
    ensures Lifecycle.Feasible(limits, projects, steps[..n])
    ensures Lifecycle.Enabled(After(limits, projects, steps[..n]), steps[n])
    ensures After(limits, projects, steps[..n + 1]) == Lifecycle.Apply(limits, After(limits, projects, steps[..n]), steps[n])
  {
    var longer := steps[..n + 1];
    assert longer[..|longer| - 1] == steps[..n] && longer[|longer| - 1] == steps[n];
  }

  /** The n-th step of the run, taken by the process that still runs at its end, met the k-th worker crawling and stopped its project. */
  ghost predicate MetAt(limits: Limits, projects: Projects, steps: seq<Step>, k: nat, n: nat) {
    && n < |steps|
    && (forall i :: n <= i < |steps| ==> !steps[i].Restart?)
    && Lifecycle.Feasible(limits, projects, steps[..n])
    && var sys := After(limits, projects, steps[..n]);
    && Lifecycle.Enabled(sys, steps[n])
    && k < |sys.sessions| && sys.sessions[k].worker.Crawling?
    && StopsProject(sys, steps[n], sys.sessions[k].call.project)
  }

  lemma {:induction false} StopSticks(limits: Limits, projects: Projects, steps: seq<Step>, n: nat, k: nat)
    requires n <= |steps| && Lifecycle.Feasible(limits, projects, steps) && Lifecycle.Feasible(limits, projects, steps[..n])
    requires StoppedAt(After(limits, projects, steps[..n]), k)
    requires forall i :: n <= i < |steps| ==> !steps[i].Restart?
    ensures StoppedAt(After(limits, projects, steps), k)
    decreases |steps|
  {
    if n == |steps| {
      assert steps[..n] == steps;
    } else {
      var before, step := steps[..|steps| - 1], steps[|steps| - 1];
      assert before[..n] == steps[..n];
      StopSticks(limits, projects, before, n, k);
      EveryStateIsSafe(limits, projects, before);
      StepKeepsStopped(limits, After(limits, projects, before), step, k);
    }
  }

  lemma StopReachesWorker(limits: Limits, projects: Projects, steps: seq<Step>, n: nat, k: nat)
    requires Lifecycle.Feasible(limits, projects, steps) && MetAt(limits, projects, steps, k, n)
    ensures StoppedAt(After(limits, projects, steps), k)
  {
    var sys := After(limits, projects, steps[..n]);
    RunKeepsTable(limits, projects, steps, n + 1);
    NextState(limits, projects, steps, n);
    assert LiveInv(sys) by {
      EveryStateIsSafe(limits, projects, steps[..n]);
    }
    StopRaisesFlag(limits, sys, steps[n], k);
    StopSticks(limits, projects, steps, n + 1, k);
  }

  lemma MetEarlier(limits: Limits, projects: Projects, steps: seq<Step>, k: nat, n: nat)
    requires steps != [] && !steps[|steps| - 1].Restart? && MetAt(limits, projects, steps[..|steps| - 1], k, n)
    ensures MetAt(limits, projects, steps, k, n)
  {
    assert steps[..|steps| - 1][..n] == steps[..n];
  }

  lemma MetNow(limits: Limits, projects: Projects, steps: seq<Step>, k: nat)
    requires steps != [] && Lifecycle.Feasible(limits, projects, steps) && !steps[|steps| - 1].Restart?
    requires var sys := After(limits, projects, steps[..|steps| - 1]);
             && k < |sys.sessions| && sys.sessions[k].worker.Crawling?
             && StopsProject(sys, steps[|steps| - 1], sys.sessions[k].call.project)
    ensures MetAt(limits, projects, steps, k, |steps| - 1)
  {
  }

  lemma {:induction false} CancelWasMet(limits: Limits, projects: Projects, steps: seq<Step>, k: nat) returns (n: nat)
    requires Lifecycle.Feasible(limits, projects, steps) && k < |After(limits, projects, steps).sessions|
    requires ReportsCancel(After(limits, projects, steps).sessions[k], After(limits, projects, steps).running)
    ensures MetAt(limits, projects, steps, k, n)
    decreases |steps|
  {
    var before, step := steps[..|steps| - 1], steps[|steps| - 1];
    var sys := After(limits, projects, before);
    assert ShapeInv(sys) by {
      EveryStateIsSafe(limits, projects, before);
    }
    CancelHasCause(limits, sys, step, k);
    if ReportsCancel(sys.sessions[k], sys.running) {
      n := CancelWasMet(limits, projects, before, k);
      MetEarlier(limits, projects, steps, k, n);
    } else {
      MetNow(limits, projects, steps, k);
      n := |before|;
    }
  }

  /**
   Which cancels are honoured: the row of a finished worker none of whose store
   calls failed is canceled if and only if a stop of its project met the worker
   while it was crawling. A stop that comes before the launch is lost.
   */
  lemma CancelIsHonoured(limits: Limits, projects: Projects, steps: seq<Step>, k: nat)
    requires Lifecycle.Feasible(limits, projects, steps) && k < |After(limits, projects, steps).sessions|
    requires var s := After(limits, projects, steps).sessions[k];
             s.worker.Done? && s.faults == 0
    ensures var sys := After(limits, projects, steps);
            && sys.sessions[k].id in sys.table.rows
            && (sys.table.rows[sys.sessions[k].id].state == Canceled <==> exists n :: MetAt(limits, projects, steps, k, n))
  {
    EveryStateIsSafe(limits, projects, steps);
    var sys := After(limits, projects, steps);
    assert Faithful(sys.table, sys.sessions[k]);
    if n :| MetAt(limits, projects, steps, k, n) {
      StopReachesWorker(limits, projects, steps, n, k);
    }
    if sys.table.rows[sys.sessions[k].id].state == Canceled {
      var n := CancelWasMet(limits, projects, steps, k);
    }
  }

  // Slots

  /** The budget's counters are the unreleased grants, by tenant and in total, within both limits. */
  lemma SlotsAreConserved(limits: Limits, projects: Projects, steps: seq<Step>)
    requires Lifecycle.Feasible(limits, projects, steps)
    ensures var sys := After(limits, projects, steps);
            && sys.budget.total == Sum(sys.budget.perKey) == |HeldTenants(sys.sessions)|
            && (forall t :: CountOf(sys.budget, t) == HeldTenants(sys.sessions)[t])
            && (limits.total > 0 ==> sys.budget.total <= limits.total)
            && (limits.perKey > 0 ==> forall t :: CountOf(sys.budget, t) <= limits.perKey)
  {
    EveryStateIsSafe(limits, projects, steps);
    var sys := After(limits, projects, steps);
    TotalIsSum(limits, sys.budget, HeldTenants(sys.sessions));
  }

  /** A start call is refused for quota exactly when the unreleased slots of its tenant, or of all tenants, have reached a limit. */
  lemma QuotaRefusalIsJust(limits: Limits, projects: Projects, steps: seq<Step>, k: nat)
    requires Lifecycle.Feasible(limits, projects, steps + [At(k, Acquire)]) && Lifecycle.Feasible(limits, projects, steps)
    ensures var sys, s' := After(limits, projects, steps), After(limits, projects, steps + [At(k, Acquire)]).sessions[k];
            var held, tenant := HeldTenants(sys.sessions), sys.sessions[k].call.principal.tenant;
            var full := || (limits.perKey > 0 && held[tenant] >= limits.perKey)
                        || (limits.total > 0 && |held| >= limits.total);
            if full then s'.pc == Returned(QuotaExceeded) && s'.slot.NoSlot? else s'.pc == Checking && s'.slot.Held?
  {
    assert (steps + [At(k, Acquire)])[..|steps|] == steps;
    var sys := After(limits, projects, steps);
    assert SlotInv(limits, sys) && Shape(sys.sessions[k]) && SlotFits(sys.sessions[k]) by {
      EveryStateIsSafe(limits, projects, steps);
    }
    RoomIffBelowLimits(limits, sys.budget, HeldTenants(sys.sessions), sys.sessions[k].call.principal.tenant);
  }

  predicate Quiet(s: Session) {
    s.pc.Returned? && (s.worker.Absent? || s.worker.Done?)
  }

  lemma {:induction false} QuietHoldsNothing(sessions: seq<Session>)
    requires forall k :: 0 <= k < |sessions| ==> Quiet(sessions[k]) && Shape(sessions[k]) && SlotFits(sessions[k])
    ensures HeldTenants(sessions) == multiset{}
  {
    if sessions != [] {
      QuietHoldsNothing(sessions[..|sessions| - 1]);
      var s := sessions[|sessions| - 1];
      assert Quiet(s) && Shape(s) && SlotFits(s);
    }
  }

  /** When all calls have returned and all workers are done, every slot has been given back. */
  lemma NoSlotLeaks(limits: Limits, projects: Projects, steps: seq<Step>)
    requires Lifecycle.Feasible(limits, projects, steps)
    requires forall k :: 0 <= k < |After(limits, projects, steps).sessions| ==> Quiet(After(limits, projects, steps).sessions[k])
    ensures After(limits, projects, steps).budget == UNUSED
  {
    EveryStateIsSafe(limits, projects, steps);
    var sys := After(limits, projects, steps);
    QuietHoldsNothing(sys.sessions);
    assert sys.budget.perKey == map[];
  }

  /** No slot is given back twice: a freed slot stays freed for the rest of the session. */
  lemma SlotIsFreedOnce(limits: Limits, projects: Projects, steps: seq<Step>, k: nat, a: Act)
    requires Lifecycle.Feasible(limits, projects, steps + [At(k, a)]) && Lifecycle.Feasible(limits, projects, steps)
    ensures var sys, sys' := After(limits, projects, steps), After(limits, projects, steps + [At(k, a)]);
            && (sys.sessions[k].slot.Freed? ==> sys'.sessions[k].slot.Freed? && sys'.budget == sys.budget)
            && (sys.sessions[k].slot.Held? && sys'.sessions[k].slot.Freed? ==> sys'.budget.total == sys.budget.total - 1)
  {
    assert (steps + [At(k, a)])[..|steps|] == steps;
    EveryStateIsSafe(limits, projects, steps);
    var sys := After(limits, projects, steps);
    ActKeepsShape(limits, sys.table, sys.budget, sys.running, sys.sessions[k], a);
  }

  /** Over a whole run, restarts included, no (API key, idempotency key) pair starts two workers. */
  lemma OneWorkerPerKey(limits: Limits, projects: Projects, steps: seq<Step>, m: nat, n: nat)
    requires Lifecycle.Feasible(limits, projects, steps) && m < n < |After(limits, projects, steps).launched|
    ensures After(limits, projects, steps).launched[m].key != After(limits, projects, steps).launched[n].key
  {
    EveryStateIsSafe(limits, projects, steps);
  }

  /** All successful answers to one key name one crawl, at whatever moments of the run they were given. */
  lemma AnswersAgree(limits: Limits, projects: Projects, steps: seq<Step>, n: nat, j: nat, k: nat)
    requires n <= |steps| && Lifecycle.Feasible(limits, projects, steps) && Lifecycle.Feasible(limits, projects, steps[..n])
    requires j < |After(limits, projects, steps[..n]).sessions| && k < |After(limits, projects, steps).sessions|
    requires var a, b := After(limits, projects, steps[..n]).sessions[j], After(limits, projects, steps).sessions[k];
             && KeyOf(a.call) == KeyOf(b.call) && a.pc.Returned? && b.pc.Returned?
             && (a.pc.answer.Started? || a.pc.answer.Replay?) && (b.pc.answer.Started? || b.pc.answer.Replay?)
    ensures After(limits, projects, steps[..n]).sessions[j].pc.answer.crawl
            == After(limits, projects, steps).sessions[k].pc.answer.crawl
  {
    EveryStateIsSafe(limits, projects, steps[..n]);
    EveryStateIsSafe(limits, projects, steps);
    RunKeepsTable(limits, projects, steps, n);
    AnswerIsRecorded(After(limits, projects, steps[..n]), j);
    AnswerIsRecorded(After(limits, projects, steps), k);
  }

  lemma AnswerIsRecorded(sys: System, k: nat)
    requires ShapeInv(sys) && OwnInv(sys) && k < |sys.sessions| && sys.sessions[k].pc.Returned?
    requires sys.sessions[k].pc.answer.Started? || sys.sessions[k].pc.answer.Replay?
    ensures KeyOf(sys.sessions[k].call) in sys.table.records
    ensures sys.table.records[KeyOf(sys.sessions[k].call)].crawl == sys.sessions[k].pc.answer.crawl
  {
    assert Shape(sys.sessions[k]) && Owns(sys.table, sys.sessions[k]) && ReplayFits(sys.table, sys.sessions[k]);
  }

  /**
   Over every run: a call that reuses another project's key never gets a row,
   never launches a worker and is never answered with a crawl.
   */
  lemma ReuseGetsNothing(limits: Limits, projects: Projects, steps: seq<Step>, k: nat)
    requires Lifecycle.Feasible(limits, projects, steps) && k < |After(limits, projects, steps).sessions|
    requires var sys := After(limits, projects, steps);
             var c := sys.sessions[k].call;
             KeyOf(c) in sys.table.records && sys.table.records[KeyOf(c)].project != c.project
    ensures var s := After(limits, projects, steps).sessions[k];
            && s.id == "" && s.worker.Absent? && !HasRow(s.pc)
            && (s.pc.Returned? ==> !s.pc.answer.Started? && !s.pc.answer.Replay? && !s.slot.Held?)
  {
    EveryStateIsSafe(limits, projects, steps);
    ReusedKeyGetsNothing(After(limits, projects, steps), k);
  }

  lemma ReusedKeyGetsNothing(sys: System, k: nat)
    requires TableInv(sys.table) && ShapeInv(sys) && OwnInv(sys) && k < |sys.sessions|
    requires var c := sys.sessions[k].call;
             KeyOf(c) in sys.table.records && sys.table.records[KeyOf(c)].project != c.project
    ensures var s := sys.sessions[k];
            && s.id == "" && s.worker.Absent? && !HasRow(s.pc)
            && (s.pc.Returned? ==> !s.pc.answer.Started? && !s.pc.answer.Replay? && !s.slot.Held?)
  {
    var s := sys.sessions[k];
    assert Shape(s) && SlotFits(s) && Owns(sys.table, s) && ReplayFits(sys.table, s);
    assert RecordFits(sys.table, sys.table.records[KeyOf(s.call)]);
  }

  /** Both look-ups refuse such a call and change no row or record; what the call had acquired is given back. */
  lemma ReuseChangesNothing(limits: Limits, sys: System, k: nat, a: Act)
    requires Lifecycle.Enabled(sys, At(k, a)) && WellFormed(sys.sessions[k].call)
    requires ShapeInv(sys) && FaultOf(a).NoFault? && (a.FindReplay? || a.ReserveRow?)
    requires var c := sys.sessions[k].call;
             && KeyOf(c) in sys.table.records
             && sys.table.records[KeyOf(c)].tenant == c.principal.tenant
             && sys.table.records[KeyOf(c)].project != c.project
    ensures var s, sys' := sys.sessions[k], Lifecycle.Apply(limits, sys, At(k, a));
            && sys'.sessions[k].pc == Returned(Refused(IdempotencyConflict)) && !sys'.sessions[k].slot.Held?
            && sys'.table == sys.table && sys'.launched == sys.launched
            && sys'.budget == if a.ReserveRow? then Released(sys.budget, s.call.principal.tenant) else sys.budget
  {
    var c := sys.sessions[k].call;
    ReuseIsRefused(sys.table, c.principal, c.project, c.idempotencyKey, if a.ReserveRow? then a.newId else "", 0);
    if a.ReserveRow? {
      ReuseIsRefused(sys.table, c.principal, c.project, c.idempotencyKey, a.newId, a.at);
    }
    assert SlotFits(sys.sessions[k]);
  }

  // What a start call answers, step by step

  /** A key that was used for the same project is answered with the recorded crawl by either look-up, at no cost. */
  lemma ReplayIsAnswered(limits: Limits, projects: Projects, steps: seq<Step>, k: nat, a: Act)
    requires Lifecycle.Feasible(limits, projects, steps + [At(k, a)]) && Lifecycle.Feasible(limits, projects, steps)
    requires (a.FindReplay? || a.ReserveRow?) && FaultOf(a).NoFault?
    requires var sys := After(limits, projects, steps);
             var c := sys.sessions[k].call;
             && WellFormed(c) && KeyOf(c) in sys.table.records && sys.table.records[KeyOf(c)].project == c.project
             && MaySee(c.principal, sys.table.records[KeyOf(c)].tenant, c.project)
    ensures var sys, sys' := After(limits, projects, steps), After(limits, projects, steps + [At(k, a)]);
            && sys'.sessions[k].pc == Returned(Replay(sys.table.records[KeyOf(sys.sessions[k].call)].crawl))
            && !sys'.sessions[k].slot.Held? && sys'.sessions[k].worker.Absent? && sys'.table == sys.table
  {
    assert (steps + [At(k, a)])[..|steps|] == steps;
    EveryStateIsSafe(limits, projects, steps);
    KnownKeyIsReplayed(limits, After(limits, projects, steps), k, a);
  }

  lemma KnownKeyIsReplayed(limits: Limits, sys: System, k: nat, a: Act)
    requires TableInv(sys.table) && ShapeInv(sys) && Lifecycle.Enabled(sys, At(k, a))
    requires (a.FindReplay? || a.ReserveRow?) && FaultOf(a).NoFault?
    requires var c := sys.sessions[k].call;
             && WellFormed(c) && KeyOf(c) in sys.table.records && sys.table.records[KeyOf(c)].project == c.project
             && MaySee(c.principal, sys.table.records[KeyOf(c)].tenant, c.project)
    ensures var sys' := ApplyAct(limits, sys, k, a);
            && sys'.sessions[k].pc == Returned(Replay(sys.table.records[KeyOf(sys.sessions[k].call)].crawl))
            && !sys'.sessions[k].slot.Held? && sys'.sessions[k].worker.Absent? && sys'.table == sys.table
  {
    var c := sys.sessions[k].call;
    assert Shape(sys.sessions[k]) && SlotFits(sys.sessions[k]);
    assert RecordFits(sys.table, sys.table.records[KeyOf(c)]);
    ReplayDecides(sys.table, c.principal, c.project, c.idempotencyKey);
  }

  /** A new key of a known project without unfinished crawl reserves its row and goes on to launch. */
  lemma NewKeyIsReserved(limits: Limits, sys: System, k: nat, a: Act)
    requires LifecycleSafety.Inv(limits, sys) && Lifecycle.Enabled(sys, At(k, a)) && a.ReserveRow? && a.fault.NoFault? && a.newId != ""
    requires var c := sys.sessions[k].call;
             && WellFormed(c) && KeyOf(c) !in sys.table.records && (c.principal.tenant, c.project) in sys.table.projects
             && a.newId !in sys.table.rows
             && forall i :: i in sys.table.rows && sys.table.rows[i].project == c.project ==> !Unfinished(sys.table.rows[i])
    ensures var sys' := ApplyAct(limits, sys, k, a);
            && sys'.sessions[k].pc == Launching && sys'.sessions[k].id == a.newId && sys'.sessions[k].slot.Held?
            && a.newId in sys'.table.rows && sys'.table.rows[a.newId].state == Queued
            && sys'.table.records == sys.table.records[KeyOf(sys.sessions[k].call)
                                       := Record(sys.sessions[k].call.principal.tenant, sys.sessions[k].call.project, a.newId)]
  {
    var c := sys.sessions[k].call;
    assert SlotFits(sys.sessions[k]);
    ReserveDecides(sys.table, c.principal, c.project, c.idempotencyKey, a.newId, a.at);
  }

  /** A failed look-up, project check or reservation ends the call with an error and gives its slot back. */
  lemma FailedCallsGiveUp(limits: Limits, projects: Projects, steps: seq<Step>, k: nat, a: Act)
    requires Lifecycle.Feasible(limits, projects, steps + [At(k, a)]) && Lifecycle.Feasible(limits, projects, steps)
    requires (a.FindReplay? && !a.fault.NoFault?) || (a.ReserveRow? && !a.fault.NoFault?) || a == Check(false)
    ensures var s' := After(limits, projects, steps + [At(k, a)]).sessions[k];
            s'.pc == Returned(Error) && !s'.slot.Held? && s'.worker.Absent?
  {
    assert (steps + [At(k, a)])[..|steps|] == steps;
    var sys := After(limits, projects, steps);
    assert Shape(sys.sessions[k]) && SlotFits(sys.sessions[k]) by {
      EveryStateIsSafe(limits, projects, steps);
    }
  }

  /** When MarkCrawlRunning fails the call does not answer "started" but stops its worker and fails the row. */
  lemma FailedMarkStops(limits: Limits, sys: System, k: nat, a: Act)
    requires Lifecycle.Enabled(sys, At(k, a)) && a.MarkRow? && !a.fault.NoFault?
    ensures var stopping := ApplyAct(limits, sys, k, a);
            && stopping.sessions[k].pc == Stopping && Lifecycle.Enabled(stopping, At(k, StopWorker))
            && var failing := ApplyAct(limits, stopping, k, StopWorker);
            && failing.sessions[k].pc == Failing("state_persist_failed")
            && var project := sys.sessions[k].call.project;
               project in stopping.running ==> project in failing.running && failing.running[project]
  {
  }

  /** A lost call leaves the tables as they were, an unsure one does what an acknowledged one does. */
  lemma FaultsAreFaithful(t: Table, s: Session, a: Act)
    ensures FaultOf(a).Lost? ==> TableAfter(t, s, a) == t
    ensures a.MarkRow? && !a.fault.Lost? ==> TableAfter(t, s, a) == MarkRunning(t, s.call.principal.tenant, s.id, s.upstream, a.at)
    ensures a.Bind? && !a.fault.Lost? ==> TableAfter(t, s, a) == MarkRunning(t, s.call.principal.tenant, s.id, s.upstream, a.at)
    ensures a.Report? && !a.fault.Lost? && s.worker.Reporting? ==>
              TableAfter(t, s, a) == Complete(t, s.call.principal.tenant, s.id, s.worker.result)
    ensures a.ReserveRow? && !a.fault.Lost? ==>
              TableAfter(t, s, a) == Reserve(t, s.call.principal, s.call.project, s.call.idempotencyKey, a.newId, a.at)
  {
  }

  /** A project never has two live workers, so a crawl's archive path is not shared. */
  lemma OneWorkerPerProject(limits: Limits, projects: Projects, steps: seq<Step>, i: nat, j: nat)
    requires Lifecycle.Feasible(limits, projects, steps) && i < j < |After(limits, projects, steps).sessions|
    requires Live(After(limits, projects, steps).sessions[i].worker) && Live(After(limits, projects, steps).sessions[j].worker)
    ensures After(limits, projects, steps).sessions[i].call.project != After(limits, projects, steps).sessions[j].call.project
  {
    EveryStateIsSafe(limits, projects, steps);
  }

  /**
   * A restart forgets the budget and the workers. If its recovery reaches the store no row stays active,
   * otherwise the table is as the last run left it.
   */
  lemma RestartClears(limits: Limits, projects: Projects, steps: seq<Step>, at: int, fault: Fault)
    requires Lifecycle.Feasible(limits, projects, steps)
    ensures Lifecycle.Feasible(limits, projects, steps + [Restart(at, fault)])
    ensures var sys := After(limits, projects, steps + [Restart(at, fault)]);
            && sys.budget == UNUSED && sys.sessions == []
            && if fault.Lost? then sys.table == After(limits, projects, steps).table
               else forall id :: id in sys.table.rows ==>
                                   Terminal(sys.table.rows[id].state) && !sys.table.rows[id].activeSlot
  {
    assert (steps + [Restart(at, fault)])[..|steps|] == steps;
    EveryStateIsSafe(limits, projects, steps);
    RecoverKeeps(After(limits, projects, steps).table, at);
  }
}
