/** A run in which an acknowledged cancel is lost, because its stop finds no crawler yet. */
module LifecycleWitness {
  import opened Requests
  import opened Budgets
  import opened CrawlTable
  import opened Lifecycle

  const LIMITS := Limits(0, 0)

  function Projects(c: StartCall): set<(string, string)> {
    {(c.principal.tenant, c.project)}
  }

  /** A well-formed call by a credential that may cancel, and the id its crawl gets. */
  predicate Caller(c: StartCall, id: string) {
    WellFormed(c) && c.principal.project == "" && id != ""
  }

  /** A system with one session and no stop on its way. */
  function Single(t: Table, b: Budget, s: Session, running: map<string, bool>, launched: seq<Launched>): System {
    System(t, b, [s], running, multiset{}, launched)
  }

  /** The run `steps` ends in the given system. */
  predicate Leads(c: StartCall, steps: seq<Step>, sys: System) {
    Feasible(LIMITS, Projects(c), steps) && After(LIMITS, Projects(c), steps) == sys
  }

  lemma Extend(c: StartCall, steps: seq<Step>, sys: System, step: Step)
    requires Leads(c, steps, sys) && Enabled(sys, step)
    ensures Leads(c, steps + [step], Apply(LIMITS, sys, step))
  {
    assert (steps + [step])[..|steps|] == steps;
  }

  /** The run goes on with an act of its only session, given part by part. */
  lemma Then(c: StartCall, steps: seq<Step>, t: Table, b: Budget, s: Session, running: map<string, bool>, launched: seq<Launched>,
             a: Act, t': Table, b': Budget, s': Session, running': map<string, bool>, launched': seq<Launched>)
    requires Leads(c, steps, Single(t, b, s, running, launched))
    requires CanAct(s, running, a) && SessionAfter(LIMITS, t, b, running, s, a) == s'
    requires TableAfter(t, s, a) == t' && BudgetAfter(b, s, s') == b' && RunningAfter(running, s, a) == running'
    requires launched' == if a.Launch? && a.ok then launched + [Launched(KeyOf(s.call), s.id)] else launched
    ensures Leads(c, steps + [At(0, a)], Single(t', b', s', running', launched'))
  {
    Extend(c, steps, Single(t, b, s, running, launched), At(0, a));
    assert [s][0 := s'] == [s'];
  }

  // What the run goes through

  function Empty(c: StartCall): Table {
    Table(map[], map[], Projects(c))
  }

  function Rows(c: StartCall, id: string, r: Row): Table {
    Table(map[id := r], map[KeyOf(c) := Record(c.principal.tenant, c.project, id)], Projects(c))
  }

  function OneSlot(c: StartCall): Budget {
    Budget(map[c.principal.tenant := 1], 1)
  }

  function QueuedRow(c: StartCall): Row {
    Row(c.principal.tenant, c.project, Queued, true, None, false, "", 0, 0, 0, None, None, 0)
  }

  function CanceledRow(c: StartCall): Row {
    QueuedRow(c).(cancelRequested := true)
  }

  function RunningRow(c: StartCall): Row {
    CanceledRow(c).(upstream := Some(1), state := Running, startedAt := Some(0))
  }

  const RESULT := Completion(Succeeded, "", 0, 0, 0)

  function DoneRow(c: StartCall): Row {
    RunningRow(c).(state := Succeeded, activeSlot := false, finishedAt := Some(0))
  }

  function Fresh(c: StartCall): Session {
    Session(c, Replaying, NoSlot, "", 0, Absent, 0)
  }

  function Holding(c: StartCall): Session {
    Session(c, Checking, Held, "", 0, Absent, 0)
  }

  function Reserved(c: StartCall, id: string): Session {
    Session(c, Launching, Held, id, 0, Absent, 0)
  }

  function StartedWith(c: StartCall, id: string, w: Worker): Session {
    Session(c, Returned(Started(id)), Held, id, 1, w, 0)
  }

  function Log(c: StartCall, id: string): seq<Launched> {
    [Launched(KeyOf(c), id)]
  }

  function Opening(c: StartCall, id: string): seq<Step> {
    [Begin(c)] + [At(0, FindReplay(NoFault))] + [At(0, Acquire)] + [At(0, Check(true))] + [At(0, ReserveRow(id, 0, NoFault))]
  }

  lemma Begins(c: StartCall, id: string)
    requires Caller(c, id)
    ensures Leads(c, [Begin(c)], Single(Empty(c), UNUSED, Fresh(c), map[], []))
  {
    assert Leads(c, [], Init(Projects(c))) && FirstPc(c) == Replaying;
    Extend(c, [], Init(Projects(c)), Begin(c));
    assert [] + [Begin(c)] == [Begin(c)] && [] + [Fresh(c)] == [Fresh(c)];
  }

  lemma Acquires(c: StartCall, id: string)
    requires Caller(c, id)
    ensures Leads(c, [Begin(c)] + [At(0, FindReplay(NoFault))] + [At(0, Acquire)],
                  Single(Empty(c), OneSlot(c), Holding(c), map[], []))
  {
    Begins(c, id);
    Then(c, [Begin(c)], Empty(c), UNUSED, Fresh(c), map[], [], FindReplay(NoFault),
         Empty(c), UNUSED, Fresh(c).(pc := Acquiring), map[], []);
    Then(c, [Begin(c)] + [At(0, FindReplay(NoFault))], Empty(c), UNUSED, Fresh(c).(pc := Acquiring), map[], [], Acquire,
         Empty(c), OneSlot(c), Holding(c), map[], []);
  }

  lemma Opens(c: StartCall, id: string)
    requires Caller(c, id)
    ensures Leads(c, Opening(c, id), Single(Rows(c, id, QueuedRow(c)), OneSlot(c), Reserved(c, id), map[], []))
  {
    var steps := [Begin(c)] + [At(0, FindReplay(NoFault))] + [At(0, Acquire)];
    Acquires(c, id);
    Then(c, steps, Empty(c), OneSlot(c), Holding(c), map[], [], Check(true),
         Empty(c), OneSlot(c), Holding(c).(pc := Reserving), map[], []);
    assert (c.principal.tenant, c.project) in Projects(c) && !HasActive(Empty(c), c.project);
    Then(c, steps + [At(0, Check(true))], Empty(c), OneSlot(c), Holding(c).(pc := Reserving), map[], [], ReserveRow(id, 0, NoFault),
         Rows(c, id, QueuedRow(c)), OneSlot(c), Reserved(c, id), map[], []);
  }

  function CancelStep(c: StartCall, id: string): Step {
    Step.Cancel(c.principal, c.project, id, 0, NoFault, true)
  }

  /** The cancel is recorded and ordered, but the stop finds no crawler. */
  function Canceling(c: StartCall, id: string): seq<Step> {
    Opening(c, id) + [CancelStep(c, id)] + [StopProject(c.project)]
  }

  lemma Cancels(c: StartCall, id: string)
    requires Caller(c, id)
    ensures Leads(c, Canceling(c, id), Single(Rows(c, id, CanceledRow(c)), OneSlot(c), Reserved(c, id), map[], []))
  {
    Opens(c, id);
    var sys := Single(Rows(c, id, QueuedRow(c)), OneSlot(c), Reserved(c, id), map[], []);
    assert map[id := QueuedRow(c)][id := CanceledRow(c)] == map[id := CanceledRow(c)];
    Extend(c, Opening(c, id), sys, CancelStep(c, id));
    Extend(c, Opening(c, id) + [CancelStep(c, id)], Apply(LIMITS, sys, CancelStep(c, id)), StopProject(c.project));
  }

  function Starting(c: StartCall, id: string): seq<Step> {
    Canceling(c, id) + [At(0, Launch(true, 1))] + [At(0, MarkRow(0, NoFault))]
  }

  lemma Starts(c: StartCall, id: string)
    requires Caller(c, id)
    ensures Leads(c, Starting(c, id),
                  Single(Rows(c, id, RunningRow(c)), OneSlot(c), StartedWith(c, id, Crawling), map[c.project := false], Log(c, id)))
  {
    Cancels(c, id);
    Then(c, Canceling(c, id), Rows(c, id, CanceledRow(c)), OneSlot(c), Reserved(c, id), map[], [], Launch(true, 1),
         Rows(c, id, CanceledRow(c)), OneSlot(c), StartedWith(c, id, Crawling).(pc := Marking), map[c.project := false], Log(c, id));
    assert map[id := CanceledRow(c)][id := RunningRow(c)] == map[id := RunningRow(c)];
    Then(c, Canceling(c, id) + [At(0, Launch(true, 1))],
         Rows(c, id, CanceledRow(c)), OneSlot(c), StartedWith(c, id, Crawling).(pc := Marking), map[c.project := false], Log(c, id),
         MarkRow(0, NoFault),
         Rows(c, id, RunningRow(c)), OneSlot(c), StartedWith(c, id, Crawling), map[c.project := false], Log(c, id));
  }

  function Finishing(c: StartCall, id: string): seq<Step> {
    Starting(c, id) + [At(0, FinishRun(false, 0, 0))] + [At(0, Bind(0, NoFault))]
  }

  lemma Finishes(c: StartCall, id: string)
    requires Caller(c, id)
    ensures Leads(c, Finishing(c, id),
                  Single(Rows(c, id, RunningRow(c)), OneSlot(c), StartedWith(c, id, Reporting(RESULT, false)),
                         map[c.project := false], Log(c, id)))
  {
    Starts(c, id);
    var t, b, running, log := Rows(c, id, RunningRow(c)), OneSlot(c), map[c.project := false], Log(c, id);
    Then(c, Starting(c, id), t, b, StartedWith(c, id, Crawling), running, log, FinishRun(false, 0, 0),
         t, b, StartedWith(c, id, Binding(false, false, 0, 0)), running, log);
    Then(c, Starting(c, id) + [At(0, FinishRun(false, 0, 0))], t, b, StartedWith(c, id, Binding(false, false, 0, 0)), running, log,
         Bind(0, NoFault), t, b, StartedWith(c, id, Reporting(RESULT, false)), running, log);
  }

  function Reported(c: StartCall, id: string): seq<Step> {
    Finishing(c, id) + [At(0, Report(NoFault))]
  }

  lemma Reports(c: StartCall, id: string)
    requires Caller(c, id)
    ensures Leads(c, Reported(c, id),
                  Single(Rows(c, id, DoneRow(c)), OneSlot(c), StartedWith(c, id, Freeing(RESULT)), map[c.project := false], Log(c, id)))
  {
    Finishes(c, id);
    assert map[id := RunningRow(c)][id := DoneRow(c)] == map[id := DoneRow(c)];
    Then(c, Finishing(c, id), Rows(c, id, RunningRow(c)), OneSlot(c), StartedWith(c, id, Reporting(RESULT, false)),
         map[c.project := false], Log(c, id), Report(NoFault),
         Rows(c, id, DoneRow(c)), OneSlot(c), StartedWith(c, id, Freeing(RESULT)), map[c.project := false], Log(c, id));
  }

  function Run(c: StartCall, id: string): seq<Step> {
    Reported(c, id) + [At(0, Free)] + [At(0, Remove)]
  }

  lemma Ends(c: StartCall, id: string)
    requires Caller(c, id)
    ensures Leads(c, Run(c, id),
                  Single(Rows(c, id, DoneRow(c)), UNUSED, StartedWith(c, id, Done(RESULT)).(slot := Freed), map[], Log(c, id)))
  {
    Reports(c, id);
    var t, running, log := Rows(c, id, DoneRow(c)), map[c.project := false], Log(c, id);
    assert map[c.principal.tenant := 1] - {c.principal.tenant} == map[] && running - {c.project} == map[];
    Then(c, Reported(c, id), t, OneSlot(c), StartedWith(c, id, Freeing(RESULT)), running, log, Free,
         t, UNUSED, StartedWith(c, id, Removing(RESULT)).(slot := Freed), running, log);
    Then(c, Reported(c, id) + [At(0, Free)], t, UNUSED, StartedWith(c, id, Removing(RESULT)).(slot := Freed), running, log, Remove,
         t, UNUSED, StartedWith(c, id, Done(RESULT)).(slot := Freed), map[], log);
  }

  /** The cancel is recorded and its stop is made, yet the worker, no store call of which failed, ends as succeeded. */
  lemma EarlyStopIsLost(c: StartCall, id: string)
    requires Caller(c, id)
    ensures Feasible(LIMITS, Projects(c), Run(c, id))
    ensures |Run(c, id)| == 14 && Run(c, id)[5] == CancelStep(c, id) && Run(c, id)[6] == StopProject(c.project)
    ensures var sys := After(LIMITS, Projects(c), Run(c, id));
            && |sys.sessions| == 1 && sys.sessions[0].worker.Done? && sys.sessions[0].faults == 0
            && sys.sessions[0].id == id && id in sys.table.rows
            && sys.table.rows[id].state == Succeeded && sys.table.rows[id].cancelRequested
  {
    Ends(c, id);
  }
}
