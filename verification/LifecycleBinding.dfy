/** When a row names its crawl: what a started or reported session means for the row's other columns. */
module LifecycleBinding {
  import opened Requests
  import opened Budgets
  import opened CrawlTable
  import opened Lifecycle
  import opened LifecycleSafety

  /** The row is past its queue and names the session's crawl. */
  predicate NamesCrawl(t: Table, s: Session) {
    && s.id in t.rows && !t.rows[s.id].state.Queued?
    && t.rows[s.id].upstream == Some(s.upstream) && t.rows[s.id].startedAt.Some?
  }

  predicate HasReported(w: Worker) {
    w.Reporting? || w.Freeing? || w.Removing? || w.Done?
  }

  /** For a session without faults: its row is queued until StartCrawl or the callback has bound it, and named from then on. */
  predicate Progress(t: Table, s: Session) {
    && (!s.worker.Absent? ==> s.pc.Marking? || (s.pc.Returned? && s.pc.answer.Started?))
    && ((s.pc.Launching? || s.pc.Marking?) && !HasReported(s.worker) ==> s.id in t.rows && t.rows[s.id].state.Queued?)
    && ((s.pc.Returned? && s.pc.answer.Started?) || HasReported(s.worker) ==> NamesCrawl(t, s))
  }

  ghost predicate ProgressInv(sys: System) {
    forall k :: 0 <= k < |sys.sessions| && sys.sessions[k].faults == 0 ==> Progress(sys.table, sys.sessions[k])
  }

  lemma OwnActProgresses(limits: Limits, t: Table, b: Budget, running: map<string, bool>, s: Session, a: Act)
    requires TableInv(t) && Shape(s) && Owns(t, s) && Faithful(t, s) && Progress(t, s)
    requires CanAct(s, running, a) && FaultOf(a).NoFault?
    ensures Progress(TableAfter(t, s, a), SessionAfter(limits, t, b, running, s, a))
  {
    if s.id != "" {
      assert RowInv(t.rows[s.id]);
    }
  }

  lemma ProgressStays(t: Table, t': Table, s: Session)
    requires Progress(t, s)
    requires s.id in t.rows ==> s.id in t'.rows && SameOutcome(t.rows[s.id], t'.rows[s.id])
    ensures Progress(t', s)
  {
  }

  lemma OthersKeepProgress(sys: System, s: Session, a: Act, other: Session)
    requires Progress(sys.table, other) && Shape(other) && (other.id != "" ==> other.id != s.id)
    ensures Progress(TableAfter(sys.table, s, a), other)
  {
    if other.id in sys.table.rows && other.id != "" {
      StatementTouchesOwnRow(sys.table, s, a, other.id);
      ProgressStays(sys.table, TableAfter(sys.table, s, a), other);
    }
  }

  lemma ActProgresses(limits: Limits, sys: System, k: nat, a: Act)
    requires TableInv(sys.table) && ShapeInv(sys) && OwnInv(sys) && OutcomeInv(sys) && ProgressInv(sys)
    requires Lifecycle.Enabled(sys, At(k, a))
    ensures ProgressInv(ApplyAct(limits, sys, k, a))
  {
    var s := sys.sessions[k];
    if s.faults == 0 && FaultOf(a).NoFault? {
      assert Faithful(sys.table, s) && Shape(s) && Owns(sys.table, s);
      OwnActProgresses(limits, sys.table, sys.budget, sys.running, s, a);
    }
    forall j | 0 <= j < |sys.sessions| && j != k && sys.sessions[j].faults == 0
      ensures Progress(TableAfter(sys.table, s, a), sys.sessions[j])
    {
      OthersKeepProgress(sys, s, a, sys.sessions[j]);
    }
  }

  lemma StepProgresses(limits: Limits, sys: System, step: Step)
    requires LifecycleSafety.Inv(limits, sys) && ProgressInv(sys) && Lifecycle.Enabled(sys, step)
    ensures ProgressInv(Lifecycle.Apply(limits, sys, step))
  {
    match step
    case At(k, a) => ActProgresses(limits, sys, k, a);
    case Cancel(_, _, _, _, _, _) => CancelProgresses(limits, sys, step);
    case _ =>
  }

  lemma CancelProgresses(limits: Limits, sys: System, step: Step)
    requires ProgressInv(sys) && step.Cancel?
    ensures ProgressInv(Lifecycle.Apply(limits, sys, step))
  {
    var t' := Lifecycle.Apply(limits, sys, step).table;
    forall k | 0 <= k < |sys.sessions| && sys.sessions[k].faults == 0 ensures Progress(t', sys.sessions[k]) {
      ProgressStays(sys.table, t', sys.sessions[k]);
    }
  }

  lemma {:induction false} EveryStateProgresses(limits: Limits, projects: set<(string, string)>, steps: seq<Step>)
    requires Lifecycle.Feasible(limits, projects, steps)
    ensures ProgressInv(Lifecycle.After(limits, projects, steps))
  {
    if steps != [] {
      var before := steps[..|steps| - 1];
      EveryStateProgresses(limits, projects, before);
      EveryStateIsSafe(limits, projects, before);
      StepProgresses(limits, Lifecycle.After(limits, projects, before), steps[|steps| - 1]);
    }
  }

  /**
   What "started" means: the row of a call that was answered so, and the row of
   every worker that has reported, is running or terminal, names the crawl the
   worker runs and has a start time, whichever of the two bound it.
   */
  lemma StartedCrawlIsNamed(limits: Limits, projects: set<(string, string)>, steps: seq<Step>, k: nat)
    requires Lifecycle.Feasible(limits, projects, steps) && k < |Lifecycle.After(limits, projects, steps).sessions|
    requires var s := Lifecycle.After(limits, projects, steps).sessions[k];
             && s.faults == 0
             && ((s.pc.Returned? && s.pc.answer.Started?) || s.worker.Reporting? || s.worker.Freeing? || s.worker.Removing? || s.worker.Done?)
    ensures var sys := Lifecycle.After(limits, projects, steps);
            var s := sys.sessions[k];
            && s.id in sys.table.rows && !sys.table.rows[s.id].state.Queued?
            && sys.table.rows[s.id].upstream == Some(s.upstream) && sys.table.rows[s.id].startedAt.Some?
  {
    EveryStateProgresses(limits, projects, steps);
  }
}
