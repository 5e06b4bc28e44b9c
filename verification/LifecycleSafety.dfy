/** Safety of the crawl lifecycle over every run of the step machine. */
module LifecycleSafety {
  import opened Requests
  import opened Budgets
  import opened CrawlTable
  import opened Lifecycle

  // Tables over a run

  lemma StatementApplied(t: Table, s: Session, a: Act)
    requires TableInv(t)
    ensures TableInv(Statement(t, s, a)) && TableStep(t, Statement(t, s, a))
  {
    var p := s.call.principal;
    match a
    case ReserveRow(newId, at, _) => ReserveKeeps(t, p, s.call.project, s.call.idempotencyKey, newId, at);
    case MarkRow(at, _) => MarkKeeps(t, p.tenant, s.id, s.upstream, at);
    case Bind(at, _) => MarkKeeps(t, p.tenant, s.id, s.upstream, at);
    case FailRow(at, _) => if s.pc.Failing? { CompleteKeeps(t, p.tenant, s.id, StartFailure(s.pc.code, at)); }
    case Report(_) => if s.worker.Reporting? { CompleteKeeps(t, p.tenant, s.id, s.worker.result); }
    case _ => Unchanged(t);
  }

  lemma Unchanged(t: Table)
    ensures TableStep(t, t)
  {
  }

  lemma StatementKeeps(t: Table, s: Session, a: Act)
    requires TableInv(t)
    ensures TableInv(TableAfter(t, s, a)) && TableStep(t, TableAfter(t, s, a))
  {
    if FaultOf(a).Lost? {
      Unchanged(t);
    } else {
      StatementApplied(t, s, a);
    }
  }

  lemma StepKeepsTable(limits: Limits, sys: System, step: Step)
    requires TableInv(sys.table) && Lifecycle.Enabled(sys, step)
    ensures var t' := Lifecycle.Apply(limits, sys, step).table;
            TableInv(t') && TableStep(sys.table, t')
  {
    match step
    case At(k, a) => StatementKeeps(sys.table, sys.sessions[k], a);
    case Cancel(p, project, id, at, _, _) => CancelKeeps(sys.table, p, project, id, at);
    case Restart(at, _) => RecoverKeeps(sys.table, at);
    case _ =>
  }

  // Shape of one session: who owes the slot, and what is known at each point.

  predicate Live(w: Worker) {
    w.Crawling? || w.Binding? || w.Reporting? || w.Freeing? || w.Removing?
  }

  predicate HasRow(pc: Pc) {
    pc.Launching? || pc.Marking? || pc.Stopping? || pc.Failing? || (pc.Returned? && pc.answer.Started?)
  }

  predicate Early(pc: Pc) {
    pc.Replaying? || pc.Acquiring? || pc.Checking? || pc.Reserving?
  }

  predicate Shape(s: Session) {
    && (Early(s.pc) ==> s.id == "" && s.worker.Absent?)
    && (HasRow(s.pc) || !s.worker.Absent? ==> s.id != "")
    && (s.pc.Launching? ==> s.worker.Absent?)
    && (s.pc.Marking? || s.pc.Stopping? || (s.pc.Returned? && s.pc.answer.Started?) ==> !s.worker.Absent?)
    && (s.pc.Returned? && s.pc.answer.Started? ==> s.pc.answer.crawl == s.id)
  }

  /** The slot is held exactly while StartCrawl or its started worker still owes a release. */
  predicate SlotFits(s: Session) {
    && (s.pc.Replaying? || s.pc.Acquiring? ==> s.slot.NoSlot?)
    && (s.pc.Checking? || s.pc.Reserving? || s.pc.Launching? ==> s.slot.Held?)
    && (s.pc.Failing? && s.worker.Absent? ==> s.slot.Held?)
    && (s.pc.Returned? && !s.pc.answer.Started? ==> !s.slot.Held?)
    && (s.worker.Removing? || s.worker.Done? ==> s.slot.Freed?)
    && (!s.worker.Absent? ==> !s.slot.NoSlot?)
  }

  lemma ActKeepsShape(limits: Limits, t: Table, b: Budget, running: map<string, bool>, s: Session, a: Act)
    requires Shape(s) && SlotFits(s) && CanAct(s, running, a)
    ensures var s' := SessionAfter(limits, t, b, running, s, a);
            && Shape(s') && SlotFits(s') && s'.call == s.call
            && (s.id != "" ==> s'.id == s.id)
            && (s.slot.Freed? ==> s'.slot.Freed?) && (s.slot.Held? ==> !s'.slot.NoSlot?)
  {
  }

  ghost predicate ShapeInv(sys: System) {
    forall k :: 0 <= k < |sys.sessions| ==> Shape(sys.sessions[k]) && SlotFits(sys.sessions[k])
  }

  lemma ShapeKept(limits: Limits, sys: System, step: Step)
    requires ShapeInv(sys) && Lifecycle.Enabled(sys, step)
    ensures ShapeInv(Lifecycle.Apply(limits, sys, step))
  {
    if step.At? {
      ActKeepsShape(limits, sys.table, sys.budget, sys.running, sys.sessions[step.k], step.act);
    }
  }

  // Slot conservation

  function HeldBy(s: Session): multiset<string> {
    if s.slot.Held? then multiset{s.call.principal.tenant} else multiset{}
  }

  function HeldTenants(sessions: seq<Session>): multiset<string> {
    if sessions == [] then multiset{}
    else HeldTenants(sessions[..|sessions| - 1]) + HeldBy(sessions[|sessions| - 1])
  }

  lemma {:induction false} HeldContains(sessions: seq<Session>, k: nat)
    requires k < |sessions|
    ensures HeldBy(sessions[k]) <= HeldTenants(sessions)
  {
    if k < |sessions| - 1 {
      HeldContains(sessions[..|sessions| - 1], k);
    }
  }

  lemma {:induction false} HeldUpdate(sessions: seq<Session>, k: nat, s: Session)
    requires k < |sessions|
    ensures HeldTenants(sessions[k := s]) + HeldBy(sessions[k]) == HeldTenants(sessions) + HeldBy(s)
  {
    var n := |sessions| - 1;
    var front, last := sessions[..n], sessions[n];
    assert sessions == front + [last];
    HeldAppend(front, last);
    if k < n {
      assert sessions[k := s] == front[k := s] + [last];
      HeldAppend(front[k := s], last);
      HeldUpdate(front, k, s);
      Reassociate(HeldTenants(front[k := s]), HeldBy(front[k]), HeldTenants(front), HeldBy(s), HeldBy(last));
    } else {
      assert sessions[k := s] == front + [s];
      HeldAppend(front, s);
    }
  }

  lemma HeldAppend(sessions: seq<Session>, s: Session)
    ensures HeldTenants(sessions + [s]) == HeldTenants(sessions) + HeldBy(s)
  {
    assert (sessions + [s])[..|sessions|] == sessions;
  }

  lemma Reassociate(a: multiset<string>, b: multiset<string>, c: multiset<string>, d: multiset<string>, e: multiset<string>)
    requires a + b == c + d
    ensures (a + e) + b == (c + e) + d
  {
    assert (a + e) + b == (a + b) + e;
    assert (c + e) + d == (c + d) + e;
  }

  ghost predicate SlotInv(limits: Limits, sys: System) {
    Holds(limits, sys.budget, HeldTenants(sys.sessions))
  }

  lemma ActKeepsSlots(limits: Limits, sys: System, k: nat, a: Act)
    requires ShapeInv(sys) && SlotInv(limits, sys) && Lifecycle.Enabled(sys, At(k, a))
    ensures SlotInv(limits, ApplyAct(limits, sys, k, a))
  {
    var s := sys.sessions[k];
    var s' := SessionAfter(limits, sys.table, sys.budget, sys.running, s, a);
    ActKeepsShape(limits, sys.table, sys.budget, sys.running, s, a);
    HeldUpdate(sys.sessions, k, s');
    HeldContains(sys.sessions, k);
    SlotChange(limits, sys.table, sys.budget, sys.running, s, a);
    BudgetFollows(limits, sys.budget, s, s', HeldTenants(sys.sessions), HeldTenants(sys.sessions[k := s']));
  }

  lemma Cancel(a: multiset<string>, b: multiset<string>, x: multiset<string>)
    requires a + x == b + x
    ensures a == b
  {
    forall t ensures a[t] == b[t] {
      assert (a + x)[t] == (b + x)[t];
    }
  }

  lemma BudgetFollows(limits: Limits, b: Budget, s: Session, s': Session, held: multiset<string>, held': multiset<string>)
    requires Holds(limits, b, held) && s'.call == s.call
    requires held' + HeldBy(s) == held + HeldBy(s') && HeldBy(s) <= held
    requires !s.slot.Held? && s'.slot.Held? ==> HasRoom(limits, b, s.call.principal.tenant)
    ensures Holds(limits, BudgetAfter(b, s, s'), held')
  {
    var tenant := s.call.principal.tenant;
    if !s.slot.Held? && s'.slot.Held? {
      AcquireHolds(limits, b, held, tenant);
      Cancel(held', held + multiset{tenant}, HeldBy(s));
    } else if s.slot.Held? && !s'.slot.Held? {
      assert tenant in HeldBy(s);
      ReleaseHolds(limits, b, held, tenant);
      assert held == (held - multiset{tenant}) + multiset{tenant};
      Cancel(held', held - multiset{tenant}, HeldBy(s));
    } else {
      Cancel(held', held, HeldBy(s));
    }
  }

  lemma SlotChange(limits: Limits, t: Table, b: Budget, running: map<string, bool>, s: Session, a: Act)
    requires Shape(s) && SlotFits(s) && CanAct(s, running, a)
    ensures var s' := SessionAfter(limits, t, b, running, s, a);
            !s.slot.Held? && s'.slot.Held? ==> HasRoom(limits, b, s.call.principal.tenant)
  {
  }

  lemma SlotsKept(limits: Limits, sys: System, step: Step)
    requires ShapeInv(sys) && SlotInv(limits, sys) && Lifecycle.Enabled(sys, step)
    ensures SlotInv(limits, Lifecycle.Apply(limits, sys, step))
  {
    match step
    case At(k, a) => ActKeepsSlots(limits, sys, k, a);
    case Begin(c) =>
      var s := Session(c, FirstPc(c), NoSlot, "", 0, Absent, 0);
      assert (sys.sessions + [s])[..|sys.sessions|] == sys.sessions;
    case _ =>
  }

  // Ownership of rows and idempotency records

  predicate Owns(t: Table, s: Session) {
    s.id != "" ==>
      && s.id in t.rows && t.rows[s.id].tenant == s.call.principal.tenant && t.rows[s.id].project == s.call.project
      && KeyOf(s.call) in t.records && t.records[KeyOf(s.call)].crawl == s.id
  }

  /** A replay answers with the crawl first recorded under the key, for the same project. */
  predicate ReplayFits(t: Table, s: Session) {
    s.pc.Returned? && s.pc.answer.Replay? ==>
      KeyOf(s.call) in t.records && t.records[KeyOf(s.call)].crawl == s.pc.answer.crawl
      && t.records[KeyOf(s.call)].project == s.call.project
  }

  lemma OwnsStays(t: Table, t': Table, s: Session)
    requires Owns(t, s) && ReplayFits(t, s) && TableStep(t, t')
    ensures Owns(t', s) && ReplayFits(t', s)
  {
  }

  lemma ReserveKeepsOwns(limits: Limits, t: Table, b: Budget, running: map<string, bool>, s: Session, a: Act)
    requires TableInv(t) && Shape(s) && CanAct(s, running, a) && a.ReserveRow?
    ensures var s', t' := SessionAfter(limits, t, b, running, s, a), TableAfter(t, s, a);
            && Owns(t', s') && ReplayFits(t', s')
            && (s'.id != "" ==> s'.id !in t.rows)
  {
    if !a.fault.NoFault? {
      assert Proceed(limits, t, b, running, s, a) == Return(s, Error);
    }
  }

  lemma ActKeepsOwns(limits: Limits, t: Table, b: Budget, running: map<string, bool>, s: Session, a: Act)
    requires TableInv(t) && Shape(s) && SlotFits(s) && Owns(t, s) && ReplayFits(t, s) && CanAct(s, running, a)
    ensures var s', t' := SessionAfter(limits, t, b, running, s, a), TableAfter(t, s, a);
            && Owns(t', s') && ReplayFits(t', s')
            && (s.id == "" && s'.id != "" ==> s'.id !in t.rows)
  {
    if a.ReserveRow? {
      ReserveKeepsOwns(limits, t, b, running, s, a);
    } else if !a.FindReplay? {
      var s' := SessionAfter(limits, t, b, running, s, a);
      StatementKeeps(t, s, a);
      OwnsStays(t, TableAfter(t, s, a), s);
      PlainActFrame(limits, t, b, running, s, a);
      assert s'.call == s.call && s'.id == s.id;
    }
  }

  /** Only FindReplay and ReserveRow can answer with a replay or set a session's crawl id. */
  lemma PlainActFrame(limits: Limits, t: Table, b: Budget, running: map<string, bool>, s: Session, a: Act)
    requires Shape(s) && CanAct(s, running, a) && !a.ReserveRow? && !a.FindReplay?
    ensures var s' := SessionAfter(limits, t, b, running, s, a);
            && s'.call == s.call && s'.id == s.id
            && (s'.pc.Returned? && s'.pc.answer.Replay? ==> s.pc == s'.pc)
  {
  }

  ghost predicate OwnInv(sys: System) {
    && (forall k :: 0 <= k < |sys.sessions| ==> Owns(sys.table, sys.sessions[k]) && ReplayFits(sys.table, sys.sessions[k]))
    && DistinctIds(sys.sessions)
  }

  lemma OthersKeepOwns(limits: Limits, sys: System, step: Step)
    requires TableInv(sys.table) && OwnInv(sys) && Lifecycle.Enabled(sys, step)
    ensures var t' := Lifecycle.Apply(limits, sys, step).table;
            forall k :: 0 <= k < |sys.sessions| ==> Owns(t', sys.sessions[k]) && ReplayFits(t', sys.sessions[k])
  {
    StepKeepsTable(limits, sys, step);
    var t' := Lifecycle.Apply(limits, sys, step).table;
    forall k | 0 <= k < |sys.sessions| ensures Owns(t', sys.sessions[k]) && ReplayFits(t', sys.sessions[k]) {
      OwnsStays(sys.table, t', sys.sessions[k]);
    }
  }

  lemma ActKeepsOwnership(limits: Limits, sys: System, k: nat, a: Act)
    requires TableInv(sys.table) && ShapeInv(sys) && OwnInv(sys) && Lifecycle.Enabled(sys, At(k, a))
    ensures OwnInv(ApplyAct(limits, sys, k, a))
  {
    var s := sys.sessions[k];
    var s' := SessionAfter(limits, sys.table, sys.budget, sys.running, s, a);
    OthersKeepOwns(limits, sys, At(k, a));
    ActKeepsOwns(limits, sys.table, sys.budget, sys.running, s, a);
    ActKeepsShape(limits, sys.table, sys.budget, sys.running, s, a);
    UpdateKeepsIds(sys.table, sys.sessions, k, s');
  }

  predicate DistinctIds(sessions: seq<Session>) {
    forall i, j :: 0 <= i < j < |sessions| && sessions[i].id != "" ==> sessions[i].id != sessions[j].id
  }

  lemma UpdateKeepsIds(t: Table, sessions: seq<Session>, k: nat, s': Session)
    requires k < |sessions| && DistinctIds(sessions)
    requires forall j :: 0 <= j < |sessions| ==> Owns(t, sessions[j])
    requires s'.id == sessions[k].id || (sessions[k].id == "" && s'.id !in t.rows)
    ensures DistinctIds(sessions[k := s'])
  {
  }

  lemma OwnKept(limits: Limits, sys: System, step: Step)
    requires TableInv(sys.table) && ShapeInv(sys) && OwnInv(sys) && Lifecycle.Enabled(sys, step)
    ensures OwnInv(Lifecycle.Apply(limits, sys, step))
  {
    if step.At? {
      ActKeepsOwnership(limits, sys, step.k, step.act);
    } else {
      OthersKeepOwns(limits, sys, step);
    }
  }

  // Workers per idempotency key, over restarts too

  predicate NotLaunched(launched: seq<Launched>, id: string) {
    forall n :: 0 <= n < |launched| ==> launched[n].id != id
  }

  ghost predicate LogInv(t: Table, launched: seq<Launched>) {
    && (forall n :: 0 <= n < |launched| ==>
          launched[n].key in t.records && t.records[launched[n].key].crawl == launched[n].id)
    && (forall m, n :: 0 <= m < n < |launched| ==> launched[m].id != launched[n].id)
  }

  ghost predicate LaunchInv(sys: System) {
    && LogInv(sys.table, sys.launched)
    && (forall k :: 0 <= k < |sys.sessions| && sys.sessions[k].pc.Launching? ==> NotLaunched(sys.launched, sys.sessions[k].id))
  }

  lemma LaunchedHaveRows(t: Table, launched: seq<Launched>)
    requires TableInv(t) && LogInv(t, launched)
    ensures forall n :: 0 <= n < |launched| ==> launched[n].id in t.rows
  {
    forall n | 0 <= n < |launched| ensures launched[n].id in t.rows {
      assert RecordFits(t, t.records[launched[n].key]);
    }
  }

  lemma LogStays(t: Table, t': Table, launched: seq<Launched>)
    requires LogInv(t, launched) && TableStep(t, t')
    ensures LogInv(t', launched)
  {
  }

  lemma LogGrows(t: Table, s: Session, launched: seq<Launched>)
    requires LogInv(t, launched) && Owns(t, s) && s.id != "" && NotLaunched(launched, s.id)
    ensures LogInv(t, launched + [Launched(KeyOf(s.call), s.id)])
  {
  }

  lemma LaunchKeepsOthers(sys: System, k: nat)
    requires ShapeInv(sys) && OwnInv(sys) && LaunchInv(sys) && k < |sys.sessions| && sys.sessions[k].pc.Launching?
    ensures forall j :: 0 <= j < |sys.sessions| && j != k && sys.sessions[j].pc.Launching? ==>
              NotLaunched(sys.launched + [Launched(KeyOf(sys.sessions[k].call), sys.sessions[k].id)], sys.sessions[j].id)
  {
  }

  lemma ActKeepsLaunches(limits: Limits, sys: System, k: nat, a: Act)
    requires TableInv(sys.table) && ShapeInv(sys) && OwnInv(sys) && LaunchInv(sys) && Lifecycle.Enabled(sys, At(k, a))
    ensures LaunchInv(ApplyAct(limits, sys, k, a))
  {
    var s := sys.sessions[k];
    var t' := TableAfter(sys.table, s, a);
    StatementKeeps(sys.table, s, a);
    LogStays(sys.table, t', sys.launched);
    BecomesLaunching(limits, sys.table, sys.budget, sys.running, s, a);
    if a.Launch? && a.ok {
      LogGrows(t', s, sys.launched);
      LaunchKeepsOthers(sys, k);
    } else if a.ReserveRow? {
      ActKeepsOwns(limits, sys.table, sys.budget, sys.running, s, a);
      LaunchedHaveRows(sys.table, sys.launched);
      ReservedIsFresh(limits, sys, k, a);
    }
  }

  lemma ReservedIsFresh(limits: Limits, sys: System, k: nat, a: Act)
    requires Lifecycle.Enabled(sys, At(k, a)) && a.ReserveRow?
    requires forall n :: 0 <= n < |sys.launched| ==> sys.launched[n].id in sys.table.rows
    ensures var s' := SessionAfter(limits, sys.table, sys.budget, sys.running, sys.sessions[k], a);
            s'.pc.Launching? ==> NotLaunched(sys.launched, s'.id)
  {
  }

  /** A session starts launching only by reserving a row. */
  lemma BecomesLaunching(limits: Limits, t: Table, b: Budget, running: map<string, bool>, s: Session, a: Act)
    requires Shape(s) && CanAct(s, running, a)
    ensures SessionAfter(limits, t, b, running, s, a).pc.Launching? ==> a.ReserveRow?
  {
  }

  lemma LaunchesKept(limits: Limits, sys: System, step: Step)
    requires TableInv(sys.table) && ShapeInv(sys) && OwnInv(sys) && LaunchInv(sys) && Lifecycle.Enabled(sys, step)
    ensures LaunchInv(Lifecycle.Apply(limits, sys, step))
  {
    StepKeepsTable(limits, sys, step);
    if step.At? {
      ActKeepsLaunches(limits, sys, step.k, step.act);
    }
  }

  // At most one live worker per project

  ghost predicate LiveInv(sys: System) {
    && (forall k :: 0 <= k < |sys.sessions| && Live(sys.sessions[k].worker) ==> sys.sessions[k].call.project in sys.running)
    && (forall i, j | 0 <= i < j < |sys.sessions| && Live(sys.sessions[i].worker) && Live(sys.sessions[j].worker) ::
          sys.sessions[i].call.project != sys.sessions[j].call.project)
  }

  lemma BecomesLive(limits: Limits, t: Table, b: Budget, running: map<string, bool>, s: Session, a: Act)
    requires Shape(s) && CanAct(s, running, a)
    ensures var s', running' := SessionAfter(limits, t, b, running, s, a), RunningAfter(running, s, a);
            && s'.call == s.call
            && (Live(s'.worker) ==> Live(s.worker) || s.call.project !in running)
            && (Live(s'.worker) && !Live(s.worker) ==> s.call.project in running')
            && (forall p :: p in running && p !in running' ==> p == s.call.project && Live(s.worker) && !Live(s'.worker))
  {
  }

  lemma LiveKept(limits: Limits, sys: System, step: Step)
    requires ShapeInv(sys) && LiveInv(sys) && Lifecycle.Enabled(sys, step)
    ensures LiveInv(Lifecycle.Apply(limits, sys, step))
  {
    if step.At? {
      BecomesLive(limits, sys.table, sys.budget, sys.running, sys.sessions[step.k], step.act);
    }
  }

  // The row ends as the worker reported it, as long as no store call of its own session failed.

  predicate Matches(r: Row, c: Completion) {
    && r.state == c.state && r.failure == c.failure && r.urls == c.urls && r.issues == c.issues
    && r.finishedAt == Some(c.at)
  }

  predicate Faithful(t: Table, s: Session) {
    && (s.pc.Launching? || s.worker.Crawling? || s.worker.Binding? || s.worker.Reporting? ==> s.id in t.rows && !Terminal(t.rows[s.id].state))
    && (s.worker.Reporting? ==> Terminal(s.worker.result.state) && !s.worker.retried)
    && (s.worker.Freeing? || s.worker.Removing? || s.worker.Done? ==>
          s.id in t.rows && Matches(t.rows[s.id], s.worker.result) && Terminal(s.worker.result.state))
    && !s.pc.Stopping?
    && (s.pc.Failing? ==> s.worker.Absent?)
  }

  /** What another session's or a cancellation's statement may do to a row it does not own. */
  predicate SameOutcome(r: Row, r': Row) {
    && r'.state == r.state && r'.failure == r.failure && r'.urls == r.urls && r'.issues == r.issues
    && r'.finishedAt == r.finishedAt && r'.upstream == r.upstream && r'.startedAt == r.startedAt
  }

  lemma FaithfulStays(t: Table, t': Table, s: Session)
    requires Faithful(t, s)
    requires s.id in t.rows ==> s.id in t'.rows && SameOutcome(t.rows[s.id], t'.rows[s.id])
    ensures Faithful(t', s)
  {
  }

  lemma StatementTouchesOwnRow(t: Table, s: Session, a: Act, id: string)
    requires id in t.rows && id != s.id
    ensures id in TableAfter(t, s, a).rows && TableAfter(t, s, a).rows[id] == t.rows[id]
  {
  }

  lemma ActKeepsFaithful(limits: Limits, t: Table, b: Budget, running: map<string, bool>, s: Session, a: Act)
    requires TableInv(t) && Shape(s) && Owns(t, s) && Faithful(t, s) && CanAct(s, running, a) && FaultOf(a).NoFault?
    ensures Faithful(TableAfter(t, s, a), SessionAfter(limits, t, b, running, s, a))
  {
    if s.id != "" {
      assert RowInv(t.rows[s.id]);
    }
  }

  ghost predicate OutcomeInv(sys: System) {
    forall k :: 0 <= k < |sys.sessions| && sys.sessions[k].faults == 0 ==> Faithful(sys.table, sys.sessions[k])
  }

  lemma ActKeepsOther(sys: System, s: Session, a: Act, other: Session)
    requires Faithful(sys.table, other) && Owns(sys.table, other) && (other.id != "" ==> other.id != s.id)
    ensures other.id != "" || (other.worker.Absent? && !other.pc.Launching?) ==> Faithful(TableAfter(sys.table, s, a), other)
  {
    if other.id != "" {
      StatementTouchesOwnRow(sys.table, s, a, other.id);
      FaithfulStays(sys.table, TableAfter(sys.table, s, a), other);
    }
  }

  lemma ActKeepsOutcomes(limits: Limits, sys: System, k: nat, a: Act)
    requires TableInv(sys.table) && ShapeInv(sys) && OwnInv(sys) && OutcomeInv(sys) && Lifecycle.Enabled(sys, At(k, a))
    ensures OutcomeInv(ApplyAct(limits, sys, k, a))
  {
    var s := sys.sessions[k];
    if s.faults == 0 && FaultOf(a).NoFault? {
      ActKeepsFaithful(limits, sys.table, sys.budget, sys.running, s, a);
    }
    forall j | 0 <= j < |sys.sessions| && j != k && sys.sessions[j].faults == 0
      ensures Faithful(TableAfter(sys.table, s, a), sys.sessions[j])
    {
      assert Shape(sys.sessions[j]);
      ActKeepsOther(sys, s, a, sys.sessions[j]);
    }
  }

  lemma OutcomesKept(limits: Limits, sys: System, step: Step)
    requires TableInv(sys.table) && ShapeInv(sys) && OwnInv(sys) && OutcomeInv(sys) && Lifecycle.Enabled(sys, step)
    ensures OutcomeInv(Lifecycle.Apply(limits, sys, step))
  {
    match step
    case At(k, a) => ActKeepsOutcomes(limits, sys, k, a);
    case Cancel(p, project, id, at, _, _) =>
      var t' := Lifecycle.Apply(limits, sys, step).table;
      forall k | 0 <= k < |sys.sessions| && sys.sessions[k].faults == 0 ensures Faithful(t', sys.sessions[k]) {
        FaithfulStays(sys.table, t', sys.sessions[k]);
      }
    case _ =>
  }

  // Everything, over every run

  ghost predicate Inv(limits: Limits, sys: System) {
    && TableInv(sys.table) && ShapeInv(sys) && SlotInv(limits, sys) && OwnInv(sys)
    && LaunchInv(sys) && LiveInv(sys) && OutcomeInv(sys)
  }

  lemma {:induction false} EveryStateIsSafe(limits: Limits, projects: set<(string, string)>, steps: seq<Step>)
    requires Lifecycle.Feasible(limits, projects, steps)
    ensures Inv(limits, Lifecycle.After(limits, projects, steps))
  {
    if steps != [] {
      var before, step := steps[..|steps| - 1], steps[|steps| - 1];
      EveryStateIsSafe(limits, projects, before);
      var sys := Lifecycle.After(limits, projects, before);
      StepKeepsTable(limits, sys, step);
      ShapeKept(limits, sys, step);
      SlotsKept(limits, sys, step);
      OwnKept(limits, sys, step);
      LaunchesKept(limits, sys, step);
      LiveKept(limits, sys, step);
      OutcomesKept(limits, sys, step);
    }
  }
}
