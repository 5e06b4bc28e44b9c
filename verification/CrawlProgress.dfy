/** The crawl engine never deadlocks, and every run ends. */
module CrawlProgress {
  import opened Arith
  import opened Requests
  import opened WorkQueue
  import opened Admission
  import opened CrawlEngine
  import opened CrawlSafety

  lemma InvKept(site: Site, s: State, step: Step)
    requires Inv(site, s) && Enabled(s, step)
    ensures Inv(site, Apply(site, s, step))
  {
    IntakeKept(site, s, step);
    CustodyKept(site, s, step);
    ControlKept(site, s, step);
    CountKept(site, s, step);
    SitemapKept(site, s, step);
  }

  // Absence of deadlock

  predicate Busy(c: Consumer) {
    c.Fetching? || c.Answering?
  }

  /** While the queue is active but has nothing to hand out and the poller asks, a consumer is busy. */
  lemma BusyConsumer(site: Site, s: State)
    requires Inv(site, s) && s.main.Waiting? && s.team.poller.Asking? && s.books.queue.first.None?
    ensures Busy(s.team.first) || Busy(s.team.second)
  {
    var l := s.books.ledger;
    DetectorExact(s.books.queue, l);
    assert l.pushed == l.polled;
    var u :| u in Named(l.polled) && u !in Elements(l.acked);
    TextsNamed(l.polled);
    assert u in Elements(Texts(l.polled)) && u !in multiset(l.acked);
    assert Accounted(s, u);
  }

  lemma WaitingIsNotStuck(site: Site, s: State) returns (step: Step)
    requires Inv(site, s) && s.main.Waiting?
    ensures Enabled(s, step) && !step.Stop?
  {
    var t := s.team;
    if t.first.Fetching? { return Work(Fetch(false)); }
    if t.second.Fetching? { return Work(Fetch(true)); }
    if t.first.Answering? { return Go(Receive(false)); }
    if t.second.Answering? { return Go(Receive(true)); }
    match t.poller
    case Gone => return Go(StreamEnds);
    case Leaving =>
      if t.first.Idle? { return Work(LeaveConsumer(false)); }
      if t.second.Idle? { return Work(LeaveConsumer(true)); }
      return Work(CloseStream);
    case Holding(_) =>
      if t.first.Idle? { return Work(HandOff(false)); }
      if t.second.Idle? { return Work(HandOff(true)); }
      return Work(LeavePoller);
    case Asking =>
      if s.books.queue.first.None? {
        BusyConsumer(site, s);
      }
      return PollQueue;
  }

  /** In every reachable state that has not ended, before or after Stop, some goroutine can move. */
  lemma NoDeadlock(site: Site, steps: seq<Step>) returns (step: Step)
    requires Feasible(site, steps) && !After(site, steps).main.Ended?
    ensures !step.Stop? && Feasible(site, steps + [step])
  {
    EveryStateIsSafe(site, steps);
    var s := After(site, steps);
    match s.main {
      case Serving(todo) => step := Go(if todo == [] then EndCallback else AddRequest);
      case SitemapCheck => step := Go(CheckSitemap);
      case Loading(entries) =>
        if entries == {} {
          step := Go(EndEntries);
        } else {
          var u :| u in entries;
          step := Go(QueueEntry(u));
        }
      case LoopCheck => step := Go(CheckLoop);
      case Waiting => step := WaitingIsNotStuck(site, s);
      case Acking(_) => step := Go(Acknowledge);
    }
    assert (steps + [step])[..|steps|] == steps;
  }

  // Termination

  /** Responses still to be taken. */
  function Budget(site: Site, s: State): int {
    Max(site.options.crawlLimit, 1) - s.crawled - if s.main.Acking? then 1 else 0
  }

  /** Steps Start still has to make before it waits again. */
  function Chores(site: Site, m: Main): nat {
    match m
    case Acking(r) => |RequestsOf(site, r.url)| + |site.sitemap| + 6
    case Serving(todo) => |todo| + |site.sitemap| + 5
    case SitemapCheck => |site.sitemap| + 4
    case Loading(entries) => |entries| + 3
    case LoopCheck => 2
    case Waiting => 1
    case Ended(_) => 0
  }

  function ConsumerLoad(c: Consumer): nat {
    match c case Fetching(_) => 3 case Answering(_) => 2 case Idle => 1 case Exited => 0
  }

  function TeamLoad(t: Team): nat {
    ConsumerLoad(t.first) + ConsumerLoad(t.second)
    + match t.poller case Holding(_) => 5 case Asking => 2 case Leaving => 1 case Gone => 0
  }

  function QueueLoad(q: QueueState): nat {
    4 * (|Slot(q)| + |q.waiting|)
  }

  /** Work left in the queue and the team, and the Stop that may still come. */
  function Load(s: State): nat {
    QueueLoad(s.books.queue) + TeamLoad(s.team) + if s.cancelled then 0 else 1
  }

  predicate Closer(site: Site, s': State, s: State) {
    || Budget(site, s') < Budget(site, s)
    || (Budget(site, s') == Budget(site, s) && Chores(site, s'.main) < Chores(site, s.main))
    || (Budget(site, s') == Budget(site, s) && Chores(site, s'.main) == Chores(site, s.main) && Load(s') < Load(s))
  }

  lemma WorkIsCloser(t: Team, move: TeamStep)
    requires CanWork(t, true, move)
    ensures TeamLoad(DoWork(t, move)) < TeamLoad(t)
  {
  }

  lemma GoIsCloser(site: Site, s: State, act: StartStep)
    requires CanGo(s, act)
    ensures Closer(site, DoGo(site, s, act), s)
  {
    match act
    case Receive(_) =>
    case Acknowledge =>
    case _ => PlainGoFrame(site, s, act);
  }

  lemma EveryStepIsCloser(site: Site, s: State, step: Step)
    requires Enabled(s, step)
    ensures Closer(site, Apply(site, s, step), s)
  {
    match step
    case Stop =>
    case PollQueue =>
    case Work(move) => WorkIsCloser(s.team, move);
    case Go(act) => GoIsCloser(site, s, act);
  }

  /** An execution: it takes enabled steps for as long as Start has not ended. */
  ghost predicate Execution(site: Site, run: nat -> State) {
    && run(0) == Init(site)
    && forall n: nat :: Follows(site, run(n), run(n + 1))
  }

  ghost predicate Follows(site: Site, s: State, s': State) {
    if s.main.Ended? then s' == s
    else exists step :: Enabled(s, step) && s' == Apply(site, s, step)
  }

  lemma {:induction false} EndsFrom(site: Site, run: nat -> State, n: nat)
    requires Execution(site, run) && Inv(site, run(n))
    ensures exists m: nat :: run(m).main.Ended?
    decreases Budget(site, run(n)), Chores(site, run(n).main), Load(run(n))
  {
    if !run(n).main.Ended? {
      assert Follows(site, run(n), run(n + 1));
      var step :| Enabled(run(n), step) && run(n + 1) == Apply(site, run(n), step);
      InvKept(site, run(n), step);
      EveryStepIsCloser(site, run(n), step);
      EndsFrom(site, run, n + 1);
    }
  }

  /** Every execution ends, whatever the interleaving, the site and the moment of Stop. */
  lemma EveryExecutionEnds(site: Site, run: nat -> State)
    requires Execution(site, run)
    ensures exists n: nat :: run(n).main.Ended?
  {
    InvInit(site);
    EndsFrom(site, run, 0);
  }
}
