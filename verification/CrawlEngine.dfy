/**
 The crawl engine as a step machine. The goroutines are the queue manager, the
 poller, two consumers and the one that runs Start; each channel rendezvous and
 each check made by Start is one step, so every interleaving is a run.
 */
module CrawlEngine {
  import opened Requests
  import opened WorkQueue
  import opened LinkRule
  import opened Admission

  /**
   The poller evaluates `queue.Poll()` before its select can look at the context,
   so while Asking it cannot leave. Gone means the response stream is closed.
   */
  datatype Poller = Asking | Holding(held: Request) | Leaving | Gone

  datatype Consumer = Idle | Fetching(job: Request) | Answering(done: Request) | Exited

  datatype Reason = QueueInactive | LimitReached | StreamClosed

  /** Where Start is. Serving also covers the seed's AddRequest, made just before Start. */
  datatype Main =
    | Serving(todo: seq<Request>)
    | SitemapCheck
    | Loading(entries: set<Url>)
    | LoopCheck
    | Waiting
    | Acking(response: Request)
    | Ended(reason: Reason)

  /** The poller, the consumers, and the message the poller drops when it leaves. */
  datatype Team = Team(poller: Poller, first: Consumer, second: Consumer, dropped: seq<Url>)

  /** The visited set and the queue, with their histories. */
  datatype Books = Books(seen: set<Url>, queue: QueueState, asked: seq<Ask>, ledger: Ledger)

  datatype State = State(main: Main, team: Team, books: Books,
                         cancelled: bool, started: bool, sitemapLoaded: bool, crawled: nat)

  /** `second` picks one of the two consumers. */
  datatype TeamStep = HandOff(second: bool) | Fetch(second: bool) | LeavePoller | LeaveConsumer(second: bool) | CloseStream

  datatype StartStep =
    | Receive(second: bool) | StreamEnds | Acknowledge | AddRequest | EndCallback
    | CheckSitemap | QueueEntry(u: Url) | EndEntries | CheckLoop

  /** Stop stands for a call to Stop or the crawl timeout. */
  datatype Step = Stop | PollQueue | Work(move: TeamStep) | Go(act: StartStep)

  function SeedRequest(site: Site): Request {
    Request(site.seed, false)
  }

  function RequestsOf(site: Site, u: Url): seq<Request> {
    PageRequests(site.page(u), site.options.followNofollow)
  }

  function Init(site: Site): State {
    State(Serving([SeedRequest(site)]), Team(Asking, Idle, Idle, []), Books({}, EMPTY, [], NOTHING),
          false, false, false, 0)
  }

  function ConsumerOf(t: Team, second: bool): Consumer {
    if second then t.second else t.first
  }

  function WithConsumer(t: Team, second: bool, c: Consumer): Team {
    if second then t.(second := c) else t.(first := c)
  }

  predicate CanWork(t: Team, cancelled: bool, move: TeamStep) {
    match move
    case HandOff(c) => t.poller.Holding? && ConsumerOf(t, c).Idle?
    case Fetch(c) => ConsumerOf(t, c).Fetching?
    case LeavePoller => t.poller.Holding? && cancelled
    case LeaveConsumer(c) => cancelled && ConsumerOf(t, c).Idle?
    case CloseStream => t.poller.Leaving? && t.first.Exited? && t.second.Exited?
  }

  function DoWork(t: Team, move: TeamStep): Team
    requires CanWork(t, true, move)
  {
    match move
    case HandOff(c) => WithConsumer(t, c, Fetching(t.poller.held)).(poller := Asking)
    case Fetch(c) => WithConsumer(t, c, Answering(ConsumerOf(t, c).job))
    case LeavePoller => t.(poller := Leaving, dropped := t.dropped + [t.poller.held.url])
    case LeaveConsumer(c) => WithConsumer(t, c, Exited)
    case CloseStream => t.(poller := Gone)
  }

  predicate CanGo(s: State, act: StartStep) {
    match act
    case Receive(c) => s.main.Waiting? && ConsumerOf(s.team, c).Answering?
    case StreamEnds => s.main.Waiting? && s.team.poller.Gone?
    case Acknowledge => s.main.Acking?
    case AddRequest => s.main.Serving? && s.main.todo != []
    case EndCallback => s.main == Serving([])
    case CheckSitemap => s.main.SitemapCheck?
    case QueueEntry(u) => s.main.Loading? && u in s.main.entries
    case EndEntries => s.main == Loading({})
    case CheckLoop => s.main.LoopCheck?
  }

  function TakeAsk(site: Site, b: Books, a: Ask): Books {
    var i := Take(site, Intake(b.seen, b.queue), a);
    Books(i.seen, i.queue, b.asked + [a],
          b.ledger.(pushed := b.ledger.pushed
                              + if Answer(site, Intake(b.seen, b.queue), a) == Queued then [Message(a)] else []))
  }

  function AckBooks(b: Books, u: Url): Books {
    b.(queue := Ack(b.queue, u), ledger := b.ledger.(acked := b.ledger.acked + [u]))
  }

  function PollBooks(b: Books): Books
    requires b.queue.first.Some?
  {
    b.(queue := Poll(b.queue), ledger := b.ledger.(polled := b.ledger.polled + [b.queue.first.value]))
  }

  function DoGo(site: Site, s: State, act: StartStep): State
    requires CanGo(s, act)
  {
    match act
    case Receive(c) => s.(main := Acking(ConsumerOf(s.team, c).done), team := WithConsumer(s.team, c, Idle))
    case StreamEnds => s.(main := Ended(StreamClosed))
    case Acknowledge =>
      var u := s.main.response.url;
      s.(main := Serving(RequestsOf(site, u)), books := AckBooks(s.books, u), crawled := s.crawled + 1)
    case AddRequest =>
      s.(main := Serving(s.main.todo[1..]), books := TakeAsk(site, s.books, Visit(s.main.todo[0])))
    case EndCallback => s.(main := SitemapCheck)
    case CheckSitemap =>
      if !IsActive(s.books.queue) && site.options.crawlSitemap && !s.sitemapLoaded
      then s.(main := Loading(site.sitemap), sitemapLoaded := true)
      else s.(main := LoopCheck)
    case QueueEntry(u) => s.(main := Loading(s.main.entries - {u}), books := TakeAsk(site, s.books, Entry(u)))
    case EndEntries => s.(main := LoopCheck)
    case CheckLoop =>
      if !IsActive(s.books.queue) then s.(main := Ended(QueueInactive))
      else if s.started && s.crawled >= site.options.crawlLimit then s.(main := Ended(LimitReached))
      else s.(main := Waiting, started := true)
  }

  predicate Enabled(s: State, step: Step) {
    && !s.main.Ended?
    && match step
       case Stop => !s.cancelled
       case PollQueue => s.started && s.team.poller.Asking? && s.books.queue.first.Some?
       case Work(move) => s.started && CanWork(s.team, s.cancelled, move)
       case Go(act) => CanGo(s, act)
  }

  function Apply(site: Site, s: State, step: Step): State
    requires Enabled(s, step)
  {
    match step
    case Stop => s.(cancelled := true)
    case PollQueue => s.(team := s.team.(poller := Holding(s.books.queue.first.value)), books := PollBooks(s.books))
    case Work(move) => s.(team := DoWork(s.team, move))
    case Go(act) => DoGo(site, s, act)
  }

  // Runs

  predicate Feasible(site: Site, steps: seq<Step>)
    decreases |steps|, 0
  {
    steps != [] ==>
      var before := steps[..|steps| - 1];
      Feasible(site, before) && Enabled(After(site, before), steps[|steps| - 1])
  }

  function After(site: Site, steps: seq<Step>): State
    requires Feasible(site, steps)
    decreases |steps|, 1
  {
    if steps == [] then Init(site)
    else Apply(site, After(site, steps[..|steps| - 1]), steps[|steps| - 1])
  }

  /** The pages Start has passed to the callback, in order. */
  function Processed(s: State): seq<Url> {
    s.books.ledger.acked
  }
}
