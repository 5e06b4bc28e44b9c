/** What every step of the crawl engine keeps. */
module CrawlSafety {
  import opened Arith
  import opened Requests
  import opened WorkQueue
  import opened Admission
  import opened CrawlEngine

  // Intake: the visited set, the queue and their histories agree.

  ghost predicate IntakeInv(site: Site, b: Books) {
    && b.seen == AskedUrls(b.asked)
    && b.ledger.pushed == FirstAdmitted(site, b.asked)
    && Agrees(b.queue, b.ledger)
    && Lawful(b.ledger)
  }

  lemma TakeKeepsIntake(site: Site, b: Books, a: Ask)
    requires IntakeInv(site, b)
    ensures IntakeInv(site, TakeAsk(site, b, a))
  {
    AskedUrlsAppend(b.asked, a);
    FirstAdmittedAppend(site, b.asked, a);
    AdmittedWereAsked(site, b.asked);
    if Answer(site, Intake(b.seen, b.queue), a) == Queued {
      PushAgrees(b.queue, b.ledger, Message(a));
    }
  }

  // Custody: every polled message was processed, dropped, or is in exactly one pair of hands.

  function Texts(messages: seq<Request>): seq<Url> {
    seq(|messages|, i requires 0 <= i < |messages| => messages[i].url)
  }

  function Occurrences(urls: seq<Url>, u: Url): nat {
    multiset(urls)[u]
  }

  function One(m: Request, u: Url): nat {
    if m.url == u then 1 else 0
  }

  function PollerHolds(p: Poller, u: Url): nat {
    if p.Holding? then One(p.held, u) else 0
  }

  function ConsumerHolds(c: Consumer, u: Url): nat {
    match c
    case Fetching(m) => One(m, u)
    case Answering(m) => One(m, u)
    case _ => 0
  }

  function StartHolds(m: Main, u: Url): nat {
    if m.Acking? then One(m.response, u) else 0
  }

  function TeamHolds(t: Team, u: Url): nat {
    PollerHolds(t.poller, u) + ConsumerHolds(t.first, u) + ConsumerHolds(t.second, u)
  }

  /** How many goroutines hold a message naming `u`. */
  function InHand(s: State, u: Url): nat {
    TeamHolds(s.team, u) + StartHolds(s.main, u)
  }

  predicate Accounted(s: State, u: Url) {
    Occurrences(Texts(s.books.ledger.polled), u)
    == Occurrences(s.books.ledger.acked, u) + Occurrences(s.team.dropped, u) + InHand(s, u)
  }

  ghost predicate CustodyInv(s: State) {
    forall u :: Accounted(s, u)
  }

  lemma OccurrencesAppend(a: seq<Url>, v: Url, u: Url)
    ensures Occurrences(a + [v], u) == Occurrences(a, u) + if u == v then 1 else 0
  {
  }

  lemma PolledAppend(a: seq<Request>, m: Request, u: Url)
    ensures Occurrences(Texts(a + [m]), u) == Occurrences(Texts(a), u) + One(m, u)
  {
    assert Texts(a + [m]) == Texts(a) + [m.url];
    OccurrencesAppend(Texts(a), m.url, u);
  }

  lemma TextsNamed(a: seq<Request>)
    ensures Elements(Texts(a)) == Named(a)
  {
    forall u | u in Named(a) ensures u in Texts(a) {
      var i :| 0 <= i < |a| && a[i].url == u;
      assert Texts(a)[i] == u;
    }
  }

  lemma HandsWerePolled(s: State, u: Url)
    requires CustodyInv(s) && InHand(s, u) > 0
    ensures u in Named(s.books.ledger.polled)
  {
    TextsNamed(s.books.ledger.polled);
    assert Accounted(s, u);
    assert u in Elements(Texts(s.books.ledger.polled));
  }

  lemma WorkKeepsCustody(t: Team, move: TeamStep, u: Url)
    requires CanWork(t, true, move)
    ensures var t' := DoWork(t, move);
            TeamHolds(t', u) + Occurrences(t'.dropped, u) == TeamHolds(t, u) + Occurrences(t.dropped, u)
  {
    if move.LeavePoller? {
      OccurrencesAppend(t.dropped, t.poller.held.url, u);
    }
  }

  /** Start takes a response out of a consumer's hand. */
  lemma ReceiveKeepsCustody(site: Site, s: State, c: bool, u: Url)
    requires CanGo(s, Receive(c)) && Accounted(s, u)
    ensures Accounted(DoGo(site, s, Receive(c)), u)
  {
  }

  /** Start's other steps hold no message and touch neither the team nor what was polled and acknowledged. */
  lemma PlainGoFrame(site: Site, s: State, act: StartStep)
    requires CanGo(s, act) && !act.Receive? && !act.Acknowledge?
    ensures var s' := DoGo(site, s, act);
            && s'.team == s.team && !s.main.Acking? && !s'.main.Acking? && s'.crawled == s.crawled
            && s'.books.ledger.polled == s.books.ledger.polled && s'.books.ledger.acked == s.books.ledger.acked
  {
  }

  lemma GoKeepsCustody(site: Site, s: State, act: StartStep, u: Url)
    requires CanGo(s, act) && Accounted(s, u)
    ensures Accounted(DoGo(site, s, act), u)
  {
    match act
    case Receive(c) => ReceiveKeepsCustody(site, s, c, u);
    case Acknowledge => OccurrencesAppend(s.books.ledger.acked, s.main.response.url, u);
    case _ => PlainGoFrame(site, s, act);
  }

  lemma CustodyKept(site: Site, s: State, step: Step)
    requires CustodyInv(s) && Enabled(s, step)
    ensures CustodyInv(Apply(site, s, step))
  {
    forall u ensures Accounted(Apply(site, s, step), u) {
      assert Accounted(s, u);
      match step
      case Stop =>
      case PollQueue => PolledAppend(s.books.ledger.polled, s.books.queue.first.value, u);
      case Work(move) => WorkKeepsCustody(s.team, move, u);
      case Go(act) => GoKeepsCustody(site, s, act, u);
    }
  }

  lemma AcknowledgeKeepsIntake(site: Site, s: State)
    requires IntakeInv(site, s.books) && CustodyInv(s) && CanGo(s, Acknowledge)
    ensures IntakeInv(site, AckBooks(s.books, s.main.response.url))
  {
    var u := s.main.response.url;
    HandsWerePolled(s, u);
    AckAgrees(s.books.queue, s.books.ledger, u);
  }

  lemma IntakeKept(site: Site, s: State, step: Step)
    requires IntakeInv(site, s.books) && CustodyInv(s) && Enabled(s, step)
    ensures IntakeInv(site, Apply(site, s, step).books)
  {
    match step
    case PollQueue => PollAgrees(s.books.queue, s.books.ledger);
    case Go(Acknowledge) => AcknowledgeKeepsIntake(site, s);
    case Go(AddRequest) => TakeKeepsIntake(site, s.books, Visit(s.main.todo[0]));
    case Go(QueueEntry(u)) => TakeKeepsIntake(site, s.books, Entry(u));
    case _ =>
  }

  // Control: which parts may be where.

  predicate TeamInv(t: Team, cancelled: bool) {
    && (t.dropped != [] ==> t.poller.Leaving? || t.poller.Gone?)
    && (t.poller.Leaving? || t.poller.Gone? || t.first.Exited? || t.second.Exited? ==> cancelled)
    && (t.poller.Gone? ==> t.first.Exited? && t.second.Exited?)
  }

  predicate ControlInv(s: State) {
    && TeamInv(s.team, s.cancelled)
    && (!s.started ==>
          && s.team == Team(Asking, Idle, Idle, []) && s.books.ledger.polled == []
          && !s.main.Waiting? && !s.main.Acking? && s.crawled == 0)
    && (s.main == Ended(StreamClosed) ==> s.team.poller.Gone?)
    && (s.main.Waiting? ==> IsActive(s.books.queue))
  }

  predicate CountInv(site: Site, s: State) {
    && s.crawled == |s.books.ledger.acked|
    && s.crawled <= Max(site.options.crawlLimit, 1)
    && (s.main.Waiting? || s.main.Acking? ==> s.crawled < Max(site.options.crawlLimit, 1))
    && (s.started && !s.main.Waiting? && !s.main.Acking? && s.main != Ended(StreamClosed) ==> s.crawled >= 1)
    && (s.main == Ended(LimitReached) ==> s.crawled == Max(site.options.crawlLimit, 1))
  }

  // The sitemap is queued at most once, and always before the run ends by inactivity.

  predicate SitemapInv(site: Site, s: State) {
    && (s.main.Loading? ==> s.sitemapLoaded)
    && (s.sitemapLoaded ==> site.options.crawlSitemap)
    && (s.main.LoopCheck? && site.options.crawlSitemap && !s.sitemapLoaded ==> IsActive(s.books.queue))
    && (s.main == Ended(QueueInactive) ==>
          !IsActive(s.books.queue) && (site.options.crawlSitemap ==> s.sitemapLoaded))
  }

  lemma WorkKeepsTeam(t: Team, cancelled: bool, move: TeamStep)
    requires TeamInv(t, cancelled) && CanWork(t, cancelled, move)
    ensures TeamInv(DoWork(t, move), cancelled)
  {
  }

  lemma GoKeepsControl(site: Site, s: State, act: StartStep)
    requires ControlInv(s) && CanGo(s, act)
    ensures ControlInv(DoGo(site, s, act))
  {
    if !act.Receive? && !act.Acknowledge? {
      PlainGoFrame(site, s, act);
    }
  }

  lemma ControlKept(site: Site, s: State, step: Step)
    requires IntakeInv(site, s.books) && ControlInv(s) && Enabled(s, step)
    ensures ControlInv(Apply(site, s, step))
  {
    match step
    case Stop =>
    case PollQueue => PollKeepsActive(s.books.queue, s.books.ledger);
    case Work(move) => WorkKeepsTeam(s.team, s.cancelled, move);
    case Go(act) => GoKeepsControl(site, s, act);
  }

  lemma CountKept(site: Site, s: State, step: Step)
    requires ControlInv(s) && CountInv(site, s) && Enabled(s, step)
    ensures CountInv(site, Apply(site, s, step))
  {
  }

  lemma SitemapKept(site: Site, s: State, step: Step)
    requires IntakeInv(site, s.books) && SitemapInv(site, s) && Enabled(s, step)
    ensures SitemapInv(site, Apply(site, s, step))
  {
    if step.PollQueue? {
      PollKeepsActive(s.books.queue, s.books.ledger);
    }
  }

  ghost predicate Inv(site: Site, s: State) {
    && IntakeInv(site, s.books)
    && CustodyInv(s)
    && ControlInv(s)
    && CountInv(site, s)
    && SitemapInv(site, s)
  }

  lemma InvInit(site: Site)
    ensures Inv(site, Init(site))
  {
    assert Texts([]) == [];
  }

  lemma {:induction false} EveryStateIsSafe(site: Site, steps: seq<Step>)
    requires Feasible(site, steps)
    ensures Inv(site, After(site, steps))
  {
    if steps == [] {
      InvInit(site);
    } else {
      var before, step := steps[..|steps| - 1], steps[|steps| - 1];
      EveryStateIsSafe(site, before);
      var s := After(site, before);
      IntakeKept(site, s, step);
      CustodyKept(site, s, step);
      ControlKept(site, s, step);
      CountKept(site, s, step);
      SitemapKept(site, s, step);
    }
  }
}
