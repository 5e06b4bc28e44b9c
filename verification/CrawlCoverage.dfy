/** What a finished crawl has processed, for every interleaving. */
module CrawlCoverage {
  import opened Arith
  import opened Requests
  import opened WorkQueue
  import opened Admission
  import opened CrawlEngine
  import opened CrawlSafety

  // What must be asked, and what has been or is about to be asked, are the same.

  ghost predicate Sourced(site: Site, processed: seq<Url>, loaded: bool, a: Ask) {
    match a
    case Visit(r) => r == SeedRequest(site) || exists u :: u in processed && r in RequestsOf(site, u)
    case Entry(u) => loaded && u in site.sitemap
  }

  predicate Pending(s: State, a: Ask) {
    || a in s.books.asked
    || (s.main.Serving? && a.Visit? && a.request in s.main.todo)
    || (s.main.Loading? && a.Entry? && a.entry in s.main.entries)
  }

  ghost predicate Covered(site: Site, s: State, a: Ask) {
    Pending(s, a) <==> Sourced(site, Processed(s), s.sitemapLoaded, a)
  }

  ghost predicate CoverInv(site: Site, s: State) {
    forall a :: Covered(site, s, a)
  }

  lemma AskKeepsPending(site: Site, s: State, act: StartStep, a: Ask)
    requires CanGo(s, act) && (act.AddRequest? || act.QueueEntry?)
    ensures Pending(DoGo(site, s, act), a) <==> Pending(s, a)
  {
    if act.AddRequest? {
      assert s.main.todo == [s.main.todo[0]] + s.main.todo[1..];
    }
  }

  lemma AcknowledgeCovers(site: Site, s: State, a: Ask)
    requires Covered(site, s, a) && CanGo(s, Acknowledge)
    ensures Covered(site, DoGo(site, s, Acknowledge), a)
  {
    var u := s.main.response.url;
    assert Processed(DoGo(site, s, Acknowledge)) == Processed(s) + [u];
    assert u in Processed(s) + [u];
    assert forall v :: v in Processed(s) + [u] <==> v in Processed(s) || v == u;
  }

  lemma GoCovers(site: Site, s: State, act: StartStep, a: Ask)
    requires Covered(site, s, a) && CanGo(s, act) && SitemapInv(site, s)
    ensures Covered(site, DoGo(site, s, act), a)
  {
    match act
    case Acknowledge => AcknowledgeCovers(site, s, a);
    case AddRequest => AskKeepsPending(site, s, act, a);
    case QueueEntry(_) => AskKeepsPending(site, s, act, a);
    case _ =>
  }

  lemma CoverKept(site: Site, s: State, step: Step)
    requires CoverInv(site, s) && Enabled(s, step) && SitemapInv(site, s)
    ensures CoverInv(site, Apply(site, s, step))
  {
    forall a ensures Covered(site, Apply(site, s, step), a) {
      assert Covered(site, s, a);
      if step.Go? {
        GoCovers(site, s, step.act, a);
      }
    }
  }

  // Reachability

  /** A request or sitemap entry that starts a crawl admits `v`. */
  ghost predicate Root(site: Site, v: Url) {
    || (v == site.seed && Admits(site, Visit(SeedRequest(site))))
    || (site.options.crawlSitemap && v in site.sitemap)
  }

  /** Page `u` requests `v` in some way that is admitted. */
  ghost predicate Edge(site: Site, u: Url, v: Url) {
    exists r :: r in RequestsOf(site, u) && r.url == v && Admits(site, Visit(r))
  }

  ghost predicate Path(site: Site, p: seq<Url>) {
    && |p| > 0
    && Root(site, p[0])
    && forall i :: 0 < i < |p| ==> Edge(site, p[i - 1], p[i])
  }

  ghost predicate Reaches(site: Site, v: Url) {
    exists p :: Path(site, p) && p[|p| - 1] == v
  }

  /** The seed request and every request that a reachable page makes for `v` are admitted. */
  ghost predicate Sure(site: Site, v: Url) {
    && (v == site.seed ==> Admits(site, Visit(SeedRequest(site))))
    && forall u, r :: Reaches(site, u) && r in RequestsOf(site, u) && r.url == v ==> Admits(site, Visit(r))
  }

  ghost predicate SurePath(site: Site, p: seq<Url>) {
    Path(site, p) && forall i :: 0 <= i < |p| ==> Sure(site, p[i])
  }

  predicate Allowed(site: Site, v: Url) {
    DomainIsAllowed(site, v.host) && (site.options.ignoreRobotsTxt || !site.blocked(v))
  }

  /** An allowed host that robots rules do not block is sure to be admitted. */
  lemma AllowedIsSure(site: Site, v: Url)
    requires Allowed(site, v)
    ensures Sure(site, v)
  {
  }

  lemma RootReaches(site: Site, v: Url)
    requires Root(site, v)
    ensures Reaches(site, v)
  {
    assert Path(site, [v]) && [v][|[v]| - 1] == v;
  }

  lemma EdgeReaches(site: Site, u: Url, v: Url)
    requires Reaches(site, u) && Edge(site, u, v)
    ensures Reaches(site, v)
  {
    var p :| Path(site, p) && p[|p| - 1] == u;
    var q := p + [v];
    forall i | 0 < i < |q| ensures Edge(site, q[i - 1], q[i]) {
      if i < |p| {
        assert q[i - 1] == p[i - 1] && q[i] == p[i];
      }
    }
    assert Path(site, q) && q[|q| - 1] == v;
  }

  // Soundness: only reachable pages are ever queued.

  ghost predicate ReachInv(site: Site, s: State) {
    forall m :: m in s.books.ledger.pushed ==> Reaches(site, m.url)
  }

  lemma AskReaches(site: Site, s: State, a: Ask)
    requires Inv(site, s) && CoverInv(site, s) && ReachInv(site, s) && Pending(s, a) && Admits(site, a)
    ensures Reaches(site, UrlOf(a))
  {
    assert Covered(site, s, a);
    match a
    case Entry(u) => RootReaches(site, u);
    case Visit(r) =>
      if r == SeedRequest(site) {
        RootReaches(site, r.url);
      } else {
        var u :| u in Processed(s) && r in RequestsOf(site, u);
        ProcessedWerePushed(site, s, u);
        assert Edge(site, u, r.url);
        EdgeReaches(site, u, r.url);
      }
  }

  lemma ProcessedWerePushed(site: Site, s: State, u: Url)
    requires Inv(site, s) && u in Processed(s)
    ensures exists m :: m in s.books.ledger.pushed && m.url == u
  {
    var l := s.books.ledger;
    assert u in Elements(l.acked);
    var m :| m in l.polled && m.url == u;
    assert m in l.pushed;
  }

  lemma ReachKept(site: Site, s: State, step: Step)
    requires Inv(site, s) && CoverInv(site, s) && ReachInv(site, s) && Enabled(s, step)
    ensures ReachInv(site, Apply(site, s, step))
  {
    match step
    case Go(AddRequest) => TakeReaches(site, s, Visit(s.main.todo[0]));
    case Go(QueueEntry(u)) => TakeReaches(site, s, Entry(u));
    case _ =>
  }

  lemma TakeReaches(site: Site, s: State, a: Ask)
    requires Inv(site, s) && CoverInv(site, s) && ReachInv(site, s) && Pending(s, a)
    ensures forall m :: m in TakeAsk(site, s.books, a).ledger.pushed ==> Reaches(site, m.url)
  {
    if Answer(site, Intake(s.books.seen, s.books.queue), a) == Queued {
      AskReaches(site, s, a);
    }
  }

  lemma {:induction false} EveryStateIsCovered(site: Site, steps: seq<Step>)
    requires Feasible(site, steps)
    ensures CoverInv(site, After(site, steps)) && ReachInv(site, After(site, steps))
  {
    if steps == [] {
      forall a ensures Covered(site, Init(site), a) {}
    } else {
      var before, step := steps[..|steps| - 1], steps[|steps| - 1];
      EveryStateIsCovered(site, before);
      EveryStateIsSafe(site, before);
      CoverKept(site, After(site, before), step);
      ReachKept(site, After(site, before), step);
    }
  }

  // Main results

  /** At any time, every processed page is reachable through admitted requests and sitemap entries. */
  lemma OnlyReachable(site: Site, steps: seq<Step>, u: Url)
    requires Feasible(site, steps) && u in Processed(After(site, steps))
    ensures Reaches(site, u)
  {
    EveryStateIsSafe(site, steps);
    EveryStateIsCovered(site, steps);
    ProcessedWerePushed(site, After(site, steps), u);
  }

  /** The run has ended because the queue was inactive, not by the limit or a stop. */
  predicate EndsInactive(site: Site, steps: seq<Step>) {
    Feasible(site, steps) && After(site, steps).main == Ended(QueueInactive)
  }

  /** Everything there was to ask has been asked, and the processed pages are exactly the first admitted asks. */
  ghost predicate Settled(site: Site, s: State, sitemap: bool) {
    && Elements(Processed(s)) == Named(FirstAdmitted(site, s.books.asked))
    && forall a :: a in s.books.asked <==> Sourced(site, Processed(s), sitemap, a)
  }

  /** Whenever the queue is inactive and Start has nothing left to ask, everything is settled. */
  lemma InactiveIsSettled(site: Site, s: State)
    requires Inv(site, s) && CoverInv(site, s) && !IsActive(s.books.queue)
    requires !s.main.Serving? && !s.main.Loading?
    ensures Settled(site, s, s.sitemapLoaded)
  {
    DetectorExact(s.books.queue, s.books.ledger);
    forall a ensures a in s.books.asked <==> Sourced(site, Processed(s), s.sitemapLoaded, a) {
      assert Covered(site, s, a);
    }
  }

  /** Ending by inactivity means that everything is settled, the sitemap included if the project asks for it. */
  lemma InactiveMeansComplete(site: Site, steps: seq<Step>)
    requires EndsInactive(site, steps)
    ensures Settled(site, After(site, steps), site.options.crawlSitemap)
  {
    EveryStateIsSafe(site, steps);
    EveryStateIsCovered(site, steps);
    InactiveIsSettled(site, After(site, steps));
  }

  lemma SettledIffFirstAdmits(site: Site, s: State, sitemap: bool, v: Url)
    requires Settled(site, s, sitemap)
    ensures v in Processed(s) <==> FirstAdmits(site, s.books.asked, v)
  {
    AdmittedIffFirstAdmits(site, s.books.asked, v);
    assert v in Processed(s) <==> v in Elements(Processed(s));
  }

  /** Which URLs a complete run has processed: exactly those whose first ask was admitted. */
  lemma FirstRequestDecides(site: Site, steps: seq<Step>, v: Url)
    requires EndsInactive(site, steps)
    ensures v in Processed(After(site, steps)) <==> FirstAdmits(site, After(site, steps).books.asked, v)
  {
    InactiveMeansComplete(site, steps);
    SettledIffFirstAdmits(site, After(site, steps), site.options.crawlSitemap, v);
  }

  /** No URL of the run was refused at its first ask and admitted at a later one. */
  ghost predicate NoneShadowed(site: Site, asks: seq<Ask>) {
    forall a :: a in asks && Admits(site, a) ==> FirstAdmits(site, asks, UrlOf(a))
  }

  ghost predicate NeverRefused(site: Site, asks: seq<Ask>, v: Url) {
    forall a :: a in asks && UrlOf(a) == v ==> Admits(site, a)
  }

  lemma NextIsProcessed(site: Site, s: State, sitemap: bool, a: Ask)
    requires Settled(site, s, sitemap) && Admits(site, a) && Sourced(site, Processed(s), sitemap, a)
    requires NoneShadowed(site, s.books.asked) || NeverRefused(site, s.books.asked, UrlOf(a))
    ensures UrlOf(a) in Processed(s)
  {
    assert a in s.books.asked;
    if NeverRefused(site, s.books.asked, UrlOf(a)) {
      AskedIsAdmittedOrRefused(site, s.books.asked, UrlOf(a));
      assert UrlOf(a) in Elements(Processed(s));
    } else {
      SettledIffFirstAdmits(site, s, sitemap, UrlOf(a));
    }
  }

  /** A path along which nothing is lost is processed. With `sitemap` off it must start at the seed. */
  lemma {:induction false} PathIsProcessed(site: Site, s: State, sitemap: bool, p: seq<Url>)
    requires Settled(site, s, sitemap) && Path(site, p)
    requires sitemap || (p[0] == site.seed && Admits(site, Visit(SeedRequest(site))))
    requires NoneShadowed(site, s.books.asked) || forall i :: 0 <= i < |p| ==> NeverRefused(site, s.books.asked, p[i])
    ensures p[|p| - 1] in Processed(s)
  {
    if |p| == 1 {
      NextIsProcessed(site, s, sitemap,
                      if p[0] == site.seed && Admits(site, Visit(SeedRequest(site))) then Visit(SeedRequest(site)) else Entry(p[0]));
    } else {
      var before := p[..|p| - 1];
      PathIsProcessed(site, s, sitemap, before);
      var u, v := p[|p| - 2], p[|p| - 1];
      assert u == before[|before| - 1];
      assert Edge(site, u, v);
      var r :| r in RequestsOf(site, u) && r.url == v && Admits(site, Visit(r));
      NextIsProcessed(site, s, sitemap, Visit(r));
    }
  }

  lemma SureIsNeverRefused(site: Site, steps: seq<Step>, v: Url)
    requires EndsInactive(site, steps) && Sure(site, v)
    ensures NeverRefused(site, After(site, steps).books.asked, v)
  {
    var s := After(site, steps);
    InactiveMeansComplete(site, steps);
    forall b | b in s.books.asked && UrlOf(b) == v ensures Admits(site, b) {
      assert Sourced(site, Processed(s), site.options.crawlSitemap, b);
      if b.Visit? && b.request != SeedRequest(site) {
        var u :| u in Processed(s) && b.request in RequestsOf(site, u);
        OnlyReachable(site, steps, u);
      }
    }
  }

  lemma SurePathIsProcessed(site: Site, steps: seq<Step>, p: seq<Url>)
    requires EndsInactive(site, steps) && SurePath(site, p)
    ensures p[|p| - 1] in Processed(After(site, steps))
  {
    InactiveMeansComplete(site, steps);
    forall i | 0 <= i < |p| ensures NeverRefused(site, After(site, steps).books.asked, p[i]) {
      SureIsNeverRefused(site, steps, p[i]);
    }
    StartsAtSeed(site, p);
    PathIsProcessed(site, After(site, steps), site.options.crawlSitemap, p);
  }

  lemma StartsAtSeed(site: Site, p: seq<Url>)
    requires Path(site, p)
    ensures site.options.crawlSitemap || (p[0] == site.seed && Admits(site, Visit(SeedRequest(site))))
  {
  }

  /**
   Coverage is exact: a complete run has processed everything reachable if and
   only if none of its URLs was refused at its first ask and admitted at a later one.
   */
  lemma CoverageIsExact(site: Site, steps: seq<Step>)
    requires EndsInactive(site, steps)
    ensures (forall v :: Reaches(site, v) ==> v in Processed(After(site, steps)))
            <==> NoneShadowed(site, After(site, steps).books.asked)
  {
    var s := After(site, steps);
    if forall v :: Reaches(site, v) ==> v in Processed(s) {
      forall a | a in s.books.asked && Admits(site, a) ensures FirstAdmits(site, s.books.asked, UrlOf(a)) {
        EveryStateIsSafe(site, steps);
        EveryStateIsCovered(site, steps);
        AskReaches(site, s, a);
        FirstRequestDecides(site, steps, UrlOf(a));
      }
    }
    if NoneShadowed(site, s.books.asked) {
      forall v | Reaches(site, v) ensures v in Processed(s) {
        var p :| Path(site, p) && p[|p| - 1] == v;
        InactiveMeansComplete(site, steps);
        StartsAtSeed(site, p);
        PathIsProcessed(site, s, site.options.crawlSitemap, p);
      }
    }
  }

  /** Coverage without looking at the run: everything surely reachable is processed, in every interleaving. */
  lemma EverythingSureIsProcessed(site: Site, steps: seq<Step>, p: seq<Url>)
    requires EndsInactive(site, steps)
    ensures SurePath(site, p) ==> p[|p| - 1] in Processed(After(site, steps))
  {
    if SurePath(site, p) {
      SurePathIsProcessed(site, steps, p);
    }
  }

  ghost predicate Requested(site: Site, u: Url, v: Url) {
    exists r :: r in RequestsOf(site, u) && r.url == v
  }

  /** From the seed or a sitemap entry, through requests of any kind, over allowed and unblocked URLs only. */
  ghost predicate AllowedPath(site: Site, p: seq<Url>) {
    && |p| > 0
    && (p[0] == site.seed || (site.options.crawlSitemap && p[0] in site.sitemap))
    && (forall i :: 0 <= i < |p| ==> Allowed(site, p[i]))
    && (forall i :: 0 < i < |p| ==> Requested(site, p[i - 1], p[i]))
  }

  lemma AllowedPathIsSure(site: Site, p: seq<Url>)
    requires AllowedPath(site, p)
    ensures SurePath(site, p)
  {
    forall i | 0 < i < |p| ensures Edge(site, p[i - 1], p[i]) {
      assert Requested(site, p[i - 1], p[i]);
      var r :| r in RequestsOf(site, p[i - 1]) && r.url == p[i];
      assert Admits(site, Visit(r));
    }
    forall i | 0 <= i < |p| ensures Sure(site, p[i]) {
      AllowedIsSure(site, p[i]);
    }
  }

  /** The promise in the project's own terms: whatever allowed hosts and robots rules let one reach is processed. */
  lemma AllowedReachableIsProcessed(site: Site, steps: seq<Step>, p: seq<Url>)
    requires EndsInactive(site, steps)
    ensures AllowedPath(site, p) ==> p[|p| - 1] in Processed(After(site, steps))
  {
    if AllowedPath(site, p) {
      AllowedPathIsSure(site, p);
      SurePathIsProcessed(site, steps, p);
    }
  }

  /** All ways in which reachable pages name a reachable URL get the same answer. */
  ghost predicate Uniform(site: Site) {
    forall v :: Reaches(site, v) ==> Sure(site, v)
  }

  lemma PathReaches(site: Site, p: seq<Url>, i: nat)
    requires Path(site, p) && i < |p|
    ensures Reaches(site, p[i])
  {
    var q := p[..i + 1];
    forall j | 0 < j < |q| ensures Edge(site, q[j - 1], q[j]) {
      assert q[j - 1] == p[j - 1] && q[j] == p[j];
    }
    assert Path(site, q) && q[|q| - 1] == p[i];
  }

  /** On a uniform site every interleaving that ends by inactivity processes the same pages: the reachable ones. */
  lemma InterleavingDoesNotMatter(site: Site, steps: seq<Step>, v: Url)
    requires Uniform(site) && EndsInactive(site, steps)
    ensures v in Processed(After(site, steps)) <==> Reaches(site, v)
  {
    if Reaches(site, v) {
      var p :| Path(site, p) && p[|p| - 1] == v;
      forall i | 0 <= i < |p| ensures Sure(site, p[i]) {
        PathReaches(site, p, i);
      }
      SurePathIsProcessed(site, steps, p);
    } else if v in Processed(After(site, steps)) {
      OnlyReachable(site, steps, v);
    }
  }

  // What is kept out, over every run and in plain terms

  /** A processed URL was asked for by someone, and that ask was admitted. */
  lemma ProcessedWasAdmitted(site: Site, steps: seq<Step>, u: Url) returns (a: Ask)
    requires Feasible(site, steps) && u in Processed(After(site, steps))
    ensures Admits(site, a) && UrlOf(a) == u
    ensures Sourced(site, Processed(After(site, steps)), After(site, steps).sitemapLoaded, a)
    ensures After(site, steps).sitemapLoaded ==> site.options.crawlSitemap
  {
    var s := After(site, steps);
    EveryStateIsSafe(site, steps);
    EveryStateIsCovered(site, steps);
    ProcessedWerePushed(site, s, u);
    AdmittedWereAsked(site, s.books.asked);
    var m :| m in s.books.ledger.pushed && m.url == u;
    a :| a in s.books.asked && Admits(site, a) && Message(a) == m;
    assert Covered(site, s, a);
  }

  /** A page that robots rules block is processed only as a sitemap entry, unless the project ignores those rules. */
  lemma BlockedIsKeptOut(site: Site, steps: seq<Step>, u: Url)
    requires Feasible(site, steps)
    ensures u in Processed(After(site, steps)) && !site.options.ignoreRobotsTxt && site.blocked(u) ==>
              site.options.crawlSitemap && u in site.sitemap
  {
    if u in Processed(After(site, steps)) {
      var a := ProcessedWasAdmitted(site, steps, u);
    }
  }

  /** A page of another host is processed only as a sitemap entry, or as a resource of a processed page. */
  lemma ForeignIsKeptOut(site: Site, steps: seq<Step>, u: Url)
    requires Feasible(site, steps)
    ensures u in Processed(After(site, steps)) && !DomainIsAllowed(site, u.host) ==>
              || (site.options.crawlSitemap && u in site.sitemap)
              || exists v, r :: v in Processed(After(site, steps)) && r in RequestsOf(site, v) && r.url == u && r.ignoreDomain
  {
    if u in Processed(After(site, steps)) && !DomainIsAllowed(site, u.host) {
      var a := ProcessedWasAdmitted(site, steps, u);
      SeedDomainIsAllowed(site);
    }
  }

  // When the sitemap is queued

  /** The step that queues the sitemap, and the state it starts from. */
  ghost predicate LoadsAt(site: Site, steps: seq<Step>, n: nat) {
    && n < |steps| && Feasible(site, steps[..n]) && Enabled(After(site, steps[..n]), steps[n])
    && !After(site, steps[..n]).main.Loading? && Apply(site, After(site, steps[..n]), steps[n]).main.Loading?
  }

  lemma LoadingNeedsInactive(site: Site, s: State, step: Step)
    requires Enabled(s, step) && !s.main.Loading? && Apply(site, s, step).main.Loading?
    ensures !IsActive(s.books.queue) && !s.main.Serving? && !s.sitemapLoaded && site.options.crawlSitemap
  {
  }

  lemma LoadedByLoading(site: Site, s: State, step: Step)
    requires Enabled(s, step) && SitemapInv(site, s) && !s.sitemapLoaded && Apply(site, s, step).sitemapLoaded
    ensures !s.main.Loading? && Apply(site, s, step).main.Loading?
  {
  }

  lemma InactiveIsAcked(s: State)
    requires Agrees(s.books.queue, s.books.ledger) && Lawful(s.books.ledger) && !IsActive(s.books.queue)
    ensures Named(s.books.ledger.pushed) == Elements(s.books.ledger.acked)
  {
    DetectorExact(s.books.queue, s.books.ledger);
  }

  /** The sitemap is queued only once everything queued so far has been processed and everything to ask has been asked. */
  lemma SitemapWaitsForQueue(site: Site, steps: seq<Step>, n: nat)
    requires LoadsAt(site, steps, n)
    ensures var s := After(site, steps[..n]);
            && Named(s.books.ledger.pushed) == Elements(s.books.ledger.acked)
            && Settled(site, s, false) && site.options.crawlSitemap
  {
    var s := After(site, steps[..n]);
    LoadingNeedsInactive(site, s, steps[n]);
    EveryStateIsSafe(site, steps[..n]);
    EveryStateIsCovered(site, steps[..n]);
    InactiveIsAcked(s);
    InactiveIsSettled(site, s);
  }

  lemma {:induction false} LoadedWasLoading(site: Site, steps: seq<Step>) returns (n: nat)
    requires Feasible(site, steps) && After(site, steps).sitemapLoaded
    ensures LoadsAt(site, steps, n)
  {
    var before := steps[..|steps| - 1];
    if After(site, before).sitemapLoaded {
      n := LoadedWasLoading(site, before);
      assert before[..n] == steps[..n];
    } else {
      assert SitemapInv(site, After(site, before)) by {
        EveryStateIsSafe(site, before);
      }
      LoadedByLoading(site, After(site, before), steps[|before|]);
      n := |before|;
    }
  }

  /**
   Sitemap entries come last: whenever one has been asked for, there was an
   earlier state in which none had been and everything allowed that links lead
   to from the seed was processed already.
   */
  lemma EntriesComeLast(site: Site, steps: seq<Step>, u: Url, p: seq<Url>) returns (n: nat)
    requires Feasible(site, steps) && Entry(u) in After(site, steps).books.asked
    ensures n < |steps| && Feasible(site, steps[..n])
    ensures forall v :: Entry(v) !in After(site, steps[..n]).books.asked
    ensures AllowedPath(site, p) && p[0] == site.seed ==> p[|p| - 1] in Processed(After(site, steps[..n]))
  {
    EveryStateIsCovered(site, steps);
    assert Covered(site, After(site, steps), Entry(u));
    n := LoadedWasLoading(site, steps);
    SitemapWaitsForQueue(site, steps, n);
    var s := After(site, steps[..n]);
    forall v ensures Entry(v) !in s.books.asked {
      assert !Sourced(site, Processed(s), false, Entry(v));
    }
    if AllowedPath(site, p) && p[0] == site.seed {
      AllowedPathIsSure(site, p);
      forall i | 0 <= i < |p| ensures NeverRefused(site, s.books.asked, p[i]) {
        assert Allowed(site, p[i]);
      }
      PathIsProcessed(site, s, false, p);
    }
  }

  /** Without a stop a crawl ends only because nothing is left or because it reached its limit. */
  lemma {:induction false} UnstoppedEnds(site: Site, steps: seq<Step>)
    requires Feasible(site, steps) && Stop !in steps
    ensures !After(site, steps).cancelled
    ensures After(site, steps).main.Ended? ==>
              || After(site, steps).main == Ended(QueueInactive)
              || (After(site, steps).main == Ended(LimitReached) && After(site, steps).crawled == Max(site.options.crawlLimit, 1))
  {
    assert ControlInv(After(site, steps)) && CountInv(site, After(site, steps)) by {
      EveryStateIsSafe(site, steps);
    }
    if steps != [] {
      UnstoppedEnds(site, steps[..|steps| - 1]);
      StaysUncancelled(site, After(site, steps[..|steps| - 1]), steps[|steps| - 1]);
    }
  }

  lemma StaysUncancelled(site: Site, s: State, step: Step)
    requires Enabled(s, step) && !s.cancelled && step != Stop
    ensures !Apply(site, s, step).cancelled
  {
  }

  /**
   Each URL is queued at most once, is processed at most once, and while one
   goroutine works on it no other does and it has not been processed yet.
   */
  lemma AtMostOnce(site: Site, steps: seq<Step>, u: Url)
    requires Feasible(site, steps)
    ensures var s := After(site, steps);
            && Distinct(s.books.ledger.pushed)
            && Occurrences(Processed(s), u) + InHand(s, u) <= 1
            && |Processed(s)| == s.crawled <= Max(site.options.crawlLimit, 1)
  {
    EveryStateIsSafe(site, steps);
    HeldOnce(site, After(site, steps), u);
  }

  lemma HeldOnce(site: Site, s: State, u: Url)
    requires Lawful(s.books.ledger) && Agrees(s.books.queue, s.books.ledger) && CustodyInv(s)
    ensures Occurrences(Processed(s), u) + InHand(s, u) <= 1
  {
    var l := s.books.ledger;
    assert Accounted(s, u);
    PolledAreDistinct(s.books.queue, l);
    DistinctTexts(l.polled, u);
  }

  lemma PolledAreDistinct(q: QueueState, l: Ledger)
    requires Lawful(l) && Agrees(q, l)
    ensures Distinct(l.polled)
  {
    forall i, j | 0 <= i < j < |l.polled| ensures l.polled[i].url != l.polled[j].url {
      assert l.polled[i] == l.pushed[i] && l.polled[j] == l.pushed[j];
    }
  }

  lemma {:induction false} DistinctTexts(messages: seq<Request>, u: Url)
    requires Distinct(messages)
    ensures Occurrences(Texts(messages), u) == if u in Named(messages) then 1 else 0
  {
    if messages != [] {
      var before, m := messages[..|messages| - 1], messages[|messages| - 1];
      assert messages == before + [m];
      DistinctTexts(before, u);
      PolledAppend(before, m, u);
      NamedAppend(before, [m]);
      NamedOne(m);
      DistinctSplit(before, [m]);
    }
  }
}
