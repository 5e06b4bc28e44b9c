/** A complete crawl that misses a reachable URL, because a refused link came before a resource request for it. */
module CrawlWitness {
  import opened Requests
  import opened WorkQueue
  import opened LinkRule
  import opened Admission
  import opened CrawlEngine
  import opened CrawlCoverage

  const SEED := Url("a", "/")
  const IMAGE := Url("b", "/i")

  const BLANK := Page(false, [], [], [], [], "", [], [], [])

  /** The seed page links to the image on another host and also shows it. */
  const SEED_PAGE := BLANK.(externalLinks := [Link(IMAGE, false)], resources := [IMAGE])

  const SITE := Site(SEED, (u: Url) => if u == SEED then SEED_PAGE else BLANK, {}, (u: Url) => false,
                     Options(20_000, false, false, false, false))

  const LINK := Request(IMAGE, false)
  const RESOURCE := Request(IMAGE, true)

  lemma SeedPageRequests()
    ensures RequestsOf(SITE, SEED) == [LINK, RESOURCE]
  {
    var links := SEED_PAGE.links + SEED_PAGE.externalLinks;
    assert links == [Link(IMAGE, false)] && links[..0] == [];
    assert FollowedLinks(SEED_PAGE, links, false) == [LINK];
    assert Each([IMAGE], true) == [RESOURCE];
  }

  lemma Answers()
    ensures Admits(SITE, Visit(SeedRequest(SITE))) && !Admits(SITE, Visit(LINK)) && Admits(SITE, Visit(RESOURCE))
  {
    assert !("www." <= SEED.host) && TrimWww(SEED.host) == "a";
    assert IMAGE.host[0] == 'b' && "a"[0] == 'a' && |"www." + "a"| == 5;
  }

  lemma Extend(steps: seq<Step>, step: Step)
    requires Feasible(SITE, steps) && Enabled(After(SITE, steps), step)
    ensures Feasible(SITE, steps + [step]) && After(SITE, steps + [step]) == Apply(SITE, After(SITE, steps), step)
  {
    assert (steps + [step])[..|steps|] == steps;
  }

  /** The state when Start first waits: the seed is in the queue's slot. */
  const WAITING := State(Waiting, Team(Asking, Idle, Idle, []),
                         Books({SEED}, QueueState(Some(Request(SEED, false)), [], {SEED}), [Visit(Request(SEED, false))],
                               Ledger([Request(SEED, false)], [], [])),
                         false, true, false, 0)

  const ASKING := [Go(AddRequest), Go(EndCallback)]
  const OPENING := ASKING + [Go(CheckSitemap), Go(CheckLoop)]

  lemma SeedTaken()
    ensures TakeAsk(SITE, Init(SITE).books, Visit(Request(SEED, false))) == WAITING.books
  {
    Answers();
    assert [] + [Request(SEED, false)] == [Request(SEED, false)];
    assert [] + [Visit(Request(SEED, false))] == [Visit(Request(SEED, false))];
  }

  lemma SeedAsked()
    ensures Feasible(SITE, ASKING)
    ensures After(SITE, ASKING) == WAITING.(main := SitemapCheck, started := false)
  {
    SeedTaken();
    Extend([], Go(AddRequest));
    assert [] + [Go(AddRequest)] == [Go(AddRequest)];
    Extend([Go(AddRequest)], Go(EndCallback));
    assert ASKING == [Go(AddRequest)] + [Go(EndCallback)];
  }

  lemma Opening()
    ensures Feasible(SITE, OPENING) && After(SITE, OPENING) == WAITING
  {
    SeedAsked();
    Extend(ASKING, Go(CheckSitemap));
    Extend(ASKING + [Go(CheckSitemap)], Go(CheckLoop));
    assert OPENING == (ASKING + [Go(CheckSitemap)]) + [Go(CheckLoop)];
  }

  /** The state when the callback of the seed page starts. */
  const SERVING := State(Serving([LINK, RESOURCE]), Team(Asking, Idle, Idle, []),
                         Books({SEED}, QueueState(None, [], {}), [Visit(Request(SEED, false))],
                               Ledger([Request(SEED, false)], [Request(SEED, false)], [SEED])),
                         false, true, false, 1)

  const SENDING := OPENING + [PollQueue, Work(HandOff(false)), Work(Fetch(false))]
  const FETCHING := SENDING + [Go(Receive(false)), Go(Acknowledge)]

  lemma Sending()
    ensures Feasible(SITE, SENDING)
    ensures After(SITE, SENDING)
            == WAITING.(team := Team(Asking, Answering(Request(SEED, false)), Idle, []),
                        books := WAITING.books.(queue := QueueState(None, [], {SEED}),
                                                ledger := Ledger([Request(SEED, false)], [Request(SEED, false)], [])))
  {
    Opening();
    var one := OPENING + [PollQueue];
    var two := one + [Work(HandOff(false))];
    Extend(OPENING, PollQueue);
    Extend(one, Work(HandOff(false)));
    Extend(two, Work(Fetch(false)));
    assert SENDING == two + [Work(Fetch(false))];
  }

  lemma Fetching()
    ensures Feasible(SITE, FETCHING) && After(SITE, FETCHING) == SERVING
  {
    Sending();
    SeedPageRequests();
    Extend(SENDING, Go(Receive(false)));
    Extend(SENDING + [Go(Receive(false))], Go(Acknowledge));
    assert FETCHING == (SENDING + [Go(Receive(false))]) + [Go(Acknowledge)];
  }

  /** The link is refused, and the resource request comes too late. */
  const HIDING := FETCHING + [Go(AddRequest), Go(AddRequest)]
  const RUN := HIDING + [Go(EndCallback), Go(CheckSitemap), Go(CheckLoop)]

  lemma Hiding()
    ensures Feasible(SITE, HIDING)
    ensures var s := After(SITE, HIDING);
            && s.main == Serving([]) && s.started && s.books.queue == QueueState(None, [], {})
            && Processed(s) == [SEED]
  {
    Fetching();
    Answers();
    Extend(FETCHING, Go(AddRequest));
    Extend(FETCHING + [Go(AddRequest)], Go(AddRequest));
    assert HIDING == (FETCHING + [Go(AddRequest)]) + [Go(AddRequest)];
  }

  lemma Ending()
    ensures EndsInactive(SITE, RUN) && Processed(After(SITE, RUN)) == [SEED]
  {
    Hiding();
    var one := HIDING + [Go(EndCallback)];
    var two := one + [Go(CheckSitemap)];
    Extend(HIDING, Go(EndCallback));
    Extend(one, Go(CheckSitemap));
    Extend(two, Go(CheckLoop));
    assert RUN == two + [Go(CheckLoop)];
  }

  /** Coverage fails: this complete run processes the seed only, although the image is reachable as a resource. */
  lemma RefusedLinkHidesResource()
    ensures |RUN| == 14 && EndsInactive(SITE, RUN) && Processed(After(SITE, RUN)) == [SEED]
    ensures Reaches(SITE, IMAGE) && IMAGE !in Processed(After(SITE, RUN))
  {
    Ending();
    Answers();
    SeedPageRequests();
    RootReaches(SITE, SEED);
    assert RESOURCE in RequestsOf(SITE, SEED);
    EdgeReaches(SITE, SEED, IMAGE);
  }
}
