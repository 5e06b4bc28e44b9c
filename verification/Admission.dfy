/** Admission of requests: visited check, domain check, robots check, then the queue. */
module Admission {
  import opened Requests
  import opened WorkQueue
  import opened LinkRule
  import opened Strings

  datatype Options = Options(crawlLimit: int, ignoreRobotsTxt: bool, followNofollow: bool,
                             crawlSitemap: bool, allowSubdomains: bool)

  /**
   A site as one run sees it. Each URL is fetched at most once and robots data
   is memoized per host, so fixed answers lose no behaviour.
   */
  datatype Site = Site(seed: Url, page: Url -> Page, sitemap: set<Url>, blocked: Url -> bool, options: Options)

  // Hosts

  function TrimWww(host: string): string {
    if "www." <= host then host[4..] else host
  }

  predicate DomainIsAllowed(site: Site, host: string) {
    var mainDomain := TrimWww(site.seed.host);
    || host == mainDomain
    || host == "www." + mainDomain
    || (site.options.allowSubdomains && HasSuffix(host, mainDomain))
  }

  lemma SeedDomainIsAllowed(site: Site)
    ensures DomainIsAllowed(site, site.seed.host)
  {
    var host := site.seed.host;
    if "www." <= host {
      assert host == host[..4] + host[4..] == "www." + TrimWww(host);
    }
  }

  /** With or without www: whichever form the seed's host has, both forms pass. */
  lemma WwwIsInterchangeable(site: Site, domain: string)
    requires !("www." <= domain) && (site.seed.host == domain || site.seed.host == "www." + domain)
    ensures DomainIsAllowed(site, domain) && DomainIsAllowed(site, "www." + domain)
  {
    assert ("www." + domain)[4..] == domain;
  }

  /** Which hosts pass: the main domain, with www, or with any text before it when subdomains are allowed. */
  lemma HostPassesIff(site: Site, host: string)
    ensures DomainIsAllowed(site, host)
            <==> exists prefix :: host == prefix + TrimWww(site.seed.host)
                                  && (prefix == "" || prefix == "www." || site.options.allowSubdomains)
  {
    var main := TrimWww(site.seed.host);
    if host == main {
      assert host == "" + main;
    } else if host == "www." + main {
    } else if site.options.allowSubdomains && HasSuffix(host, main) {
      assert host == host[..|host| - |main|] + main;
    }
    if prefix :| host == prefix + main && (prefix == "" || prefix == "www." || site.options.allowSubdomains) {
      assert host[|host| - |main|..] == main;
    }
  }

  /**
   What the suffix test lets in beyond the main domain and its subdomains:
   exactly the longer hosts that end in the main domain's text without a dot before it.
   */
  lemma SuffixTestIsLoose(site: Site, host: string)
    requires site.options.allowSubdomains
    ensures var main := TrimWww(site.seed.host);
            DomainIsAllowed(site, host) && host != main && !HasSuffix(host, "." + main)
            <==> HasSuffix(host, main) && |host| > |main| && host[|host| - |main| - 1] != '.'
  {
    var main := TrimWww(site.seed.host);
    var cut := |host| - |main|;
    if HasSuffix(host, main) && cut > 0 {
      assert host[cut - 1..] == [host[cut - 1]] + host[cut..];
    }
    if HasSuffix(host, "." + main) {
      assert host[cut - 1..][1..] == host[cut..];
    }
    assert HasSuffix("www." + main, "." + main) by {
      assert ("www." + main)[3..] == "." + main;
    }
  }

  /** With subdomains allowed, a foreign host whose name ends in the main domain's text is let in. */
  lemma ForeignHostIsAllowed(site: Site)
    requires site.seed.host == "example.com" && site.options.allowSubdomains
    ensures DomainIsAllowed(site, "notexample.com")
    ensures !HasSuffix("notexample.com", ".example.com")
  {
    assert "notexample.com"[3..] == "example.com";
    assert "notexample.com"[2..] == "texample.com";
  }

  // Requests and sitemap entries compete for the same visited set.

  datatype Ask = Visit(request: Request) | Entry(entry: Url)

  function UrlOf(a: Ask): Url {
    match a case Visit(r) => r.url case Entry(u) => u
  }

  function Message(a: Ask): Request {
    match a case Visit(r) => r case Entry(u) => Request(u, false)
  }

  datatype Verdict = Queued | ErrVisited | ErrDomainNotAllowed | ErrBlockedByRobotstxt

  /** What happens to an unvisited URL. Sitemap entries skip both checks. */
  function Judge(site: Site, a: Ask): Verdict {
    match a
    case Entry(_) => Queued
    case Visit(r) =>
      if !DomainIsAllowed(site, r.url.host) && !r.ignoreDomain then ErrDomainNotAllowed
      else if !site.options.ignoreRobotsTxt && site.blocked(r.url) then ErrBlockedByRobotstxt
      else Queued
  }

  predicate Admits(site: Site, a: Ask) {
    Judge(site, a) == Queued
  }

  datatype Intake = Intake(seen: set<Url>, queue: QueueState)

  function Answer(site: Site, i: Intake, a: Ask): Verdict {
    if UrlOf(a) in i.seen then ErrVisited else Judge(site, a)
  }

  function Take(site: Site, i: Intake, a: Ask): Intake {
    Intake(i.seen + {UrlOf(a)},
           if Answer(site, i, a) == Queued then Push(i.queue, Message(a)) else i.queue)
  }

  function TakeAll(site: Site, i: Intake, asks: seq<Ask>): Intake {
    if asks == [] then i
    else Take(site, TakeAll(site, i, asks[..|asks| - 1]), asks[|asks| - 1])
  }

  lemma TakeAllAppend(site: Site, i: Intake, asks: seq<Ask>, a: Ask)
    ensures TakeAll(site, i, asks + [a]) == Take(site, TakeAll(site, i, asks), a)
  {
    assert (asks + [a])[..|asks|] == asks;
  }

  ghost function AskedUrls(asks: seq<Ask>): set<Url> {
    set a | a in asks :: UrlOf(a)
  }

  /**
   Reference definition of admission over a whole history: the messages of
   those asks that are the first to name their URL and pass their checks.
   */
  ghost function FirstAdmitted(site: Site, asks: seq<Ask>): seq<Request> {
    if asks == [] then []
    else
      var before, a := asks[..|asks| - 1], asks[|asks| - 1];
      FirstAdmitted(site, before)
      + if UrlOf(a) !in AskedUrls(before) && Admits(site, a) then [Message(a)] else []
  }

  lemma AskedUrlsAppend(asks: seq<Ask>, a: Ask)
    ensures AskedUrls(asks + [a]) == AskedUrls(asks) + {UrlOf(a)}
  {
    assert a in asks + [a];
    assert forall b :: b in asks ==> b in asks + [a];
  }

  lemma FirstAdmittedAppend(site: Site, asks: seq<Ask>, a: Ask)
    ensures FirstAdmitted(site, asks + [a])
            == FirstAdmitted(site, asks)
               + if UrlOf(a) !in AskedUrls(asks) && Admits(site, a) then [Message(a)] else []
  {
    assert (asks + [a])[..|asks|] == asks;
  }

  lemma {:induction false} AdmittedWereAsked(site: Site, asks: seq<Ask>)
    ensures Named(FirstAdmitted(site, asks)) <= AskedUrls(asks)
    ensures forall m :: m in FirstAdmitted(site, asks) ==>
                          exists a :: a in asks && Admits(site, a) && Message(a) == m
  {
    if asks != [] {
      AdmittedWereAsked(site, asks[..|asks| - 1]);
    }
  }

  /** A URL that was asked for is in the queue's history unless one of its asks was refused. */
  lemma {:induction false} AskedIsAdmittedOrRefused(site: Site, asks: seq<Ask>, u: Url)
    requires u in AskedUrls(asks)
    ensures || u in Named(FirstAdmitted(site, asks))
            || exists a :: a in asks && UrlOf(a) == u && !Admits(site, a)
  {
    var before, last := asks[..|asks| - 1], asks[|asks| - 1];
    assert asks == before + [last];
    if u in AskedUrls(before) {
      AskedIsAdmittedOrRefused(site, before, u);
      if u in Named(FirstAdmitted(site, before)) {
        var m :| m in FirstAdmitted(site, before) && m.url == u;
        assert m in FirstAdmitted(site, asks);
      }
    } else if Admits(site, last) {
      assert Message(last) in FirstAdmitted(site, asks);
    }
  }

  /** No URL is queued twice, whatever mix of links, resources and sitemap entries names it. */
  lemma {:induction false} AdmittedOnce(site: Site, asks: seq<Ask>)
    ensures Distinct(FirstAdmitted(site, asks))
  {
    if asks != [] {
      var before, a := asks[..|asks| - 1], asks[|asks| - 1];
      AdmittedOnce(site, before);
      AdmittedWereAsked(site, before);
      if UrlOf(a) !in AskedUrls(before) && Admits(site, a) {
        DistinctAppend(FirstAdmitted(site, before), Message(a));
      }
    }
  }

  /** The first ask that names the URL passes its checks. */
  ghost predicate FirstAdmits(site: Site, asks: seq<Ask>, u: Url) {
    exists i :: 0 <= i < |asks| && UrlOf(asks[i]) == u && Admits(site, asks[i])
                && forall j :: 0 <= j < i ==> UrlOf(asks[j]) != u
  }

  lemma FirstAdmitsAppend(site: Site, asks: seq<Ask>, a: Ask, u: Url)
    ensures FirstAdmits(site, asks + [a], u)
            <==> FirstAdmits(site, asks, u) || (u == UrlOf(a) && u !in AskedUrls(asks) && Admits(site, a))
  {
    var all := asks + [a];
    if FirstAdmits(site, asks, u) {
      var i :| 0 <= i < |asks| && UrlOf(asks[i]) == u && Admits(site, asks[i]) && forall j :: 0 <= j < i ==> UrlOf(asks[j]) != u;
      assert all[i] == asks[i];
      assert forall j :: 0 <= j < i ==> all[j] == asks[j];
    }
    if u == UrlOf(a) && u !in AskedUrls(asks) && Admits(site, a) {
      assert all[|asks|] == a;
      forall j | 0 <= j < |asks| ensures UrlOf(all[j]) != u {
        assert all[j] == asks[j] && asks[j] in asks;
      }
    }
    if FirstAdmits(site, all, u) {
      var i :| 0 <= i < |all| && UrlOf(all[i]) == u && Admits(site, all[i]) && forall j :: 0 <= j < i ==> UrlOf(all[j]) != u;
      if i < |asks| {
        assert asks[i] == all[i] && forall j :: 0 <= j < i ==> asks[j] == all[j];
      } else {
        forall b | b in asks ensures UrlOf(b) != u {
          var j :| 0 <= j < |asks| && asks[j] == b;
          assert all[j] == b;
        }
      }
    }
  }

  /** Which URLs are ever queued, over any history: exactly those whose first ask passes its checks. */
  lemma {:induction false} AdmittedIffFirstAdmits(site: Site, asks: seq<Ask>, u: Url)
    ensures u in Named(FirstAdmitted(site, asks)) <==> FirstAdmits(site, asks, u)
  {
    if asks != [] {
      var before, a := asks[..|asks| - 1], asks[|asks| - 1];
      assert asks == before + [a];
      AdmittedIffFirstAdmits(site, before, u);
      FirstAdmitsAppend(site, before, a, u);
      var last := if UrlOf(a) !in AskedUrls(before) && Admits(site, a) then [Message(a)] else [];
      NamedAppend(FirstAdmitted(site, before), last);
      NamedOne(Message(a));
    }
  }

  // The crawler object

  class URLStorage {
    var urls: set<Url>

    constructor ()
      ensures urls == {}
    {
      urls := {};
    }

    method Seen(u: Url) returns (b: bool)
      ensures b <==> u in urls
    {
      b := u in urls;
    }

    method Add(u: Url)
      modifies this
      ensures urls == old(urls) + {u}
    {
      if u !in urls {
        urls := urls + {u};
      }
    }
  }

  class Crawler {
    const site: Site
    const storage: URLStorage
    const sitemapStorage: URLStorage
    const queue: Queue

    constructor (site: Site)
      ensures this.site == site && storage != sitemapStorage && fresh(storage) && fresh(sitemapStorage) && fresh(queue)
      ensures View() == Intake({}, EMPTY) && sitemapStorage.urls == {}
    {
      this.site := site;
      storage := new URLStorage();
      sitemapStorage := new URLStorage();
      queue := new Queue();
    }

    function View(): Intake
      reads storage, queue
    {
      Intake(storage.urls, queue.State())
    }

    method AddRequest(r: Request) returns (v: Verdict)
      modifies storage, queue
      ensures v == Answer(site, old(View()), Visit(r))
      ensures View() == Take(site, old(View()), Visit(r))
      ensures v.ErrVisited? <==> r.url in old(storage.urls)
      ensures v.ErrDomainNotAllowed? <==>
                r.url !in old(storage.urls) && !DomainIsAllowed(site, r.url.host) && !r.ignoreDomain
      ensures v.ErrBlockedByRobotstxt? <==>
                && r.url !in old(storage.urls) && (DomainIsAllowed(site, r.url.host) || r.ignoreDomain)
                && !site.options.ignoreRobotsTxt && site.blocked(r.url)
      ensures storage.urls == old(storage.urls) + {r.url}
      ensures queue.State() == if v.Queued? then Push(old(queue.State()), r) else old(queue.State())
    {
      var seen := storage.Seen(r.url);
      if seen {
        return ErrVisited;
      }
      storage.Add(r.url);
      if !DomainIsAllowed(site, r.url.host) && !r.ignoreDomain {
        return ErrDomainNotAllowed;
      }
      if !site.options.ignoreRobotsTxt && site.blocked(r.url) {
        return ErrBlockedByRobotstxt;
      }
      queue.OnPush(r);
      return Queued;
    }

    /** The function applied to each sitemap URL. */
    method QueueEntry(v: Url)
      modifies storage, queue
      ensures View() == Take(site, old(View()), Entry(v))
    {
      var seen := storage.Seen(v);
      if !seen {
        storage.Add(v);
        queue.OnPush(Request(v, false));
      }
    }

    /** Go iterates a map in any order; `order` records the one taken. */
    method QueueSitemapURLs() returns (ghost order: seq<Ask>)
      requires storage != sitemapStorage
      modifies storage, queue
      ensures sitemapStorage.urls == old(sitemapStorage.urls)
      ensures AskedUrls(order) == sitemapStorage.urls && forall a :: a in order ==> a.Entry?
      ensures View() == TakeAll(site, old(View()), order)
    {
      order := [];
      var todo := sitemapStorage.urls;
      while todo != {}
        invariant todo <= sitemapStorage.urls == old(sitemapStorage.urls)
        invariant AskedUrls(order) == sitemapStorage.urls - todo
        invariant forall a :: a in order ==> a.Entry?
        invariant View() == TakeAll(site, old(View()), order)
        decreases |todo|
      {
        var v :| v in todo;
        QueueEntry(v);
        todo := todo - {v};
        AskedUrlsAppend(order, Entry(v));
        TakeAllAppend(site, old(View()), order, Entry(v));
        order := order + [Entry(v)];
      }
    }
  }
}
