/** Which URLs of a fetched page the response callback asks the crawler for. */
module LinkRule {
  import opened Requests

  datatype Link = Link(url: Url, noFollow: bool)

  /** A URL found in a style sheet, resolved against the page, with its scheme. */
  datatype Target = Target(url: Url, scheme: string)

  /**
   What page parsing yields. `indirect` holds hreflang, iframe, redirect and
   canonical URLs; `resources` holds scripts, styles, audios, images and videos.
   `preloads` and `embeddedCss` are what its document would yield if queried,
   `bodyCss` what its body would yield if read as a style sheet; the content type
   decides which of them are looked at. A failed fetch yields empty lists.
   */
  datatype Page = Page(nofollow: bool, links: seq<Link>, externalLinks: seq<Link>, indirect: seq<Url>, resources: seq<Url>,
                       contentType: string, preloads: seq<Url>, embeddedCss: seq<Target>, bodyCss: seq<Target>)

  function Lower(c: char): char {
    if 'A' <= c <= 'Z' then c + 32 as char else c
  }

  function ToLower(s: string): string {
    seq(|s|, i requires 0 <= i < |s| => Lower(s[i]))
  }

  /** The content type starts with the given lower-case type, letter case aside. */
  predicate IsType(contentType: string, kind: string) {
    kind <= ToLower(contentType)
  }

  lemma ParametersAndCaseDoNotMatter(parameters: string)
    ensures IsType("Text/HTML" + parameters, "text/html") && !IsType("Text/HTML" + parameters, "text/css")
  {
    assert ToLower("Text/HTML" + parameters)[..9] == "text/html";
    assert ToLower("Text/HTML" + parameters)[5] == 'h' && "text/css"[5] == 'c';
  }

  predicate Followed(page: Page, l: Link, followNofollow: bool) {
    (!page.nofollow && !l.noFollow) || followNofollow
  }

  function FollowedLinks(page: Page, links: seq<Link>, followNofollow: bool): seq<Request> {
    if links == [] then []
    else
      var rest := FollowedLinks(page, links[..|links| - 1], followNofollow);
      var l := links[|links| - 1];
      if Followed(page, l, followNofollow) then rest + [Request(l.url, false)] else rest
  }

  function Each(urls: seq<Url>, ignoreDomain: bool): seq<Request> {
    seq(|urls|, i requires 0 <= i < |urls| => Request(urls[i], ignoreDomain))
  }

  predicate OverHttp(t: Target) {
    t.scheme == "https" || t.scheme == "http"
  }

  function CssRequests(targets: seq<Target>): seq<Request> {
    if targets == [] then []
    else
      var rest, t := CssRequests(targets[..|targets| - 1]), targets[|targets| - 1];
      if OverHttp(t) then rest + [Request(t.url, true)] else rest
  }

  function PreloadsOf(page: Page): seq<Url> {
    if IsType(page.contentType, "text/html") then page.preloads else []
  }

  function CssOf(page: Page): seq<Target> {
    (if IsType(page.contentType, "text/html") then page.embeddedCss else [])
    + if IsType(page.contentType, "text/css") then page.bodyCss else []
  }

  /** All requests of one page, in the order the callback makes them. */
  function PageRequests(page: Page, followNofollow: bool): seq<Request> {
    FollowedLinks(page, page.links + page.externalLinks, followNofollow)
    + Each(page.indirect, false) + Each(page.resources, true) + Each(PreloadsOf(page), true) + CssRequests(CssOf(page))
  }

  lemma {:induction false} FollowedLinksExact(page: Page, links: seq<Link>, followNofollow: bool, r: Request)
    ensures r in FollowedLinks(page, links, followNofollow)
            <==> && !r.ignoreDomain
                 && exists l :: l in links && l.url == r.url && (followNofollow || (!page.nofollow && !l.noFollow))
  {
    if links != [] {
      var before, last := links[..|links| - 1], links[|links| - 1];
      FollowedLinksExact(page, before, followNofollow, r);
      assert links == before + [last];
    }
  }

  lemma {:induction false} CssRequestsExact(targets: seq<Target>, r: Request)
    ensures r in CssRequests(targets)
            <==> r.ignoreDomain && exists t :: t in targets && t.url == r.url && (t.scheme == "http" || t.scheme == "https")
  {
    if targets != [] {
      var before, last := targets[..|targets| - 1], targets[|targets| - 1];
      CssRequestsExact(before, r);
      assert targets == before + [last];
    }
  }

  lemma EachExact(urls: seq<Url>, ignoreDomain: bool, r: Request)
    ensures r in Each(urls, ignoreDomain) <==> r.ignoreDomain == ignoreDomain && r.url in urls
  {
    if r.ignoreDomain == ignoreDomain && r.url in urls {
      var i :| 0 <= i < |urls| && urls[i] == r.url;
      assert Each(urls, ignoreDomain)[i] == r;
    }
  }

  /** The page names the URL in a way that exempts it from the host check. */
  ghost predicate NamesResource(page: Page, u: Url) {
    || u in page.resources
    || (IsType(page.contentType, "text/html") && (u in page.preloads || NamesTarget(page.embeddedCss, u)))
    || (IsType(page.contentType, "text/css") && NamesTarget(page.bodyCss, u))
  }

  ghost predicate NamesTarget(targets: seq<Target>, u: Url) {
    exists t :: t in targets && t.url == u && (t.scheme == "http" || t.scheme == "https")
  }

  /**
   A page requests a URL exactly when it names it as a followed link, an indirect
   URL, a resource, a preload of an HTML page, or an http(s) URL of the CSS its content type has.
   */
  lemma PageRequestsExact(page: Page, followNofollow: bool, r: Request)
    ensures r in PageRequests(page, followNofollow)
            <==> if r.ignoreDomain then NamesResource(page, r.url)
                 else || r.url in page.indirect
                      || exists l :: l in page.links + page.externalLinks && l.url == r.url
                                     && (followNofollow || (!page.nofollow && !l.noFollow))
  {
    FollowedLinksExact(page, page.links + page.externalLinks, followNofollow, r);
    EachExact(page.indirect, false, r);
    EachExact(page.resources, true, r);
    EachExact(PreloadsOf(page), true, r);
    CssRequestsExact(CssOf(page), r);
    assert NamesTarget(CssOf(page), r.url)
           <==> || (IsType(page.contentType, "text/html") && NamesTarget(page.embeddedCss, r.url))
                || (IsType(page.contentType, "text/css") && NamesTarget(page.bodyCss, r.url));
  }

  /** The callback's loops over a page's URL lists, collecting the requests it makes. */
  method CollectRequests(page: Page, followNofollow: bool) returns (made: seq<Request>)
    ensures made == PageRequests(page, followNofollow)
  {
    made := CollectLinks(page, followNofollow);
    var indirect := CollectEach(page.indirect, false);
    var resources := CollectEach(page.resources, true);
    made := made + indirect + resources;
    var cssURLs: seq<Target> := [];
    var preloads: seq<Request> := [];
    if IsType(page.contentType, "text/html") {
      preloads := CollectEach(page.preloads, true);
      cssURLs := cssURLs + page.embeddedCss;
    }
    if IsType(page.contentType, "text/css") {
      cssURLs := cssURLs + page.bodyCss;
    }
    made := made + preloads;
    ghost var before := made;
    for i := 0 to |cssURLs|
      invariant made == before + CssRequests(cssURLs[..i])
    {
      assert cssURLs[..i + 1][..i] == cssURLs[..i];
      if cssURLs[i].scheme == "https" || cssURLs[i].scheme == "http" {
        made := made + [Request(cssURLs[i].url, true)];
      }
    }
    assert cssURLs[..|cssURLs|] == cssURLs == CssOf(page);
  }

  method CollectLinks(page: Page, followNofollow: bool) returns (made: seq<Request>)
    ensures made == FollowedLinks(page, page.links + page.externalLinks, followNofollow)
  {
    made := [];
    var links := page.links + page.externalLinks;
    for i := 0 to |links|
      invariant made == FollowedLinks(page, links[..i], followNofollow)
    {
      assert links[..i + 1][..i] == links[..i];
      if (!page.nofollow && !links[i].noFollow) || followNofollow {
        made := made + [Request(links[i].url, false)];
      }
    }
    assert links[..|links|] == links;
  }

  method CollectEach(urls: seq<Url>, ignoreDomain: bool) returns (made: seq<Request>)
    ensures made == Each(urls, ignoreDomain)
  {
    made := [];
    for i := 0 to |urls|
      invariant made == Each(urls, ignoreDomain)[..i]
    {
      made := made + [Request(urls[i], ignoreDomain)];
    }
  }
}
