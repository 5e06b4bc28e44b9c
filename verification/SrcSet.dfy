/** The srcset scanner, and when it recovers the URLs of a candidate list. */
module SrcSet {
  import opened Requests
  import opened Strings

  function TrimSpace(s: string): string {
    if s != "" && IsSpace(s[0]) then TrimSpace(s[1..])
    else if s != "" && IsSpace(s[|s| - 1]) then TrimSpace(s[..|s| - 1])
    else s
  }

  predicate InCutset(c: char) {
    c == ' ' || c == ','
  }

  /** strings.Trim with the cutset " ,". */
  function Trim(s: string): string {
    if s != "" && InCutset(s[0]) then Trim(s[1..])
    else if s != "" && InCutset(s[|s| - 1]) then Trim(s[..|s| - 1])
    else s
  }

  /** The scanner's variables. */
  datatype Scan = Scan(urls: seq<string>, current: string, parsingURL: bool)

  const START := Scan([], "", true)

  function Feed(st: Scan, c: char): Scan {
    if st.parsingURL then
      if IsSpace(c) then if st.current != "" then st.(parsingURL := false) else st
      else if st.current != "" || c != ',' then st.(current := st.current + [c])
      else st
    else if c == ',' then Scan(st.urls + [TrimSpace(st.current)], "", true)
    else st
  }

  function FeedAll(st: Scan, s: string): Scan {
    if s == "" then st else Feed(FeedAll(st, s[..|s| - 1]), s[|s| - 1])
  }

  function Result(st: Scan): seq<string> {
    if st.current != "" then st.urls + [TrimSpace(st.current)] else st.urls
  }

  function Parse(srcset: string): seq<string> {
    Result(FeedAll(START, Trim(srcset)))
  }

  method ParseSrcSet(srcset: string) returns (imageURLs: seq<string>)
    ensures imageURLs == Parse(srcset)
  {
    imageURLs := [];
    var trimmed := Trim(srcset);
    if trimmed == "" {
      return;
    }
    var parsingURL := true;
    var currentURL := "";
    for i := 0 to |trimmed|
      invariant Scan(imageURLs, currentURL, parsingURL) == FeedAll(START, trimmed[..i])
    {
      assert trimmed[..i + 1][..i] == trimmed[..i];
      var c := trimmed[i];
      if parsingURL {
        if IsSpace(c) {
          if |currentURL| > 0 {
            parsingURL := false;
          }
        } else if |currentURL| > 0 || c != ',' {
          currentURL := currentURL + [c];
        }
      } else if c == ',' {
        parsingURL := true;
        imageURLs := imageURLs + [TrimSpace(currentURL)];
        currentURL := "";
      }
    }
    assert trimmed[..|trimmed|] == trimmed;
    if |currentURL| > 0 {
      imageURLs := imageURLs + [TrimSpace(currentURL)];
    }
  }

  // Candidate lists, as section 4.8.4.2.1 of the HTML Living Standard writes them

  datatype Candidate = Candidate(url: string, descriptor: Option<string>)

  /** A non-empty URL without white space that neither starts nor ends with a comma; commas inside are allowed. */
  predicate ValidUrl(u: string) {
    u != "" && (forall c :: c in u ==> !IsSpace(c)) && u[0] != ',' && u[|u| - 1] != ','
  }

  /** A descriptor such as `2x` or `640w 480h`. */
  predicate ValidDescriptor(d: string) {
    d != "" && ',' !in d && !IsSpace(d[0]) && !IsSpace(d[|d| - 1])
  }

  predicate Valid(cs: seq<Candidate>) {
    forall i :: 0 <= i < |cs| ==>
      ValidUrl(cs[i].url) && (cs[i].descriptor.Some? ==> ValidDescriptor(cs[i].descriptor.value))
  }

  function Text(c: Candidate): string {
    c.url + match c.descriptor case None => "" case Some(d) => " " + d
  }

  /** Candidates are separated by a comma and a gap of white space and further commas. */
  predicate Gap(gap: string) {
    forall c :: c in gap ==> IsSpace(c) || c == ','
  }

  function Render(cs: seq<Candidate>, gap: string): string {
    if cs == [] then ""
    else if |cs| == 1 then Text(cs[0])
    else Text(cs[0]) + ("," + gap) + Render(cs[1..], gap)
  }

  function Urls(cs: seq<Candidate>): seq<string> {
    if cs == [] then [] else [cs[0].url] + Urls(cs[1..])
  }

  predicate DescribedButLast(cs: seq<Candidate>) {
    forall i :: 0 <= i < |cs| - 1 ==> cs[i].descriptor.Some?
  }

  lemma {:induction false} FeedAppend(st: Scan, a: string, b: string)
    ensures FeedAll(st, a + b) == FeedAll(FeedAll(st, a), b)
  {
    if b == "" {
      assert a + b == a;
    } else {
      assert (a + b)[..|a + b| - 1] == a + b[..|b| - 1];
      FeedAppend(st, a, b[..|b| - 1]);
    }
  }

  lemma FeedOne(st: Scan, c: char)
    ensures FeedAll(st, [c]) == Feed(st, c)
  {
    assert [c][..0] == "";
  }

  lemma {:induction false} FeedUrl(urls: seq<string>, u: string)
    requires (forall c :: c in u ==> !IsSpace(c)) && (u != "" ==> u[0] != ',')
    ensures FeedAll(Scan(urls, "", true), u) == Scan(urls, u, true)
  {
    if u != "" {
      var front := u[..|u| - 1];
      FeedUrl(urls, front);
      assert u == front + [u[|u| - 1]];
    }
  }

  lemma {:induction false} FeedDescriptor(st: Scan, d: string)
    requires !st.parsingURL && ',' !in d
    ensures FeedAll(st, d) == st
  {
    if d != "" {
      FeedDescriptor(st, d[..|d| - 1]);
    }
  }

  /** After a candidate's text the scanner holds its URL, and has left URL mode if a descriptor was there. */
  lemma FeedText(urls: seq<string>, c: Candidate)
    requires Valid([c])
    ensures FeedAll(Scan(urls, "", true), Text(c)) == Scan(urls, c.url, c.descriptor.None?)
  {
    assert ValidUrl([c][0].url);
    FeedUrl(urls, c.url);
    match c.descriptor
    case None =>
      assert c.url + "" == c.url;
    case Some(d) =>
      FeedAppend(Scan(urls, "", true), c.url, " " + d);
      FeedAppend(Scan(urls, c.url, true), " ", d);
      FeedOne(Scan(urls, c.url, true), ' ');
      FeedDescriptor(Scan(urls, c.url, false), d);
  }

  /** Before a URL starts, white space and commas are skipped. */
  lemma {:induction false} FeedGap(urls: seq<string>, gap: string)
    requires Gap(gap)
    ensures FeedAll(Scan(urls, "", true), gap) == Scan(urls, "", true)
  {
    if gap != "" {
      FeedGap(urls, gap[..|gap| - 1]);
    }
  }

  /** After a described URL a separator closes it, whatever its gap. */
  lemma FeedSeparator(urls: seq<string>, c: Candidate, gap: string)
    requires Valid([c]) && c.descriptor.Some? && Gap(gap)
    ensures FeedAll(Scan(urls, "", true), Text(c) + ("," + gap)) == Scan(urls + [c.url], "", true)
  {
    var u := c.url;
    assert ValidUrl([c][0].url);
    assert u[0] in u && u[|u| - 1] in u && TrimSpace(u) == u;
    FeedText(urls, c);
    FeedAppend(Scan(urls, "", true), Text(c), "," + gap);
    FeedAppend(Scan(urls, u, false), ",", gap);
    FeedOne(Scan(urls, u, false), ',');
    FeedGap(urls + [u], gap);
  }

  /** To an undescribed URL the comma sticks. */
  lemma CommaSticks(urls: seq<string>, c: Candidate)
    requires Valid([c]) && c.descriptor.None?
    ensures FeedAll(Scan(urls, "", true), Text(c) + ",") == Scan(urls, c.url + ",", true)
  {
    assert ValidUrl([c][0].url);
    FeedText(urls, c);
    FeedAppend(Scan(urls, "", true), Text(c), ",");
    FeedOne(Scan(urls, c.url, true), ',');
  }

  lemma Last(urls: seq<string>, cs: seq<Candidate>, gap: string)
    requires Valid(cs) && |cs| == 1
    ensures Result(FeedAll(Scan(urls, "", true), Render(cs, gap))) == urls + Urls(cs)
  {
    var u := cs[0].url;
    FeedText(urls, cs[0]);
    assert ValidUrl(u) && u[0] in u && u[|u| - 1] in u;
    assert TrimSpace(u) == u;
    assert Urls(cs) == [u];
  }

  lemma FirstUrl(urls: seq<string>, cs: seq<Candidate>)
    requires Valid(cs) && |cs| > 1
    ensures urls + Urls(cs) == (urls + [cs[0].url]) + Urls(cs[1..])
    ensures Valid([cs[0]]) && Valid(cs[1..]) && ValidUrl(cs[0].url)
  {
    assert Urls(cs) == [cs[0].url] + Urls(cs[1..]);
  }

  lemma {:induction false} DescribedListIsRead(urls: seq<string>, cs: seq<Candidate>, gap: string)
    requires Valid(cs) && DescribedButLast(cs) && Gap(gap)
    ensures Result(FeedAll(Scan(urls, "", true), Render(cs, gap))) == urls + Urls(cs)
    decreases |cs|
  {
    if cs == [] {
      assert urls + [] == urls;
    } else if |cs| == 1 {
      Last(urls, cs, gap);
    } else {
      FirstUrl(urls, cs);
      FeedSeparator(urls, cs[0], gap);
      FeedAppend(Scan(urls, "", true), Text(cs[0]) + ("," + gap), Render(cs[1..], gap));
      DescribedListIsRead(urls + [cs[0].url], cs[1..], gap);
    }
  }

  predicate NoSpace(s: string) {
    forall c :: c in s ==> !IsSpace(c)
  }

  /** The URL at position `n` starts with `x`: already collected, or still being read or skipped past. */
  predicate Settled(st: Scan, n: nat, x: string) {
    || (|st.urls| > n && x <= st.urls[n])
    || (|st.urls| == n && x <= st.current && NoSpace(st.current))
  }

  lemma NoSpaceTrim(s: string)
    requires NoSpace(s)
    ensures TrimSpace(s) == s
  {
    if s != "" {
      assert s[0] in s && s[|s| - 1] in s;
    }
  }

  lemma FeedSettled(st: Scan, c: char, n: nat, x: string)
    requires Settled(st, n, x) && x != ""
    ensures Settled(Feed(st, c), n, x)
  {
    if |st.urls| == n {
      NoSpaceTrim(st.current);
    }
  }

  lemma {:induction false} SettledStays(st: Scan, s: string, n: nat, x: string)
    requires Settled(st, n, x) && x != ""
    ensures Settled(FeedAll(st, s), n, x)
  {
    if s != "" {
      SettledStays(st, s[..|s| - 1], n, x);
      FeedSettled(FeedAll(st, s[..|s| - 1]), s[|s| - 1], n, x);
    }
  }

  lemma StuckUrl(urls: seq<string>, u: string, rest: string)
    requires u != "" && NoSpace(u)
    ensures var found := Result(FeedAll(Scan(urls, u + ",", true), rest));
            |found| > |urls| && u + "," <= found[|urls|]
  {
    assert NoSpace(u + ",");
    SettledStays(Scan(urls, u + ",", true), rest, |urls|, u + ",");
    var st := FeedAll(Scan(urls, u + ",", true), rest);
    if |st.urls| == |urls| {
      NoSpaceTrim(st.current);
    }
  }

  /** The rest of the text cannot undo the comma. */
  lemma {:induction false} UndescribedSticks(urls: seq<string>, cs: seq<Candidate>, gap: string)
    requires Valid(cs) && !DescribedButLast(cs) && Gap(gap)
    ensures Result(FeedAll(Scan(urls, "", true), Render(cs, gap))) != urls + Urls(cs)
    decreases |cs|
  {
    var c, rest := cs[0], Render(cs[1..], gap);
    FirstUrl(urls, cs);
    if c.descriptor.Some? {
      FeedSeparator(urls, c, gap);
      FeedAppend(Scan(urls, "", true), Text(c) + ("," + gap), rest);
      UndescribedSticks(urls + [c.url], cs[1..], gap);
    } else {
      assert Text(c) + ("," + gap) + rest == (Text(c) + ",") + (gap + rest);
      FeedAppend(Scan(urls, "", true), Text(c) + ",", gap + rest);
      CommaSticks(urls, c);
      StuckUrl(urls, c.url, gap + rest);
      assert (urls + Urls(cs))[|urls|] == c.url;
      assert |c.url + ","| > |c.url|;
    }
  }

  lemma {:induction false} RenderedEnds(cs: seq<Candidate>, gap: string)
    requires Valid(cs) && cs != []
    ensures var r := Render(cs, gap);
            r != "" && !InCutset(r[0]) && !InCutset(r[|r| - 1])
  {
    var c := cs[0];
    assert ValidUrl(c.url) && c.url[0] in c.url && c.url[|c.url| - 1] in c.url;
    assert Text(c)[0] == c.url[0];
    if |cs| > 1 {
      RenderedEnds(cs[1..], gap);
      var r := Render(cs[1..], gap);
      assert (Text(c) + ("," + gap) + r)[0] == Text(c)[0];
    } else if c.descriptor.Some? {
      var d := c.descriptor.value;
      assert d[|d| - 1] in d;
    }
  }

  predicate Padding(pad: string) {
    forall c :: c in pad ==> c == ' ' || c == ','
  }

  lemma PaddingPart(pad: string, i: nat, j: nat)
    requires Padding(pad) && i <= j <= |pad|
    ensures Padding(pad[i..j])
  {
    forall c | c in pad[i..j] ensures c in pad {
      var k :| 0 <= k < |pad[i..j]| && pad[i..j][k] == c;
      assert pad[i + k] == c;
    }
  }

  /** Spaces and commas around the list are trimmed off. */
  lemma {:induction false} TrimPadding(left: string, text: string, right: string)
    requires Padding(left) && Padding(right)
    requires text != "" ==> !InCutset(text[0]) && !InCutset(text[|text| - 1])
    ensures Trim(left + text + right) == text
    decreases |left| + |right|
  {
    var all := left + text + right;
    if left != "" {
      PaddingPart(left, 1, |left|);
      assert left[1..] == left[1..|left|];
      assert left[0] in left && all[0] == left[0] && all[1..] == left[1..] + text + right;
      TrimPadding(left[1..], text, right);
    } else if right != "" {
      TrimRight(text, right);
    } else {
      assert all == text;
    }
  }

  lemma {:induction false} TrimRight(text: string, right: string)
    requires Padding(right)
    requires text != "" ==> !InCutset(text[0]) && !InCutset(text[|text| - 1])
    ensures Trim("" + text + right) == text
  {
    var all := text + right;
    assert "" + text + right == all;
    if right == "" {
      assert all == text;
    } else if text == "" {
      PaddingPart(right, 1, |right|);
      assert right[1..] == right[1..|right|];
      assert all == right && right[0] in right;
      assert "" + text + right[1..] == all[1..];
      TrimRight(text, right[1..]);
    } else {
      PaddingPart(right, 0, |right| - 1);
      assert right[..|right| - 1] == right[0..|right| - 1];
      assert right[|right| - 1] in right && all[|all| - 1] == right[|right| - 1] && all[0] == text[0];
      assert "" + text + right[..|right| - 1] == all[..|all| - 1];
      TrimRight(text, right[..|right| - 1]);
    }
  }

  /**
   Whatever the gaps and the padding, the scanner recovers the URLs of a
   candidate list, commas inside URLs included, if and only if every candidate
   but the last has a descriptor. Otherwise the separating comma sticks to the
   first undescribed URL.
   */
  lemma RoundTripIffDescribed(cs: seq<Candidate>, gap: string, left: string, right: string)
    requires Valid(cs) && Gap(gap) && Padding(left) && Padding(right)
    ensures Parse(left + Render(cs, gap) + right) == Urls(cs) <==> DescribedButLast(cs)
  {
    if cs != [] {
      RenderedEnds(cs, gap);
    }
    TrimPadding(left, Render(cs, gap), right);
    assert [] + Urls(cs) == Urls(cs);
    if DescribedButLast(cs) {
      DescribedListIsRead([], cs, gap);
    } else {
      UndescribedSticks([], cs, gap);
    }
  }

  lemma PlainText()
    ensures Render([Candidate("a", None), Candidate("b", None)], " ") == "a, b"
  {
    var first, second := Candidate("a", None), Candidate("b", None);
    assert [first, second][1..] == [second];
    assert Render([first, second], " ") == Text(first) + ("," + " ") + Text(second) == "a, b";
  }

  /** Two plain URLs separated by a comma come back as one URL, with the comma. */
  lemma PlainListIsMisread()
    ensures Render([Candidate("a", None), Candidate("b", None)], " ") == "a, b"
    ensures Parse("a, b") == ["a,"]
  {
    PlainText();
    assert Trim("a, b") == "a, b";
    FeedUrl([], "a,");
    FeedAppend(START, "a,", " b");
    FeedAppend(Scan([], "a,", true), " ", "b");
    FeedOne(Scan([], "a,", true), ' ');
    FeedDescriptor(Scan([], "a,", false), "b");
    assert "a," + " b" == "a, b" && " " + "b" == " b";
    NoSpaceTrim("a,");
    assert Result(Scan([], "a,", false)) == ["a,"];
  }
}
