/**
 The sitemap loader: one goroutine per sitemap, a shared counter, and a limit
 that a parser learns of only after its own callback ran.
 */
module SitemapCap {
  import opened Arith

  /** Where one parser is: about to read an entry, between its callback and the lock, or finished. */
  datatype Pc = Reading | Called | Capped | Done

  datatype Parser = Parser(entries: seq<string>, position: nat, pc: Pc)

  /** `delivered` lists the callback's arguments, in order; `c` is the shared counter. */
  datatype State = State(parsers: seq<Parser>, delivered: seq<string>, c: nat)

  /** Spawn starts a parser on the entries its sitemap holds; none of it if the fetch failed. */
  datatype Step = Spawn(entries: seq<string>) | Callback(k: nat) | Count(k: nat) | Finish(k: nat)

  const IDLE := State([], [], 0)

  predicate Enabled(s: State, step: Step) {
    match step
    case Spawn(_) => true
    case Callback(k) => k < |s.parsers| && s.parsers[k].pc.Reading? && s.parsers[k].position < |s.parsers[k].entries|
    case Count(k) => k < |s.parsers| && s.parsers[k].pc.Called?
    case Finish(k) => k < |s.parsers| && s.parsers[k].pc.Reading? && s.parsers[k].position >= |s.parsers[k].entries|
  }

  function Apply(limit: int, s: State, step: Step): State
    requires Enabled(s, step)
  {
    match step
    case Spawn(entries) => s.(parsers := s.parsers + [Parser(entries, 0, Reading)])
    case Callback(k) =>
      var p := s.parsers[k];
      s.(parsers := s.parsers[k := p.(pc := Called, position := p.position + 1)],
         delivered := s.delivered + [p.entries[p.position]])
    case Count(k) =>
      s.(parsers := s.parsers[k := s.parsers[k].(pc := if s.c + 1 >= limit then Capped else Reading)], c := s.c + 1)
    case Finish(k) => s.(parsers := s.parsers[k := s.parsers[k].(pc := Done)])
  }

  predicate Feasible(limit: int, steps: seq<Step>)
    decreases |steps|, 0
  {
    steps != [] ==>
      var before := steps[..|steps| - 1];
      Feasible(limit, before) && Enabled(After(limit, before), steps[|steps| - 1])
  }

  function After(limit: int, steps: seq<Step>): State
    requires Feasible(limit, steps)
    decreases |steps|, 1
  {
    if steps == [] then IDLE else Apply(limit, After(limit, steps[..|steps| - 1]), steps[|steps| - 1])
  }

  /** How many parsers are at `pc`. */
  function CountAt(parsers: seq<Parser>, pc: Pc): nat {
    if parsers == [] then 0
    else CountAt(parsers[..|parsers| - 1], pc) + if parsers[|parsers| - 1].pc == pc then 1 else 0
  }

  function One(p: Parser, pc: Pc): nat {
    if p.pc == pc then 1 else 0
  }

  lemma {:induction false} CountUpdate(parsers: seq<Parser>, k: nat, p: Parser, pc: Pc)
    requires k < |parsers|
    ensures CountAt(parsers[k := p], pc) + One(parsers[k], pc) == CountAt(parsers, pc) + One(p, pc)
  {
    var n := |parsers| - 1;
    if k < n {
      assert parsers[k := p][..n] == parsers[..n][k := p];
      CountUpdate(parsers[..n], k, p, pc);
    } else {
      assert parsers[k := p][..n] == parsers[..n];
    }
  }

  lemma {:induction false} CountsWithin(parsers: seq<Parser>)
    ensures CountAt(parsers, Called) + CountAt(parsers, Capped) <= |parsers|
  {
    if parsers != [] {
      CountsWithin(parsers[..|parsers| - 1]);
    }
  }

  /** Entries read so far, over all parsers. */
  function Read(parsers: seq<Parser>): int {
    if parsers == [] then 0 else Read(parsers[..|parsers| - 1]) + parsers[|parsers| - 1].position
  }

  function Total(parsers: seq<Parser>): nat {
    if parsers == [] then 0 else Total(parsers[..|parsers| - 1]) + |parsers[|parsers| - 1].entries|
  }

  lemma {:induction false} ReadUpdate(parsers: seq<Parser>, k: nat, p: Parser)
    requires k < |parsers| && p.entries == parsers[k].entries
    ensures Read(parsers[k := p]) == Read(parsers) + p.position - parsers[k].position
    ensures Total(parsers[k := p]) == Total(parsers)
  {
    var n := |parsers| - 1;
    if k < n {
      assert parsers[k := p][..n] == parsers[..n][k := p];
      ReadUpdate(parsers[..n], k, p);
    } else {
      assert parsers[k := p][..n] == parsers[..n];
    }
  }

  // Which entries: per text, so that the interleaving does not matter

  function Handed(p: Parser): seq<string> {
    if p.position <= |p.entries| then p.entries[..p.position] else p.entries
  }

  function Sum(parsers: seq<Parser>, weight: Parser -> nat): nat {
    if parsers == [] then 0 else Sum(parsers[..|parsers| - 1], weight) + weight(parsers[|parsers| - 1])
  }

  lemma {:induction false} SumUpdate(parsers: seq<Parser>, k: nat, p: Parser, weight: Parser -> nat)
    requires k < |parsers|
    ensures Sum(parsers[k := p], weight) + weight(parsers[k]) == Sum(parsers, weight) + weight(p)
  {
    var n := |parsers| - 1;
    if k < n {
      assert parsers[k := p][..n] == parsers[..n][k := p];
      SumUpdate(parsers[..n], k, p, weight);
    } else {
      assert parsers[k := p][..n] == parsers[..n];
    }
  }

  /** How often the text is in the list. */
  function Times(texts: seq<string>, u: string): nat {
    if texts == [] then 0 else Times(texts[..|texts| - 1], u) + if texts[|texts| - 1] == u then 1 else 0
  }

  lemma {:induction false} TimesIsMultiplicity(texts: seq<string>, u: string)
    ensures Times(texts, u) == multiset(texts)[u]
  {
    if texts != [] {
      TimesIsMultiplicity(texts[..|texts| - 1], u);
      assert texts == texts[..|texts| - 1] + [texts[|texts| - 1]];
    }
  }

  lemma TimesAppend(texts: seq<string>, text: string, u: string)
    ensures Times(texts + [text], u) == Times(texts, u) + if text == u then 1 else 0
  {
    assert (texts + [text])[..|texts|] == texts;
  }

  function HandedBy(u: string): Parser -> nat {
    (p: Parser) => Times(Handed(p), u)
  }

  /** How often the text is among the entries the parsers have read so far. */
  function HandedOver(parsers: seq<Parser>, u: string): nat {
    Sum(parsers, HandedBy(u))
  }

  /** How often the text is in the sitemaps. */
  function Listed(parsers: seq<Parser>, u: string): nat {
    Sum(parsers, (p: Parser) => Times(p.entries, u))
  }

  lemma HandedNext(p: Parser, pc: Pc, u: string)
    requires p.position < |p.entries|
    ensures Times(Handed(p.(pc := pc, position := p.position + 1)), u)
            == Times(Handed(p), u) + if p.entries[p.position] == u then 1 else 0
  {
    assert p.entries[..p.position + 1] == p.entries[..p.position] + [p.entries[p.position]];
    TimesAppend(p.entries[..p.position], p.entries[p.position], u);
  }

  lemma HandedSpawn(parsers: seq<Parser>, entries: seq<string>, u: string)
    ensures HandedOver(parsers + [Parser(entries, 0, Reading)], u) == HandedOver(parsers, u)
  {
    assert (parsers + [Parser(entries, 0, Reading)])[..|parsers|] == parsers;
    assert Handed(Parser(entries, 0, Reading)) == [];
  }

  lemma HandedCallback(s: State, s': State, k: nat, u: string)
    requires Enabled(s, Callback(k)) && Times(s.delivered, u) == HandedOver(s.parsers, u)
    requires s'.delivered == s.delivered + [s.parsers[k].entries[s.parsers[k].position]]
    requires s'.parsers == s.parsers[k := s.parsers[k].(pc := Called, position := s.parsers[k].position + 1)]
    ensures Times(s'.delivered, u) == HandedOver(s'.parsers, u)
  {
    SumUpdate(s.parsers, k, s'.parsers[k], HandedBy(u));
    HandedNext(s.parsers[k], Called, u);
    TimesAppend(s.delivered, s.parsers[k].entries[s.parsers[k].position], u);
  }

  lemma HandedAtRest(parsers: seq<Parser>, k: nat, pc: Pc, u: string)
    requires k < |parsers|
    ensures HandedOver(parsers[k := parsers[k].(pc := pc)], u) == HandedOver(parsers, u)
  {
    SumUpdate(parsers, k, parsers[k].(pc := pc), HandedBy(u));
    assert Handed(parsers[k].(pc := pc)) == Handed(parsers[k]);
  }

  lemma StepHandsOver(limit: int, s: State, step: Step, u: string)
    requires Enabled(s, step) && Times(s.delivered, u) == HandedOver(s.parsers, u)
    ensures var s' := Apply(limit, s, step);
            Times(s'.delivered, u) == HandedOver(s'.parsers, u)
  {
    match step
    case Spawn(entries) => HandedSpawn(s.parsers, entries, u);
    case Callback(k) => HandedCallback(s, Apply(limit, s, step), k, u);
    case Count(k) => HandedAtRest(s.parsers, k, if s.c + 1 >= limit then Capped else Reading, u);
    case Finish(k) => HandedAtRest(s.parsers, k, Done, u);
  }

  /** In every run the callback has received exactly the entries that the parsers have read, each as often as it was read. */
  lemma {:induction false} DeliveredWasRead(limit: int, steps: seq<Step>, u: string)
    requires Feasible(limit, steps)
    ensures multiset(After(limit, steps).delivered)[u] == HandedOver(After(limit, steps).parsers, u)
  {
    if steps != [] {
      DeliveredWasRead(limit, steps[..|steps| - 1], u);
      TimesIsMultiplicity(After(limit, steps[..|steps| - 1]).delivered, u);
      StepHandsOver(limit, After(limit, steps[..|steps| - 1]), steps[|steps| - 1], u);
      TimesIsMultiplicity(After(limit, steps).delivered, u);
    }
  }

  /**
   Every callback was counted or its parser is about to count it; every count at
   or past the limit stopped a parser; a parser stopped only at the limit.
   */
  predicate CapInv(limit: int, s: State) {
    && |s.delivered| == s.c + CountAt(s.parsers, Called)
    && s.c <= Max(limit, 1) - 1 + CountAt(s.parsers, Capped)
    && (CountAt(s.parsers, Capped) > 0 ==> s.c >= limit)
    && |s.delivered| == Read(s.parsers)
    && forall k :: 0 <= k < |s.parsers| ==>
         && s.parsers[k].position <= |s.parsers[k].entries|
         && (s.parsers[k].pc.Done? ==> s.parsers[k].position == |s.parsers[k].entries|)
  }

  lemma StepKeepsCap(limit: int, s: State, step: Step)
    requires CapInv(limit, s) && Enabled(s, step)
    ensures CapInv(limit, Apply(limit, s, step))
  {
    var s' := Apply(limit, s, step);
    if step.Spawn? {
      assert s'.parsers[..|s.parsers|] == s.parsers;
    } else {
      var p := s'.parsers[step.k];
      CountUpdate(s.parsers, step.k, p, Called);
      CountUpdate(s.parsers, step.k, p, Capped);
      ReadUpdate(s.parsers, step.k, p);
    }
  }

  lemma {:induction false} EveryStateIsCapped(limit: int, steps: seq<Step>)
    requires Feasible(limit, steps)
    ensures CapInv(limit, After(limit, steps))
  {
    if steps != [] {
      EveryStateIsCapped(limit, steps[..|steps| - 1]);
      StepKeepsCap(limit, After(limit, steps[..|steps| - 1]), steps[|steps| - 1]);
    }
  }

  // Main results

  /** In every interleaving the callback runs at most limit - 1 + N times, for N parsers. */
  lemma CallbacksAreCapped(limit: int, steps: seq<Step>)
    requires Feasible(limit, steps)
    ensures |After(limit, steps).delivered| <= Max(limit, 1) - 1 + |After(limit, steps).parsers|
  {
    EveryStateIsCapped(limit, steps);
    CountsWithin(After(limit, steps).parsers);
  }

  predicate AllStopped(s: State) {
    forall k :: 0 <= k < |s.parsers| ==> s.parsers[k].pc.Capped? || s.parsers[k].pc.Done?
  }

  /**
   Nothing is cut short early: when all parsers have stopped, either the limit
   was reached, or every entry of every sitemap was delivered as often as it is listed.
   */
  lemma NothingIsLostBelowTheLimit(limit: int, steps: seq<Step>, u: string)
    requires Feasible(limit, steps) && AllStopped(After(limit, steps))
    ensures var s := After(limit, steps);
            && |s.delivered| == s.c
            && (s.c >= limit || (|s.delivered| == Total(s.parsers) && multiset(s.delivered)[u] == Listed(s.parsers, u)))
  {
    EveryStateIsCapped(limit, steps);
    StoppedCounts(After(limit, steps).parsers, u);
    DeliveredWasRead(limit, steps, u);
  }

  /** No parser gets stuck: while one has not stopped, some parser can go on. */
  lemma ParsersMoveOn(s: State) returns (step: Step)
    requires !AllStopped(s)
    ensures Enabled(s, step) && !step.Spawn?
  {
    var k :| 0 <= k < |s.parsers| && !s.parsers[k].pc.Capped? && !s.parsers[k].pc.Done?;
    var p := s.parsers[k];
    step := if p.pc.Called? then Count(k) else if p.position < |p.entries| then Callback(k) else Finish(k);
  }

  lemma {:induction false} StoppedCounts(parsers: seq<Parser>, u: string)
    requires forall k :: 0 <= k < |parsers| ==> parsers[k].pc.Capped? || parsers[k].pc.Done?
    requires forall k :: 0 <= k < |parsers| && parsers[k].pc.Done? ==> parsers[k].position == |parsers[k].entries|
    ensures CountAt(parsers, Called) == 0
    ensures CountAt(parsers, Capped) == 0 ==> Read(parsers) == Total(parsers) && HandedOver(parsers, u) == Listed(parsers, u)
  {
    if parsers != [] {
      StoppedCounts(parsers[..|parsers| - 1], u);
      var last := parsers[|parsers| - 1];
      assert last.entries[..|last.entries|] == last.entries;
    }
  }

  // The bound is tight.

  /** The first parser calls back and counts `m` times. */
  function Alone(m: nat, entries: seq<string>): seq<Step> {
    if m == 0 then [Spawn(entries)] else Alone(m - 1, entries) + [Callback(0), Count(0)]
  }

  /** Then `n` parsers, the first one included, call back before any of them counts. */
  function Crowd(m: nat, n: nat, entries: seq<string>): seq<Step> {
    if n == 0 then Alone(m, entries)
    else if n == 1 then Alone(m, entries) + [Callback(0)]
    else Crowd(m, n - 1, entries) + [Spawn(entries), Callback(n - 1)]
  }

  lemma StepOn(limit: int, steps: seq<Step>, step: Step)
    requires Feasible(limit, steps) && Enabled(After(limit, steps), step)
    ensures Feasible(limit, steps + [step])
    ensures After(limit, steps + [step]) == Apply(limit, After(limit, steps), step)
  {
    assert (steps + [step])[..|steps|] == steps;
  }

  lemma TwoSteps(limit: int, steps: seq<Step>, first: Step, second: Step)
    requires Feasible(limit, steps) && Enabled(After(limit, steps), first)
    requires Enabled(Apply(limit, After(limit, steps), first), second)
    ensures Feasible(limit, steps + [first, second])
    ensures After(limit, steps + [first, second]) == Apply(limit, Apply(limit, After(limit, steps), first), second)
  {
    StepOn(limit, steps, first);
    StepOn(limit, steps + [first], second);
    assert steps + [first, second] == (steps + [first]) + [second];
  }

  /** One parser that has read and counted `m` entries. */
  predicate AloneAt(s: State, m: nat, entries: seq<string>) {
    s.parsers == [Parser(entries, m, Reading)] && |s.delivered| == m && s.c == m
  }

  lemma {:induction false} AloneRuns(limit: int, m: nat, entries: seq<string>)
    requires m < limit && m <= |entries|
    ensures Feasible(limit, Alone(m, entries)) && AloneAt(After(limit, Alone(m, entries)), m, entries)
  {
    if m == 0 {
      StepOn(limit, [], Spawn(entries));
      assert Alone(0, entries) == [] + [Spawn(entries)];
    } else {
      AloneRuns(limit, m - 1, entries);
      TwoSteps(limit, Alone(m - 1, entries), Callback(0), Count(0));
    }
  }

  /** For every limit and every N there is a run with exactly limit - 1 + N callbacks: no smaller bound holds. */
  lemma {:induction false} BoundIsReached(limit: nat, n: nat, entries: seq<string>)
    requires limit >= 1 && n >= 1 && |entries| >= limit
    ensures Feasible(limit, Crowd(limit - 1, n, entries))
    ensures var s := After(limit, Crowd(limit - 1, n, entries));
            |s.parsers| == n && |s.delivered| == limit - 1 + n
  {
    if n == 1 {
      AloneRuns(limit, limit - 1, entries);
      StepOn(limit, Alone(limit - 1, entries), Callback(0));
    } else {
      BoundIsReached(limit, n - 1, entries);
      var before := Crowd(limit - 1, n - 1, entries);
      TwoSteps(limit, before, Spawn(entries), Callback(n - 1));
    }
  }
}
