/** The fixed-window request limiter of the API. */
module RateLimit {
  import opened Arith
  import opened WindowBlocks

  datatype RateClass = RateNone | RateRead | RateCrawl | RateExport

  function ClassName(c: RateClass): string {
    match c case RateNone => "" case RateRead => "read" case RateCrawl => "crawl" case RateExport => "export"
  }

  function MapKey(c: RateClass, key: string): string {
    ClassName(c) + "\0" + key
  }

  /** Distinct (class, key) pairs never share a counter, whatever bytes the key holds. */
  lemma MapKeyInjective(c: RateClass, k: string, c': RateClass, k': string)
    ensures MapKey(c, k) == MapKey(c', k') <==> c == c' && k == k'
  {
    if MapKey(c, k) == MapKey(c', k') {
      var n, n' := |ClassName(c)|, |ClassName(c')|;
      assert MapKey(c, k)[n] == '\0' == MapKey(c', k')[n'];
      assert n == n';
      assert MapKey(c, k)[0..n] == ClassName(c) && MapKey(c', k')[0..n] == ClassName(c');
      assert n == 0 || MapKey(c, k)[0] == ClassName(c)[0];
      assert MapKey(c, k)[n + 1..] == k && MapKey(c', k')[n + 1..] == k';
    }
  }

  /** Go's integer division, which truncates towards zero. */
  function TruncDiv(a: int, b: int): int
    requires b > 0
  {
    if a >= 0 then a / b else -((-a) / b)
  }

  /** The number of the aligned window that holds the instant `now`, in nanoseconds since the epoch. */
  function WindowOf(now: int, window: int): int
    requires window > 0
  {
    TruncDiv(now, window)
  }

  /** From the epoch on, a window holds the instants from its start up to the next one's. */
  lemma WindowHolds(now: int, window: int)
    requires window > 0 && now >= 0
    ensures WindowOf(now, window) * window <= now < (WindowOf(now, window) + 1) * window
  {
    DivBounds(now, window);
  }

  lemma WindowMonotone(a: int, b: int, window: int)
    requires window > 0 && a <= b
    ensures WindowOf(a, window) <= WindowOf(b, window)
  {
    if a >= 0 {
      DivMonotone(a, b, window);
    } else if b < 0 {
      DivMonotone(-b, -a, window);
    } else {
      DivMonotone(0, -a, window);
      DivMonotone(0, b, window);
      DivSmall(0, window);
    }
  }

  /** An interval of one window length meets at most two windows. */
  lemma WindowSpan(t: int, now: int, window: int)
    requires window > 0 && t <= now < t + window
    ensures WindowOf(t, window) <= WindowOf(now, window) <= WindowOf(t, window) + 1
  {
    WindowMonotone(t, now, window);
    WindowMonotone(now, t + window, window);
    NextWindow(t, window);
  }

  lemma NextWindow(t: int, window: int)
    requires window > 0
    ensures WindowOf(t + window, window) <= WindowOf(t, window) + 1
  {
    if t >= 0 {
      DivPlusOne(t, window);
    } else if t + window < 0 {
      DivPlusOne(-t - window, window);
    } else {
      DivSmall(t + window, window);
      DivMonotone(-t, window, window);
      DivUnique(window, window, 1);
    }
  }

  // The limiter's state and one call

  datatype RateWindow = RateWindow(start: int, count: int)

  datatype Config = Config(window: int, limits: map<RateClass, int>)

  function LimitOf(config: Config, c: RateClass): int {
    if c in config.limits then config.limits[c] else 0
  }

  /** Calls the limiter lets through without counting. */
  predicate Exempt(config: Config, key: string, c: RateClass) {
    key == "" || c == RateNone || LimitOf(config, c) <= 0
  }

  datatype Decision = Decision(allowed: bool, limit: int, remaining: int, resetAt: int)

  function CountIn(windows: map<string, RateWindow>, mapKey: string, start: int): int {
    if mapKey in windows && windows[mapKey].start == start then windows[mapKey].count else 0
  }

  predicate Granted(config: Config, windows: map<string, RateWindow>, now: int, key: string, c: RateClass)
    requires config.window > 0
  {
    Exempt(config, key, c) || CountIn(windows, MapKey(c, key), WindowOf(now, config.window)) < LimitOf(config, c)
  }

  function Charge(config: Config, windows: map<string, RateWindow>, now: int, key: string, c: RateClass): map<string, RateWindow>
    requires config.window > 0
  {
    if Exempt(config, key, c) then windows
    else
      var w := WindowOf(now, config.window);
      var count := CountIn(windows, MapKey(c, key), w);
      windows[MapKey(c, key) := RateWindow(w, if count < LimitOf(config, c) then count + 1 else count)]
  }

  class FixedWindowLimiter {
    const config: Config
    var windows: map<string, RateWindow>

    constructor (window: int, limits: map<RateClass, int>)
      ensures config == Config(if window <= 0 then 60_000_000_000 else window, limits)
      ensures windows == map[]
    {
      config := Config(if window <= 0 then 60_000_000_000 else window, limits);
      windows := map[];
    }

    method Allow(key: string, c: RateClass, now: int) returns (d: Decision)
      requires config.window > 0
      modifies this
      ensures windows == Charge(config, old(windows), now, key, c)
      ensures d.allowed == Granted(config, old(windows), now, key, c)
      ensures if key == "" || c == RateNone || c !in config.limits || config.limits[c] <= 0 then d == Decision(true, 0, 0, 0)
              else
                && d.limit == config.limits[c]
                && d.remaining == Max(0, d.limit - windows[MapKey(c, key)].count)
                && d.resetAt == (WindowOf(now, config.window) + 1) * config.window
    {
      if key == "" || c == RateNone {
        return Decision(true, 0, 0, 0);
      }
      var limit := if c in config.limits then config.limits[c] else 0;
      if limit <= 0 {
        return Decision(true, 0, 0, 0);
      }
      var start := TruncDiv(now, config.window);
      var mapKey := MapKey(c, key);
      var current := if mapKey in windows then windows[mapKey] else RateWindow(start, 0);
      if current.start != start {
        current := RateWindow(start, 0);
      }
      var allowed := current.count < limit;
      if allowed {
        current := current.(count := current.count + 1);
      }
      windows := windows[mapKey := current];
      var remaining := limit - current.count;
      if remaining < 0 {
        remaining := 0;
      }
      d := Decision(allowed, limit, remaining, (start + 1) * config.window);
    }
  }

  // Histories. Calls are listed in the order in which they take the lock. Each
  // reads the clock before it locks, so a call may bring an older reading than the one before it.

  datatype Call = Call(now: int, key: string, c: RateClass)

  function WindowsAfter(config: Config, calls: seq<Call>): map<string, RateWindow>
    requires config.window > 0
  {
    if calls == [] then map[]
    else
      var last := calls[|calls| - 1];
      Charge(config, WindowsAfter(config, calls[..|calls| - 1]), last.now, last.key, last.c)
  }

  /** The decision on the last call of a history. */
  predicate LastGranted(config: Config, calls: seq<Call>)
    requires config.window > 0 && calls != []
  {
    var last := calls[|calls| - 1];
    Granted(config, WindowsAfter(config, calls[..|calls| - 1]), last.now, last.key, last.c)
  }

  predicate Hits(config: Config, call: Call, c: RateClass, key: string, w: int)
    requires config.window > 0
  {
    call.c == c && call.key == key && WindowOf(call.now, config.window) == w
  }

  /** How many calls of a (class, key) pair fall in window `w`. */
  function Asked(config: Config, calls: seq<Call>, c: RateClass, key: string, w: int): nat
    requires config.window > 0
  {
    if calls == [] then 0
    else
      Asked(config, calls[..|calls| - 1], c, key, w)
      + if Hits(config, calls[|calls| - 1], c, key, w) then 1 else 0
  }

  /** How many of them were granted. */
  function Grants(config: Config, calls: seq<Call>, c: RateClass, key: string, w: int): nat
    requires config.window > 0
  {
    if calls == [] then 0
    else
      Grants(config, calls[..|calls| - 1], c, key, w)
      + if Hits(config, calls[|calls| - 1], c, key, w) && LastGranted(config, calls) then 1 else 0
  }

  /** How many calls of the pair with `from <= now < until` were granted. */
  function GrantsBetween(config: Config, calls: seq<Call>, c: RateClass, key: string, from: int, until: int): nat
    requires config.window > 0
  {
    if calls == [] then 0
    else
      var last := calls[|calls| - 1];
      GrantsBetween(config, calls[..|calls| - 1], c, key, from, until)
      + if last.c == c && last.key == key && from <= last.now < until && LastGranted(config, calls) then 1 else 0
  }

  /** The windows of the pair's own calls, in the order in which they are served. */
  function OwnWindows(config: Config, calls: seq<Call>, c: RateClass, key: string): seq<int>
    requires config.window > 0
  {
    if calls == [] then []
    else
      var before, last := OwnWindows(config, calls[..|calls| - 1], c, key), calls[|calls| - 1];
      if last.c == c && last.key == key then before + [WindowOf(last.now, config.window)] else before
  }

  /** The blocks of the pair's calls served one after another in one window. */
  function OwnBlocks(config: Config, calls: seq<Call>, c: RateClass, key: string): (blocks: seq<Block>)
    requires config.window > 0
    ensures Full(blocks)
  {
    Blocks(OwnWindows(config, calls, c, key))
  }

  lemma LastCharge(config: Config, calls: seq<Call>, c: RateClass, key: string)
    requires config.window > 0 && calls != []
    ensures var before, last := calls[..|calls| - 1], calls[|calls| - 1];
            var k := MapKey(c, key);
            var was, now := WindowsAfter(config, before), WindowsAfter(config, calls);
            var w := WindowOf(last.now, config.window);
            if last.c == c && last.key == key && !Exempt(config, key, c) then
              && k in now && now[k].start == w
              && now[k].count == CountIn(was, k, w) + if LastGranted(config, calls) then 1 else 0
            else (k in now <==> k in was) && (k in now ==> now[k] == was[k])
  {
    var last := calls[|calls| - 1];
    MapKeyInjective(last.c, last.key, c, key);
  }

  /** The stored counter is the capped size of the last block. */
  ghost predicate CounterIs(config: Config, calls: seq<Call>, c: RateClass, key: string)
    requires config.window > 0
  {
    var windows, k, blocks := WindowsAfter(config, calls), MapKey(c, key), OwnBlocks(config, calls, c, key);
    if blocks == [] then k !in windows
    else
      var last := blocks[|blocks| - 1];
      k in windows && windows[k] == RateWindow(last.window, Min(last.size, LimitOf(config, c)))
  }

  predicate CountsAre(config: Config, calls: seq<Call>, c: RateClass, key: string, w: int)
    requires config.window > 0 && LimitOf(config, c) > 0
  {
    && Grants(config, calls, c, key, w) == Capped(OwnBlocks(config, calls, c, key), w, LimitOf(config, c))
    && Asked(config, calls, c, key, w) == Sizes(OwnBlocks(config, calls, c, key), w)
  }

  lemma OtherCallKeepsCounts(config: Config, before: seq<Call>, last: Call, c: RateClass, key: string, w: int)
    requires config.window > 0 && !Exempt(config, key, c) && (last.c != c || last.key != key)
    requires CounterIs(config, before, c, key) && CountsAre(config, before, c, key, w)
    ensures CounterIs(config, before + [last], c, key) && CountsAre(config, before + [last], c, key, w)
  {
    assert (before + [last])[..|before|] == before;
    LastCharge(config, before + [last], c, key);
  }

  /** The histories after one more call of the pair. */
  lemma OwnCall(config: Config, before: seq<Call>, last: Call, c: RateClass, key: string, w: int)
    requires config.window > 0 && !Exempt(config, key, c) && last.c == c && last.key == key
    ensures var calls, at := before + [last], WindowOf(last.now, config.window);
            var granted := CountIn(WindowsAfter(config, before), MapKey(c, key), at) < LimitOf(config, c);
            && OwnWindows(config, calls, c, key) == OwnWindows(config, before, c, key) + [at]
            && Asked(config, calls, c, key, w) == Asked(config, before, c, key, w) + (if at == w then 1 else 0)
            && Grants(config, calls, c, key, w) == Grants(config, before, c, key, w) + (if at == w && granted then 1 else 0)
            && MapKey(c, key) in WindowsAfter(config, calls)
            && WindowsAfter(config, calls)[MapKey(c, key)]
               == RateWindow(at, CountIn(WindowsAfter(config, before), MapKey(c, key), at) + if granted then 1 else 0)
  {
    assert (before + [last])[..|before|] == before;
    LastCharge(config, before + [last], c, key);
  }

  /** What the limiter counts for a window is the capped size of the last block, if that is the window's. */
  lemma CountIsBlock(config: Config, calls: seq<Call>, c: RateClass, key: string, w: int)
    requires config.window > 0 && CounterIs(config, calls, c, key)
    ensures var blocks, windows := OwnBlocks(config, calls, c, key), OwnWindows(config, calls, c, key);
            CountIn(WindowsAfter(config, calls), MapKey(c, key), w)
            == if windows != [] && windows[|windows| - 1] == w then Min(blocks[|blocks| - 1].size, LimitOf(config, c)) else 0
  {
  }

  lemma OwnCallKeepsCounts(config: Config, before: seq<Call>, last: Call, c: RateClass, key: string, w: int)
    requires config.window > 0 && !Exempt(config, key, c) && last.c == c && last.key == key
    requires CounterIs(config, before, c, key) && CountsAre(config, before, c, key, w)
    ensures CounterIs(config, before + [last], c, key) && CountsAre(config, before + [last], c, key, w)
  {
    OwnCallKeepsCounter(config, before, last, c, key);
    OwnCallAddsGrant(config, before, last, c, key, w);
  }

  lemma OwnCallKeepsCounter(config: Config, before: seq<Call>, last: Call, c: RateClass, key: string)
    requires config.window > 0 && !Exempt(config, key, c) && last.c == c && last.key == key
    requires CounterIs(config, before, c, key)
    ensures CounterIs(config, before + [last], c, key)
  {
    var at := WindowOf(last.now, config.window);
    OwnCall(config, before, last, c, key, at);
    CountIsBlock(config, before, c, key, at);
    BlockAppend(OwnWindows(config, before, c, key), at, at, 1);
  }

  lemma OwnCallAddsGrant(config: Config, before: seq<Call>, last: Call, c: RateClass, key: string, w: int)
    requires config.window > 0 && !Exempt(config, key, c) && last.c == c && last.key == key
    requires CounterIs(config, before, c, key) && CountsAre(config, before, c, key, w)
    ensures CountsAre(config, before + [last], c, key, w)
  {
    var at := WindowOf(last.now, config.window);
    OwnCall(config, before, last, c, key, w);
    CountIsBlock(config, before, c, key, at);
    BlockAppend(OwnWindows(config, before, c, key), at, w, LimitOf(config, c));
  }

  /** Over any history the counter holds the last block, and the grants of a window are its blocks' sizes, each capped. */
  lemma {:induction false} CounterIsExact(config: Config, calls: seq<Call>, c: RateClass, key: string, w: int)
    requires config.window > 0 && !Exempt(config, key, c)
    ensures CounterIs(config, calls, c, key) && CountsAre(config, calls, c, key, w)
  {
    if calls != [] {
      var before, last := calls[..|calls| - 1], calls[|calls| - 1];
      assert calls == before + [last];
      CounterIsExact(config, before, c, key, w);
      if last.c == c && last.key == key {
        OwnCallKeepsCounts(config, before, last, c, key, w);
      } else {
        OtherCallKeepsCounts(config, before, last, c, key, w);
      }
    }
  }

  // Main results

  /** The calls that are limited: with a key, of a class other than none that has a positive limit. */
  predicate Counted(config: Config, key: string, c: RateClass) {
    key != "" && !c.RateNone? && c in config.limits && config.limits[c] > 0
  }

  /** All other calls are granted and leave every counter alone. */
  lemma UncountedIsFree(config: Config, calls: seq<Call>)
    requires config.window > 0 && calls != []
    requires var last := calls[|calls| - 1];
             last.key == "" || last.c.RateNone? || last.c !in config.limits || config.limits[last.c] <= 0
    ensures LastGranted(config, calls)
    ensures WindowsAfter(config, calls) == WindowsAfter(config, calls[..|calls| - 1])
  {
  }

  /**
   The grants of a counted pair in an aligned window, in any order of service:
   min(block, limit) for each block of calls served consecutively in it. They
   are min(requests, limit) exactly when the requests fit the limit or were
   served in one block.
   */
  lemma GrantsPerWindow(config: Config, calls: seq<Call>, c: RateClass, key: string, w: int)
    requires config.window > 0 && Counted(config, key, c)
    ensures var grants, asked, limit := Grants(config, calls, c, key, w), Asked(config, calls, c, key, w), config.limits[c];
            var blocks := OwnBlocks(config, calls, c, key);
            && grants == Capped(blocks, w, limit)
            && (grants == Min(asked, limit) <==> asked <= limit || Number(blocks, w) <= 1)
            && grants >= Min(asked, limit)
  {
    CounterIsExact(config, calls, c, key, w);
    CapIsLostBetweenBlocks(OwnBlocks(config, calls, c, key), w, LimitOf(config, c));
    CappedBounds(OwnBlocks(config, calls, c, key), w, LimitOf(config, c));
  }

  /** Served in the order of its windows, the pair gets exactly min(requests, limit) grants in each. */
  lemma GrantsInOrder(config: Config, calls: seq<Call>, c: RateClass, key: string, w: int)
    requires config.window > 0 && Counted(config, key, c) && Ordered(OwnWindows(config, calls, c, key))
    ensures Grants(config, calls, c, key, w) == Min(Asked(config, calls, c, key, w), config.limits[c])
  {
    GrantsPerWindow(config, calls, c, key, w);
    OrderedHasOneBlock(OwnWindows(config, calls, c, key), w);
  }

  /**
   Out of order the limit fails: a call with an older clock reading, served
   between two of the next window, makes the limiter forget the first of them.
   */
  lemma StaleReadingForgetsGrants(config: Config, key: string)
    requires config == Config(10, map[RateRead := 1]) && key != ""
    ensures var calls := [Call(10, key, RateRead), Call(9, key, RateRead), Call(11, key, RateRead)];
            Grants(config, calls, RateRead, key, 1) == 2 && config.limits[RateRead] == 1
  {
    var first, second, third := Call(10, key, RateRead), Call(9, key, RateRead), Call(11, key, RateRead);
    assert WindowOf(10, 10) == 1 && WindowOf(9, 10) == 0 && WindowOf(11, 10) == 1;
    OwnCall(config, [], first, RateRead, key, 1);
    OwnCall(config, [first], second, RateRead, key, 1);
    OwnCall(config, [first, second], third, RateRead, key, 1);
    assert [] + [first] == [first] && [first] + [second] == [first, second];
    assert [first, second] + [third] == [first, second, third];
  }

  lemma {:induction false} BetweenIsTwoWindows(config: Config, calls: seq<Call>, c: RateClass, key: string, from: int)
    requires config.window > 0
    ensures var w := WindowOf(from, config.window);
            GrantsBetween(config, calls, c, key, from, from + config.window)
            <= Grants(config, calls, c, key, w) + Grants(config, calls, c, key, w + 1)
  {
    if calls != [] {
      var last := calls[|calls| - 1];
      BetweenIsTwoWindows(config, calls[..|calls| - 1], c, key, from);
      if from <= last.now < from + config.window {
        WindowSpan(from, last.now, config.window);
      }
    }
  }

  /** In any interval of one window length: at most the limit for each block of the two windows it meets. */
  lemma GrantsPerInterval(config: Config, calls: seq<Call>, c: RateClass, key: string, from: int)
    requires config.window > 0 && Counted(config, key, c)
    ensures var w, blocks := WindowOf(from, config.window), OwnBlocks(config, calls, c, key);
            GrantsBetween(config, calls, c, key, from, from + config.window)
            <= Number(blocks, w) * config.limits[c] + Number(blocks, w + 1) * config.limits[c]
  {
    var w, blocks := WindowOf(from, config.window), OwnBlocks(config, calls, c, key);
    BetweenIsTwoWindows(config, calls, c, key, from);
    CounterIsExact(config, calls, c, key, w);
    CounterIsExact(config, calls, c, key, w + 1);
    CappedAtMost(blocks, w, LimitOf(config, c));
    CappedAtMost(blocks, w + 1, LimitOf(config, c));
  }

  /** At most twice the limit in any interval of one window length, aligned or not, when served in order. */
  lemma GrantsPerIntervalInOrder(config: Config, calls: seq<Call>, c: RateClass, key: string, from: int)
    requires config.window > 0 && Counted(config, key, c) && Ordered(OwnWindows(config, calls, c, key))
    ensures GrantsBetween(config, calls, c, key, from, from + config.window) <= 2 * config.limits[c]
  {
    BetweenIsTwoWindows(config, calls, c, key, from);
    GrantsInOrder(config, calls, c, key, WindowOf(from, config.window));
    GrantsInOrder(config, calls, c, key, WindowOf(from, config.window) + 1);
  }
}
