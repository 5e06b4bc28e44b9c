/**
 The per-host robots.txt memo. What a fetch of robots.txt would yield may
 change from call to call; the memo makes one reply per host decide a whole run.
 */
module RobotsMemo {
  import opened Requests

  /** Parsed rules for the crawler's own agent; `allows` is the library's test of a path. */
  datatype Rules = Rules(allows: string -> bool, sitemaps: seq<string>)

  /** What one fetch of a host's robots.txt yields. */
  datatype Reply = NetworkError | Answered(status: int, parsed: Option<Rules>)

  /** The usable rules of a reply, if any: fetched with status 200 and parsed. */
  function RulesOf(reply: Reply): Option<Rules> {
    match reply
    case NetworkError => None
    case Answered(status, parsed) => if status == 200 then parsed else None
  }

  /** A nil entry, stored for hosts without usable rules, is None. */
  type Memo = map<string, Option<Rules>>

  class RobotsChecker {
    var robotsMap: Memo
    ghost var fetched: seq<string>

    constructor ()
      ensures robotsMap == map[] && fetched == []
    {
      robotsMap, fetched := map[], [];
    }

    /** `reply` is what a fetch made now would yield; it is consulted only for a host that is not in the map. */
    method GetRobotsMap(u: Url, reply: Reply) returns (robot: Option<Rules>, err: bool)
      modifies this
      ensures robotsMap == Remember(old(robotsMap), u, reply)
      ensures fetched == old(fetched) + if u.host in old(robotsMap) then [] else [u.host]
      ensures robot == robotsMap[u.host]
      ensures err <==> u.host !in old(robotsMap) && robot.None?
    {
      if u.host in robotsMap {
        return robotsMap[u.host], false;
      }
      fetched := fetched + [u.host];
      if reply.NetworkError? || reply.status != 200 || reply.parsed.None? {
        robotsMap := robotsMap[u.host := None];
        return None, true;
      }
      robotsMap := robotsMap[u.host := reply.parsed];
      return reply.parsed, false;
    }

    method IsBlocked(u: Url, reply: Reply) returns (b: bool)
      modifies this
      ensures robotsMap == Remember(old(robotsMap), u, reply)
      ensures fetched == old(fetched) + if u.host in old(robotsMap) then [] else [u.host]
      ensures b <==> robotsMap[u.host].Some? && !robotsMap[u.host].value.allows(u.path)
    {
      var robot, err := GetRobotsMap(u, reply);
      if err || robot.None? {
        return false;
      }
      b := !robot.value.allows(u.path);
    }

    method Exists(u: Url, reply: Reply) returns (b: bool)
      modifies this
      ensures robotsMap == Remember(old(robotsMap), u, reply)
      ensures fetched == old(fetched) + if u.host in old(robotsMap) then [] else [u.host]
      ensures b == robotsMap[u.host].Some?
    {
      var robot, err := GetRobotsMap(u, reply);
      if err {
        return false;
      }
      b := robot.Some?;
    }

    method GetSitemaps(u: Url, reply: Reply) returns (sitemaps: seq<string>)
      modifies this
      ensures robotsMap == Remember(old(robotsMap), u, reply)
      ensures fetched == old(fetched) + if u.host in old(robotsMap) then [] else [u.host]
      ensures sitemaps == match robotsMap[u.host] case None => [] case Some(rules) => rules.sitemaps
    {
      var robot, err := GetRobotsMap(u, reply);
      if err || robot.None? {
        return [];
      }
      sitemaps := robot.value.sitemaps;
    }
  }

  function Blocks(rules: Option<Rules>, u: Url): bool {
    rules.Some? && !rules.value.allows(u.path)
  }

  function Remember(m: Memo, u: Url, reply: Reply): Memo {
    if u.host in m then m else m[u.host := RulesOf(reply)]
  }

  // Histories: every call, by any goroutine, in the order the lock admits them.

  datatype Call = Call(url: Url, reply: Reply)

  function MemoAfter(calls: seq<Call>): Memo {
    if calls == [] then map[]
    else Remember(MemoAfter(calls[..|calls| - 1]), calls[|calls| - 1].url, calls[|calls| - 1].reply)
  }

  predicate Touches(calls: seq<Call>, host: string) {
    exists i :: 0 <= i < |calls| && calls[i].url.host == host
  }

  /** Reference definition: the reply that the first call naming the host would get. */
  function FirstReply(calls: seq<Call>, host: string): Reply
    requires Touches(calls, host)
  {
    var before := calls[..|calls| - 1];
    if Touches(before, host) then FirstReply(before, host) else calls[|calls| - 1].reply
  }

  /** The hosts whose robots.txt was fetched. */
  function Fetches(calls: seq<Call>): seq<string> {
    if calls == [] then []
    else
      var before, u := calls[..|calls| - 1], calls[|calls| - 1].url;
      Fetches(before) + if u.host in MemoAfter(before) then [] else [u.host]
  }

  lemma TouchedLastOrBefore(calls: seq<Call>, host: string)
    requires calls != []
    ensures Touches(calls, host) <==>
            Touches(calls[..|calls| - 1], host) || calls[|calls| - 1].url.host == host
  {
    var before := calls[..|calls| - 1];
    if Touches(before, host) {
      var i :| 0 <= i < |before| && before[i].url.host == host;
      assert calls[i].url.host == host;
    }
    if Touches(calls, host) {
      var i :| 0 <= i < |calls| && calls[i].url.host == host;
      assert i < |before| ==> before[i].url.host == host;
    }
  }

  /** After any history the memo holds exactly the first replies, and each touched host was fetched once. */
  lemma {:induction false} MemoIsFirstReplies(calls: seq<Call>, host: string)
    ensures host in MemoAfter(calls) <==> Touches(calls, host)
    ensures Touches(calls, host) ==> MemoAfter(calls)[host] == RulesOf(FirstReply(calls, host))
    ensures multiset(Fetches(calls))[host] == if Touches(calls, host) then 1 else 0
  {
    if calls != [] {
      MemoIsFirstReplies(calls[..|calls| - 1], host);
      TouchedLastOrBefore(calls, host);
    }
  }

  /** The answer given to the last call of a history. */
  function LastBlocked(calls: seq<Call>): bool
    requires calls != []
  {
    var last := calls[|calls| - 1];
    var m := MemoAfter(calls);
    last.url.host in m && Blocks(m[last.url.host], last.url)
  }

  /**
   What decides an answer, in terms of the server alone: a URL is blocked if and
   only if the first reply for its host had status 200, parsed, and forbids the path.
   */
  lemma BlockedIffFirstReplyForbids(calls: seq<Call>)
    requires calls != []
    ensures Touches(calls, calls[|calls| - 1].url.host)
    ensures var u := calls[|calls| - 1].url;
            var reply := FirstReply(calls, u.host);
            LastBlocked(calls) <==> reply.Answered? && reply.status == 200 && reply.parsed.Some? && !reply.parsed.value.allows(u.path)
  {
    MemoIsFirstReplies(calls, calls[|calls| - 1].url.host);
  }

  lemma {:induction false} FirstReplyStays(calls: seq<Call>, n: nat, host: string)
    requires n <= |calls| && Touches(calls[..n], host)
    ensures Touches(calls, host) && FirstReply(calls, host) == FirstReply(calls[..n], host)
    decreases |calls|
  {
    if n == |calls| {
      assert calls[..n] == calls;
    } else {
      var before := calls[..|calls| - 1];
      assert before[..n] == calls[..n];
      FirstReplyStays(before, n, host);
      var i :| 0 <= i < |before| && before[i].url.host == host;
      assert calls[i].url.host == host;
    }
  }

  /**
   Admission is stable: two calls for one URL get the same answer at any two
   moments of a run, whatever the server would have replied in between.
   */
  lemma AnswersAreStable(calls: seq<Call>, n: nat)
    requires 0 < n <= |calls| && calls[n - 1].url == calls[|calls| - 1].url
    ensures LastBlocked(calls[..n]) == LastBlocked(calls)
  {
    var host := calls[n - 1].url.host;
    assert calls[..n][n - 1].url.host == host;
    FirstReplyStays(calls, n, host);
    MemoIsFirstReplies(calls[..n], host);
    MemoIsFirstReplies(calls, host);
  }
}
