/** Keyset pagination of crawl findings, and the exports that walk it. */
module Paging {
  import opened Arith
  import opened Requests

  // Ordered enumeration: what `WHERE id > ? ORDER BY id LIMIT ?` returns

  lemma Member(keys: set<int>)
    ensures keys == {} || exists c :: c in keys
  {
    if forall c :: c !in keys {
      assert keys == {};
    }
  }

  lemma {:induction false} HasLeast(keys: set<int>) returns (k: int)
    requires |keys| > 0
    ensures k in keys && forall j :: j in keys ==> k <= j
    decreases |keys|
  {
    Member(keys);
    var c :| c in keys;
    k := c;
    var rest := keys - {c};
    if |rest| > 0 {
      var l := HasLeast(rest);
      k := if l < c then l else c;
    }
    forall j | j in keys ensures k <= j {
      assert j == c || j in rest;
    }
  }

  function Least(keys: set<int>): (k: int)
    requires keys != {}
    ensures k in keys && forall j :: j in keys ==> k <= j
  {
    assert exists k :: k in keys && forall j :: j in keys ==> k <= j by {
      var l := HasLeast(keys);
    }
    var k :| k in keys && forall j :: j in keys ==> k <= j;
    k
  }

  function Ascending(keys: set<int>): (s: seq<int>)
    ensures |s| == |keys|
    ensures forall c :: c in s <==> c in keys
    ensures forall i :: 0 <= i < |s| ==> s[i] in keys
    decreases |keys|
  {
    if keys == {} then []
    else
      var k := Least(keys);
      [k] + Ascending(keys - {k})
  }

  predicate Increasing(s: seq<int>) {
    forall i, j :: 0 <= i < j < |s| ==> s[i] < s[j]
  }

  lemma {:induction false} AscendingIncreases(keys: set<int>)
    ensures Increasing(Ascending(keys))
    decreases |keys|
  {
    if keys != {} {
      var k := Least(keys);
      AscendingIncreases(keys - {k});
      var rest := Ascending(keys - {k});
      forall j | 0 <= j < |rest| ensures k < rest[j] {
        assert rest[j] in rest;
      }
    }
  }

  function Above(keys: set<int>, after: int): set<int> {
    set c | c in keys && c > after
  }

  function Take<T>(s: seq<T>, n: nat): seq<T> {
    if n <= |s| then s[..n] else s
  }

  /** The cursors of the rows a page query returns. */
  function Query<T>(table: map<int, T>, after: int, n: nat): seq<int> {
    Take(Ascending(Above(table.Keys, after)), n)
  }

  // One page

  datatype PageRequest = PageRequest(afterId: int, limit: int)

  datatype PageResult<T> = PageResult(items: seq<T>, nextAfterId: int)

  const DEFAULT_PAGE_LIMIT := 100
  const MAXIMUM_PAGE_LIMIT := 500

  function QueryLimit(limit: int): int {
    (if limit < 1 then 100 else limit) + 1
  }

  /**
   `limit` is the query parameter if given, `cursor` the row id of a valid
   cursor token if given. Anything else is refused.
   */
  method ParsePageRequest(limit: Option<int>, cursor: Option<int>) returns (page: Option<PageRequest>)
    ensures page.Some? <==> (limit.Some? ==> 1 <= limit.value <= 500) && (cursor.Some? ==> cursor.value > 0)
    ensures page.Some? ==> 1 <= page.value.limit <= 500 && page.value.afterId >= 0
    ensures page.Some? ==> page.value.limit == if limit.Some? then limit.value else 100
    ensures page.Some? ==> page.value.afterId == if cursor.Some? then cursor.value else 0
  {
    var n := DEFAULT_PAGE_LIMIT;
    if limit.Some? {
      if limit.value < 1 || limit.value > MAXIMUM_PAGE_LIMIT {
        return None;
      }
      n := limit.value;
    }
    var after := 0;
    if cursor.Some? {
      if cursor.value <= 0 {
        return None;
      }
      after := cursor.value;
    }
    page := Some(PageRequest(after, n));
  }

  function PageCursors(keys: set<int>, after: int, limit: nat): seq<int> {
    Take(Ascending(Above(keys, after)), limit)
  }

  function NextAfter(keys: set<int>, after: int, limit: nat): int
    requires limit >= 1
  {
    var rows := Ascending(Above(keys, after));
    if |rows| > limit then rows[limit - 1] else 0
  }

  function RowsAt<T>(table: map<int, T>, cursors: seq<int>): (rows: seq<T>)
    requires forall i :: 0 <= i < |cursors| ==> cursors[i] in table
    ensures |rows| == |cursors|
  {
    seq(|cursors|, i requires 0 <= i < |cursors| => table[cursors[i]])
  }

  lemma PageCursorsInTable(keys: set<int>, after: int, limit: nat)
    ensures var page := PageCursors(keys, after, limit);
            && (forall c :: c in page ==> c in keys && c > after)
            && (forall i :: 0 <= i < |page| ==> page[i] in keys)
  {
    var all := Ascending(Above(keys, after));
    forall c | c in PageCursors(keys, after, limit) ensures c in keys && c > after {
      assert c in all;
    }
  }

  function PageRows<T>(table: map<int, T>, after: int, limit: nat): seq<T> {
    PageCursorsInTable(table.Keys, after, limit);
    RowsAt(table, PageCursors(table.Keys, after, limit))
  }

  /** `result` is the page of `limit` rows above `after`. */
  predicate PageIs<T(==)>(table: map<int, T>, after: int, limit: nat, result: PageResult<T>)
    requires limit >= 1
  {
    && result.items == PageRows(table, after, limit)
    && result.nextAfterId == NextAfter(table.Keys, after, limit)
  }

  /** The rows of a query, each with its cursor. */
  method ScanRows<T(==)>(table: map<int, T>, after: int, n: nat) returns (items: seq<(int, T)>)
    ensures var rows := Query(table, after, n);
            && |items| == |rows|
            && forall j :: 0 <= j < |rows| ==> rows[j] in table && items[j] == (rows[j], table[rows[j]])
  {
    PageCursorsInTable(table.Keys, after, n);
    var rows := Query(table, after, n);
    items := [];
    for i := 0 to |rows|
      invariant |items| == i
      invariant forall j :: 0 <= j < i ==> items[j] == (rows[j], table[rows[j]])
    {
      items := items + [(rows[i], table[rows[i]])];
    }
  }

  /** The body shared by ListIssues, ListPages, ListLinks and ListResources; they index `items[limit-1]`. */
  method ListPage<T(==)>(table: map<int, T>, page: PageRequest) returns (result: PageResult<T>)
    requires page.limit >= 1
    ensures PageIs(table, page.afterId, page.limit, result)
  {
    PageCursorsInTable(table.Keys, page.afterId, page.limit);
    var items := ScanRows(table, page.afterId, QueryLimit(page.limit));
    var kept := if |items| < page.limit then |items| else page.limit;
    var found := [];
    for i := 0 to kept
      invariant |found| == i
      invariant forall j :: 0 <= j < i ==> found[j] == items[j].1
    {
      found := found + [items[i].1];
    }
    result := PageResult(found, if |items| > page.limit then items[page.limit - 1].0 else 0);
    assert result.items == PageRows(table, page.afterId, page.limit);
  }

  // Pages and the whole list

  lemma {:induction false} IncreasingUnique(a: seq<int>, b: seq<int>)
    requires Increasing(a) && Increasing(b) && forall c :: c in a <==> c in b
    ensures a == b
  {
    if b != [] {
      assert b[0] in b;
    }
    if a != [] {
      assert a[0] in a;
      assert b[0] in a && a[0] in b;
      assert a[0] == b[0];
      TailMembers(a);
      TailMembers(b);
      IncreasingUnique(a[1..], b[1..]);
      assert a == [a[0]] + a[1..] && b == [b[0]] + b[1..];
    }
  }

  lemma TailMembers(a: seq<int>)
    requires Increasing(a) && a != []
    ensures Increasing(a[1..]) && forall c :: c in a[1..] <==> c in a && c != a[0]
  {
    forall c ensures c in a[1..] <==> c in a && c != a[0] {
      assert a == [a[0]] + a[1..];
    }
  }

  lemma IncreasingAppend(a: seq<int>, b: seq<int>, m: int)
    requires Increasing(a) && Increasing(b)
    requires (forall c :: c in a ==> c <= m) && (forall c :: c in b ==> c > m)
    ensures Increasing(a + b)
  {
    forall i, j | 0 <= i < j < |a + b| ensures (a + b)[i] < (a + b)[j] {
      if i < |a| <= j {
        assert a[i] in a && b[j - |a|] in b;
      }
    }
  }

  lemma TakeIsBelow(all: seq<int>, n: nat)
    requires Increasing(all) && 0 < n <= |all|
    ensures Increasing(all[..n])
    ensures forall c :: c in all ==> (c in all[..n] <==> c <= all[n - 1])
  {
    forall c | c in all ensures c in all[..n] <==> c <= all[n - 1] {
      var i :| 0 <= i < |all| && all[i] == c;
      if i < n {
        assert all[..n][i] == c;
      }
    }
  }

  /** Cutting the ordered list at one of its cursors leaves the rows above that cursor. */
  lemma AscendingSplits(keys: set<int>, n: nat)
    requires 0 < n <= |keys|
    ensures Ascending(keys)[..n] + Ascending(Above(keys, Ascending(keys)[n - 1])) == Ascending(keys)
  {
    var all := Ascending(keys);
    var last := all[n - 1];
    AscendingIncreases(keys);
    AscendingIncreases(Above(keys, last));
    TakeIsBelow(all, n);
    forall c | c in all[..n] ensures c in all && c <= last {
      assert c in all;
    }
    JoinedAt(all, all[..n], Ascending(Above(keys, last)), last);
  }

  lemma JoinedAt(all: seq<int>, a: seq<int>, b: seq<int>, last: int)
    requires Increasing(all) && Increasing(a) && Increasing(b)
    requires (forall c :: c in a <==> c in all && c <= last) && (forall c :: c in b <==> c in all && c > last)
    ensures a + b == all
  {
    IncreasingAppend(a, b, last);
    IncreasingUnique(a + b, all);
  }

  lemma AboveAbove(keys: set<int>, a: int, b: int)
    requires a <= b
    ensures Above(Above(keys, a), b) == Above(keys, b)
  {
  }

  /** A page is a non-empty prefix of what is left; its cursor leaves exactly the rest. */
  lemma PageThenRest(keys: set<int>, after: int, limit: nat)
    requires limit >= 1
    ensures var next := NextAfter(keys, after, limit);
            var all := Ascending(Above(keys, after));
            if |all| > limit then
              && next in keys && next > after
              && all == PageCursors(keys, after, limit) + Ascending(Above(keys, next))
              && |Above(keys, next)| < |Above(keys, after)|
            else next == 0 && all == PageCursors(keys, after, limit)
  {
    var left := Above(keys, after);
    var all := Ascending(left);
    if |all| > limit {
      AscendingSplits(left, limit);
      assert all[limit - 1] in all;
      AboveAbove(keys, after, all[limit - 1]);
    }
  }

  // Exports: the streaming loop over a fixed table

  function Filter<T>(rows: seq<T>, keep: T -> bool): seq<T> {
    if rows == [] then []
    else
      var rest := Filter(rows[..|rows| - 1], keep);
      if keep(rows[|rows| - 1]) then rest + [rows[|rows| - 1]] else rest
  }

  lemma {:induction false} FilterAppend<T>(a: seq<T>, b: seq<T>, keep: T -> bool)
    ensures Filter(a + b, keep) == Filter(a, keep) + Filter(b, keep)
  {
    if b == [] {
      assert a + b == a;
    } else {
      assert (a + b)[..|a + b| - 1] == a + b[..|b| - 1];
      FilterAppend(a, b[..|b| - 1], keep);
    }
  }

  /** Filtering keeps each kept row as often as it occurs, and no other row. */
  lemma {:induction false} FilterExact<T>(rows: seq<T>, keep: T -> bool, row: T)
    ensures multiset(Filter(rows, keep))[row] == if keep(row) then multiset(rows)[row] else 0
  {
    if rows != [] {
      FilterExact(rows[..|rows| - 1], keep, row);
      assert rows == rows[..|rows| - 1] + [rows[|rows| - 1]];
    }
  }

  /** Every row of the table in cursor order: the unpaged list. */
  function AllRows<T>(table: map<int, T>): seq<T> {
    RowsAt(table, Ascending(table.Keys))
  }

  lemma RowsAtAppend<T>(table: map<int, T>, a: seq<int>, b: seq<int>)
    requires (forall i :: 0 <= i < |a| ==> a[i] in table) && (forall i :: 0 <= i < |b| ==> b[i] in table)
    ensures RowsAt(table, a + b) == RowsAt(table, a) + RowsAt(table, b)
  {
  }

  /** The cursors of the rows that are kept. */
  ghost function Kept<T>(table: map<int, T>, keep: T -> bool): set<int> {
    set c | c in table && keep(table[c])
  }

  /** The kept ones of some cursors, in their order. */
  ghost function Selected<T>(table: map<int, T>, cursors: seq<int>, keep: T -> bool): (found: seq<int>)
    ensures forall i :: 0 <= i < |found| ==> found[i] in cursors && found[i] in Kept(table, keep)
  {
    if cursors == [] then []
    else
      var front, last := Selected(table, cursors[..|cursors| - 1], keep), cursors[|cursors| - 1];
      if last in Kept(table, keep) then front + [last] else front
  }

  lemma {:induction false} SelectedMembers<T>(table: map<int, T>, cursors: seq<int>, keep: T -> bool)
    ensures forall c :: c in Selected(table, cursors, keep) <==> c in cursors && c in Kept(table, keep)
  {
    if cursors != [] {
      var front, last := cursors[..|cursors| - 1], cursors[|cursors| - 1];
      SelectedMembers(table, front, keep);
      assert cursors == front + [last];
    }
  }

  lemma {:induction false} SelectedIncreases<T>(table: map<int, T>, cursors: seq<int>, keep: T -> bool)
    requires Increasing(cursors)
    ensures Increasing(Selected(table, cursors, keep))
  {
    if cursors != [] {
      var front, last := cursors[..|cursors| - 1], cursors[|cursors| - 1];
      SelectedIncreases(table, front, keep);
      var found := Selected(table, front, keep);
      forall i | 0 <= i < |found| ensures found[i] < last {
        var j :| 0 <= j < |front| && front[j] == found[i];
        assert cursors[j] == front[j];
      }
    }
  }

  lemma {:induction false} FilterSelects<T>(table: map<int, T>, cursors: seq<int>, keep: T -> bool)
    requires forall i :: 0 <= i < |cursors| ==> cursors[i] in table
    ensures Filter(RowsAt(table, cursors), keep) == RowsAt(table, Selected(table, cursors, keep))
  {
    if cursors != [] {
      FilterSelects(table, cursors[..|cursors| - 1], keep);
      assert RowsAt(table, cursors)[..|cursors| - 1] == RowsAt(table, cursors[..|cursors| - 1]);
    }
  }

  /** The filtered unpaged list is the list of the kept rows, in cursor order. */
  lemma FilteredList<T>(table: map<int, T>, keep: T -> bool)
    ensures Filter(AllRows(table), keep) == RowsAt(table, Ascending(Kept(table, keep)))
  {
    AscendingIncreases(table.Keys);
    AscendingIncreases(Kept(table, keep));
    SelectedMembers(table, Ascending(table.Keys), keep);
    SelectedIncreases(table, Ascending(table.Keys), keep);
    FilterSelects(table, Ascending(table.Keys), keep);
    IncreasingUnique(Selected(table, Ascending(table.Keys), keep), Ascending(Kept(table, keep)));
  }

  predicate Positive<T>(table: map<int, T>) {
    forall c :: c in table ==> c > 0
  }

  /** One page of the stream: its rows, then what is above the next cursor. */
  lemma StreamStep<T>(table: map<int, T>, after: int, limit: nat, keep: T -> bool)
    requires limit >= 1 && after >= 0
    ensures var next := NextAfter(table.Keys, after, limit);
            var page := Filter(PageRows(table, after, limit), keep);
            && Filter(RowsAbove(table, after), keep)
               == (if next == 0 then page else page + Filter(RowsAbove(table, next), keep))
            && (next != 0 ==> next > after && |Above(table.Keys, next)| < |Above(table.Keys, after)|)
  {
    PageCursorsInTable(table.Keys, after, limit);
    PageThenRest(table.Keys, after, limit);
    var next := NextAfter(table.Keys, after, limit);
    if next != 0 {
      var page, rest := PageCursors(table.Keys, after, limit), Ascending(Above(table.Keys, next));
      RowsAtAppend(table, page, rest);
      FilterAppend(RowsAt(table, page), RowsAt(table, rest), keep);
    }
  }

  method WriteItems<T>(items: seq<T>, keep: T -> bool, written: seq<T>) returns (output: seq<T>)
    ensures output == written + Filter(items, keep)
  {
    output := written;
    for i := 0 to |items|
      invariant output == written + Filter(items[..i], keep)
    {
      assert items[..i + 1][..i] == items[..i];
      if keep(items[i]) {
        output := output + [items[i]];
      }
    }
    assert items[..|items|] == items;
  }

  function RowsAbove<T>(table: map<int, T>, after: int): seq<T> {
    RowsAt(table, Ascending(Above(table.Keys, after)))
  }

  /** What the stream still owes after `written`, before and after one page. */
  ghost predicate Owes<T(!new)>(table: map<int, T>, after: int, keep: T -> bool, written: seq<T>, all: seq<T>) {
    written + Filter(RowsAbove(table, after), keep) == all
  }

  lemma Associative<T>(a: seq<T>, b: seq<T>, c: seq<T>)
    ensures a + (b + c) == (a + b) + c
  {
  }

  method WritePage<T(==, !new)>(table: map<int, T>, after: int, limit: nat, keep: T -> bool, result: PageResult<T>,
                                written: seq<T>, ghost all: seq<T>) returns (output: seq<T>)
    requires limit >= 1 && after >= 0 && PageIs(table, after, limit, result)
    requires Owes(table, after, keep, written, all)
    ensures if result.nextAfterId == 0 then output == all
            else
              && Owes(table, result.nextAfterId, keep, output, all)
              && result.nextAfterId > after
              && |Above(table.Keys, result.nextAfterId)| < |Above(table.Keys, after)|
  {
    StreamStep(table, after, limit, keep);
    output := WriteItems(result.items, keep, written);
    if result.nextAfterId != 0 {
      ghost var page, rest := Filter(result.items, keep), Filter(RowsAbove(table, result.nextAfterId), keep);
      Associative(written, page, rest);
    }
  }

  /**
   The streaming loops of the CSV and sitemap exports: `keep` is constantly true
   for the CSV files and sitemap eligibility for the sitemap. The walk ends and
   writes exactly the unpaged list.
   */
  method StreamExport<T(==, !new)>(table: map<int, T>, keep: T -> bool, limit: int) returns (output: seq<T>)
    requires limit >= 1 && Positive(table)
    ensures output == RowsAt(table, Ascending(Kept(table, keep))) == Filter(AllRows(table), keep)
  {
    assert Above(table.Keys, 0) == table.Keys;
    ghost var all := Filter(AllRows(table), keep);
    FilteredList(table, keep);
    var after := 0;
    var result := ListPage(table, PageRequest(after, limit));
    output := [];
    while true
      invariant after >= 0
      invariant PageIs(table, after, limit, result)
      invariant Owes(table, after, keep, output, all)
      decreases |Above(table.Keys, after)|
    {
      output := WritePage(table, after, limit, keep, result, output, all);
      if result.nextAfterId == 0 {
        return;
      }
      after := result.nextAfterId;
      result := ListPage(table, PageRequest(after, limit));
    }
  }

  // Walks over a table that grows

  /** A client's walk: the cursor it sends next, the cursors of the rows it received, and whether it has ended. */
  datatype Walk = Walk(after: int, emitted: seq<int>, ended: bool)

  const START := Walk(0, [], false)

  function Advance(w: Walk, keys: set<int>, limit: nat): Walk
    requires limit >= 1
  {
    if w.ended then w
    else
      var next := NextAfter(keys, w.after, limit);
      Walk(if next == 0 then w.after else next, w.emitted + PageCursors(keys, w.after, limit), next == 0)
  }

  predicate AllPositive(limits: seq<nat>) {
    forall i :: 0 <= i < |limits| ==> limits[i] >= 1
  }

  /** The walk whose i-th page is served from `tables[i]` with `limits[i]`. */
  function WalkOver(tables: seq<set<int>>, limits: seq<nat>): Walk
    requires |limits| == |tables| && AllPositive(limits)
  {
    if tables == [] then START
    else
      var n := |tables| - 1;
      Advance(WalkOver(tables[..n], limits[..n]), tables[n], limits[n])
  }

  /** Rows are inserted at any cursor position, and none is deleted, while the walk runs. */
  predicate Growing(tables: seq<set<int>>) {
    forall i, j :: 0 <= i < j < |tables| ==> tables[i] <= tables[j]
  }

  /** So far the walk has emitted increasing cursors up to `after`, skipping no row of `initial`. */
  ghost predicate WalkInv(w: Walk, initial: set<int>) {
    && w.after >= 0
    && Increasing(w.emitted)
    && (!w.ended ==> forall c :: c in w.emitted ==> c <= w.after)
    && (forall c :: c in initial && c > 0 && (w.ended || c <= w.after) ==> c in w.emitted)
  }

  /** A page holds the rows above `after` up to its next cursor, or all of them when it is the last. */
  lemma PageCoversItsRange(keys: set<int>, after: int, limit: nat)
    requires limit >= 1 && after >= 0
    ensures var page, next := PageCursors(keys, after, limit), NextAfter(keys, after, limit);
            && Increasing(page)
            && (next != 0 ==> next > after)
            && (forall c :: c in page <==> c in keys && c > after && (next == 0 || c <= next))
  {
    var all := Ascending(Above(keys, after));
    AscendingIncreases(Above(keys, after));
    assert forall c :: c in all <==> c in keys && c > after;
    if |all| > limit {
      TakeIsBelow(all, limit);
      assert all[limit - 1] in all;
      forall c | c in all[..limit] ensures c in all {}
    }
  }

  lemma AdvanceKeeps(w: Walk, initial: set<int>, keys: set<int>, limit: nat)
    requires limit >= 1 && WalkInv(w, initial) && initial <= keys
    ensures WalkInv(Advance(w, keys, limit), initial)
  {
    if !w.ended {
      PageCoversItsRange(keys, w.after, limit);
      PageCursorsInTable(keys, w.after, limit);
      IncreasingAppend(w.emitted, PageCursors(keys, w.after, limit), w.after);
    }
  }

  lemma {:induction false} WalkKeeps(tables: seq<set<int>>, limits: seq<nat>, initial: set<int>)
    requires |limits| == |tables| && AllPositive(limits)
    requires forall i :: 0 <= i < |tables| ==> initial <= tables[i]
    ensures WalkInv(WalkOver(tables, limits), initial)
  {
    if tables != [] {
      var n := |tables| - 1;
      WalkKeeps(tables[..n], limits[..n], initial);
      AdvanceKeeps(WalkOver(tables[..n], limits[..n]), initial, tables[n], limits[n]);
    }
  }

  /**
   Walking while rows are inserted: the emitted cursors strictly increase, so no
   row comes twice, and a walk that has ended emitted every row present at its start.
   */
  lemma WalkUnderInserts(tables: seq<set<int>>, limits: seq<nat>)
    requires |limits| == |tables| && tables != [] && AllPositive(limits) && Growing(tables)
    ensures var w := WalkOver(tables, limits);
            && Increasing(w.emitted)
            && (w.ended ==> forall c :: c in tables[0] && c > 0 ==> c in w.emitted)
  {
    WalkKeeps(tables, limits, tables[0]);
  }

  lemma {:induction false} EmittedWerePresent(tables: seq<set<int>>, limits: seq<nat>, c: int)
    requires |limits| == |tables| && AllPositive(limits) && Growing(tables)
    requires c in WalkOver(tables, limits).emitted
    ensures c in tables[|tables| - 1] && c > 0
  {
    var n := |tables| - 1;
    var before := WalkOver(tables[..n], limits[..n]);
    WalkKeeps(tables[..n], limits[..n], {});
    if c in before.emitted {
      EmittedWerePresent(tables[..n], limits[..n], c);
      assert tables[..n][n - 1] == tables[n - 1];
    } else {
      PageCursorsInTable(tables[n], before.after, limits[n]);
    }
  }

  function Always(keys: set<int>, n: nat): (tables: seq<set<int>>)
    ensures |tables| == n && forall i :: 0 <= i < n ==> tables[i] == keys
  {
    seq(n, i => keys)
  }

  lemma {:induction false} WalkProgresses(keys: set<int>, limits: seq<nat>)
    requires AllPositive(limits)
    ensures var w := WalkOver(Always(keys, |limits|), limits);
            w.after >= 0 && (w.ended || |Above(keys, w.after)| + |limits| <= |Above(keys, 0)|)
  {
    if limits != [] {
      var n := |limits| - 1;
      WalkProgresses(keys, limits[..n]);
      assert Always(keys, |limits|)[..n] == Always(keys, n);
      PageThenRest(keys, WalkOver(Always(keys, n), limits[..n]).after, limits[n]);
    }
  }

  /** On a table at rest a walk that goes on long enough ends, and it has received exactly the unpaged list. */
  lemma WalkAtRest(keys: set<int>, limits: seq<nat>)
    requires AllPositive(limits) && |limits| > |Above(keys, 0)|
    ensures var w := WalkOver(Always(keys, |limits|), limits);
            w.ended && w.emitted == Ascending(Above(keys, 0))
  {
    var tables := Always(keys, |limits|);
    WalkProgresses(keys, limits);
    WalkKeeps(tables, limits, keys);
    AscendingIncreases(Above(keys, 0));
    var w := WalkOver(tables, limits);
    forall c | c in w.emitted ensures c in Above(keys, 0) {
      EmittedWerePresent(tables, limits, c);
    }
    IncreasingUnique(w.emitted, Ascending(Above(keys, 0)));
  }

  // Interleaved cursors: several tables in one ordered list

  /** Row `id` of table `k` gets the cursor `id * stride + k`. */
  function Cursor(id: int, k: nat, stride: nat): int {
    id * stride + k
  }

  function Interleaved<T>(tables: seq<map<int, T>>, stride: nat): map<int, (nat, T)>
    requires 0 < |tables| <= stride
  {
    map c | c in Cursors(tables, stride) && c % stride < |tables| && c / stride in tables[c % stride] ::
      (c % stride, tables[c % stride][c / stride])
  }

  function Cursors<T>(tables: seq<map<int, T>>, stride: nat): set<int> {
    set k, id | 0 <= k < |tables| && id in tables[k] :: Cursor(id, k, stride)
  }

  /** Cursors of different rows differ, positive ids give positive cursors, and a cursor tells its row's table. */
  lemma CursorsAreExact(id: int, k: nat, id': int, k': nat, stride: nat)
    requires k < stride && k' < stride
    ensures Cursor(id, k, stride) == Cursor(id', k', stride) <==> id == id' && k == k'
    ensures Cursor(id, k, stride) / stride == id && Cursor(id, k, stride) % stride == k
    ensures id > 0 ==> Cursor(id, k, stride) > 0
  {
    DivModUnique(id, k, stride);
    DivModUnique(id', k', stride);
    if id > 0 {
      MulMonotone(1, id, stride);
    }
  }

  lemma RowIsInterleaved<T>(tables: seq<map<int, T>>, stride: nat, k: nat, id: int)
    requires 0 < |tables| <= stride && k < |tables| && id in tables[k]
    ensures Cursor(id, k, stride) in Interleaved(tables, stride)
    ensures Interleaved(tables, stride)[Cursor(id, k, stride)] == (k, tables[k][id])
  {
    CursorsAreExact(id, k, id, k, stride);
    assert Cursor(id, k, stride) in Cursors(tables, stride);
  }

  lemma InterleavedIsRow<T>(tables: seq<map<int, T>>, stride: nat, c: int) returns (k: nat, id: int)
    requires 0 < |tables| <= stride && c in Interleaved(tables, stride)
    ensures k < |tables| && id in tables[k] && c == Cursor(id, k, stride)
    ensures Interleaved(tables, stride)[c] == (k, tables[k][id])
  {
    k, id := c % stride, c / stride;
  }

  /** The interleaved list holds every row of every table exactly once, with its kind, and nothing else. */
  lemma InterleavedIsUnion<T>(tables: seq<map<int, T>>, stride: nat)
    requires 0 < |tables| <= stride
    ensures forall k, id | 0 <= k < |tables| && id in tables[k] ::
              Cursor(id, k, stride) in Interleaved(tables, stride)
              && Interleaved(tables, stride)[Cursor(id, k, stride)] == (k, tables[k][id])
    ensures forall c | c in Interleaved(tables, stride) ::
              exists k, id :: 0 <= k < |tables| && id in tables[k] && c == Cursor(id, k, stride)
  {
    forall k, id | 0 <= k < |tables| && id in tables[k]
      ensures Cursor(id, k, stride) in Interleaved(tables, stride)
              && Interleaved(tables, stride)[Cursor(id, k, stride)] == (k, tables[k][id])
    {
      RowIsInterleaved(tables, stride, k, id);
    }
    forall c | c in Interleaved(tables, stride)
      ensures exists k, id :: 0 <= k < |tables| && id in tables[k] && c == Cursor(id, k, stride)
    {
      var k, id := InterleavedIsRow(tables, stride, c);
    }
  }

  // The export of an interleaved list

  /** The rows of a table that equal `row`, by cursor. */
  function Equal<T(==)>(table: map<int, T>, row: T): set<int> {
    set c | c in table && table[c] == row
  }

  function Among<T(==)>(table: map<int, T>, cursors: seq<int>, row: T): set<int> {
    set c | c in cursors && c in Equal(table, row)
  }

  lemma AmongAppend<T>(table: map<int, T>, front: seq<int>, last: int, row: T)
    requires last !in front && last in table
    ensures |Among(table, front + [last], row)| == |Among(table, front, row)| + if table[last] == row then 1 else 0
  {
    var before, after := Among(table, front, row), Among(table, front + [last], row);
    assert last !in before;
    assert after == if table[last] == row then before + {last} else before;
  }

  lemma {:induction false} RowsCount<T>(table: map<int, T>, cursors: seq<int>, row: T)
    requires Increasing(cursors) && forall i :: 0 <= i < |cursors| ==> cursors[i] in table
    ensures multiset(RowsAt(table, cursors))[row] == |Among(table, cursors, row)|
  {
    if cursors == [] {
      assert Among(table, cursors, row) == {};
    } else {
      var front, last := cursors[..|cursors| - 1], cursors[|cursors| - 1];
      RowsCount(table, front, row);
      assert cursors == front + [last];
      AmongAppend(table, front, last, row);
      RowsAtAppend(table, front, [last]);
      assert RowsAt(table, [last]) == [table[last]];
    }
  }

  /** The unpaged list holds each row as often as the table does. */
  lemma AllRowsCount<T>(table: map<int, T>, row: T)
    ensures multiset(AllRows(table))[row] == |Equal(table, row)|
  {
    AscendingIncreases(table.Keys);
    RowsCount(table, Ascending(table.Keys), row);
    assert Equal(table, row) == Among(table, Ascending(table.Keys), row);
  }

  function CursorsOf(ids: set<int>, k: nat, stride: nat): set<int> {
    set id | id in ids :: Cursor(id, k, stride)
  }

  lemma {:induction false} CursorsCount(ids: set<int>, k: nat, stride: nat)
    requires k < stride
    ensures |CursorsOf(ids, k, stride)| == |ids|
    decreases |ids|
  {
    if ids != {} {
      var id := Least(ids);
      var rest := ids - {id};
      CursorsCount(rest, k, stride);
      forall other | other in rest ensures Cursor(other, k, stride) != Cursor(id, k, stride) {
        CursorsAreExact(id, k, other, k, stride);
      }
      assert CursorsOf(ids, k, stride) == CursorsOf(rest, k, stride) + {Cursor(id, k, stride)};
    }
  }

  /** The interleaved list holds each row of each table, tagged with its table, as often as that table does. */
  lemma InterleavedCount<T>(tables: seq<map<int, T>>, stride: nat, k: nat, row: T)
    requires 0 < |tables| <= stride
    ensures |Equal(Interleaved(tables, stride), (k, row))| == if k < |tables| then |Equal(tables[k], row)| else 0
  {
    var all := Interleaved(tables, stride);
    var ids := if k < |tables| then Equal(tables[k], row) else {};
    forall c | c in Equal(all, (k, row)) ensures k < |tables| && c in CursorsOf(ids, k, stride) {
      var j, id := InterleavedIsRow(tables, stride, c);
      assert id in ids;
    }
    forall c | c in CursorsOf(ids, k, stride) ensures c in Equal(all, (k, row)) {
      var id :| id in ids && c == Cursor(id, k, stride);
      RowIsInterleaved(tables, stride, k, id);
    }
    assert Equal(all, (k, row)) == CursorsOf(ids, k, stride);
    if k < |tables| {
      CursorsCount(ids, k, stride);
    }
  }

  lemma {:induction false} KeepAll<T>(rows: seq<T>)
    ensures Filter(rows, (row: T) => true) == rows
  {
    if rows != [] {
      KeepAll(rows[..|rows| - 1]);
    }
  }

  lemma PositiveInterleaved<T>(tables: seq<map<int, T>>, stride: nat)
    requires 0 < |tables| <= stride && forall k :: 0 <= k < |tables| ==> Positive(tables[k])
    ensures Positive(Interleaved(tables, stride))
  {
    forall c | c in Interleaved(tables, stride) ensures c > 0 {
      var k, id := InterleavedIsRow(tables, stride, c);
      CursorsAreExact(id, k, id, k, stride);
    }
  }

  /** The resource export over the six resource tables: every row of every table exactly once, with its type. */
  method ExportResources<T(==, !new)>(tables: seq<map<int, T>>, limit: int) returns (output: seq<(nat, T)>)
    requires |tables| == 6 && (forall k :: 0 <= k < |tables| ==> Positive(tables[k])) && limit >= 1
    ensures forall k: nat, row ::
              multiset(output)[(k, row)] == if k < |tables| then |Equal(tables[k], row)| else 0
  {
    PositiveInterleaved(tables, RESOURCE_STRIDE);
    var all := Interleaved(tables, RESOURCE_STRIDE);
    output := StreamExport(all, (row: (nat, T)) => true, limit);
    KeepAll(AllRows(all));
    forall k: nat, row ensures multiset(output)[(k, row)] == if k < |tables| then |Equal(tables[k], row)| else 0 {
      AllRowsCount(all, (k, row));
      InterleavedCount(tables, RESOURCE_STRIDE, k, row);
    }
  }

  const LINK_STRIDE := 2
  const RESOURCE_STRIDE := 8

  datatype ResourceKind = Image | Script | Style | Iframe | Audio | Video

  function ResourceCode(r: ResourceKind): nat {
    match r case Image => 0 case Script => 1 case Style => 2 case Iframe => 3 case Audio => 4 case Video => 5
  }

  function ResourceAt(cursor: int): Option<ResourceKind> {
    match cursor % RESOURCE_STRIDE
    case 0 => Some(Image) case 1 => Some(Script) case 2 => Some(Style)
    case 3 => Some(Iframe) case 4 => Some(Audio) case 5 => Some(Video) case _ => None
  }

  /** A resource cursor determines the resource's kind and row, a link cursor whether the link is external. */
  lemma KindFromCursor(id: int, r: ResourceKind, external: bool)
    ensures ResourceAt(Cursor(id, ResourceCode(r), RESOURCE_STRIDE)) == Some(r)
    ensures Cursor(id, ResourceCode(r), RESOURCE_STRIDE)
            == id * 8 + (match r case Image => 0 case Script => 1 case Style => 2 case Iframe => 3 case Audio => 4 case Video => 5)
    ensures Cursor(id, ResourceCode(r), RESOURCE_STRIDE) / RESOURCE_STRIDE == id
    ensures Cursor(id, if external then 1 else 0, LINK_STRIDE) % LINK_STRIDE == if external then 1 else 0
  {
    CursorsAreExact(id, ResourceCode(r), id, ResourceCode(r), RESOURCE_STRIDE);
    CursorsAreExact(id, if external then 1 else 0, id, 0, LINK_STRIDE);
  }
}
