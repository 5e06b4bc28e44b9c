/**
 The API crawl rows and idempotency records. Each SQL statement or transaction
 is one function from table to table. The request hash is an injective function
 of the project id, so the project id stands for it.
 */
module CrawlTable {
  import opened Requests

  datatype CrawlState = Queued | Running | Succeeded | Failed | Canceled

  predicate Terminal(s: CrawlState) {
    s.Succeeded? || s.Failed? || s.Canceled?
  }

  datatype Row = Row(tenant: string, project: string, state: CrawlState, activeSlot: bool,
                     upstream: Option<int>, cancelRequested: bool, failure: string, urls: int, issues: int,
                     queuedAt: int, startedAt: Option<int>, finishedAt: Option<int>, updatedAt: int)

  datatype Key = Key(keyId: string, idempotencyKey: string)

  datatype Record = Record(tenant: string, project: string, crawl: string)

  /** `projects` are the (tenant, project) pairs; the API never deletes idempotency records. */
  datatype Table = Table(rows: map<string, Row>, records: map<Key, Record>, projects: set<(string, string)>)

  /** `project` is empty for a credential that is not bound to one. */
  datatype Principal = Principal(keyId: string, tenant: string, project: string)

  datatype Reply =
    | Reserved(crawl: string) | Replayed(crawl: string) | Missing
    | IdempotencyConflict | CrawlNotFound | ProjectNotFound | AlreadyActive | InvalidRecord
    | IdempotencyKeyRequired

  predicate Visible(t: Table, p: Principal, project: string, id: string) {
    && (p.project == "" || p.project == project)
    && id in t.rows && t.rows[id].tenant == p.tenant && t.rows[id].project == project
  }

  function FindReplay(t: Table, p: Principal, project: string, idempotencyKey: string): Reply {
    var k := Key(p.keyId, idempotencyKey);
    if p.keyId == "" || p.tenant == "" || project == "" then CrawlNotFound
    else if k !in t.records || t.records[k].tenant != p.tenant then Missing
    else if t.records[k].project != project then IdempotencyConflict
    else if !Visible(t, p, project, t.records[k].crawl) then CrawlNotFound
    else Replayed(t.records[k].crawl)
  }

  /** Rows of a project that occupy its unique active slot. */
  predicate HasActive(t: Table, project: string) {
    exists id :: id in t.rows && t.rows[id].project == project && t.rows[id].activeSlot
  }

  function ReserveReply(t: Table, p: Principal, project: string, idempotencyKey: string, id: string): Reply {
    var k := Key(p.keyId, idempotencyKey);
    if p.keyId == "" || p.tenant == "" then CrawlNotFound
    else if k in t.records then
      if t.records[k].project != project then IdempotencyConflict
      else if !Visible(t, p, project, t.records[k].crawl) then CrawlNotFound
      else Replayed(t.records[k].crawl)
    else if (p.tenant, project) !in t.projects then ProjectNotFound
    else if id in t.rows || HasActive(t, project) then AlreadyActive
    else if idempotencyKey == "" || project == "" || id == "" then InvalidRecord
    else Reserved(id)
  }

  function Reserve(t: Table, p: Principal, project: string, idempotencyKey: string, id: string, now: int): Table {
    if ReserveReply(t, p, project, idempotencyKey, id).Reserved? then
      t.(rows := t.rows[id := Row(p.tenant, project, Queued, true, None, false, "", 0, 0, now, None, None, now)],
         records := t.records[Key(p.keyId, idempotencyKey) := Record(p.tenant, project, id)])
    else t
  }

  predicate MarksRow(t: Table, tenant: string, id: string) {
    id in t.rows && t.rows[id].tenant == tenant && t.rows[id].state == Queued && t.rows[id].activeSlot
  }

  function MarkRunning(t: Table, tenant: string, id: string, upstream: int, at: int): Table {
    if MarksRow(t, tenant, id) then
      t.(rows := t.rows[id := t.rows[id].(upstream := Some(upstream), state := Running, startedAt := Some(at), updatedAt := at)])
    else t
  }

  /** Whether MarkCrawlRunning returns nil: it updated the row, or found it running or terminal. */
  predicate MarkSucceeds(t: Table, tenant: string, id: string) {
    || MarksRow(t, tenant, id)
    || (id in t.rows && t.rows[id].tenant == tenant && (t.rows[id].state.Running? || Terminal(t.rows[id].state)))
  }

  datatype Completion = Completion(state: CrawlState, failure: string, urls: int, issues: int, at: int)

  predicate CompletesRow(t: Table, tenant: string, id: string, c: Completion) {
    && Terminal(c.state)
    && id in t.rows && t.rows[id].tenant == tenant && !Terminal(t.rows[id].state) && t.rows[id].activeSlot
  }

  function Complete(t: Table, tenant: string, id: string, c: Completion): Table {
    if CompletesRow(t, tenant, id, c) then
      t.(rows := t.rows[id := t.rows[id].(state := c.state, activeSlot := false, failure := c.failure, urls := c.urls,
                                          issues := c.issues, finishedAt := Some(c.at), updatedAt := c.at)])
    else t
  }

  predicate CompleteSucceeds(t: Table, tenant: string, id: string, c: Completion) {
    && Terminal(c.state)
    && (|| CompletesRow(t, tenant, id, c)
        || (id in t.rows && t.rows[id].tenant == tenant && Terminal(t.rows[id].state)))
  }

  predicate CancelSucceeds(t: Table, p: Principal, project: string, id: string) {
    p.tenant != "" && p.project == "" && Visible(t, p, project, id)
  }

  function RequestCancel(t: Table, p: Principal, project: string, id: string, at: int): Table {
    if CancelSucceeds(t, p, project, id) && !Terminal(t.rows[id].state) && !t.rows[id].cancelRequested then
      t.(rows := t.rows[id := t.rows[id].(cancelRequested := true, updatedAt := at)])
    else t
  }

  function RecoveredRow(r: Row, at: int): Row {
    if Terminal(r.state) then r
    else r.(state := Failed, activeSlot := false, finishedAt := Some(at), failure := "worker_restarted", updatedAt := at)
  }

  function RecoverInterrupted(t: Table, at: int): Table {
    t.(rows := map id | id in t.rows :: RecoveredRow(t.rows[id], at))
  }

  // Invariants of one table

  predicate RowInv(r: Row) {
    && (r.activeSlot <==> !Terminal(r.state))
    && (r.state.Queued? ==> r.upstream.None?)
  }

  predicate RowsInv(t: Table) {
    forall id :: id in t.rows ==> RowInv(t.rows[id])
  }

  /** Each project has at most one active crawl. */
  predicate OneActive(t: Table) {
    forall i, j | i in t.rows && j in t.rows && t.rows[i].activeSlot && t.rows[j].activeSlot ::
      t.rows[i].project == t.rows[j].project ==> i == j
  }

  predicate RecordFits(t: Table, r: Record) {
    r.crawl in t.rows && t.rows[r.crawl].tenant == r.tenant && t.rows[r.crawl].project == r.project
  }

  /** Each record names a crawl of its tenant and project, and no two records name the same crawl. */
  predicate RecordsInv(t: Table) {
    && (forall k :: k in t.records ==> RecordFits(t, t.records[k]))
    && (forall k, l :: k in t.records && l in t.records && t.records[k].crawl == t.records[l].crawl ==> k == l)
  }

  predicate TableInv(t: Table) {
    RowsInv(t) && OneActive(t) && RecordsInv(t)
  }

  // What every statement keeps of the table before it

  function Rank(s: CrawlState): nat {
    match s case Queued => 0 case Running => 1 case _ => 2
  }

  /** A row only moves forward, its upstream id is written once, and a terminal row is frozen in every column. */
  predicate RowStep(r: Row, r': Row) {
    && r'.tenant == r.tenant && r'.project == r.project && r'.queuedAt == r.queuedAt
    && Rank(r.state) <= Rank(r'.state)
    && (r.upstream.Some? ==> r'.upstream == r.upstream)
    && (r.cancelRequested ==> r'.cancelRequested)
    && (Terminal(r.state) ==> r' == r)
  }

  predicate TableStep(t: Table, t': Table) {
    && t'.projects == t.projects
    && (forall id :: id in t.rows ==> id in t'.rows && RowStep(t.rows[id], t'.rows[id]))
    && (forall k :: k in t.records ==> k in t'.records && t'.records[k] == t.records[k])
  }

  lemma TableStepTransitive(a: Table, b: Table, c: Table)
    requires TableStep(a, b) && TableStep(b, c)
    ensures TableStep(a, c)
  {
  }

  lemma ReserveKeeps(t: Table, p: Principal, project: string, idempotencyKey: string, id: string, now: int)
    requires TableInv(t)
    ensures var t' := Reserve(t, p, project, idempotencyKey, id, now);
            TableInv(t') && TableStep(t, t')
  {
  }

  /** An update of one row that keeps it in or takes it out of the active slot. */
  lemma UpdateKeeps(t: Table, id: string, r: Row)
    requires TableInv(t) && id in t.rows && RowStep(t.rows[id], r) && RowInv(r)
    ensures var t' := t.(rows := t.rows[id := r]);
            TableInv(t') && TableStep(t, t')
  {
  }

  lemma MarkKeeps(t: Table, tenant: string, id: string, upstream: int, at: int)
    requires TableInv(t)
    ensures var t' := MarkRunning(t, tenant, id, upstream, at);
            TableInv(t') && TableStep(t, t')
  {
    if MarksRow(t, tenant, id) {
      UpdateKeeps(t, id, MarkRunning(t, tenant, id, upstream, at).rows[id]);
    }
  }

  lemma CompleteKeeps(t: Table, tenant: string, id: string, c: Completion)
    requires TableInv(t)
    ensures var t' := Complete(t, tenant, id, c);
            TableInv(t') && TableStep(t, t')
  {
    if CompletesRow(t, tenant, id, c) {
      UpdateKeeps(t, id, Complete(t, tenant, id, c).rows[id]);
    }
  }

  lemma CancelKeeps(t: Table, p: Principal, project: string, id: string, at: int)
    requires TableInv(t)
    ensures var t' := RequestCancel(t, p, project, id, at);
            TableInv(t') && TableStep(t, t')
  {
    if RequestCancel(t, p, project, id, at) != t {
      UpdateKeeps(t, id, RequestCancel(t, p, project, id, at).rows[id]);
    }
  }

  lemma RecoverKeeps(t: Table, at: int)
    requires TableInv(t)
    ensures var t' := RecoverInterrupted(t, at);
            && TableInv(t') && TableStep(t, t')
            && forall id :: id in t'.rows ==> Terminal(t'.rows[id].state) && !t'.rows[id].activeSlot
  {
  }

  /** What recovery makes of each row: queued and running crawls have failed, the others are as they were. */
  lemma RecoveryFailsTheRest(t: Table, at: int, id: string)
    requires id in t.rows
    ensures id in RecoverInterrupted(t, at).rows
    ensures var r, r' := t.rows[id], RecoverInterrupted(t, at).rows[id];
            if r.state.Queued? || r.state.Running?
            then r' == r.(state := Failed, failure := "worker_restarted", activeSlot := false, finishedAt := Some(at), updatedAt := at)
            else r' == r
  {
  }

  // The answers of the two look-ups, in terms of what the tables hold

  predicate Unfinished(r: Row) {
    r.state.Queued? || r.state.Running?
  }

  /** The project's unique slot is taken exactly while one of its crawls is queued or running. */
  lemma SlotTakenIffUnfinished(t: Table, project: string)
    requires RowsInv(t)
    ensures HasActive(t, project) <==> exists id :: id in t.rows && t.rows[id].project == project && Unfinished(t.rows[id])
  {
    forall id | id in t.rows ensures t.rows[id].activeSlot <==> Unfinished(t.rows[id]) {
      assert RowInv(t.rows[id]);
    }
  }

  /** The caller may see a crawl of its own tenant, of any project or of the one it is bound to. */
  predicate MaySee(p: Principal, tenant: string, project: string) {
    p.tenant == tenant && (p.project == "" || p.project == project)
  }

  /** When the replay look-up answers what, for a caller with a key and a tenant. */
  lemma ReplayDecides(t: Table, p: Principal, project: string, idempotencyKey: string)
    requires TableInv(t) && p.keyId != "" && p.tenant != "" && project != ""
    ensures var r, k := FindReplay(t, p, project, idempotencyKey), Key(p.keyId, idempotencyKey);
            && (r.Missing? <==> k !in t.records || t.records[k].tenant != p.tenant)
            && (r.IdempotencyConflict? <==> k in t.records && t.records[k].tenant == p.tenant && t.records[k].project != project)
            && (r.Replayed? <==> k in t.records && t.records[k].project == project && MaySee(p, t.records[k].tenant, project))
            && (r.Replayed? ==> r.crawl == t.records[k].crawl && r.crawl in t.rows && t.rows[r.crawl].tenant == p.tenant
                                && t.rows[r.crawl].project == project)
  {
    var k := Key(p.keyId, idempotencyKey);
    if k in t.records {
      assert RecordFits(t, t.records[k]);
    }
  }

  /** When the reserving transaction answers what, and what it then stores. */
  lemma ReserveDecides(t: Table, p: Principal, project: string, idempotencyKey: string, id: string, now: int)
    requires TableInv(t) && p.keyId != "" && p.tenant != "" && project != "" && idempotencyKey != "" && id != ""
    ensures var r, k := ReserveReply(t, p, project, idempotencyKey, id), Key(p.keyId, idempotencyKey);
            var t' := Reserve(t, p, project, idempotencyKey, id, now);
            var taken := id in t.rows || exists i :: i in t.rows && t.rows[i].project == project && Unfinished(t.rows[i]);
            && (r.IdempotencyConflict? <==> k in t.records && t.records[k].project != project)
            && (r.Replayed? <==> k in t.records && t.records[k].project == project && MaySee(p, t.records[k].tenant, project))
            && (r.Replayed? ==> r.crawl == t.records[k].crawl)
            && (r.ProjectNotFound? <==> k !in t.records && (p.tenant, project) !in t.projects)
            && (r.AlreadyActive? <==> k !in t.records && (p.tenant, project) in t.projects && taken)
            && (r.Reserved? <==> k !in t.records && (p.tenant, project) in t.projects && !taken)
            && (if r.Reserved? then
                  && r.crawl == id
                  && t'.rows == t.rows[id := Row(p.tenant, project, Queued, true, None, false, "", 0, 0, now, None, None, now)]
                  && t'.records == t.records[k := Record(p.tenant, project, id)]
                else t' == t)
  {
    var k := Key(p.keyId, idempotencyKey);
    SlotTakenIffUnfinished(t, project);
    if k in t.records {
      assert RecordFits(t, t.records[k]);
    }
  }

  /** A caller without key or tenant finds nothing and stores nothing, and no record is stored with an empty field. */
  lemma EmptyFieldsStoreNothing(t: Table, p: Principal, project: string, idempotencyKey: string, id: string, now: int)
    ensures p.keyId == "" || p.tenant == "" ==>
              && FindReplay(t, p, project, idempotencyKey) == CrawlNotFound
              && ReserveReply(t, p, project, idempotencyKey, id) == CrawlNotFound
    ensures project == "" ==> FindReplay(t, p, project, idempotencyKey) == CrawlNotFound
    ensures p.keyId == "" || p.tenant == "" || project == "" || idempotencyKey == "" || id == "" ==>
              Reserve(t, p, project, idempotencyKey, id, now) == t
  {
  }

  /** A completion that names no final state is refused and changes nothing. */
  lemma OnlyFinalStatesComplete(t: Table, tenant: string, id: string, c: Completion)
    requires c.state.Queued? || c.state.Running?
    ensures !CompleteSucceeds(t, tenant, id, c) && Complete(t, tenant, id, c) == t
  {
  }

  /** A cancel changes only an unfinished crawl of the caller's tenant, and only for a credential that is not bound to a project. */
  lemma CancelIsScoped(t: Table, p: Principal, project: string, id: string, at: int)
    ensures var t' := RequestCancel(t, p, project, id, at);
            if && p.tenant != "" && p.project == "" && id in t.rows && t.rows[id].tenant == p.tenant && t.rows[id].project == project
               && !t.rows[id].state.Succeeded? && !t.rows[id].state.Failed? && !t.rows[id].state.Canceled?
               && !t.rows[id].cancelRequested
            then t' == t.(rows := t.rows[id := t.rows[id].(cancelRequested := true, updatedAt := at)])
            else t' == t
  {
  }

  /** A late MarkCrawlRunning reports success on a terminal row and changes nothing. */
  lemma LateMarkIsHarmless(t: Table, tenant: string, id: string, upstream: int, at: int)
    requires id in t.rows && t.rows[id].tenant == tenant && Terminal(t.rows[id].state)
    ensures MarkRunning(t, tenant, id, upstream, at) == t && MarkSucceeds(t, tenant, id)
  {
  }

  /**
   MarkCrawlRunning and CompleteCrawl read the state in a second statement when
   their update matched no row; whatever runs in between, they reach the same verdict.
   */
  lemma FollowUpReadIsStable(t: Table, later: Table, tenant: string, id: string, c: Completion)
    requires TableInv(t) && TableStep(t, later) && id in t.rows && t.rows[id].tenant == tenant && Terminal(c.state)
    ensures !MarksRow(t, tenant, id) ==> MarkSucceeds(t, tenant, id) && (later.rows[id].state.Running? || Terminal(later.rows[id].state))
    ensures !CompletesRow(t, tenant, id, c) ==> CompleteSucceeds(t, tenant, id, c) && Terminal(later.rows[id].state)
  {
    assert RowInv(t.rows[id]) && RowStep(t.rows[id], later.rows[id]);
  }

  /** Reuse of an idempotency key for another project is refused, and no statement of the start changes the table. */
  lemma ReuseIsRefused(t: Table, p: Principal, project: string, idempotencyKey: string, id: string, now: int)
    requires p.keyId != "" && p.tenant != "" && project != ""
    requires Key(p.keyId, idempotencyKey) in t.records
    requires t.records[Key(p.keyId, idempotencyKey)].tenant == p.tenant
    requires t.records[Key(p.keyId, idempotencyKey)].project != project
    ensures FindReplay(t, p, project, idempotencyKey) == IdempotencyConflict
    ensures ReserveReply(t, p, project, idempotencyKey, id) == IdempotencyConflict
    ensures Reserve(t, p, project, idempotencyKey, id, now) == t
  {
  }

  /** The repository object. Faults and the clock are the caller's, see the lifecycle protocol. */
  class APICrawlRepository {
    var rows: map<string, Row>
    var records: map<Key, Record>
    const projects: set<(string, string)>

    constructor (projects: set<(string, string)>)
      ensures View() == Table(map[], map[], projects)
    {
      this.projects := projects;
      rows, records := map[], map[];
    }

    function View(): Table
      reads this
    {
      Table(rows, records, projects)
    }

    method ReserveCrawl(p: Principal, project: string, idempotencyKey: string, id: string, now: int) returns (r: Reply)
      modifies this
      ensures r == ReserveReply(old(View()), p, project, idempotencyKey, id)
      ensures View() == Reserve(old(View()), p, project, idempotencyKey, id, now)
    {
      if p.keyId == "" || p.tenant == "" {
        return CrawlNotFound;
      }
      var k := Key(p.keyId, idempotencyKey);
      if k in records {
        if records[k].project != project {
          return IdempotencyConflict;
        }
        if !Visible(View(), p, project, records[k].crawl) {
          return CrawlNotFound;
        }
        return Replayed(records[k].crawl);
      }
      if (p.tenant, project) !in projects {
        return ProjectNotFound;
      }
      if id in rows || HasActive(View(), project) {
        return AlreadyActive;
      }
      if idempotencyKey == "" || project == "" || id == "" {
        return InvalidRecord;
      }
      rows := rows[id := Row(p.tenant, project, Queued, true, None, false, "", 0, 0, now, None, None, now)];
      records := records[k := Record(p.tenant, project, id)];
      r := Reserved(id);
    }

    method MarkCrawlRunning(tenant: string, id: string, upstream: int, startedAt: int) returns (ok: bool)
      modifies this
      ensures View() == MarkRunning(old(View()), tenant, id, upstream, startedAt)
      ensures ok == MarkSucceeds(old(View()), tenant, id)
    {
      if id in rows && rows[id].tenant == tenant && rows[id].state == Queued && rows[id].activeSlot {
        rows := rows[id := rows[id].(upstream := Some(upstream), state := Running,
                                     startedAt := Some(startedAt), updatedAt := startedAt)];
        return true;
      }
      ok := id in rows && rows[id].tenant == tenant && (rows[id].state.Running? || Terminal(rows[id].state));
    }

    method CompleteCrawl(tenant: string, id: string, c: Completion) returns (ok: bool)
      modifies this
      ensures View() == Complete(old(View()), tenant, id, c)
      ensures ok == CompleteSucceeds(old(View()), tenant, id, c)
    {
      if !Terminal(c.state) {
        return false;
      }
      if id in rows && rows[id].tenant == tenant && !Terminal(rows[id].state) && rows[id].activeSlot {
        rows := rows[id := rows[id].(state := c.state, activeSlot := false, failure := c.failure, urls := c.urls,
                                     issues := c.issues, finishedAt := Some(c.at), updatedAt := c.at)];
        return true;
      }
      ok := id in rows && rows[id].tenant == tenant && Terminal(rows[id].state);
    }

    method RequestCancelCrawl(p: Principal, project: string, id: string, at: int) returns (r: Option<Row>)
      modifies this
      ensures View() == RequestCancel(old(View()), p, project, id, at)
      ensures r.Some? <==> CancelSucceeds(old(View()), p, project, id)
      ensures r.Some? ==> r.value == (if Terminal(old(rows)[id].state) then old(rows)[id]
                                      else old(rows)[id].(cancelRequested := true))
    {
      if p.tenant == "" || p.project != "" || !Visible(View(), p, project, id) {
        return None;
      }
      var crawl := rows[id];
      if Terminal(crawl.state) || crawl.cancelRequested {
        return Some(crawl);
      }
      rows := rows[id := crawl.(cancelRequested := true, updatedAt := at)];
      r := Some(crawl.(cancelRequested := true));
    }
  }
}
