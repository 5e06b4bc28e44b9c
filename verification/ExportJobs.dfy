/**
 Archive export jobs: the job rows, the partial-then-publish archive files, and
 the goroutines that finalize, fail and purge them, interleaved step by step.
 There is one job per crawl, so jobs are keyed by crawl id.
 */
module ExportJobs {
  import opened Arith
  import opened LexOrder
  import opened Requests
  import opened Strings

  // Paths. Crawl ids are generated and contain no separator.

  predicate ValidId(crawl: string) {
    crawl != "" && '/' !in crawl
  }

  function CrawlDir(root: string, crawl: string): string {
    root + "/api/" + crawl + "/"
  }

  function ArchivePath(root: string, crawl: string, host: string): string {
    CrawlDir(root, crawl) + host + ".wacz"
  }

  function PartialPath(root: string, crawl: string, host: string): string {
    ArchivePath(root, crawl, host) + ".partial"
  }

  /** A published path is never a partial one, and it names its crawl. */
  lemma PathsAreExact(root: string, crawl: string, host: string, crawl': string, host': string)
    requires ValidId(crawl) && ValidId(crawl')
    ensures !HasSuffix(ArchivePath(root, crawl, host), ".partial")
    ensures ArchivePath(root, crawl, host) != PartialPath(root, crawl', host')
    ensures ArchivePath(root, crawl, host) == ArchivePath(root, crawl', host') ==> crawl == crawl'
  {
    var p, p' := ArchivePath(root, crawl, host), ArchivePath(root, crawl', host');
    var q := PartialPath(root, crawl', host');
    assert p[|p| - 1] == 'z' && q[|q| - 1] == 'l';
    if p == p' {
      var n := |root + "/api/"|;
      assert p[n..] == crawl + "/" + (host + ".wacz") && p'[n..] == crawl' + "/" + (host' + ".wacz");
      CutAt(crawl, host + ".wacz", crawl', host' + ".wacz", '/');
    }
  }

  // Job rows

  datatype JobState = Pending | Ready | Failed

  datatype Job = Job(id: string, state: JobState, path: string, size: nat, failure: string,
                     createdAt: int, expiresAt: int, finishedAt: Option<int>)

  type Jobs = map<string, Job>

  const WEEK := 7 * 24 * 3600 * 1_000_000_000

  /** Inserts a pending job, or leaves the existing one. */
  function Reserve(jobs: Jobs, crawl: string, newId: string, now: int): Jobs {
    if crawl in jobs then jobs
    else jobs[crawl := Job(newId, Pending, "", 0, "", now, now + WEEK, None)]
  }

  predicate IsPending(jobs: Jobs, crawl: string) {
    crawl in jobs && jobs[crawl].state == Pending
  }

  function CompleteJob(jobs: Jobs, crawl: string, path: string, size: nat, now: int): Jobs {
    if IsPending(jobs, crawl)
    then jobs[crawl := jobs[crawl].(state := Ready, path := path, size := size, failure := "", finishedAt := Some(now))]
    else jobs
  }

  function FailJob(jobs: Jobs, crawl: string, code: string, now: int): Jobs {
    if IsPending(jobs, crawl)
    then jobs[crawl := jobs[crawl].(state := Failed, path := "", size := 0, failure := code, finishedAt := Some(now))]
    else jobs
  }

  predicate Expired(j: Job, before: int) {
    j.expiresAt <= before
  }

  function DeleteExpired(jobs: Jobs, crawl: string, id: string, before: int): Jobs {
    if crawl in jobs && jobs[crawl].id == id && Expired(jobs[crawl], before) then jobs - {crawl} else jobs
  }

  /** A job moves from pending to ready or failed only, is then frozen, and vanishes only after it expired. */
  predicate JobStep(jobs: Jobs, jobs': Jobs, now: int) {
    && (forall c :: c in jobs && c in jobs' ==>
          || jobs'[c] == jobs[c]
          || (&& jobs[c].state == Pending && jobs'[c].state != Pending
              && jobs'[c].id == jobs[c].id && jobs'[c].expiresAt == jobs[c].expiresAt))
    && (forall c :: c in jobs && c !in jobs' ==> jobs[c].expiresAt <= now)
    && (forall c :: c in jobs' && c !in jobs ==>
          && jobs'[c].state == Pending && jobs'[c].createdAt == now
          && jobs'[c].expiresAt == now + 7 * 24 * 60 * 60 * 1_000_000_000)
  }

  // The interleaved goroutines

  /** Where one finalizeArchive is; Sized holds the path it found. */
  datatype Pc = Locating | Found(path: string) | Sized(path: string, size: nat) | GivingUp(code: string) | Ended

  /** A finalizer of one crawl, for the host of the project's URL. */
  datatype Finalizer = Finalizer(crawl: string, host: string, jobId: string, pc: Pc)

  /** `started` and `published` collect every path a writer ever opened and a rename ever published. */
  datatype System = System(root: string, jobs: Jobs, files: set<string>, started: set<string>, published: set<string>,
                           finalizers: seq<Finalizer>, inflight: set<string>, clock: int)

  /**
   Begin acts on an earlier read of the job row, which others may have settled,
   deleted or replaced since: it looks only at the id that was read. A purge
   likewise removes files for a job it listed earlier.
   */
  datatype Step =
    | Tick(now: int)
    | OpenWriter(crawl: string, host: string)
    | Publish(crawl: string, host: string)
    | ReserveJob(crawl: string, newId: string)
    | FailUnarchived(crawl: string)
    | Begin(crawl: string, host: string, jobId: string)
    | Locate(k: nat)
    | Stat(k: nat, size: nat)
    | Complete(k: nat, lost: bool, unsure: bool)
    | Fail(k: nat, lost: bool)
    | RemoveFiles(crawl: string)
    | DeleteRow(crawl: string, id: string, before: int)

  predicate Enabled(sys: System, step: Step) {
    match step
    case Tick(now) => now >= sys.clock
    case OpenWriter(crawl, host) => ValidId(crawl)
    case Publish(crawl, host) => ValidId(crawl) && PartialPath(sys.root, crawl, host) in sys.files
    case ReserveJob(crawl, _) => ValidId(crawl)
    case FailUnarchived(crawl) => true
    case Begin(crawl, _, jobId) => ValidId(crawl) && jobId !in sys.inflight
    case Locate(k) => k < |sys.finalizers| && sys.finalizers[k].pc.Locating?
    case Stat(k, _) => k < |sys.finalizers| && sys.finalizers[k].pc.Found?
    case Complete(k, _, _) => k < |sys.finalizers| && sys.finalizers[k].pc.Sized?
    case Fail(k, _) => k < |sys.finalizers| && sys.finalizers[k].pc.GivingUp?
    case RemoveFiles(crawl) => ValidId(crawl)
    case DeleteRow(_, _, before) => before <= sys.clock
  }

  function Move(sys: System, k: nat, pc: Pc): System
    requires k < |sys.finalizers|
  {
    var f := sys.finalizers[k];
    sys.(finalizers := sys.finalizers[k := f.(pc := pc)],
         inflight := if pc.Ended? then sys.inflight - {f.jobId} else sys.inflight)
  }

  function Apply(sys: System, step: Step): System
    requires Enabled(sys, step)
  {
    match step
    case Tick(now) => sys.(clock := now)
    case OpenWriter(crawl, host) =>
      var path := PartialPath(sys.root, crawl, host);
      sys.(files := sys.files + {path}, started := sys.started + {path})
    case Publish(crawl, host) =>
      var path := ArchivePath(sys.root, crawl, host);
      sys.(files := sys.files - {PartialPath(sys.root, crawl, host)} + {path}, published := sys.published + {path})
    case ReserveJob(crawl, newId) => sys.(jobs := Reserve(sys.jobs, crawl, newId, sys.clock))
    case FailUnarchived(crawl) => sys.(jobs := FailJob(sys.jobs, crawl, "archive_not_available", sys.clock))
    case Begin(crawl, host, jobId) =>
      sys.(finalizers := sys.finalizers + [Finalizer(crawl, host, jobId, Locating)], inflight := sys.inflight + {jobId})
    case Locate(k) =>
      var f := sys.finalizers[k];
      var path := ArchivePath(sys.root, f.crawl, f.host);
      Move(sys, k, if path in sys.files then Found(path) else GivingUp("archive_not_available"))
    case Stat(k, size) =>
      var path := sys.finalizers[k].pc.path;
      Move(sys, k, if path in sys.files then Sized(path, size) else GivingUp("archive_read_failed"))
    case Complete(k, lost, unsure) =>
      var f := sys.finalizers[k];
      var done := IsPending(sys.jobs, f.crawl);
      var sys' := Move(sys, k, if !lost && !unsure && done then Ended else GivingUp("archive_state_failed"));
      if lost then sys' else sys'.(jobs := CompleteJob(sys.jobs, f.crawl, f.pc.path, f.pc.size, sys.clock))
    case Fail(k, lost) =>
      var f := sys.finalizers[k];
      var sys' := Move(sys, k, Ended);
      if lost then sys' else sys'.(jobs := FailJob(sys.jobs, f.crawl, f.pc.code, sys.clock))
    case RemoveFiles(crawl) => sys.(files := set f | f in sys.files && !(CrawlDir(sys.root, crawl) <= f))
    case DeleteRow(crawl, id, before) => sys.(jobs := DeleteExpired(sys.jobs, crawl, id, before))
  }

  function Init(root: string): System {
    System(root, map[], {}, {}, {}, [], {}, 0)
  }

  predicate Feasible(root: string, steps: seq<Step>)
    decreases |steps|, 0
  {
    steps != [] ==>
      var before := steps[..|steps| - 1];
      Feasible(root, before) && Enabled(After(root, before), steps[|steps| - 1])
  }

  function After(root: string, steps: seq<Step>): System
    requires Feasible(root, steps)
    decreases |steps|, 1
  {
    if steps == [] then Init(root) else Apply(After(root, steps[..|steps| - 1]), steps[|steps| - 1])
  }

  // Safety

  ghost predicate PublishedFor(root: string, published: set<string>, crawl: string, path: string) {
    && ValidId(crawl)
    && path in published
    && exists host :: path == ArchivePath(root, crawl, host)
  }

  ghost predicate FinalizerInv(root: string, published: set<string>, f: Finalizer) {
    && ValidId(f.crawl)
    && (f.pc.Found? || f.pc.Sized? ==>
          f.pc.path in published && f.pc.path == ArchivePath(root, f.crawl, f.host))
  }

  predicate Partial(root: string, f: string) {
    HasSuffix(f, ".partial")
  }

  ghost predicate Inv(sys: System) {
    && (forall f :: f in sys.files ==> f in sys.published || (Partial(sys.root, f) && f in sys.started))
    && (forall f :: f in sys.published ==> !Partial(sys.root, f) && f + ".partial" in sys.started)
    && (forall k :: 0 <= k < |sys.finalizers| ==> FinalizerInv(sys.root, sys.published, sys.finalizers[k]))
    && (forall c :: c in sys.jobs && sys.jobs[c].state == Ready ==> PublishedFor(sys.root, sys.published, c, sys.jobs[c].path))
  }

  lemma StepKeepsJobs(sys: System, step: Step)
    requires Enabled(sys, step)
    ensures JobStep(sys.jobs, Apply(sys, step).jobs, Apply(sys, step).clock)
  {
  }

  lemma LocateKeeps(sys: System, k: nat)
    requires Inv(sys) && Enabled(sys, Locate(k))
    ensures Inv(Apply(sys, Locate(k)))
  {
    var f := sys.finalizers[k];
    var path := ArchivePath(sys.root, f.crawl, f.host);
    assert FinalizerInv(sys.root, sys.published, f);
    PathsAreExact(sys.root, f.crawl, f.host, f.crawl, f.host);
    if path in sys.files {
      assert PublishedFor(sys.root, sys.published, f.crawl, path);
    }
  }

  lemma PublishKeeps(sys: System, crawl: string, host: string)
    requires Inv(sys) && Enabled(sys, Publish(crawl, host))
    ensures Inv(Apply(sys, Publish(crawl, host)))
  {
    PathsAreExact(sys.root, crawl, host, crawl, host);
    var path, partial := ArchivePath(sys.root, crawl, host), PartialPath(sys.root, crawl, host);
    assert Partial(sys.root, partial) by {
      assert partial[|partial| - 8..] == ".partial";
    }
    assert partial in sys.started;
  }

  lemma CompleteKeeps(sys: System, k: nat, lost: bool, unsure: bool)
    requires Inv(sys) && Enabled(sys, Complete(k, lost, unsure))
    ensures Inv(Apply(sys, Complete(k, lost, unsure)))
  {
    assert FinalizerInv(sys.root, sys.published, sys.finalizers[k]);
  }

  lemma InvKept(sys: System, step: Step)
    requires Inv(sys) && Enabled(sys, step)
    ensures Inv(Apply(sys, step))
  {
    match step
    case Locate(k) => LocateKeeps(sys, k);
    case Publish(crawl, host) => PublishKeeps(sys, crawl, host);
    case Complete(k, lost, unsure) => CompleteKeeps(sys, k, lost, unsure);
    case OpenWriter(crawl, host) => assert Partial(sys.root, PartialPath(sys.root, crawl, host));
    case _ =>
  }

  lemma {:induction false} EveryStateIsSafe(root: string, steps: seq<Step>)
    requires Feasible(root, steps)
    ensures Inv(After(root, steps))
  {
    if steps != [] {
      EveryStateIsSafe(root, steps[..|steps| - 1]);
      InvKept(After(root, steps[..|steps| - 1]), steps[|steps| - 1]);
    }
  }

  /**
   In every state of every run, a ready job names a file that was published for
   its own crawl by a completed rename; the name is never a partial file's.
   */
  lemma ReadyNamesPublishedFile(root: string, steps: seq<Step>, crawl: string, other: string, host: string)
    requires Feasible(root, steps) && crawl in After(root, steps).jobs && After(root, steps).jobs[crawl].state == Ready
    ensures var path := After(root, steps).jobs[crawl].path;
            && path in After(root, steps).published && path + ".partial" in After(root, steps).started
            && !HasSuffix(path, ".partial")
            && (ValidId(other) && path == ArchivePath(root, other, host) ==> other == crawl)
  {
    EveryStateIsSafe(root, steps);
    RootIsFixed(root, steps);
    var path := After(root, steps).jobs[crawl].path;
    var h :| path == ArchivePath(root, crawl, h);
    PathsAreExact(root, crawl, h, crawl, h);
    if ValidId(other) {
      PathsAreExact(root, crawl, h, other, host);
    }
  }

  lemma {:induction false} RootIsFixed(root: string, steps: seq<Step>)
    requires Feasible(root, steps)
    ensures After(root, steps).root == root
  {
    if steps != [] {
      RootIsFixed(root, steps[..|steps| - 1]);
    }
  }

  // The finalizers

  predicate Works(f: Finalizer) {
    !f.pc.Ended?
  }

  /** `inflight` holds the job ids of the working finalizers, and no two of them work on one job. */
  ghost predicate InflightInv(sys: System) {
    && (forall k :: 0 <= k < |sys.finalizers| && Works(sys.finalizers[k]) ==> sys.finalizers[k].jobId in sys.inflight)
    && (forall i, j :: 0 <= i < j < |sys.finalizers| && Works(sys.finalizers[i]) && Works(sys.finalizers[j]) ==>
          sys.finalizers[i].jobId != sys.finalizers[j].jobId)
    && (forall id :: id in sys.inflight ==> Working(sys, id))
  }

  predicate Working(sys: System, id: string) {
    exists k :: 0 <= k < |sys.finalizers| && Works(sys.finalizers[k]) && sys.finalizers[k].jobId == id
  }

  lemma MoveKeepsInflight(sys: System, k: nat, pc: Pc)
    requires InflightInv(sys) && k < |sys.finalizers| && Works(sys.finalizers[k])
    ensures InflightInv(Move(sys, k, pc))
  {
    var sys' := Move(sys, k, pc);
    forall id | id in sys'.inflight ensures Working(sys', id) {
      var j :| 0 <= j < |sys.finalizers| && Works(sys.finalizers[j]) && sys.finalizers[j].jobId == id;
      assert sys'.finalizers[j].jobId == id;
    }
  }

  lemma BeginKeepsInflight(sys: System, crawl: string, host: string, jobId: string)
    requires InflightInv(sys) && Enabled(sys, Begin(crawl, host, jobId))
    ensures InflightInv(Apply(sys, Begin(crawl, host, jobId)))
  {
    var sys' := Apply(sys, Begin(crawl, host, jobId));
    var n := |sys.finalizers|;
    forall id | id in sys'.inflight ensures Working(sys', id) {
      if id == jobId {
        assert sys'.finalizers[n].jobId == id;
      } else {
        var j :| 0 <= j < n && Works(sys.finalizers[j]) && sys.finalizers[j].jobId == id;
        assert sys'.finalizers[j] == sys.finalizers[j];
      }
    }
  }

  lemma SameFinalizersKeepInflight(sys: System, sys': System)
    requires InflightInv(sys) && sys'.finalizers == sys.finalizers && sys'.inflight == sys.inflight
    ensures InflightInv(sys')
  {
    forall id | id in sys'.inflight ensures Working(sys', id) {
      assert Working(sys, id);
    }
  }

  lemma StepKeepsInflight(sys: System, step: Step)
    requires InflightInv(sys) && Enabled(sys, step)
    ensures InflightInv(Apply(sys, step))
  {
    var sys' := Apply(sys, step);
    match step
    case Begin(crawl, host, jobId) => BeginKeepsInflight(sys, crawl, host, jobId);
    case Locate(k) => MoveKeepsInflight(sys, k, sys'.finalizers[k].pc);
    case Stat(k, _) => MoveKeepsInflight(sys, k, sys'.finalizers[k].pc);
    case Complete(k, _, _) =>
      MoveKeepsInflight(sys, k, sys'.finalizers[k].pc);
      SameFinalizersKeepInflight(Move(sys, k, sys'.finalizers[k].pc), sys');
    case Fail(k, _) =>
      MoveKeepsInflight(sys, k, Ended);
      SameFinalizersKeepInflight(Move(sys, k, Ended), sys');
    case _ => SameFinalizersKeepInflight(sys, sys');
  }

  /** At any time at most one finalizer works on a job, and a job id is held exactly while one does. */
  lemma {:induction false} OneFinalizerPerJob(root: string, steps: seq<Step>)
    requires Feasible(root, steps)
    ensures InflightInv(After(root, steps))
  {
    if steps != [] {
      OneFinalizerPerJob(root, steps[..|steps| - 1]);
      StepKeepsInflight(After(root, steps[..|steps| - 1]), steps[|steps| - 1]);
    }
  }

  /** How many steps a finalizer has at most before it. */
  function Ahead(pc: Pc): nat {
    match pc case Locating => 4 case Found(_) => 3 case Sized(_, _) => 2 case GivingUp(_) => 1 case Ended => 0
  }

  predicate IsOwnStep(step: Step, k: nat) {
    match step
    case Locate(j) => j == k
    case Stat(j, _) => j == k
    case Complete(j, _, _) => j == k
    case Fail(j, _) => j == k
    case _ => false
  }

  /** A working finalizer can always go on, each of its steps brings it closer to its end, and nobody else moves it. */
  lemma FinalizersMoveOn(sys: System, k: nat, step: Step) returns (next: Step)
    requires k < |sys.finalizers| && Enabled(sys, step)
    ensures Works(sys.finalizers[k]) ==> IsOwnStep(next, k) && Enabled(sys, next)
    ensures IsOwnStep(step, k) ==> Ahead(Apply(sys, step).finalizers[k].pc) < Ahead(sys.finalizers[k].pc)
    ensures !IsOwnStep(step, k) ==> Apply(sys, step).finalizers[k] == sys.finalizers[k]
  {
    next := match sys.finalizers[k].pc
      case Locating => Locate(k)
      case Found(_) => Stat(k, 0)
      case Sized(_, _) => Complete(k, false, false)
      case _ => Fail(k, false);
  }

  /** How a finalizer ends: it completed the pending job with its own path and size, or it failed the job unless that statement was lost. */
  ghost predicate EndsAt(root: string, steps: seq<Step>, k: nat, n: nat) {
    && n < |steps| && Feasible(root, steps[..n]) && Enabled(After(root, steps[..n]), steps[n])
    && var sys := After(root, steps[..n]);
    && k < |sys.finalizers|
    && var f, now := sys.finalizers[k], Apply(sys, steps[n]).jobs;
    && (|| (&& steps[n] == Complete(k, false, false) && f.pc.Sized? && f.crawl in sys.jobs && sys.jobs[f.crawl].state == Pending
            && f.crawl in now && now[f.crawl].state == Ready && now[f.crawl].path == ArchivePath(root, f.crawl, f.host)
            && now[f.crawl].size == f.pc.size && now[f.crawl].failure == "" && now[f.crawl].finishedAt == Some(sys.clock))
        || (&& steps[n] == Fail(k, true))
        || (&& steps[n] == Fail(k, false) && f.pc.GivingUp?
            && (f.crawl in now ==> now[f.crawl].state != Pending)
            && (f.crawl in sys.jobs && sys.jobs[f.crawl].state == Pending ==>
                  now[f.crawl].state == Failed && now[f.crawl].failure == f.pc.code && now[f.crawl].path == ""
                  && now[f.crawl].size == 0 && now[f.crawl].finishedAt == Some(sys.clock))))
  }

  lemma EndStep(sys: System, step: Step, k: nat)
    requires Inv(sys) && Enabled(sys, step) && k < |sys.finalizers|
    requires Works(sys.finalizers[k]) && !Works(Apply(sys, step).finalizers[k])
    ensures var f, now := sys.finalizers[k], Apply(sys, step).jobs;
            || (&& step == Complete(k, false, false) && f.pc.Sized? && f.crawl in sys.jobs && sys.jobs[f.crawl].state == Pending
                && f.crawl in now && now[f.crawl].state == Ready && now[f.crawl].path == ArchivePath(sys.root, f.crawl, f.host)
                && now[f.crawl].size == f.pc.size && now[f.crawl].failure == "" && now[f.crawl].finishedAt == Some(sys.clock))
            || (&& step == Fail(k, true))
            || (&& step == Fail(k, false) && f.pc.GivingUp?
                && (f.crawl in now ==> now[f.crawl].state != Pending)
                && (f.crawl in sys.jobs && sys.jobs[f.crawl].state == Pending ==>
                      now[f.crawl].state == Failed && now[f.crawl].failure == f.pc.code && now[f.crawl].path == ""
                      && now[f.crawl].size == 0 && now[f.crawl].finishedAt == Some(sys.clock)))
  {
    assert FinalizerInv(sys.root, sys.published, sys.finalizers[k]);
  }

  /** Every finalizer that has ended did so in one of these ways. */
  lemma {:induction false} FinalizerEnded(root: string, steps: seq<Step>, k: nat) returns (n: nat)
    requires Feasible(root, steps) && k < |After(root, steps).finalizers| && !Works(After(root, steps).finalizers[k])
    ensures EndsAt(root, steps, k, n)
  {
    var before, step := steps[..|steps| - 1], steps[|steps| - 1];
    var sys := After(root, before);
    if k < |sys.finalizers| && !Works(sys.finalizers[k]) {
      n := FinalizerEnded(root, before, k);
      assert before[..n] == steps[..n];
    } else {
      EveryStateIsSafe(root, before);
      RootIsFixed(root, before);
      EndStep(sys, step, k);
      n := |before|;
    }
  }

  /** What the two looks at the file system find, and what they then try. */
  lemma LooksDecide(sys: System, k: nat, step: Step)
    requires Inv(sys) && Enabled(sys, step) && (step == Locate(k) || (step.Stat? && step.k == k))
    ensures var f, pc := sys.finalizers[k], Apply(sys, step).finalizers[k].pc;
            var there := ArchivePath(sys.root, f.crawl, f.host) in sys.files;
            if step.Locate?
            then pc == if there then Found(ArchivePath(sys.root, f.crawl, f.host)) else GivingUp("archive_not_available")
            else pc == if there then Sized(ArchivePath(sys.root, f.crawl, f.host), step.size) else GivingUp("archive_read_failed")
  {
    assert FinalizerInv(sys.root, sys.published, sys.finalizers[k]);
  }

  /** A completion that does not go through is followed by a failure, which finds nothing to do if the job was settled after all. */
  lemma FailedCompletion(sys: System, k: nat, lost: bool, unsure: bool)
    requires Enabled(sys, Complete(k, lost, unsure))
    requires lost || unsure || !IsPending(sys.jobs, sys.finalizers[k].crawl)
    ensures var sys', f := Apply(sys, Complete(k, lost, unsure)), sys.finalizers[k];
            && sys'.finalizers[k].pc == GivingUp("archive_state_failed")
            && (lost || !(f.crawl in sys.jobs && sys.jobs[f.crawl].state == Pending) ==> sys'.jobs == sys.jobs)
            && (!lost && f.crawl in sys.jobs && sys.jobs[f.crawl].state == Pending ==>
                  sys'.jobs[f.crawl].state == Ready && sys'.jobs[f.crawl].path == f.pc.path && sys'.jobs[f.crawl].size == f.pc.size)
  {
  }

  /** What the two halves of a purge do: the expired row with that id goes, and everything in the crawl's directory. */
  lemma PurgeSteps(sys: System, crawl: string, id: string, before: int)
    requires before <= sys.clock && ValidId(crawl)
    ensures var jobs := Apply(sys, DeleteRow(crawl, id, before)).jobs;
            jobs == if crawl in sys.jobs && sys.jobs[crawl].id == id && sys.jobs[crawl].expiresAt <= before
                    then sys.jobs - {crawl} else sys.jobs
    ensures forall f: string :: f in Apply(sys, RemoveFiles(crawl)).files
                                <==> f in sys.files && !(sys.root + "/api/" + crawl + "/" <= f)
  {
  }

  /** While a job keeps its id, it is pending until it becomes ready or failed, and then it is frozen. */
  lemma {:induction false} SettledJobsStay(root: string, steps: seq<Step>, n: nat, crawl: string)
    requires n <= |steps| && Feasible(root, steps) && Feasible(root, steps[..n])
    requires forall i :: n <= i <= |steps| && Feasible(root, steps[..i]) ==> crawl in After(root, steps[..i]).jobs
    requires After(root, steps[..n]).jobs[crawl].state != Pending
    ensures crawl in After(root, steps).jobs
    ensures After(root, steps).jobs[crawl] == After(root, steps[..n]).jobs[crawl]
    decreases |steps|
  {
    assert steps[..|steps|] == steps;
    if n < |steps| {
      var before := steps[..|steps| - 1];
      assert before[..n] == steps[..n];
      forall i | n <= i <= |before| && Feasible(root, before[..i]) ensures crawl in After(root, before[..i]).jobs {
        assert before[..i] == steps[..i];
      }
      SettledJobsStay(root, before, n, crawl);
      assert before == before[..|before|];
      StepKeepsJobs(After(root, before), steps[|steps| - 1]);
    }
  }

  /** Nobody takes a job away before its time, in any interleaving: until its expiry it stays, with its id. */
  lemma {:induction false} JobsLiveUntilExpiry(root: string, steps: seq<Step>, n: nat, crawl: string)
    requires n <= |steps| && Feasible(root, steps) && Feasible(root, steps[..n])
    requires crawl in After(root, steps[..n]).jobs && After(root, steps).clock < After(root, steps[..n]).jobs[crawl].expiresAt
    ensures crawl in After(root, steps).jobs
    ensures var was, now := After(root, steps[..n]).jobs[crawl], After(root, steps).jobs[crawl];
            && now.id == was.id && now.expiresAt == was.expiresAt
            && (was.state != Pending ==> now == was)
    decreases |steps|
  {
    assert steps[..|steps|] == steps;
    if n < |steps| {
      var before := steps[..|steps| - 1];
      assert before[..n] == steps[..n];
      ClockMoves(After(root, before), steps[|steps| - 1]);
      JobsLiveUntilExpiry(root, before, n, crawl);
      StepKeepsJobs(After(root, before), steps[|steps| - 1]);
    }
  }

  lemma ClockMoves(sys: System, step: Step)
    requires Enabled(sys, step)
    ensures sys.clock <= Apply(sys, step).clock
  {
  }

  // The manager, one call at a time

  datatype CrawlStatus = Active | Terminal

  datatype Reply = Prepared(state: JobState, size: nat, readable: bool) | NotFound | PurgeFailed

  // Purging, in the order of the listing query

  function ExpiredJobs(jobs: Jobs, before: int): set<string> {
    set c | c in jobs && Expired(jobs[c], before)
  }

  /** ORDER BY expires_at, id. */
  predicate Sooner(a: Job, b: Job) {
    a.expiresAt < b.expiresAt || (a.expiresAt == b.expiresAt && Leq(a.id, b.id))
  }

  predicate IsFirst(jobs: Jobs, crawls: set<string>, c: string)
    requires c in crawls && crawls <= jobs.Keys
  {
    forall d :: d in crawls ==> Sooner(jobs[c], jobs[d])
  }

  lemma {:induction false} HasFirst(jobs: Jobs, crawls: set<string>) returns (c: string)
    requires crawls != {} && crawls <= jobs.Keys
    ensures c in crawls && IsFirst(jobs, crawls, c)
    decreases |crawls|
  {
    c :| c in crawls;
    var rest := crawls - {c};
    if rest == {} {
      LeqReflexive(jobs[c].id);
      assert crawls == {c};
    } else {
      var d := HasFirst(jobs, rest);
      if !Sooner(jobs[c], jobs[d]) {
        LeqTotal(jobs[c].id, jobs[d].id);
        c := d;
        LeqReflexive(jobs[d].id);
      } else {
        SoonerThanAll(jobs, rest, c, d);
      }
    }
  }

  lemma SoonerThanAll(jobs: Jobs, rest: set<string>, c: string, d: string)
    requires c in jobs && d in rest && rest <= jobs.Keys && IsFirst(jobs, rest, d) && Sooner(jobs[c], jobs[d])
    ensures IsFirst(jobs, rest + {c}, c)
  {
    LeqReflexive(jobs[c].id);
    forall e | e in rest ensures Sooner(jobs[c], jobs[e]) {
      if jobs[c].expiresAt == jobs[d].expiresAt == jobs[e].expiresAt {
        LeqTransitive(jobs[c].id, jobs[d].id, jobs[e].id);
      }
    }
  }

  lemma NoneExpired(jobs: Jobs, before: int)
    requires ExpiredJobs(jobs, before) == {}
    ensures forall c :: c in jobs ==> jobs[c].expiresAt > before
  {
    forall c | c in jobs ensures jobs[c].expiresAt > before {
      assert c !in ExpiredJobs(jobs, before);
    }
  }

  method FirstExpired(jobs: Jobs, before: int) returns (c: string)
    requires ExpiredJobs(jobs, before) != {}
    ensures c in ExpiredJobs(jobs, before) && IsFirst(jobs, ExpiredJobs(jobs, before), c)
  {
    ghost var first := HasFirst(jobs, ExpiredJobs(jobs, before));
    c :| c in ExpiredJobs(jobs, before) && IsFirst(jobs, ExpiredJobs(jobs, before), c);
  }

  /** A purge that took `n` jobs away: the first `n` expired ones, leaving the others as they were. */
  ghost predicate Purged(before: Jobs, now: Jobs, at: int, n: nat) {
    && |now| + n == |before|
    && |ExpiredJobs(now, at)| + n == |ExpiredJobs(before, at)|
    && (forall c :: c in now ==> c in before && now[c] == before[c])
    && (forall c :: c in before && c !in now ==> before[c].expiresAt <= at && ComesFirst(now, before[c], at))
  }

  /** Each job that is still there and expired by then comes later in the listing order. */
  ghost predicate ComesFirst(jobs: Jobs, j: Job, at: int) {
    forall d :: d in jobs && jobs[d].expiresAt <= at ==>
                  j.expiresAt < jobs[d].expiresAt || (j.expiresAt == jobs[d].expiresAt && Leq(j.id, jobs[d].id))
  }

  lemma PurgedOneMore(before: Jobs, now: Jobs, at: int, n: nat, c: string)
    requires Purged(before, now, at, n) && c in ExpiredJobs(now, at) && IsFirst(now, ExpiredJobs(now, at), c)
    ensures Purged(before, now - {c}, at, n + 1)
  {
    assert ExpiredJobs(now - {c}, at) == ExpiredJobs(now, at) - {c};
    assert (now - {c}).Keys == now.Keys - {c};
    forall d | d in before && d !in now - {c} ensures before[d].expiresAt <= at && ComesFirst(now - {c}, before[d], at) {
      if d != c {
        assert ComesFirst(now, before[d], at);
      }
    }
  }

  lemma PurgedFilesGrow(root: string, before: Jobs, now: Jobs, c: string, files: set<string>)
    requires c in now && c in before && now[c] == before[c]
    ensures PurgedFiles(root, before, now - {c}, files)
            == PurgedFiles(root, before, now, files) + set f | f in files && OfJob(root, c, now[c], f)
  {
  }

  /** The files that go with the jobs a purge took away: their artifacts and all of their crawl directories. */
  ghost function PurgedFiles(root: string, before: Jobs, now: Jobs, files: set<string>): set<string> {
    set f | f in files && exists c :: c in before && c !in now && OfJob(root, c, before[c], f)
  }

  /** Those of the given files that belong to the job. */
  function TornFiles(root: string, crawl: string, job: Job, gone: set<string>): set<string> {
    set f | f in gone && OfJob(root, crawl, job, f)
  }

  predicate OfJob(root: string, crawl: string, job: Job, f: string) {
    f == job.path || CrawlDir(root, crawl) <= f
  }

  /** A job's files: its artifact, and whatever lies in its crawl's directory. */
  lemma FilesOfJob(root: string, crawl: string, job: Job, rest: string)
    ensures OfJob(root, crawl, job, job.path) && OfJob(root, crawl, job, root + "/api/" + crawl + "/" + rest)
  {
    assert CrawlDir(root, crawl) <= CrawlDir(root, crawl) + rest;
  }

  class APIExportManager {
    const root: string
    var jobs: Jobs
    var files: set<string>
    var inflight: set<string>

    constructor (root: string)
      ensures this.root == root && jobs == map[] && files == {} && inflight == {}
    {
      this.root := root;
      jobs, files, inflight := map[], {}, {};
    }

    method ReserveArchive(crawl: string, newId: string, now: int) returns (job: Job)
      modifies this`jobs
      ensures jobs == Reserve(old(jobs), crawl, newId, now)
      ensures crawl in jobs && job == jobs[crawl]
      ensures crawl in old(jobs) ==> jobs == old(jobs)
      ensures crawl !in old(jobs) ==>
                jobs == old(jobs)[crawl := Job(newId, Pending, "", 0, "", now, now + 7 * 24 * 60 * 60 * 1_000_000_000, None)]
    {
      if crawl !in jobs {
        jobs := jobs[crawl := Job(newId, Pending, "", 0, "", now, now + WEEK, None)];
      }
      job := jobs[crawl];
    }

    method CompleteArchive(crawl: string, path: string, size: nat, now: int) returns (ok: bool)
      modifies this`jobs
      ensures ok <==> crawl in old(jobs) && old(jobs)[crawl].state == Pending
      ensures jobs == CompleteJob(old(jobs), crawl, path, size, now)
      ensures ok ==> jobs[crawl] == old(jobs)[crawl].(state := Ready, path := path, size := size, failure := "", finishedAt := Some(now))
      ensures forall c :: c != crawl || !ok ==> (c in jobs <==> c in old(jobs)) && (c in jobs ==> jobs[c] == old(jobs)[c])
    {
      ok := crawl in jobs && jobs[crawl].state == Pending;
      if ok {
        jobs := jobs[crawl := jobs[crawl].(state := Ready, path := path, size := size, failure := "",
                                           finishedAt := Some(now))];
      }
    }

    method FailArchive(crawl: string, code: string, now: int)
      modifies this`jobs
      ensures jobs == FailJob(old(jobs), crawl, code, now)
      ensures crawl in old(jobs) && old(jobs)[crawl].state == Pending ==>
                jobs[crawl] == old(jobs)[crawl].(state := Failed, path := "", size := 0, failure := code, finishedAt := Some(now))
      ensures forall c :: c != crawl || old(!(crawl in jobs && jobs[crawl].state == Pending)) ==>
                (c in jobs <==> c in old(jobs)) && (c in jobs ==> jobs[c] == old(jobs)[c])
    {
      if crawl in jobs && jobs[crawl].state == Pending {
        jobs := jobs[crawl := jobs[crawl].(state := Failed, path := "", size := 0, failure := code,
                                           finishedAt := Some(now))];
      }
    }

    method FinalizeArchive(crawl: string, host: string, size: nat, now: int)
      modifies this`jobs
      ensures jobs == if ArchivePath(root, crawl, host) in files
                      then CompleteJob(old(jobs), crawl, ArchivePath(root, crawl, host), size, now)
                      else FailJob(old(jobs), crawl, "archive_not_available", now)
    {
      var sourcePath := ArchivePath(root, crawl, host);
      if sourcePath !in files {
        FailArchive(crawl, "archive_not_available", now);
        return;
      }
      var ok := CompleteArchive(crawl, sourcePath, size, now);
      if !ok {
        FailArchive(crawl, "archive_state_failed", now);
      }
    }

    /** The snapshot CrawlCompleted takes before another crawl of the project can start. */
    method SnapshotArchive(crawl: string, host: string, archiveReady: bool, newId: string, size: nat, now: int)
      modifies this
      ensures inflight == old(inflight) && files == old(files)
      ensures forall c :: c != crawl ==> (c in jobs <==> c in old(jobs)) && (c in jobs ==> jobs[c] == old(jobs)[c])
      ensures crawl in jobs
      ensures crawl in old(jobs) && old(jobs)[crawl].state != Pending ==> jobs == old(jobs)
      ensures jobs[crawl].state == Ready && old(!(crawl in jobs && jobs[crawl].state == Ready)) ==>
                archiveReady && jobs[crawl].path == ArchivePath(root, crawl, host) && jobs[crawl].path in files
      ensures jobs[crawl].id !in old(inflight) || !archiveReady ==> jobs[crawl].state != Pending
      ensures jobs[crawl].expiresAt == if crawl in old(jobs) then old(jobs)[crawl].expiresAt else now + WEEK
    {
      var job := ReserveArchive(crawl, newId, now);
      if job.state != Pending {
        return;
      }
      if !archiveReady {
        FailArchive(crawl, "archive_not_available", now);
        return;
      }
      if job.id in inflight {
        return;
      }
      inflight := inflight + {job.id};
      FinalizeArchive(crawl, host, size, now);
      inflight := inflight - {job.id};
    }

    /**
     The first 500 expired jobs by expiry and id, with their artifacts and crawl
     directories. The file removals of the job after `healthy` others fail, with
     only the files in `gone` removed, and end the purge.
     */
    method PurgeExpiredArchives(before: int, healthy: nat, gone: set<string>) returns (ok: bool)
      modifies this`jobs, this`files
      ensures ok <==> Min(500, |ExpiredJobs(old(jobs), before)|) <= healthy
      ensures Purged(old(jobs), jobs, before, Min(Min(500, |ExpiredJobs(old(jobs), before)|), healthy))
      ensures ok ==> |old(jobs)| - |jobs| == 500 || forall c :: c in jobs ==> jobs[c].expiresAt > before
      ensures ok ==> files == old(files) - PurgedFiles(root, old(jobs), jobs, old(files))
      ensures !ok ==> exists c :: c in jobs && files == old(files) - PurgedFiles(root, old(jobs), jobs, old(files))
                                                         - TornFiles(root, c, jobs[c], gone)
    {
      var n := 0;
      while n < 500 && ExpiredJobs(jobs, before) != {}
        invariant n <= 500 && n <= healthy && Purged(old(jobs), jobs, before, n)
        invariant files == old(files) - PurgedFiles(root, old(jobs), jobs, old(files))
      {
        var c := FirstExpired(jobs, before);
        if n == healthy {
          files := files - TornFiles(root, c, jobs[c], gone);
          return false;
        }
        PurgedOneMore(old(jobs), jobs, before, n, c);
        PurgedFilesGrow(root, old(jobs), jobs, c, old(files));
        var artifact := jobs[c].path;
        files := set f | f in files && f != artifact && !(CrawlDir(root, c) <= f);
        jobs := jobs - {c};
        n := n + 1;
      }
      ok := true;
      if n < 500 {
        NoneExpired(jobs, before);
      }
    }

    /** Snapshot, then purge, whose failure is only logged; `later` is the clock at the purge. */
    method CrawlCompleted(crawl: string, host: string, archiveReady: bool, newId: string, size: nat, now: int, later: int,
                          healthy: nat, gone: set<string>)
      requires now <= later
      modifies this
      ensures inflight == old(inflight) && files <= old(files)
      ensures forall c :: c in old(jobs) && c !in jobs ==> old(jobs)[c].expiresAt <= later
      ensures forall c :: c in jobs && c != crawl ==> c in old(jobs) && jobs[c] == old(jobs)[c]
      ensures crawl !in jobs ==> crawl in old(jobs) || now + WEEK <= later
      ensures crawl in jobs ==>
                && (crawl in old(jobs) && old(jobs)[crawl].state != Pending ==> jobs[crawl] == old(jobs)[crawl])
                && (jobs[crawl].state == Ready && old(!(crawl in jobs && jobs[crawl].state == Ready)) ==>
                      archiveReady && jobs[crawl].path == ArchivePath(root, crawl, host) && jobs[crawl].path in old(files))
                && (jobs[crawl].id !in old(inflight) || !archiveReady ==> jobs[crawl].state != Pending)
    {
      SnapshotArchive(crawl, host, archiveReady, newId, size, now);
      var ok := PurgeExpiredArchives(later, healthy, gone);
    }

    /**
     Without store errors, one call on a terminal crawl whose job nobody else is
     finalizing settles the job: ready exactly when its archive was published.
     `source` is what the source query found.
     */
    method PrepareArchive(crawl: string, host: string, source: Option<CrawlStatus>, newId: string, size: nat, now: int,
                          healthy: nat, gone: set<string>)
      returns (r: Reply)
      modifies this
      ensures inflight == old(inflight) && files <= old(files)
      ensures forall c :: c in old(jobs) && c !in jobs ==> old(jobs)[c].expiresAt <= now
      ensures forall c :: c in jobs && c != crawl ==> c in old(jobs) && jobs[c] == old(jobs)[c]
      ensures r.PurgeFailed? <==> healthy < Min(500, |ExpiredJobs(old(jobs), now)|)
      ensures r.NotFound? <==> !r.PurgeFailed? && source.None?
      ensures !r.Prepared? && crawl in jobs ==> crawl in old(jobs) && jobs[crawl] == old(jobs)[crawl]
      ensures r.Prepared? ==>
                && crawl in jobs
                && (source.value.Terminal? && jobs[crawl].id !in old(inflight) ==> jobs[crawl].state != Pending)
                && (source.value.Active? && r.state == Pending ==> jobs[crawl].state == Pending)
                && (r.state == Ready ==> jobs[crawl].state == Ready && r.size == jobs[crawl].size
                                         && (r.readable <==> jobs[crawl].path in files))
                && (r.state == Failed ==> jobs[crawl].state == Failed)
      ensures r.Prepared? && crawl in old(jobs) && old(jobs)[crawl].expiresAt > now ==>
                && jobs[crawl].id == old(jobs)[crawl].id
                && (old(jobs)[crawl].state != Pending ==> jobs[crawl] == old(jobs)[crawl] && r.state == jobs[crawl].state)
                && (IsPending(old(jobs), crawl) && source.value.Terminal? && old(jobs)[crawl].id !in old(inflight) ==>
                      && (jobs[crawl].state == Ready <==> ArchivePath(root, crawl, host) in files)
                      && (jobs[crawl].state == Ready ==> jobs[crawl].path == ArchivePath(root, crawl, host)))
    {
      var ok := PurgeExpiredArchives(now, healthy, gone);
      if !ok {
        return PurgeFailed;
      }
      if source.None? {
        return NotFound;
      }
      r := PrepareJob(crawl, host, source.value, newId, size, now);
    }

    /** The part of PrepareArchive that follows the purge and the source query. */
    method PrepareJob(crawl: string, host: string, status: CrawlStatus, newId: string, size: nat, now: int) returns (r: Reply)
      modifies this`jobs, this`inflight
      ensures r.Prepared? && crawl in jobs && inflight == old(inflight)
      ensures forall c :: c != crawl ==> (c in jobs <==> c in old(jobs)) && (c in jobs ==> jobs[c] == old(jobs)[c])
      ensures status.Terminal? && jobs[crawl].id !in inflight ==> jobs[crawl].state != Pending
      ensures status.Active? && r.state == Pending ==> jobs[crawl].state == Pending
      ensures r.state == Ready ==> jobs[crawl].state == Ready && r.size == jobs[crawl].size
                                   && (r.readable <==> jobs[crawl].path in files)
      ensures r.state == Failed ==> jobs[crawl].state == Failed
      ensures crawl in old(jobs) ==>
                && jobs[crawl].id == old(jobs)[crawl].id
                && (old(jobs)[crawl].state != Pending ==> jobs[crawl] == old(jobs)[crawl] && r.state == jobs[crawl].state)
                && (IsPending(old(jobs), crawl) && status.Terminal? && jobs[crawl].id !in inflight ==>
                      && (jobs[crawl].state == Ready <==> ArchivePath(root, crawl, host) in files)
                      && (jobs[crawl].state == Ready ==> jobs[crawl].path == ArchivePath(root, crawl, host)))
    {
      var job := ReserveArchive(crawl, newId, now);
      if job.state == Ready {
        return Prepared(Ready, job.size, job.path in files);
      }
      if job.state == Failed {
        return Prepared(Failed, 0, false);
      }
      if status.Active? || job.id in inflight {
        return Prepared(Pending, 0, false);
      }
      inflight := inflight + {job.id};
      FinalizeArchive(crawl, host, size, now);
      inflight := inflight - {job.id};
      r := Prepared(Pending, 0, false);
    }
  }
}
