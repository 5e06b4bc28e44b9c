# SEOnaut verification model

A Dafny model of the parts of SEOnaut whose correctness depends on interleavings,
ordering and bookkeeping, with proofs of what those parts promise:

- **Crawl engine** (`Requests`, `WorkQueue`, `LinkRule`, `Admission`, `CrawlEngine`,
  `CrawlSafety`, `CrawlProgress`, `CrawlCoverage`, `CrawlWitness`, `RobotsMemo`,
  `SitemapCap`, `CappedReader`, `SrcSet`). The queue manager, the poller, two consumers and the
  goroutine that runs `Start` take one step per channel rendezvous. Every
  interleaving is a run, and `Stop` or the timeout may come at any moment. Proved:
  exact FIFO order and termination detection, no deadlock, every execution ends,
  each URL at most once, the crawl limit, and coverage of what is reachable.
- **API crawl lifecycle** (`Budgets`, `CrawlTable`, `Lifecycle`, `LifecycleSafety`,
  `LifecycleBinding`, `LifecycleResults`, `LifecycleWitness`, `CrawlerRegistry`).
  Start calls, completion callbacks, cancellations and restarts interleave statement
  by statement, and every store call may fail before or after it took effect. Proved: row invariants, the
  start/completion race, which cancels are honoured, slot conservation, idempotent start.
- **Archive** (`Strings`, `LexOrder`, `ArchiveIndex`, `Archive`). Writer, sorted
  index, prefix search and reader, up to the round trip of stored records.
- **Findings and exports** (`Arith`, `Paging`, `ExportJobs`). Keyset pages, walks
  over growing tables, streamed exports, and the archive job state machine.
- **Limiter** (`WindowBlocks`, `RateLimit`). Exact grants per window and a bound per
  interval, for any order of clock readings.

Where the source changes state in place, the model has a class whose methods
(`Queue`, `Crawler`, `URLStorage`, `RobotsChecker`, `LimitedReadCloser`,
`APICrawlRepository`, `ConcurrencyBudget`, `CrawlerService`, `Writer`,
`APIExportManager`, `FixedWindowLimiter`) equal functions of the old state. The
lemmas are about those functions. The concurrent protocols are step machines over
the same functions; a run is a list of steps that were enabled when taken.

`dafny verify dfyconfig.toml` checks everything.

## Findings

Some properties hold only under a condition, and some documented intentions differ
from the code. The model follows the code; each finding has a lemma with an input
and one with the exact condition.

- Coverage. `AddRequest` marks a URL as visited before it checks the host, so a
  refused link hides a later resource request or sitemap entry for the same URL
  (`RefusedLinkHidesResource`). A complete crawl processed a URL if and only if its
  first ask was admitted (`FirstRequestDecides`), and everything reachable if and
  only if no URL was refused first and admitted later (`CoverageIsExact`).
- Subdomains. The comment on `domainIsAllowed` speaks of subdomains, but the code
  tests the suffix without a dot (`ForeignHostIsAllowed`, `SuffixTestIsLoose`).
- Rate limit. `Allow` reads the clock before it takes the lock. A call with an older
  reading, served between two calls of the next window, resets the counter
  (`StaleReadingForgetsGrants`). Each block of calls served consecutively in one
  window gets min(block, limit) grants, so the limit holds exactly when the requests
  fit it or were served in one block (`GrantsPerWindow`).
- Torn writes. If the WARC library fails after it has written some bytes, they stay
  in the stream without advancing the offset, and later ranges start too early by
  exactly those bytes (`TornWriteBreaksRoundTrip`, `ReadsBackWhatWasWritten`).
- Spaces in queries. URL parsing keeps a space in a query, and the space is also the
  separator of index lines, so a longer query can take the look-up of a shorter one
  (`SpaceStealsLookup`, `KeyIsExactIffUnbeaten`).
- Commas in hosts. They are legal, and the search key joins labels with commas, so
  different hosts can share keys (`CommaHostCollides`, `HostSharesKeysIff`).
- Srcset. The scanner recovers a candidate list if and only if every candidate but
  the last has a descriptor (`PlainListIsMisread`, `RoundTripIffDescribed`).
- Capped reader. Its error sticks if and only if the body exceeds the limit by more
  than one byte (`ErrorSticksIffTwoOver`). The early refusal by declared length also
  refuses HEAD replies, which have no body (`HeadReplyIsRefused`, `RefusedIffTooLarge`).
- Sitemap limit. It can be exceeded by the number of parallel parsers minus one, and
  that bound is reached (`CallbacksAreCapped`, `BoundIsReached`).
- Cancel. A cancel that is acknowledged but whose stop comes before the worker is
  launched, or after it has read its flag, is lost (`EarlyStopIsLost`,
  `CancelIsHonoured`).

## Model

| member | source | states |
|---|---|---|
| `WorkQueue.PushAgrees` | internal/crawler/queue.go:45-63 | a push of a new URL keeps FIFO order (pushed is polled, then the slot, then the queue) and the active set exact, refill included |
| `WorkQueue.PollAgrees` | internal/crawler/queue.go:45-65 | so does handing out the slot's message |
| `WorkQueue.AckAgrees` | internal/crawler/queue.go:66-68 | so does acknowledging a polled URL |
| `WorkQueue.DetectorExact` | internal/crawler/queue.go:61 | `Active` is false exactly when every pushed URL has been acknowledged |
| `WorkQueue.FullSlotIsActive` | internal/crawler/queue.go:45-61 | a message waiting in the output slot keeps the queue active |
| `WorkQueue.EveryRunIsExact` | internal/crawler/queue.go:28-70 | order and exact detection after any sequence of operations the manager can serve |
| `WorkQueue.Queue.TakeFirst` | internal/crawler/queue.go:45-49 | the fill at the top of each turn moves the oldest message to the slot and marks it active |
| `WorkQueue.Queue.OnPush` | internal/crawler/queue.go:62-63 | the receive case and the next fill give the specified state |
| `WorkQueue.Queue.OnPoll` | internal/crawler/queue.go:64-65 | the send case hands out exactly the slot's message |
| `WorkQueue.Queue.OnAck` | internal/crawler/queue.go:66-67 | the acknowledge case removes only that URL from the active set |
| `WorkQueue.Queue.Active` | internal/crawler/queue.go:61 | the answer is the detector's condition |
| `LinkRule.FollowedLinksExact` | internal/services/crawler_handler.go:87-96 | a link is requested if and only if neither it nor its page is nofollow, or the project follows nofollow |
| `LinkRule.CssRequestsExact` | internal/services/crawler_handler.go:176-189 | a URL found in CSS is requested if and only if its scheme is http or https |
| `LinkRule.ParametersAndCaseDoNotMatter` | internal/services/crawler_handler.go:121 | letter case and parameters of the content type do not matter |
| `LinkRule.PageRequestsExact` | internal/services/crawler_handler.go:87-189 | exactly which URLs a page requests and which of them skip the host check; preloads only of HTML pages, CSS URLs only over http(s) and only for the content types that are looked at |
| `LinkRule.CollectRequests` | internal/services/crawler_handler.go:87-189 | the callback's loops make those requests in that order |
| `Admission.SeedDomainIsAllowed` | internal/crawler/crawler.go:102-125 | the seed's own host passes the host check, with or without www |
| `Admission.WwwIsInterchangeable` | internal/crawler/crawler.go:102-125 | whichever form the seed has, the domain passes with and without www |
| `Admission.HostPassesIff` | internal/crawler/crawler.go:364-375 | a host passes if and only if it is the main domain, with www, or with any text before it when subdomains are allowed |
| `Admission.SuffixTestIsLoose` | internal/crawler/crawler.go:364-375 | with subdomains allowed, a host that is neither the main domain nor a subdomain passes if and only if it is longer, ends in the main domain and has no dot before it |
| `Admission.ForeignHostIsAllowed` | internal/crawler/crawler.go:370 | notexample.com passes for example.com |
| `Admission.URLStorage.Add` | internal/crawler/urlstorage.go:28-35 | adds exactly that URL |
| `Admission.Crawler.AddRequest` | internal/crawler/crawler.go:183-201 | each verdict exactly: visited first, then host unless exempt, then robots unless ignored; refused URLs stay visited and only admitted ones are queued |
| `Admission.Crawler.QueueEntry` | internal/crawler/crawler.go:348-358 | an unseen sitemap URL is marked and queued without the two checks |
| `Admission.Crawler.QueueSitemapURLs` | internal/crawler/crawler.go:347-359 | every stored sitemap URL is offered once, in some order |
| `Admission.AdmittedWereAsked` | internal/crawler/crawler.go:183-201 | whatever is queued was asked for and passed its checks |
| `Admission.AskedIsAdmittedOrRefused` | internal/crawler/crawler.go:183-201 | an asked URL is queued unless one of its asks was refused |
| `Admission.AdmittedIffFirstAdmits` | internal/crawler/crawler.go:183-201 | over any history a URL is queued if and only if the first ask that names it passes its checks |
| `Admission.AdmittedOnce` | internal/crawler/crawler.go:183-201 | no URL is queued twice, across links, resources and sitemap entries |
| `CrawlSafety.CustodyKept` | internal/crawler/crawler.go:264-330 | every polled message is processed, dropped by a cancelled poller, or held by exactly the goroutines that account for it |
| `CrawlSafety.IntakeKept` | internal/crawler/crawler.go:155-201 | visited set, queue and histories stay in agreement over every step |
| `CrawlSafety.ControlKept` | internal/crawler/crawler.go:155-177 | goroutines exit only after a cancel, the stream closes only after both consumers exited, and `Start` waits only while the queue is active |
| `CrawlSafety.CountKept` | internal/crawler/crawler.go:155-176 | responses counted are the pages processed and stay within the limit; an end by the limit has exactly that many, at least one |
| `CrawlSafety.SitemapKept` | internal/crawler/crawler.go:145-175 | the crawl ends by inactivity only after the sitemap was queued when the project asks for it; that it is not queued earlier is `CrawlCoverage.SitemapWaitsForQueue` |
| `CrawlSafety.EveryStateIsSafe` | internal/crawler/crawler.go:135-330 | all of these in every state of every run |
| `CrawlProgress.BusyConsumer` | internal/crawler/crawler.go:279-330 | when the queue is active but empty and the poller waits, some consumer holds a message |
| `CrawlProgress.NoDeadlock` | internal/crawler/crawler.go:155-330 | in every reachable state before the end, before or after a stop, some goroutine can move |
| `CrawlProgress.EveryStepIsCloser` | internal/crawler/crawler.go:155-330 | every step of any goroutine decreases one lexicographic measure |
| `CrawlProgress.EveryExecutionEnds` | internal/crawler/crawler.go:155-177 | every execution ends, whatever the site, the interleaving and the moment of the stop |
| `CrawlCoverage.OnlyReachable` | internal/crawler/crawler.go:135-201 | every processed page is reachable from the seed or the sitemap through admitted requests |
| `CrawlCoverage.InactiveMeansComplete` | internal/crawler/crawler.go:155-176 | after an end by inactivity everything there was to ask has been asked, and the processed pages are exactly the first admitted asks |
| `CrawlCoverage.FirstRequestDecides` | internal/crawler/crawler.go:184-196 | after an end by inactivity a URL was processed if and only if its first ask was admitted |
| `CrawlCoverage.CoverageIsExact` | internal/crawler/crawler.go:135-201 | everything reachable was processed if and only if no asked URL was refused first and admitted later |
| `CrawlWitness.RefusedLinkHidesResource` | internal/crawler/crawler.go:183-201 | a concrete complete run in which a refused link hides a reachable resource |
| `CrawlCoverage.AllowedIsSure` | internal/crawler/crawler.go:190-196 | a URL on an allowed host that robots rules do not block is admitted by whoever names it |
| `CrawlCoverage.EverythingSureIsProcessed` | internal/crawler/crawler.go:135-201 | whatever is reached over URLs that the seed and all reachable pages get admitted was processed, in every interleaving |
| `CrawlCoverage.AllowedReachableIsProcessed` | internal/crawler/crawler.go:135-201 | in particular everything reachable over allowed hosts and unblocked URLs was processed |
| `CrawlCoverage.InterleavingDoesNotMatter` | internal/crawler/crawler.go:135-330 | when all ways in which reachable pages name a URL get one answer, the processed set is the reachable set |
| `CrawlCoverage.AtMostOnce` | internal/crawler/crawler.go:155-201 | each URL is queued, held and processed at most once, and callbacks equal `Crawled` and respect the limit |
| `CrawlCoverage.BlockedIsKeptOut` | internal/crawler/crawler.go:194-196 | over every run a URL that robots rules block is processed only as a sitemap entry, unless the project ignores those rules |
| `CrawlCoverage.ForeignIsKeptOut` | internal/crawler/crawler.go:190-192 | over every run a URL of a host that does not pass is processed only as a sitemap entry or as a resource of a processed page |
| `CrawlCoverage.SitemapWaitsForQueue` | internal/crawler/crawler.go:145-171 | when the sitemap is queued, everything queued before has been processed and everything there was to ask has been asked |
| `CrawlCoverage.EntriesComeLast` | internal/crawler/crawler.go:145-171 | before any sitemap entry is asked for, everything allowed that links lead to from the seed was processed |
| `CrawlCoverage.UnstoppedEnds` | internal/crawler/crawler.go:155-177 | without a stop a crawl ends only with nothing left or at exactly its limit |
| `RobotsMemo.RobotsChecker.GetRobotsMap` | internal/crawler/robots_checker.go:65-95 | one fetch per unknown host; failures, other statuses and parse errors are remembered as no rules |
| `RobotsMemo.RobotsChecker.IsBlocked` | internal/crawler/robots_checker.go:26-38 | blocked exactly when remembered rules forbid the path |
| `RobotsMemo.RobotsChecker.Exists` | internal/crawler/robots_checker.go:41-52 | true exactly when usable rules are remembered |
| `RobotsMemo.RobotsChecker.GetSitemaps` | internal/crawler/robots_checker.go:55-62 | the remembered rules' sitemaps, or none |
| `RobotsMemo.MemoIsFirstReplies` | internal/crawler/robots_checker.go:65-95 | over any history each touched host was fetched once and its first reply decides |
| `RobotsMemo.BlockedIffFirstReplyForbids` | internal/crawler/robots_checker.go:26-95 | a URL is blocked if and only if the first reply for its host had status 200, parsed and forbids the path |
| `RobotsMemo.AnswersAreStable` | internal/crawler/robots_checker.go:26-38 | two calls for one URL agree at any moments of a run |
| `SitemapCap.StepKeepsCap` | internal/crawler/sitemap_checker.go:57-78 | callbacks equal the counter plus the parsers about to count; each count at the limit stops a parser |
| `SitemapCap.DeliveredWasRead` | internal/crawler/sitemap_checker.go:57-66 | in every run the callback has received exactly the entries the parsers have read, each as often |
| `SitemapCap.ParsersMoveOn` | internal/crawler/sitemap_checker.go:57-78 | no parser gets stuck before it has stopped |
| `SitemapCap.CallbacksAreCapped` | internal/crawler/sitemap_checker.go:45-83 | at most limit - 1 + N callbacks for N parsers in every interleaving |
| `SitemapCap.NothingIsLostBelowTheLimit` | internal/crawler/sitemap_checker.go:45-83 | when all parsers stopped, the limit was reached or every entry of every sitemap was delivered as often as it is listed |
| `SitemapCap.BoundIsReached` | internal/crawler/sitemap_checker.go:65-77 | for every limit and N some run has exactly limit - 1 + N callbacks |
| `CappedReader.LimitedReadCloser.Read` | internal/crawler/basic_client.go:136-151 | data while the allowance lasts, then a one-byte probe |
| `CappedReader.CapIsExact` | internal/crawler/basic_client.go:136-151 | for any buffer sizes and short reads a prefix within the limit is delivered; EOF means the whole body, the size error exactly a longer body cut at the limit |
| `CappedReader.NeverOverfills` | internal/crawler/basic_client.go:137-143 | a read returns no more than its buffer holds |
| `CappedReader.AtTheLimitReadsDecide` | internal/crawler/basic_client.go:145-150 | once the limit is delivered the next served read reports the size error if the body goes on, and otherwise what the underlying reader reports |
| `CappedReader.NoLimitNoCap` | internal/crawler/basic_client.go:118-124 | without a positive limit nothing is refused or cut |
| `CappedReader.ErrorSticksIffTwoOver` | internal/crawler/basic_client.go:145-150 | reading on after the size error gives it again if and only if the body exceeds the limit by more than one byte |
| `CappedReader.RefusedIffTooLarge` | internal/crawler/basic_client.go:118-124 | a response is refused, early or while reading, if and only if it declares or has more bytes than the limit; early without need exactly when only the declared length is too large |
| `CappedReader.HeadReplyIsRefused` | internal/crawler/basic_client.go:89-124 | a HEAD reply is refused for a declared length although it has no body |
| `SrcSet.ParseSrcSet` | internal/services/parser.go:587-622 | the character loop computes the scanner's result |
| `SrcSet.FeedSeparator` | internal/services/parser.go:599-614 | after a described URL a separator closes it, whatever white space and commas follow |
| `SrcSet.CommaSticks` | internal/services/parser.go:599-606 | to an undescribed URL the separating comma sticks |
| `SrcSet.RoundTripIffDescribed` | internal/services/parser.go:587-622 | a rendered candidate list is recovered, inner commas included, for any gaps and any padding, if and only if every candidate but the last has a descriptor |
| `SrcSet.PlainListIsMisread` | internal/services/parser.go:599-621 | two plain URLs separated by a comma and a space come back as one URL with the comma |
| `RateLimit.MapKeyInjective` | internal/api/ratelimit.go:63 | different class and key pairs never share a counter |
| `RateLimit.WindowHolds` | internal/api/ratelimit.go:61-62 | from the epoch on a window holds the instants from its start up to the next one |
| `WindowBlocks.CapIsLostBetweenBlocks` | internal/api/ratelimit.go:66-74 | capping each block gives the capped total exactly when the total fits or there is one block |
| `RateLimit.WindowSpan` | internal/api/ratelimit.go:61-62 | an interval of one window length meets at most two windows, for clocks before the epoch too |
| `RateLimit.FixedWindowLimiter.Allow` | internal/api/ratelimit.go:52-80 | decision, remaining grants, reset time and new counters |
| `RateLimit.UncountedIsFree` | internal/api/ratelimit.go:53-59 | calls without key, class or positive limit are granted and change no counter |
| `RateLimit.CounterIsExact` | internal/api/ratelimit.go:66-74 | over any history, in any order of clock readings, the counter is the capped size of the last block, and the grants of a window are its capped block sizes |
| `RateLimit.GrantsPerWindow` | internal/api/ratelimit.go:52-80 | grants of a window in any order of service: min(block, limit) per block of consecutive calls; min(requests, limit) exactly when the requests fit or form one block |
| `RateLimit.GrantsInOrder` | internal/api/ratelimit.go:52-80 | exactly min(requests, limit) grants per aligned window when the pair is served in the order of its windows |
| `RateLimit.StaleReadingForgetsGrants` | internal/api/ratelimit.go:60-69 | a call with an older clock reading served in between lets a window grant twice its limit |
| `RateLimit.GrantsPerInterval` | internal/api/ratelimit.go:52-80 | in any interval of one window length at most the limit per block of the two windows it meets |
| `RateLimit.GrantsPerIntervalInOrder` | internal/api/ratelimit.go:52-80 | at most twice the limit in any such interval when served in order |
| `Budgets.AcquireHolds` | internal/api/ratelimit.go:118-123 | acquiring keeps the counters equal to the unreleased grants and within both limits |
| `Budgets.ReleaseHolds` | internal/api/ratelimit.go:130-134 | so does releasing a held grant, and empty keys are dropped |
| `Budgets.RoomIffBelowLimits` | internal/api/ratelimit.go:118-121 | a slot is granted exactly while the unreleased grants of the tenant, and of all, are below their limits |
| `Budgets.TotalIsSum` | internal/api/ratelimit.go:101-137 | the total is the sum of the per-tenant counts and the number of grants |
| `Budgets.ConcurrencyBudget.Acquire` | internal/api/ratelimit.go:113-125 | refused exactly when the unreleased grants of the tenant, or of all, have reached a limit; otherwise one more grant |
| `Budgets.Grant.Release` | internal/api/ratelimit.go:126-136 | gives back one slot the first time and nothing after that |
| `CrawlTable.ReserveKeeps` | internal/repository/api_crawls.go:56-108 | reserving keeps one active row per project and one record per crawl |
| `CrawlTable.MarkKeeps` | internal/repository/api_crawls.go:110-125 | marking only moves a queued row forward and writes the upstream id once |
| `CrawlTable.CompleteKeeps` | internal/repository/api_crawls.go:127-145 | completing frees the active slot and leaves terminal rows alone |
| `CrawlTable.CancelKeeps` | internal/repository/api_crawls.go:189-226 | a cancel request keeps the state and touches no terminal row |
| `CrawlTable.RecoverKeeps` | internal/repository/api_crawls.go:228-234 | after recovery no row is active, and terminal rows are untouched |
| `CrawlTable.RecoveryFailsTheRest` | internal/repository/api_crawls.go:228-234 | queued and running crawls become failed with the restart code, all others stay as they were |
| `CrawlTable.LateMarkIsHarmless` | internal/repository/api_crawls.go:110-125 | a late mark of a terminal row succeeds and changes nothing |
| `CrawlTable.FollowUpReadIsStable` | internal/repository/api_crawls.go:120-144 | reading the state in a second statement gives the verdict of the first, whatever ran in between |
| `CrawlTable.ReuseIsRefused` | internal/repository/api_crawls.go:34-69 | an idempotency key used for another project is refused by both look-ups and changes nothing |
| `CrawlTable.SlotTakenIffUnfinished` | internal/repository/api_crawls.go:93-98 | a project's slot is taken exactly while one of its crawls is queued or running |
| `CrawlTable.ReplayDecides` | internal/repository/api_crawls.go:34-54 | when the replay look-up answers with nothing, a conflict or the recorded crawl |
| `CrawlTable.ReserveDecides` | internal/repository/api_crawls.go:56-108 | when the reserving transaction gives each answer, and what it stores |
| `CrawlTable.EmptyFieldsStoreNothing` | internal/repository/api_idempotency.go:28-31 | callers without key or tenant find nothing, and no record is stored with an empty field |
| `CrawlTable.OnlyFinalStatesComplete` | internal/repository/api_crawls.go:127-130 | a completion that names no final state is refused and changes nothing |
| `CrawlTable.CancelIsScoped` | internal/repository/api_crawls.go:189-226 | a cancel changes only an unfinished crawl of the caller's tenant and project, for credentials not bound to a project |
| `CrawlTable.APICrawlRepository.ReserveCrawl` | internal/repository/api_crawls.go:56-108 | reply and table of the reserving transaction, branch by branch |
| `CrawlTable.APICrawlRepository.MarkCrawlRunning` | internal/repository/api_crawls.go:110-125 | result and table of the mark |
| `CrawlTable.APICrawlRepository.CompleteCrawl` | internal/repository/api_crawls.go:127-145 | result and table of the completion |
| `CrawlTable.APICrawlRepository.RequestCancelCrawl` | internal/repository/api_crawls.go:189-226 | returned crawl and table of the cancel transaction, column by column |
| `CrawlerRegistry.CrawlerService.AddCrawler` | internal/services/crawler.go:229-281 | refused exactly when the project has a crawler, otherwise a fresh one with its flag down |
| `CrawlerRegistry.CrawlerService.RemoveCrawler` | internal/services/crawler.go:284-290 | removes that project's crawler and flag only |
| `CrawlerRegistry.CrawlerService.StopCrawler` | internal/services/crawler.go:213-224 | stops the project's own crawler and raises its flag, or does nothing |
| `CrawlerRegistry.CrawlerService.CrawlerCanceled` | internal/services/crawler.go:292-296 | the flag, false for a project without crawler |
| `LifecycleSafety.StepKeepsTable` | internal/api/crawl_manager.go:98-149 | every step of the protocol keeps the table invariants and only moves rows forward |
| `LifecycleSafety.ActKeepsShape` | internal/api/crawl_manager.go:71-149 | at each point of a start call it is known who still owes the slot |
| `LifecycleSafety.ActKeepsSlots` | internal/api/crawl_manager.go:71-84 | every act keeps the budget equal to the slots held |
| `LifecycleSafety.ActKeepsOwns` | internal/repository/api_crawls.go:34-108 | a session's row and record stay its own, and a replay names the recorded crawl |
| `LifecycleSafety.LaunchesKept` | internal/api/crawl_manager.go:98-141 | each launched worker belongs to the crawl its key is recorded for |
| `LifecycleSafety.LiveKept` | internal/services/crawler.go:229-290 | no project ever has two live workers |
| `LifecycleSafety.OutcomesKept` | internal/api/crawl_manager.go:104-146 | a row follows its own worker only, as long as none of its own session's store calls failed |
| `LifecycleSafety.EveryStateIsSafe` | internal/api/crawl_manager.go:58-183 | all of these in every state of every run, restarts included |
| `LifecycleResults.RowsAreConsistent` | internal/repository/api_crawls.go:17-25 | the active slot is set exactly for queued and running rows, once per project |
| `LifecycleResults.TerminalForever` | internal/repository/api_crawls.go:22-25 | a terminal row never changes in any column, and an upstream id once written stays |
| `LifecycleResults.ReportIsTheWorkersOwn` | internal/api/crawl_manager.go:104-126 | as long as none of the session's store calls failed, the callback reports cancel, then failure, then success, with the worker's totals |
| `LifecycleResults.WorkerVerdictStands` | internal/api/crawl_manager.go:98-149 | as long as none of the session's store calls failed, its row ends with the state, failure, totals and end time the worker reported, also when completion overtakes `MarkCrawlRunning`, whatever fails elsewhere, and stays so |
| `LifecycleResults.FailedStartSettlesRow` | internal/api/crawl_manager.go:137-146 | a start that fails after reserving returns an error, frees its slot and fails the row with its code unless the worker settled it first |
| `LifecycleResults.BindingFailureIsReported` | internal/api/crawl_manager.go:111-118 | a failed binding is reported as such, whatever the worker found |
| `LifecycleResults.ReportIsRetriedOnce` | internal/api/crawl_manager.go:131-135 | after one failed report the worker tries once more and goes on; unless both were lost the row is as reported |
| `LifecycleResults.IllFormedIsRefused` | internal/api/crawl_manager.go:58-65 | a call that fails a guard is refused at once with no slot, row or worker |
| `LifecycleResults.FailedCallsGiveUp` | internal/api/crawl_manager.go:68-101 | a failed look-up, project check or reservation ends the call with an error and gives its slot back |
| `LifecycleResults.FailedMarkStops` | internal/api/crawl_manager.go:142-146 | when `MarkCrawlRunning` fails the call stops its worker and fails the row instead of answering started |
| `LifecycleResults.NewKeyIsReserved` | internal/api/crawl_manager.go:98-101 | a new key of a known project without unfinished crawl reserves its row and goes on to launch |
| `LifecycleBinding.StartedCrawlIsNamed` | internal/api/crawl_manager.go:111-148 | the row of a started call or reported worker is running or terminal, names its crawl and has a start time |
| `LifecycleResults.CancelOrdersStop` | internal/api/crawl_manager.go:166-183 | a cancel of an unfinished visible crawl is recorded unless its statement was lost, orders a stop exactly when statement and look-up succeed, and any other cancel changes nothing |
| `LifecycleResults.StopReachesWorker` | internal/services/crawler.go:213-224 | once a stop has met a crawling worker its flag stays up until that worker has read it |
| `LifecycleResults.CancelWasMet` | internal/services/crawler.go:213-224 | a worker reports a cancel only because some stop of its project met it crawling |
| `LifecycleResults.CancelIsHonoured` | internal/api/crawl_manager.go:104-183 | the row of a finished worker without store failures of its own is canceled if and only if a stop of its project met the worker crawling; an earlier stop is lost |
| `LifecycleWitness.EarlyStopIsLost` | internal/api/crawl_manager.go:137-182 | for every start call a run in which the cancel is recorded and its stop made before the launch, and the worker ends as succeeded |
| `LifecycleResults.SlotsAreConserved` | internal/api/crawl_manager.go:71-84 | in every state the counters are the unreleased slots, within both limits |
| `LifecycleResults.QuotaRefusalIsJust` | internal/api/crawl_manager.go:71-78 | a start call is refused for quota exactly when the unreleased slots of its tenant, or of all, have reached a limit |
| `LifecycleResults.NoSlotLeaks` | internal/api/crawl_manager.go:79-149 | when all calls and workers are done the budget is empty |
| `LifecycleResults.SlotIsFreedOnce` | internal/api/crawl_manager.go:80-105 | a slot is given back once over all return paths and the callback |
| `LifecycleResults.OneWorkerPerKey` | internal/api/crawl_manager.go:66-141 | over a run with restarts a key pair starts at most one worker |
| `LifecycleResults.AnswersAgree` | internal/api/crawl_manager.go:66-101 | all successful answers to one key name the same crawl |
| `LifecycleResults.ReplayIsAnswered` | internal/api/crawl_manager.go:66-101 | a key used before for the same project is answered with the recorded crawl, with no slot kept and no row changed |
| `LifecycleResults.ReuseGetsNothing` | internal/api/crawl_manager.go:66-101 | over every run a call that reuses another project's key never has a row or a worker and is never answered with a crawl |
| `LifecycleResults.ReuseChangesNothing` | internal/api/crawl_manager.go:66-101 | both look-ups refuse the reuse of a key for another project, change no row or record, and an acquired slot is given back |
| `LifecycleResults.OneWorkerPerProject` | internal/services/crawler.go:229-235 | live workers belong to different projects |
| `LifecycleResults.RestartClears` | internal/repository/api_crawls.go:228-234 | a restart leaves no used slot and no worker, and no active row once its recovery reached the store; a lost recovery leaves the table as it was |
| `LexOrder.PrefixSandwich` | internal/archiver/reader.go:165-170 | between a string and an extension of it there are only extensions |
| `LexOrder.SortIsUnique` | internal/archiver/writer.go:225 | sorted arrangements of the same lines are equal, so any correct sort yields the model's |
| `LexOrder.Search` | internal/archiver/reader.go:165-167 | the binary search finds the first line not below the target |
| `LexOrder.PrefixSearchExact` | internal/archiver/reader.go:165-172 | that line starts with the target exactly when any line does, and is the least of them |
| `ArchiveIndex.SplitJoin` | internal/archiver/reader.go:94-97 | splitting joined labels gives the labels back |
| `ArchiveIndex.JoinSplit` | internal/archiver/writer.go:211-214 | joining split labels gives the host back |
| `ArchiveIndex.SearchKeyInjective` | internal/archiver/writer.go:211-214 | two URLs whose hosts have no comma share a search key exactly when host and request URI agree |
| `ArchiveIndex.HostSharesKeysIff` | internal/archiver/writer.go:211-214 | some other host has the same keys if and only if the host has a dot or a comma; that other host or the host itself has a comma |
| `ArchiveIndex.CommaHostCollides` | internal/archiver/writer.go:211-214 | two different hosts with one search key |
| `ArchiveIndex.LinesReadBack` | internal/archiver/reader.go:156-162 | splitting the written file gives the lines back |
| `ArchiveIndex.ReaderFindsSortedLines` | internal/archiver/writer.go:209-230 | sorting with line feeds and reading without them agree: the reader sees the lines sorted |
| `Archive.FindLineExact` | internal/archiver/reader.go:164-174 | on sorted lines the look-up answers exactly when a line starts with the target, with the least such line |
| `Archive.SearchFileSegment` | internal/archiver/reader.go:136-175 | split, drop blank lines, binary search and prefix check compute that look-up; on any file the answer is a line of it that starts with the target |
| `Archive.IndexOf` | internal/archiver/reader.go:106 | the first brace, or none |
| `Archive.ReadArchive` | internal/archiver/reader.go:31-121 | key, look-up, range and slice, with each error case; on any index the range is that of a line that starts with the key |
| `Archive.LongerKeySortsLater` | internal/archiver/writer.go:221-225 | a longer key sorts after every line of the key it extends, unless it goes on with a space |
| `Archive.KeyIsExactIffUnbeaten` | internal/archiver/reader.go:164-172 | in general the target key is found if and only if one of its records sorts before all lines that keys extended by a space put under the target |
| `Archive.SpaceStealsLookup` | internal/archiver/reader.go:164-172 | a query with a space takes the look-up of the query it extends |
| `Archive.KeyIsExactIffWritten` | internal/archiver/reader.go:164-172 | when no written key extends the target by a space or the other way round, the line found has the target key if and only if that key was written |
| `Archive.LeastOfKey` | internal/archiver/reader.go:164-172 | then it is the least line of that key |
| `Archive.Writer.AddRecord` | internal/archiver/writer.go:121-140 | a full write extends stream, index and offset together; a failed one extends the stream only |
| `Archive.Writer.CreateIndex` | internal/archiver/writer.go:209-230 | the two loops and the sort produce the index file |
| `Archive.RangesHoldPayloads` | internal/archiver/writer.go:126-140 | each index range, moved by the torn bytes before it, holds exactly its record |
| `Archive.RangesTile` | internal/archiver/writer.go:126-140 | without torn bytes the ranges tile the stream from its start to its end |
| `Archive.OffsetIsEarly` | internal/archiver/writer.go:121-140 | each recorded offset is the record's start minus the torn bytes before it |
| `Archive.ReadsBackWhatWasWritten` | internal/archiver/reader.go:31-121 | reading a written key reads the range of the record of that key whose line sorts least; the range is the record's own exactly if no write before it was torn, and then the bytes are the record's |
| `Archive.TornWriteBreaksRoundTrip` | internal/archiver/writer.go:121-140 | one torn byte before a record of two makes the read return other bytes |
| `Paging.ParsePageRequest` | internal/api/findings.go:215-233 | accepts exactly limits 1 to 500 and positive cursors, and yields what paging relies on |
| `Paging.ListPage` | internal/repository/api_findings.go:33-82 | the shared body of the four list methods returns the page above the cursor and the next cursor, or 0 at the end |
| `Paging.AscendingSplits` | internal/repository/api_findings.go:16-22 | cutting the ordered list at a cursor leaves exactly the rows above it |
| `Paging.PageThenRest` | internal/repository/api_findings.go:74-81 | a page followed by what its next cursor selects is the whole list |
| `Paging.FilterExact` | internal/services/api_exports.go:222-225 | filtering keeps each eligible row as often as it occurs, and no other row |
| `Paging.FilteredList` | internal/services/api_exports.go:221-241 | the filtered list is the list of the eligible rows in cursor order |
| `Paging.WritePage` | internal/services/api_exports.go:143-163 | writing one page leaves exactly the rest owed, with fewer rows above the cursor |
| `Paging.StreamExport` | internal/services/api_exports.go:139-246 | for any limit of at least 1 the streaming loop ends and writes exactly the kept rows, in cursor order |
| `Paging.PageCoversItsRange` | internal/repository/api_findings.go:33-82 | a page holds exactly the rows above the cursor up to the next one |
| `Paging.WalkUnderInserts` | internal/repository/api_findings.go:16-82 | a walk while rows are inserted emits strictly increasing cursors and, once ended, every row present at its start |
| `Paging.EmittedWerePresent` | internal/repository/api_findings.go:16-82 | it emits only rows that exist |
| `Paging.WalkAtRest` | internal/repository/api_findings.go:16-82 | on a table at rest a walk ends and has received exactly the unpaged list |
| `Paging.CursorsAreExact` | internal/repository/api_findings.go:20-22 | interleaved cursors are positive, distinct across tables, and determine row and table |
| `Paging.InterleavedIsUnion` | internal/repository/api_findings.go:20-22 | the interleaved list holds every row of every table once and nothing else |
| `Paging.ExportResources` | internal/services/api_exports.go:190-210 | the resource export writes every row of each of the six tables exactly once, with its type |
| `Paging.KindFromCursor` | internal/repository/api_findings.go:20-22 | a link or resource cursor determines its kind |
| `ExportJobs.PathsAreExact` | internal/services/archive.go:34-57 | a published path is never a partial one and names one crawl |
| `ExportJobs.StepKeepsJobs` | internal/repository/api_exports.go:14-24 | jobs move only from pending to ready or failed, start with a week to live, and vanish only after that |
| `ExportJobs.EveryStateIsSafe` | internal/services/api_exports.go:50-103 | ready jobs and finalizers name published files of their own crawl in every state, also when a finalizer starts on a job settled since it was read |
| `ExportJobs.ReadyNamesPublishedFile` | internal/services/api_exports.go:286-304 | a ready job names a file published for its own crawl, never a partial one |
| `ExportJobs.SettledJobsStay` | internal/repository/api_exports.go:22-24 | a ready or failed job is frozen for as long as it exists |
| `ExportJobs.JobsLiveUntilExpiry` | internal/repository/api_exports.go:14-20 | in any interleaving a job stays, with its id, until its expiry |
| `ExportJobs.OneFinalizerPerJob` | internal/services/api_exports.go:71-75 | at any time at most one finalizer works on a job, and its id is held exactly while one does |
| `ExportJobs.FinalizersMoveOn` | internal/services/api_exports.go:286-304 | a working finalizer can always go on, ends after at most four steps, and is moved by nobody else |
| `ExportJobs.LooksDecide` | internal/services/api_exports.go:288-299 | what the two looks at the file system find decides between completing and failing |
| `ExportJobs.FailedCompletion` | internal/services/api_exports.go:300-303 | a completion that does not go through is followed by a failure attempt |
| `ExportJobs.FinalizerEnded` | internal/services/api_exports.go:286-304 | every ended finalizer made its pending job ready with its own path and size, or failed it, unless that last statement was lost |
| `ExportJobs.PurgeSteps` | internal/services/api_exports.go:87-101 | the two halves of a purge: the expired row with that id, and everything in the crawl directory |
| `ExportJobs.APIExportManager.ReserveArchive` | internal/repository/api_exports.go:66-79 | inserts a pending job or leaves the existing one |
| `ExportJobs.APIExportManager.CompleteArchive` | internal/repository/api_exports.go:109-113 | succeeds exactly on a pending job |
| `ExportJobs.APIExportManager.FailArchive` | internal/repository/api_exports.go:115-119 | fails a pending job, leaves any other alone |
| `ExportJobs.APIExportManager.FinalizeArchive` | internal/services/api_exports.go:286-304 | ready exactly when the archive file exists |
| `ExportJobs.APIExportManager.SnapshotArchive` | internal/services/api_exports.go:59-75 | settles the crawl's job, touching no other, and never re-opens a settled one |
| `ExportJobs.APIExportManager.CrawlCompleted` | internal/services/api_exports.go:50-76 | the snapshot followed by the deferred purge |
| `ExportJobs.APIExportManager.PurgeExpiredArchives` | internal/services/api_exports.go:78-103 | deletes exactly the first 500 jobs by expiry and id, or those before the first file error, with exactly their files |
| `ExportJobs.APIExportManager.PrepareArchive` | internal/services/api_exports.go:248-284 | one call on a terminal crawl's idle pending job settles it, ready exactly when the archive was published; a failed purge or an unknown crawl leaves its job alone |

## Left out

- URL parsing: a URL is its host and the rest of its text; `url.Parse` and `String` are taken to round-trip, so a sitemap URL that does not parse is not modelled.
- HTTP, HTML and CSS parsing, random delays, response data, timings and the HEAD method: a page is the lists of URLs its parse yields.
- A site answers each URL and each host's robots.txt once per run (`Site`); fixed answers lose nothing because fetches and robots replies happen at most once, see `CrawlCoverage.AtMostOnce` and `RobotsMemo.AnswersAreStable`.
- Goroutines that remain blocked after `Start` returned: the engine model stops there. `GetStatus` and `setupSitemaps` are not part of this model.
- RobotsMemo.RobotsChecker.IsBlocked: agent matching and query encoding are the library's, given as a function of the path.
- MySQL: each statement or transaction is atomic; the unique active slot per project is the schema's (migrations/0079). Deleting projects or idempotency records is not modelled.
- The request hash is taken to be injective, so the project id stands for it. Trimming of the start call's arguments is left to the caller.
- A start call without a budget (`Slots` nil) or without its collaborators is not modelled. Crawls started from the UI appear only as failed launches.
- No claim is made that cancelling one crawl cannot stop a later crawl of the same project: `CancelCrawl` stops by project after the row check.
- No claim is made that running workers stay within the slots after `MarkCrawlRunning` failed: the slot is freed while the worker winds down.
- Failure messages are left out of rows because they follow from the failure code.
- JSON, WARC framing and zip containers: given functions; a record is the stored bytes at its range, and parsing them is not modelled. `calculateHash`, pages and datapackage files are not part of this model.
- Archive.ReadArchive: on an index that is not sorted only the answer's prefix and range are promised, not which line answers; the writer produces sorted ones.
- Archive.ReadsBackWhatWasWritten: for keys that contain an opening brace the reader takes that brace for the start of the JSON object, so they are excluded.
- Scheme and port of archived URLs: the search key ignores them, so records differing only there share a key.
- Cursor tokens: HMAC and base64 are left out; a token stands for its row id.
- Ownership checks and row contents of findings, severity names, CSV and XML encoding: left out of pages and exports.
- Jobs that are inserted or deleted by others while a purge runs appear in the step machine of the export jobs, where file removal and row deletion are separate steps, not in the purge method.
- Crawl ids are generated and contain no path separator; path cleaning of the archive directory is not modelled.
- Clocks, generated ids and reply contents are parameters.
- `checkExternalLinks`, page reporters, UI routes, sessions, configuration, translation, key management and target policy: they would add only single-branch members.
