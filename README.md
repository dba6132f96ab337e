# Silver Surfers audit pipeline, modelled in Dafny

Silver Surfers audits websites for senior friendliness. A request names a
site and an e-mail address. The server puts the job on one of two queues
(full audit or quick scan) that share a single browser lock. A full audit:

- crawls the site breadth-first for same-origin links;
- runs a Lighthouse audit, restricted to a "senior-friendly" category of
  weighted audits, on every link for desktop and for mobile;
- turns each report into a weighted 0–100 score, highlighted screenshots
  and a PDF.

The quick scan runs a smaller "lite" category and produces a shorter PDF.

This project models that core as Dafny modules, one per source file:

| module | models |
|---|---|
| `Scheduler` | `server/server.js`: the shared browser lock, the two `JobQueue` objects, the two endpoints and `runFullAuditProcess` |
| `InternalLinks` | `internal_links/internal_links.js`: the `InternalLinksExtractor` class, its link filters, retries and crawl |
| `Configs` | `custom-config.js` and `custom-config-lite.js`: the two weighted audit lists |
| `Scoring` | the weighted-score loop shared by the audit module and both PDF generators |
| `Audit` | `load_and_audit/audit.js`: the score, the zero-score gate, the report path and the 403/timeout retry |
| `BackupAudit` | `load_and_audit/backup.js`: the three-attempt ladder with escalation and backoff, and the lite wrapper |
| `TextAudit`, `LayoutAudit`, `ColorAudit` | the three custom Lighthouse audits |
| `AccessibilityNodes` | the first-wins node map shared by the layout and colour audits |
| `FullReport` | `report_generation/pdf_generator.js`: score, colour ladders, category grouping, table pagination, node labels, PDF file name |
| `LiteReport` | `report_generation/pdf-generator-lite.js`: lite score, status ladder, result lines, report name |
| `BoxGeometry` | the box helpers the four `draw_boxes_*` files each define |
| `TextFontHighlight`, `ColorContrastHighlight`, `InteractiveColorHighlight`, `LayoutBrittleHighlight` | the four box-drawing processors |
| `DrawAll` | `drawing_boxes/draw_all.js` |
| `Common` | shared helpers: string predicates, `Math.round`, `Array.filter`, `path.join` |
| `Lighthouse` | the report records |

## How the source is modelled

- The scheduler and the link extractor change objects in place, so they are
  Dafny classes with `modifies` clauses:
  - `JobQueue` has a `queue` field;
  - `Server` owns the lock, the job in flight, the two queues and the list of
    settled request promises;
  - `InternalLinksExtractor` has `visited`, `results` and `baseOrigin` fields.
- An `await` on a job is split into two events:
  - `ProcessQueue` dispatches the job;
  - `Server.Complete` settles it, releases the lock and probes the full queue,
    then the quick queue.
- The source's loops are methods with loop invariants, each proved against a
  specification function. The rest is functions and lemmas.
- The crawl loop of `extractInternalLinks` is specified by `CrawlStep` (one
  pass of the loop body) and `CrawlLoop` (the passes from one entry on).
  `CrawlFrom` and `ExtractInternalLinks` end in exactly the state
  `CrawlLoop` reaches. The crawl's guarantees are lemmas about `CrawlLoop`.
- The audit runners build the audit URL as the source does, with the
  `startsWith('http')` test. The corrected rule is kept in separately named
  members (see Findings).
- Lighthouse, the browser, page fetches, file reads, image statistics,
  colour distance and WHATWG URL parsing are functions passed in as
  parameters. `Date.now()` is a parameter too.
- The `draw_boxes_*` processors need a `Report` parsed from a JSON file.
  The model takes the parse's outcome (`Outcome<Report>`) as its input.

## Model

| member | source | states |
|---|---|---|
| `Scheduler.JobQueue.constructor` | my-app/services/server/server.js:153-157 | a new queue is empty and carries its name |
| `Scheduler.JobQueue.ProcessQueue` | my-app/services/server/server.js:171-182 | a busy lock or an empty queue changes nothing; otherwise the lock is taken and the queue's head is in flight, with the rest of the queue kept in order |
| `Scheduler.JobQueue.AddBgJob` | my-app/services/server/server.js:159-162 | the job is appended as a background task and dispatched at once exactly when the lock was free |
| `Scheduler.JobQueue.AddRequestJob` | my-app/services/server/server.js:164-169 | the job is appended with a fresh promise number and dispatched at once exactly when the lock was free |
| `Scheduler.SettlementOf` | my-app/services/server/server.js:183-192 | a request task's promise is resolved when the job returned and rejected when it threw |
| `Scheduler.Server.constructor` | my-app/services/server/server.js:146-217 | the lock starts free, two fresh distinct queues exist, nothing is settled |
| `Scheduler.Server.Complete` | my-app/services/server/server.js:183-202 | a finished request task settles its own promise exactly once (background tasks settle nothing); the freed lock goes to the full queue's head whenever that queue is non-empty, otherwise to the quick queue's head, otherwise stays free |
| `Scheduler.Server.StartAudit` | my-app/services/server/server.js:221-228 | a missing e-mail or URL gives 400 and changes nothing; otherwise 202 and the job is queued as a background full audit |
| `Scheduler.Server.QuickScan` | my-app/services/server/server.js:230-236 | a missing e-mail or URL gives 400 and changes nothing; otherwise the caller holds a fresh promise for a request job on the quick queue |
| `Scheduler.PairsOf` | my-app/services/server/server.js:53-54 | every link is audited for desktop then mobile, in link order |
| `Scheduler.PairsOfMembers` | my-app/services/server/server.js:53-54 | a (link, device) pair is attempted iff the link was extracted and the device is desktop or mobile |
| `Scheduler.AuditLink` | my-app/services/server/server.js:54-87 | the inner loop attempts both devices and reports exactly the successful audits whose report generation succeeded |
| `Scheduler.AuditLinks` | my-app/services/server/server.js:53-88 | the outer loop attempts every pair and reports exactly those pairs, in order, whose audit succeeded and whose report generation succeeded |
| `Scheduler.ReportedPairs` | my-app/services/server/server.js:59-76 | a pair gets a report iff it was attempted, its audit succeeded and report generation succeeded; one failure never stops the others |
| `Scheduler.RunFullAuditProcess` | my-app/services/server/server.js:25-102 | a failed extraction signals `failed` with the extraction details and audits nothing; otherwise every pair is attempted and `completed` is signalled with the folder `reports-full/<email>` |
| `InternalLinks.OrDefault` | my-app/services/internal_links/internal_links.js:11-15 | an absent or zero option falls back to the default |
| `InternalLinks.ConfigDefaults` | my-app/services/internal_links/internal_links.js:10-16 | the defaults are 10 links, depth 2, 2000 ms, 15000 ms, 3 retries; zero options mean defaults; no setting is ever zero |
| `InternalLinks.InternalLinksExtractor.constructor` | my-app/services/internal_links/internal_links.js:9-21 | config from the options, nothing visited, no results, no origin |
| `InternalLinks.InvalidInternalLinkCases` | my-app/services/internal_links/internal_links.js:111-119 | a link is invalid iff it ends in an asset extension (any case), starts or ends with a quote or bracket, or is all whitespace; the empty string is invalid |
| `InternalLinks.ValidityIgnoresCase` | my-app/services/internal_links/internal_links.js:113 | lower-casing a URL never changes its validity, as the `/i` flag promises |
| `InternalLinks.StripTrailingSlash` | my-app/services/internal_links/internal_links.js:55 | exactly one trailing slash is removed, and only if present |
| `InternalLinks.Canonical` | my-app/services/internal_links/internal_links.js:44-61 | an anchor yields a link iff its href is non-empty, resolves to the page's origin, and the resolved URL without query, fragment or trailing slash is neither the bare origin nor an asset; that URL, with scheme, any user name and password, host and path, is the link |
| `InternalLinks.ClearedHrefPlain` | my-app/services/internal_links/internal_links.js:51-56 | a resolved URL without user name or password gives the origin followed by the path |
| `InternalLinks.ClearedHrefKeepsCredentials` | my-app/services/internal_links/internal_links.js:51-56 | clearing query and fragment keeps the credentials: two URLs that differ only in user name or password give the same link iff their credentials are equal |
| `InternalLinks.CanonicalIgnoresQueryAndHash` | my-app/services/internal_links/internal_links.js:52-55 | two hrefs that differ only in query or fragment give the same link |
| `InternalLinks.Dedup` | my-app/services/internal_links/internal_links.js:42-64 | the `Set` keeps each element once, first occurrence first, and loses none |
| `InternalLinks.CanonicalLinks` | my-app/services/internal_links/internal_links.js:88-108 | the anchor loop computes exactly the page's link list |
| `InternalLinks.PageLinksSpec` | my-app/services/internal_links/internal_links.js:42-64 | a page's links are distinct, and a URL is among them iff some anchor canonicalises to it |
| `InternalLinks.FilterDistinct` | my-app/services/internal_links/internal_links.js:128 | filtering out visited links keeps the list duplicate-free |
| `InternalLinks.ExtractLinksFromUrl` | my-app/services/internal_links/internal_links.js:122-140 | it throws iff both the browser and the plain fetch threw; otherwise the result is exactly the browser's link list (or, when that threw, the fetch's) with the visited links removed and the order kept, so it has no duplicates |
| `InternalLinks.InternalLinksExtractor.AttemptExtractionWithRetries` | my-app/services/internal_links/internal_links.js:142-156 | the first successful attempt's links are returned; with no success all `maxRetries` attempts threw and the last error is rethrown, null when no attempt was made; the delays number one fewer than the attempts; the outcome is `Retried`, the retry loop over `extractLinksFromUrl`'s attempts |
| `InternalLinks.RetryLoop` | my-app/services/internal_links/internal_links.js:144-154 | the loop over attempts 1 to `maxRetries` returns the first attempt that succeeds, every earlier one having thrown; with no success every attempt threw and the last message is kept; one delay between each two attempts; the outcome is `RetryFrom` from attempt 1 |
| `InternalLinks.RetryFromSpec` | my-app/services/internal_links/internal_links.js:142-156 | the retry loop's links come from one of its attempts, and a failure carries a message exactly when at least one attempt was made |
| `InternalLinks.RetriedFound` | my-app/services/internal_links/internal_links.js:122-156 | retried links are the unvisited part, in order, of one fetch of the page's link list |
| `InternalLinks.Urls` | my-app/services/internal_links/internal_links.js:211 | the URL list follows the results entry by entry |
| `InternalLinks.SliceTo` | my-app/services/internal_links/internal_links.js:211 | `slice(0, end)`: a prefix of at most `end` elements, with JavaScript's counting from the back for a negative `end` |
| `InternalLinks.CrawlPush` | my-app/services/internal_links/internal_links.js:191-196 | pushing a new, unvisited link one level below a shallower entry keeps the crawl invariant: distinct URLs, seed first, depths non-decreasing, each entry's source an earlier entry one level up, nothing below `maxDepth` |
| `InternalLinks.CrawlSetError` | my-app/services/internal_links/internal_links.js:200 | recording an error on an entry keeps the crawl invariant and the URL list |
| `InternalLinks.CrawlLinks` | my-app/services/internal_links/internal_links.js:209-216 | a crawl of at most `maxLinks` entries returns all its URLs: distinct, the seed first |
| `InternalLinks.PushLinks` | my-app/services/internal_links/internal_links.js:191-197 | the push loop as a function of the found links: it only appends, only children of the current entry whose links were found and not yet visited, never past `maxLinks`, and marks only found links visited |
| `InternalLinks.PushLinksFull` | my-app/services/internal_links/internal_links.js:192 | once `results` holds `maxLinks` entries the remaining links change nothing, which is the `break` |
| `InternalLinks.PushLinksComplete` | my-app/services/internal_links/internal_links.js:191-197 | when `results` does not fill up, every found link ends up visited |
| `InternalLinks.PushLinksOfDistinct` | my-app/services/internal_links/internal_links.js:191-197 | for duplicate-free found links the loop appends, in order, the children of the unvisited links, as many as there is room for below `maxLinks` |
| `InternalLinks.PushLinksCrawl` | my-app/services/internal_links/internal_links.js:191-197 | the push keeps the crawl invariant and `visited` equal to the pushed URLs, and never exceeds `maxLinks` entries |
| `InternalLinks.InternalLinksExtractor.PushFoundLinks` | my-app/services/internal_links/internal_links.js:191-197 | the new `results` and `visited` are exactly those of the push loop over the found links |
| `InternalLinks.InternalLinksExtractor.SettleEntry` | my-app/services/internal_links/internal_links.js:188-204 | found links are pushed and nothing aborts; a failure records its message on the entry only and aborts with the base-URL message exactly when the entry is the seed; a null error changes nothing and aborts with the TypeError message |
| `InternalLinks.SettledIsStep` | my-app/services/internal_links/internal_links.js:182-204 | settling an entry after the retried extraction is one step of the crawl loop |
| `InternalLinks.StepShape` | my-app/services/internal_links/internal_links.js:176-206 | one loop pass from a frontier state reaches the next frontier, or a finished crawl when it aborts |
| `InternalLinks.CrawlLoopShape` | my-app/services/internal_links/internal_links.js:174-211 | the loop ends with distinct URLs, the seed first, `visited` mirroring `results`, at most `maxLinks` entries, an error on the seed exactly when the seed's failure aborted it, and other errors only above `maxDepth` |
| `InternalLinks.CrawlLoopLaterAborts` | my-app/services/internal_links/internal_links.js:201-203 | only the entry at index 0 can abort the crawl with the base-URL message |
| `InternalLinks.SeedAbort` | my-app/services/internal_links/internal_links.js:175-203 | the crawl aborts with the base-URL message iff there is room for a second entry, `maxDepth` is positive and every attempt on the seed failed with an error |
| `InternalLinks.StepSourced` | my-app/services/internal_links/internal_links.js:189-196 | a loop pass adds only links that some fetch of the processed page returned |
| `InternalLinks.CrawlLoopSourced` | my-app/services/internal_links/internal_links.js:174-207 | every entry after the seed was found on the page of its source |
| `InternalLinks.PushExpands` | my-app/services/internal_links/internal_links.js:189-197 | pushing without filling `maxLinks` leaves every link of one fetch of the page visited |
| `InternalLinks.StepCloses` | my-app/services/internal_links/internal_links.js:176-206 | a pass that neither aborts nor fills `maxLinks` leaves its entry expanded, failed or at `maxDepth`, and keeps earlier entries expanded |
| `InternalLinks.CrawlLoopCloses` | my-app/services/internal_links/internal_links.js:174-207 | a crawl that neither aborts nor fills `maxLinks` entries has expanded every entry below `maxDepth` that did not fail |
| `InternalLinks.CrawlFromSeed` | my-app/services/internal_links/internal_links.js:162-226 | from the seed the crawl finishes in shape, every later entry was found on its source's page, the seed-failure abort happens exactly when every attempt on the seed fails, and a crawl that stops short of `maxLinks` is closed under expansion |
| `InternalLinks.InternalLinksExtractor.ProcessEntry` | my-app/services/internal_links/internal_links.js:176-206 | one loop pass changes `results` and `visited` exactly as one crawl step does, and aborts with that step's message |
| `InternalLinks.InternalLinksExtractor.CrawlFrom` | my-app/services/internal_links/internal_links.js:174-216 | the loop ends in the state the crawl loop reaches from entry 0, and resolves with that crawl's links or its abort message as a critical error |
| `InternalLinks.InternalLinksExtractor.ExtractInternalLinks` | my-app/services/internal_links/internal_links.js:162-226 | an unparsable base URL is a critical error that changes neither the results, the visited set nor the recorded origin; otherwise the crawl runs from the seed, with the crawl invariant, sources on their pages, the seed-failure abort iff the seed fails, and expansion of every unfailed entry below `maxDepth` when fewer than `maxLinks` entries were found |
| `Configs.Ids` | my-app/services/load_and_audit/custom-config.js:64-110 | the id list follows the audit refs entry by entry |
| `Configs.FullRefsDistinct` | my-app/services/load_and_audit/custom-config.js:64-110 | the full category has 17 audits with distinct ids |
| `Configs.FullWeights` | my-app/services/load_and_audit/custom-config.js:66-108 | six audits weigh 10, six weigh 5, five weigh 2, and the weights total 100 |
| `Configs.FullOnlyCategories` | my-app/services/load_and_audit/custom-config.js:33-56 | only the `senior-friendly` category is run and defined |
| `Configs.LiteRefsDistinct` | my-app/services/load_and_audit/custom-config-lite.js:28-47 | the lite category has 11 audits with distinct ids |
| `Configs.LiteWeights` | my-app/services/load_and_audit/custom-config-lite.js:28-47 | three audits weigh 5, four weigh 3, two weigh 2, two weigh 1, and the weights total 33 |
| `Configs.LiteOnlyCategories` | my-app/services/load_and_audit/custom-config-lite.js:16-24 | only the `senior-friendly-lite` category is run and defined |
| `Scoring.Accumulate` | my-app/services/load_and_audit/audit.js:42-57 | the loop's totals are the weighted sum and the weight sum of the refs; the missing audits are listed in order, and processed plus missing is the number of refs |
| `Scoring.MissingIdsInOrder` | my-app/services/load_and_audit/audit.js:47-50 | the missing audits are exactly the refs' ids absent from the report, in ref order |
| `Scoring.WeightedSumBounds` | my-app/services/load_and_audit/audit.js:42-57 | with non-negative weights and scores in [0, 1] the weighted sum lies between 0 and the total weight |
| `Scoring.PercentBounds` | my-app/services/load_and_audit/audit.js:70 | the final percentage lies in [0, 100] |
| `Scoring.WeightedSumDependsOnScores` | my-app/services/load_and_audit/audit.js:44-46 | the sum depends only on the scores of the listed audits |
| `Scoring.AbsentOrNullIsZero` | my-app/services/load_and_audit/audit.js:45-46 | a missing audit and a null score both count as score 0 |
| `Scoring.WeightedSumMonotone` | my-app/services/load_and_audit/audit.js:42-57 | raising scores never lowers the weighted sum |
| `Scoring.RaiseOneScore` | my-app/services/load_and_audit/audit.js:70 | raising one audit's score never lowers the final percentage |
| `Scoring.SumWeightsNonNegative` | my-app/services/load_and_audit/audit.js:55 | non-negative weights give a non-negative total |
| `Scoring.WeightedSumZero` | my-app/services/load_and_audit/audit.js:42-57 | the weighted sum is zero iff every listed audit contributes zero |
| `Audit.CalculateSeniorFriendlinessScore` | my-app/services/load_and_audit/audit.js:13-74 | the method computes the score specification, lists missing audits in order, and processes nothing when the category is absent or empty |
| `Audit.SeniorScoreMeaning` | my-app/services/load_and_audit/audit.js:19-73 | the score is an error iff the category is missing, empty or weightless, and an error carries zeros; otherwise the final score lies in [0, 100] for sane inputs |
| `Audit.FullConfigScore` | my-app/services/load_and_audit/custom-config.js:64-110 | under the shipped configuration the final score equals the weighted sum, out of 100 |
| `Audit.FullConfigZeroScore` | my-app/services/load_and_audit/audit.js:242-256 | under the shipped configuration the zero-score gate fires iff every one of the 17 audits scored 0 |
| `Audit.ReportPath` | my-app/services/load_and_audit/audit.js:263-266 | `report-<host>-<timestamp>.<format>` with every dot of the host turned into a dash |
| `Audit.PerformAudit` | my-app/services/load_and_audit/audit.js:233-288 | a Lighthouse throw propagates; a zero score returns without saving; otherwise a missing host throws and a parsed host saves the JSON or rendered report under `ReportPath` |
| `Audit.NormalizeUrlAsWrittenMissesHttpHosts` | my-app/services/load_and_audit/audit.js:300 | the as-written prefix test leaves the host `httpbin.org` without a scheme |
| `Audit.NormalizeUrl` | my-app/services/load_and_audit/audit.js:300 | the normalised URL always has a web scheme; a URL that has one is unchanged, otherwise `https://` is prepended |
| `Audit.NormalizeUrlAgrees` | my-app/services/load_and_audit/audit.js:300 | the corrected normaliser agrees with the source on every URL with a scheme or not starting with `http`, and is idempotent |
| `Audit.AuditWithRetry` | my-app/services/load_and_audit/audit.js:302-321 | one or two `performAudit` calls on the built URL and device, standard first and advanced second |
| `Audit.RunLighthouseAudit` | my-app/services/load_and_audit/audit.js:293-322 | an empty URL fails with no Lighthouse call; otherwise at most two calls, standard first and advanced second, each on the URL built by the `startsWith('http')` rule and the defaulted device |
| `Audit.RunLighthouseAuditCorrected` | my-app/services/load_and_audit/audit.js:293-322 | with the corrected URL rule every call gets a URL with a web scheme |
| `Audit.CorrectedRunAgrees` | my-app/services/load_and_audit/audit.js:300 | the corrected request equals the written one on URLs with a scheme or not starting with `http`; on `httpbin.org` the written one audits a URL with no scheme |
| `Audit.RetryDecision` | my-app/services/load_and_audit/audit.js:300-321 | on the URL as the source builds it, the advanced retry runs iff the standard run threw a 403 or a timeout; the reply is the standard result, the standard error, or the advanced outcome accordingly |
| `BackupAudit.ReportPath` | my-app/services/load_and_audit/backup.js:283-291 | the path starts `report-` and a lite run's ends `-lite.<format>` |
| `BackupAudit.LiteSuffixSeparates` | my-app/services/load_and_audit/backup.js:289-291 | a lite and a full report of the same host and time never share a path |
| `BackupAudit.PerformAudit` | my-app/services/load_and_audit/backup.js:14-319 | the attempt succeeds iff Lighthouse ran and the host parsed; the success record carries the attempt number, the lite flag, the URL and the report path |
| `BackupAudit.EscalatesIff` | my-app/services/load_and_audit/backup.js:487-495 | a failure escalates to the advanced run iff its message mentions a 403, a timeout, `timed out`, a connection or connecting to the browser |
| `BackupAudit.PerformerStamped` | my-app/services/load_and_audit/backup.js:301-319 | every success reports the attempt number that produced it |
| `BackupAudit.BackoffValues` | my-app/services/load_and_audit/backup.js:579-583 | the waits between the three attempts are 2000 ms then 4000 ms; the 8000 ms wait is never reached |
| `BackupAudit.TryAttempt` | my-app/services/load_and_audit/backup.js:437-529 | one attempt runs the standard audit, escalates when the error qualifies, and succeeds iff either run succeeded; a failure yields its error record |
| `BackupAudit.Ladder` | my-app/services/load_and_audit/backup.js:435-587 | the loop returns the first successful attempt or, after three failures, the failure record; the calls and waits are those of the attempts made |
| `BackupAudit.FailedAttemptsRecorded` | my-app/services/load_and_audit/backup.js:467-571 | a final failure lists three attempt records, numbered 1 to 3, each with its standard error and, exactly when it escalated, the advanced error; the waits were 2000 and 4000 ms |
| `BackupAudit.LadderSucceeds` | my-app/services/load_and_audit/backup.js:435-517 | when attempt n is the first to succeed, the ladder returns its result after the calls and waits of n attempts |
| `BackupAudit.LadderFails` | my-app/services/load_and_audit/backup.js:535-571 | when no attempt succeeds, the result is the `AUDIT_FAILED` record with the last standard error and `retryable` set |
| `BackupAudit.CallsShape` | my-app/services/load_and_audit/backup.js:435-529 | n attempts make between n and 2n calls; an advanced call always directly follows a standard call of the same attempt that escalated |
| `BackupAudit.RequestSetup` | my-app/services/load_and_audit/backup.js:401-427 | the audit URL is built by the `startsWith('http')` rule, so it has a web scheme only when the URL had one or did not start with `http`; device and format take their defaults; the lite flag selects the lite configuration |
| `BackupAudit.RequestSetupCorrected` | my-app/services/load_and_audit/backup.js:427 | with the corrected rule the audit URL always has a web scheme, and the request equals the written one except on hosts starting with `http` |
| `BackupAudit.LadderOnBuiltRequest` | my-app/services/load_and_audit/backup.js:427-571 | a success names the built URL and device and comes from a run that completed on that URL; a final failure reports them, and every standard try on the URL crashed or had no hostname |
| `BackupAudit.RunLighthouseAudit` | my-app/services/load_and_audit/backup.js:399-589 | an empty URL gives the `MISSING_URL` refusal with no call; otherwise the ladder's outcome on the request as built, whose success or failure reports the built URL and defaulted device |
| `BackupAudit.RunLighthouseLiteAudit` | my-app/services/load_and_audit/backup.js:603-605 | an empty url gives the exact lite `MISSING_URL` refusal with no call; otherwise the result, calls and waits are the retry ladder's outcome on the request built with `isLiteVersion` on; every result is marked lite, and a success's path ends `-lite.<format>` |
| `TextAudit.Audit` | my-app/services/load_and_audit/custom_audits/text-audit.js:16-51 | no text is not applicable; otherwise score 1 with the failing items |
| `TextAudit.FailingItemsExactly` | my-app/services/load_and_audit/custom_audits/text-audit.js:23-38 | an item is listed iff some collected text has a font size below 16, with that text's snippet, rectangle and container |
| `TextAudit.FailingItemsInOrder` | my-app/services/load_and_audit/custom_audits/text-audit.js:23-38 | the items keep the page order |
| `TextAudit.AllSmallAllListed` | my-app/services/load_and_audit/custom_audits/text-audit.js:3-38 | when every text is small, every text is listed, in order |
| `LayoutAudit.FailureReason` | my-app/services/load_and_audit/custom_audits/layout-audit.js:15-27 | the reason is one of the three explanations |
| `LayoutAudit.FailureReasonClasses` | my-app/services/load_and_audit/custom_audits/layout-audit.js:15-27 | `hidden`/`clip` give the cut-off reason, `scroll`/`auto` the scrollbar reason, anything else the overlap reason |
| `LayoutAudit.BuildNodeMap` | my-app/services/load_and_audit/custom_audits/layout-audit.js:37-51 | the loop builds the first-wins map of rounded rectangle keys |
| `LayoutAudit.Audit` | my-app/services/load_and_audit/custom_audits/layout-audit.js:29-91 | no brittle element gives score 1; otherwise score 0, one item per element in order, and the count in the display value |
| `LayoutAudit.MatchIsFirstNode` | my-app/services/load_and_audit/custom_audits/layout-audit.js:43-65 | an element matches iff some accessibility node has its key, and then gets the first such node; otherwise it gets a synthetic node with its own rectangle and selector |
| `AccessibilityNodes.SetIfAbsent` | my-app/services/load_and_audit/custom_audits/color-audit.js:86-89 | an existing key keeps its node; the key set grows by the new key |
| `AccessibilityNodes.FirstWinsAppend` | my-app/services/load_and_audit/custom_audits/color-audit.js:79-92 | one more pair updates the map only if its key is new |
| `AccessibilityNodes.FirstWinsSpec` | my-app/services/load_and_audit/custom_audits/layout-audit.js:43-51 | a key is in the map iff some pair has it, and maps to the node of the first such pair |
| `ColorAudit.FailureReason` | my-app/services/load_and_audit/custom_audits/color-audit.js:56-63 | the identical-colour explanation is given iff the difference is 0 |
| `ColorAudit.ShortfallIsPercentage` | my-app/services/load_and_audit/custom_audits/color-audit.js:60 | for a failing, non-zero difference the shortfall is a percentage in [0, 100] |
| `ColorAudit.BuildNodeMap` | my-app/services/load_and_audit/custom_audits/color-audit.js:73-92 | the loop builds the first-wins map of exact and rounded keys |
| `ColorAudit.FindMatchingNode` | my-app/services/load_and_audit/custom_audits/color-audit.js:113-117 | the lookup returns the node of the first key present |
| `ColorAudit.LookupPrefersExact` | my-app/services/load_and_audit/custom_audits/color-audit.js:109-117 | the exact-position key wins over the rounded one |
| `ColorAudit.Prefix` | my-app/services/load_and_audit/custom_audits/color-audit.js:124-125 | `substring(0, 50)`: a prefix of at most 50 characters |
| `ColorAudit.Audit` | my-app/services/load_and_audit/custom_audits/color-audit.js:65-162 | no links is not applicable; no failing link gives score 1; otherwise the score, the display value and the failing items |
| `ColorAudit.ScoreBounds` | my-app/services/load_and_audit/custom_audits/color-audit.js:152 | with at least one failing link the score lies in [0, 1) |
| `ColorAudit.ScoreRange` | my-app/services/load_and_audit/custom_audits/color-audit.js:148-152 | whenever the audit reports failures its score is below 1 and not negative |
| `ColorAudit.FailingItemsExactly` | my-app/services/load_and_audit/custom_audits/color-audit.js:95-137 | an item is listed iff some link has the same colour as its parent or a distance below the minimum; it carries that link's text, and its explanation is the identical-colour one iff the difference is 0 |
| `FullReport.FullRefsHaveInfo` | my-app/services/report_generation/pdf_generator.js:12-139 | every audit of the full configuration has a description entry |
| `FullReport.CalculateSeniorFriendlinessScore` | my-app/services/report_generation/pdf_generator.js:151-179 | the loop computes the PDF's score specification |
| `FullReport.PdfScoreAgreesWithAudit` | my-app/services/report_generation/pdf_generator.js:151-179 | the PDF's score, weighted sum and total weight equal the audit module's |
| `FullReport.PdfScoreMeaning` | my-app/services/report_generation/pdf_generator.js:151-179 | a missing or weightless category gives zeros; otherwise score times total weight is 100 times the weighted sum, and the score lies in [0, 100] for sane inputs |
| `FullReport.ScoreBarFill` | my-app/services/report_generation/pdf_generator.js:253-255 | a null score draws no fill; otherwise the fill is at least 10 points wide, at most 200 for scores up to 1, and proportional to the score from 0.05 on |
| `FullReport.ScoreBarMonotone` | my-app/services/report_generation/pdf_generator.js:236-252 | a higher score never gets a worse bar label |
| `FullReport.SummaryAgreesWithScoreBar` | my-app/services/report_generation/pdf_generator.js:359-364 | the summary's word and the bar's label fall in the same band for every score |
| `FullReport.OverallScoreColorBands` | my-app/services/report_generation/pdf_generator.js:265-270 | green iff at least 90, amber iff in [50, 90), red iff below 50 |
| `FullReport.TablePages` | my-app/services/report_generation/pdf_generator.js:416-434 | no items give no pages; otherwise the pages concatenate to the items, every page has at most 12 items, only the last may have fewer, and their number is the items rounded up to whole pages |
| `FullReport.CategoryOrderSpec` | my-app/services/report_generation/pdf_generator.js:583-592 | the category list is duplicate-free and holds exactly the categories that have an audit |
| `FullReport.GroupByCategory` | my-app/services/report_generation/pdf_generator.js:583-592 | the loop lists categories in first-seen order and maps each to its audits in report order |
| `FullReport.GroupsPartitionSupported` | my-app/services/report_generation/pdf_generator.js:583-605 | an audit is in a category's group iff it is in the report, has a description and belongs to that category |
| `FullReport.ExtractSelector` | my-app/services/report_generation/pdf_generator.js:481-484 | the selector, else the path, else null |
| `FullReport.ExtractNodeLabel` | my-app/services/report_generation/pdf_generator.js:486-489 | the node label, else the snippet, else null |
| `FullReport.StripLeadingScheme` | my-app/services/report_generation/pdf_generator.js:554 | a leading `https://` or `http://` is removed |
| `FullReport.DashUnsafe` | my-app/services/report_generation/pdf_generator.js:554 | every character outside letters, digits, dot and dash becomes a dash |
| `FullReport.CollapseDashesSpec` | my-app/services/report_generation/pdf_generator.js:554 | collapsing runs of dashes keeps every non-dash character in order and leaves no two dashes adjacent |
| `FullReport.CollapseDashesIdle` | my-app/services/report_generation/pdf_generator.js:554 | a string without adjacent dashes is left alone |
| `FullReport.SanitizedUrlSafe` | my-app/services/report_generation/pdf_generator.js:551-554 | the sanitised URL holds only safe characters and no double dash, and sanitising twice changes nothing |
| `FullReport.NoSchemeInSafe` | my-app/services/report_generation/pdf_generator.js:554 | a safe string has no scheme to strip |
| `FullReport.ReportFileNameShape` | my-app/services/report_generation/pdf_generator.js:550-555 | the PDF file name ends `-<formFactor>.pdf`, with `desktop` when the report has no form factor |
| `LiteReport.LiteRefsListed` | my-app/services/report_generation/pdf-generator-lite.js:12-68 | the lite report describes exactly the lite configuration's audits, in the same order |
| `LiteReport.CalculateLiteScore` | my-app/services/report_generation/pdf-generator-lite.js:121-144 | the loop computes the lite score specification |
| `LiteReport.LiteScoreMeaning` | my-app/services/report_generation/pdf-generator-lite.js:121-144 | a missing category scores 0; the score lies in [0, 100] for sane inputs; under the shipped configuration it is the weighted sum out of 33, scaled to 100 |
| `LiteReport.LiteScoreColorBands` | my-app/services/report_generation/pdf-generator-lite.js:190 | green iff at least 70, amber iff in [40, 70), red iff below 40 |
| `LiteReport.LiteStatusBands` | my-app/services/report_generation/pdf-generator-lite.js:215-221 | each status word has its own colour; PASS iff the score is exactly 1; NEEDS WORK iff above 0.5 but not 1 |
| `LiteReport.Shown` | my-app/services/report_generation/pdf-generator-lite.js:209-213 | only described audits present in the report are shown |
| `LiteReport.ShownExactly` | my-app/services/report_generation/pdf-generator-lite.js:209-213 | an audit is shown iff it is described and present in the report |
| `LiteReport.AddLiteResults` | my-app/services/report_generation/pdf-generator-lite.js:203-235 | the loop writes one result line per shown audit, in description order |
| `LiteReport.LiteReportName` | my-app/services/report_generation/pdf-generator-lite.js:414 | character by character, the host with every '.' replaced by '-' and every other character kept, then `.pdf` |
| `LiteReport.GenerateLiteAccessibilityReport` | my-app/services/report_generation/pdf-generator-lite.js:401-425 | a missing input or output directory throws; a read or parse failure throws its own error; a report without `finalUrl` throws; a `finalUrl` that does not parse throws `Invalid URL`; every other input succeeds, and a success is written to `<directory>/<LiteReportName>` with the lite score |
| `BoxGeometry.ExtractBoxes` | my-app/services/drawing_boxes/draw_boxes_layout.js:7-31 | the loop keeps exactly the audit items that yield a box, in order |
| `BoxGeometry.IsVisuallyDistinct` | my-app/services/drawing_boxes/draw_boxes_contrast.js:4-16 | a box is distinct iff it is at least 2×2, its region's statistics are available and some channel's deviation exceeds the threshold |
| `BoxGeometry.PartitionVisible` | my-app/services/drawing_boxes/draw_boxes_fontSize.js:136-144 | the loop splits the boxes into the visible ones and the rest, each in order |
| `BoxGeometry.VisiblePartition` | my-app/services/drawing_boxes/draw_boxes_fontSize.js:136-144 | the two parts together are a permutation of the boxes |
| `BoxGeometry.ScaledBadgeRadiusRange` | my-app/services/drawing_boxes/draw_boxes_fontSize.js:90-93 | the scaled badge radius is clamped between the scaled 8 and 20; unscaled, between 8 and 20 |
| `BoxGeometry.PlainBadgeRadius` | my-app/services/drawing_boxes/draw_boxes_contrast.js:66-67 | the badge radius lies in [10, 20] and is 0.8 of the box height when that already fits |
| `BoxGeometry.ScaledMarks` | my-app/services/drawing_boxes/draw_boxes_fontSize.js:70-107 | one scaled mark per box, in order, numbered from 1 |
| `BoxGeometry.PlainMarks` | my-app/services/drawing_boxes/draw_boxes_contrast.js:51-87 | one mark per box, in order, numbered from 1, in the given colour, at the box's corner, with a radius in [10, 20] |
| `TextFontHighlight.FontBoxesFromItems` | my-app/services/drawing_boxes/draw_boxes_fontSize.js:54-68 | every font box comes from an item with that rectangle and snippet, and is red |
| `TextFontHighlight.FilterContainingBoxes` | my-app/services/drawing_boxes/draw_boxes_fontSize.js:21-52 | the boxes strictly containing another box are removed; the others are kept, each in order |
| `TextFontHighlight.MarkIfContainer` | my-app/services/drawing_boxes/draw_boxes_fontSize.js:28-40 | a box is marked iff it strictly contains another box |
| `TextFontHighlight.SplitMarked` | my-app/services/drawing_boxes/draw_boxes_fontSize.js:42-51 | the marked boxes are removed and the rest kept, in order |
| `TextFontHighlight.ContainmentPartition` | my-app/services/drawing_boxes/draw_boxes_fontSize.js:42-51 | kept and removed boxes together are a permutation of the input |
| `TextFontHighlight.KeptIdempotent` | my-app/services/drawing_boxes/draw_boxes_fontSize.js:21-52 | filtering a second time removes nothing more |
| `TextFontHighlight.EqualRectsKept` | my-app/services/drawing_boxes/draw_boxes_fontSize.js:30-36 | boxes with identical rectangles never remove one another |
| `TextFontHighlight.ContainmentShrinks` | my-app/services/drawing_boxes/draw_boxes_fontSize.js:30-36 | a strictly contained box is strictly smaller |
| `TextFontHighlight.KeptNonEmpty` | my-app/services/drawing_boxes/draw_boxes_fontSize.js:21-52 | a non-empty list keeps at least one box: the smallest is never a container |
| `TextFontHighlight.HighlightTextFont` | my-app/services/drawing_boxes/draw_boxes_fontSize.js:109-174 | without a report or screenshot nothing happens; otherwise the temporary screenshot is written and removed, and an image is drawn iff some visible, non-container box remains, with one scaled mark per box |
| `TextFontHighlight.ProcessTextFontAudit` | my-app/services/drawing_boxes/draw_boxes_fontSize.js:109-174 | as written the processor ignores any output path, draws to its fixed file and returns nothing |
| `TextFontHighlight.ProcessTextFontAuditTo` | my-app/services/drawing_boxes/draw_boxes_fontSize.js:109-174 | the corrected processor draws to the given path and returns it exactly when it drew |
| `ColorContrastHighlight.ContrastBoxesFromNodes` | my-app/services/drawing_boxes/draw_boxes_contrast.js:24-42 | every contrast box comes from an item whose node has that rectangle, label, selector and explanation |
| `ColorContrastHighlight.HighlightColorContrast` | my-app/services/drawing_boxes/draw_boxes_contrast.js:89-131 | a parse error propagates; an image is drawn iff a screenshot exists and some box is visually distinct, with one yellow mark per box |
| `ColorContrastHighlight.ProcessColorContrastAudit` | my-app/services/drawing_boxes/draw_boxes_contrast.js:89-131 | as written the processor draws to its fixed file and returns nothing |
| `ColorContrastHighlight.ProcessColorContrastAuditTo` | my-app/services/drawing_boxes/draw_boxes_contrast.js:89-131 | the corrected processor draws to the given path and returns it exactly when it drew |
| `InteractiveColorHighlight.InteractiveBoxesFromNodes` | my-app/services/drawing_boxes/draw_boxes_interactivecolor.js:18-39 | every box comes from an item whose node has that rectangle, text and explanation |
| `InteractiveColorHighlight.ProcessInteractiveColorAudit` | my-app/services/drawing_boxes/draw_boxes_interactivecolor.js:77-134 | a missing output path throws; a parse error propagates; an image is drawn and its path returned iff a screenshot exists and some box is visually distinct, with one orange mark per box |
| `LayoutBrittleHighlight.LayoutBoxesFromNodes` | my-app/services/drawing_boxes/draw_boxes_layout.js:7-31 | every layout box comes from an item whose node has that rectangle and label, and is blue |
| `LayoutBrittleHighlight.HighlightLayoutBrittle` | my-app/services/drawing_boxes/draw_boxes_layout.js:72-113 | without a report or screenshot nothing happens; otherwise the temporary screenshot is written and removed, and an image is drawn iff some box exists, with one scaled mark per box |
| `LayoutBrittleHighlight.ProcessLayoutBrittleAudit` | my-app/services/drawing_boxes/draw_boxes_layout.js:72-113 | as written the processor draws to its fixed file and returns nothing |
| `LayoutBrittleHighlight.ProcessLayoutBrittleAuditTo` | my-app/services/drawing_boxes/draw_boxes_layout.js:72-113 | the corrected processor draws to the given path and returns it exactly when it drew |
| `DrawAll.KeysDistinct` | my-app/services/drawing_boxes/draw_all.js:27-31 | the five image kinds have distinct keys |
| `DrawAll.LastSegment` | my-app/services/drawing_boxes/draw_all.js:17 | the last path segment is a suffix without slashes, preceded by a slash when shorter than the path |
| `DrawAll.Basename` | my-app/services/drawing_boxes/draw_all.js:17 | `path.basename(p, '.json')`: the last segment without a matching extension, and without slashes |
| `DrawAll.ImagePathsDistinct` | my-app/services/drawing_boxes/draw_all.js:20-24 | the five image paths are distinct, each inside the output folder and ending in the report name plus its suffix |
| `DrawAll.CreateAllHighlightedImagesAsWritten` | my-app/services/drawing_boxes/draw_all.js:14-37 | as written, the layout, contrast and font entries are always empty whatever was drawn, and those three images go to their processors' fixed paths |
| `DrawAll.RunProcessorsAsWritten` | my-app/services/drawing_boxes/draw_all.js:27-31 | the five calls in order, as written |
| `DrawAll.CreateAllHighlightedImages` | my-app/services/drawing_boxes/draw_all.js:14-37 | every entry holds its job-folder path exactly when its processor drew an image; the target-size entry is that processor's result |
| `DrawAll.RunProcessors` | my-app/services/drawing_boxes/draw_all.js:27-31 | the five calls in order, each given its own output path |
| `Common.IndexOfFrom` | my-app/services/load_and_audit/audit.js:309 | the first occurrence of a pattern at or after a position, if any |
| `Common.Includes` | my-app/services/load_and_audit/audit.js:309 | `String.includes` holds iff the pattern occurs somewhere |
| `Common.ReplaceChar` | my-app/services/load_and_audit/audit.js:264 | one character replaced everywhere, nothing else changed |
| `Common.Round` | my-app/services/load_and_audit/custom_audits/color-audit.js:84 | `Math.round`: the nearest integer, halves rounded up |
| `Common.RoundMonotone` | my-app/services/drawing_boxes/draw_boxes_fontSize.js:90-93 | rounding preserves order |
| `Common.Filter` | my-app/services/drawing_boxes/draw_boxes_fontSize.js:136-144 | `Array.filter`: exactly the matching elements, never more than the input |
| `Common.FilterSplit` | my-app/services/drawing_boxes/draw_boxes_fontSize.js:42-51 | a filter and its complement together are a permutation of the input |
| `Common.CollectMembers` | my-app/services/server/server.js:53-88 | a value is collected iff some element produces it |
| `Common.CollectAppend` | my-app/services/server/server.js:53-88 | collecting over two runs is collecting over each in turn |
| `Common.JoinPath` | my-app/services/server/server.js:31 | `path.join` ends with the joined name |

## Left out

- Console logging, `fs` writes, `mkdir` and the cleanup in `finally` blocks (unlinking JSON and images, removing the job folder). These are side effects with no effect on the results the model states.
- `Date.now()` and `new Date().toISOString()` are parameters or omitted. Timestamps are opaque values.
- The `setTimeout` sleeps are left out. The backup ladder and the link retries record the wait values only. The one-delay-per-entry in the crawl loop (internal_links.js:180) is left out because it changes no result.
- The body of `runQuickScanProcess`, the Express response objects after the `await`, `/cleanup`, the authentication routes, the database and e-mail are not part of this model.
- Scheduler.Server.Complete: the model proves that each request settles at the moment it completes. It does not prove the global statement that no promise ever settles twice.
- The internals of `performAudit` are oracles: launching the browser, Lighthouse flags, and the stealth and advanced browser options. The gatherers that produce the custom audits' artifacts are not part of this model.
- PDFKit rendering (page layout, fonts, heights, the intro and calculation pages) is left out. Only the decisions made while rendering are modelled: scores, ladders, colours, grouping, pagination, names.
- `toFixed` text in scores and colour differences, and the number-to-text conversion inside template strings, are left out. The number-to-string conversion is the parameter `show`.
- The colour distance (`rgbToLab`/`deltaE`) is a parameter. The model does not compute CIE Lab.
- `sharp` image statistics are the parameter `stdevs`. Screenshot decoding, scaling and SVG compositing are not modelled. A drawing records its path and its marks.
- WHATWG URL parsing and resolution, and `path.resolve`, are oracles. `path.join` is modelled as concatenation with one separator, without normalisation.
- InternalLinks.ClearedHref: the cleared `href` is written the way an http(s) URL writes it (scheme, `//`, credentials, host, path); the serialisation of other schemes is not modelled, since a link must share the http(s) page's origin.
- `draw_boxes_targetSize.js` is not part of this model. Its processor is the parameter `targetSize`.
- `backup_of_original_audit_code.js` and the test scripts are not part of this model.
- LiteReport.LiteImpact holds the impact sentences of the lite audit descriptions. The sentences are kept out of `LiteAuditInfo`, which pairs each id with its title and category.
- ColorAudit.Prefix: strings are sequences of characters, so `substring(0, 50)` counts characters, not the UTF-16 code units JavaScript counts; a prefix cut inside a surrogate pair is not modelled.
- JavaScript numbers are modelled as `real` (scores, weights) or `int` (pixels, counts), without floating-point rounding. `Math.round` is `floor(x + 0.5)`.

## Findings

| source | as written | input that shows it | evidently intended | confidence | as-written member | corrected member |
|---|---|---|---|---|---|---|
| my-app/services/load_and_audit/audit.js:300 (also backup.js:427) | `url.startsWith('http')` decides whether a scheme is present | the host `httpbin.org` is passed on as `httpbin.org`, with no scheme | prepend `https://` unless the URL already starts with `http://` or `https://` | not executed | `Audit.NormalizeUrlAsWrittenMissesHttpHosts` | `Audit.RunLighthouseAuditCorrected` |
| my-app/services/drawing_boxes/draw_all.js:27-31 | the layout, contrast and font processors take only the report path, so the output path passed to each is ignored and they return `undefined` | any report with a screenshot and boxes: three of the five `imagePaths` entries are empty, and three images are written to fixed paths outside the job folder | each processor draws to the path it is given and returns it | not executed | `DrawAll.CreateAllHighlightedImagesAsWritten` | `DrawAll.CreateAllHighlightedImages` |

The scheduler has no Finding row, because the code does what its comment
says. After the lock is released, the full-audit queue is always probed
first. So while full audits keep arriving, quick scans wait.
`Scheduler.Server.Complete` states this order.
