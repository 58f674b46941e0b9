# A verified model of the phone-intelligence crawler and API

The repository crawls public pages for Vietnamese phone numbers, keeps the evidence in Postgres,
derives identities from it, collects spam reports, and exports a caller-ID directory to iOS. This
Dafny project models the parts of it that are hard to get right and proves what they promise:

- the **job queue** (`JobRows`, `LeaseProtocol`, `JobHistory`, `LeaseLoss`, `Queue`, `Worker`,
  `Scheduler`): `crawl_jobs` as a table shared by any number of workers, schedulers and API
  processes, whose committed statements and row locks interleave freely;
- the **phone text pipeline** (`Regexes`, `PhoneScanner`, `PhoneContext`, `TwinScanners`,
  `TwinCandidates`, `Normalizer`, `RoundTrip`): the candidate pattern with its language and its backtracking order,
  the greedy scan, the contexts around a match, and both normalizers;
- the **evidence ledger** (`LedgerTables`, `LedgerWriters`, `LedgerJobs`, `CrawlHistory`,
  `DatasetIngestion`, `ConcurrentExtraction`, `Aggregation`, `AggregationLaws`, `RowOrder`, `AggregatedLedger`): three
  independent writers, crash points between their commits, extractions that overlap, and the
  rule-based aggregation that may be run again;
- the **export** (`SpamFlags`, `CallDirectory`, `CallDirectoryHandler`, `ExportSources`, `Sorting`):
  spam summaries and flags, the directory and block list, and the order in which iOS receives them;
- **sitemap discovery** (`Sitemap`): a depth-bounded walk over an arbitrary graph of sitemap indexes.

Whatever updates state in the original is a class or a method with loops here (`Queue.CrawlJobs`,
`Worker.CrawlWorker`, `Scheduler.SchedulerProcess`, `LedgerJobs.EvidenceDb`,
`DatasetIngestion.DatasetService`, the extraction, aggregation, flag and export loops, `Sitemap.SitemapDiscovery`). Its contract ties the new state to a function of the
old one, and the lemmas prove what that function promises over all inputs, runs and interleavings.

How the world is modelled:

- A table is a sequence of rows (the id is the position; nothing modelled deletes rows) or a map on
  its unique key. One event is one committed statement; `claim_job` is two events, selecting and
  locking, then updating and committing, so that `SKIP LOCKED` has something to do.
- Time is one monotone clock in microseconds. `now()` inside a transaction is its start.
- Settling a job checks neither status nor owner, so the lease results assume what the code
  assumes: a handler settles no later than the stale timeout after its claim
  (`LeaseProtocol.LeasedRun`). `LateSettleBreaksTheLease` is a run without that premise, and
  `LeaseLoss` has the weakest one: no settlement follows a recovery pass that ran past its lease.
- Fetches, parses, HTML extraction, handler outcomes, signals, SQL row order and what other
  processes do in between are parameters, and the results hold for every value of them.
- Text is ASCII. Content hashes are taken to be injective, so a content stands for its hash.

What the model found where the code and its comments differ, or where a promise has an edge:

- `create_job` promises an id of "the job that will run". Its lookup after a unique violation is a
  later statement; the job found in the way can finish in between, and then there is no row to
  return. `CreateJob` says exactly when (its `None` case), `LookupCanComeTooLate` shows it happen.
- `docs/PHASE2_5_IMPLEMENTATION_PLAN.md` says eligibility also looks for active `DISCOVER_DOMAIN`
  jobs; the code, and so the model, looks for `DISCOVER_SITEMAP` jobs only. The two rules differ
  exactly on a domain discovery that carries a source, which no producer creates.
- A discovery job and the advance of its source are two commits. A scheduler killed between them
  leaves the source due, and the next process may create a second discovery at once; a kill
  anywhere else does no harm.
- `insert_dataset` is called idempotent on the checksum. That protects a finished file only: each
  attempt at an unfinished one stores its rows again from the first.
- Recovery charges no attempt, so claims are not bounded by `max_attempts` (`ClaimsAreUnbounded`);
  the accounting law counts recoveries beside attempts.
- The two extractors differ on four ASCII control characters (U+001C to U+001F), which Python's
  `\s` accepts and JavaScript's does not: they report the same spans of a text exactly when no
  candidate of the crawler's holds one. The contexts differ only in blanks, which the crawler
  collapses, and the confidences only with the contexts; `TwinCandidates` says exactly when all
  fields agree. The two normalizers agree on all ASCII.
- Normalization is idempotent except for inputs that clean to `+0...`, such as `+012`, whose value
  is a short code that is not accepted on its own.
- `database/migrations/0001_init.sql` promises that re-running the same aggregator is idempotent,
  and its query has no order. The display name and type of a new identity and the category of any
  identity come from whichever row of the group is first, so a re-run can change a category. Each
  column is independent of the order exactly when all rows of the group would write the same, and a
  re-run changes nothing but times exactly when no row brings a category its identity does not
  have. Confidence, counts and links never depend on the order.
- The sitemap walk does not try everything within `MAX_DEPTH` links: a URL first seen deep stays
  deep. It does exactly when no such URL has a link that was missed, and surely where no URL stands
  at two distances.
- Looking for observations before extracting does not keep two overlapping processes from both
  extracting a document; nothing else extracts one twice.

## Model

| member | source | states |
|---|---|---|
| LeaseProtocol.ExclusiveLease | services/crawler/jobs/queue.py:73-167 | in any leased interleaving of claims, settlements, recoveries, insertions and crashes, a worker inside its lease finds its job RUNNING and locked by itself, no two such workers share a job, RUNNING coincides with both lock columns being set, and both unique indexes hold |
| LeaseProtocol.SkipLockedIsExclusive | services/crawler/jobs/queue.py:76-102 | two open claim transactions never hold the same row, and the row one holds is still waiting and due at commit |
| LeaseProtocol.LeaseSurvivesRecovery | services/crawler/jobs/queue.py:151-167 | a recovery pass leaves a held job alone if and only if its lease has not run out |
| LeaseLoss.ClaimIsLostExactlyBy | services/crawler/jobs/queue.py:73-167 | of all events, timely or not, a claim is lost exactly to a recovery after its lease, its worker's crash, or a settlement of its job |
| LeaseLoss.SettlementsAreSoundUnlessOvertaken | services/crawler/jobs/queue.py:105-167 | over any run, late settlements included, every settlement finds its job RUNNING and its own if and only if none follows a recovery pass that ran past the end of its lease; then every invariant holds too |
| LeaseLoss.LeasedRunsAreNeverOvertaken | services/crawler/jobs/queue.py:151-167 | settling within the timeout is enough for that |
| LeaseLoss.LateRunIsOvertaken | services/crawler/jobs/queue.py:105-148 | the run that breaks the lease has such a settlement |
| LeaseProtocol.ActiveUniqueness | database/migrations/0004_scheduler_guardrails.sql:10-16 | at most one active job per crawl target, and per non-null source and job type without target, however many producers insert |
| LeaseProtocol.ApiRequestsNeverCollide | apps/api/src/services/acquisition.ts:69-75 | a domain request has no key an index could reject, so it always adds its DISCOVER_DOMAIN job of priority 150, and the API's jobs are unbounded |
| LeaseProtocol.OnlyInsertsReachTheIndexes | services/crawler/jobs/queue.py:91-165 | every event but an insertion, if it settles only what is held, keeps all keys, activates no row, and so cannot hit an index |
| LeaseProtocol.SoundStepKeepsInv | services/crawler/jobs/queue.py:31-167 | an event preserves the whole invariant at whatever time, if it settles only what is held |
| LeaseProtocol.StepKeepsInv | services/crawler/jobs/queue.py:31-167 | every single event preserves row soundness, lock agreement, leases and both indexes |
| LeaseProtocol.RunKeepsInv | services/crawler/jobs/queue.py:31-167 | and so does every leased run |
| JobHistory.ClaimAccounting | services/crawler/jobs/queue.py:91-162 | claims of a job over a run equal charged attempts plus stale recoveries plus the claim that is running or succeeded |
| JobHistory.FreshClaimAccounting | services/crawler/jobs/queue.py:91-162 | the same from an untried job, with the budget: active jobs have attempts left, FAILED ones have none |
| JobHistory.TerminalIsFinal | services/crawler/jobs/queue.py:105-148 | no event of a leased run touches a SUCCESS or FAILED row again |
| JobHistory.BackoffBound | services/crawler/jobs/queue.py:124-147 | recoveries or not, the i-th and next failure of a job are at least 30 * 2^(i-1) seconds apart, and there are as many as attempts |
| JobHistory.RetryIsDueExactlyFrom | services/crawler/jobs/queue.py:124-147 | the n-th failure within the budget makes the job claimable exactly from 30 * 2^(n-1) seconds on, one that exhausts it never |
| JobHistory.RetryDelaysDouble | services/crawler/jobs/queue.py:136-137 | the first delay is 30 seconds, and each later one twice the one before |
| JobHistory.PermanentFailureDelay | services/crawler/jobs/queue.py:124-147 | permanent failure is the max_attempts-th failure and comes at least 30 * (2^(m-1) - 1) seconds after the first |
| JobHistory.LateSettleBreaksTheLease | services/crawler/jobs/queue.py:105-148 | a concrete run in which a late failure pulls a SUCCESS job back to RETRY and hits a unique index |
| JobHistory.ClaimsAreUnbounded | services/crawler/jobs/queue.py:151-162 | for every n a run within all leases claims an untried job n times without charging one attempt |
| JobHistory.LookupCanComeTooLate | services/crawler/jobs/queue.py:57-70 | a concrete table and completion after which the lookup finds no row |
| Queue.CrawlJobs.CreateJob | services/crawler/jobs/queue.py:44-70 | a new PENDING job with these columns exactly when nothing active has its key; otherwise an active job of that key, or none if all of them stopped being active before the lookup |
| Queue.CrawlJobs.SelectNext | services/crawler/jobs/queue.py:76-89 | locks an unlocked PENDING or RETRY row that is due, such that every other has a lower priority, or the same and is due no earlier; none only when all of them are due later |
| Queue.CrawlJobs.CommitClaim | services/crawler/jobs/queue.py:91-101 | the claimed row is RUNNING with the worker and the transaction's start in it, the others are unchanged, and the row lock is gone |
| Queue.CrawlJobs.ClaimJob | services/crawler/jobs/queue.py:73-102 | a whole claim is the two protocol steps: it takes the highest priority, among equals the earliest due, and leaves the worker able to settle |
| Queue.CrawlJobs.CompleteJob | services/crawler/jobs/queue.py:105-115 | is the protocol's completion step: SUCCESS, no attempt charged, unlocked |
| Queue.CrawlJobs.FailJob | services/crawler/jobs/queue.py:118-148 | is the protocol's failure step: one attempt and its error more, FAILED exactly when that was the last, otherwise RETRY after 30 * 2^(n-1) seconds |
| Queue.CrawlJobs.RecoverStaleJobs | services/crawler/jobs/queue.py:151-167 | puts back exactly the RUNNING jobs locked longer than the timeout, charges nothing, and returns how many rows it changed |
| Worker.CrawlWorker.HandleNext | services/crawler/jobs/worker.py:144-158 | claims the next due job and settles it: the protocol's selection, commit, and after the handler's time its completion if the handler returned or its failure if it raised; in the columns, SUCCESS without a charge, or an attempt charged and FAILED or RETRY by the budget; no other row changes |
| Worker.CrawlWorker.HandleAllDue | services/crawler/jobs/worker.py:142-162 | the loop ends within the attempts the waiting jobs have left, stops at the first signal, and touches no other row |
| Worker.CrawlWorker.RunOnce | services/crawler/jobs/worker.py:135-162 | a pass after recovery leaves no job RUNNING and nothing due unless signalled; under a frozen clock it handles each due job once, priorities never rising and due times never falling within one priority, and a job ends SUCCESS if and only if its handler returned |
| Worker.DrainExtends | services/crawler/jobs/worker.py:142-160 | a job handled under a frozen clock is never offered again, so the order so far extends |
| Worker.DrainIsComplete | services/crawler/jobs/worker.py:135-162 | a frozen pass no signal cut short handled exactly the jobs that were due |
| Worker.HandledIsNotDue | services/crawler/jobs/queue.py:136-147 | no job is claimable at the instant it was settled |
| Scheduler.SchedulerProcess.RunOnce | services/crawler/jobs/scheduler.py:84-103 | with others interleaving between its statements and a kill between any two: at no moment more than MAX_ACTIVE_JOBS active jobs beyond the API's, at most MAX_JOBS_PER_SCHEDULER_RUN added, nothing at capacity; each source due at its start is still due or got its discovery job; the spacing of discoveries is kept if and only if no kill fell between the two commits of one; a pass not killed that stays below both limits covers everything due; and one that nobody disturbs adds a job whenever there is room and something due has no active job |
| Scheduler.SchedulerProcess.Loop | services/crawler/jobs/scheduler.py:106-119 | over any number of passes and sleeps, however others interleave and wherever the process dies, active jobs beyond the API's never exceed MAX_ACTIVE_JOBS if they started within it, additions stay within the per-run cap, and the spacing is kept if and only if the process did not die between the two commits of a discovery; even then its own discoveries are apart |
| Scheduler.SchedulerProcess.ScheduleDueCrawlTargets | services/crawler/jobs/scheduler.py:44-57 | creates within its budget; unless that is used up, each due target of the batch had an active job during the loop |
| Scheduler.SchedulerProcess.ScheduleDueDiscoveries | services/crawler/jobs/scheduler.py:60-81 | the same for due sources; no source is advanced without its job, and the spacing is kept if and only if the loop was not killed between creating and advancing |
| Scheduler.SchedulerProcess.DiscoverNext | services/crawler/jobs/scheduler.py:67-80 | a due source is skipped only for an active discovery job, otherwise given one; killed anywhere, it is not advanced |
| Scheduler.SchedulerProcess.IsEligible | services/crawler/jobs/scheduler.py:28-41 | an active, non-MANUAL source without a PENDING, RUNNING or RETRY sitemap discovery |
| Scheduler.SchedulerProcess.CreateDiscovery | services/crawler/jobs/scheduler.py:73-80 | killed between creating and advancing, the sources are unchanged and the spacing is broken, though the jobs so far are apart; not killed, spacing holds again |
| Scheduler.SchedulerProcess.AdvanceSourceSchedule | services/crawler/storage/postgres_repository.py:147-154 | only the due time of that one source moves, by 1, 7 or 30 days |
| Scheduler.DueSources | services/crawler/storage/postgres_repository.py:131-144 | exactly the active, non-MANUAL, due sources in ascending id order |
| Scheduler.DueTargets | services/crawler/storage/postgres_repository.py:88-104 | exactly the active due targets, by priority, due time and id |
| Scheduler.DueBatchIsTheFront | services/crawler/storage/postgres_repository.py:88-104 | all due targets if there are at most 100, else 100 of them that come before every other by priority, due time and id |
| Scheduler.NotAdvancedBreaksSpacing | services/crawler/jobs/scheduler.py:73-80 | a discovery job whose source was not advanced breaks the spacing, whatever others do to it |
| Scheduler.NextIsApartExactlyWhen | services/crawler/jobs/scheduler.py:73-80 | one more discovery of a source is apart from the earlier ones if and only if they are all an interval old |
| Scheduler.ApartInDays | services/crawler/storage/postgres_repository.py:147-154 | discoveries that are apart lie 1 day apart for a DAILY source, 30 for a MONTHLY one, 7 for any other |
| Scheduler.NextProcessComesTooSoon | services/crawler/jobs/scheduler.py:73-80 | a concrete torn discovery after which a restarted scheduler creates the next at once |
| Scheduler.RulesAgreeExactlyWhen | services/crawler/jobs/scheduler.py:28-41 | on a due source the rule of the plan and the rule of the code agree if and only if it has no active domain discovery, or a sitemap discovery besides |
| Scheduler.RulesAgreeInPractice | services/crawler/jobs/scheduler.py:47-81 | the producers give domain discoveries no source, so that after any pass the two rules agree on every due source |
| Scheduler.LoadBetweenPasses | services/crawler/jobs/scheduler.py:84-103 | between passes workers and the API neither raise the scheduled load nor disturb the spacing, so the bounds hold over many passes |
| Scheduler.DriveIsOthersOnly | services/crawler/jobs/queue.py:73-167 | workers, recoveries and API requests activate nothing, keep keys and add only API jobs |
| Scheduler.OthersKeepCounts | services/crawler/jobs/scheduler.py:84-93 | hence they never raise the number of active scheduled jobs |
| Scheduler.SumsAreCounts | services/crawler/storage/postgres_repository.py:107-110 | the three sums are numbers of rows: not finished, with a source or target, both |
| Scheduler.StaysFree | services/crawler/jobs/scheduler.py:52-55 | with one scheduler the check before `create_job` cannot be overtaken, so it always inserts |
| Scheduler.AdvanceKeepsSpacing | services/crawler/jobs/scheduler.py:73-80 | two discoveries of one source stay 1, 7 or 30 days apart |
| Regexes.EndsAreMatches | services/crawler/extractors/phone_extractor.py:15 | backtracking enumerates exactly the matches of the declarative language, for every pattern |
| Regexes.FirstEndIsAMatch | services/crawler/extractors/phone_extractor.py:15 | the matcher reports a match, and fails only if there is none |
| Regexes.BlanksAre | apps/api/src/extractors/phoneExtractor.ts:7-8 | the ASCII characters `\s` accepts: six in both engines, and U+001C to U+001F in Python only |
| PhoneScanner.ScannerIsBacktracking | services/crawler/extractors/phone_extractor.py:15 | the greedy scanner stops where backtracking over the pattern stops first, and that is the longest match |
| PhoneScanner.RepIsGreedy | services/crawler/extractors/phone_extractor.py:15 | in a bounded repetition of separator and digit every group is forced |
| PhoneScanner.ScanGroups | services/crawler/extractors/phone_extractor.py:15 | the loop takes as many groups as there are, up to its bound |
| PhoneScanner.ScanAt | services/crawler/extractors/phone_extractor.py:46-48 | returns the first end backtracking finds at a position, or none |
| PhoneScanner.ExtractCandidates | services/crawler/extractors/phone_extractor.py:46-48 | the spans of all matches left to right, each raw the slice of its span |
| PhoneContext.ClampKeepsTheParagraph | services/crawler/extractors/phone_extractor.py:33-41 | a clamped slice is its paragraph with runs of blanks made single spaces: nothing else is lost and no line break is left |
| PhoneContext.ClampsAgreeUpToBlanks | apps/api/src/extractors/phoneExtractor.ts:33-37 | the API's clamp, which does not collapse blanks, keeps the same text otherwise |
| PhoneContext.ExtractPhoneCandidates | services/crawler/extractors/phone_extractor.py:44-75 | one candidate for each match; its contexts reach 80 characters, or to the edge of its paragraph or of the text, and differ from it only in blanks, single spaces for the crawler, trimmed only for the API; its text is context, number, context; its confidence is 0.5, raised by 0.2 for a separator in the number and by 0.2 for a keyword in the text |
| PhoneScanner.CandidateShape | services/crawler/extractors/phone_extractor.py:47 | a candidate has 8 to 12 digits and begins and ends with none of the blanks `strip` removes |
| PhoneScanner.SpansAreOrdered | services/crawler/extractors/phone_extractor.py:46-48 | reported spans are matches, increasing and disjoint |
| PhoneScanner.EveryMatchIsCovered | services/crawler/extractors/phone_extractor.py:46-48 | every position where the pattern can match lies inside a reported span |
| PhoneScanner.ReportIsComplete | services/crawler/extractors/phone_extractor.py:44-75 | order, shape and coverage of the whole report on a text |
| TwinScanners.MatchesCompared | apps/api/src/extractors/phoneExtractor.ts:7-8 | at one position the engines agree if and only if Python matches nothing or a slice without U+001C to U+001F; JavaScript never matches more |
| TwinScanners.ScannersAgreeExactlyWhen | apps/api/src/extractors/phoneExtractor.ts:39-72 | the twin scanners report the same spans of a text if and only if no candidate the crawler reports holds one of U+001C to U+001F |
| TwinCandidates.ClampsAgreeExactlyWhen | apps/api/src/extractors/phoneExtractor.ts:33-37 | the two clamps of a slice agree if and only if the API's leaves no blank that the crawler would collapse or trim |
| TwinCandidates.CandidatesAgreeExactlyWhen | apps/api/src/extractors/phoneExtractor.ts:41-70 | the candidates of one span agree in every field if and only if both their windows are such |
| TwinCandidates.ReportsAgreeExactlyWhen | apps/api/src/extractors/phoneExtractor.ts:39-72 | the two reports of a text are equal in every field if and only if no candidate of the crawler's holds one of the four controls or stands in a window with such blanks |
| TwinScanners.ScannersAgree | apps/api/src/extractors/phoneExtractor.ts:39-72 | a text without these characters is safe beforehand, and there is one on which the scanners differ |
| Normalizer.ImplementationsAgree | apps/api/src/normalizers/vietnamPhone.ts:82-156 | the Python and the TypeScript normalizer agree in every field on all ASCII |
| Normalizer.RulesAgree | apps/api/src/normalizers/vietnamPhone.ts:28-72 | the API's own prefix table and rules classify every string as the crawler's do |
| Normalizer.CanonicalForm | services/crawler/normalizers/vietnam_phone.py:98-133 | a value is +84 and 9 or 10 digits, a hotline, or 3 to 6 digits, and its type and validity are functions of the value |
| Normalizer.TypeOnTheValue | services/crawler/normalizers/vietnam_phone.py:72-95 | landline: thirteen characters, +842 first; mobile: twelve with a mobile prefix; hotlines and short codes by first digits and length; the confidence goes with the type |
| Normalizer.AcceptedExactlyWhen | services/crawler/normalizers/vietnam_phone.py:98-133 | the inputs that get a value: cleaned, a hotline number, a short code, or nine or ten digits behind 0, +84 or 84, and no others |
| Normalizer.ValueKeepsTheDigits | services/crawler/normalizers/vietnam_phone.py:98-133 | the value has the digits of the cleaned input, with +84 for a leading 0 |
| Normalizer.ReasonOnTheInput | services/crawler/normalizers/vietnam_phone.py:98-133 | a rejection names its cause: nothing left, no national prefix, a plus inside, or the wrong number of digits; an unknown prefix is the one doubt about a value |
| Normalizer.TypeIsStable | services/crawler/storage/postgres_repository.py:303-307 | spellings of one value have one type, so an upsert never changes a stored type |
| Normalizer.Idempotence | services/crawler/normalizers/vietnam_phone.py:98-133 | normalizing a value returns it with its type if and only if the input does not clean to +0... |
| Normalizer.ZeroShortCodeIsLost | services/crawler/normalizers/vietnam_phone.py:113-117 | +012 has the value 012, which alone has none |
| Normalizer.SpellingsAgree | services/crawler/normalizers/vietnam_phone.py:62-69 | 0d and +84d always agree in every field, 84d too once nine characters follow |
| Normalizer.BareCountryCode | services/crawler/normalizers/vietnam_phone.py:113-117 | for digits d, 84d has the value of 0d if and only if d has not 1 to 4 digits |
| Normalizer.StripKeepsClean | services/crawler/normalizers/vietnam_phone.py:100 | stripping, in either engine, removes nothing that cleaning would keep |
| RoundTrip.ExtractThenNormalize | services/crawler/extractors/phone_extractor.py:44-48 | any valid mobile number written as 0..., 84... or +84... with optional separators, standing alone, is the first candidate at its exact place and normalizes to its one +84 form |
| RoundTrip.SpelledNumberMatches | services/crawler/extractors/phone_extractor.py:15 | eight to ten separated digits behind a prefix are matched to their last digit |
| RoundTrip.CleanSpelled | services/crawler/normalizers/vietnam_phone.py:58-59 | cleaning undoes any spelling with separators |
| LedgerTables.ObserveConserves | services/crawler/jobs/crawl_worker.py:63-86 | one observation with its upsert keeps every phone's counter and type in agreement with the observations |
| LedgerTables.ObserveAllStores | services/crawler/jobs/crawl_worker.py:63-76 | one observation for each candidate, in order, with its text as found and its normalized value |
| LedgerWriters.ImportBoundary | apps/api/src/services/userConfirmedIdentity.ts:67-119 | of the six separately committed statements of an import, the ledger disagrees after the second and after no other |
| LedgerWriters.ApplyConserves | services/crawler/dataset_ingestion/row_processor.py:38-87 | each crawl, dataset row, import and re-extraction keeps the agreement |
| LedgerWriters.LedgerIsConserved | services/crawler/jobs/crawl_worker.py:56-88 | after any sequence of them, with crawls and rows dying between commits, a phone's observation_count is its number of observations and its type its value's |
| LedgerJobs.EvidenceDb.InsertObservation | services/crawler/storage/postgres_repository.py:297-312 | appends the observation, with its text and its normalized value, and counts its phone, once |
| LedgerJobs.EvidenceDb.ExtractAndStoreObservations | services/crawler/jobs/crawl_worker.py:56-88 | stores the whole extraction of a document that has none, each candidate in order, and nothing for one that has |
| LedgerJobs.EvidenceDb.RunCrawlUrlJob | services/crawler/jobs/worker.py:56-91 | stores and extracts a content only if the target's latest document does not hold it |
| LedgerJobs.EvidenceDb.CrawlSource | services/crawler/jobs/crawl_worker.py:119-170 | a batch is its crawls in order, failed fetches changing nothing |
| LedgerJobs.EvidenceDb.RunNormalizeOnly | services/crawler/jobs/crawl_worker.py:177-189 | extracts exactly the documents without observations |
| LedgerJobs.EvidenceDb.ProcessDatasetRow | services/crawler/dataset_ingestion/row_processor.py:23-87 | one document, and for the phone columns that are not blank, in their order, one observation each of the stripped value; their number |
| LedgerJobs.EvidenceDb.ImportOne | apps/api/src/services/userConfirmedIdentity.ts:56-127 | the six statements in order, or a skip for an invalid number; a new identity takes the entry's name, type and category at confidence 95 and CONFIRMED, a known one its category only; its count is its number of links |
| LedgerJobs.EvidenceDb.ImportUserConfirmedIdentities | apps/api/src/services/userConfirmedIdentity.ts:52-131 | every entry in order, with its own result |
| LedgerJobs.ImportCountsExactlyWhen | apps/api/src/services/userConfirmedIdentity.ts:93-120 | of the six statements, a confirmed identity's count disagrees with its links after the fourth if it is new, after the fifth if it was known, and after no other |
| LedgerJobs.ImportKeepsConfirmedCounts | apps/api/src/services/userConfirmedIdentity.ts:106-120 | a confirmed identity's evidence count stays its number of links, however often an entry is submitted again |
| DatasetIngestion.DatasetService.IngestDataset | services/crawler/dataset_ingestion/dataset_service.py:38-85 | a finished file is skipped, one without a phone column refused and marked FAILED, any other ingested from its first row up to where the attempt dies; it is marked SUCCESS if and only if the attempt survives, which returns the documents and observations it stored |
| DatasetIngestion.StoredOnceExactlyWhen | services/crawler/storage/postgres_repository.py:249-254 | a file that is ingested in the end has each row stored once if and only if no attempt died after storing a row; once it is finished, nothing is stored again |
| DatasetIngestion.AttemptsConserve | services/crawler/dataset_ingestion/dataset_service.py:75-83 | counters agree with observations however attempts die, repeated rows included |
| CrawlHistory.StoredIsProcessedWithoutRepeats | services/crawler/jobs/worker.py:58-89 | the documents stored for a target are the contents its crawls processed with adjacent repeats removed |
| CrawlHistory.CrashesLeaveNoneOrExact | services/crawler/jobs/crawl_worker.py:56-88 | wherever crawls die, a crawled document's observations are none or exactly its extraction, and re-extraction makes them exact |
| CrawlHistory.ReextractionIsExact | services/crawler/jobs/crawl_worker.py:177-189 | re-extraction completes every crawled document and repeats none |
| ConcurrentExtraction.OverlapsConserve | services/crawler/jobs/crawl_worker.py:56-88 | counters agree with observations however extractions overlap, commit and abort |
| ConcurrentExtraction.ObservationsAreCopies | services/crawler/jobs/crawl_worker.py:56-88 | a document's observations are whole copies of its extraction, one for each commit |
| ConcurrentExtraction.ExtractedOnceUnlessOverlap | services/crawler/jobs/crawl_worker.py:57-62 | a document's observations are none or exactly its extraction if and only if no two processes had both found none before the first stored its own |
| ConcurrentExtraction.TwoExtractorsOverlap | services/crawler/jobs/crawl_worker.py:177-189 | a re-extraction started between a crawl's document commit and its extraction is such a pair |
| Aggregation.GroupByPhone | apps/api/src/services/aggregation.ts:125-131 | the map holds each phone's rows, complete and in order |
| Aggregation.CollectCandidates | apps/api/src/services/aggregation.ts:144-173 | one candidate for each name, summarizing exactly the rows of that name |
| AggregationLaws.ScoreGrows | apps/api/src/services/aggregation.ts:91-99 | a group that holds all rows of another, and as many, scores no lower, and any score lies within 10 to 100 |
| AggregationLaws.OneMoreRowOfEvidence | apps/api/src/services/aggregation.ts:91-99 | a first row gives 10, and each one more 10; the first trusted and the first official row give 20 more, the first with a hotline and the first with a company keyword 15; up to 100 |
| Aggregation.UpsertIdentity | apps/api/src/services/aggregation.ts:179-203 | a new identity takes all of the candidate; an existing one keeps name, type and status, and its category where the candidate has none; the confidence is 10 for each observation, and 20, 20, 15 and 15 for the four signals, up to 100 |
| Aggregation.LinkObservations | apps/api/src/services/aggregation.ts:207-218 | adds exactly the missing links and counts them |
| Aggregation.AggregatePhone | apps/api/src/services/aggregation.ts:144-219 | recomputes each identity of the phone from its own rows and leaves the others |
| Aggregation.RunAggregation | apps/api/src/services/aggregation.ts:107-223 | every identity after a run, pointwise: recomputed from its group when it has one and the phone is known, untouched otherwise; the links added; the three counters |
| AggregationLaws.SecondRunChangesOnlyTimes | apps/api/src/services/aggregation.ts:179-218 | a second run that meets the same rows in the same order creates no link and changes nothing but the time last seen |
| AggregationLaws.EvidenceNeverHurts | apps/api/src/services/aggregation.ts:91-99 | over more rows no confidence or evidence count falls, and confidence lies within 10 to 100 |
| AggregationLaws.OrderIsIrrelevant | apps/api/src/services/aggregation.ts:125-219 | confidences, evidence counts, links and the set of identities are the same for every permutation of the rows |
| RowOrder.FirstRowIsWritten | apps/api/src/services/aggregation.ts:161-202 | name, type and category of an identity after a run are what the first row of its group writes into them, beside what the identity had |
| RowOrder.OrderMattersExactlyWhen | apps/api/src/services/aggregation.ts:108-123 | whatever is looked at of these columns, it is the same for every order of the rows if and only if all rows of the group would write the same |
| RowOrder.ColumnsDependOnOrderExactlyWhen | apps/api/src/services/aggregation.ts:161-202 | name and type: if and only if the identity existed or all rows of the group agree; category: if and only if all rows leave the same beside the one it had |
| RowOrder.RerunIsQuietExactlyWhen | database/migrations/0001_init.sql:162-166 | a second run changes nothing but times for every order of the same rows if and only if no row brings a category its identity does not have; it never creates a link |
| RowOrder.OrderDecidesTheColumns | apps/api/src/services/aggregation.ts:161-202 | a concrete pair of rows for all three columns, and a re-run that changes a category |
| AggregatedLedger.RunInvariant | apps/api/src/services/aggregation.ts:107-223 | along any run of writers and aggregations counters agree and every rule-based identity and link has an observation behind it |
| AggregatedLedger.RunsGoOn | apps/api/src/services/aggregation.ts:107-123 | every run can go on with an aggregation, so the premises below exclude no ledger |
| AggregatedLedger.GroupSizesAddUp | apps/api/src/services/aggregation.ts:144-173 | the groups by name partition a phone's rows |
| AggregatedLedger.EvidenceAddsUp | apps/api/src/services/aggregation.ts:136-219 | after an aggregation in any run, each observation of a number is linked to exactly one rule-based identity, which counts its links, and these counts add up to the phone's own counter |
| SpamFlags.GetSpamSummary | apps/api/src/services/spamReports.ts:94-119 | totals, the first most frequent category, and each category's count; the risk is HIGH from ten distinct reporters, NONE at zero |
| SpamFlags.GetSpamFlags | apps/api/src/services/callDirectoryExport.ts:66-78 | every phone's flag is the first maximum among its own rows, however the rows of all phones are interleaved |
| SpamFlags.OnePassAgrees | apps/api/src/services/callDirectoryExport.ts:37-79 | a phone has a flag if and only if its summary's risk is not NONE, with the same reporter count and top category; HIGH means ten or more reporters and MEDIUM one to nine |
| SpamFlags.FlagMeaning | apps/api/src/services/callDirectoryExport.ts:44-64 | read off the reports: flagged means some reporter, the count is of distinct ones, and no category was reported more often than the flag's |
| SpamFlags.ReportsAreCounted | apps/api/src/services/spamReports.ts:84-90 | the two counts of the query are numbers of reports |
| SpamFlags.SummaryQueryHasAnAnswer | apps/api/src/services/spamReports.ts:72-92 | there is an answer to the summary query whatever was reported, so its premise excludes nothing |
| SpamFlags.FlagQueryHasAnAnswer | apps/api/src/services/callDirectoryExport.ts:43-64 | and one to the query of the flags |
| SpamFlags.OneMoreReport | apps/api/src/services/spamReports.ts:76-84 | a report raises the reporter count exactly when its key is new for the phone: never for a repeated reference, always for a report without one whose id nobody used as a reference |
| SpamFlags.RiskNeverFalls | apps/api/src/services/spamReports.ts:41-45 | appending reports never lowers a phone's risk |
| SpamFlags.ReportedPhones | apps/api/src/services/callDirectoryExport.ts:49-60 | a phone has a reporter if and only if it has a reported category, so the join loses none |
| SpamFlags.SpamReports.SubmitSpamReport | apps/api/src/services/spamReports.ts:47-67 | an invalid number stores nothing; a valid one is stored under its normalized form with its reporter and its category, SPAM by default, and is at risk from then on, whatever others report before the summary |
| Sorting.AscendingIsUnique | apps/api/src/services/callDirectoryExport.ts:152-154 | there is one strictly ascending order of given elements, so the sorting algorithm does not matter |
| Sorting.SortAscends | apps/api/src/services/callDirectoryExport.ts:186-188 | sorting elements with distinct keys gives a strictly ascending list |
| Sorting.SortFixesAscending | apps/ios/PhoneIntel/CallDirectoryExtension/CallDirectoryHandler.swift:31 | sorting an ascending list again changes nothing |
| CallDirectory.WrapperIsStripped | apps/api/src/services/callDirectoryExport.ts:12-18 | the label of the aggregation's fallback name "Unknown (source)" is the source's name, and no other name is shortened |
| CallDirectory.CollectKnown | apps/api/src/services/callDirectoryExport.ts:124-135 | one entry for each known phone with the label its flag calls for |
| CallDirectory.CollectFlagged | apps/api/src/services/callDirectoryExport.ts:139-144 | adds exactly the flagged mobile and landline numbers not known already |
| CallDirectory.GetCallDirectoryEntries | apps/api/src/services/callDirectoryExport.ts:101-155 | exactly the visible known or flagged numbers, each once with its label, strictly ascending by numeric value |
| CallDirectory.DirectoryIsComplete | apps/api/src/services/callDirectoryExport.ts:101-150 | on the snapshot's columns: every unrejected, trusted mobile or landline identity and every flagged number of these types is listed, unless suppressed |
| CallDirectory.LabelsMean | apps/api/src/services/callDirectoryExport.ts:81-135 | a spam label says scam if and only if SCAM is on top, with the reporter count; any other is the name of the most confident such identity, behind a warning if and only if the number is flagged |
| CallDirectory.DirectoryQueryHasAnAnswer | apps/api/src/services/callDirectoryExport.ts:101-119 | every snapshot has an answer to the directory query, with the most confident eligible identity of each phone |
| CallDirectory.GetBlockedDigits | apps/api/src/services/callDirectoryExport.ts:171-189 | a number is listed if and only if blocking is on and it has ten reporters, SCAM on top, a callable type and no suppression; strictly ascending |
| CallDirectory.RenormalizedType | apps/api/src/services/callDirectoryExport.ts:181-182 | normalizing a stored number again tells its own type |
| CallDirectory.NumberIsInjective | apps/api/src/services/callDirectoryExport.ts:152-153 | different canonical numbers have different numeric values, so the order is strict |
| CallDirectory.ExportIsConsistent | apps/api/src/services/callDirectoryExport.ts:146-188 | no duplicate and no suppressed number in either list, and every blocked number is in the entries with the scam label of ten reporters or more |
| CallDirectory.ExportIsDetermined | apps/api/src/services/callDirectoryExport.ts:101-189 | a snapshot has one directory and one block list, whatever the iteration order |
| CallDirectoryHandler.AddAllBlockingEntries | apps/ios/PhoneIntel/CallDirectoryExtension/CallDirectoryHandler.swift:30-36 | the parsable numbers, sorted, are appended to the context |
| CallDirectoryHandler.AddAllIdentificationEntries | apps/ios/PhoneIntel/CallDirectoryExtension/CallDirectoryHandler.swift:42-53 | the same for the entries, each with its label |
| CallDirectoryHandler.BeginRequest | apps/ios/PhoneIntel/CallDirectoryExtension/CallDirectoryHandler.swift:9-24 | without a snapshot nothing is sent; with one, both lists |
| CallDirectoryHandler.ParsedExactlyWhen | apps/ios/PhoneIntel/CallDirectoryExtension/CallDirectoryHandler.swift:30-53 | digits, signed or not, parse exactly when the number fits 64 bits |
| CallDirectoryHandler.EntriesArriveInOrder | apps/ios/PhoneIntel/CallDirectoryExtension/CallDirectoryHandler.swift:42-53 | every exported entry reaches the system, fits 64 bits, and arrives in the export's own strictly ascending order |
| CallDirectoryHandler.BlocksArriveInOrder | apps/ios/PhoneIntel/CallDirectoryExtension/CallDirectoryHandler.swift:30-36 | and so does every number to block |
| ExportSources.PhoneRowsAreCanonical | services/crawler/storage/postgres_repository.py:297-312 | in every reachable ledger a phone row holds a canonical number with that number's type |
| ExportSources.TablesServeTheExport | apps/api/src/services/callDirectoryExport.ts:101-123 | what the writers, the aggregation and the reports leave behind meets the export's premise |
| ExportSources.BlockedWereReported | apps/api/src/services/callDirectoryExport.ts:171-184 | a blocked number was reported by ten or more, and for nothing more often than SCAM |
| Sitemap.SitemapDiscovery.ResolveSitemap | services/crawler/domain_discovery/sitemap_discoverer.py:56-78 | the recursion is the depth-bounded walk, and its four lists record what was tried, readable or not |
| Sitemap.SitemapDiscovery.DiscoverSitemaps | services/crawler/domain_discovery/sitemap_discoverer.py:81-96 | walks the directives of robots.txt if there are any, else the four common paths; tried is found plus errors in number, and the URLs are those of the URL sets tried, each once in the order first seen |
| Sitemap.EveryTryIsRecorded | services/crawler/domain_discovery/sitemap_discoverer.py:59-72 | each URL tried is recorded as found or as an error, never both |
| Sitemap.DedupKeepsFirstSeenOrder | services/crawler/domain_discovery/sitemap_discoverer.py:94-95 | deduplication keeps the set of URLs and the order of first occurrence |
| Sitemap.WalkLaws | services/crawler/domain_discovery/sitemap_discoverer.py:56-78 | on any graph no URL is tried twice, all tried are within MAX_DEPTH - 1 links of a candidate, and all links of an index first tried above the greatest depth are tried |
| Sitemap.CompleteUnlessCut | services/crawler/domain_discovery/sitemap_discoverer.py:57-58 | everything reachable is tried if and only if every URL turned away as too deep was tried elsewhere |
| Sitemap.ShallowSitesAreCovered | services/crawler/domain_discovery/sitemap_discoverer.py:89-92 | where no chain of MAX_DEPTH links starts at a candidate, exactly the reachable URLs are tried |
| Sitemap.BreadthUnlessPinned | services/crawler/domain_discovery/sitemap_discoverer.py:57-60 | everything less than MAX_DEPTH links away is tried if and only if no index was first tried at the greatest depth though nearer, with a link left untried |
| Sitemap.OneDistanceGivesBreadth | services/crawler/domain_discovery/sitemap_discoverer.py:57-60 | so it is on every site where no URL stands at two distances below MAX_DEPTH |
| Sitemap.SeenPinsAUrlDeep | services/crawler/domain_discovery/sitemap_discoverer.py:57-60 | a concrete site on which a URL two links away is missed, so breadth fails |

## Left out

- The status CANCELLED, which no code sets, and WORKER_CONCURRENCY, which is only logged.
- Fairness: due crawl targets stay due, since nothing rewrites `next_crawl_at`, and no bound on their waiting is claimed.
- Clock skew between hosts: `fail_job` takes its retry time from the worker's clock, here the one clock.
- Job `metadata`, log lines, `updated_at` and `title`-like columns, which nothing modelled reads back.
- The bookkeeping of `crawl_targets` (status, ETag, last crawl) after a crawl, which the modelled results do not depend on.
- What the handlers do besides crawling a URL or a source: an outcome per handling stands for them; none of them writes `crawl_jobs`.
- Database errors inside a handler, which abort its transaction, and exceptions in the middle of an extraction.
- HTTP, robots.txt, XML, gzip and HTML parsing, dataset file readers and SHA-256: arbitrary results or an injective function stand for them.
- The keyword pattern of a candidate's confidence, whose words are mostly not ASCII: a parameter.
- ConcurrentExtraction.ExtractedOnceUnlessOverlap: only extractions overlap there; dataset rows and imports run as whole calls, in the other ledger modules.
- Text beyond ASCII, where Python's `\d` and `\s` accept more than JavaScript's.
- The regular expressions that guess a name, type and category: a fixed function of the observation and its source, given as columns of the aggregation's rows.
- Changes to a source's name or trust level between aggregations.
- Worker.CrawlWorker.RunOnce: states the drain of a worker that has the table to itself; what other processes do to its jobs is in LeaseProtocol.
- Scheduler.SchedulerProcess.RunOnce: states capacity and spacing for one scheduler process at a time; the uniqueness results allow any number.
- The texts of labels and of error messages; a label is its kind with its name or its reporter count.
- The evidence query behind `trusted`: whether an identity has high-trust evidence is a column of the snapshot.
- Sorting as an algorithm: both runtimes' sorts are library code, and the order of distinct numbers is unique.
- Statistics, monitoring and acquisition queries, priority scores, URL scores, the web and SwiftUI front ends: reads and arithmetic without protocol.
