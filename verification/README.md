# Heron, verified

Heron collects mail over IMAP into a local vault, scores it for phishing, and shows alerts and a
timeline. This project models its logic in Dafny 4.11 and proves the promises it rests on.
`dafny verify dfyconfig.toml` checks everything. Automatic induction is switched off for every lemma, so each induction
is written out.

## The parts

- **Ingestion** (`Ranges`, `Segments`, `Gaps`, `Coverage`, `Jobs`, `Ingest`, `Ingestion`, `CoverageSafety`,
  `IngestionRuns`, `Convergence`, `CrashResume`, `Completion`, `Collector`, `Runner`). A date range becomes the gaps that are not covered yet,
  each gap becomes a job, and a claimed job walks sorted UIDs in batches, stores what is in range, checkpoints, and
  records coverage at the end. `Ingestion` is the protocol as a labelled state machine: the server's folders, the
  vault's three tables, and the runners, which a crash erases. Any number of runners, requests, retries, restarts,
  arrivals and expunges interleave. `Runner.Worker.RunJob` is the job loop in place, with anything the others may do
  between its transactions; its whole history is proved to be a run of the state machine, so everything proved about
  runs holds for it. `Ingest.IngestRange` is the request in the same setting. Before the connection and after the last
  checkpoint the source is outside its `try`: an exception there, or in marking the job failed, escapes `run_job` and
  leaves the job running until the next startup. `RunJob` has that outcome, as a step that only removes the runner.
- **Analysis and alerts** (`AnalysisPass`, `Alerts`, `Scoring`, `Authentication`,
  `AuthenticationHeader`). The paging pass over a query whose
  answer shrinks while it is walked; the two-table upsert and the alert lifecycle with the status read and the guarded
  update as separate steps; scoring with deduplication and a cap; comment removal in Authentication-Results.
- **Indicators** (`Indicators`, `LooseIpv4`, `Defang`, `Refang`). The capped ordered collectors, loose IPv4 hosts,
  and defanging.
- **Time** (`StorageText`, `LocalDays`, `Activity`, `Timeline`). Storage texts and the calendar behind them, local days as UTC
  ranges, the range query, and the timeline counts.
- `Wrappers`, `Sorting` and `Strings` are shared helpers.

## What is taken for granted

- Time is in whole seconds. A time zone is a function: the UTC time of each local midnight (`LocalDays`), or the
  offset at each instant (`Activity`).
- UIDVALIDITY of a folder is constant, because a checkpoint is not tied to it, and UIDs are strictly ascending
  (section 2.3.1.1 of RFC 3501).
- A server answers the date search with its own calendar date of each message (section 6.4.4 of RFC 3501); a message
  may be dated in any zone. Messages that arrive after a run's search are not promised by that run.
- Each database transaction is one step. Startup recovery may happen at any moment, even beside live runners.
- A stored row is its key, INTERNALDATE and raw message; row ids and `created_at` are not compared.

## Where the code promises less than its comments

- `widened_for_imap_search` says that padding by a day is enough. It is, exactly for server zones from
  `-86400 - start % 86400` to `86400 - end % 86400` seconds: every zone when the range ends at a UTC midnight, but a
  day that ends at 11:00 UTC loses its last instant on a server at UTC+14 (`Ranges.SearchCompleteIff`,
  `Ranges.FarZoneMissesMessage`). Coverage is therefore proved truthful for messages dated in a tolerated zone, and
  `IngestionRuns.FarZoneLies` gives a run that records a false coverage for every zone outside.
- `run_job` accepts any batch size. Zero makes every job fail. A negative size ends the batch loop at once, and the
  range is recorded as covered with nothing stored: for every range, every message of it and every negative size there
  is a run that ends with the job done and the message missing (`IngestionRuns.NegativeBatchMisses`). All other results
  assume sizes of zero or more.
- `retry_job` does not look at the status. Two runners never share a job unless a job is retried while its runner is
  alive (`IngestionRuns.ExclusiveIff`).
- An analysis pass with batch size 0 attempts nothing; a negative size fetches everything in one page. Both are modelled.
- A local day that a time zone skips has no range: `local_day_range` raises for it. Days tile whenever the ranges of
  the parts exist (`LocalDays.DaysTile`).

## Model

| member | source | states |
|---|---|---|
| Ranges.SearchFindsInRange | src/heron/core/timeutil.py:48-60 | in a tolerated zone the padded date search matches every instant of the range |
| Ranges.SearchCompleteIff | src/heron/core/timeutil.py:48-60 | the search is complete if and only if the zone is tolerated; otherwise the first or the last instant is missed |
| Ranges.MidnightEndToleratesAllZones | src/heron/core/timeutil.py:48-60 | a range ending at a UTC midnight tolerates every zone up to a day |
| Ranges.FarZoneMissesMessage | src/heron/ingest/collector.py:149-151 | a real-world zone and range for which the printed search dates miss a message |
| Segments.SeparatedUnique | src/heron/core/coverage.py:42-46 | separated segments are determined by the instants they cover |
| Segments.MergePoints | src/heron/core/coverage.py:60-84 | merging a range covers exactly the old instants and the range, for its folder only |
| Segments.MergeSeparated | src/heron/core/coverage.py:60-84 | merging keeps segments pairwise separated, neither overlapping nor touching |
| Segments.MergeAllUnion | src/heron/core/coverage.py:32-84 | any sequence of recordings covers exactly the union of the recorded ranges |
| Segments.MergeAllConfluent | src/heron/core/coverage.py:32-84 | recordings in any order and with any repetition end in equal segments |
| Coverage.CoverageTable.RecordCoverage | src/heron/core/coverage.py:32-84 | in place: the rows become the merge of the old rows and the range and are separated; other folders' rows stay |
| Coverage.CoverageTable.GetCoverage | src/heron/core/coverage.py:87-107 | the folder's segments, in order and strictly separated |
| Coverage.CoverageTable.GetGaps | src/heron/core/coverage.py:140-147 | separated gaps holding exactly the requested instants that are not covered |
| Coverage.ComputeGaps | src/heron/core/coverage.py:110-137 | for any covered list, unsorted or overlapping, the gaps are the exact complement, non-empty, increasing and strictly separated |
| Coverage.GrowWindow | src/heron/core/coverage.py:60-71 | one pass in any row order finds exactly the touching rows and their hull |
| Coverage.WindowTest | src/heron/core/coverage.py:64-68 | a row touches the grown window if and only if it touches the range being recorded |
| Coverage.ReplaceMerged | src/heron/core/coverage.py:73-84 | deleting the touching rows and inserting the window is the merge of the point sets |
| Gaps.CanonicalUnique | src/heron/core/coverage.py:110-137 | two separated lists with the same instants are equal lists |
| Gaps.GapsUnique | src/heron/core/coverage.py:118-137 | the gaps depend only on which instants are covered |
| Convergence.OnlyTheirRanges | src/heron/api/ingest.py:43-49 | a run that claims only these jobs of a folder records only their ranges for it |
| Convergence.NextRequest | src/heron/core/coverage.py:140-147 | after any run, from any consistent state, that works in the folder only on the jobs of the gaps, the next request has exactly the gaps not recorded meanwhile, as an equal list; a gap whose job is done was recorded |
| Convergence.NothingLeft | src/heron/core/coverage.py:140-147 | when all those jobs are done the next request has no gaps |
| Ingest.CreateAndClaim | src/heron/api/ingest.py:44-49 | a new job for the gap, claimed exactly if it is still pending after whatever others did in between |
| Ingest.RequestedRange | src/heron/api/ingest.py:36-39 | exactly the instants from the midnight of the first local day to the midnight after the last; reversed days are refused |
| Ingest.RequestedIsShown | src/heron/api/ingest.py:37-41 | a stored row is shown for local days by the range query if and only if its instant is in the range that is requested for them |
| Ingest.IngestRange | src/heron/api/ingest.py:34-50 | 404 and 422 change nothing; otherwise the gaps hold exactly the uncovered instants of the requested local days, each gets one new job for exactly that gap, and the response lists in order those the endpoint claimed, all under interference |
| Jobs.JobTable.CreateJob | src/heron/core/jobs.py:29-44 | a new pending job under an unused id; the rest of the table is unchanged |
| Jobs.JobTable.ClaimJob | src/heron/core/jobs.py:77-94 | claims exactly the pending job, which keeps its request and checkpoint; other rows stay |
| Jobs.JobTable.ClaimNextJob | src/heron/core/jobs.py:97-117 | claims the least pending id; None exactly when no job is pending |
| Jobs.JobTable.UpdateCheckpoint | src/heron/core/jobs.py:120-124 | other rows stay; the row keeps its request, status and error |
| Jobs.JobTable.MarkDone | src/heron/core/jobs.py:127-133 | other rows stay; the row keeps its request, checkpoint and error |
| Jobs.JobTable.MarkFailed | src/heron/core/jobs.py:136-144 | other rows stay; the row keeps its request and its checkpoint for a retry |
| Jobs.JobTable.RetryJob | src/heron/core/jobs.py:147-160 | other rows stay; the row, whatever its status, keeps its request and checkpoint |
| Jobs.JobTable.FailInterruptedJobs | src/heron/core/job_recovery.py:29-39 | every running job becomes failed and keeps its request and checkpoint, every other job stays, and the count is of those that were running |
| CoverageSafety.StepExtends | src/heron/worker/runner.py:79-115 | every step keeps the emails, the jobs' requests and the recordings; folders only gain and lose messages |
| CoverageSafety.CheckpointSettles | src/heron/worker/runner.py:97-100 | at a checkpoint every wanted message up to it that still exists is stored |
| CoverageSafety.RecordSettles | src/heron/worker/runner.py:110-114 | when the range is recorded every wanted message found at the search that still exists is stored |
| CoverageSafety.InvStep | src/heron/worker/runner.py:40-116 | the protocol invariant survives every step of every participant |
| IngestionRuns.InvRun | src/heron/worker/runner.py:40-116 | the invariant holds after every run, and nothing promised earlier is lost |
| IngestionRuns.CoverageNeverLies | src/heron/worker/runner.py:74-115 | in every run from an empty vault, each covered instant lies in a recorded range whose messages (on the server at that run's search, still there, in range, tolerated zone) are all in the vault |
| IngestionRuns.DoneIsCovered | src/heron/worker/runner.py:114-115 | in every run the whole range of every done job is covered |
| IngestionRuns.FarZoneLies | src/heron/worker/runner.py:62-74 | for every range and every zone not tolerated, a run that ends with the range covered and a live message of it missing |
| IngestionRuns.NegativeBatchLies | src/heron/worker/runner.py:119-121 | from any state in which the search can be answered, a negative batch size completes the job and covers the range with the emails unchanged |
| IngestionRuns.NegativeBatchMisses | src/heron/worker/runner.py:119-121 | for every range, message of it and negative batch size, a run from an empty vault that ends with the job done, the range covered, and the message on the server but not stored |
| IngestionRuns.RetryBetweenClaims | src/heron/core/jobs.py:77-160 | between two claims of one job lies a retry of it, whatever interleaves |
| IngestionRuns.OnlyRetryMakesPending | src/heron/core/jobs.py:77-160 | a claimed job leaves the queue and only a retry puts it back |
| IngestionRuns.ExclusiveIff | src/heron/core/jobs.py:147-160 | two runners never come to share a job, by any step except retrying a job whose runner is alive |
| CrashResume.ResumedEqualsOneShot | src/heron/worker/runner.py:74-115 | on a quiet mailbox any history of attempts, cut off anywhere and resumed, that ends done leaves exactly the emails of a one-shot fetch |
| CrashResume.InterruptionsDoNotMatter | src/heron/worker/runner.py:74-115 | any two such histories, with any batch sizes, leave equal emails |
| Completion.EveryJobCanFinish | src/heron/worker/runner.py:74-115 | from every resumable state with a known account, for every batch size of at least one, some quiet run finishes the job with the emails of a one-shot fetch |
| Collector.EmailTable.InsertEmailIfNew | src/heron/core/storage.py:91-135 | a key that is present keeps its row; otherwise exactly that row is added, and the caller learns which |
| Collector.EmailTable.StoreIfInRange | src/heron/ingest/collector.py:101-146 | outside the range nothing changes; inside, new and duplicate are told apart, a new row has the date and the raw message, and every earlier row stays |
| Collector.EmailTable.FetchAndStoreRange | src/heron/ingest/collector.py:50-98 | the emails become the one-shot result for what was found at the search and still exists at the fetch, and the four counts are those of the fetched messages |
| Collector.StoreEachIsOneShot | src/heron/ingest/collector.py:79-91 | storing the search result one by one is adding all wanted rows at once, rows already present winning |
| Runner.Worker.SearchFolder | src/heron/worker/runner.py:67-77 | the sorted, checkpoint-filtered search is a search step of the protocol, from any order of the server's answer |
| Runner.Worker.StoreBatch | src/heron/worker/runner.py:79-96 | every UID of the batch is processed by store steps, unless something raised, which marks the job failed or escapes |
| Runner.Worker.WalkBatches | src/heron/worker/runner.py:79-100 | all batches are walked in order with a checkpoint after each, unless something raised or the batch size is zero |
| Runner.Worker.FetchAll | src/heron/worker/runner.py:64-108 | the part inside the `try` ends with no batch left unless something raised, the folder is missing or the batch size is zero |
| Runner.Worker.Finish | src/heron/worker/runner.py:110-115 | coverage first, then done, unless an exception at either escapes and leaves the job as it is |
| Runner.Worker.RunJob | src/heron/worker/runner.py:40-116 | with arbitrary interference between transactions the whole execution is a run of the protocol; the job is done if and only if nothing raised, account and folder exist and the batch size is not zero; without an exception it is otherwise failed; an escaped exception leaves the job untouched |
| Runner.OthersLeave | src/heron/worker/runner.py:40-116 | interference by others leaves this runner's progress and keeps the folders, accounts and jobs it relies on |
| Runner.SortAscending | src/heron/worker/runner.py:74 | sorting distinct UIDs gives a strictly ascending list of the same UIDs |
| Alerts.InvRun | src/heron/core/analysis_storage.py:50-216 | in every run: one analysis and at most one alert per email, handling times fit the status, and every analysis that is not clean has an alert with its score, verdict and version |
| Alerts.EveryChangeIsAnEdge | src/heron/analysis/alerts.py:38-46 | a step changes a status only along an edge from the stored status, and only by the guarded update |
| Alerts.LegalHistory | src/heron/core/analysis_storage.py:184-216 | at every point of every run alerts stay, and their status stays or follows an edge |
| Alerts.SecondWriterLoses | src/heron/core/analysis_storage.py:209-215 | of two people who read the same status the second update changes nothing |
| Alerts.DecisionSurvives | src/heron/core/analysis_storage.py:89-108 | assessments never change an alert's status, creation time or handling times |
| Alerts.FirstAlertIsOpen | src/heron/core/analysis_storage.py:89-105 | the first flagging adds one alert: open, never handled, created and updated now, carrying the assessment; other alerts stay |
| Alerts.RescoreRefreshes | src/heron/core/analysis_storage.py:89-105 | a later flagging refreshes that alert only and keeps its handling; a clean assessment leaves all alerts alone |
| Alerts.AnalysisIsSaved | src/heron/core/analysis_storage.py:72-86 | the email's analysis is the assessment, other emails keep theirs |
| Alerts.TransitionTable | src/heron/analysis/alerts.py:38-54 | the seven allowed moves and no other |
| Alerts.MoveEffects | src/heron/core/analysis_storage.py:200-213 | a move sets the time of acknowledging or closing, reopening forgets both, content and other alerts stay |
| Alerts.BornOpen | src/heron/core/analysis_storage.py:100-104 | the only step that brings an alert into being is a flagging assessment, and the alert is open and unhandled |
| Alerts.BornOpenInRuns | src/heron/core/analysis_storage.py:50-216 | so in every run each alert starts open |
| Alerts.AlertStore.RecordAssessment | src/heron/core/analysis_storage.py:50-108 | both tables change together; the id returned is the email's alert, None exactly for a clean verdict; a first alert is open, unhandled and stamped now |
| Alerts.AlertStore.GuardedUpdate | src/heron/core/analysis_storage.py:200-215 | in place: the row moves if and only if its status is still the one that was read, otherwise nothing changes |
| Alerts.AlertStore.SetAlertStatus | src/heron/core/analysis_storage.py:184-216 | a missing alert gives None; a move that is not an edge raises and changes nothing; a legal move succeeds if and only if, just before its write and after any interference, the status was still the one that was read |
| AnalysisPass.QueryReturnsRest | src/heron/core/analysis_storage.py:222-249 | after the first k pending emails were attempted, the query beyond the last of them returns exactly the rest |
| AnalysisPass.AttemptsAnalyse | src/heron/worker/analysis.py:37-50 | attempted readable emails are analysed under the current version, every other email is as before |
| AnalysisPass.SecondPassSavesNothing | src/heron/worker/analysis.py:53-82 | after all pending emails were attempted only unreadable ones are pending; attempting them again saves 0 and changes nothing |
| AnalysisPass.SecondPassReturnsZero | src/heron/worker/analysis.py:53-100 | an immediate second pass, of any batch size, succeeds, returns 0, changes nothing and attempts only unreadable emails |
| AnalysisPass.Analyzer.AnalyzeStoredEmail | src/heron/worker/analysis.py:37-50 | False without a change for an unreadable email; one saved assessment otherwise; a raising pipeline changes nothing |
| AnalysisPass.Analyzer.AttemptBatch | src/heron/worker/analysis.py:97-99 | calls the analysis once for each email of the page, in order, up to one that raises |
| AnalysisPass.Analyzer.WalkPage | src/heron/worker/analysis.py:94-100 | one page makes exactly the calls for the next pending emails, in order and without a gap |
| AnalysisPass.Analyzer.Run | src/heron/worker/analysis.py:85-100 | terminates; its calls are exactly the initially pending emails, each once, in order, unreadable ones included, up to one that raises; it saves what they yield and returns the number saved |
| AnalysisPass.PendingIs | src/heron/core/analysis_storage.py:222-249 | the work found is exactly the emails without an analysis, or with one of another rules version |
| AnalysisPass.EveryReadableIsAnalysed | src/heron/worker/analysis.py:53-59 | after a finished pass every readable email has an analysis, new ones hold the score and verdict under the current rules, old ones are kept |
| AnalysisPass.NoReadableIsStale | src/heron/worker/analysis.py:75-82 | after a finished re-analysis no readable analysed email is stale, and current analyses are kept |
| AnalysisPass.CountScoredIs | src/heron/worker/analysis.py:97-99 | the number saved is the number of distinct attempted emails that are readable |
| Scoring.ScoreClosedForm | src/heron/analysis/scoring.py:96-137 | the score is the cap or the sum over distinct rules of each rule's best points |
| Scoring.ScoreMonotone | src/heron/analysis/scoring.py:101-102 | the score ignores order and repetition of findings and grows with them |
| Scoring.PhishingNeedsTwoRules | src/heron/analysis/scoring.py:44-51 | with the default weights a phishing verdict needs two distinct rules that score |
| Scoring.VerdictByThreshold | src/heron/analysis/scoring.py:103-108 | each verdict by the two thresholds, in terms of the score |
| Scoring.DefaultWeights | src/heron/analysis/scoring.py:44-62 | the shipped weights, thresholds and cap as numbers; a single finding scores its weight |
| Scoring.SingleFinding | src/heron/analysis/scoring.py:101-102 | one finding is worth the weight of its severity, up to the cap |
| Scoring.CrashLowersScore | src/heron/rules/registry.py:26-36 | crashing rules can only lower the score |
| Scoring.FindingsByRule | src/heron/rules/registry.py:30-34 | findings and errors are collected rule by rule, findings only from rules that did not crash |
| Scoring.ScoreFindings | src/heron/analysis/scoring.py:119-137 | the reasons are a permutation of the findings, biggest points first |
| Scoring.Assess | src/heron/analysis/scoring.py:96-116 | the score is the closed form, the verdict follows the thresholds, every finding is explained |
| Scoring.RunRules | src/heron/rules/registry.py:26-36 | the findings of the rules that did not crash, most severe first, ties in registry order, and every crash reported |
| Sorting.SortStable | src/heron/rules/registry.py:35 | elements with equal keys keep their order |
| Authentication.PassPrunes | src/heron/rules/authentication.py:20-31 | one pass over balanced text removes exactly the innermost comments |
| Authentication.PassLowersByOne | src/heron/rules/authentication.py:30-31 | each pass lowers the deepest nesting by exactly one and keeps the text outside comments |
| Authentication.PassesExact | src/heron/rules/authentication.py:30-31 | k passes equal a scan with a depth counter if and only if comments nest at most k deep |
| Authentication.ParseAuthenticationResults | src/heron/rules/authentication.py:27-41 | the server name and, for every method mentioned, all its results in order |
| Authentication.CommentsInvisible | src/heron/rules/authentication.py:27-41 | headers that agree outside comments nested at most three deep are parsed alike, whatever the comments hold |
| AuthenticationHeader.CharacterClasses | src/heron/rules/authentication.py:21 | letters, name characters, spaces and lower case by code point |
| AuthenticationHeader.MatchResultIff | src/heron/rules/authentication.py:36-40 | a segment yields a method and a result if and only if it reads spaces, name, spaces, "=", spaces, word, and they are these in lower case |
| AuthenticationHeader.FirstTokenIs | src/heron/rules/authentication.py:32-34 | the server is the first word, in lower case |
| AuthenticationHeader.HeaderParses | src/heron/rules/authentication.py:27-41 | a header whose text outside comments is a first part and segments parses to the first word and, per method, what the segments say, in order |
| AuthenticationHeader.PrintedHeaderParses | src/heron/rules/authentication.py:27-41 | a header printed from a server and results parses to that server and, per method, its results in order |
| Indicators.DistinctByFirstSeen | src/heron/analysis/extractor.py:243-247 | the reference list holds each element once, ordered by first occurrence |
| Indicators.LabelsByEvent | src/heron/analysis/extractor.py:282-285 | sources and texts grow event by event, only by the events of their indicator, and never by an empty text |
| Indicators.ReportedLabels | src/heron/analysis/extractor.py:243-266 | a source or text is reported for an indicator if and only if some event saw it there |
| Indicators.NotedKeepsReport | src/heron/analysis/extractor.py:425-428 | storing one sighting with the size test keeps the store equal to the cut-off report of everything seen |
| Indicators.Collector.Note | src/heron/analysis/extractor.py:274-285 | in place: an indicator that is present gains the source and text, a new one is added unless the store is past its cap |
| Indicators.Collect | src/heron/analysis/extractor.py:166-228 | after any stream the store holds the first distinct indicators, one past the cap, each with all its sources and texts |
| Indicators.Report | src/heron/analysis/extractor.py:229-239 | the report and the truncation flag are those of a collector without a cap |
| LooseIpv4.SpellingParses | src/heron/analysis/extractor.py:480-487 | a number spelled in decimal, octal or hexadecimal parses back |
| LooseIpv4.FittingParts | src/heron/analysis/extractor.py:473-477 | numbers pass the range tests and make an address if and only if they are the parts of that 32-bit address |
| LooseIpv4.AcceptedIff | src/heron/analysis/extractor.py:466-487 | a host is accepted with a value if and only if the value has 32 bits and every part denotes its bytes |
| LooseIpv4.SpelledParsesBack | src/heron/analysis/extractor.py:466-487 | any 32-bit value in one to four parts, each in its own notation, parses back to it |
| LooseIpv4.HostIgnoresCase | src/heron/analysis/extractor.py:480-487 | hosts that differ in letter case only parse alike |
| Defang.DefangUrl | src/heron/analysis/extractor.py:127-142 | the rewriting with the boundary loop brackets exactly the authority of the hidden URL |
| Defang.NoHttpLeft | src/heron/analysis/extractor.py:127-142 | for every string no "http" in any letter case is left |
| Defang.SeparatorsStayBracketed | src/heron/analysis/extractor.py:127-142 | for every string each "://" of the output stands in brackets |
| Defang.AuthorityExtent | src/heron/analysis/extractor.py:133-141 | the authority is the text up to the first "/", "?" or "#" |
| Defang.AuthorityIsWrapped | src/heron/analysis/extractor.py:127-142 | for every string each dot and at sign in the output's authority stands in brackets |
| Refang.RefangDefang | src/heron/analysis/extractor.py:153-160 | refanging restores every URL with a lower-case http, https or ftp scheme whose rest has no opening bracket and no scheme word |
| StorageText.DayNumberClosedForm | src/heron/core/timeutil.py:113-127 | the day count of the Gregorian calendar in closed form, with 1970 anchored |
| StorageText.InstantOrder | src/heron/core/timeutil.py:113-127 | UTC fields compare as their instants under the calendar's day count, and determine them |
| StorageText.TextOrder | src/heron/core/timeutil.py:113-122 | storage texts compare character by character exactly as their instants |
| StorageText.ParsePrint | src/heron/core/timeutil.py:113-127 | parsing a printed timestamp gives the same second |
| StorageText.PrintParse | src/heron/core/timeutil.py:125-127 | a text in the layout that parses is the text of its timestamp |
| StorageText.ParsedOrder | src/heron/core/storage.py:143-145 | comparing stored texts is comparing instants, without parsing rows |
| LocalDays.EveryDayHasARange | src/heron/core/timeutil.py:77-103 | with increasing midnights a request fails exactly when its days are reversed, else it spans midnight to midnight |
| LocalDays.GetEmailsInRange | src/heron/core/storage.py:138-160 | an ordered list with exactly the account's rows whose text lies in the range |
| LocalDays.MatchesByInstant | src/heron/core/storage.py:149-155 | a row whose date parses is found if and only if its instant is in the range |
| LocalDays.DaysTile | src/heron/core/storage.py:138-160 | answers for days a..b and b+1..c share no row, and one after the other they are an answer for a..c |
| LocalDays.DaysSplit | src/heron/core/storage.py:138-160 | every answer for a..c is an answer for a..b followed by one for b+1..c |
| Activity.CountRows | src/heron/analysis/activity.py:57-78 | each bucket counts exactly the rows of its hour or day, by verdict; analysed counts rows on the days with a verdict |
| Activity.BuildActivity | src/heron/analysis/activity.py:44-91 | the totals, summed over buckets, are the counts of rows on the requested local days; reversed and too long ranges are refused |
| Activity.VerdictsNest | src/heron/analysis/activity.py:71-77 | suspicious plus phishing is at most analysed, which is at most emails |
| Activity.DaysAddUp | src/heron/analysis/activity.py:57-91 | splitting a range of days adds up for every kind of mail |
| Activity.HourlyTotalIsDayBucket | src/heron/analysis/activity.py:53-91 | the totals of a day shown by hour are that day's bucket in every wider view |
| Activity.WindowHoldsDays | src/heron/core/activity_storage.py:44-47 | the text window holds every row on the requested days for offsets of at most a day |
| Activity.WindowExact | src/heron/core/activity_storage.py:44-47 | the window drops nothing if and only if the offset is at most a day |
| Activity.ActivityFor | src/heron/core/activity_storage.py:29-48 | the activity of the fetched window is the activity of all the account's mail |
| Timeline.OnDaysIff | src/heron/analysis/activity.py:64-69 | a row is on the requested days if and only if its date parses and the calendar day of its instant at the zone's offset is one of them |
| Timeline.OnDaysInRange | src/heron/analysis/activity.py:64-69 | equivalently its instant lies between the midnights that bound the days |
| Timeline.FixedOffsetOnDays | src/heron/analysis/activity.py:64-69 | with a fixed offset the days are one span of seconds, shifted from UTC days by the offset |
| Timeline.FixedOffsetDays | src/heron/core/timeutil.py:92-103 | with a fixed offset the days are the UTC range that the date range function gives |
| Timeline.HourBucketIff | src/heron/analysis/activity.py:70-72 | with a fixed offset an hour bucket holds exactly the instants of that local hour |
| Timeline.DayBucketIff | src/heron/analysis/activity.py:70-72 | in a view of several days a bucket holds exactly the rows of its local day |
| Timeline.TotalsCount | src/heron/analysis/activity.py:80-91 | the totals count rows by local day and stored verdict |
| Timeline.TimelineAgreesWithQuery | src/heron/core/activity_storage.py:29-48 | an account's emails total is the length of the range query's answer for the same local days |
| Timeline.AllAccounts | src/heron/core/activity_storage.py:23-24 | without an account the timeline is that of all mail |

## Left out

- IMAP login, timeouts and wire format: a folder is an abstract server; any step that talks to it may fail.
- SQLite isolation, row id reuse, migrations and list or get queries; timestamps of jobs and coverage rows.
- UIDVALIDITY changing between attempts, account deletion during a job, raw message files and their hashes, MIME headers.
- Ingest.IngestRange: the account lookup and the reading of the gaps are one moment, which loses nothing because accounts do not change; the background task that runs a claimed job is `Runner.Worker.RunJob`.
- CrashResume.ResumedEqualsOneShot: compares row contents, not row ids or creation times, and assumes batch sizes of zero or more, because a negative one is refuted above.
- AnalysisPass.Analyzer.Run: one pass at a time; other writers of the tables during a pass, the JSON columns, titles and summaries are not modelled. `analyze_pending_safely` only turns a raised error into 0.
- Alerts.AlertStore.RecordAssessment: recommended actions, title, summary and the `complete` flag are not modelled.
- Scoring.ScoreFindings: detail, evidence and the headline are wording that follows the findings; `rules_version` is opaque text.
- Authentication.ParseAuthenticationResults: the classes of white space, letters and lower case are those of ASCII; quoted strings inside comments are not treated specially by the code either, and unbalanced parentheses are parsed but not characterised.
- Indicators.Collect: a URL arrives normalised or not at all; URL normalisation and splitting, HTML parsing, address, domain and hash patterns are not modelled.
- LooseIpv4.AcceptedIff: the interpreter's limit on the length of decimal literals is not modelled.
- Refang.RefangDefang: which characters make words is a parameter, since only the start of the text matters.
- StorageText.ParsePrint: years from 1000 to 9999, which print with four digits; parsing takes the printed layout only, while `strptime` also takes single digits and wider white space.
- LocalDays.GetEmailsInRange: rows with equal dates may come in any order, as the query leaves it open.
- Activity.BuildActivity: bucket labels are the hour or the day offset; an unknown time zone is refused before the count.
- The other rules, domain lists, settings, doctor, secrets, the remaining API routes and the dashboard pages.
