# MoneyFlow: verified model of the stateful core

MoneyFlow turns financial emails into transactions. This project models the parts of its backend that keep
state over many requests, and proves what they promise:

- the duplicate engine (`Entities`, `Scoring`, `Evidence`, `Detection`, `DetectionRuns`, `Recording`,
  `BatchDetection`, `BatchRecording`, `SyncRuns`, `Learning`, `Resolution`, `Decisions`, `TrustLoop`, `Service`) and the migration that makes duplicate pairs unique (`PairMigration`);
- the three rate limiters (`MemoryLimiter`, `RedisLimiter`, `GroqLimiter`);
- cursor pages, bulk actions and exports over a changing table (`Keyset`, `CursorText`, `BulkActions`);
- batch classification, the amounts that its patterns read, and the daily LLM budget (`Classification`,
  `Classified`, `AmountText`, `Budget`);
- the review queue (`Review`) and the monthly statistics (`Months`).

`Common` holds the shared vocabulary. `dafny verify dfyconfig.toml` checks everything.

## How the model is built

Objects and tables that the code changes in place are classes whose methods change the same fields in the same
order (`RateLimiter`, `RedisRateLimiter`, `GroqRateLimiter`, `DedupService`, `DuplicatePairs`,
`TransactionTable`, `LlmSpendTracker`, `ReviewQueue`; the list of results in `BatchClassifyEmails` is an array
filled by index). Each method is proved equal to a specification function of the old state, and the lemmas are
about runs of those functions. Runs are histories of events: a call with its clock reading, a lock section, a
query that meets the table of its own moment. What the code asks of others is a parameter: clock readings, the
answers of Redis and of the LLM, currency rates, text tests, the order in which the database returns rows.

What the operations promise is stated once more without those functions, on the rows before and after: `Evidence`
for the scorer, `Recording` and `BatchRecording` for the two detectors, `Decisions` for the user's requests on
pairs, `Classified` for the results of a batch, and within their modules for the limiters, the reviews, the bulk
actions and the budget. The methods carry these statements in their contracts, and `TrustLoop` joins them.

Money is a real number, dates are day numbers where only their distance matters, time stamps are microseconds
or real seconds. Row ids are natural numbers; the text order of ids matters in `PairMigration` and is modelled
there. The amount-and-date key of the second batch phase is the exact amount, which is what its two-decimal
text stands for on two-decimal amounts.

## Where the code and its documentation part

The model follows the code. The differences are theorems here:

- The scorer's docstring lists a reference id among the strongest layers and two body-date layers after it. In
  code order the reference layer decides only pairs of different domains that are two or three days apart and
  claimed by no weaker test, and the body-date layers never decide (`Scoring.ReferenceLayer`,
  `Scoring.ReferenceIgnoredWhenClose`, `Scoring.BodyDateLayersUnreachable`).
- The score depends on the order of its arguments exactly where one amount accepts the other and not conversely,
  since the tolerance is taken from the first, and some test holds (`Scoring.ScoreSymmetry`).
- The cross-domain pass settles a candidate before it looks at its score (`DetectionRuns.SettledIffScoredTooLow`),
  which loses investment pairs (`DetectionRuns.InvestmentPairLost`).
- The batch window loses rows that the scorer would accept. It keeps every amount that a batch accepts if and only
  if no amount of the batch is below 100 (`BatchDetection.AmountWindowExact`). By date it loses rows that arrive
  late on its last day, and rows dated by their body that are booked and arrive outside it
  (`BatchDetection.WindowExact`, `BatchDetection.BodyDateLost`).
- The second batch phase records pairs of incomes (`BatchDetection.IncomePairsRecorded`).
- Keeping the former duplicate of a pair leaves a pair of it with itself; dismissing, reopening and confirming
  such a pair deletes the transaction the user named each time (`Resolution.TwoEndsIffPrimaryKept`,
  `Resolution.DismissReopenConfirmDeletesKept`).
- The Groq limiter reads the clock before it takes its lock. "At most twice the per-minute limit in any minute"
  holds if and only if no reset ever waits for the lock, or the daily limit is not above the minute's
  (`GroqLimiter.WaitingDecides`). Otherwise the exact bound for its one reset thread is three times the limit, as
  far as the daily limit leaves that much (`GroqLimiter.PeakExact`).
- A Redis connection whose first ping fails is never tried again (`RedisLimiter.FailedPingIsFinal`).
- A sweep of the in-memory limiter younger than a window can be observed (`MemoryLimiter.YoungSweepObservable`).
- The listing shows a row again when it is edited between two pages and its new version lies ahead of the key
  reached, and never otherwise; its date is then an earlier one (`Keyset.EditedRowShownAgainIff`,
  `Keyset.RepeatedIdIsDatedBack`).
- Deleting in bulk skips exactly the rows whose email was deleted with a row of an earlier batch: they vanish
  uncounted, and their months are not recomputed. Nothing is skipped if and only if rows of one email fall into one
  block of 500 (`BulkActions.TransactionTable.BulkSelectAll`, `BulkActions.SkipsNothingIff`,
  `BulkActions.LastRowSkipped`).
- The option that gives the LLM priority over the rules is lost for emails that no batch reply answers
  (`Classification.PriorityOnlyInBatches`). The model's single call has no correction retry: in the code it
  changes no result, because label, amount, category and confidence have been read before it
  (`app/classifier/classifier.py:552-594`).
- Configuration calls the daily LLM budget global; it is compared with each user's own spend
  (`Budget.BudgetsAreIndependent`).
- The table definitions in `app/models/transaction.py:42` still name a unique constraint on the email of a
  transaction. Migration 0059 drops it, and a second keep then adds a second transaction, after which undoing
  raises (`Review.UndoRestoresIff`, `Review.SecondKeepBlocksUndo`). The model takes the constraint as a parameter.
- Undoing the review of an email whose rule has a hit count of zero, as rules made by hand have, deletes the
  rule (`Review.UndoRestoresIff`). Undo also deletes a transaction without the pairs that name it
  (`Resolution.UndoKeepsIntegrityIff`). The endpoints accept emails in any state, and then miscount, exactly as
  `Review.DecideKeepsCountsIff` and `Review.TakeBackKeepsCountsIff` say.
- Amounts are checked for LLM results only. What the rules read in a body is never negative nor finer than a cent,
  but every such amount, zero and those above the ceiling included, can end up in an automatic result
  (`Classification.CapsBrokenIff`, `Classification.FallbackAmounts`, `Classification.AnyAmountAutomatic`).
- The monthly series raises when its window reaches December 9999 (`Months.MonthlyData`).

## Model

| member | source | states |
|---|---|---|
| MemoryLimiter.RateLimiter.IsAllowed | app/rate_limiter.py:21-36 | answer and new buckets of one request: a new window, a refusal at the limit, or one more in the window |
| MemoryLimiter.RateLimiter.Cleanup | app/rate_limiter.py:38-43 | exactly the buckets older than the age limit are gone |
| MemoryLimiter.SweepSimulation | app/rate_limiter.py:21-43 | the swept buckets simulate the unswept ones over every trace: the missing ones have run out for every caller |
| MemoryLimiter.SweepUnobservable | app/rate_limiter.py:21-43 | with windows no longer than the age limit, every trace gets the same decisions with and without its sweeps |
| MemoryLimiter.YoungSweepObservable | app/rate_limiter.py:38-43 | the age condition is needed: any younger sweep changes the decision of some trace |
| MemoryLimiter.BudgetKept | app/rate_limiter.py:21-36 | invariant behind the bound: what the current bucket leaves to a window-long interval |
| MemoryLimiter.GrantedIff | app/rate_limiter.py:21-36 | over every run of requests one is let through if and only if it opens a window or fewer than max were let through since the window opened |
| MemoryLimiter.KeysApart | app/rate_limiter.py:18-19 | endpoints of one identifier, and identifiers at one endpoint, have buckets of their own |
| MemoryLimiter.AtMostTwiceTheLimit | app/rate_limiter.py:21-43 | over every request history with sweeps, a closed interval one window long holds at most 2·max-1 grants of a key |
| MemoryLimiter.TwiceTheLimitAttained | app/rate_limiter.py:21-36 | the bound is reached for every limit and window |
| RedisLimiter.RedisRateLimiter.GetRedis | app/rate_limiter.py:60-73 | client and availability after an attempt to connect, the failed ping included |
| RedisLimiter.RedisRateLimiter.IsAllowed | app/rate_limiter.py:75-100 | answer, counters, availability and store after one request, the fail-open path included |
| RedisLimiter.RedisRateLimiter.Pipeline | app/rate_limiter.py:84-89 | the four commands as one step: the count before adding, and the new sorted set and its expiry |
| RedisLimiter.StoreTracksLog | app/rate_limiter.py:84-89 | over every run the sorted set holds what the sliding window of the full log leaves |
| RedisLimiter.GrantIffWindowHasRoom | app/rate_limiter.py:75-94 | an answered request is granted if and only if fewer than max attempts of any kind lie in the window before it |
| RedisLimiter.AtMostTheLimit | app/rate_limiter.py:75-94 | any interval (t-window, t] holds at most max grants made on the evidence of the log, whatever the connection does |
| RedisLimiter.ExpiryUnobservable | app/rate_limiter.py:88 | expiry of keys changes no decision and no counter of any trace |
| RedisLimiter.EveryCallCounted | app/rate_limiter.py:75-109 | hits, violations and misses add up to the calls, hits and misses are the grants, and misses the calls that got no answer |
| RedisLimiter.FailedPingIsFinal | app/rate_limiter.py:60-79 | once stuck, every later request is let through as a miss whatever the connection would answer |
| RedisLimiter.StuckOnlyByFailedPing | app/rate_limiter.py:60-79 | the limiter gets stuck exactly at a failed ping of a new connection |
| GroqLimiter.GroqRateLimiter.GetBucket | app/classifier/groq_rate_limiter.py:114-124 | the model's bucket, made with its limits or the default ones when missing |
| GroqLimiter.GroqRateLimiter.TryAcquire | app/classifier/groq_rate_limiter.py:146-173 | one lock section of acquire: decision and new counters |
| GroqLimiter.GroqRateLimiter.MaybeResetBuckets | app/classifier/groq_rate_limiter.py:100-112 | the lock section of a reset with a clock reading from before the lock |
| GroqLimiter.AlwaysWithinLimits | app/classifier/groq_rate_limiter.py:100-173 | under every interleaving, minute and day counters stay within limits, and daily tokens below tpd + tpm |
| GroqLimiter.GrantedIff | app/classifier/groq_rate_limiter.py:100-173 | over every run a request is granted if and only if the grants since the last effective minute reset number fewer than rpm, their tokens with the estimate fit tpm, and those since the last effective day reset stay below rpd and tpd where set |
| GroqLimiter.GrantsBoundedByResets | app/classifier/groq_rate_limiter.py:100-173 | grants in an interval number at most rpm for each effective reset in it, and once more |
| GroqLimiter.GrantsBoundedByDayResets | app/classifier/groq_rate_limiter.py:108-112 | the same for the daily limit and day resets |
| GroqLimiter.TwicePerPromptMinute | app/classifier/groq_rate_limiter.py:100-173 | with resets that wait at most d for the lock, from any number of threads, 60-d seconds hold at most 2·rpm grants |
| GroqLimiter.ThricePerMinute | app/classifier/groq_rate_limiter.py:92-173 | with the one reset thread and any waits, a half-open minute holds at most 3·rpm grants |
| GroqLimiter.PeakBound | app/classifier/groq_rate_limiter.py:92-173 | with the thread's pauses kept a half-open minute holds at most 3·rpm, rpm+rpd and 2·rpd grants, whichever is least (3·rpm without a daily limit) |
| GroqLimiter.PeakAttained | app/classifier/groq_rate_limiter.py:92-173 | any positive wait, however short, lets that many through in some minute |
| GroqLimiter.PeakExact | app/classifier/groq_rate_limiter.py:92-173 | so this peak is the least bound over all runs whose resets may wait at all |
| GroqLimiter.DailyLimitSuffices | app/classifier/groq_rate_limiter.py:108-112 | a daily limit not above rpm keeps every minute to 2·rpm by itself |
| GroqLimiter.WaitingDecides | app/classifier/groq_rate_limiter.py:101-102 | 2·rpm per minute holds for all runs if and only if no reset waits or the daily limit is not above rpm |
| GroqLimiter.GrantsSinceStart | app/classifier/groq_rate_limiter.py:100-173 | at most rpm·(1+whole minutes elapsed) and rpd·(1+whole days elapsed) grants since the start |
| Scoring.MerchantMatchFacts | app/dedup/service.py:233-252 | the merchant similarity is symmetric and lies between 0 and 1 |
| Scoring.ScoreRange | app/dedup/service.py:339-447 | a score is 0 exactly when no layer fired, else between 0.5 and 1, for rule confidence at most 1 |
| Scoring.BodyDateLayersUnreachable | app/dedup/service.py:386-447 | the body-date layers decide no pair |
| Scoring.ReferenceLayer | app/dedup/service.py:386-447 | the exact condition under which the reference layer decides, and its score |
| Scoring.ReferenceIgnoredWhenClose | app/dedup/service.py:386-447 | on the same or the next day reference ids make no difference |
| Scoring.ScoredIff | app/dedup/service.py:365-447 | a pair gets a score if and only if the second amount lies within the first one's tolerance, the dates are close, and a test of a reachable layer holds |
| Scoring.ScoreSymmetry | app/dedup/service.py:365-368 | swapping the transactions changes the score if and only if exactly one amount accepts the other and such a test holds |
| Scoring.EdgeAmountsAsymmetric | app/dedup/service.py:365-368 | such amounts exist |
| Evidence.MerchantMatchIs | app/dedup/service.py:233-252 | the similarity is one for equal words, else the common share of the larger word set, and without words 0.7 for senders known as one merchant; at least 0.7 exactly for merchants with seven tenths of their words in common |
| Evidence.BestDateIs | app/dedup/service.py:302-313 | the effective date is the earliest body date, else the transaction's, else the day of arrival |
| Evidence.ScoreMeans | app/dedup/service.py:365-427 | the scorer answers with a layer and a confidence exactly where amounts, senders and dates allow it and that layer is the first to speak, and reaches 0.5 exactly where some layer speaks |
| Detection.Query | app/dedup/service.py:597-612 | a query returns exactly the rows that meet its conditions on the current tables |
| Detection.PassesMatch | app/dedup/service.py:534-890 | after each pass the shared set, rows and labels are those that the single verdicts of the passes so far call for |
| Detection.DetectDoesWhatVerdictsSay | app/dedup/service.py:534-890 | one call adds exactly one row per candidate whose verdict names one, no other, touches no old row, and relabels exactly the duplicates of its auto-resolved rows |
| Detection.FinalNamesCandidate | app/dedup/service.py:579-630 | a verdict joins the transaction with another one not yet paired with it |
| DetectionRuns.VerdictSound | app/dedup/service.py:614-633 | a verdict joins transactions of one user, and an auto-resolved one keeps the earlier arrival |
| SyncRuns.RunsStaySound | app/dedup/service.py:534-1135 | over every run of arrivals, batch detections and incremental detections, pairs stay unique as unordered pairs and within one user, auto-resolved pairs keep the strictly earlier arrival, and every relabelled transaction is explained by one |
| SyncRuns.SyncKeepsSound | app/dedup/service.py:908-1135 | a batch keeps all that, relabels nothing and removes no pair that explains a label |
| DetectionRuns.LinksEndAtUntouched | app/dedup/service.py:614-633 | from a relabelled transaction, links through ever earlier arrivals end at one whose label was never changed |
| SyncRuns.IgnoredHasKept | app/dedup/service.py:614-633 | over every such run, what was ignored has such a kept counterpart |
| DetectionRuns.PickPrimaryCycles | app/dedup/service.py:893-905 | without arrival times the choice of the primary has cycles |
| DetectionRuns.ScanOrderIrrelevant | app/dedup/service.py:597-890 | the order in which queries return rows changes neither pairs nor labels |
| DetectionRuns.SettledIffScoredTooLow | app/dedup/service.py:687-693 | an unpaired candidate is settled without a pair if and only if the first pass leaves it and the cross-domain pass scores it below 0.5 |
| DetectionRuns.InvestmentRecordedIffDatesClose | app/dedup/service.py:687-693 | of the order-and-confirmation pairs that both passes select, exactly those with close best dates are recorded |
| DetectionRuns.InvestmentPairLost | app/dedup/service.py:687-728 | a pair that the investment pass would record and that is lost |
| Service.DedupService.AddPair | app/dedup/service.py:621-632 | the row is added under a fresh id, and an auto-resolved one relabels its duplicate |
| Service.DedupService.SameDomainPass | app/dedup/service.py:581-633 | first pass, as the fold of its rows over tables and settled set |
| Service.DedupService.CrossDomainPass | app/dedup/service.py:635-725 | second pass, likewise |
| Service.DedupService.InvestmentPass | app/dedup/service.py:820-890 | third pass, likewise |
| Service.DedupService.SharedScorerPass | app/dedup/service.py:730-817 | fourth pass, likewise |
| Service.DedupService.DetectAndRecordDuplicates | app/dedup/service.py:534-817 | the four passes in place equal the detection of the lemmas, and add and relabel exactly what the rows call for |
| Service.NoDateNoRows | app/dedup/service.py:636-638 | the early return without a date loses nothing |
| Recording.DetectRecords | app/dedup/service.py:534-905 | one call adds, for each other transaction not yet paired, exactly the row that the new one's sender, dates, evidence and rule call for, relabels exactly the later ones of those it resolves itself, and changes nothing else |
| Recording.AutoResolvedIff | app/dedup/service.py:597-725 | a pair is resolved without the user if and only if it is one sender's, or another sender's with evidence and a trusted rule, or has a common reference that no earlier query settles |
| BatchDetection.Existing | app/dedup/service.py:975-1000 | the window query returns exactly the rows that meet its conditions |
| BatchDetection.ComparedMatches | app/dedup/service.py:1021-1132 | comparisons in any order record exactly the keys with a comparison worth recording |
| BatchDetection.BatchRecordsExactlyWanted | app/dedup/service.py:1021-1132 | a batch records exactly the wanted unordered pairs, once each and pending, keeps old rows, and its counters add up to the new rows |
| BatchDetection.GroupKeepsOrder | app/dedup/service.py:1088-1092 | a group holds the entries of its key in batch order |
| BatchRecording.BatchRecords | app/dedup/service.py:975-1132 | a batch adds one pending row for exactly those two transactions that it compares, that are no pair of the user's, and of which some layer speaks; the first compared comes first, with the layer and its confidence |
| BatchRecording.MeetIs | app/dedup/service.py:975-1103 | exactly which transactions are compared: an eligible new one with a row around the batch's amounts and dates, or with a later one of its amount and date |
| BatchDetection.WindowLosesNothing | app/dedup/service.py:975-998 | for a new amount of at least 100 and a dated row without body dates, the window contains all that the scorer's gates accept |
| BatchDetection.AmountKeptIff | app/dedup/service.py:980-990 | the batch's amount window holds all that one amount accepts if and only if that amount's tolerance fits between 95% of the least and 105% of the greatest amount |
| BatchDetection.AmountWindowExact | app/dedup/service.py:980-990 | it holds all that every new amount accepts if and only if every new amount is at least 100 |
| BatchDetection.WindowExact | app/dedup/service.py:975-998 | of the user's expenses whose date the scorer accepts the query loses exactly those outside the amount window and, by date, those dated by their body with neither booking nor arrival in the window, and those dated by an arrival after midnight on the window's last day |
| BatchDetection.BodyDateLost | app/dedup/service.py:975-998 | such a row: its body gives the new row's date, it is booked ten days later, the gates accept it and the query misses it |
| BatchDetection.IncomeOnlyWithinBatch | app/dedup/service.py:1023-1028 | the first phase compares no income |
| BatchDetection.IncomePairsRecorded | app/dedup/service.py:1085-1132 | the second phase records pairs of incomes of the same amount, date and domain |
| BatchDetection.BatchKeepsSound | app/dedup/service.py:908-1135 | a batch keeps pairs unique and within one user |
| Service.DedupService.Adjacency | app/dedup/service.py:1001-1019 | the adjacency map agrees with the set of stored pairs |
| Service.DedupService.Groups | app/dedup/service.py:1088-1092 | keys in order of first appearance, each with its group |
| Service.DedupService.CompareEntries | app/dedup/service.py:1046-1080 | one comparison: skipped as seen, counted as paired, rejected, or recorded |
| Service.DedupService.AgainstWindowRows | app/dedup/service.py:1023-1083 | the comparisons of the first phase are exactly eligible new against window rows |
| Service.DedupService.IntraBatch | app/dedup/service.py:1085-1132 | with the second phase, exactly the planned comparisons have been made |
| Service.DedupService.BatchDetectDuplicates | app/dedup/service.py:908-1135 | the rows added are exactly those called for, each counter is the number of new rows of its layer, and already_paired the number of comparisons that met a pair of the user's |
| Service.GroupsFindPairs | app/dedup/service.py:1088-1099 | comparing within groups finds exactly the pairs of the batch with a common key |
| Learning.RatioThreshold | app/dedup/service.py:1211-1216 | confidence above 0.85 means 3·confirmed > 17·dismissed |
| Learning.RouteStable | app/dedup/service.py:1181-1206 | learning never changes which rule a resolution goes to |
| Learning.CountersAreExact | app/dedup/service.py:1177-1216 | after any resolutions a rule's counters are its starting counts plus those routed to it, confidence is their ratio and auto_resolve as they earn; no other rules appear |
| Learning.OrderIrrelevant | app/dedup/service.py:1177-1216 | the rules learnt do not depend on the order of the resolutions |
| Learning.LearnMovesOneRule | app/dedup/service.py:1186-1223 | one lesson moves one rule, the user's own before everybody's before a new one, to its exact ratio and trust |
| TrustLoop.TrustIsEarned | app/dedup/service.py:1186-1223 | from no rule, the applying rule is trusted if and only if the user confirmed at least three times and more than seventeen times for every three dismissals |
| TrustLoop.DecisionsAreFollowed | app/dedup/service.py:698-713 | after any run of requests, a later pair of the two domains with evidence is resolved without the user exactly if their decisions have earned it |
| Decisions.ResolveMeans | app/dedup/service.py:1138-1251 | each refusal, and after an accepted decision the pair's status, time, kept transaction, score and layer, the exact deletions, and the one rule that learns |
| Decisions.ReopenMeans | app/api/duplicates.py:112-121 | each refusal, and otherwise a pending pair without a time and nothing else changed |
| Service.DedupService.UpdateRule | app/dedup/service.py:1177-1216 | the user's rule, else everybody's, else a new one learns |
| Service.DedupService.ResolvePair | app/api/duplicates.py:125-154 | status code and tables after a resolution request, refusals included |
| Service.DedupService.ResolveDuplicate | app/dedup/service.py:1138-1251 | status, learning and deletions of a resolution |
| Service.DedupService.DeleteTransaction | app/dedup/service.py:1218-1247 | the transaction goes with all pairs and corrections that name it |
| Service.DedupService.ReopenPair | app/api/duplicates.py:112-121 | status code and tables after a reopening |
| Resolution.ResolveKeepsIntegrity | app/dedup/service.py:1218-1251 | a resolution keeps every named transaction in existence; a confirmation deletes exactly the discarded one and what names it, a dismissal nothing |
| Resolution.NamedSurvivesUnlessSelfPair | app/api/duplicates.py:137-153 | the transaction named by the user survives if and only if the pair is not a confirmed self pair |
| Resolution.TwoEndsIffPrimaryKept | app/api/duplicates.py:137-142 | a surviving pair names two transactions if and only if the current primary was kept |
| Resolution.DismissReopenConfirmDeletesKept | app/api/duplicates.py:112-154 | three accepted requests naming the same transaction to keep delete it |
| Resolution.ReopenKeepsIntegrity | app/api/duplicates.py:112-121 | reopening changes one status and nothing else |
| Resolution.UniqueIffNoOtherSelfPair | app/api/duplicates.py:137-142 | the exact condition under which the symmetric unique index survives a resolution |
| Resolution.UniqueOverRunsIff | app/dedup/service.py:534-1135 | over every run of arrivals, both detectors, corrections, resolutions, reopenings and undone reviews, the symmetric index holds all along if and only if each accepted resolution meets that condition |
| Resolution.UndoKeepsIntegrityIff | app/api/emails.py:256-261 | undoing a kept email keeps integrity if and only if it raises or nothing names the email's transaction |
| Resolution.IntegrityOverRuns | app/dedup/service.py:1218-1251 | over every run of arrivals, detections, batches, corrections, resolutions, reopenings and undone reviews, every named transaction exists, as long as no undo hits a named one |
| Resolution.RunsTeachTheirLessons | app/dedup/service.py:1177-1216 | over every such run the rule table is what its accepted resolutions teach, in order, and nothing else touches it |
| Resolution.RunCounters | app/dedup/service.py:1177-1216 | over every such run a rule ends with its starting counts plus the resolutions routed to it, and the trust these earn |
| Resolution.SameLessonsSameRules | app/dedup/service.py:1177-1216 | runs with the same lessons in any order end with the same rules |
| PairMigration.LessIsTotalOrder | alembic/versions/0058_add_duplicate_pair_symmetric_constraint.py:27-44 | the text order of ids is a strict total order |
| PairMigration.DuplicatePairs.Preflight | alembic/versions/0058_add_duplicate_pair_symmetric_constraint.py:23-62 | exactly the smallest-id row of each unordered pair remains, so the symmetric index can be built, and every pair keeps a row |
| PairMigration.SmallestRemain | alembic/versions/0058_add_duplicate_pair_symmetric_constraint.py:27-62 | the two deletions together leave exactly the smallest rows |
| PairMigration.OnePerPair | alembic/versions/0058_add_duplicate_pair_symmetric_constraint.py:64-81 | those rows meet the symmetric unique index |
| Keyset.First | app/api/transactions.py:299-307 | the first row after a key is one with no candidate before it |
| Keyset.FetchIsExact | app/api/transactions.py:299-307 | a query skips no row before its end, and a short answer means there is no more |
| Keyset.FetchSplits | app/api/transactions.py:299-311 | a longer query is a shorter one followed by the query from its last key |
| Keyset.StepFetches | app/api/transactions.py:305-317 | looking one row ahead gives the plain page, and no next cursor means nothing is left |
| Keyset.WalkGoesForward | app/api/transactions.py:288-321 | keys shown go strictly forward whatever happens to the table between the queries |
| Keyset.StayingRowShownOnce | app/api/transactions.py:288-321 | a row that stays unchanged is shown exactly once if the iteration ends, and before that if and only if the key has passed it |
| Keyset.ShownWereThere | app/api/transactions.py:299-319 | every row shown was in the table its query met, and ahead of the start |
| Keyset.StaticWalkShowsListing | app/api/transactions.py:548-590 | on a static table pages, bulk batches and export batches end and show the whole ordered list |
| Keyset.ListingIsAll | app/api/transactions.py:299-307 | that list holds every row ahead, in order and once |
| Keyset.IdsShownOnce | app/api/transactions.py:548-564 | the loops by id show no id twice, however the rows are edited |
| Keyset.LatestComeFirst | app/api/transactions.py:300-317 | by date, rows come latest first and by falling id within a date, whatever happens between the pages |
| Keyset.RepeatedIdIsDatedBack | app/api/transactions.py:303-304 | in the listing an id comes up again only with an earlier date, over all tables: a row never dated back is shown at most once |
| Keyset.EditedRowShownAgainIff | app/api/transactions.py:299-321 | a row that was shown and then edited is shown again, if the walk finishes, if and only if its new version lies ahead of the key reached |
| Keyset.RedatedRowShownTwice | app/api/transactions.py:303-304 | pages on which a row dated back comes up twice |
| CursorText.IsoFormatExact | app/api/transactions.py:295-317 | of the texts of the form YYYY-MM-DD exactly a date's own text is read as the date |
| CursorText.SplitTwo | app/api/transactions.py:291-294 | a text has two parts if and only if it is two bar-free texts joined by a bar |
| CursorText.DecodedTexts | app/api/transactions.py:289-297 | exactly which texts decode to a key, the other ISO forms of its date included |
| CursorText.DecodeInvertsEncode | app/api/transactions.py:289-317 | what was encoded is decoded again if and only if the id has no bar |
| BulkActions.TransactionTable.BulkSelectAll | app/api/transactions.py:80-177 | a bulk action reaches exactly the user's rows, except, when deleting, those whose email went with a row of an earlier batch; it changes no other row, reports their number and months, refuses without effect above 5000 rows or without its value, and a deletion leaves the user no row |
| BulkActions.OneCourse | app/api/transactions.py:99-144 | the rows it reaches are determined by the table |
| BulkActions.SkipsNothingIff | app/api/transactions.py:99-144 | deleting reaches all rows if and only if no two rows of one email fall into different blocks of 500 |
| BulkActions.FewOrUnshared | app/api/transactions.py:99-144 | so nothing is skipped among at most 500 rows, or where no two of the user's rows share an email |
| BulkActions.LastRowSkipped | app/api/transactions.py:99-144 | 501 rows whose first and last share an email: 500 are reached and the last one is skipped |
| BulkActions.CoverBatch | app/api/transactions.py:99-113 | up to its end a full batch, and a short one altogether, holds exactly the user's next rows that have not lost their email to an earlier batch |
| BulkActions.TreatedMeans | app/api/transactions.py:125-167 | column by column what an action does to the rows reached and to the others, and which months are reported |
| BulkActions.TreatOneMore | app/api/transactions.py:125-150 | one row's turn, in place, amounts to treating one more row of the original table |
| Classification.ValidateLlmAmount | app/classifier/classifier.py:80-91 | which amounts pass, and which status results |
| Classification.BatchClassifyEmails | app/classifier/classifier.py:819-1000 | every slot holds the result that its own email, place in its batch and answers call for |
| Classification.HandleBatch | app/classifier/classifier.py:884-949 | one batch fills exactly the slots answered before a malformed or surplus entry |
| Classified.AnsweredMeans | app/classifier/classifier.py:871-946 | the verdict on an email is the entry at its own place among the waiting emails of its batch, if all entries up to it can be read |
| Classified.SlotMeans | app/classifier/classifier.py:819-1000 | field by field the result of every slot: label, amount and currency, merchant, category, date, confidence, status and kind, by the first phase that has one |
| Classification.ClassifyRest | app/classifier/classifier.py:965-989 | the third phase fills exactly the slots left |
| Classification.SlotsAreSane | app/classifier/classifier.py:375-381 | auto implies confidence at the threshold; an LLM amount is absent or in (0, 10,000,000], above 1,000,000 only for review |
| Classification.BatchingIsTransparent | app/classifier/classifier.py:871-946 | with complete replies the results are those of the single answers, for every batch size |
| Classification.ExcessEntriesIgnored | app/classifier/classifier.py:904-949 | entries beyond the batch change no result |
| Classification.PriorityOnlyInBatches | app/classifier/classifier.py:972-985 | LLM priority holds exactly for emails that a batch reply answers |
| Classification.CapsBrokenIff | app/classifier/classifier.py:656-679 | a slot carries an amount beyond the limits if and only if a rules branch finds one, in the body or by converted extraction |
| Classification.FallbackAmounts | app/classifier/classifier.py:721-782 | a result of the rules alone carries the amount read in the body, which is no negative number and a whole number of cents |
| Classification.AnyAmountAutomatic | app/classifier/classifier.py:721-782 | every such amount, zero and those above the ceiling included, can appear in an automatic result |
| AmountText.WrittenIsRead | app/classifier/classifier.py:28-36 | every amount in whole cents has a text that the pattern's group takes, and is read back from it |
| AmountText.StrictIsLoose | app/classifier/classifier.py:28-36 | what this group takes the group of the pre-extraction takes too, and it always stands for a number |
| Budget.ComputeCost | app/classifier/classifier.py:150-163 | no call costs less than 0.0001 |
| Budget.CostMeans | app/classifier/classifier.py:150-163 | the price of the model, else of the provider, per million tokens, and a ten-thousandth of a dollar at least and without a price |
| Budget.LlmSpendTracker.CheckLlmBudget | app/classifier/classifier.py:173-223 | a call is allowed if and only if there is no user, no limit, or the day's spend is below the smaller budget |
| Budget.LlmSpendTracker.RecordLlmSpend | app/classifier/classifier.py:226-267 | the row of the key grows or is added, and keys stay unique |
| Budget.RowsAreSums | app/classifier/classifier.py:226-267 | over every run each tracker row is the sum of what was recorded under its key, and exists if and only if something was |
| Budget.AllowedIff | app/classifier/classifier.py:173-223 | over every run a user may call exactly if what was recorded for them on the day is below their cents, by setting or tier, and below ten dollars |
| Budget.SpendBelowBudgetPlusOneCall | app/classifier/classifier.py:478-511 | the day's spend stays below the budget plus the cost of the last call that charged |
| Budget.RecordsBounded | app/classifier/classifier.py:478-594 | classifying one by one, at most B/0.0001 rounded up, plus one records |
| Budget.RecordsBoundAttained | app/classifier/classifier.py:478-594 | every budget in cents has runs that reach this bound |
| Budget.BudgetsAreIndependent | app/classifier/classifier.py:205-221 | spend and decisions of a user and day do not depend on other users or days |
| Review.ReviewQueue.ReviewEmail | app/api/emails.py:115-224 | error and whole state after a review, with and without the constraint of one transaction per email |
| Review.ReviewQueue.UndoReviewEmail | app/api/emails.py:228-328 | error and whole state after an undo, which raises where an email has several transactions |
| Review.ReviewQueue.BulkReviewEmails | app/api/emails.py:337-458 | the bulk review equals the single reviews in turn, or changes nothing when one of them raises |
| Review.ReviewMeans | app/api/emails.py:115-224 | error, mail, transactions and the one rule that counts, before and after a review |
| Review.UndoMeans | app/api/emails.py:228-328 | the same for an undo |
| Review.SinglesTogether | app/api/emails.py:337-458 | a bulk review gives each listed mail of the user its status, a transaction for each time it is listed, and each rule a count for each listed mail of its domain |
| Review.BulkRaisesIff | app/api/emails.py:356-455 | when that is: one of the user's emails cannot be classified or, under the old schema, has a transaction or is listed before |
| Review.UndoRestoresIff | app/api/emails.py:256-325 | undo after review restores the state if and only if the rule was absent or had a positive count and a kept email had no transaction; it raises if and only if it had one |
| Review.SecondKeepBlocksUndo | alembic/versions/0059_partition_transactions_emails_and_classification_log.py:163-204 | without the constraint, keep, discard, undo, keep and undo end with a request that raises |
| Review.HitCountsAreExact | app/api/emails.py:131-325 | over every proper run hit counts equal the mails that stand kept or discarded, and the rule exists if and only if there are any |
| Review.DecideKeepsCountsIff | app/api/emails.py:131-221 | a review keeps all hit counts right if and only if the email has no domain or stands under no review |
| Review.TakeBackKeepsCountsIff | app/api/emails.py:256-325 | an undo of an email that is not pending keeps them right if and only if it stands under a review, has no domain, or there is no rule |
| Months.AddMonths | app/api/stats.py:52-57 | the first of the month n months later, and exactly when it leaves the calendar |
| Months.AddMonthsComposes | app/api/stats.py:52-57 | steps add up for all integers while the first stays in the calendar |
| Months.PeriodHasItsMonths | app/api/stats.py:60-70 | a period covers its 1, 3, 6 or 12 months up to today |
| Months.InWindowMeans | app/api/stats.py:441-450 | the window holds the dates from its first to its last day, both included |
| Months.EmptyMonths | app/api/stats.py:429-436 | the loop enumerates each month of the window once, and raises exactly at December 9999 |
| Months.MonthlyData | app/api/stats.py:431-498 | the series has one bucket per month in order, with the month's sums |
| Months.SeriesAddsUp | app/api/stats.py:431-498 | the months' sums add up to the ungrouped sum of the window |
| Months.CollapseKeepsTotals | app/api/stats.py:188-199 | the collapsed breakdown keeps leading rows, amounts and counts; it is the same up to the limit, and ends with "Other" beyond it |

## Left out

- Gmail, OAuth, HTTP, sessions and encryption: network and library code.
- The texts themselves: keyword lists, regular expressions, merchant aliases, category names, prompts and JSON repair are opaque functions.
- Normalisation of body dates, reference ids and amounts from email texts (`app/dedup/service.py:24-205`): they enter as data.
- Database errors on the duplicate, budget and listing paths, and crashes between statements: each request is one atomic step, except where interleaving is the subject (Groq limiter, keyset queries).
- Binary floating point, the rounding of displayed figures, and the four-decimal rounding of stored costs: reals or integer cents.
- The page without a cursor, ordered by creation time, and rows without a date: they are outside the cursor order.
- The base64 layer of cursors: a bijection on the texts modelled here.
- The bulk path with explicit ids: one filtered update.
- The waiting loop and the timeout of acquire: runs may contain any number of refused attempts at any times, which covers them. Token estimates are natural numbers.
- Requests classified concurrently for one user: the budget theorems are about calls one after another. A batch's correction retries are not recorded by the code and are not in the model.
- Cache, audit log, recomputation queue and classification log: written, never read by the modelled code.
- RedisLimiter.GrantIffWindowHasRoom: for windows that are fixed per key and not negative, and with the clock of the callers, as the limiter's table of limits has them.
- RedisLimiter.AtMostTheLimit: counts grants made on the evidence of the log, since the limiter lets everything through while Redis is unavailable.
- SyncRuns.RunsStaySound: arrivals have pairwise distinct arrival times, because ties and missing times make the choice of the primary cyclic (PickPrimaryCycles).
- BatchDetection.BatchRecordsExactlyWanted: entries always carry an email row, as the callers' inner joins ensure.
- Learning.CountersAreExact: users are not null, and each domain pair has at most one rule per user and one global rule, as the unique constraint and the code's lookups assume.
- Budget.RecordsBounded: about calls that charge at most twice, as the single call does; SpendBelowBudgetPlusOneCall also covers batches.
- Months.MonthlyData: takes the answers of the two grouped queries as given, in any order.
- GroqLimiter.PeakExact: for waits up to a day less a minute, beyond which the day could be cleared twice in one minute; ThricePerMinute holds for all waits.
- GroqLimiter.WaitingDecides: for waits up to a day less a minute, as DailyLimitSuffices; WaitShows covers longer ones where the daily limit is above rpm.
- BulkActions.TransactionTable.BulkSelectAll: the action "detect duplicates" leaves the rows alone here; its pairs are those of the batch detector on each batch, and the sums of its statistics are not modelled.
- Classification.BatchClassifyEmails: the warnings of results and the inter-batch pause are not modelled; merchants, dates and payment modes are, through opaque readers of text.
- Classification.AnyAmountAutomatic: where in a text the patterns match is a parameter; what they can capture there, in ASCII digits, and how it is read is in AmountText.
- CursorText.DecodedTexts: what the library makes of ISO forms other than YYYY-MM-DD is a parameter.
- Review.HitCountsAreExact: about proper runs, which review only pending mails and undo only reviewed ones, from a state without rules made by users; DecideKeepsCountsIff and TakeBackKeepsCountsIff say what every other request does.
- Review.ReviewQueue.ReviewEmail: a transaction that the table refuses for another reason, such as a missing date since migration 0059, counts as one that cannot be classified.
