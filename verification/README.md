# Verified model of chic's algorithms

This project models the self-contained algorithms and small state machines of the
`chic` bot (a Telegram assistant over the MoySklad API) and proves what they
guarantee: the snapshot backfill job and its coverage report, the rolling dialog
summary, the rate limiter, the TTL cache under concurrent calls, update
deduplication, the profit bridge, ABC and ABC/XYZ analysis, period comparison,
receivables aging, demand statistics, pagination, retries, reorder planning and
message splitting.

`dafny verify dfyconfig.toml` checks everything. Files:

| file | what it models |
|---|---|
| Basics, Sums, Sorting, Money | options and finite sets, exact sums, Python's stable sort and slices, rounding |
| History, Snapshot, Backfill | the snapshot store, one capture cut short anywhere, every run of captures |
| Dialog | the message log and summaries, the folding of history, every run of a dialog |
| Overlap | calls of one user that overlap, and what their stored summaries cover |
| RateLimiter | the token bucket and its sliding-window specification |
| Cache | the store, one cached call, all interleavings of concurrent calls |
| Dedupe | the ring and set, and the last-n specification |
| Bridge, BridgeLaws | the price/volume/mix/cost decomposition and its laws |
| Abc, AbcXyz | Pareto classes, their optimality, and the join with demand classes |
| Periods, Aging | period comparison and receivables aging, with conservation |
| DemandStats | the zero-fill query against a plain dense series |
| Paging, Retry | the pagination and retry loops |
| Purchase, Chunks | the (s, S) reorder policy and the message splitter |

How things are represented. Days are integers; tables are maps or sequences, each
transaction one step. `Decimal` and float amounts are exact reals; rounding to cents
and the truncation of cache times to whole seconds are kept as they are. Clocks, API
answers, summary texts and failures are parameters: a capture gets a budget of steps
that still succeed, a cache call says where the database raised, a retry loop gets
the outcome of each attempt. Product and ledger keys are compared only for equality.
Objects whose methods change state are classes, each method proved against a
function of the old state; statements about whole runs are lemmas about those
functions.

## Where the code and its documentation differ

- `chic/aggregate/models.py:387` says a driver's three effects sum exactly to its
  delta. After rounding they may miss it by a cent (`BridgeLaws.DriverEffectsWithinCent`,
  `BridgeLaws.DriverMissesByACent`); `BridgeLaws.DriverEffectsExactIff` says exactly when
  they do not.
- `chic/history/store.py:93-95` says a day without a mark is a true outage gap. A capture cut
  between the save and the mark leaves a day with rows that is never fetched again and
  never marked (`Backfill.OrphanExample`, `Backfill.OrphansStay`); `Backfill.MarksTrueIff`
  says, from the inputs of the captures, exactly which runs leave none. The coverage
  report walks from the first mark to the last, so it lists such a day only between two
  marks: exactly when an earlier day was marked by the time it was orphaned and a later one
  was or comes to be (`Backfill.OrphanReportedIff`). Otherwise the report is silent about it,
  as it stays for ever in the example (`Backfill.ExampleNeverReported`).
- The resume point is the latest day with rows (`chic/history/store.py:131-134`), so
  zero-sales days after it are fetched again. While they still have no sales the later
  capture leaves what one starting at the new days leaves, but each refetched day takes its
  fetch, its empty save and its mark first, so a capture that is cut can lose new days to
  them (`Backfill.LaterCaptureStartsFresh`). The same day again writes nothing
  (`Backfill.CaptureIdempotent`).
- `chic/agent/agent.py:437` scans the oldest 400 unsummarised turns, so the history handed
  to the model beside the current message ends with the newest stored turn exactly while at
  most 400 are waiting (`RollingSummary.NewestIsSeen`). A session whose oldest 400 fit the
  budget is stuck until the user starts a new one (`RollingSummary.StuckForever`,
  `RollingSummary.StuckExample`), and a fold can bring a session there
  (`RollingSummary.FoldCanStick`). Exactly the doomed sessions never get a later turn into
  the history again: those in which some 400 waiting turns in a row, counted from a multiple
  of 394, fit the budget (`RollingSummary.DoomedExactly`, `RollingSummary.DoomedIff`). In any
  other, answered summaries fold the backlog until a new turn is returned.
- Nothing serialises the calls of one user (`chic/agent/agent.py:329-449`). Whatever the
  interleaving, each stored summary covers exactly the turns up to its mark
  (`OverlappingCalls.CoversExactly`), but a mark can fall, exactly when a call is answered
  whose batch ends before the stored mark (`OverlappingCalls.MarkFallsIff`,
  `OverlappingCalls.MarkCanFall`), and a call that reads its turns after a new session began
  can fold that session's turns into the old one's summary
  (`OverlappingCalls.BatchCanLeave`, `OverlappingCalls.BatchStaysIff`).
- `chic/moysklad/client.py:168-172` tests for a short page before the limit, so a
  result may exceed the limit; `Paging.ExceedsLimitIff` says exactly when
  (`Paging.LimitExceeded`: 4 of 5 rows in pages of 3 are 5).

## Model

| member | source | states |
|---|---|---|
| Backfill.MarkedAreWindows | chic/history/snapshot.py:79-130 | after any run of completed captures on nondecreasing days, whatever days had no sales, the marked days are exactly the union of the windows `[D-N, D-1]`, and every day with rows is marked |
| Backfill.CoverageAfterRun | chic/history/store.py:187-212 | after such a run the marks span `[D1-N, Dm-1]`, the missing days number the sum of max(0, gap - N) over consecutive captures, and captured plus missing is the span |
| Backfill.MarkedCount | chic/history/snapshot.py:115-130 | the number of marked days after such a run, in closed form |
| Backfill.CaptureExactly | chic/history/snapshot.py:79-112 | from the inputs of a capture cut short anywhere: where it ends, which prefix of the missing days it fetches, saves and marks, and that it adds exactly the fed rows of the saved days and changes no other row |
| Backfill.NeverRefetched | chic/history/snapshot.py:92-94 | over any mix of completed and interrupted captures, every day a capture fetches is later than every day that had rows at any earlier point |
| Backfill.FetchedInOrder | chic/history/snapshot.py:115-130 | within one capture the days are fetched in calendar order, none twice |
| Backfill.OrphansBounded | chic/history/snapshot.py:105-112 | the days with rows but no mark number at most the captures cut between a save and its mark |
| Backfill.OrphansStay | chic/history/snapshot.py:92-112 | a day with rows and no mark never gets a mark in any continuation |
| Backfill.RowsFrozen | chic/history/snapshot.py:92-112 | over any mix of captures, a saved sales row keeps its content: no later capture changes or removes it |
| Backfill.OrphanReportedIff | chic/history/store.py:194-206 | the coverage report lists such a day exactly when an earlier day was marked by the time it was orphaned, and a later one was by then or a later capture has the steps to mark one |
| HistoryStore.ReportedIff | chic/history/store.py:194-206 | the report lists an unmarked day exactly when there are marks before and after it |
| Backfill.MarksTrueIff | chic/history/snapshot.py:105-112 | every day with rows is marked exactly when no capture of the run is given the steps to save a day with sales that has no mark, but not the one to mark it |
| Backfill.OrphanExample | chic/history/snapshot.py:107-110 | one capture cut after its save leaves such a day, and no mark |
| Backfill.ExampleNeverReported | chic/history/store.py:194-206 | however that run goes on, the day stays unmarked and the report never lists it |
| Backfill.CaptureIdempotent | chic/history/snapshot.py:79-84 | a second capture of the same day on the same data, cut anywhere, leaves the store as it is and writes no row |
| Backfill.LaterCaptureStartsFresh | chic/history/snapshot.py:92-94 | after a completed capture, one on a later day on the same data leaves what a capture that starts at the new days leaves, less the steps spent on refetched days |
| Backfill.StockTakenOnce | chic/history/snapshot.py:89-103 | a stored row of today leaves the stock table as it is; with none, a capture with two steps adds exactly the last row of each product the API answered under today's date and changes no other row, and one with fewer changes nothing |
| Backfill.StockIsThere | chic/history/snapshot.py:89-103 | a completed capture on a day without stock rows stores every product the API answered, with exactly its row |
| Backfill.WrittenCounts | chic/history/snapshot.py:85-103 | the number a completed capture returns is the number of rows the two tables grew by |
| Snapshot.Service.CaptureToday | chic/history/snapshot.py:79-103 | the job does what `Capture` says for every budget of steps: stock once a day, then the missing sales days |
| Snapshot.Service.CaptureDays | chic/history/snapshot.py:93-112 | the loop saves and marks day by day, and where it is cut decides what remains |
| Snapshot.Dedupe | chic/history/snapshot.py:59-64 | one row per product, the last one given, so that saving the result equals upserting all rows in order |
| Snapshot.ListSalesDays | chic/history/snapshot.py:115-130 | the days after the last row day, no earlier than the window, through yesterday |
| HistoryStore.Store.Upsert | chic/history/store.py:103-122 | the chunked upsert equals one upsert of all rows |
| HistoryStore.Store.SaveSalesRows | chic/history/store.py:89-91 | saving adds or overwrites the day's rows and touches nothing else |
| HistoryStore.Store.SaveStockRows | chic/history/store.py:85-87 | the same for stock |
| HistoryStore.Store.MarkSalesCaptured | chic/history/store.py:93-101 | the day's mark is set to the row count, nothing else changes |
| HistoryStore.Store.LatestSalesDate | chic/history/store.py:131-134 | the greatest day that has rows, or none |
| HistoryStore.Store.SalesCoverage | chic/history/store.py:187-212 | first and last are the extreme marks, gap days are the unmarked days between them, and the list shown is a prefix of those |
| HistoryStore.MissingExactly | chic/history/store.py:201-206 | the walk collects exactly the unmarked days of the span, in order |
| HistoryStore.MissingCount | chic/history/store.py:207-213 | captured and missing days partition the span |
| HistoryStore.ChunksCover | chic/history/store.py:215-216 | the chunks concatenate to the items and none is empty or over the size |
| HistoryStore.RowDaysAfterSave | chic/history/store.py:106-107 | a save adds its day to the days with rows exactly when it has rows |
| HistoryStore.SaveIdempotent | chic/history/store.py:3-6 | saving the same day's rows again changes nothing |
| RollingSummary.RunFoldsExactly | chic/agent/agent.py:430-449 | over every run of messages, resets and calls, what a session's calls folded is exactly its user and assistant messages up to the watermark, in order and each once |
| RollingSummary.WatermarkNeverFalls | chic/store/db.py:156-167 | no continuation of a run lowers a session's watermark |
| RollingSummary.CallFoldsPrefix | chic/agent/agent.py:434-449 | one call folds exactly the turns between the old and the new watermark |
| RollingSummary.TailIsBounded | chic/agent/agent.py:439-449 | the returned tail is the scan or its last six turns, the user's own above the watermark; its text together is within the budget or it is at most 6 turns |
| RollingSummary.FoldsIff | chic/agent/agent.py:437-449 | the scan is the first 400 waiting turns; a call folds exactly when the text of the scan is longer than the budget, the scan has more than six turns and the model answered, and then it folds all but the last six and stores the first 1200 characters of the answer |
| RollingSummary.SummariesOff | chic/agent/agent.py:431-432 | with a negative budget nothing is stored or folded and the last turns of the session up to the depth are returned |
| RollingSummary.ShowsAllIff | chic/agent/agent.py:434-449 | the answered summary is the stored one and the tail is all it leaves out exactly when at most 400 turns were waiting and no needed summary failed; a failed one changes nothing |
| RollingSummary.SessionSeenWhole | chic/agent/agent.py:430-449 | over every run, what a session's calls folded followed by the tail is the whole session in order, each turn once, exactly then |
| RollingSummary.NewestIsSeen | chic/agent/agent.py:437 | the newest stored turn is in the returned tail exactly when at most 400 turns are waiting |
| RollingSummary.StuckForever | chic/agent/agent.py:437-441 | once the oldest 400 waiting turns fit the budget, every later call of the session returns the same summary and turns |
| RollingSummary.FullScanFoldsUnlessStuck | chic/agent/agent.py:439-449 | with a full scan and an answering summary model a call folds nothing in a stuck session and 394 turns in any other |
| RollingSummary.DoomedExactly | chic/agent/agent.py:437-449 | over every run: a session is doomed if and only if, however the run goes on without a new session, no call returns a turn that was said later |
| RollingSummary.DoomedIff | chic/agent/agent.py:437-443 | doomed means that 400 waiting turns in a row, from a multiple of 394 on, fit the budget |
| RollingSummary.FoldCanStick | chic/agent/agent.py:439-449 | a successful fold leaves a session stuck when the 400 turns after its batch fit the budget |
| RollingSummary.StuckExample | chic/agent/agent.py:437-441 | 401 one-letter messages bring a session into that state whenever the budget is at least 400 |
| RollingSummary.Agent.CondenseHistory | chic/agent/agent.py:430-449 | the method changes the store and answers as `Condense` says, with or without a summary budget |
| OverlappingCalls.CoversExactly | chic/agent/agent.py:434-449 | under every interleaving of calls, each summary ever stored was made from exactly the user's turns between its session's boundary and its mark, in order and each once |
| OverlappingCalls.ShowsUnbroken | chic/agent/agent.py:434-449 | under every interleaving, the turns a call's summary covers followed by its tail are one unbroken run of the user's turns from the session boundary, but for the batch of a failed summary |
| OverlappingCalls.MissesIffFailed | chic/agent/agent.py:446-447 | a call leaves turns out between summary and tail exactly when its summary failed |
| OverlappingCalls.MarkFallsIff | chic/store/db.py:156-167 | a mark falls exactly when the answer to a call arrives whose batch ends before the stored mark, and then another call has stored since it read |
| OverlappingCalls.MarkCanFall | chic/agent/agent.py:434-449 | a call with seven turns overtaken by one with eight takes the mark from 2 back to 1 |
| OverlappingCalls.StaysInSession | chic/agent/agent.py:335-337 | if every call reads its turns while its session is current, no summary covers a turn of another session |
| OverlappingCalls.BatchStaysIff | chic/store/db.py:128-144 | a batch read later stays in its session exactly when the session still has as many turns above the mark as the batch takes |
| OverlappingCalls.BatchCanLeave | chic/agent/agent.py:335-337 | a call begun before a new session can fold one of its turns into the old session's summary |
| OverlappingCalls.AloneIsCondense | chic/agent/agent.py:430-449 | a call nothing overlaps stores, shows and returns what the sequential call does |
| DialogStore.PrefixIsTurns | chic/store/db.py:128-144 | a limited read of the turns above an id is every turn up to the id of its last row |
| DialogStore.TurnsExactly | chic/store/db.py:128-144 | the turns read are exactly the rows of the user above the id with role user or assistant |
| DialogStore.RecentAreLast | chic/store/db.py:108-126 | the recent messages are the last n turns of the current session |
| DialogStore.EpochIsLastReset | chic/store/db.py:101-106 | the session epoch is 0 or a boundary of the user, and no further boundary of the user follows it |
| DialogStore.Store.AppendMessage | chic/store/db.py:89-95 | one row with the next id is appended |
| DialogStore.Store.StartSession | chic/store/db.py:97-99 | a boundary row is appended |
| DialogStore.Store.PutSessionSummary | chic/store/db.py:156-167 | the session's summary and mark are replaced, no other session's |
| RateLimiter.AdmittedIffWindowsAllow | chic/agent/agent.py:127-138 | in a run with nondecreasing times a call is admitted exactly when no window ending with it would hold more than P plus P an hour |
| RateLimiter.WindowBound | chic/agent/agent.py:127-138 | in any window of T seconds at most P + P·T/3600 calls of a user are admitted |
| RateLimiter.DeniedCallIsInvisible | chic/agent/agent.py:134-136 | removing a denied call changes no later decision |
| RateLimiter.UsersIndependent | chic/agent/agent.py:132-137 | a user's decisions depend on that user's calls alone |
| RateLimiter.SpacedCallAdmitted | chic/agent/agent.py:131-138 | with P >= 1, a call 3600/P seconds after the user's previous one is admitted |
| RateLimiter.TokensInRange | chic/agent/agent.py:133-137 | a bucket always holds between 0 and P tokens |
| RateLimiter.Extremes | chic/agent/agent.py:127-138 | a negative rate admits every call and keeps no bucket; a rate of 0 admits none |
| RateLimiter.Limiter.Allow | chic/agent/agent.py:127-138 | the decision and the new buckets, including the unlimited case |
| CachingClient.RunInv | chic/cache/client.py:145-164 | under every interleaving of cached calls, failures and purges, each hit is the last value whose row was written for its key, even if its commit raised, less than its ttl before |
| CachingClient.LookupIsRecall | chic/cache/store.py:50-63 | a lookup hits exactly when the last store of the key is alive, and yields its value |
| CachingClient.StoredAnswers | chic/cache/store.py:65-78 | the last store of a key answers every lookup until ttl - 1 seconds after it |
| CachingClient.PurgesInvisible | chic/cache/store.py:80-89 | a run has the same hits, stores and pending calls with its purges removed |
| CachingClient.StepsAreCached | chic/cache/client.py:145-164 | the two steps of a call: it hits with the live value or asks the source exactly when there is none, and its answer stores one row unless the database raised before writing it |
| CachingClient.Client.Cached | chic/cache/client.py:145-164 | one call left to itself: when the source is asked, what is answered, what is stored |
| CacheStore.Store.Get | chic/cache/store.py:50-63 | a live entry's value, nothing when it expired or the database raised |
| CacheStore.Store.Set | chic/cache/store.py:65-78 | the entry is replaced with its truncated expiry, unless ttl is not positive or the database raised before writing the row |
| CacheStore.Store.Purge | chic/cache/store.py:80-89 | exactly the expired entries go, unless the database raised before deleting them; their number is returned, 0 after any failure |
| CacheStore.PurgeKeepsAnswers | chic/cache/store.py:80-89 | a purge keeps, unchanged, exactly the entries a lookup at that time would answer |
| CacheStore.ExpiredInTime | chic/cache/store.py:54 | truncating both times never serves a value past its ttl |
| CacheStore.AliveToLastSecond | chic/cache/store.py:68 | truncation costs an entry at most its last second |
| Dedupe.Ring.FirstSeen | chic/telegram/dedupe.py:14-23 | False exactly when the id is among the last n accepted ones (for 0: ever accepted), and the set stays equal to the ring's ids |
| Dedupe.AcceptedApart | chic/telegram/dedupe.py:14-23 | over any run equal ids are accepted only more than n acceptances apart, and 0 at most once |
| Dedupe.NewIdAccepted | chic/telegram/dedupe.py:14-23 | an id never delivered before is always accepted |
| Dedupe.RedeliveryRefused | chic/telegram/dedupe.py:15-16 | an immediate redelivery is always refused |
| Bridge.ProfitBridge | chic/aggregate/bridge.py:56-162 | the loops compute the unrounded effects as sums over the products, whatever order the sets are iterated in, and publish them |
| Bridge.CommonEffects | chic/aggregate/bridge.py:65-102 | the accumulators of the common-product loop are sums over all common products |
| Bridge.AbsentEffects | chic/aggregate/bridge.py:109-118 | the one-period effects are the gross profits of those products |
| Bridge.IndexById | chic/aggregate/bridge.py:25-49 | sold lines folded by id |
| BridgeLaws.Reconciles | chic/aggregate/bridge.py:65-129 | the six unrounded effects sum to the gross-profit delta whatever value each division returns |
| BridgeLaws.PublishedReconciles | chic/aggregate/bridge.py:133-141 | published effects plus residual equal the published delta; the residual is at most 3 cents, at most 2 for whole-cent lines |
| BridgeLaws.PublishedNear | chic/aggregate/bridge.py:133-155 | every published figure is within half a cent of its own unrounded one |
| BridgeLaws.TwoCentResidual | chic/aggregate/bridge.py:141 | two cents do occur on whole-cent lines |
| BridgeLaws.ThreeCentResidual | chic/aggregate/bridge.py:141 | three cents do occur when lines need not be whole cents |
| BridgeLaws.QtyClosedForm | chic/aggregate/bridge.py:71-80 | with exact division the quantity effect is (qb - qa) times the baseline unit margin |
| BridgeLaws.MixClosedForm | chic/aggregate/bridge.py:104-107 | with exact division mix is Qb times the sum of share shifts at baseline unit margins |
| BridgeLaws.NoMixAtSameShares | chic/aggregate/bridge.py:104-107 | mix is 0 when every common product keeps its share |
| BridgeLaws.NoMixAtEqualMargins | chic/aggregate/bridge.py:104-107 | mix is 0 when baseline unit margins are equal |
| BridgeLaws.NoMixForOneProduct | chic/aggregate/bridge.py:104-107 | mix is 0 with one common product |
| BridgeLaws.DriversReconcile | chic/aggregate/bridge.py:89-145 | for whole-cent lines the untruncated driver deltas sum exactly to the published delta |
| BridgeLaws.EffectsAccountedFor | chic/aggregate/bridge.py:76-102 | the untruncated drivers' price, cost and quantity effects each sum to the bridge's price, cost, and volume plus mix, within half a cent per common product, whatever each division returns |
| BridgeLaws.DriverShows | chic/aggregate/bridge.py:69-102 | with exact division each driver's effects are within half a cent of the price change at the new quantity, the cost change at the new quantity and the quantity change at the old margin; an unchanged unit price or cost shows a 0 effect |
| BridgeLaws.DriverSides | chic/aggregate/bridge.py:89-118 | for whole-cent lines each driver shows its product's profit and quantity in either period, 0 where it is absent, with the matching kind and a delta that is their difference |
| BridgeLaws.DriverProfitsSum | chic/aggregate/bridge.py:95-121 | for whole-cent lines the untruncated drivers' profits sum to the published profit of either period |
| BridgeLaws.LargestDriversShown | chic/aggregate/bridge.py:143-145 | no driver left out has a larger absolute delta than one shown |
| BridgeLaws.DriverEffectsWithinCent | chic/aggregate/bridge.py:95-100 | a common driver's three rounded effects miss its delta by a cent at most |
| BridgeLaws.DriverEffectsExactIff | chic/aggregate/bridge.py:95-100 | the three rounded effects of a whole-cent driver sum to its delta exactly when the rounding shifts of price and cost cancel to under half a cent, or to half a cent that the quantity effect is rounded to meet |
| BridgeLaws.DriverMissesByACent | chic/aggregate/bridge.py:95-100 | whole-cent lines whose driver effects miss the delta by a cent |
| BridgeLaws.FoldKeepsProfit | chic/aggregate/bridge.py:120-121 | a period's profit is revenue minus cost of every raw line with positive quantity |
| BridgeLaws.FoldOrderFree | chic/aggregate/bridge.py:25-49 | duplicate lines fold to the same amounts in any order |
| BridgeLaws.BridgeOrderFree | chic/aggregate/bridge.py:56-141 | all unrounded figures are the same for any order of either period's lines |
| BridgeLaws.FoldIsSold | chic/aggregate/bridge.py:33-34 | everything kept has a positive quantity, so no division is by zero |
| BridgeLaws.FoldedLine | chic/aggregate/bridge.py:31-48 | a folded line carries its id, the name of its last sold line and the sums of returns and profits |
| Abc.Classify | chic/aggregate/analytics.py:53-82 | each ranked item gets the class and the rounded shares of its cumulative value |
| Abc.CumulativeSharesRise | chic/aggregate/analytics.py:65-70 | the shown cumulative shares never fall along the ranking and never pass 100 |
| Abc.ClassesInOrder | chic/aggregate/analytics.py:71-81 | classes read A…AB…BC…C along the ranking for every pair of cuts |
| Abc.LastPositiveIsC | chic/aggregate/analytics.py:53-56 | the last positive item is C, whatever cuts were asked for |
| Abc.ParetoMinimal | chic/aggregate/analytics.py:58-81 | a selection of at most k items can exceed the A share of the positive total exactly when k exceeds the number of A items |
| Abc.ParetoMinimalAB | chic/aggregate/analytics.py:58-81 | a selection of at most k items can exceed the larger of the two cuts exactly when k exceeds the number of items in A or B |
| Abc.SharesShow | chic/aggregate/analytics.py:61-70 | the shown share and cumulative share of a positive item are within half a hundredth of its own and of all up to it over the positive total; others show 0 and 100 |
| Abc.TopIsBest | chic/aggregate/analytics.py:59 | no selection of k items is worth more than the top k |
| AbcXyz.BuildMatrix | chic/history/analytics.py:110-174 | joined and dropped items partition the ranking and each occurring cell has its count and rounded revenue |
| AbcXyz.CellsConserve | chic/history/analytics.py:152-154 | the nine cells hold every joined item and all of its revenue |
| AbcXyz.JoinConserves | chic/history/analytics.py:136-140 | joined revenue plus that of items without a demand class is the whole |
| AbcXyz.CellRevenueExact | chic/history/analytics.py:156-163 | whole-cent values make the rounded cell revenue exact |
| AbcXyz.EntriesGraded | chic/history/analytics.py:46-62 | however the cuts are given, each joined entry is graded on a product with enough days: X up to the first cut, Y up to the second, Z above; and more variable demand never gets a better class |
| AbcXyz.EntryShows | chic/history/analytics.py:136-152 | each joined entry pairs the value and ABC class of a ranked item with the demand class of the same product |
| AbcXyz.DemandKeys | chic/history/analytics.py:125-128 | a product has a demand class exactly when some record of it has enough days |
| AbcXyz.KeyedAt | chic/history/analytics.py:131 | the ranking is made of each row's key and value, in the given order |
| AbcXyz.NamesAreLast | chic/history/analytics.py:130 | the name shown for a product is that of its last row |
| AbcXyz.LargestShown | chic/history/analytics.py:165-166 | no entry left out has a larger revenue than one shown |
| Periods.ComparePeriods | chic/aggregate/analytics.py:262-293 | totals, and gainers and decliners as sorted, filtered and cut |
| Periods.GainersAndDeclinersReconcile | chic/aggregate/analytics.py:270-293 | for whole-cent inputs with room for every key, gainer plus decliner deltas are the total delta of the raw pairs, which is the published one |
| Periods.ListsInOrder | chic/aggregate/analytics.py:284-292 | before the cut the gainers are exactly the changes that rose, the largest rise first, and the decliners exactly those that fell, the deepest fall first |
| Periods.ChangesShowTotals | chic/aggregate/analytics.py:270-289 | for whole-cent inputs the shown values of the changes sum to the total of either period |
| Periods.ChangeShows | chic/aggregate/analytics.py:252-259 | a change of whole-cent amounts shows its key, both amounts and their difference |
| Periods.PctShows | chic/aggregate/money.py:72-77 | the shown percentage is within half a hundredth of the relative change; from 0 it is 0 or 100 |
| Periods.FoldKeepsTotal | chic/aggregate/analytics.py:245-249 | folding keeps the total of the raw pairs |
| Periods.Fold | chic/aggregate/analytics.py:245-249 | the dict in insertion order |
| Aging.ReceivablesAging | chic/aggregate/analytics.py:313-361 | every bucket holds the count and the exact sum of its items despite the rounding at each step, totals are exact, items are sorted and cut |
| Aging.OverdueInWholeDays | chic/aggregate/analytics.py:326-329 | overdue days are the whole days past the due moment, and 0 before the first is over |
| Aging.BucketsConserve | chic/aggregate/analytics.py:301-335 | bucket amounts sum to the outstanding total, counts to the items, the four overdue buckets to the overdue total |
| Aging.BucketEdges | chic/aggregate/analytics.py:301-310 | the buckets are up to 0, 1-30, 31-60, 61-90 and over 90 whole days |
| Aging.OutstandingIsUnpaid | chic/aggregate/analytics.py:319-323 | for whole minor units the outstanding amounts sum to the unpaid parts of the documents that have one |
| Aging.ItemShows | chic/aggregate/analytics.py:319-345 | each item is a document with something owed, its overdue days and its counterparty's name |
| Aging.MostOverdueShown | chic/aggregate/analytics.py:347-352 | no item left out is more days overdue than one shown |
| DemandStats.QueryIsDense | chic/history/olap.py:23-53 | on rows unique by date and product, and however the engine visits the spine, spine, left join and grouping yield for each product exactly the quantities of its dense series |
| DemandStats.StatsAreDense | chic/history/olap.py:45-53 | so each record is the count, mean and spread of the dense series |
| DemandStats.DaysAreDates | chic/history/olap.py:33-37 | days counts the input dates from the product's first sale on |
| DemandStats.MeanTimesDays | chic/history/olap.py:48-49 | mean times days is the product's total quantity |
| DemandStats.RowOrderFree | chic/history/olap.py:81-85 | neither the order of the rows nor that of the joins changes any record |
| DemandStats.SpreadBound | chic/history/olap.py:50 | for nonnegative quantities the variance is at most (days - 1)·mean² |
| DemandStats.CvBound | chic/history/olap.py:65-67 | for nonnegative quantities the squared variation coefficient is at most days - 1, and it is the spread over the mean |
| DemandStats.VarianceClosedForm | chic/history/olap.py:49-50 | variance times days is the sum of squares less days times the squared mean |
| DemandStats.DemandStats | chic/history/olap.py:70-99 | one record per product of the input, none else |
| Paging.Paginate | chic/moysklad/client.py:150-176 | the whole list, or its first L rows once enough full pages came in, in at most floor(size/page)+1 requests |
| Paging.ExceedsLimitIff | chic/moysklad/client.py:168-172 | the limit is exceeded exactly when the list ends inside the page that would reach it, and by less than a page |
| Paging.WholeOrLimit | chic/moysklad/client.py:168-175 | the result is the whole list, as it is without a limit or within it, or exactly its first L rows |
| Paging.LimitExceeded | chic/moysklad/client.py:168-172 | a limit of 4 on 5 rows in pages of 3 returns all 5 |
| Retry.DoGet | chic/moysklad/client.py:104-148 | at most R+1 attempts; a body exactly when the first non-retryable outcome among them is 2xx; which attempt's error is raised; the exact time slept |
| Retry.TotalSleepBound | chic/moysklad/client.py:145-148 | the time slept is at most base·(2^(R+1)-1) plus the positive waits servers asked for |
| Retry.SleepExact | chic/moysklad/client.py:145-148 | n failures whose servers ask for no wait cost base·(2^n - 1) exactly |
| Retry.WaitIs | chic/moysklad/client.py:117-137 | one failure waits what its server asked for, or base·2^attempt, and a response to the last attempt waits nothing |
| Retry.ServerWait | chic/moysklad/client.py:400-418 | the wait a 429 asks for: milliseconds of the own header, else seconds of the standard one, else none |
| Retry.BodyIff | chic/moysklad/client.py:108-139 | a body comes back exactly when some attempt within the limit is 2xx and all before it were retryable |
| Purchase.PurchasePlan | chic/aggregate/purchase.py:44-98 | an item per stock line by the policy, sorted, with totals over all of them |
| Purchase.OrdersLeastLift | chic/aggregate/purchase.py:64-69 | ordered exactly when demand is positive and stock is below the reorder point; the amount is the least integer reaching the order-up-to level |
| Purchase.LevelsMean | chic/aggregate/purchase.py:61-66 | for positive demand the reorder point exceeds the mean demand over the lead time by a margin whose square is z² times the lead-time variance, and the order-up-to level exceeds it by the mean demand over the review period |
| Purchase.NoDemandNoOrder | chic/aggregate/purchase.py:60-69 | a product without demand has no safety stock or reorder point and is not ordered |
| Purchase.ReplanOrdersNothing | chic/aggregate/purchase.py:64-69 | after the ordered amount arrives, planning orders nothing |
| Purchase.OrderFallsWithStock | chic/aggregate/purchase.py:67-69 | the amount never rises as stock rises |
| Purchase.NeedOrderCounts | chic/aggregate/purchase.py:88-94 | need_order counts exactly the lines below their reorder point |
| Purchase.PlanValue | chic/aggregate/purchase.py:84-93 | the published order value is the sum of the lines' rounded order values, with no rounding of its own |
| Purchase.OrderWorth | chic/aggregate/purchase.py:84 | an order of n units is worth n times the cost price, to the cent |
| Purchase.ItemShows | chic/aggregate/purchase.py:58-86 | each item shows its line's amounts rounded to hundredths, and days of cover as stock over mean demand or -1 |
| Purchase.SafetyShows | chic/aggregate/purchase.py:61-81 | the shown safety stock is the reorder point less the mean demand over the lead time |
| Purchase.LargestOrdersShown | chic/aggregate/purchase.py:88-95 | no item left out has a larger order than one shown |
| Chunks.Split | chic/telegram/render.py:17-33 | the loop terminates with the pieces of the specification |
| Chunks.ChunksGlue | chic/telegram/render.py:17-33 | the text is the chunks in order with a run of newlines after each, empty before the last chunk only if some 1750 characters have no newline |
| Chunks.ChunksBounded | chic/telegram/render.py:14-33 | no chunk exceeds 3500 characters, there are at most len/1751 + 1, and a text within 3500 is one chunk unchanged |
| Chunks.RestIsOnePiece | chic/telegram/render.py:30-32 | what is left after the loop is at most one piece, none exactly when it is all newlines, and does not end in one |
| Money.RoundHalfAway | chic/aggregate/money.py:55-57 | the nearest integer, ties away from zero |
| Money.RoundHalfAwayUnique | chic/aggregate/money.py:55-57 | those two facts determine it |
| Money.MoneyRoundNear | chic/aggregate/money.py:40-42 | a whole number of cents at most half a cent away |
| Money.MinorToMajorWhole | chic/aggregate/money.py:45-52 | minor units become whole cents with a single rounding |
| Money.WholeCentsClosed | chic/aggregate/money.py:40-42 | whole-cent amounts add, subtract and negate without rounding |
| Sorting.Sorted | chic/aggregate/analytics.py:59 | the sort is a descending permutation |
| Sorting.SortStable | chic/aggregate/analytics.py:59 | ties keep their given order |

## Left out

- HTTP, Telegram, LLM calls, tracing, configuration, scheduling and migrations: I/O around unseen libraries.
- Binary floats and the 28-digit `Decimal` context: amounts are exact reals; the ABC cut comparison is on exact ratios.
- SQL engines: a statement is its relational meaning, a transaction one step.
- `NormalDist.inv_cdf` and square roots: the quantile and the root of the lead time are given; spread is a variance.
- SHA-256 cache keys and (de)serialisation: keys are injective, blobs parse unless a lookup is declared unreadable.
- A restart of the process, which drops cache rows whose commit raised and calls that were under way.
- Rounding of the ABC/XYZ entries for display: they keep the exact value and variation coefficient, sorted by cents.
- Names and codes chosen by `arg_max` and `any_value` in the demand query, and driver ties left to set iteration order.
- Preferences, prompts, the number guardrail, keyboards, document types and the field-copying reports.
- Counterparty segmentation and dead stock: filters and labels without a cross-function law.
- Bridge.ProfitBridge: does not fix the order of drivers of equal absolute delta, as set iteration does not either.
- Abc.ParetoMinimal: counts class A by its ranking; the tally of `abc_report` is not modelled separately.
