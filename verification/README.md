# Syrogo, verified

Syrogo is an AI gateway: clients send chat requests in several protocols, a router turns each request
into a plan of upstream providers, a dispatcher works through the plan, and around that the gateway
limits, accounts, logs and persists. This project models the state machines and algorithms at its core in
Dafny and proves what they are for, over every input, every run and every interleaving.

`dafny verify dfyconfig.toml` checks everything. Each module models one component and starts with the
conventions it uses.

| component | modules |
|---|---|
| quota tracker | `Schedules`, `QuotaModel`, `QuotaTracker`, `QuotaPruning`, `QuotaRetry`, `QuotaBound`, `QuotaReconfigure`, `QuotaPersistence`, `QuotaRuns`, `QuotaAdmission`, `QuotaCooldown` |
| router | `Wildcards`, `Routing`, `PlanOrders`, `Planning` |
| log paging, recent-log buffer | `LogPages`, `LogPaging`, `RecentLog`, `RecentCoverage` |
| session store and its snapshot | `Sessions`, `SessionStore`, `SessionLaws`, `SessionSnapshots` |
| dispatcher | `Dispatching` |
| accounting | `UsageStats`, `UsageLaws`, `UsageStore` |
| stream translation | `EventStreams`, `StreamFidelity`, `ResponseStreams` |
| line diff, money text | `LineDiff`, `Money` |

How it is built:

- Code that updates state is a class or a method with loops (`Tracker`, `Router`, `RecentBuffer`,
  `SessionMap`, `SnapshotStore`, `MemoryStore`, `FillTable`, `Dispatch`, ...). Each such method is proved to
  perform a function of the old state, and the theorems about whole runs are proved about those functions.
- The theorems relate the state to something independent of the code: the complete log of events, the list
  of all lines written, the list of all usage records, glob semantics, a grid of tiles, a client that reads
  frames, the longest common subsequence.
- Time is an integer number of nanoseconds and the clock is an argument. Provider answers, admission
  decisions of other components, file system results and the order in which Go visits a map are arbitrary.

Five results say where the code does not do what one might expect, with the exact condition:

- An empty model pattern lets every model through, although as a glob it would match only the empty name;
  all other patterns mean their glob (`PatternMatches`). The validation of the configuration refuses empty
  patterns (internal/config/config.go:704).
- A fixed quota window names a right retry time if and only if its schedule has tiles, that is, unless it is an
  interval schedule without a positive duration (`FixedRetryNeedsTiles`). The validation refuses those too
  (internal/config/config.go:986).
- Paging through a log file returns every line if and only if each line, newline included, is shorter than
  the byte budget; only the first line of the file may use all of it (`PagingIsCompleteIffLinesFit`, with a
  file that loses its line in `ALineIsLost`).
- A covered answer of the recent-log buffer lacks a line if and only if a line completed in the span is larger
  than the whole buffer (`OnlyOversizedLinesAreMissing`, with such a line in `AnOversizedLineIsMissing`).
- Tool arguments arrive at a client as sent if and only if every snapshot of them extends the previous one
  (`FramesShowTheStream`, with a rewritten snapshot in `ARewrittenSnapshotMisleads`).

## Model

| member | source | states |
|---|---|---|
| `Schedules.BoundsAreTheTile` | internal/quota/tracker.go:875-921 | For interval schedules (any anchor, also after now) and daily or weekly ones, the computed bounds are the tile of an equal grid that holds now: start <= now < end, end - start the tile length, start on the grid |
| `Schedules.StartsAreMonotone` | internal/quota/tracker.go:875-894 | Window starts never move backwards as time passes, whatever the schedule |
| `Schedules.TilesPartitionTime` | internal/quota/tracker.go:875-921 | Two instants have equal bounds exactly if one lies in the other's tile, and the end of a tile is the start of the next: no gap, no overlap |
| `Schedules.CivilStartsAreAligned` | internal/quota/tracker.go:904-921 | A daily or weekly window starts at the configured local clock reading, a weekly one on the configured weekday |
| `Schedules.FloorDurationIsFloor` | internal/quota/tracker.go:896-902 | The correction of Go's truncating division gives the floor for negative distances too |
| `Schedules.AKnownWeek` | internal/quota/tracker.go:904-921 | The weekdays are the real ones: a known Wednesday lies in the week of its Monday |
| `Schedules.KeysTellSchedulesApart` | internal/quota/tracker.go:864-873 | Two schedules have one key exactly if they agree in everything configured, or are both unset |
| `QuotaTracker.DiscardBefore` | internal/quota/tracker.go:765-785 | The shifting loop drops exactly the longest prefix of events before the cutoff |
| `QuotaTracker.UsageOf` | internal/quota/tracker.go:787-795 | The accumulator loop returns the sum of all four quantities |
| `QuotaTracker.WindowRetryAfter` | internal/quota/tracker.go:797-831 | A window reports a limit exactly if a configured maximum is reached, with the release time of the first prefix of events that covers the excess of every quantity, or the end of a fixed window |
| `QuotaTracker.RolloverSubject` | internal/quota/tracker.go:741-763 | Every window is pruned by the reset_all boundary and by its own, and an elapsed cooldown is cleared |
| `QuotaTracker.BlockingWindows` | internal/quota/tracker.go:710-739 | Exactly the limited windows are reported, in order, each with its type, limit, usage, unit and retry time, and with the latest of the retry times |
| `QuotaTracker.ReportBlocked` | internal/quota/tracker.go:724-735 | The report of one limited window measures it in the quantity of its type |
| `QuotaTracker.Tracker.BeforeAttempt` | internal/quota/tracker.go:384-407 | The tracker decides as the decision function on the one subject does, stores the rolled-over subject, leaves every other subject alone and admits unknown names |
| `QuotaTracker.Tracker.RecordClientUsage` | internal/quota/tracker.go:429-462 | One subject gains one event in every window whose type accepts it; nothing else changes |
| `QuotaTracker.Tracker.RecordOutboundSuccess` | internal/quota/tracker.go:464-485 | One subject gains one event in every window and leaves cooldown and probing |
| `QuotaTracker.Tracker.RecordOutboundExceeded` | internal/quota/tracker.go:487-503 | A provider's 429 starts cooldown and schedules the probe for one subject; its usage stays |
| `QuotaTracker.Tracker.ExportState` | internal/quota/tracker.go:508-530 | Every subject is rolled over and saved, as version 3 |
| `QuotaTracker.Tracker.ImportState` | internal/quota/tracker.go:532-578 | Known subjects are loaded by the compatibility rules of the file version and of the kind of tracker, unknown saved ones ignored, others left alone |
| `QuotaTracker.Tracker.ReconfigureTo` | internal/quota/tracker.go:580-643 | The tracker ends with exactly the configured subjects, each inheriting what it may; the flag is false exactly if every recorded event survives in the window of the same name |
| `QuotaPruning.PruningRefinesTheLog` | internal/quota/tracker.go:741-785 | After any chronological run of checks, records, successes and 429s, what a window holds is the complete log of all events ever recorded in it, filtered to the current span and the last reset_all boundary, and it is sorted |
| `QuotaPruning.RollIsOneDrop` | internal/quota/tracker.go:741-763 | On a sorted list the two successive prefix drops act as one at the later cutoff |
| `QuotaPruning.SubjectsAreIndependent` | internal/quota/tracker.go:384-503 | In a run of the whole tracker each subject runs on its own calls only |
| `QuotaRetry.WindowRetryIsExact` | internal/quota/tracker.go:797-831 | Without new usage and without reset_all, a limited window limits at a later time t exactly if t is before the announced retry time |
| `QuotaRetry.RollingRetryIsExact` | internal/quota/tracker.go:809-831 | The same for rolling windows: neither a nanosecond early nor late |
| `QuotaRetry.FixedRetryIsExact` | internal/quota/tracker.go:805-808 | The same for fixed windows |
| `QuotaRetry.ReleaseAlwaysFound` | internal/quota/tracker.go:816-830 | For non-negative usage the release loop always returns, so the fallthrough is dead code |
| `QuotaRetry.FixedRetryNeedsTiles` | internal/quota/tracker.go:805-808 | A fixed window's retry time is exact if and only if its schedule has tiles |
| `QuotaRetry.AdmitsIffNoneLimits` | internal/quota/tracker.go:384-407 | Outside a cooldown a subject admits exactly if none of its windows, pruned to that time, is at a limit |
| `QuotaRetry.SubjectRetryIsExact` | internal/quota/tracker.go:710-739 | After a denial for usage, the subject admits from the announced time on; without reset_all it admits at no earlier time |
| `QuotaAdmission.DeniesIffUsageReachesALimit` | internal/quota/tracker.go:384-462 | After any run, outside a cooldown, a subject is denied exactly if the requests, tokens or cost of everything reported on it, summed over the current span of one of its windows, reach that window's maximum; stated without the sums and tests of the code |
| `QuotaAdmission.DeniesIffALogReachesALimit` | internal/quota/tracker.go:384-407 | The same for every configuration, with the log of each window in place of all that was reported |
| `QuotaAdmission.TrackerDeniesIffUsageReachesALimit` | internal/quota/tracker.go:384-407 | The same for a subject in any run of the whole tracker |
| `QuotaAdmission.KeptIsEnough` | internal/quota/tracker.go:439-462 | What a typed window does not record would add nothing to what it measures |
| `QuotaAdmission.ReportsShowTheUsage` | internal/quota/tracker.go:710-739 | A limited window is reported with the maximum and the spent amount of the quantity of its type |
| `QuotaCooldown.OutagesAreProbedOnce` | internal/quota/tracker.go:384-407 | For every run of an outbound: after a 429 and until a success or the end of the cooldown, attempts are denied until the probe interval is over, the next one is admitted as a probe, all others are denied with the probe time; otherwise the windows alone decide |
| `QuotaCooldown.ExactlyOneProbe` | internal/quota/tracker.go:487-503 | In the terms of one outage: between the probe time and the end of the cooldown an attempt is admitted exactly if no earlier one was made in that time |
| `QuotaCooldown.LastTimesAreRemembered` | internal/quota/tracker.go:429-503 | The times shown are those of the last recorded use and of the last 429 |
| `QuotaBound.SlidingWindowBound` | internal/quota/tracker.go:384-462 | From any start within the bound (events imported or carried over, requests already in flight), in every interleaving of admissions and recordings with at most k requests admitted and not yet recorded, no span of the window's length, anywhere on the time line, ever holds more than max_requests - 1 + k requests of the complete log |
| `QuotaBound.SpansStayBounded` | internal/quota/tracker.go:384-462 | From any start at all: no span ever holds more than max_requests - 1 + k requests or, if that is more, than what the window held and was in flight at the start, as after a reconfiguration that lowers the limit |
| `QuotaBound.SequentialUseNeverExceeds` | internal/gateway/handler.go:660-670 | If each admission is recorded before the next, no span ever holds more than max_requests, from every start that keeps to it |
| `QuotaBound.HeldPlusInFlight` | internal/quota/tracker.go:384-462 | The invariant behind it: requests held by a window plus requests in flight stay within the bound, so that a stretch after an import or a reconfiguration starts within it |
| `QuotaReconfigure.MergeWindows` | internal/quota/tracker.go:645-669 | The new windows carry exactly the events of compatible old windows of the same name, and the flag tells exactly if an event was lost |
| `QuotaReconfigure.Replace` | internal/quota/tracker.go:621-635 | As before for one subject, where a changed reset_all clears an outbound and an outbound keeps cooldown and probe state |
| `QuotaReconfigure.Reconfigure` | internal/quota/tracker.go:593-643 | With unique names the flag is false exactly if every stored event survives in the same-named window, subjects dropped from the configuration included |
| `QuotaReconfigure.OutagesOutliveReconfiguration` | internal/quota/tracker.go:621-643 | A reconfigured outbound keeps its cooldown, probe and last times under the new durations; a client has none |
| `QuotaPersistence.ExportImportRoundTrip` | internal/quota/tracker.go:508-578 | Export, then import into a blank subject of the same configuration at the same time, restores everything but the in-flight probe flag |
| `QuotaPersistence.RestoredDecidesAlike` | internal/quota/tracker.go:508-578 | Hence the restored subject decides alike at every later time, if no probe was in flight |
| `QuotaPersistence.SortIsStable` | internal/quota/tracker.go:573 | Loaded events are a permutation of the saved ones, sorted by time, and events of one instant keep their order |
| `QuotaPersistence.LoadsLikeReconfiguring` | internal/quota/tracker.go:848-862 | Saved events are taken over exactly by the windows a reconfiguration would let inherit them |
| `QuotaPersistence.LoadsOlderFiles` | internal/quota/tracker.go:848-862 | What files of version 2, version 1 and the oldest event format may be loaded into |
| `QuotaPersistence.ClientsTakeRequestsOnly` | internal/quota/tracker.go:848-862 | A client takes nothing but request windows from files that do not tell types apart |
| `QuotaRuns.RunsStayProper` | internal/quota/tracker.go:429-503 | What the retry and persistence results ask of a window (in order, none from the future, no negative usage, real clock readings) holds after every chronological run of non-negative usage |
| `QuotaRuns.FreshIsReady` | internal/quota/tracker.go:348-372 | A subject as its configuration builds it is a start for such runs, if its fixed windows have tiles |
| `QuotaRuns.RunsRetryExactly` | internal/quota/tracker.go:710-831 | After any run, a denial for usage announces a time from which on the subject is admitted; without reset_all it is the first such time |
| `QuotaRuns.RunsSurviveRestarts` | internal/quota/tracker.go:508-578 | After any run, export and import into a subject built from the same configuration restores everything but the in-flight probe flag |
| `Wildcards.Compile` | internal/router/router.go:151-171 | A pattern compiles to its non-empty literals and its two edge stars |
| `Wildcards.CompileKeepsMeaning` | internal/router/router.go:151-171 | The compiled form denotes the glob of the pattern; the empty pattern denotes everything |
| `Wildcards.LeftmostSuffices` | internal/router/router.go:185-211 | Taking the leftmost occurrence of a literal loses no match |
| `Wildcards.Matches` | internal/router/router.go:185-211 | The greedy loop answers exactly what the compiled form denotes |
| `Wildcards.PatternMatches` | internal/router/router.go:151-211 | A name passes exactly if the string can be cut so that literals match in order and each star absorbs a substring, or the pattern is empty |
| `Routing.ExpandWeighted` | internal/router/router.go:295-304 | The expansion loop repeats the outbounds of each tag by the tag's weight |
| `Routing.CompileRule` | internal/router/router.go:213-258 | A compiled rule has its own name or that of its position, its model map, the resolved outbounds and, if weighted, the expansion |
| `Routing.DefaultNamesDiffer` | internal/router/router.go:216-219 | Rules named by their positions never share a counter |
| `Routing.ExpandCounts` | internal/router/router.go:295-304 | An outbound occurs in the expansion as often as the weights of its tags add up to |
| `Routing.ExpandCoversResolved` | internal/router/router.go:295-304 | With positive weights the expansion holds exactly the resolved outbounds |
| `Routing.DedupePreserveOrder` | internal/router/router.go:306-320 | The loop keeps the first occurrence of each value |
| `Routing.DedupeKeepsEachOnce` | internal/router/router.go:306-320 | The result has no duplicates, the same elements and the same first element |
| `Routing.Rotate` | internal/router/router.go:322-334 | Rotation keeps the multiset and starts at the indexed element |
| `Routing.Router.NextRoundRobinIndex` | internal/router/router.go:336-345 | Returns the counter of the key and advances only that counter, cyclically |
| `Routing.Router.OrderOutbounds` | internal/router/router.go:90-102 | A real plan uses and advances the rule's counter; a dry run orders from zero and changes nothing |
| `Routing.Router.MatchesModel` | internal/router/router.go:173-183 | A rule with a model match passes exactly the names that one of its patterns globs |
| `Routing.Router.MakePlan` | internal/router/router.go:77-134 | The plan is that of the first rule matching tag and model, or a refusal; at most that rule's counter moves |
| `Routing.WheelTurns` | internal/router/router.go:336-345 | Over any run, the first choices of a rule walk its weighted list cyclically from where its counter stood |
| `Routing.RoundRobinIsFair` | internal/router/router.go:90-102 | Over any consecutive real plans of a rule, as many as its weighted list is long, and interleaved with any other plans and dry runs, the first choices are a permutation of that list |
| `Routing.WeightsAreHonoured` | internal/router/router.go:295-345 | Hence each outbound is first exactly as often as its weights say |
| `Routing.PlansArePermutations` | internal/router/router.go:90-102 | Every plan offers exactly the rule's outbounds; a weighted plan offers each once |
| `Routing.DryRunsAreInvisible` | internal/router/router.go:73-102 | Leaving all dry runs out of a run changes no counter |
| `PlanOrders.PlansFollowTheStrategy` | internal/router/router.go:77-134 | The order of a plan told from the configuration: failover lists the outbounds of the first tag, then those of the next, as listed; round robin reads that list cyclically from the counter, or from the front in a dry run; a weighted plan holds what is on the wheel once each, in order of first sight from the counter |
| `PlanOrders.WheelByWeight` | internal/router/router.go:295-304 | The wheel lists the outbounds of each tag as many times in a row as the weight says, tag after tag |
| `PlanOrders.DedupeByFirstSight` | internal/router/router.go:306-320 | Whenever an outbound comes up, those before it in the deduplicated list have come up already |
| `Planning.CompileOutboundModels` | internal/router/router.go:270-282 | A model key of an outbound leads to the last listed model that goes by it as a name or an alias, and to none exactly if no model does; an outbound without models has no table |
| `Planning.BuildSteps` | internal/router/router.go:104-118 | One step per ordered outbound, with its provider if there is one and the routed model as that outbound knows it |
| `Planning.RoutedModels` | internal/router/router.go:246-268 | A target model wins; else the map entry of the model, else that for all models, else the model itself |
| `Planning.StepsAskForOfferedModels` | internal/router/router.go:284-293 | A step is unavailable exactly if its outbound lists models and none goes by the routed name; otherwise it asks for the last one that does |
| `Planning.PlansAreRouterMade` | internal/router/router.go:104-118 | The plans of a compiled rule are plans as the dispatcher expects them exactly if every outbound of the rule has a provider in place |
| `Planning.Serve` | internal/execution/dispatcher.go:62-129 | A request from the router through the dispatcher: only outbounds are called that have a provider, offer the model and pass quota and health; a planned request whose outbounds are in place leaves exactly one usage record, and the client is charged exactly if it is a success |
| `LogPages.SplitLines` | internal/gateway/admin_logs.go:579-611 | The splitter returns the whole lines of the byte range with their offsets, without the partial first one |
| `LogPages.Collect` | internal/gateway/admin_logs.go:340-351 | Going backwards, exactly the last matching lines up to the limit are collected, and the next end is where they start |
| `LogPages.ScanFile` | internal/gateway/admin_logs.go:329-361 | One scan combines both and moves on past a line larger than the budget |
| `LogPages.ReadPage` | internal/gateway/admin_logs.go:313-390 | On any list of files: a page keeps to its limit and makes progress (file index up, or end down), so following cursors ends; on one file it is one scan |
| `LogPaging.PagesPartitionTheFile` | internal/gateway/admin_logs.go:313-390 | If all lines fit the budget, the pages in reverse order concatenate to the matching lines of the file: each exactly once, in order |
| `LogPaging.PagingIsCompleteIffLinesFit` | internal/gateway/admin_logs.go:353-356 | For budgets of at least two bytes, paging is complete for the query that matches all lines if and only if every line fits |
| `LogPaging.ALineIsLost` | internal/gateway/admin_logs.go:353-356 | A line of three bytes under a budget of two is not returned |
| `LogPaging.FollowCursors` | internal/gateway/admin_logs.go:313-390 | A caller that follows the returned cursors until there is no more gets the pages of the theorem, hence each matching line exactly once if all lines fit |
| `RecentLog.RecentBuffer.EvictOld` | internal/logging/recent.go:110-119 | Evicts from the front while too old or too large, moving coverage past each evicted line |
| `RecentLog.RecentBuffer.AppendPartial` | internal/logging/recent.go:97-108 | Appending a chunk without newline equals appending its bytes one by one, oversized lines included |
| `RecentLog.RecentBuffer.TakeLine` | internal/logging/recent.go:57-95 | One turn of the write loop equals appending the bytes of the line one by one |
| `RecentLog.RecentBuffer.Write` | internal/logging/recent.go:57-95 | A write equals appending its bytes one by one and evicting |
| `RecentLog.RecentBuffer.Snapshot` | internal/logging/recent.go:129-157 | Returns the retained lines in the span, and claims coverage exactly by the rule on coverage start and retention |
| `RecentLog.ChunkAtOnce` | internal/logging/recent.go:97-108 | A chunk crosses the size limit exactly if one of its bytes does |
| `RecentLog.CoverageIsNeverOverstated` | internal/logging/recent.go:57-157 | After any sequence of writes and snapshots, an answer that claims coverage holds, in order, every complete line written in the span that is not larger than the buffer |
| `RecentLog.OnlyOversizedLinesAreMissing` | internal/logging/recent.go:57-157 | After any such run, an answer that claims coverage holds all lines written in the span if and only if none of them is larger than the buffer |
| `RecentCoverage.CoverageIsClaimedExactly` | internal/logging/recent.go:129-157 | Under a clock that does not go back, coverage is claimed exactly if the span starts within the life and the age bound of the buffer, everything written since fits the byte bound, and no line outgrew the buffer since |
| `RecentCoverage.KeptExactly` | internal/logging/recent.go:110-119 | A line that fits the buffer is kept exactly as long as it is not too old and what was written since, itself included, fits the byte bound |
| `RecentCoverage.CoveredIffNothingLost` | internal/logging/recent.go:97-157 | After any run, coverage starts at the start of the buffer or right after the last line it forgot or could not take |
| `RecentCoverage.AnswersAreTheSpan` | internal/logging/recent.go:147-156 | An answer holds the lines from since to until, both included, each as often as it is kept |
| `RecentLog.AnOversizedLineIsMissing` | internal/logging/recent.go:97-108 | A line that outgrows the buffer over two writes is missing from a covered answer |
| `RecentLog.BytesStayBounded` | internal/logging/recent.go:57-119 | After every call of every run of writes and snapshots, the byte count is the sum of the line sizes and stays within the limit |
| `RecentLog.ChunkingIsInvisible` | internal/logging/recent.go:57-95 | Writing p and then q at one instant leaves the same state as writing p + q |
| `LineDiff.FillRow` | internal/gateway/adminui/app.js:929 | The inner loop turns a correct row below into a correct row of LCS lengths and touches no other row |
| `LineDiff.FillTable` | internal/gateway/adminui/app.js:929 | The table holds the LCS length of every pair of suffixes |
| `LineDiff.Walk` | internal/gateway/adminui/app.js:929 | The walk spells both inputs and keeps as many lines as the table promises |
| `LineDiff.DiffLines` | internal/gateway/adminui/app.js:929 | Same and removed rows spell the old lines, same and added rows the new ones, the same rows number the LCS, and no script has fewer changes |
| `LineDiff.ScriptsKeepAtMost` | internal/gateway/adminui/app.js:929 | No script whatsoever keeps more lines than the LCS |
| `LineDiff.NoShorterScript` | internal/gateway/adminui/app.js:929 | A script that keeps LCS many lines has the fewest changes of all scripts |
| `Money.CostUsdMicro` | internal/config/config.go:1139-1183 | The padding loop and the checks around it compute the parse function, every rejection included |
| `Money.ParsesExactly` | internal/config/config.go:1139-1183 | A plain decimal of up to six places parses to exactly the micro-dollars it denotes if those are positive and fit 64 bits, and is rejected otherwise |
| `Money.FormatIsPlain` | internal/quota/tracker.go:996-1006 | The printed text is a plain decimal that denotes the printed amount |
| `Money.MoneyRoundTrips` | internal/quota/tracker.go:996-1006 | For every amount from 1 to 2^63 - 1, parsing the printed text gives the amount back |
| `Sessions.RunsAreSound` | internal/sessions/store.go:43-229 | Over every run, sessions stay under their own ID and every live heartbeat session has a lease that ends 45 seconds after its last contact |
| `Sessions.ImportIsSound` | internal/sessions/snapshot_store.go:192-231 | So they do after an import of any list |
| `Sessions.SessionsContinue` | internal/sessions/store.go:43-174 | While an ID stays present its owner stays the same, and once stopped it does not change |
| `Sessions.StoppedStaysUntilRemoved` | internal/sessions/store.go:197-229 | A stopped session stays as it is through every run until a sweep past its retention removes it |
| `Sessions.SweepStopsExactlyTheExpired` | internal/sessions/store.go:197-229 | After any run, a sweep keeps every live session and stops one exactly if it is a heartbeat session and 45 seconds have passed since the last registration or heartbeat the run accepted from it, or its recovery |
| `Sessions.LeaseCountsFromLastContact` | internal/sessions/store.go:43-174 | The contact a lease counts from is the last accepted registration or heartbeat of the run, read off the run itself |
| `SessionLaws.HookEventsSetTheStatus` | internal/sessions/state.go:5-34 | A live session has a status after a hook event exactly if the event leads to it; quiet events leave the status; a stopped session takes none |
| `SessionLaws.HookEventsAreSeen` | internal/sessions/store.go:105-129 | A hook event is remembered with its time and changes nothing else |
| `SessionLaws.SweepsSettleEachSession` | internal/sessions/store.go:197-229 | Session by session: removed after the retention, stopped when the lease has run out, made unknown when a tool or a compaction has lasted too long, or left |
| `SessionLaws.RestartsRecoverEachSession` | internal/sessions/snapshot_store.go:192-231 | Session by session: stopped ones are kept for an hour, heartbeat sessions come back with a lease of 45 seconds and wait for a sign of life, all others are stopped |
| `SessionLaws.RegistrationKeepsTheLife` | internal/sessions/store.go:43-93 | A live session that registers again keeps its status, start and last event, and gets a new lease |
| `SessionLaws.HeartbeatsRenewTheLease` | internal/sessions/store.go:151-174 | A heartbeat renews the lease for 45 seconds and ends a recovery |
| `SessionLaws.StopsRecordTheExit` | internal/sessions/store.go:131-149 | Stopping a live session records when and how it ended |
| `SessionLaws.RepliesTellTheOutcome` | internal/sessions/store.go:43-174 | An owner finds the session as it is afterwards, a stranger finds nothing or is refused, and so is a heartbeat without the capability |
| `SessionStore.SessionMap.SetSession` | internal/sessions/store.go:278-285 | The generation moves exactly if the session changes |
| `SessionStore.SessionMap.RegisterSession` | internal/sessions/store.go:43-93 | New state and reply of a registration: ownership conflict, stopped session, merge with the existing one |
| `SessionStore.SessionMap.HookEventOn` | internal/sessions/store.go:105-129 | New state and reply of a hook event, with the status the event calls for |
| `SessionStore.SessionMap.StopSession` | internal/sessions/store.go:131-149 | New state and reply of a stop |
| `SessionStore.SessionMap.Beat` | internal/sessions/store.go:151-174 | New state and reply of a heartbeat |
| `SessionStore.SessionMap.SweepAll` | internal/sessions/store.go:197-229 | The loop that deletes and rewrites entries settles every session independently of the order, and counts the expired, degraded and pruned ones |
| `SessionStore.SessionMap.SweepSession` | internal/sessions/store.go:203-226 | One session is removed, stopped, degraded or left, and the generation moves exactly if it changes |
| `Sessions.SweepCountsAddUp` | internal/sessions/store.go:197-229 | The generation grows by the sum of the three counts: every change is counted once |
| `SessionStore.SessionMap.LatestActive` | internal/sessions/store.go:235-253 | Returns a latest-seen session of the owner that is neither stopped nor pending recovery, or none exactly if there is none |
| `SessionStore.SessionMap.Export` | internal/sessions/snapshot_store.go:176-190 | The exported list holds exactly the sessions in memory |
| `SessionStore.SessionMap.ImportList` | internal/sessions/snapshot_store.go:192-231 | The import loop recovers each listed session and bumps the generation exactly if one needed it |
| `SessionSnapshots.SnapshotStore.Load` | internal/sessions/snapshot_store.go:81-104 | A load replaces memory and takes the saved generation as the persisted one; a file that cannot be read, decoded or is of another version changes nothing and is reported |
| `SessionSnapshots.SnapshotStore.Save` | internal/sessions/snapshot_store.go:106-133 | A save is the two halves of the protocol in a row, whether the write succeeds or fails before or after the file is replaced; one that is not skipped and succeeds leaves memory on disk |
| `SessionSnapshots.StartIsClean` | internal/sessions/snapshot_store.go:81-104 | The invariant of the protocol holds right after start-up, whether or not the import normalised entries |
| `SessionSnapshots.StepKeepsClean` | internal/sessions/snapshot_store.go:81-133 | Every store operation, part of a save (success or failure before or after replacing the file) and load outside a save keeps it |
| `SessionSnapshots.SkippedSavesLoseNothing` | internal/sessions/snapshot_store.go:106-133 | Over every such run, whenever a save would be skipped, the sessions on disk equal those in memory |
| `SessionSnapshots.EqualGenerationsEqualSessions` | internal/sessions/store.go:278-285 | Between loads, equal generations mean equal stores |
| `SessionSnapshots.LoadDuringSaveIsUnsound` | internal/sessions/snapshot_store.go:81-133 | A concrete run shows that loads must stay outside saves: otherwise a skipped save can lose a session |
| `EventStreams.EmitPart` | internal/eventstream/stream.go:22-45 | Text goes into one open text block; a part of another kind closes it and gets a block of its own |
| `EventStreams.EmitCall` | internal/eventstream/stream.go:46-61 | A tool call closes text, opens a block on first sight of its index and appends a snapshot to that block |
| `EventStreams.StopTools` | internal/eventstream/stream.go:69-72 | Every open tool block is closed once, in whatever order the map is visited |
| `EventStreams.EventStreamFromRuntime` | internal/eventstream/stream.go:5-82 | The loop computes the translation for some order of visiting the map of open tools |
| `EventStreams.FramesFromEventStream` | internal/gateway/anthropic_messages_codec.go:179-290 | The loop computes the encoding, with argument snapshots turned into suffixes |
| `StreamFidelity.StreamIsFaithful` | internal/eventstream/stream.go:5-82 | After any prefix of any stream, the client's blocks and open set match what the stream has said so far |
| `StreamFidelity.FramesShowTheStream` | internal/gateway/anthropic_messages_codec.go:179-290 | For every stream that ends, a strict client accepts the frames (one message_start, first; indexes in order; each block opened and closed once with its deltas in between) and reads the stream's blocks; their tool arguments are right too if and only if each snapshot extends the previous one |
| `ResponseStreams.StreamResponse` | internal/provider/stream.go:5-29 | The producer emits start, every part, every call under its position, and the end |
| `ResponseStreams.ResponsesSurviveStreaming` | internal/provider/stream.go:5-29 | Producer, translator and encoder composed: the client reads exactly the response's text, other parts and tool calls |
| `ResponseStreams.StreamToClient` | internal/provider/stream.go:5-29 | The three translations run one after the other: the client reads exactly the response |
| `ResponseStreams.ARewrittenSnapshotMisleads` | internal/gateway/anthropic_messages_codec.go:179-290 | A second snapshot that does not extend the first makes the client read other arguments than sent |
| `UsageStats.CellsAreFolds` | internal/accounting/memory.go:250-346 | For every record sequence, each cell of each table equals the fold of exactly the records that belong to it, and exists only if there is one |
| `UsageStats.GroupingsAddUp` | internal/accounting/memory.go:250-346 | Every grouping of a scope has the same column sums: the fold of the records in scope |
| `UsageLaws.CellsAreSums` | internal/accounting/memory.go:289-346 | Every column of every cell, and its cost, is the sum over exactly the records of the cell of what the column counts |
| `UsageLaws.FoldSeesTheLast` | internal/accounting/memory.go:338-345 | The last-seen mark of a cell is the latest one of its records |
| `UsageLaws.RecordsGoToTheirField` | internal/accounting/memory.go:250-287 | A record belongs to the cell of the field its grouping goes by, and to no other |
| `UsageLaws.RecordsGoToTheirBucket` | internal/accounting/memory.go:250-287 | A record belongs to the bucket of its day, of its week and of its month |
| `UsageStore.JoinIsUnambiguous` | internal/accounting/memory.go:427-429 | Joined keys determine bucket and group as long as the group has no colon, whatever the bucket holds |
| `UsageStore.BucketKeysAreUnambiguous` | internal/accounting/memory.go:427-429 | Hence tables of different buckets or groupings never share a key |
| `UsageStore.RangesAreAdditive` | internal/accounting/memory.go:113-206 | The table of two disjoint sets of days is the merge of their tables, last-seen included |
| `UsageStore.RecordTotals` | internal/accounting/memory.go:250-287 | One record updates all ten total tables to those of the longer log |
| `UsageStore.KeepRecent` | internal/accounting/memory.go:43-52 | The recent list stays the last 10000 records |
| `UsageStore.RecordWindow` | internal/accounting/memory.go:250-287 | One record updates the keyed tables of a window so that each bucket and grouping agrees with the longer log |
| `UsageStore.MemoryStore.Record` | internal/accounting/memory.go:43-52 | Recording keeps all total, day, week and month tables equal to those of the log, and the recent list equal to its last 10000 records |
| `UsageStore.MemoryStore.QueryDays` | internal/accounting/memory.go:113-139 | A date-range query returns the table of exactly the records of those days |
| `UsageStore.MemoryStore.QueryClientDays` | internal/accounting/memory.go:117-123 | The query of one client returns, for exactly the days on which it has records, the fold of those records |
| `UsageStore.MergeInto` | internal/accounting/memory.go:166-206 | The merge loop adds the cells of one day's table, by date under the day itself |
| `Dispatching.Dispatch` | internal/execution/dispatcher.go:62-129 | For every plan and every outcome: a provider is called exactly if its step is not turned away and every earlier step was passed over, once and in order, and quota and health are told of each call's own outcome; step n answers exactly if it succeeds after each earlier step was skipped or failed with one of the five recoverable kinds, written out; any other failure ends the call there; the error is the earliest of highest rank among the steps reached; one usage record is stored unless the plan is refused; client usage is recorded exactly for a success |
| `Dispatching.WorkThrough` | internal/execution/dispatcher.go:62-129 | The loop itself: where the call ends and what it reports |
| `Dispatching.OutcomeOf` | internal/execution/dispatcher.go:70-103 | A step reaches its provider, is malformed, or is skipped exactly by its admission conditions, with the error of the first reason to skip it |
| `Dispatching.PreferredGrows` | internal/execution/dispatcher.go:213-245 | Keeping the preferred of two errors step by step yields the earliest of highest priority |
| `Dispatching.PriorityIsTheRanking` | internal/execution/dispatcher.go:226-245 | The preferred error is the earliest that nothing outranks: refusals first, the more so with an HTTP answer, then final failures, then transient ones, then the rest |
| `Dispatching.RouterPlansEndOnce` | internal/provider/errors.go:196-220 | A plan of the router has exactly one end, is never refused, ends behind its last step only if that was skipped, and passes only recoverable provider failures |
| `Dispatching.WrapStream` | internal/execution/dispatcher.go:309-365 | The output is the prefix of the input received, without an event lost in sending; at most one record is stored, a success exactly if the input closed without failure and cancellation, with the last model and usage seen; quota and health are told of exactly the recorded outcome; the client is charged exactly for a success |

## Left out

- HTTP handlers, provider clients, OAuth, YAML and JSON decoding, gzip, file rotation, the user interface beyond the diff: foreign input and output.
- Quota: time zones have a constant offset (no daylight saving); clock, zone, duration and timestamp texts are taken as what they denote, and amounts of money in a report as micro-dollars.
- Integers are unbounded except in `Money`; counters, byte counts and the session generation do not wrap around.
- QuotaBound.SlidingWindowBound: stated for subjects without reset_all, because only clients are limited this way and clients have none; a stretch ends at a reconfiguration, where the next one starts.
- Routing.Router.MakePlan: returns the rule and the ordered outbounds; `Planning` adds target and model of each step, and the protocol names and the fields a plan merely echoes are left out.
- Router: rules in one router are taken to have unique names where fairness is stated, since counters are shared by name.
- LogPages.ReadPage: over several files only the limit and progress are stated, because a page carries its leftover budget into the next file and then skips or cuts an ordinary line that is longer than it.
- LogPages.SplitLines: keeps the raw text of a line; trimming of carriage returns, redaction and parsing happen line by line afterwards, and the time a line inherits from an earlier one is not modelled, so a line matches by its text alone.
- Log paging: the text and the validation of cursors are not modelled, and characters stand for bytes.
- LogPaging.PagingIsCompleteIffLinesFit: a budget of one byte is left out; there, a file of one character and a newline is paged in full although its line does not fit.
- Money.ParsesExactly: stated for digits with at most one dot; the parser is modelled with the signs it accepts inside a fraction, but nothing is claimed for them.
- Sessions: descriptive fields are one value, the texts a hook payload is searched for are booleans, and the lists for display are not modelled.
- Snapshots: the file is one cell that is replaced at once; loads are kept outside saves, as a lemma shows they must be.
- EventStreams.EventStreamFromRuntime: message ID, model, role, usage numbers and finish reason of events are left out, because they are copied and decide nothing.
- EventStreams.FramesFromEventStream: the same envelope fields of frames are left out.
- ResponseStreams.StreamResponse: the same envelope fields are left out; channels are sequences throughout.
- UsageStore.MemoryStore.Record: label fields and tool units of the items are left out; costs are exact reals and last-seen texts are ranks.
- UsageStore.MemoryStore.QueryDays: the day texts of a range are given, distinct, and the result is a map rather than a list sorted by value; recovery from the local file is not modelled.
- Dispatching.Dispatch: a usage record holds its step and outcome; latency, prices and the descriptive fields, the latency and event recorders and the inside of the health tracker are left out. The loop of the streaming call before its stream is wrapped repeats the same decisions.
- Dispatching.WrapStream: the same fields of its record and the latency recorder are left out.
- Objects the source shares by reference (subjects, sessions) are values in the maps of their owner; every update of one is an update of that map.
