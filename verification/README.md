# COSMAD: the poll state machine and the tables it keeps

COSMAD follows a chain for one validator. A worker polls unreliable RPC nodes, decides for every height
whether the validator signed, missed or was out of the active set, appends the result to a block table, keeps
a table of inactivity periods, and opens, repeats and closes alerts whose only lasting state is rows of an
alert table. This project models that worker, its tables, the query layer under it and the transport and
watcher beside it, and proves what holds over whole runs.

Everything from outside is an arbitrary input: the answers of the RPC and REST nodes, the clock, the success
of each database statement, the moment a timer ticks, an exception, a restart.

| file | content |
|---|---|
| `Domain.dfy` | blocks, commits, alerts, periods, configuration |
| `Tables.dfy` | the three tables; class `ChainDb` runs the worker's statements on them |
| `Attribution.dfy` | the commit loop, the tri-state `signed` label, the memoised active-set lookup |
| `Evaluator.dfy` | the five alert checks; class `AlertEvaluator` holds the down-timers |
| `Worker.dfy` | one poll as a state machine that can be suspended at every database statement, and the process around it |
| `ChainWorker.dfy` | the poll as imperative code (class `ChainWorker`), proved to leave what the state machine leaves |
| `Ingestion.dfy`, `CatchUp.dfy`, `MissWindow.dfy` | what runs keep true of the block table; how fast it catches up; what the window checks make of it |
| `Labels.dfy` | when a poll believes the active set fetched at startup, and what labels its blocks otherwise |
| `OpenAlerts.dfy`, `Incidents.dfy`, `DownTimers.dfy` | what runs keep true of the alert table, the notifications, the timers |
| `Inactivity.dfy` | the periods over runs, and what keeps a tombstoned alert open |
| `AlertRules.dfy`, `PollAlerts.dfy` | each alert, and each period, after a poll, and the agreement of the two tables, said from the poll's input and the tables alone |
| `Query.dfy`, `EndpointPool.dfy`, `RpcHealth.dfy` | retries, range fetch, pagination; round-robin and coalesced checks; health classification |
| `Framing.dfy`, `Engine.dfy`, `Watcher.dfy` | newline framing; request ids and read-only connections; snapshot differences as events |

## How it fits together

`Worker.Advance` resumes a suspended poll up to its next database statement, `Worker.Next` lets ticks,
resumptions, exceptions and restarts fall anywhere, and `Worker.Run` is a run. The theorems about runs are
stated on `Run(Booted(cfg, EMPTY), actions)`, that is, on every state reachable from empty tables. The
imperative form is tied to the same machine: `ChainWorkers.ChainWorker.DoPoll` leaves exactly
`Complete(cfg, state, input, Start)`, and `Worker.PollEnds` shows that a poll left alone in the machine
leaves the same. A poll's `PollInput` holds every answer the outside will give it. That is no restriction:
the input is arbitrary and a poll asks each question once.

`Advance` and the imperative code share the functions that make a poll's decisions (which entry of a commit
counts, which set is trusted, what the status is, where the windows end, what each check emits). What those
decisions come to is stated without them, from the poll's input, the configuration and the tables:
`Attribution.JudgeLabels` and `Ingestion.StoredLabels` for the labels, `Labels.NewRowLabels` for the trust in the
startup set, `CatchUp.StoresExactly` for the heights, `PollAlerts.PollNotices`, `PollAlerts.EndpointNotices` and
`PollAlerts.PollLeaves` for the alerts, `PollAlerts.PollPeriods` and `PollAlerts.TablesFollowApi` for the periods.

`Store.history` (the answer each block came from and the addresses its validator was looked for under, the heights skipped, the notifications sent, the last tip,
the endpoint rounds) is there for the statements only; no decision reads it.

## Assumptions, and what happens without them

- A node that answers for a height returns that height's commit (`Ingestion.Honest`): a block's height is read
  from the header (`src/dp/chain_worker.ts:179`), not from the request.
- Endpoints of a configuration differ in kind or normalised URL (part of `Domain.ConfigOk`).
  Otherwise one evaluation can open two alerts: `OpenAlerts.RepeatedEndpointOpensTwice`; exactly when it
  does is `OpenAlerts.EachEntryOpensIff`.
- The configurations of a run name at most 500 subjects between them, so that the open alerts fit the page a
  poll reads (`src/dp/chain_worker.ts:371`).
- A restart or exception between an alert's write and its notification loses the notification for good
  (`Incidents.LostNotification`), so the grammar of notifications is stated for runs without that
  (`Incidents.Clean`), and `Incidents.AlwaysInStepIff` shows that this is the exact condition. The table's
  invariants, the bound on repeats and their spacing do not need it.
- The miss threshold is a positive integer (part of `Domain.ConfigOk`); the configuration schema accepts any
  number (`src/config/alert_types.ts:6`).
- Tips never fall, for the order of the periods; `Inactivity.EndingKeepsOrderIff` and
  `Inactivity.StartingKeepsOrderIff` say exactly which tips keep the order. Two healthy nodes may be up to
  20 blocks apart, so this is a real assumption.
- No period is started in a poll whose ending of the previous one failed; the code does not look at that
  failure (`src/dp/chain_worker.ts:308-324`). `Inactivity.RecordingKeepsOneIff` says exactly when two periods end up ongoing.
- Appending and inserting a batch is all or nothing.

## Where the code differs from what it promises

- `getValset` takes the next key from the accumulated set, whose pagination stays the first page's
  (`src/query/index.ts:311`): with more than one page the walk ends only when a request fails
  (`Query.GetValset`, `Query.WalkServer`).
- The status comment says that tombstoned never closes on its own (`src/alert/index.ts:228`). A single failed signing-info fetch
  closes it and opens a jailed alert instead (`PollAlerts.FailedSigningInfoCloses`); the exact condition is
  `PollAlerts.TombstonedClosesIff`.
- The memo assumes at most one change of the validator's status inside a slice
  (`src/dp/chain_worker.ts:125-129`); `Attribution.LabelsTrueIff` gives the exact condition and
  `Attribution.TwoFlipsMislabel` a history that breaks it.
- With gaps allowed, a run of unfetchable heights as long as one poll's slice still stops ingestion for ever
  (`CatchUp.WallStopsIngestion`); exactly when a poll makes progress is `CatchUp.PollStoresIff`.
- Overlapping watcher polls can publish a newer block before an older one (`Watcher.OverlapReorders`,
  `Watcher.SharersCanReorder`); exactly when they do not is `Watcher.InOrderIff`.
- The engine's server accepts a second hello, so a reader can turn itself into a writer
  (`Engine.ReaderTurnsWriter`); exactly when a request is served is `Engine.ServedIff`.

## Model

| member | source | states |
|---|---|---|
| Tables.WithBlocks | src/pkgs/database/duckdb/queries/blocks.ts:97-130 | a batch adds exactly its heights and leaves the rows of all other heights alone |
| Tables.WithBlocksAt | src/pkgs/database/duckdb/queries/blocks.ts:97-130 | each block of an insertable batch is stored under its own height, wherever it stands in the batch |
| Tables.Latest | src/pkgs/database/duckdb/queries/blocks.ts:172-189 | the greatest stored height, absent exactly for an empty table |
| Tables.RowsAreRange | src/pkgs/database/duckdb/queries/blocks.ts:369-398 | a range read returns exactly the stored blocks of the range, each once, in ascending order |
| Tables.StatsCount | src/pkgs/database/duckdb/queries/blocks.ts:409-430 | the two counts are the numbers of heights in the range whose label is not -1, and whose label is 0 |
| Tables.UnclosedInOrder | src/pkgs/database/duckdb/queries/alerts.ts:76-107 | the read lists exactly the rows with no closing time, each once, in id order, which is the order of opening times under a clock that does not go back |
| Tables.PageIsFirst | src/pkgs/database/duckdb/queries/alerts.ts:76-107 | the page read holds at most 500 rows, and leaves out an unclosed one only for 500 with smaller ids |
| Tables.NewestOngoing | src/pkgs/database/duckdb/queries/inactivity.ts:42-61 | the open row with the greatest start, absent exactly when no row is open |
| Tables.ChainDb.AppendBlocks | src/pkgs/database/duckdb/queries/blocks.ts:41-89 | the 2048-row chunk loop hands over the whole batch, stored all or nothing and refused on a repeated height |
| Tables.ChainDb.InsertBlocks | src/pkgs/database/duckdb/queries/blocks.ts:97-130 | the batch is stored all or nothing, refused on a repeated height |
| Tables.ChainDb.InsertAlert | src/pkgs/database/duckdb/queries/alerts.ts:13-43 | one new row, refused when the id is taken |
| Tables.ChainDb.CloseAlert | src/pkgs/database/duckdb/queries/alerts.ts:109-125 | sets the closing time of that row only |
| Tables.ChainDb.TouchAlertNotified | src/pkgs/database/duckdb/queries/alerts.ts:134-151 | sets the last notification and repeat count of that row only |
| Tables.ChainDb.InsertInactivity | src/pkgs/database/duckdb/queries/inactivity.ts:12-39 | inserts or replaces by start height |
| Tables.ChainDb.EndInactivity | src/pkgs/database/duckdb/queries/inactivity.ts:86-109 | ends the row with that start, if there is one |
| Attribution.ResolveActiveFallback | src/dp/chain_worker.ts:131-158 | the memo and its update are those of the specification: reuse, fall back to the last status, memoise only an answer that equals it |
| Attribution.JudgeLabels | src/dp/chain_worker.ts:187-221 | over list positions: the first entry under the tracked address decides, signed for flag 2 or 3, precommitted for flag 2, with that entry's signature if signed; without one nothing is recorded, and only a Cosmos commit is in doubt, unless the set is trusted |
| Attribution.CommitToBlock | src/dp/chain_worker.ts:169-233 | the block carries the label of the validator's own entry, in terms of list positions; without one a trusted set means a miss, otherwise the lookup decides between 0 and -1 |
| Attribution.CollectBlocks | src/dp/chain_worker.ts:487-544 | the commit loop with its breaks and continues yields exactly the specified blocks and skipped heights |
| Attribution.MemoAgreesIff | src/dp/chain_worker.ts:131-158 | the memoised labels equal the unmemoised ones if and only if, once an answer is memoised, no later doubtful height would answer differently |
| Attribution.LookupsBounded | src/dp/chain_worker.ts:131-158 | the number of lookups is that of the doubtful heights before the first memoised answer, plus that one |
| Attribution.TrustedLabels | src/dp/chain_worker.ts:194-197 | with a trusted set every label is true if and only if the validator was active at each height where it has no entry |
| Attribution.LabelsTrueIff | src/dp/chain_worker.ts:187-221 | stored labels equal the validator's true history if and only if the shortcut taken is right: active throughout when trusting the set; otherwise each height asked about is told right and nothing changes after the last of them; lookups may fail or lie |
| Attribution.ToldRightIff | src/dp/chain_worker.ts:121-158 | with truthful lookups that condition is that the activity never changes again once it equals the current status |
| Attribution.TwoFlipsMislabel | src/dp/chain_worker.ts:121-130 | a history with two flips inside one slice that the memo labels wrongly |
| Evaluator.AlertEvaluator.CheckMisses | src/alert/index.ts:122-169 | the counting loop finds the trailing run of misses, and the events are those specified for it |
| Evaluator.AlertEvaluator.CheckStatus | src/alert/index.ts:234-273 | the push loop closes every status alert but the wanted one and opens the wanted one if it is not open |
| Evaluator.AlertEvaluator.Evaluate | src/alert/index.ts:56-72 | the events of the four checks in order, the miss check on the last `threshold` blocks only |
| Evaluator.AlertEvaluator.EvaluateEndpoints | src/alert/index.ts:284-335 | events and new timers are those specified from the old timers, the checks and the open alerts |
| Evaluator.AlertEvaluator.EvaluateEndpoint | src/alert/index.ts:299-325 | one endpoint: its timer starts, goes on or stops, and its alert opens or closes, as specified |
| Evaluator.CloseOrphans | src/alert/index.ts:326-329 | closes each open endpoint alert whose endpoint is not configured, once, in order of first occurrence |
| MissWindow.BreachIff | src/dp/chain_worker.ts:554-569 | on any table, a breach if and only if each of the last `threshold` heights is stored as a miss; a gap or a -1 prevents it |
| MissWindow.MissEventsIff | src/alert/index.ts:122-169 | on any table, exactly when the miss check opens, repeats and closes, in terms of the last `threshold` heights |
| MissWindow.PercentEventsIff | src/alert/index.ts:176-223 | exactly when the percentage check opens, repeats and closes, in terms of the heights of its window |
| MissWindow.StreakOnContiguous | src/alert/index.ts:129-141 | on a contiguous table the counted streak is the length of the maximal trailing run of misses, cut off at the threshold |
| MissWindow.WindowIsTail | src/dp/chain_worker.ts:556-569 | checking the small tail window equals checking the whole table |
| Worker.PollsNeverOverlap | src/dp/chain_worker.ts:640-663 | in every state of every run at most one poll is under way |
| Worker.PollEnds | src/dp/chain_worker.ts:642-663 | a poll left alone ends, frees the guard, and leaves what running it in one go leaves |
| Ingestion.CollectedSlice | src/dp/chain_worker.ts:487-544 | a slice yields ascending blocks made from their own heights' final commits and labelled by the validator's entries in them, and every height left out below the last one failed with gaps allowed |
| Ingestion.NoProvisionalBlock | src/dp/chain_worker.ts:508-517 | in every reachable state each stored block was made from a commit of its height that was not called provisional |
| Ingestion.StoredLabels | src/dp/chain_worker.ts:187-221 | in every reachable state each row carries the label of a configured validator's own entry in a final commit some poll of the run was given for its height |
| Ingestion.OneInterval | src/dp/chain_worker.ts:453-552 | with gaps never allowed, the stored heights of every reachable state are one interval |
| Ingestion.GapsWereFailures | src/dp/chain_worker.ts:490-543 | with gaps allowed, every height missing between two stored ones is one whose fetch or conversion failed |
| Ingestion.TableOnlyGrows | src/dp/chain_worker.ts:453-552 | between any two states of a run no row changes or goes, new rows lie above all old ones, the latest height never falls |
| Ingestion.BatchesAreNew | src/ingest/index.ts:17-25 | the primary key never has a reason to reject a batch in any reachable state |
| Ingestion.RunKeeps | src/dp/chain_worker.ts:453-552 | the ingestion invariant is kept by every run from any state that has it |
| Labels.PollLabels | src/dp/chain_worker.ts:458-469 | from the API's answer, the period table and the startup set: a height without an entry is a miss without any lookup if and only if the set holds the validator and it is not known to be out; otherwise its label is what the lookup says for the height asked about, and the lookups are exactly those heights |
| Labels.NewRowLabels | src/dp/chain_worker.ts:455-552 | the same for every row a poll adds to the table, whatever the poll could read, together with the label of the validator's own entry |
| CatchUp.FullSlice | src/dp/chain_worker.ts:475-544 | a slice of keepable heights yields each of them once, up to the one that halts it |
| CatchUp.SliceAdvancesIff | src/dp/chain_worker.ts:487-544 | a slice stores something if and only if some height of it is kept before the first that halts it |
| CatchUp.PollStoresIff | src/dp/chain_worker.ts:475-552 | a poll whose statements go through stores something if and only if some height of its slice is kept before the first that halts it |
| CatchUp.StoresExactly | src/dp/chain_worker.ts:450-552 | a height is stored by a poll if and only if it lies from where the poll starts up to the tip and below the limit, its commit is final, and no lower one of the slice is provisional or, without gaps, missing |
| CatchUp.PollStores | src/dp/chain_worker.ts:431-552 | whatever a poll cannot read or write, the block table ends up as before or with the whole batch added |
| CatchUp.SeedsBelowTip | src/dp/chain_worker.ts:450-453 | an empty table under a tip still being finalised is seeded with exactly the block below the tip |
| CatchUp.PollAdvances | src/dp/chain_worker.ts:475-477 | one poll stores the next `maxBlocksPerPoll` heights, or all below the tip |
| CatchUp.BacklogAfter | src/dp/chain_worker.ts:475-552 | with a fixed tip T and all below it fetchable, the latest height after k polls from d is min(T-1, d + k*M) |
| CatchUp.BacklogClearsIff | src/dp/chain_worker.ts:475-552 | the backlog is cleared if and only if at least ceil((T-1-d)/M) polls have run |
| CatchUp.WallStopsIngestion | src/dp/chain_worker.ts:475-500 | M unfetchable heights in a row freeze the block table over every run, even with gaps allowed |
| OpenAlerts.PageIsExact | src/dp/chain_worker.ts:371-376 | with one unclosed row per key and at most 500 keys, the page a poll reads holds exactly the unclosed rows |
| OpenAlerts.EvaluatedFits | src/alert/index.ts:64-71 | the events of one evaluation have distinct keys and ids, open only keys that are not open, and repeat or close only unclosed rows |
| OpenAlerts.JudgedFits | src/dp/chain_worker.ts:378-393 | the same for chain and endpoint events together |
| OpenAlerts.AppliedKeeps | src/dp/chain_worker.ts:395-411 | applying one event, or failing to, leaves one unclosed row per key and the remaining events still applicable |
| OpenAlerts.AtMostOneOpen | src/dp/chain_worker.ts:371-411 | in every reachable state, whatever statements fail, at most one alert per type and subject is unclosed |
| OpenAlerts.EachEntryOpensIff | src/alert/index.ts:299-320 | for any list of endpoints, each entry opens an alert of its own if and only if it is down past the grace period with none open, so two open for one key exactly when two entries of that key are due |
| OpenAlerts.RepeatedEndpointOpensTwice | src/alert/index.ts:299-320 | an endpoint listed twice opens two alerts in one evaluation |
| Incidents.AppliedMatches | src/dp/chain_worker.ts:395-411 | a write that succeeds moves its key's row as its notification moves the incident, and no other key's |
| Incidents.NotificationsFormIncidents | src/dp/chain_worker.ts:395-411 | with alert writes succeeding and no notification lost, the notifications of each key form (open repeat* close)* with repeats 1, 2, 3, ..., and match the table |
| Incidents.AgreementKeptIff | src/dp/chain_worker.ts:395-411 | an exception or restart keeps notifications and rows in agreement if and only if it does not fall between a write and its notification |
| Incidents.AlwaysInStepIff | src/dp/chain_worker.ts:395-411 | over whole runs, notifications and rows agree in every state if and only if no notification is lost |
| Incidents.LostNotification | src/dp/chain_worker.ts:395-411 | a run from empty tables in which a restart between write and notification leaves an open row nothing was ever sent about |
| Incidents.FewPercentRepeats | src/alert/index.ts:209-217 | a repeat is due only while fewer than 13 were counted, since the threshold is above 0.5 and no ratio above 100 |
| Incidents.PercentRepeatsBounded | src/alert/index.ts:209-217 | over every run no row counts more than 13 percentage repeats, and with alert writes succeeding no more than 13 are sent about one alert, restarts and exceptions anywhere |
| Incidents.MissRepeatsSpaced | src/alert/index.ts:156-164 | with alert writes succeeding and a clock that does not go back inside a poll, two consecutive-miss repeats of one incident are evaluated at least the repeat interval apart, restarts and exceptions anywhere |
| DownTimers.TimerIsStreakStart | src/alert/index.ts:299-308 | an endpoint has a timer t if and only if t is the time of the first down round of its current outage; unchecked rounds neither start nor break it, recovery or removal ends it |
| DownTimers.ReachableTimers | src/alert/index.ts:284-335 | in every reachable state of the worker the timers are the outages seen since the process started |
| DownTimers.OpensIff | src/alert/index.ts:309-320 | an open event fires if and only if the endpoint is seen down, none is open, and the outage has lasted the grace period |
| DownTimers.ClosesIff | src/alert/index.ts:321-330 | a close event fires if and only if one is open and the endpoint is seen up or no longer configured |
| Inactivity.PeriodsInOrder | src/dp/chain_worker.ts:297-326 | with tips that never fall, the periods of every reachable state are ordered and disjoint, only the last may be open, and replacing discards only a period of length zero |
| Inactivity.EndingKeepsOrderIff | src/dp/chain_worker.ts:306-311 | ending the open period keeps the order if and only if the tip is not below its start |
| Inactivity.StartingKeepsOrderIff | src/pkgs/database/duckdb/queries/inactivity.ts:12-39 | starting a period keeps the order if and only if no other period ends above the tip |
| Inactivity.RecordingReflects | src/dp/chain_worker.ts:297-326 | after a recording whose writes succeed, one period is open for the status's reason, or none if the validator is active |
| Inactivity.RecordingKeepsOneIff | src/dp/chain_worker.ts:304-325 | at most one period stays open if and only if no new one is started over an ending that failed |
| PollAlerts.TablesAgree | src/alert/index.ts:234-273 | after a poll with a known status and its writes done, a status alert is open if and only if a period is open whose (jailed, permanent) calls for that type |
| PollAlerts.ReachableTablesAgree | src/dp/chain_worker.ts:257-326 | the same from every reachable state |
| PollAlerts.StatusAlertsLeft | src/alert/index.ts:234-273 | what a poll whose alert writes succeed leaves open among the three status alerts: the one the API's answers call for, or what was open when there is none or the check is off |
| Inactivity.NotReturningIff | src/dp/chain_worker.ts:242-290 | a Cosmos status is unknown or calls for tombstoned if and only if the validator endpoint is down, or says jailed and the signing info says for good, by its flag or by a jail end in the year 9999 |
| Inactivity.TombstonedNeverCloses | src/alert/index.ts:234-273 | an open tombstoned alert stays open over every run in which the REST API, whenever it answers, says jailed for good |
| PollAlerts.TombstonedClosesIff | src/alert/index.ts:234-273 | from every reachable state, a poll closes an open tombstoned alert if and only if the check is on, the chain is Cosmos, and the REST API answers without saying jailed for good |
| PollAlerts.FailedSigningInfoCloses | src/dp/chain_worker.ts:259-280 | from every reachable state with a tombstoned alert open, a poll whose signing-info fetch fails leaves it closed and a jailed alert open |
| AlertRules.StalledEventsIff | src/alert/index.ts:84-113 | at most one event: opens if and only if enabled, more than the threshold since the tip's time and none open; closes that alert if and only if enabled, not more, and one open; never repeats |
| AlertRules.MissFollows | src/alert/index.ts:122-169 | the consecutive-miss alert opens, repeats and closes by the last `threshold` stored labels, and repeats after the interval in seconds since the last notification, or since the opening |
| AlertRules.PercentFollows | src/alert/index.ts:176-223 | the percentage alert opens, repeats and closes by the missed share of the heights that count, and repeats once the share reaches the threshold raised by half for each repeat and once more |
| AlertRules.StatusFollows | src/alert/index.ts:234-273 | each status alert opens and closes by what the API says: inactive if neither jailed nor bonded, jailed if jailed and not for good, tombstoned if jailed for good |
| AlertRules.EndpointFollows | src/alert/index.ts:284-335 | each endpoint alert opens and closes, and its timer starts, runs and stops, by the endpoint's health, its `alertIfDown`, and the grace period |
| AlertRules.WritesAll | src/dp/chain_worker.ts:395-411 | writing a poll's events leaves under each event's id exactly the row it calls for, and every other row as it was |
| PollAlerts.PollNotices | src/dp/chain_worker.ts:554-588 | for a poll of every reachable state, its notifications about the six chain alerts, exactly, from its input and the tables; the windows end at the newest block collected, else at the newest stored, else at the tip |
| PollAlerts.EndpointNotices | src/dp/chain_worker.ts:335-393 | the same for every endpoint alert and timer, also when the chain cannot be read, and then nothing is said about the chain |
| PollAlerts.PollLeaves | src/dp/chain_worker.ts:395-411 | with its alert writes done, a poll of every reachable state leaves each chain alert open if and only if it is wanted, or was open with nothing to be done about it |
| PollAlerts.PollPeriods | src/dp/chain_worker.ts:242-326 | what a poll of every reachable state makes of the period table, row by row, whichever write fails: the newest open period ends at the tip if the validator is back or out for another reason, and one starts at the tip, with what the API says, if it is out and none with this reason is open |
| PollAlerts.TablesFollowApi | src/dp/chain_worker.ts:242-326 | after a complete poll of every reachable state that hears about the validator, a period is open if and only if the API says jailed or not bonded, and of the three alerts exactly the one of the reason |
| ChainWorkers.IngestBlocks | src/ingest/index.ts:17-25 | append, then insert: stored once if either goes through, table unchanged if neither does, an empty batch is a success |
| ChainWorkers.IngestAlert | src/ingest/index.ts:27-37 | stores a new alert; ingesting a stored one again changes nothing |
| Worker.RecordsAsMachine | src/dp/chain_worker.ts:297-326 | the state machine's two writes together are the recording |
| Worker.IngestsAsMachine | src/dp/chain_worker.ts:475-552 | the state machine's fetch, append and insert together are one ingestion |
| Worker.AppliesAsMachine | src/dp/chain_worker.ts:395-411 | the state machine's write and notification together are one applied event |
| Worker.ComesToJudging | src/dp/chain_worker.ts:431-552 | a poll that sees a tip comes to its checks with the status recorded and the slice stored as far as the statements go through |
| ChainWorkers.ChainWorker.RecordInactivity | src/dp/chain_worker.ts:297-326 | leaves the period table the specification gives, for either write failing |
| ChainWorkers.ChainWorker.IngestSlice | src/dp/chain_worker.ts:475-552 | fetches, converts and stores exactly the specified slice |
| ChainWorkers.ChainWorker.PollChain | src/dp/chain_worker.ts:419-589 | with its early returns, leaves the state machine where the endpoint check starts, with the specified events |
| ChainWorkers.ChainWorker.ApplyEvent | src/dp/chain_worker.ts:395-411 | one write and one notification |
| ChainWorkers.ChainWorker.DoPoll | src/dp/chain_worker.ts:358-412 | a whole poll leaves exactly what the state machine leaves |
| ChainWorkers.ChainWorker.Poll | src/dp/chain_worker.ts:640-663 | does nothing while polling, otherwise a whole poll |
| Query.BackoffClosedForm | src/query/index.ts:171-185 | the delays before k calls add up to 100*(2^(k-1) - 1) ms |
| Query.WithRetry | src/query/index.ts:171-185 | the first success or the last failure, good if and only if some attempt is, after as many calls as that takes, thrown errors included, with the closed-form delay |
| Query.GetRangeCommits | src/query/index.ts:195-220 | result i is what the request for height from+i comes to after its own retries, for every chunk size; a throw counts as a failure; the length is to-from; never more than a chunk in flight |
| Query.FetchChunk | src/query/index.ts:200-216 | each request of a chunk keeps its own place and its own outcome |
| Query.GetValset | src/query/index.ts:288-312 | as written, the key is constant after the first request: good only for a single page, otherwise it ends only with a failed request |
| Query.WalkServer | src/query/index.ts:288-312 | against a server that never fails, the loop ends if and only if the set has one page |
| Query.WalkPages | src/query/index.ts:288-312 | with the key read from the page just fetched, the walk ends, fetches each page once and returns their concatenation, or the failure that cut it off |
| EndpointPool.FairShare | src/query/index.ts:142 | over m consecutive indices each of n positions is hit floor(m/n) or ceil(m/n) times |
| EndpointPool.PicksAreFair | src/query/index.ts:132-145 | with a stable list each URL is handed out floor(m/n) or ceil(m/n) times in m picks |
| EndpointPool.ChecksCoalesce | src/query/index.ts:132-162 | under any interleaving of callers at most one check runs and nobody waits without one |
| EndpointPool.ListIsLast | src/query/index.ts:85-100 | in every reachable state the healthy list is that of the last check that succeeded |
| EndpointPool.GivenIsHealthy | src/query/index.ts:132-145 | under any interleaving each URL handed out is in the healthy list of the last check that had succeeded by then |
| EndpointPool.AnsweredAtOnceIff | src/query/index.ts:132-145 | in every reachable state a caller is answered at once, with the next URL of the last list, if and only if the list is neither stale nor empty; otherwise it waits for the one check under way |
| EndpointPool.OneAnswerEach | src/query/index.ts:132-162 | under any interleaving the questions asked are those answered, those waiting and those about to go on |
| EndpointPool.WaiterGets | src/query/index.ts:132-145 | a waiting caller gets its check's failure, or else the list's next URL when it goes on, whatever happens in between |
| EndpointPool.Pool.GetHealthy | src/query/index.ts:132-145 | a caller asking is the step of the state machine those properties are about |
| EndpointPool.Pool.EndCheck | src/query/index.ts:85-100 | a check ending is that state machine's step, for a success and for a failure |
| EndpointPool.Pool.GoOn | src/query/index.ts:140-145 | a caller going on after its check is that state machine's step |
| RpcHealth.BestIsHighest | src/query/rpc/client.ts:66-74 | the reference height is the highest among the nodes that pass the basic check |
| RpcHealth.FirstPass | src/query/rpc/client.ts:60-88 | separates the nodes that follow the chain from the others, with a reason for each of these |
| RpcHealth.SecondPass | src/query/rpc/client.ts:90-101 | separates the nodes too far behind the best, with a reason for each |
| RpcHealth.KeepsUpIff | src/query/rpc/client.ts:60-101 | a node passes both tests if and only if it is reachable, on the network, not catching up, and less than 20 blocks behind every other such node and behind 0; otherwise its reason is the first of these that fails |
| RpcHealth.CheckHealth | src/query/rpc/client.ts:41-104 | healthy and unhealthy partition the URLs; healthy if and only if the node keeps up in that sense; exactly the unhealthy have a reason, the first that applies; some node is healthy if and only if one follows the chain above -20 |
| Framing.LinesSplit | src/engine/socket.ts:17-29 | reading on from the retained suffix gives the lines and suffix of the whole stream |
| Framing.LineReader.OnData | src/engine/socket.ts:17-29 | delivers exactly the non-empty lines a chunk completes and retains exactly the unterminated suffix |
| Framing.Receive | src/engine/socket.ts:17-29 | for any split into chunks, the lines and suffix of the whole stream |
| Framing.SentIsReceived | src/engine/socket.ts:9-29 | the lines of what is sent for newline-free messages are those of them that are not empty |
| Framing.Transfer | src/engine/socket.ts:9-29 | messages sent come out unchanged and in order for any cut of the stream, except that empty ones are dropped |
| Engine.WritersAreListed | src/engine/protocol.ts:228-236 | a request that changes the database is on the list of writes, and no read is |
| Engine.ServerConnection.HandleLine | src/engine/server.ts:195-220 | switches the role, refuses without one, refuses listed writes to readers, serves the rest |
| Engine.EngineConnection.Request | src/engine/client.ts:85-91 | is the link's step of issuing a request: the line to carry has an id no request had before |
| Engine.EngineConnection.OnResponse | src/engine/client.ts:46-56 | is the link's step of delivering: resolves a promise exactly when none was resolved under that id, and then the promise of the very request the response was made for |
| Engine.MatchedRun | src/engine/client.ts:41-91 | in every run each message in flight carries an id together with the request issued under it |
| Engine.ResponsesMatchRequests | src/engine/client.ts:41-91 | for any interleaving and order of answers, a promise gets the response to its own request, and pending is exactly the ids issued minus those answered |
| Engine.ResolvedOnce | src/engine/client.ts:48-55 | a resolved promise keeps its response over every continuation of the run |
| Engine.QuietMeansAnswered | src/engine/server.ts:192-227 | a request waits only while it or its response is underway: a quiet connection has answered everything |
| Engine.ReadersChangeNothing | src/engine/server.ts:210-216 | a connection whose only hellos are reader never changes the tables |
| Engine.ServedIff | src/engine/server.ts:195-220 | over every run, a request that arrives is served if and only if the last hello to arrive said writer, or said reader and the request is a read; otherwise it is refused and never reaches the database |
| Engine.ActsOnItsChain | src/engine/server.ts:42-75 | an answered write acts on the tables of the chain it names as that chain's own statement does, and on another chain's only if it closes or touches an alert of theirs; unknown chains, failures and reads change nothing |
| Engine.AnsweredOkIff | src/engine/server.ts:138-176 | a request succeeds if and only if its statement does, its chain, if it names one, is known, and no height or alert id it inserts is there already |
| Engine.RoleIsLastHello | src/engine/server.ts:193-200 | the role is that of the last hello to arrive |
| Engine.ReaderTurnsWriter | src/engine/server.ts:197-200 | a second hello as writer lets the same connection write |
| Watcher.Watch.constructor | src/api/watcher.ts:25-34 | the start-up loop records for each chain the height and the unclosed ids read, 0 and none for a read that fails, which is the state the runs below start from |
| Watcher.Watch.CheckBlocks | src/api/watcher.ts:43-51 | records a height only if it is above the recorded one |
| Watcher.Watch.PublishBlock | src/api/watcher.ts:53-63 | publishes the block and the online status, or nothing |
| Watcher.Watch.CheckAlerts | src/api/watcher.ts:65-92 | the two loops publish exactly the openings and closings between the snapshots and keep the new one |
| Watcher.RecordedIsHighest | src/api/watcher.ts:43-51 | over every run, polls overlapping or not, the height recorded for a chain is the highest one heard |
| Watcher.FoldedOpenings | src/api/watcher.ts:73-82 | folding the openings adds exactly the ids new in the snapshot |
| Watcher.FoldedClosings | src/api/watcher.ts:84-89 | folding the closings removes exactly the ids gone from the snapshot |
| Watcher.EventsFoldToSnapshot | src/api/watcher.ts:65-92 | for any interleaving of overlapping polls, folding the published events over the initial ids gives the last processed snapshot |
| Watcher.EventsAlternate | src/api/watcher.ts:65-92 | with no id twice in a snapshot, each alert opens only while the subscriber lacks it and closes only while it has it |
| Watcher.OneBlockPerRecordedHeight | src/api/watcher.ts:43-63 | recorded heights strictly increase and each published block belongs to a recorded height of its own |
| Watcher.InOrderIff | src/api/watcher.ts:43-63 | over every run, a chain's blocks are published in the order of their recorded heights if and only if no block arrives after that of a higher recorded height of its chain |
| Watcher.InOrderUnlessSharing | src/api/watcher.ts:43-63 | which holds whenever no two polls fetch a block of the same chain at once |
| Watcher.SharersCanReorder | src/api/watcher.ts:43-63 | in every reachable state, two polls fetching blocks of one chain can publish them the wrong way round |
| Watcher.OverlapReorders | src/api/watcher.ts:94-96 | a run from the start in which the newer block is published first |

## Left out

- HTTP, JSON parsing, camel-casing, bech32 and address conversion: their results are inputs; a conversion that
  throws is one bit per commit, and is taken to throw before its lookup.
- Alert ids: fresh numbers instead of UUIDs, handed out in the order of the checks; each check owns a number
  whether it opens an alert or not.
- DuckDB: tables are maps; a statement that fails changes nothing. A statement whose outcome is unknown to the
  worker because the engine went away is not modelled, nor is a write still queued in the engine when the worker restarts.
- The clock inside one evaluation: the chain checks of a poll share one reading, the endpoint check has its own.
- Awaits without a write to shared state, such as the validator lookups between two database statements, are not
  separate points of suspension.
- Notification texts, alert contexts, health pings, logging, daily statistics, time zones.
- Wire and row converters, and UTF-8 decoding of chunks: chunks are character strings.
- Worker startup: the active set and the signing window are part of the configuration.
- The chain an inserted alert or period carries in itself: taken to be the chain its request names.
- The snapshot `endpointHealth` makes of the last check: a poll's endpoint health is an input, absent until a first check.
- The overview, routes, event hub, frontend, environment and process supervision.
- Engine.Dispatched: what a read returns is not modelled, only that it changes nothing and that its response carries the id of its request.
- ChainWorkers.ChainWorker.Poll: a poll that throws is an action of the state machine (`Worker.Throw`), not a path of this method.
- Query.GetRangeCommits: the requests of a chunk settle in order, where the source lets them settle in any; the results do not depend on it.
- Query.WalkPages: the walk as pagination intends it, which the cited lines do not yet do; `Query.GetValset` is the loop as written.
- Query.GetValset: bounded by a number of requests, since the loop as written need not end; the contract holds for every bound.
- EndpointPool.Pool.NextUrl: the index is unbounded, where a JavaScript number loses precision above 2^53.
- RpcHealth.CheckHealth: requires distinct URLs; the second pass keeps one entry per URL, so a repeated healthy URL would be listed once.
