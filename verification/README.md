# SREGym: verified models

SREGym builds a small production stack, breaks it, and judges the repair with deterministic code.  This project models
the parts of it whose correctness spans whole runs, and proves what their users rely on.  Clock readings, random
choices, failures, network answers and thread interleavings are arbitrary inputs of the models, so every theorem is
about all of them.

- `Checkout`, `CheckoutHandler`, `Repair`, `ReconcileScript`: the two-database checkout, the repair of a ledger whose
  payments were diverted, and the reconciliation script.  The protocol is a state machine over the statements of many
  clients; the handler and the script are the imperative procedures, tied to it.
- `Telemetry`, `RegistryRuns`, `Numbers`, `Exposition`, `Pipeline`, `Collector`, `QueryMetrics`: metrics from the
  in-process registry through the text format and the scraper's deltas to the bucketed query.
- `ReadLogs`, `CursorCodec`: paging with cursors over a growing log.
- `HistoryBooks`, `HistoryTraffic`, `HistoryRun`, `HistoryOutcomes`, `HistoryNotices`, `History`: the history
  simulator, whose one request stream feeds books, logs, metrics and gauges.
- `Generated`: the incident such a history leaves, which the repair above mends.
- `Sections`, `EnvFile`, `TruncatedEnv`: template sections, the `.env` printer and parser, and a write torn in half.
- `RateLimiter`, `Composition`, `Cron`, `CronRunner`, `Episode`, `Wilson`: the limiter and its simulated twin, fault
  composition and verdicts, the cron daemon, the episode loop against the tool server, and the Wilson interval.
- `Options`, `Text`: the optional value and the string operations shared by the parsers.

`dafny verify dfyconfig.toml` checks everything.

Where the code does not do what a reader might expect, the code is kept and the exact condition is proved:

- exit code 0 of the reconciliation script (`ExitCodeExact`) and payments hidden by an orphan row
  (`CopyRestoresExactly`);
- restarts that share a start second (`LostIsNothingIff`);
- label values with a quote, a closing brace or a line break, for one line and for the whole registry
  (`SampleRoundTripIff`, `RegistryRoundTripIff`), and counters that fall within one process life because two series
  are read as one (`NeverFallsIff`, `OneLifeIff`);
- log lines completed after a tail read saw them (`UnfinishedLinePartitionIff`);
- requests simulated while the service is down (`RetryInGapIff`, `HookInGapIff`, `GapIsQuietIff`);
- minutes ticked twice and jobs started twice a day (`TickedTwiceIff`, `TwiceADayIff`), and crontab fields with
  malformed items (`FieldAnswers`);
- clocks read before a lock (`AnswersAgreeIff`, `FirstAttemptsPassIff`);
- `.env` values that do not survive (`RoundTrip`) and merged lock bursts (`MergeFaithfulIff`).

A concrete input that fails the condition stands beside most of them.

## Model

| member | source | states |
|---|---|---|
| CheckoutProtocol.CommittedOrdersArePaid | sregym/generator/templates/checkout-service/checkout/main.py:328-370 | in every state reachable by any interleaving of checkouts, rollbacks, crashes, URL edits, restarts and reconcile steps, each order that a checkout committed is confirmed and has a payment equal in order id, user, amount, currency and creation time in the ledger file its process was configured with |
| CheckoutProtocol.NextIdExistsAndIsUnique | sregym/generator/templates/checkout-service/migrations/001_init.sql:24-32 | SQLite's id choice, one past the largest order id, always exists and is unique, so ids of rolled-back orders are reused |
| CheckoutProtocol.InvStep | sregym/generator/templates/checkout-service/checkout/db.py:42-63 | one step of any client, crash, edit or script keeps the invariant: one core writer, transactions consistent with what they have committed so far, every committed order backed by its payment |
| CheckoutProtocol.TxnStep | sregym/generator/templates/checkout-service/checkout/main.py:328-370 | a transaction past the ledger's commit has its payment in the configured file, whatever other clients and the script do in between |
| CheckoutProtocol.BackedStep | sregym/generator/templates/checkout-service/checkout/db.py:42-63 | no step takes the payment of a committed order away, and a core commit happens only after its payment is committed |
| CheckoutHandler.Service.Checkout | sregym/generator/templates/checkout-service/checkout/main.py:322-388 | the handler with an exception at any statement: an order is created exactly when nothing raises; otherwise orders are untouched and a payment stays behind, with the request's user, amount, currency and method, exactly when the exception comes after the ledger's commit; every call is a run of the protocol and keeps its invariant |
| CheckoutHandler.Service.RecordPayment | sregym/generator/templates/checkout-service/checkout/main.py:362-368 | the inner transaction adds its row exactly when nothing raises and the file exists, and otherwise leaves all files alone |
| CheckoutHandler.Service.LastRowId | sregym/generator/templates/checkout-service/migrations/001_init.sql:24-32 | the scan over the order ids finds the next id |
| CheckoutHandler.HandlerRuns | sregym/generator/templates/checkout-service/checkout/db.py:42-63 | success and every failure point correspond to a protocol run with exactly the executed statements followed by the rollbacks |
| CheckoutHandler.StatementsRun | sregym/generator/templates/checkout-service/checkout/main.py:328-370 | the handler's statements are enabled one after another and lead to the expected protocol state |
| CheckoutHandler.StopsBefore | sregym/generator/templates/checkout-service/checkout/main.py:322-388 | which statement each failure keeps from being executed; a missing ledger file stops the handler at the payment at the latest |
| LedgerRepair.RepairCompletesTheLedger | sregym/generator/templates/checkout-service/scripts/reconcile_ledger.py:68-105 | after any run that configured only the two files, restoring the URL, restarting and one reconcile run with a period that covers the incident make the verifier's check true; it stays true under all later activity, and a second reconcile of the same period from any source copies nothing |
| LedgerRepair.PaidSomewhereRun | sregym/generator/templates/checkout-service/checkout/main.py:359-369 | while only two files are ever configured, every order in scope has its matching payment in one of them |
| LedgerRepair.RepairingRun | sregym/generator/templates/checkout-service/scripts/reconcile_ledger.py:68-91 | checkouts between the script's statements never invalidate what it has read: an order it did not see is paid in the real ledger, an order it counts as missing is paid in the source |
| LedgerRepair.CopyCompletes | sregym/generator/templates/checkout-service/scripts/reconcile_ledger.py:98-102 | the script's commit leaves no confirmed order of the period unpaid, including those confirmed while it ran |
| LedgerRepair.FullyPaidRun | sregym/verifier/verify.py:219-239 | once every confirmed order of the period is paid, no later checkout, crash or reconcile run changes that |
| LedgerRepair.NothingToCopyStep | sregym/generator/templates/checkout-service/scripts/reconcile_ledger.py:72-90 | after the repair every reconcile of the same period computes an empty missing list at each of its statements |
| LedgerRepair.CopyRestoresExactly | sregym/generator/templates/checkout-service/scripts/reconcile_ledger.py:72-101 | an order whose true payment is in the source has it in the ledger afterwards exactly when it was there already or the ledger had no row of the period for that order id |
| LedgerRepair.OrphanHidesDivertedPayment | sregym/verifier/verify.py:229-238 | a concrete run: an orphan payment under a reused order id makes the check pass while the order's own payment is still missing |
| ReconcileScript.Reconcile | sregym/generator/templates/checkout-service/scripts/reconcile_ledger.py:61-105 | the procedure with its open errors: code 1 changes nothing; without source or `--apply` nothing is written and the code is 0 exactly when nothing is missing; with `--apply` the target gains exactly the source's rows for the missing ids and the code is 0 exactly when as many rows were copied as ids were missing |
| ReconcileScript.ReadHave | sregym/generator/templates/checkout-service/scripts/reconcile_ledger.py:72 | the set of order ids with a payment row in the period |
| ReconcileScript.FindMissing | sregym/generator/templates/checkout-service/scripts/reconcile_ledger.py:68-73 | the confirmed orders of the period without such a row, in table order |
| ReconcileScript.FetchRows | sregym/generator/templates/checkout-service/scripts/reconcile_ledger.py:86-90 | all source rows of the missing orders, in table order |
| ReconcileScript.InsertAll | sregym/generator/templates/checkout-service/scripts/reconcile_ledger.py:98-101 | the inserts append exactly the fetched rows |
| ReconcileScript.ScriptAgreesWithProtocol | sregym/generator/templates/checkout-service/scripts/reconcile_ledger.py:68-90 | on the same tables the procedure's missing list and fetched rows are those of the protocol's reconcile steps |
| ReconcileScript.FetchedTotal | sregym/generator/templates/checkout-service/scripts/reconcile_ledger.py:87-90 | the number of fetched rows is the number of served orders plus the number of repeated rows |
| ReconcileScript.MissingInTableOrder | sregym/generator/templates/checkout-service/scripts/reconcile_ledger.py:68-73 | the missing ids stand in the order of the orders table |
| ReconcileScript.FetchedInOrder | sregym/generator/templates/checkout-service/scripts/reconcile_ledger.py:86-90 | the fetched rows are all rows of the missing ids, in the order of the source |
| ReconcileScript.ExitCodeExact | sregym/generator/templates/checkout-service/scripts/reconcile_ledger.py:103-105 | exit code 0 means that the source serves every missing order exactly when the source repeats no missing order, or it leaves some unserved and the repeats do not equal their number |
| ReconcileScript.ExitCodeHonest | sregym/generator/templates/checkout-service/scripts/reconcile_ledger.py:103-105 | with at most one source payment per missing order the code is 0 if and only if no order is left |
| ReconcileScript.ExitCodeFooledByRepeats | sregym/generator/templates/checkout-service/scripts/reconcile_ledger.py:103-105 | a concrete source with two rows for one missing order and none for the other gives code 0 |
| Telemetry.RegistryRoundTripIff | sregym/generator/templates/checkout-service/checkout/telemetry.py:43-78 | reading the rendered text back gives exactly the registry (durations at three decimals) if and only if no label value contains a quote, a closing brace or a line break |
| Telemetry.RegistryRoundTrip | sregym/generator/templates/checkout-service/checkout/telemetry.py:43-78 | with route templates: when no label value has a line break, it gives exactly the registry apart from the series with a closing brace in a label value, which are missing altogether, if and only if every series with a quote also has a closing brace |
| Telemetry.Registry.Render | sregym/generator/templates/checkout-service/checkout/telemetry.py:47-78 | the rendered text is the eight families in order, each with its two comment lines and one line per key |
| Telemetry.Registry.ObserveRequest | sregym/generator/templates/checkout-service/checkout/telemetry.py:19-23 | one request adds one to its counter and to its path's count and its duration to its path's latency sum, nothing else, and no counter falls |
| Telemetry.Registry.DbError | sregym/generator/templates/checkout-service/checkout/telemetry.py:26-28 | one database error bumps that database's counter only |
| Telemetry.Registry.RateLimited | sregym/generator/templates/checkout-service/checkout/telemetry.py:31-34 | one rejection bumps that counter only |
| Telemetry.Registry.WebhookRejected | sregym/generator/templates/checkout-service/checkout/telemetry.py:37-40 | one rejected webhook bumps that counter only |
| Telemetry.ScrapedSamples | sregym/runtime/metrics.py:19-34 | whatever one-line label values there are, the scraped table is what the printed samples are read as: comments add nothing, and each sample is the registry's series with its value |
| Telemetry.ExpectedIsPrinted | sregym/generator/templates/checkout-service/checkout/telemetry.py:50-77 | every series of the registry is one of the printed samples |
| Exposition.ParsePrometheus | sregym/runtime/metrics.py:19-34 | the parser's loop over lines with comments, pattern misses and bad numbers skipped, later samples of a series winning |
| Exposition.SampleRoundTripIff | sregym/generator/templates/checkout-service/checkout/telemetry.py:43-44 | a printed sample line with distinct label names and no line breaks parses to its own series and number if and only if no label value contains a quote or a closing brace |
| Exposition.ParsedValues | sregym/runtime/metrics.py:13-33 | no label value that the parser finds in any line contains a quote or a closing brace, and each is a piece of the line |
| Exposition.LineReads | sregym/runtime/metrics.py:20-33 | whatever its label values, a printed line is read as the series its labels are found to be, with its own number, or dropped when a value has a closing brace |
| Exposition.LastReading | sregym/runtime/metrics.py:19-34 | a series read from printed samples has the number of the last sample read as it |
| Exposition.SampleRoundTrip | sregym/generator/templates/checkout-service/checkout/telemetry.py:43-44 | a sample line with good names, label values without quote, closing brace or line break, and a number parses to its series and its number |
| Exposition.LineMatched | sregym/runtime/metrics.py:13 | the line pattern splits a printed sample into exactly its name, its braced labels and its number |
| Exposition.LabelsFound | sregym/runtime/metrics.py:14 | the label pattern, applied from left to right, finds exactly the printed labels, later ones winning |
| Exposition.OtherNumbersRead | sregym/runtime/metrics.py:13-33 | lines that others may print: `NaN` and numbers in scientific notation are read under the series of their labels |
| Exposition.BraceInLabelDropsLine | sregym/runtime/metrics.py:13-26 | a sample line with a closing brace in any label value is always dropped |
| Exposition.QuoteMisreadsSeries | sregym/generator/templates/checkout-service/checkout/telemetry.py:43-44 | where the number goes instead: a label value that ends in a quote is read back under the series of the value without it |
| Numbers.PrintedParses | sregym/generator/templates/checkout-service/checkout/telemetry.py:53 | a printed counter is read back as the same number |
| Numbers.ThousandthsParse | sregym/generator/templates/checkout-service/checkout/telemetry.py:57 | a duration printed with three decimals is read back exactly |
| Numbers.ScientificParses | sregym/runtime/metrics.py:13-33 | a number with a sign, a decimal point and a signed power of ten, which the parser's pattern also lets through, is read as that number |
| RegistryRuns.AfterCounts | sregym/generator/templates/checkout-service/checkout/telemetry.py:19-40 | after any calls a registry holds a series exactly when some call touched it, and its counter is the number of calls that did |
| RegistryRuns.AfterSums | sregym/generator/templates/checkout-service/checkout/telemetry.py:19-40 | after any calls the latency sum of a path is the sum of the durations of its requests, and the two unlabelled counters are the numbers of rejections and of rejected webhooks |
| RegistryRuns.RequestHits | sregym/generator/templates/checkout-service/checkout/telemetry.py:19-23 | a request counter counts the requests of its method, path and status, which its printed status tells apart |
| RegistryRuns.ReplayedHits | sregym/generator/templates/checkout-service/checkout/telemetry.py:19-28 | a run without one series, many times over, and then its calls once: the same series as before, with a small count for that series after large ones for the others |
| Telemetry.AfterGrows | sregym/generator/templates/checkout-service/checkout/telemetry.py:9-40 | between any two moments of a run of calls no counter falls and no series disappears |
| MetricsPipeline.NeverFallsIff | sregym/runtime/metrics.py:72-90 | for any calls that leave given series with one-line label values: between any two renderings at moments of a run that ends with these series no number that is read falls or disappears, if and only if no two of the series are read as the same |
| MetricsPipeline.OneLifeIff | sregym/runtime/metrics.py:72-90 | the same for what the collector's account needs of one life, on the items it stores |
| MetricsPipeline.RendersAreOneLife | sregym/runtime/metrics.py:72-90 | when no two samples with different labels are read as the same series, two scrapes of one process satisfy what the account needs of one life: same start stamp, counters that do not fall, label sets that do not disappear, values not negative |
| MetricsPipeline.Falls | sregym/runtime/metrics.py:19-34 | otherwise: a run of calls that ends with these series and a moment in it between which and the end a counter falls, whatever the order of the earlier rendering |
| MetricsPipeline.QuotedSeriesOverwrites | sregym/runtime/metrics.py:19-34 | an input that fails it: a series whose label value ends in a quote is stored over the series without it, so the stored counter jumps from one count to the other |
| MetricsPipeline.ExpectedGrows | sregym/generator/templates/checkout-service/checkout/telemetry.py:19-40 | what a reader should see only grows while a process lives, and its start stamp stays |
| MetricsPipeline.RequestsAreTold | sregym/generator/templates/checkout-service/checkout/telemetry.py:50-53 | from the calls to the scraped table: `http_requests_total` of a method, path and status is the number of such requests, and is absent without one, when labels are clean |
| MetricsPipeline.LatenciesAreTold | sregym/generator/templates/checkout-service/checkout/telemetry.py:54-61 | likewise `http_request_duration_ms_count` of a path is the number of its requests, and `http_request_duration_ms_sum` the sum of their durations in milliseconds |
| MetricsPipeline.DbErrorsAreTold | sregym/generator/templates/checkout-service/checkout/telemetry.py:62-65 | likewise `db_errors_total` of a database is the number of its errors |
| MetricsPipeline.ProcessIsTold | sregym/generator/templates/checkout-service/checkout/telemetry.py:66-77 | likewise the two rejection counters, the start time, and the version and commit of `app_info` |
| Collector.MetricsCollector.ScrapeOnce | sregym/runtime/metrics.py:59-91 | one poll appends exactly its rows and the exporter's, remembers the parsed counters and the start stamp when it was answered, and keeps both when it was not |
| Collector.DeltasTelescope | sregym/runtime/metrics.py:72-90 | for every run of scrapes with outages and restarts, the deltas written for a counter add up to the last value scraped in each process life, minus the baseline value, minus exactly what restarts with an equal start stamp hide |
| Collector.LostIsNothingIff | sregym/runtime/metrics.py:75-84 | nothing is lost if and only if every restart hidden behind an equal start stamp followed a life whose value was zero |
| Collector.DistinctStampsLoseNothing | sregym/runtime/metrics.py:75-84 | when consecutive lives carry different start stamps the deltas add up exactly |
| Collector.NoNegativeDelta | sregym/runtime/metrics.py:82-87 | every delta written for a counter is positive |
| Collector.UpTellsTheAnswers | sregym/runtime/metrics.py:59-73 | the `up` rows of a run, in order, are one per poll: 1 when it was answered and 0 when it was not |
| Collector.RowsAreUpOrCounters | sregym/runtime/metrics.py:15-16 | every other row is of one of the five counters, of a series that some poll has shown |
| Collector.NeverOvercounts | sregym/runtime/metrics.py:72-90 | whatever the stamps, the sum never exceeds the true number of events after the baseline |
| Collector.EqualStampsLoseEvents | sregym/runtime/metrics.py:75-84 | a concrete restart within one second: seven events are stored as two |
| GeneratedIncident.LeftIsPaid | sregym/generator/logs.py:715-743 | the tables that a history leaves, after its insertion into any properly paid seed, are a state of the checkout protocol with every confirmed order paid in the ledger or in the other file |
| GeneratedIncident.CheckFailsIffDiverted | sregym/verifier/verify.py:219-239 | on them the verifier's check passes if and only if no payment from its period went to the other file |
| GeneratedIncident.GeneratedIncidentIsRepairable | sregym/faults/ledger_divergence.py:126-144 | whatever history was drawn, restoring the URL, restarting and one reconciliation from the other file over a period that covers the incident make the check pass, and it stays passed |
| ReadLogs.Read | sregym/tools/read_logs.py:97-182 | one call of the reader, fresh or resumed, forward or backward, returns the specified page; with a limit of 1 to 50 at most that many lines, and exactly as many when more are left |
| ReadLogs.Limit | sregym/tools/read_logs.py:109-110 | no limit or zero means 50 lines, a negative one means one, 1 to 50 means itself, more means 50 |
| ReadLogs.FreshPage | sregym/tools/read_logs.py:116-177 | a first call returns the first matching lines or, with `tail`, the last ones, as many as the limit allows; the remaining count is the rest, a next cursor is given exactly when there is a rest, and a live cursor at the end of the log exactly with `tail` |
| ReadLogs.ResumedPage | sregym/tools/read_logs.py:125-129 | a resumed call keeps filter and direction, gives no live cursor, and reads an index outside the log as its nearer end |
| ReadLogs.PageIsFull | sregym/tools/read_logs.py:151-175 | no page has more lines than its limit, and one with a next cursor has exactly as many |
| ReadLogs.MatchingIff | sregym/tools/read_logs.py:135-149 | a line matches if and only if the pattern finds it and the stamp of the nearest stamped line at or above it lies within since and until, both included; a line above every stamp fails any since and no until |
| ReadLogs.MatchLines | sregym/tools/read_logs.py:135-149 | the matching loop with its inherited time stamp |
| ReadLogs.MatchesAreTheMatchingLines | sregym/tools/read_logs.py:135-149 | the match list is the increasing list of exactly the lines that pass since, until and grep under their own or inherited stamp |
| ReadLogs.MatchesStable | sregym/tools/read_logs.py:135-149 | appending lines never changes which earlier lines match |
| ReadLogs.ForwardPage | sregym/tools/read_logs.py:151-154 | a forward page is the matching lines from its cursor to its next cursor, and the remaining count is what is left |
| ReadLogs.BackwardPage | sregym/tools/read_logs.py:155-159 | a backward page likewise towards the start |
| ReadLogs.ForwardWalk | sregym/tools/read_logs.py:151-173 | following forward cursors over a log that grows by whole lines, with any limits, returns each matching line from the start to the last cursor once, in order |
| ReadLogs.BackwardWalk | sregym/tools/read_logs.py:155-173 | following backward cursors likewise |
| ReadLogs.WholeForwardRead | sregym/tools/read_logs.py:151-175 | a forward read from the start that runs out of cursors has returned every matching line its last call could see, once, in order |
| ReadLogs.TailAndLivePartition | sregym/tools/read_logs.py:155-177 | a tail read's backward pages and the walk from its live cursor together return every matching line once, however the calls interleave with the log's growth |
| ReadLogs.WalkEnds | sregym/tools/read_logs.py:151-175 | on an unchanging log a walk in either direction ends within as many calls as lines are left, and every page but the last is full |
| ReadLogs.UnfinishedLineIff | sregym/tools/read_logs.py:176-177 | the matches of a log whose last line is unfinished, followed by those after that line once it is complete, are all matches of the complete log if and only if completing the line does not change whether it matches |
| ReadLogs.UnfinishedLinePartitionIff | sregym/tools/read_logs.py:155-177 | a tail read that saw an unfinished last line, with its older pages read before or after the completion, and the walk from its live cursor after it are all matching lines once if and only if completing the line does not change whether it matches |
| ReadLogs.UnfinishedLineIsMissed | sregym/tools/read_logs.py:176-177 | an input that fails it: a line completed into what the pattern asks for is in no page |
| ReadLogs.CursorsTravel | sregym/tools/read_logs.py:61-70 | a cursor that is encoded, sent and decoded is the same cursor |
| CursorCodec.CursorRoundTrip | sregym/tools/read_logs.py:61-70 | for all bytes, decoding the unpadded URL-safe base64 text (RFC 4648, section 5) gives the bytes back, and the text has only letters of that alphabet |
| CursorCodec.DecodesIff | sregym/tools/read_logs.py:65-70 | a text of URL-safe letters decodes if and only if its last group of four is not a single letter |
| CursorCodec.OthersAreSkipped | sregym/tools/read_logs.py:65-70 | at any point of the input characters of neither alphabet are skipped, and the standard alphabet's two letters read as the URL-safe ones |
| CursorCodec.Vectors | sregym/tools/read_logs.py:61-62 | the test vectors of RFC 4648, section 10, without their padding, and one with the two URL-safe letters |
| CursorCodec.EncodeIsBodyAndPadding | sregym/tools/read_logs.py:62 | the padding the encoder strips is the padding the decoder restores from the length |
| CursorCodec.EncodedDecodes | sregym/tools/read_logs.py:68 | the decoder's loop inverts the padded encoding |
| HistoryBooks.ExactlyOnePayment | sregym/generator/logs.py:251-274 | in any simulated history order ids are exactly base+1, base+2, ...; each order's total is the sum of its items and the amount of exactly one payment, of its user and time, which is in the diverted list exactly when the order arrived at or after an incident that names another payments database |
| HistoryBooks.SettlementsConfirmPayments | sregym/generator/logs.py:277-302 | every settlement carries reference, order and amount of one of those payments, and no order is settled twice |
| HistoryBooks.CaptureKeepsBooks | sregym/generator/logs.py:251-270 | a successful checkout keeps orders, items, payments, times and settlements in agreement |
| HistoryBooks.SettleKeepsBooks | sregym/generator/logs.py:297-300 | so does the settlement that follows it |
| HistoryTraffic.RecordsAgree | sregym/generator/logs.py:165-213 | recorded requests equal access events equal the sum of the request counter over the table's own keys; errors equal its 5xx part; the access log is the non-health requests in order plus the refused ones |
| HistoryTraffic.TableCovers | sregym/generator/logs.py:165-196 | every recorded request has its counter among the keys of the table |
| HistoryTraffic.RecordKeepsTraffic | sregym/generator/logs.py:172-213 | recording one request keeps logs, per-minute metrics (request counts, latency sums, latency counts) and totals in agreement |
| HistoryTraffic.RequestMetricsAre | sregym/generator/logs.py:165-196 | recording a request changes each request-following metric by exactly that request's weight in its minute |
| HistoryTraffic.EventsAddUp | sregym/generator/logs.py:165-213 | summing per-key counts over all keys counts every event once |
| HistoryRun.StreamKeeps | sregym/generator/logs.py:472-495 | for every sequence of random choices the whole stream keeps books, logs, metrics and totals in agreement, and no arrival lies in the restart gap |
| HistoryRun.AttemptKeeps | sregym/generator/logs.py:216-274 | any checkout attempt does: limited, failing, invalid or successful, with its webhook accepted, rejected or left out |
| HistoryRun.HookedKeeps | sregym/generator/logs.py:277-302 | the three outcomes of the gateway's call do |
| HistoryRun.RefusedAreGapArrivals | sregym/generator/logs.py:482-492 | over the stream the 502 lines of the access log are, in order, exactly the main-loop arrivals between 2.6 seconds before a restart and 30 milliseconds after it, or to the end when the service stays down |
| HistoryRun.RefusedInHistory | sregym/generator/logs.py:472-527 | over a whole history they still are: bot scans and probes add none |
| HistoryRun.RetryInGapIff | sregym/generator/logs.py:338-346 | a retry is simulated inside the gap if and only if some purchase that arrived in the window and outside the gap has a burst of which a retry, before the end of the history, falls into it |
| HistoryRun.HookInGapIff | sregym/generator/logs.py:277-284 | a simulated gateway call lies in the gap exactly when the service never came back and the call comes a second or more after the restart; after an ordinary restart none does |
| HistoryRun.StreamTracks | sregym/generator/logs.py:216-284 | after any stream the attempts counted per user and minute are those of the arrivals and their bursts, and a gateway call was recorded late in a dead service's outage exactly when one of these attempts passes the limit, captures a payment and has its call there |
| HistoryRun.GapIsQuietIff | sregym/generator/logs.py:461-527 | no request of a whole history lies in the gap if and only if no burst reaches into it and no captured payment has its gateway call late in the outage of a service that stays down; both are conditions on the random choices alone |
| HistoryRun.RetryLandsInGap | sregym/generator/logs.py:338-346 | an input that fails it after an ordinary restart: a purchase three seconds before the restart with a retry 1.5 seconds later |
| HistoryRun.HookLandsInDeadGap | sregym/generator/logs.py:461-466 | and one with a service that stays down: the gateway's call two seconds after the restart is answered 200 inside the gap |
| HistoryRun.ProbesKeep | sregym/generator/logs.py:497-527 | probes and bot scans outside the gap keep the agreement too |
| HistoryOutcomes.HistoryFollows | sregym/generator/logs.py:216-302 | a whole history is what was asked of the service, step by step: every attempt is answered 429 exactly when the user's attempts of that minute exceed the limit, else 500 exactly when the endpoint fails, else 422, 400, 404 or 201 by its draw; every other page 500 exactly when it fails; the gateway calls exactly for the captures whose call is due, accepted or refused as the fault says; the probes are those outside the gap; and orders, items, both payment lists, settlements and their times are exactly those of the successful attempts, in order |
| HistoryOutcomes.NothingSoldWhileFailing | sregym/generator/logs.py:235-249 | no order lies at a time when checkouts fail, and every request to a failing endpoint is answered 500, or 429 at the checkout |
| HistoryOutcomes.AttemptFollows | sregym/generator/logs.py:216-274 | one attempt: the answer, the sale and the gateway's call that the limit, the fault and the draws prescribe |
| HistoryOutcomes.CapturedBooks | sregym/generator/logs.py:251-302 | a capture puts the next sale into the books: next id, its items, its payment in the list of its time, its settlement when the gateway's call is due and accepted |
| HistoryNotices.HistoryNotices | sregym/generator/logs.py:165-196 | in a whole history the warnings of the log stand at the times of the refusals, in order; in every minute the rate-limit and signature counters are the numbers of 429 and 401 responses, and the database errors the failed requests and degraded probes |
| HistoryNotices.RefusalAgrees | sregym/generator/logs.py:230-234 | a refusal adds one warning, one count and one response |
| History.GenerateHistory | sregym/generator/logs.py:441-553 | a whole history with its insertion: it is what was asked of the service (`HistoryOutcomes.Follows`), and all agreements hold; the request counters of the table sum to the recorded requests and errors; the refused lines are the arrivals in the gap; the gap is quiet under the exact condition; the gauges of every minute are the service's state and the rows before the minute's end, the row counts never fall, the payments gauge ends at the number of rows the insertion leaves and the settlements gauge at the old rows and those confirmed in the ledger |
| History.Sim.RecordRequest | sregym/generator/logs.py:172-213 | recording appends the access event, the access-log line unless it is a health probe, and bumps metrics and totals |
| History.Sim.CheckoutAttempt | sregym/generator/logs.py:216-274 | the attempt with its limiter, the failing endpoint and the random thresholds computes the specified next state, whose answers and sales `HistoryOutcomes.HistoryFollows` gives |
| History.Sim.Purchase | sregym/generator/logs.py:251-270 | the item loop and the payment's choice of list compute the specified books |
| History.Sim.GatewayWebhook | sregym/generator/logs.py:277-302 | the webhook's early returns, rejection and acceptance |
| History.Sim.SimulateRequest | sregym/generator/logs.py:322-376 | one arrival with its burst of retries up to the end of the history |
| History.Sim.Stream | sregym/generator/logs.py:474-495 | the main loop: skipped outside the window, refused in the gap, simulated otherwise |
| History.Sim.Probe | sregym/generator/logs.py:511-527 | the probe loops |
| History.Sim.WriteGauges | sregym/generator/logs.py:528-553 | the gauge loop writes every minute's ledger gauge once and touches no request metric |
| History.Databases.InsertOrders | sregym/generator/logs.py:715-743 | the insertion appends orders, items and both payment lists, and the settlements of the payments in the same database unless their reference is already there |
| History.GaugesGrow | sregym/generator/logs.py:531-553 | a row gauge never falls from one minute to a later one |
| History.UpIff | sregym/generator/logs.py:533-542 | the `up` gauge of a minute is 0 if and only if the service is down at each of its moments, three quarters if and only if not and an outage begins in it, else 1 |
| History.GaugeIsNumberBefore | sregym/generator/logs.py:531-553 | a row gauge is the old rows plus the number of times before the end of its minute |
| History.InsertedFacts | sregym/generator/logs.py:725-740 | inserting settlements keeps the table, adds only accepted ones, none twice by reference, and leaves no accepted reference out |
| History.GaugeCountsRows | sregym/generator/logs.py:531-553 | from the last minute on the payments gauge counts the old rows and all inserted ones, the settlements gauge the old rows and the settlements confirmed in the ledger |
| Sections.RenderSections | sregym/generator/app_source.py:56-75 | the stack machine with its two errors |
| Sections.RendersForests | sregym/generator/app_source.py:56-75 | rendering succeeds if and only if the marked lines are the flattening of a section forest, and then yields that forest's recursive evaluation |
| Sections.EvalChooses | sregym/generator/app_source.py:71-72 | the lines printed are exactly those whose enclosing sections are all wanted, in order |
| Sections.ErrorsNameTheSection | sregym/generator/app_source.py:65-75 | a file whose sections stay open fails with their names, outermost first, and one with a section closed out of turn with that section's name |
| Sections.MarkIff | sregym/generator/app_source.py:61-67 | a line opens or closes a section if and only if it is the mark, white space and the name, between white space |
| Sections.PieceEnds | sregym/generator/app_source.py:60 | each piece is a line with its break, whatever the break; CR LF is one |
| Sections.ScanFlatten | sregym/generator/app_source.py:60-73 | running the machine on a flattened forest emits its evaluation and leaves the stack as it was |
| Sections.ReadForest | sregym/generator/app_source.py:60-75 | whatever the machine accepts can be read back as a forest |
| Sections.EvalGrows | sregym/generator/app_source.py:71-72 | a larger include set yields a supersequence |
| Sections.RevisionsOnlyAddLines | sregym/generator/app_source.py:186-207 | along the planned revisions each rendering of a file only adds lines |
| Sections.ErrorsIgnoreWanted | sregym/generator/app_source.py:65-74 | whether and how rendering fails does not depend on the include set |
| Sections.JoinSplit | sregym/generator/app_source.py:60 | splitting with line ends kept and joining gives the text back |
| EnvFile.ParseEnvFile | sregym/util.py:19-41 | the parser's loop: comments, `export`, quotes, later keys winning |
| EnvFile.PrintLayout | sregym/generator/app_source.py:132-141 | the printer's loop writes the groups that have a key, in layout order |
| EnvFile.RoundTrip | sregym/generator/app_source.py:132-141 | parsing the rendered file gives every layout key's value back if and only if each of those values is stripped, on one line and not wrapped in quotes |
| EnvFile.ValueSurvivesIffClean | sregym/util.py:36-38 | a single-line value survives its line exactly when it is stripped and not wrapped in quotes |
| EnvFile.BindingLine | sregym/util.py:34-40 | a `KEY=VALUE` line binds exactly that key to the stripped and unquoted value |
| EnvFile.WrittenLine | sregym/util.py:26-41 | with white space around everything, `export` before the key and quotes around the value, a line binds the key to the unquoted value |
| EnvFile.UnquotedIff | sregym/util.py:36-38 | one pair of equal quotes is taken off and nothing else is changed |
| EnvFile.NothingBound | sregym/util.py:26-41 | comments, blank lines and lines without a key bind nothing |
| EnvFile.GroupShown | sregym/generator/app_source.py:132-141 | a group is printed under its header, a line for each key with a value, and left out if and only if none has one |
| EnvFile.CutKeepsABoundary | sregym/util.py:26-41 | cutting the file at a line boundary yields the same map restricted to the kept keys |
| EnvFile.TornBinding | sregym/util.py:26-41 | a proper prefix of a `KEY=VALUE` line binds nothing, or binds that key to something shorter than its value |
| TruncatedEnv.Interrupt | sregym/faults/truncated_env.py:74-85 | the interrupted write: the cut after the databases header or after DATABASE_URL, and the torn part of the next line with its length limits |
| TruncatedEnv.InterruptedWriteLosesTheLedger | sregym/faults/truncated_env.py:74-85 | for every service name in the title that does not imitate the databases header: after either interruption, torn or not, the service never reads the true ledger URL; the core URL survives in the one variant and is not the true one in the other; every other binding that is left is a true one |
| TruncatedEnv.ParseTorn | sregym/faults/truncated_env.py:81-84 | the torn fragment adds at most one binding, of that line's key, to something shorter than its value |
| TruncatedEnv.CutPoints | sregym/faults/truncated_env.py:76-79 | where the two variants cut the production layout |
| TruncatedEnv.LayoutIsGood | sregym/generator/app_source.py:115-129 | the production layout, and the title with any one-line service name, meet the printer's and parser's assumptions |
| RateLimiter.Limiter.Allow | sregym/generator/templates/checkout-service/checkout/main.py:298-306 | the answer is exactly whether the attempts by that user in that window since its last eviction, plus this one, are within the limit |
| RateLimiter.Limiter.Evict | sregym/generator/templates/checkout-service/checkout/main.py:301-303 | exactly the keys of older windows go |
| RateLimiter.LiveIsTotalIffNotEvicted | sregym/generator/templates/checkout-service/checkout/main.py:298-306 | the evicting map agrees with a counter that never evicts if and only if no attempt in a later window came in between |
| RateLimiter.AnswersAgreeIff | sregym/generator/logs.py:223-234 | service and simulator answer an attempt alike under every limit if and only if nothing of that user and window has been evicted before it; windows nondecreasing in lock order evict nothing |
| RateLimiter.FirstAttemptsPassIff | sregym/generator/templates/checkout-service/checkout/main.py:298-306 | under every limit exactly as many attempts of a user in a window pass as the limit allows, if and only if no attempt of that user and window comes after some of them were evicted |
| RateLimiter.OrderedRevivesNothing | sregym/generator/templates/checkout-service/checkout/main.py:298-306 | with windows nondecreasing in lock order that never happens |
| RateLimiter.AtMostTwiceTheLimit | sregym/generator/templates/checkout-service/checkout/main.py:290-306 | at most twice the limit passes in any 60 seconds, unless an attempt in one of the two windows comes after an eviction there |
| RateLimiter.ThriceTheLimit | sregym/generator/templates/checkout-service/checkout/main.py:298-306 | an input where it does: three attempts pass within 60 seconds with a limit of one |
| RateLimiter.StaleWindowPassesAgain | sregym/generator/templates/checkout-service/checkout/main.py:299-303 | a clock read before the lock and used after it lets a user pass twice with a limit of one |
| RateLimiter.BurstStaysInOneWindow | sregym/verifier/verify.py:297-299 | a burst that takes under 20 seconds stays in one window |
| RateLimiter.HttpBurst | sregym/verifier/verify.py:290-305 | the probe passes if and only if the attempts already counted in its window plus the burst fit the limit |
| Wilson.ClampsAreRedundant | sregym/harness/sweep.py:417-424 | the unclamped endpoints lie in [0, 1] and bracket k/n, so neither clamp changes anything |
| Wilson.EndpointsSolveScoreEquation | sregym/harness/sweep.py:420-424 | the endpoints are exactly the two roots of (k/n - x)^2 = z^2 x (1 - x) / n |
| Wilson.FailuresMirrorSuccesses | sregym/harness/sweep.py:417-424 | exchanging successes and failures exchanges the endpoints with their complements |
| FaultComposition.Merge | sregym/faults/composed.py:69-80 | the merge loop over both members: stamped overrides with later members winning, the last burst with its member's scope |
| FaultComposition.MergeFaithfulIff | sregym/faults/composed.py:69-113 | on every endpoint and at every time the merged incident's state is that of the last member overriding the endpoint, its onset rounded down to the second, if and only if the members' bursts are compatible, which holds whenever only the second member has one |
| FaultComposition.MergePreservesStates | sregym/generator/logs.py:305-319 | the same for one endpoint and time |
| FaultComposition.FailsIff | sregym/generator/logs.py:305-319 | when an endpoint fails: only if it is named and from its onset on; then always, or with a burst on it exactly in one stretch of each period after the burst's start; the override is told exactly while it fails |
| FaultComposition.MergedFacts | sregym/faults/composed.py:81-95 | the merged incident names the endpoints of both members and begins at the earlier onset |
| FaultComposition.RoundingMovesTheOnset | sregym/util.py:100-101 | rounding changes a burst-free member's state exactly on its failing endpoints within the lost fraction of a second |
| FaultComposition.DedupeChecks | sregym/faults/composed.py:35-43 | the loop keeps the first check of every claim |
| FaultComposition.DedupeKeepsClaims | sregym/faults/composed.py:35-43 | exactly the claims of the input remain, each once |
| FaultComposition.DedupeKeepsFirst | sregym/faults/composed.py:35-43 | the check kept for a claim is the first that makes it, and the kept ones stay in order |
| FaultComposition.PrefixChecks | sregym/faults/composed.py:116-130 | renaming, shrinking file guards by the sibling's files and dropping empty ones |
| FaultComposition.PrefixedPasses | sregym/faults/composed.py:116-130 | the renamed list passes exactly when the member's list passes without the files its sibling may change |
| FaultComposition.PrefixedNames | sregym/faults/composed.py:116-130 | each check of the renamed list is one of the member's, its name the tag, a colon and the old name, and none guards an empty list of files |
| FaultComposition.MergedListPassesIff | sregym/faults/composed.py:132-135 | the merged list passes if and only if both members' lists do, each without the files its sibling may change |
| Verdicts.Run | sregym/verifier/verify.py:80-97 | all checks of all criteria are run, a crash is a failure, and success means that every single one passed |
| Verdicts.RewardTellsTheOutcome | sregym/verifier/verify.py:63-67 | equal rewards mean equal outcomes, except that collateral damage does not show when nothing was fixed; 1 means full success |
| Verdicts.RewardAddsUp | sregym/verifier/verify.py:63-67 | the symptom alone earns 0.3 and the root cause alone 0.7, the two add up, and collateral damage halves |
| CronFields.FieldMatches | sregym/runtime/cron.py:24-38 | the loop over the items with its early answers and the division by a zero step |
| CronFields.FieldIsUnion | sregym/runtime/cron.py:24-38 | on well-formed items with positive steps the answer is membership in the union of their progressions |
| CronFields.PartIsProgression | sregym/runtime/cron.py:29-37 | one item answers yes exactly for start, start + step, ... up to its end |
| CronFields.FieldAnswers | sregym/runtime/cron.py:24-38 | on any field the answer is yes if and only if some item lists the value and it and every item before it are well formed and do not divide by zero, and a division by zero if and only if an item that divides comes first |
| CronFields.ParsedIff | sregym/runtime/cron.py:21-33 | an item is accepted, and read as these numbers, if and only if it is `*` or a number, perhaps a dash and a number, perhaps a slash and a number |
| CronFields.WrittenFieldMatches | sregym/runtime/cron.py:24-38 | a field written from items with positive steps matches exactly what they select: `*` the range, `a` itself, `a-b` the numbers between, `/n` every n-th from the start up to the end or, without an end, the top of the range |
| CronFields.PlainNumberMatchesItself | sregym/runtime/cron.py:32-37 | a field of digits matches exactly its own number |
| CronRunner.Loop.Poll | sregym/runtime/cron.py:93-102 | one pass of the loop ticks at most the reading's minute and keeps the record of ticks exact |
| CronRunner.TickedTwiceIff | sregym/runtime/cron.py:91-102 | a minute is ticked twice if and only if, among the readings past the first second of their minute, one lies in it, a later one in another minute, and one after that in it again |
| CronRunner.NoMinuteTwice | sregym/runtime/cron.py:91-102 | with a clock that never goes back no minute is ticked twice |
| CronRunner.TicksAreReadings | sregym/runtime/cron.py:91-102 | the minutes ticked are exactly those of the readings past the first second of their minute, whatever the clock does |
| CronRunner.NoMinuteSkipped | sregym/runtime/cron.py:91-102 | with readings at most 59 seconds apart every minute between the first reading's and the last one's is ticked, even if the clock goes back |
| CronRunner.MinuteTwiceWhenClockGoesBack | sregym/runtime/cron.py:91-102 | a concrete run: a clock set back by a minute ticks a minute twice |
| CronRunner.Tick | sregym/runtime/cron.py:104-109 | the entries a tick starts, in order, up to an entry that divides by zero |
| CronRunner.CheckCronJobDisabled | sregym/verifier/verify.py:183-198 | the check passes if and only if every entry whose command contains the script has a minute and an hour of digits only |
| CronRunner.ContainsIff | sregym/verifier/verify.py:183-198 | the script is contained in a command exactly when the command is some text, the script, and some text |
| CronRunner.StartedIff | sregym/runtime/cron.py:104-109 | an entry is started if and only if it matches and no entry before it divides by zero |
| CronRunner.WrittenScheduleMatches | sregym/runtime/cron.py:41-45 | a written schedule matches exactly in the minutes whose minute, hour, day of the month, month and weekday are each selected by the field for it, within 0-59, 0-23, 1-31, 1-12 and 0-7; all five must agree |
| CronRunner.TwiceADayIff | sregym/verifier/verify.py:183-198 | under a crontab that passes the check an entry for the script is started twice on a calendar day if and only if the clock came back to a minute in which it starts |
| CronRunner.AtMostOncePerDay | sregym/verifier/verify.py:183-198 | with a clock that never goes back each such entry is started at most once per calendar day |
| CronRunner.ScriptsExcludeThemselves | sregym/runtime/cron.py:119-149 | in every interleaving of job threads at most one instance of each script is live, and the running set is exactly the live scripts |
| CronRunner.SkippedIff | sregym/runtime/cron.py:131-135 | a thread that asks to enter is skipped if and only if an instance of its script is live, and otherwise enters |
| CronRunner.RunsThrough | sregym/runtime/cron.py:131-148 | a thread that has entered runs its child, ends, and leaves the script free, and no other thread moves |
| Episode.RunEpisode | sregym/harness/episode.py:157-200 | the loop ends, asks for at most one turn more than the step budget, executes exactly the prescribed prefix of the calls it was given, and ends for exactly the reason it reports: an agent that stops, a second turn without calls, a terminal result, a spent step or token budget, or a crash; no earlier turn gave one of them |
| Episode.ExecutesAPrefix | sregym/harness/episode.py:172-193 | what is executed is the calls up to and including the first terminal one, or as many as the budget (at least one) allows |
| Episode.BudgetFacts | sregym/harness/episode.py:187-193 | a budget below one still allows one step |
| Episode.StepsFollow | sregym/harness/episode.py:172-182 | every executed call acts on the world that the one before it left, and its result is recorded with it |
| Episode.NothingAfterTheEnd | sregym/harness/episode.py:187-195 | later calls change nothing once the prefix has ended |
| Episode.OnCallToolset.Call | environments/sregym_env/sregym_env/servers/oncall.py:112-128 | a call executes and records one step, or does nothing once there is a verdict; the verdict is set at a terminal result or a spent budget |
| Episode.ServerExecutesThePrefix | environments/sregym_env/sregym_env/servers/oncall.py:107-128 | over any stream the server executes the same prefix, judges the world and steps at that moment, and neither executes nor judges again |
| Episode.DriverAndServerAgree | environments/sregym_env/sregym_env/servers/oncall.py:112-128 | driver and server end with the same steps and the same world on the same calls, for every stop but a spent token budget also when the server is sent further calls |
| QueryMetrics.ChooseStep | sregym/tools/query_metrics.py:74-80 | window and step are the arguments brought into their ranges, and the widening loop ends with at most sixty buckets, never narrowing the step |
| QueryMetrics.Clamp | sregym/tools/query_metrics.py:74-78 | a missing or zero argument is the default, any other is brought into the range |
| QueryMetrics.StepIsLeast | sregym/tools/query_metrics.py:79-80 | the loop stops at the least of the given step and the standard ones that fits |
| QueryMetrics.RowsHaveOneBucket | sregym/tools/query_metrics.py:86-88 | every row in the window is in a bucket the display visits, in the minutes that bucket stands for; at most sixty are visited |
| QueryMetrics.BucketsDisjoint | sregym/tools/query_metrics.py:147-162 | two displayed buckets never share a time |
| QueryMetrics.Aggregate | sregym/tools/query_metrics.py:124-133 | the table has a cell exactly where a matching row falls, holding the sum and the count of those rows |
| QueryMetrics.CellsAddUp | sregym/tools/query_metrics.py:120-162 | the cells of a counter, over all displayed buckets and all groups, add up to the matching rows |
| QueryMetrics.ErrorSums | sregym/tools/query_metrics.py:97-107 | numerator and denominator tables of the error rate |
| QueryMetrics.ErrorRates | sregym/tools/query_metrics.py:97-110 | the error-rate table, zero where the denominator is zero |
| QueryMetrics.ErrorRateIsPercentage | sregym/tools/query_metrics.py:107-110 | for samples that are not negative an error rate lies in [0, 100], and is 100 exactly when all of the cell's volume is errors |
| QueryMetrics.FilterKeeps | sregym/tools/query_metrics.py:91-92 | without filters a row matches by its name; one more filter keeps the rows with that text under the label, where a row without the label has the text None |
| QueryMetrics.ColumnIsFiltered | sregym/tools/query_metrics.py:91-133 | a column of a table split by a label is the table of the query filtered to it, in sums, samples and errors |
| QueryMetrics.ServerErrorIff | sregym/tools/query_metrics.py:106-107 | the errors are the three-digit statuses from 500 to 599 |
| QueryMetrics.ErrorsAreErrorRows | sregym/tools/query_metrics.py:105-107 | the numerator is the sum of the rows that are errors |
| QueryMetrics.GaugeWithinBounds | sregym/tools/query_metrics.py:134-138 | a gauge cell's mean lies between any bounds of its samples |

## Left out

- HTTP, subprocesses, signals, git, files and threads as such: they appear as abstract state, inputs and steps.
- SQLite beyond tables, a single core writer and commit or rollback; its limit on the number of bound variables is not modelled.
- Floating point: sums, averages, latencies and the Wilson interval are over exact reals or thousandths, so rounding is not modelled.
- Regular expressions, file-name patterns, shell-command splitting, JSON and SHA-256: library code, uninterpreted or taken as faithful (digests as injective); the two patterns of the metrics parser are written out by hand.
- Decimal digits and letter case outside ASCII, which Python's `int`, `isdigit` and `\d` also accept.
- The sorted order of keys in the rendered metrics and of groups in a metrics table; the eight-column limit of that table.
- The derived latency average of the metrics query, a quotient of two tables of the kind that `QueryMetrics.Aggregate` builds; the listing of the metrics.
- Page headers, line truncation and time parsing of the log reader; `_line_ts` is a function of the line.
- Crontab splitting into entries, command validation and script digests: entries are given as parsed, a job thread may be rejected at any time.
- The text of log lines and tracebacks, client addresses, the deploy, cron and fleet logs, and the two age gauges of the history simulator.
- The request mix, arrival process and probe times of the history simulator: its arrivals and probes are given as lists with their times.
- The ledger exporter's rows of the collector, which are appended as they come.
- Page texts, incident timelines, root-cause summaries and the remaining fields of a merged incident.
- Language-model adapters, prompts, reports, individual fault templates other than the truncated `.env`, the shell allow-list and the judging of forbidden actions.
- MetricsPipeline.NeverFallsIff: takes label values on one line; what a value with a line break adds to the text, which can be a line of its own, is not modelled beyond `Telemetry.RegistryRoundTripIff`.
- ReadLogs.CursorsTravel: takes the JSON text of a cursor as a faithful encoding; JSON is a library and only the base64 layer is modelled.
- Collector.DeltasTelescope: takes counters that never fall within one process life as given; MetricsPipeline.OneLifeIff says exactly when the registry and its text provide this.
- History.Sim.WriteGauges: models the `up`, payments and settlements gauges, not the two ages, which are the time since the last counted row.
- FaultComposition.MergeFaithfulIff: covers members as the templates write them, with an override for every failing endpoint and no start time or scope of their own in overrides and bursts.
