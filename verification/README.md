# Verification model of the CloudWatch extension's data path

A Dafny 4.11 model of how the extension writes logs and metrics, how its local listener stores
and answers them, and how its table functions read pages, XML and JSON back. Both ends of most
wires are in the repository, so the main theorems run from one end to the other.

`dafny verify dfyconfig.toml` checks the whole project.

## What is modelled

| area | files |
|---|---|
| byte strings, decimal text, library calls | `Strings`, `JsonTrees`, `TokenSets`, `Doubles` |
| planning and sending log events | `PutPlanner`, `Transport`, `RetryRules`, `SendLogs` |
| the listener's tables, ids and log queries | `Listener`, `ListenerRuns`, `ListenerReplies`, `CloudwatchServer`, `EventIds`, `LogQuery` |
| the paged log scan, and writing followed by reading | `LogsScan`, `LogAnswers`, `WriteThenRead`, `SendThenScan`, `InterleavedWrites` |
| metrics on the wire | `QueryCodec`, `MetricsWire`, `MetricsListener`, `MetricsRoundTrip`, `MetricsBatches` |
| the metric reply and its buckets | `XmlScanner`, `XmlPieces`, `MetricReply`, `MetricBuckets`, `MetricPoints`, `MetricsRequest`, `MetricsThenQuery` |
| the XML parser, its entities and its JSON output | `XmlEntities`, `XmlGrammar`, `XmlParser`, `XmlRoundTrip`, `XmlRejections`, `XmlJson`, `JsonReading` |
| alarms, the service map, Logs Insights | `AlarmRows`, `AlarmScan`, `AlarmColumns`, `ServiceGraph`, `Insights`, `InsightsQuery` |

Main results, one per area:

- `PutPlanner.GreedyIsOptimal`: the greedy split of the sorted events is a partition into acceptable requests with the fewest requests possible.
- `SendLogs.AtMostOnceDelivery`: over every script of interrupts, transport outcomes, credential refreshes and answers, each event is stored at most once, and exactly once after a normal return.
- `RetryRules.CallExactly`: over every policy and script, exactly which turns a call goes on from and how it ends.
- `Transport.AtMostOnceExactly`: over all retry policies, exactly which calls never store anything twice.
- `ListenerRuns.RunsKeepInv`: every interleaving of requests, with ids handed out outside the lock, keeps both tables consistent and all ids unique.
- `ListenerReplies.PutStoresElements`, `FirstEvents`: what each request answers, and which groups, streams and events are there afterwards.
- `LogsScan.ScanAll` and `LogAnswers.ScanAnswers`: paging by offset returns exactly the first `max_rows` rows of one unpaged query, for every page size, and that query exactly the stored rows asked for, in key order.
- `SendThenScan.SendThenScan`: rows sent over a network that loses requests and answers, then scanned page by page: a normal return reads every row back once; an error leaves a prefix of the plan with at least the rows marked ok.
- `InterleavedWrites.InterleavedWriteThenRead`: at every moment of every run beside other requests, a query finds exactly the committed batches, in planned order.
- `MetricsRoundTrip.PutMetricDataRoundTrip`: every datum and dimension survives flattening, encoding, splitting and indexed lookup.
- `MetricsBatches.BodyFitsExactly` and `EstimateHoldsExactly`, with `EstimateCanFallShort`: exactly when a request keeps the service's body limit and when a datum keeps its estimate.
- `MetricReply.ReplyRoundTrip`, `MetricPoints.ClientReadsPoints` and `MetricBuckets.ClientReadsBuckets`: the client reads one point per period that covers a row, with the statistic of exactly those rows, and together they conserve the window's rows.
- `MetricsThenQuery.SentMetricsAskedBack`: metrics sent and then asked for with the client's own request come back in buckets that conserve the sent values.
- `XmlRoundTrip.ParsePrint`: the hand-written parser inverts a printer of decorated documents.
- `XmlEntities.EntityMeaning`: what every entity and numeric reference decodes to.
- `JsonReading.XmlToJsonReads` and `KeysDistinctExactly`: the JSON column is grammatical and means what the element means, and exactly which elements give a repeated key.
- `AlarmScan.NoPageFetchedTwice`, `ScanFinishes`, `ScanReturns`, `AlarmColumns.AsksOn`, `PageShows`; `ServiceGraph.LoadTerminates`, `AllAskedExactly`, `RowOfEdge`; `Insights.ColumnsMeaning`, `CellMeaning`.
- `InsightsQuery.AbandonedIsStopped`: exactly which abandoned queries are sent a stop request.

## How the code is represented

- Strings are sequences of bytes. Where the code passes a string through a C pointer, the model cuts it at its first NUL (`Strings.CStr`), so the theorems need no NUL-free assumption.
- JSON documents are trees. Numbers the listener reads with its JSON accessor go through a double (`Doubles.GetInt`), rounding included.
- SQL statements are filters, stable orders, groups and slices over sequences of rows.
- A remote service is an arbitrary script: for the sender, one turn per send with its outcome, what it stored and any interrupt; for the pagers, the pages in the order they arrive. Threads of the listener are interleaved steps.
- ISO timestamps and decimal doubles are functions with an inverse (`MetricsWire.Formats`, `MetricReply.ReplyFormats`); the theorems that need the inverse, or a length bound, say so for the values concerned.
- Exceptions are error results, in the order the code raises them.
- Where a bitwise OR joins a marker with a payload that shares no bits with it, the model adds them.

Three texts in the sources claim more than the code does. `src/send_metrics.cpp` calls its size
estimate generous; a percent-encoded byte is counted once although it takes three, and
`MetricsBatches.EstimateCanFallShort` gives a request that passes the budget and overflows the
limit. The `%019llu` ids are meant to sort as numbers; `EventIds.EventIdOrder` says for which
pairs they do. `README.md` says that StopQuery is called when a Logs Insights query is interrupted, so
that it is no longer billed; StopQuery checks the same interrupt flag before its first send, and an
interrupt during the sleep does not reach the call at all, so by `InsightsQuery.AbandonedIsStopped`
no interrupted query is sent a stop request.

## Model

| member | source | states |
|---|---|---|
| PutPlanner.FirstErrorPosition | src/cloudwatch_json.cpp:202-213 | the reported error is that of the first offending event; every event before it is acceptable |
| PutPlanner.CheckMeans | src/cloudwatch_json.cpp:202-213 | a message is refused when empty, or when with the 26 bytes a request adds to it it exceeds 1 MiB; the error names its row |
| PutPlanner.ValidateEvents | src/cloudwatch_json.cpp:202-213 | the validation loop reports exactly that error, and none exactly when all messages are non-empty and within the size limit |
| PutPlanner.StableSortIsStable | src/cloudwatch_json.cpp:215-218 | the sorted list is a permutation, sorted by timestamp, and keeps the input order of equal timestamps |
| PutPlanner.StableSortUnique | src/cloudwatch_json.cpp:215-218 | those three facts leave only one list |
| PutPlanner.StableSortInPlace | src/cloudwatch_json.cpp:215-218 | the array is left holding that list |
| PutPlanner.ChargeMeans | src/cloudwatch_json.cpp:223-240 | a request is acceptable up to 10000 events, 1 MiB with 26 bytes on top of each message, and 24 hours |
| PutPlanner.GrowBatch | src/cloudwatch_json.cpp:223-240 | a grown batch obeys all three service limits in unbounded arithmetic, near INT64_MAX included, and could not have taken the next event |
| PutPlanner.PlanSorted | src/cloudwatch_json.cpp:220-244 | the batches are non-empty, tile the list exactly, obey the limits, and none could have been longer |
| PutPlanner.SortAndPlanCloudwatchPutEvents | src/cloudwatch_json.cpp:201-245 | fails exactly on an invalid event, leaving the events alone; otherwise the stable sort, partitioned into maximal acceptable batches |
| PutPlanner.GreedyStaysAhead | src/cloudwatch_json.cpp:220-244 | the k-th greedy batch ends no earlier than the k-th batch of any other acceptable partition |
| PutPlanner.GreedyIsOptimal | src/cloudwatch_json.cpp:220-244 | no contiguous partition into acceptable requests uses fewer requests |
| Transport.DelayBoundStep | src/cloudwatch_client.cpp:332-334 | the closed form 2^n - 1, or 63 + 60 (n - 6) beyond six, is the sum of the first n retry delays |
| Transport.PostBounds | src/cloudwatch_client.cpp:531-627 | for every outcome script: at most retries + 2 sends, at most one credential lookup, and total planned sleep within the closed form |
| Transport.PostBoundsAreTight | src/cloudwatch_client.cpp:531-627 | one script attains all three bounds at once |
| Transport.RunRetriesOnlyRejected | src/cloudwatch_client.cpp:341-373 | a call without retries, or with neither retry option (PutLogEvents and PutMetricData calls), retries only after an outcome that proves the request was turned away; a delivered body is its last send's 2xx |
| Transport.PostStoresAtMostOnce | src/cloudwatch_client.cpp:513-628 | if rejections store nothing, such a call stores every item at most once, and exactly what its last send stored |
| Transport.AtMostOnceExactly | src/cloudwatch_client.cpp:525-530 | over all policies and retry counts: a call stores at most once under every script in which rejections store nothing exactly when it has no retries or neither retry option |
| Transport.CloudwatchClient.SendOnce | src/cloudwatch_client.cpp:535-626 | one turn of the retry loop: its decision, whether the connection survives, and the credentials afterwards |
| RetryRules.CallExactly | src/cloudwatch_client.cpp:531-627 | for every policy, retry count and script: the turns a call goes on from, the turn it stops in, its result, sends and sleep, with the errors, statuses and texts that decide written out |
| RetryRules.ConnectionsWaitedOut | src/cloudwatch_client.cpp:609-626 | under every policy, refused connections up to the number of retries are waited out, with the first delays, and the 2xx behind them is delivered |
| RetryRules.TransportFailsExactly | src/cloudwatch_client.cpp:349-373 | a transport error ends a call exactly where the attempts are used up, or the error is one of three certificate errors of an idempotent call, or none of the four pre-send errors otherwise |
| RetryRules.StatusFailsExactly | src/cloudwatch_client.cpp:336-347 | a status ends a call exactly where the attempts are used up or status and text are none that may be retried, unless it turns the credentials down for the first time |
| RetryRules.DeliveredExactly | src/cloudwatch_client.cpp:531-627 | a call is delivered exactly in a turn it reaches and that is answered with a 2xx |
| Transport.CloudwatchClient.PostInternal | src/cloudwatch_client.cpp:513-628 | the loop computes the specified run; afterwards the connection is that of the last send and the credentials are the latest looked up |
| SendLogs.EventsOfRows | src/send_logs.cpp:224-243 | one event per non-NULL row, in row order, with the row's message and its own time, else the observed time, else that of the call, nanoseconds cut toward zero |
| SendLogs.EventCarriesRow | src/send_logs.cpp:161-185 | an integral own time is taken as it is or cut from nanoseconds, a timestamp always cut; the observed time counts only where the own one is absent, NULL or uncastable |
| SendLogs.CollectEvents | src/send_logs.cpp:229-243 | the row loop builds those events, with these times and messages, and marks exactly the NULL rows invalid |
| SendLogs.MarkBatch | src/send_logs.cpp:256-258 | an acknowledged batch sets ok on exactly the source rows of its events, on top of the earlier batches |
| SendLogs.SendBatch | src/send_logs.cpp:247-255 | a batch is acknowledged, or ends with the error its interrupt, transport run or answer calls for |
| SendLogs.SentExactly | src/send_logs.cpp:247-255 | a batch counts as sent exactly when its call delivered a 2xx that reports no rejection of any kind |
| SendLogs.SendBatches | src/send_logs.cpp:246-259 | sending stops at the first batch not acknowledged, with its error, and ok stands on exactly the rows of the batches before it |
| SendLogs.CloudwatchSendLogs | src/send_logs.cpp:211-260 | the whole call: planning error, or stable sort and maximal batches; a normal return marks ok on exactly the non-NULL rows |
| SendLogs.BatchDeliveries | src/send_logs.cpp:252-255 | an honest remote stores each event of a batch at most once, and exactly once when the batch is acknowledged |
| SendLogs.DeliveriesOfBatch | src/send_logs.cpp:246-259 | an event is stored only by the sends of the batch that holds it |
| SendLogs.AtMostOnceDelivery | src/send_logs.cpp:245-259 | over every outcome script: each event at most once; exactly once in acknowledged batches; never beyond the batch in flight; exactly once everywhere after a normal return |
| Doubles.GetIntMonotone | src/cloudwatch_server.cpp:208-215 | reading an integer through a double keeps order |
| Doubles.GetIntExact | src/cloudwatch_server.cpp:208-215 | it keeps the value exactly when the integer is representable, as all are up to 2^53 |
| Listener.EventIdInjective | src/cloudwatch_server.cpp:1080-1082 | different counter values give different id texts |
| EventIds.EventIdOrder | src/cloudwatch_server.cpp:1039-1082 | for ids m below n, both under 2^64, the text order agrees with the numeric order exactly unless m < 10^19 <= n and m > n / 10 |
| EventIds.EventIdOrderBreaks | src/cloudwatch_server.cpp:1039-1082 | the condition is needed: the last 19-digit id does not sort before the first 20-digit one |
| ListenerRuns.AddRow | src/cloudwatch_server.cpp:788-837 | a row with a new key, whose group has its row, keeps one row per key and every stream under its group |
| ListenerRuns.DeleteKeepsTables | src/cloudwatch_server.cpp:803-818 | deleting a group leaves no stream without its group and no event without its stream |
| ListenerRuns.RetentionKeepsTables | src/cloudwatch_server.cpp:839-853 | a retention policy leaves keys and references alone |
| ListenerRuns.CommitKeepsTables | src/cloudwatch_server.cpp:883-902 | a commit keeps the tables consistent whether it finds, creates or refuses the group and stream |
| ListenerRuns.FreshId | src/cloudwatch_server.cpp:1080-1082 | an id handed out outside the lock collides with no stored or pending row |
| ListenerRuns.StepKeepsInv | src/cloudwatch_server.cpp:775-906 | every step of every request keeps the tables consistent and the ids unique across stored and pending rows |
| ListenerRuns.RunsKeepInvFrom | src/cloudwatch_server.cpp:775-906 | so does every interleaving from any state that satisfies it, with ids to spare, for either auto_create setting |
| ListenerRuns.RunsKeepInv | src/cloudwatch_server.cpp:775-906 | in particular every interleaving from empty tables that hands out fewer than 2^64 ids |
| ListenerRuns.ErrorsChangeNothing | src/cloudwatch_server.cpp:775-906 | a step answered with an AwsError leaves both tables unchanged |
| ListenerRuns.SequentialPut | src/cloudwatch_server.cpp:855-906 | with no other request in between, arrival, allocations and commit give the tables, counter and reply of the whole request |
| ListenerRuns.PutKeepsStore | src/cloudwatch_server.cpp:855-906 | a whole request with an id to spare per element keeps the tables consistent and the ids unique |
| ListenerReplies.CreateGroupMakesIt | src/cloudwatch_server.cpp:788-801 | a new non-empty name is accepted and the group then exists; every other key and every event is as before; a second time is refused |
| ListenerReplies.CreateStreamMakesIt | src/cloudwatch_server.cpp:820-837 | the same for a stream, which needs its group |
| ListenerReplies.DeleteGroupTakesItAway | src/cloudwatch_server.cpp:803-818 | the group, its streams and its events go, nothing else does, and a second time is refused |
| ListenerReplies.RetentionIsSet | src/cloudwatch_server.cpp:839-853 | the days stand on the row of the group alone |
| ListenerReplies.CommitMakesAndAppends | src/cloudwatch_server.cpp:883-902 | refused exactly when auto_create is off and group or stream is missing; otherwise both exist and the rows are appended |
| ListenerReplies.PutStoresElements | src/cloudwatch_server.cpp:855-906 | which requests are refused, with which error and how many ids used up; otherwise every element is stored in order with a fresh id |
| ListenerReplies.FirstEvents | src/cloudwatch_server.cpp:788-906 | from an empty listener without auto_create: group, stream and events are accepted one after the other, and the events are there |
| CloudwatchServerObject.CloudwatchServer.HandleCreateLogGroup | src/cloudwatch_server.cpp:788-801 | the handler takes the tables to those of the specified operation, with its reply, and keeps their invariant |
| CloudwatchServerObject.CloudwatchServer.HandleDeleteLogGroup | src/cloudwatch_server.cpp:803-818 | likewise, over both tables |
| CloudwatchServerObject.CloudwatchServer.HandleCreateLogStream | src/cloudwatch_server.cpp:820-837 | likewise, with its three refusals |
| CloudwatchServerObject.CloudwatchServer.HandlePutRetentionPolicy | src/cloudwatch_server.cpp:839-853 | likewise, touching only the row that stands for the group |
| CloudwatchServerObject.CloudwatchServer.NextEventId | src/cloudwatch_server.cpp:1080-1082 | moves the counter by one, modulo its width, and returns its padded text |
| CloudwatchServerObject.CloudwatchServer.BuildRows | src/cloudwatch_server.cpp:866-881 | rows and counter after the well-formed prefix of the elements; a malformed element keeps the ids it consumed |
| CloudwatchServerObject.CloudwatchServer.HandlePutLogEvents | src/cloudwatch_server.cpp:855-906 | tables, counter and reply of the whole request; the totals move exactly on success; tables stay consistent and ids unique while ids last |
| CloudwatchServerObject.CloudwatchServer.HandleFilterLogEvents | src/cloudwatch_server.cpp:984-1069 | answers the specified page or error and changes nothing |
| LogQuery.SelectMember | src/cloudwatch_server.cpp:1017-1037 | a row is selected exactly when it is stored and meets the WHERE clause |
| LogQuery.OrderByOrdered | src/cloudwatch_server.cpp:1038-1039 | ordering returns the same rows in (timestamp, event_id) order, either way up |
| LogQuery.OrderByIdentity | src/cloudwatch_server.cpp:1038-1039 | rows already strictly in key order stay where they are |
| LogAnswers.PatternAsks | src/cloudwatch_server.cpp:249-268 | whatever the whitespace: a quoted phrase asks for what it quotes, a bare term for itself, JSON patterns and several terms are refused |
| LogAnswers.SelectedAnswers | src/cloudwatch_server.cpp:1017-1039 | an unpaged answer is the stored rows of the group, window, text, prefix and streams asked for, each as often as stored, newest first unless startFromHead is true |
| LogAnswers.FilterAnswers | src/cloudwatch_server.cpp:984-1069 | what a request is refused for; otherwise its page is that answer from the offset on, with the next offset exactly when rows remain |
| LogAnswers.ScanAnswers | src/cloudwatch_server.cpp:1017-1039 | the same of everything a log scan reads, in terms of its bind |
| LogsScan.PageAt | src/cloudwatch_server.cpp:984-1069 | the page behind an offset token is that slice of the unpaged query, with the next offset as token exactly when rows remain |
| LogsScan.TokensDiffer | src/logs_table.cpp:220-225 | tokens of later pages differ from earlier ones, so the repeated-token exit is never taken against the listener |
| LogsScan.LogsScanState.FetchNextPage | src/logs_table.cpp:195-226 | one fetch extends the buffer by the next rows of the query and either finishes or moves the token behind them |
| LogsScan.LogsScanState.FillBuffer | src/logs_table.cpp:344-349 | the fetch loop ends with a row to hand out or the scan over |
| LogsScan.LogsScanState.TakeChunk | src/logs_table.cpp:351-363 | a chunk is the next rows of the query, within the vector size, and empty only when the row limit or the end is reached |
| LogsScan.LogsScanState.CloudwatchLogsScan | src/logs_table.cpp:344-364 | one scan call: those rows, or the listener's error |
| LogsScan.ScanAll | src/logs_table.cpp:344-364 | calling until the empty chunk terminates, and the chunks concatenate to the first max_rows rows of the one unpaged query, for every filter, order and page size |
| WriteThenRead.PutBatch | src/cloudwatch_server.cpp:855-906 | one batch into an existing stream is accepted and appends one row per event with consecutive ids |
| WriteThenRead.SendingStoresAll | src/send_logs.cpp:246-259 | sending the batches in order stores every planned event once, in planned order |
| WriteThenRead.PlannedOrderIsKeyOrder | src/cloudwatch_server.cpp:1038-1039 | the planner's order is the listener's (timestamp, event_id) order |
| WriteThenRead.WriteThenRead | src/cloudwatch_server.cpp:984-1069 | after a plan was sent to a fresh stream, one covering query yields exactly the planned events, event for event |
| WriteThenRead.SendPlanned | src/send_logs.cpp:246-259 | the listener object, given one request per batch, accepts each and holds the planned events |
| WriteThenRead.WriteThenScan | src/logs_table.cpp:195-226 | planning, sending every batch to the listener object and scanning page by page returns the stable sort of the input, or its first max_rows, for every page size |
| WriteThenRead.ReadsBackUnchanged | src/cloudwatch_server.cpp:870-881 | an event comes back unchanged exactly when its timestamp is representable as a double and its message has no NUL |
| SendThenScan.BatchStored | src/send_logs.cpp:247-258 | over a network that loses requests and answers, the listener stores a batch whole and once or not at all, and has stored it if the sender counts it as acknowledged |
| SendThenScan.RunStoresPrefix | src/send_logs.cpp:245-259 | whatever the network does, the listener ends with the events of the acknowledged batches and of at most the one behind them, each once, in planned order |
| SendThenScan.PlannedOncePerRow | src/send_logs.cpp:224-243 | the sorted events are one per non-NULL row, each with its row's message and time |
| SendThenScan.RowReadsBack | src/send_logs.cpp:211-260 | what is read back of a row is its message and its own time where it has an integral one |
| SendThenScan.Listen | src/cloudwatch_server.cpp:855-906 | the listener object, handling what reaches it, ends in the tables and counter of that run |
| SendThenScan.SendThenScan | src/send_logs.cpp:211-260 | rows in, rows back: after a normal return every non-NULL row is marked ok and its event is read back once, in stable order; after an error the scan returns a prefix of the plan that holds at least the rows marked ok |
| InterleavedWrites.OtherStepKeeps | src/cloudwatch_server.cpp:775-906 | a step of another request that does not write to the stream or delete its group leaves the sender's rows and its request alone |
| InterleavedWrites.StepKeeps | src/cloudwatch_server.cpp:855-906 | every step, of the sender or of others, keeps the sender's rows those of its plan so far, with rising ids |
| InterleavedWrites.InterleavedWriteThenRead | src/cloudwatch_server.cpp:855-1069 | at every moment of every interleaving a covering query finds exactly the events of the batches committed by then, in planned order |
| QueryCodec.QueryEncode | src/cloudwatch_client.cpp:33-48 | the loop computes the percent-encoding |
| QueryCodec.FormDecode | src/cloudwatch_server.cpp:306-320 | the loop computes the decoding, malformed escapes included |
| QueryCodec.DecodeEncode | src/cloudwatch_server.cpp:306-320 | decoding undoes encoding on every byte string |
| QueryCodec.DecodePlain | src/cloudwatch_server.cpp:306-320 | a plus is a space, any other byte but a percent sign itself, and so is a percent sign near the end |
| QueryCodec.DecodeEscaped | src/cloudwatch_server.cpp:306-320 | a percent sign and two hexadecimal digits in either case are their byte; a digit and none are that digit |
| QueryCodec.EncodeSafe | src/cloudwatch_client.cpp:33-48 | encoded text consists of unreserved bytes and percent signs |
| QueryCodec.EncodeLength | src/cloudwatch_client.cpp:33-48 | encoding adds exactly two bytes per byte outside the unreserved set of section 2.3 of RFC 3986 |
| QueryCodec.ParseFormBody | src/cloudwatch_server.cpp:324-340 | the split loop builds the map in which later assignments win |
| QueryCodec.FormRoundTrip | src/cloudwatch_server.cpp:324-340 | splitting a joined body gives back every pair, in order |
| QueryCodec.LookupIndexed | src/cloudwatch_server.cpp:576-600 | looking up a decimal index and a dotted key finds exactly that element's field: indices do not run into each other |
| MetricsWire.AppendQueryValue | src/cloudwatch_client.cpp:93-123 | the recursive walk appends the encoded flattening of the tree, or reports its first unsupported value |
| MetricsWire.BuildMonitoringQueryBody | src/cloudwatch_client.cpp:127-146 | the body is the form encoding of action, version and flattened fields, or the error of the flattening |
| MetricsListener.IndexedKeysBounded | src/cloudwatch_server.cpp:576-600 | a finite form runs out of consecutive indices, so the lookup loops end |
| MetricsListener.MetricTable.CollectDimensions | src/cloudwatch_server.cpp:591-600 | the dimension loop reads them up to the first missing name or value |
| MetricsListener.MetricTable.PutMetricData | src/cloudwatch_server.cpp:571-627 | the handler appends the rows read from the body, or changes nothing and names the error |
| MetricsRoundTrip.FlattenDatum | src/send_metrics.cpp:280-298 | a datum flattens to its four scalars and its indexed dimensions |
| MetricsRoundTrip.FlattenRequest | src/send_metrics.cpp:274-309 | a request flattens to the header, the namespace and the indexed fields of every datum |
| MetricsRoundTrip.DatumReadsBack | src/cloudwatch_server.cpp:576-606 | a form holding a datum's fields reads back as its row |
| MetricsRoundTrip.PutMetricDataRoundTrip | src/cloudwatch_server.cpp:571-627 | for every namespace and non-empty datum list, flattening, encoding, joining, splitting, decoding and the indexed lookups recover every datum with every dimension, in order |
| MetricsRoundTrip.DatumReads | src/cloudwatch_server.cpp:578-606 | a datum needs its value; without a time it gets the listener's, without a unit None; an unreadable time is refused |
| MetricsRoundTrip.RequestNeeds | src/cloudwatch_server.cpp:571-610 | a request is refused without a namespace or a first datum |
| MetricsBatches.CollectDimensions | src/send_metrics.cpp:242-269 | service name, then the string attributes in document order; more than thirty, or text that is not JSON, is refused |
| MetricsBatches.DimensionsMean | src/send_metrics.cpp:242-269 | text that is no JSON is refused, and so are more than thirty dimensions where there are attributes, the service among them |
| MetricsBatches.MembersAre | src/send_metrics.cpp:256-263 | members that are not strings are left out and the others keep their order |
| MetricsBatches.TimeUnits | src/send_metrics.cpp:98-103 | which texts are sent as a unit of time or a share |
| MetricsBatches.DataUnits | src/send_metrics.cpp:98-103 | which texts are sent as an amount of data |
| MetricsBatches.OtherUnits | src/send_metrics.cpp:108-113 | anything in braces is a count, and what has no name is None |
| MetricsBatches.GrowRequest | src/send_metrics.cpp:371-381 | a request takes datums up to the count and the byte budget, and could not have taken the next one |
| MetricsBatches.PlanRequests | src/send_metrics.cpp:366-387 | the requests tile the datum list in order, each within its budget and none extensible |
| MetricsBatches.BodyLength | src/cloudwatch_client.cpp:127-146 | the exact length of an encoded request body, from string lengths and reserved-byte counts alone |
| MetricsBatches.EstimateBounds | src/send_metrics.cpp:315-321 | with at most 30 dimensions and 1000 datums a datum's encoded fields take at most its estimate plus two bytes per byte to be escaped |
| MetricsBatches.EstimateHoldsExactly | src/send_metrics.cpp:311-321 | a datum's encoded fields stay within its estimate exactly when digits, number and time texts and escapes fit into what the estimate has to spare |
| MetricsBatches.BodyFitsExactly | src/send_metrics.cpp:366-387 | every request, of one datum or many, stays under the body limit exactly when its encoded fields and namespace leave room |
| MetricsBatches.PlannedBodyFits | src/send_metrics.cpp:366-387 | a planned request of two or more datums keeps the limit whenever the bytes to escape and the namespace leave room; with nothing to escape, always |
| MetricsBatches.EstimateCanFallShort | src/send_metrics.cpp:311-321 | two datums of the unit None with names to escape pass the budget and overflow the body limit |
| XmlScanner.FindFirstMember | src/cloudwatch_client.cpp:171-195 | the depth-counting loop finds the matching close, or reports malformed nesting |
| XmlPieces.FindTag | src/cloudwatch_client.cpp:152-160 | in text made of tags and of characters without a left angle bracket, searching for a tag finds the first such tag |
| XmlPieces.TextBetween | src/cloudwatch_client.cpp:152-160 | XmlText returns what stands between the first opening of a tag and the first closing behind it |
| XmlPieces.FirstMemberContent | src/cloudwatch_client.cpp:171-195 | for any balanced nesting the first member's content is returned up to its own closing tag |
| XmlPieces.MembersReadBack | src/cloudwatch_client.cpp:162-169 | the lazy member pattern recovers a printed list whole and in order |
| MetricReply.PrintReply | src/cloudwatch_server.cpp:690-707 | the printing loop writes the reply text |
| MetricReply.ConvertGetMetricDataXml | src/cloudwatch_client.cpp:213-274 | the conversion: JSON passed through, the parsed series, or the first of its seven ways to fail, the refusal of infinities and NaN by the JSON writer last |
| MetricReply.ReplyRoundTrip | src/cloudwatch_client.cpp:213-274 | for every metric name and row list the client recovers exactly the printed times and values, in order and equal in number, when every value is finite, and fails when one is not |
| MetricReply.LabelIsName | src/cloudwatch_server.cpp:701-704 | for every name: the label the client reports is the name exactly when the name has nothing to escape and no NUL |
| MetricReply.RowsReadExactly | src/cloudwatch_client.cpp:246-256 | the arrays are read exactly when every time and value can be; else the first row that cannot fails the conversion, its value before its time |
| MetricReply.ArraysFit | src/cloudwatch_client.cpp:231-272 | arrays of different lengths are refused, and a row with an infinity or NaN is read but cannot be written |
| MetricBuckets.TotalJoins | src/cloudwatch_server.cpp:651-662 | totals and counts of a split add up |
| MetricBuckets.ExtremesJoin | src/cloudwatch_server.cpp:651-662 | extremes of a split fold |
| MetricBuckets.StartsMeaning | src/cloudwatch_server.cpp:687-689 | the result has exactly the buckets that hold a row, in ascending order |
| MetricBuckets.BucketingConserves | src/cloudwatch_server.cpp:651-689 | per-bucket sums and counts add up to the unbucketed ones, averages do so weighted by their counts, and extremes fold to the global ones, for every period |
| MetricBuckets.WindowsAggregate | src/cloudwatch_server.cpp:671-673 | the windows (a, b] and (b, c] aggregate to (a, c], bucket by bucket |
| MetricBuckets.GetMetricData | src/cloudwatch_server.cpp:631-708 | over any table the handler answers the printed buckets of the query it parsed, or its error |
| MetricBuckets.ClientReadsBuckets | src/cloudwatch_client.cpp:213-274 | the client reads one time per bucket with exactly that bucket's aggregate beside it, and these conserve the window for all five statistics |
| MetricPoints.BucketExactly | src/cloudwatch_server.cpp:687-689 | a row belongs to exactly the multiple of the period that covers its time, mirrored before the epoch |
| MetricPoints.StatisticNamed | src/cloudwatch_server.cpp:651-662 | a statistic is known by its name, the average also by none, and no other text is |
| MetricPoints.RepliedPoints | src/cloudwatch_server.cpp:664-700 | over any table: rising multiples of the period, one for each that covers a row asked for, each with the statistic of exactly those rows |
| MetricPoints.ClientReadsPoints | src/cloudwatch_client.cpp:213-274 | the client reads exactly these points, and fails exactly when one is an infinity or NaN |
| MetricsThenQuery.SentMetricsReadBack | src/cloudwatch_server.cpp:571-708 | the datums of one PutMetricData body, queried over a covering window, reach the client as buckets that conserve exactly the sent values |
| MetricsRequest.FlattenGetRequest | src/metrics_table.cpp:106-146 | the client's GetMetricData request flattens to the header, the query fields with indexed dimensions, and the window |
| MetricsRequest.DimensionText | src/cloudwatch_server.cpp:674-686 | each dimension filter is found under its number, and nothing behind the last |
| MetricsRequest.RequestReadsBack | src/cloudwatch_server.cpp:631-686 | flattened, encoded, joined, split and looked up, the request is the query the client was bound to, or the listener's complaint about it |
| MetricsRequest.WholeSecondsExactly | src/metrics_table.cpp:140-141 | cutting a bound to whole seconds changes nothing for whole-second timestamps exactly when the bound is not negative or is whole |
| MetricsThenQuery.AskedForMatches | src/cloudwatch_server.cpp:664-686 | the listener's WHERE clause takes exactly the datums the caller asked for, in the window as it was given |
| MetricsThenQuery.SentMetricsAskedBack | src/cloudwatch_server.cpp:571-708 | a PutMetricData body and the client's own GetMetricData request both over the wire: the buckets the client reads conserve exactly the sent values, and stand for the rows their times and the period say |
| XmlEntities.XmlEscape | src/cloudwatch_server.cpp:283-304 | the loop computes the escaped text |
| XmlEntities.EscapeSafe | src/cloudwatch_server.cpp:283-304 | escaped text holds no angle bracket and no double quote |
| XmlEntities.Utf8RoundTrip | src/alerts_table.cpp:33-50 | the bytes appended for a scalar value decode, by the rules of section 4 of RFC 3629, to that value alone |
| XmlEntities.Utf8Canonical | src/alerts_table.cpp:33-50 | whatever that decoder accepts is what is appended for its value |
| XmlEntities.GuardIsOverflow | src/alerts_table.cpp:89-92 | the guard before each digit holds exactly when the next value would pass U+10FFFF |
| XmlEntities.ParseNumeral | src/alerts_table.cpp:74-94 | the digit loop never exceeds U+10FFFF and accepts exactly the numerals of the base within it |
| XmlEntities.ResolveEntity | src/alerts_table.cpp:61-103 | the branch over names and numeric references |
| XmlEntities.NamesMean | src/alerts_table.cpp:61-73 | the five named entities of XML 1.0, and no others |
| XmlEntities.DecodeXml | src/alerts_table.cpp:32-114 | one pass over the text, then outer whitespace goes |
| XmlEntities.DecodeEscape | src/alerts_table.cpp:32-114 | decoding escaped text gives the text trimmed, for every text |
| XmlEntities.EntityMeaning | src/alerts_table.cpp:71-101 | a reference becomes UTF-8 exactly when it names a non-zero scalar value, leading zeros allowed; any other stays as written |
| XmlGrammar.SkipMiscMoves | src/alerts_table.cpp:217-220 | the content loop moves past the markup it stopped at, so parsing ends on every input |
| XmlParserObject.XmlParser.SkipMisc | src/alerts_table.cpp:136-155 | whitespace, declarations and comments are skipped; the offset only grows and stays within the input |
| XmlParserObject.XmlParser.ParseName | src/alerts_table.cpp:157-167 | a name up to whitespace, bracket or slash, without its prefix |
| XmlParserObject.XmlParser.SkipTag | src/alerts_table.cpp:173-199 | the attribute loop with its quotes finds the end of the start tag |
| XmlParserObject.XmlParser.ParseNode | src/alerts_table.cpp:169-226 | one element, consuming at least a byte and never more than the input |
| XmlParserObject.XmlParser.ParseContent | src/alerts_table.cpp:200-225 | the content loop: text, children, comments, closing tag, and each way to fail |
| XmlParserObject.XmlParser.Parse | src/alerts_table.cpp:121-127 | the document's element, or why there is none |
| XmlRoundTrip.SkipGap | src/alerts_table.cpp:136-155 | any run of whitespace, comments and declarations before a tag is skipped |
| XmlRoundTrip.TextRecovered | src/alerts_table.cpp:32-114 | an element's text survives escaping, the whitespace around its children, and trimming |
| XmlRoundTrip.NodeReadBack | src/alerts_table.cpp:169-226 | parsing a printed element gives its tree and stops right behind it |
| XmlRoundTrip.ParsePrint | src/alerts_table.cpp:116-231 | the parser inverts the printer, whatever prefixes, attributes, whitespace, comments and declarations the document carries |
| XmlRejections.NotMarkup | src/alerts_table.cpp:121-127 | a document that does not start with a left angle bracket is refused |
| XmlRejections.MarkupDoesNotEnd | src/alerts_table.cpp:136-155 | declarations and comments that do not end are refused |
| XmlRejections.ClosedByItsName | src/alerts_table.cpp:204-213 | an element is closed by a tag of its own local name and fails at any other |
| XmlRejections.ElementDoesNotEnd | src/alerts_table.cpp:200-203 | an element left open is refused |
| XmlJson.EscapeJson | src/alerts_table.cpp:260-288 | the loop computes the JSON string |
| XmlJson.GroupAllMeaning | src/alerts_table.cpp:294-297 | the ordered map holds each child name once, in name order, with its children in document order |
| XmlJson.WriteJson | src/alerts_table.cpp:290-320 | the recursive writer with its loops computes the specified text |
| JsonReading.XmlToJsonReads | src/alerts_table.cpp:290-320 | the text is grammatical JSON (sections 4, 5 and 7 of RFC 8259), in front of anything, and reads as the value the element stands for |
| JsonReading.MembersByName | src/alerts_table.cpp:294-319 | that value has one member per distinct child name, bound to the child's value or to the array of same-named children in document order |
| JsonReading.KeysDistinctExactly | src/alerts_table.cpp:260-297 | for every node with children: the keys are distinct exactly when no two different child names agree outside positions where both hold a question mark or a control byte without a short escape |
| JsonReading.RepeatedKey | src/alerts_table.cpp:281-284 | such a document: it parses, and the object written for it holds the same key twice |
| AlarmRows.DescendantIsFirst | src/alerts_table.cpp:242-253 | the recursive search finds the first element of the name in document order |
| AlarmRows.ParseDimensionsReads | src/alerts_table.cpp:355-377 | the dimensions column is always a grammatical JSON object of the named dimensions, in order |
| AlarmRows.PageRowsWanted | src/alerts_table.cpp:406-428 | every row of a page has the state the page was fetched for |
| AlarmColumns.ColumnsShown | src/alerts_table.cpp:379-405 | each text column holds the text of the first child element of its own name, or nothing |
| AlarmColumns.TypeAndEnabled | src/alerts_table.cpp:383-397 | the type is the document's or that of its container; actions are enabled where the element says true in any case, NULL without it |
| AlarmColumns.MemberTextsChosen | src/alerts_table.cpp:341-353 | the actions are the texts of all members that have one, in order |
| AlarmColumns.RowsChosen | src/alerts_table.cpp:416-424 | the rows of a container are all its members in the state asked for, in order, if that state alerts |
| AlarmColumns.PageShows | src/alerts_table.cpp:406-426 | a page is the metric, composite and log alarms in turn, each with its own type |
| AlarmColumns.TokenShown | src/alerts_table.cpp:427-428 | the next token is the text of the first NextToken element |
| AlarmColumns.AsksOn | src/alerts_table.cpp:492-501 | within a state another page is asked for exactly when the reply names one not asked for yet; otherwise the next state begins |
| AlarmColumns.KeyTells | src/alerts_table.cpp:487-491 | two rows count as one alarm by their ARN, or by type and name without one |
| AlarmScan.FetchKeepsTokens | src/alerts_table.cpp:492-501 | a fetch asks for nothing twice and leaves a next token that was not asked for |
| AlarmScan.NoPageFetchedTwice | src/alerts_table.cpp:472-502 | no page is fetched twice within a state, and a state costs at most one fetch more than the distinct tokens it was given |
| AlarmScan.ScanFinishes | src/alerts_table.cpp:472-502 | against a server drawing its tokens from a finite set, the scan finishes |
| AlarmScan.ScanReturns | src/alerts_table.cpp:476-502 | the rows are the fetched rows with later repetitions dropped: each alarm once, none lost, ALARM before INSUFFICIENT_DATA |
| AlarmScan.AlertsScanState.FetchAlarmsPage | src/alerts_table.cpp:476-502 | one fetch takes the fields to the specified state; a failed one leaves them alone |
| AlarmScan.AlertsScanState.AlertsScan | src/alerts_table.cpp:508-578 | a chunk is the next rows; an empty chunk without a failure means everything was handed out |
| ServiceGraph.LastWithMeaning | src/service_dependencies.cpp:349-354 | the reference map keeps the last loaded service of each id |
| ServiceGraph.RowOfEdge | src/service_dependencies.cpp:355-379 | one row per edge, in service and edge order, its target the last service with that id or else the alias |
| ServiceGraph.EdgeRowShows | src/service_dependencies.cpp:355-379 | which column of the row comes from the source, the edge, the last service with the reference id, or the alias |
| ServiceGraph.ResolveGraph | src/service_dependencies.cpp:348-381 | the loops build those rows |
| ServiceGraph.LoadTerminates | src/service_dependencies.cpp:326-346 | for any finite token set no token is requested twice and loading ends after at most one request more |
| ServiceGraph.LoadedIsConcatenation | src/service_dependencies.cpp:334-343 | the loaded services are those of the fetched pages, in order |
| ServiceGraph.LoadedExactly | src/service_dependencies.cpp:334-343 | whatever pages the server has left, the loaded services are those of exactly the pages asked for |
| ServiceGraph.AllAskedExactly | src/service_dependencies.cpp:334-343 | for every page list: every page is asked for exactly when all pages but the last name a next one, never the same twice |
| ServiceGraph.CutDoesNotMatter | src/service_dependencies.cpp:330-346 | two ways to cut the same services into pages, each with such tokens, load the same services |
| ServiceGraph.SplitDoesNotMatter | src/service_dependencies.cpp:330-346 | splitting one page in two behind a token that comes nowhere else loads the same services |
| ServiceGraph.RepeatedTokenStops | src/service_dependencies.cpp:330-346 | the condition is needed: split behind a token that came before, the page loses its last part |
| ServiceGraph.LoadGraph | src/service_dependencies.cpp:330-346 | the rows are the resolution of the concatenated pages, within that many requests |
| Insights.FirstSeenMeaning | src/logs_insights.cpp:135-143 | the collected names are distinct, exactly the names present, and ordered by where each is first seen |
| Insights.ColumnsMeaning | src/logs_insights.cpp:135-149 | the columns are those names, or the one fallback exactly when every row is empty |
| Insights.CellMeaning | src/logs_insights.cpp:290-308 | a cell is NULL exactly when the row has no field of that name, and otherwise holds the last one |
| Insights.ChunkShows | src/logs_insights.cpp:290-308 | every cell of a chunk shows its row's number, or its row's last field of its column's name, or NULL |
| Insights.CollectNames | src/logs_insights.cpp:136-143 | one row's names join the columns, the position map staying their inverse |
| Insights.IndexRow | src/logs_insights.cpp:154-160 | the index array points every column at the row's last field of that name |
| Insights.CloudwatchInsights.DeriveSchema | src/logs_insights.cpp:134-163 | columns and indices fit the rows |
| InsightsQuery.RunInsightsQuery | src/logs_insights.cpp:92-130 | the polling loop ends at the first turn that ends the query, with its result or error, and calls StopQuery after a failed poll or the deadline |
| InsightsQuery.StatusDecides | src/logs_insights.cpp:113-129 | a reply that is Complete returns its rows, Scheduled and Running are polled again, and any other status ends the query |
| InsightsQuery.PollsBounded | src/logs_insights.cpp:97-129 | if every sleep moves the clock on by the interval, the polls but two, times the interval, stay below the time to wait |
| InsightsQuery.InterruptSeen | src/cloudwatch_client.cpp:531-534 | a call ends interrupted only where one of its looks, before a send or while sleeping, found the flag set |
| InsightsQuery.AbandonedIsStopped | src/logs_insights.cpp:90-130 | with a flag that stays set: an abandoned query is sent its stop request exactly when the flag is clear as StopQuery first looks at it, so never when an interrupt made the client give up |
| InsightsQuery.InterruptedQueryRunsOn | src/logs_insights.cpp:99-112 | the failing case: a query interrupted before its first poll calls StopQuery, which sends nothing |
| InsightsQuery.StartedAtMostOnce | src/cloudwatch_client.cpp:426-432 | if neither rejections nor the limit answer start a query, one call of StartQuery starts at most one |
| Insights.CloudwatchInsights.CloudwatchInsightsScan | src/logs_insights.cpp:285-310 | a chunk is the next rows of the pivoted table, up to the vector size |

## Left out

- HTTP, sockets, gzip, TLS, request signing, secret lookup, catalog entries, bind functions, option and URI parsing, schema lists and column mapping: library plumbing without a property of their own.
- The build for the browser takes another branch of the retry loop (`src/cloudwatch_client.cpp:546-585`): the model follows the native one.
- Texts that are not valid UTF-8: the database's VARCHAR values never are, and the JSON library refuses them.
- Parsing and printing of JSON text by the JSON library, formatting of doubles, and date library calls: trees and inverse pairs stand for them.
- Texts of error messages: an error is its kind and what it names.
- SQL failures inside a handler: deleting a group runs two separate statements, so the table invariant is for statements that do not fail.
- A listener restarted over existing tables: its event counter starts again at zero, so id uniqueness is per server life.
- More than 2^64 event ids in one server life: the run invariant stops there, because an id then comes round again; the single handlers do model the wrap-around.
- DescribeLogGroups and DescribeLogStreams: listings that read the group table and change nothing; no other part of the model depends on them.
- The log scan against an arbitrary remote: only an immediately repeated token is detected there, so termination is claimed for the listener alone.
- The scan loop and columns of src/metrics_table.cpp: its request and the reply it reads are modelled, and the listener answers it in one page.
- The unit in a GetMetricData request: the client sends it, the listener does not look at it.
- The text of the listener's error bodies: SendThenScan answers an error with status 400 and an empty body, which the sender does not retry either.
- The row loop and result marking of send_cloudwatch_metrics: the same shape as in send_cloudwatch_logs, which is modelled; its batching, size estimate and dimension limit are modelled here.
- A metric row with two dimensions of the same name: DuckDB refuses the duplicate map key; the model stores both.
- A timestamp that rounds to 2^63 when read through a double, and a query period or max_wait above the 64-bit range of milliseconds: the conversion or product is undefined in the source; the model computes in unbounded integers.
- Results with 2^31 or more fields in one Insights row: the source narrows the field index to 32 bits.
- Recursion depth of the XML parser and the JSON writer: unbounded here.
- Reading one service or edge of the service map out of its JSON object: field-by-field lookups with defaults.
- The interrupt flag of the database connection: that nothing clears it while a statement runs is a requirement of InsightsQuery.AbandonedIsStopped; the library code that sets and clears it is not part of this model.
- A Logs Insights query whose start was never acknowledged: it has no identifier, so nothing can stop it.
- MetricBuckets.BucketingConserves: adds exact numbers, so the rounding of floating-point sums is not modelled; the aggregate of a bucket holding an infinity or NaN is an arbitrary function.
- Insights.CloudwatchInsights.DeriveSchema: is for a bind whose columns were not derived before, as the source calls it.
- SendThenScan.SendThenScan: is for fewer than 10^19 ids and a window that covers the events as the listener reads them; EventIdOrder and ReadsBackUnchanged state where those end.
