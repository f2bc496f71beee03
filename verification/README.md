# A verified model of the collector

The collector takes coverage payloads from agents over HTTP, checks and rewrites them, and forwards them to a backend.
This project models its hard parts in Dafny and proves what its comments and documentation promise. The promises are
stated over every input, every schedule or every history, as the case may be.

| file | what it models |
|---|---|
| `Sink.dfy` | the forwarding sink as a state machine: Accept calls, one worker per shard, Shutdown, one step per access to shared state |
| `SinkShard.dfy`, `SinkInvariant.dfy` | what each step keeps, first for one shard, then for the whole sink |
| `SinkTheorems.dfy`, `SinkShutdown.dfy`, `SinkIndependence.dfy` | conservation, order, bytes, counters; bounded shutdown; independence of shards |
| `SinkSteps.dfy`, `SinkRetries.dfy` | what each counter counts, said by the steps of a schedule; which attempts the retry counter misses |
| `SinkDeadline.dfy` | what the deadline of Shutdown does |
| `SinkWitness.dfy` | schedules that show what can happen |
| `ShardLoops.dfy` | reserve, release, enqueue and drain as they are written, tied to the steps of the machine |
| `Ingest.dfy`, `EndToEnd.dfy` | the ingest handler composed with the sink, and the accounting from request to settled payload |
| `IngestOutcomes.dfy` | how a request ends and what it is answered, said by the request itself |
| `Quiescence.dfy` | that handler and sink together can always come to rest |
| `Backoff.dfy` | retry waits, `Retry-After`, and the retry loop of `deliver` |
| `ShardKey.dfy` | the routing key and its decoder |
| `Validation.dfy` | payload validation and the namespace processor |
| `Messages.dfy`, `ConditionParts.dfy` | decoded messages as trees, the paths into them, and the condition parts they lead to |
| `Redaction.dfy` | the redaction processor, on messages changed in place |
| `Limiter.dfy` | the visitor table of the rate limiter |
| `Metrics.dfy`, `MetricsText.dfy` | counters, their text, and a parser that reads the text back |
| `TokenFile.dfy` | the token file parser and the last good value |
| `Utf8.dfy` | code points, their encodings and white space: what valid UTF-8 and trimming mean |
| `GoStrings.dfy`, `Int64.dfy`, `Ints.dfy`, `Payload.dfy`, `Sums.dfy` | byte strings, 64-bit arithmetic, payload labels, sums over sequences |

## How to read the sink

A schedule is a sequence of actions. `CanRun` says that the machine can follow it and `After` gives the state it leads
to. `Reachable` holds of the states that some schedule leads to from some initial state, so a statement about every
reachable state is one about every moment of every interleaving. A run is finite, so the calls that take part in it are
given up front, all idle, in the initial state. HTTP results, timers, the backoff's answer and the order of steps are the
choice of the action. `accepted` and `log` are history fields that no step reads. A request of the handler carries its
payload and the outcome of its checks, and `CallMatches` ties them to the Accept call it makes. The reader-writer lock is modelled without Go's preference for a waiting writer, which
only removes schedules.

## Where the code does not meet its comment

- `backoff.next` adds the elapsed time and the wait before it compares with the budget. When the sum does not fit in 64
  bits it wraps to a negative number, and the wait is not clipped. `BudgetKeptIff` proves, for every setting, that the
  budget is kept exactly when the jittered interval and the hint are both at most the largest duration less the elapsed
  time, and `RunKeepsBudgetIff` lifts that to every wait of every run. `BudgetOverrun` gives the case of
  `Retry-After: 9223372036` one second into the budget. The number of attempts stays bounded even then (`Deliver`).
- The growth and the jitter of an interval are float products that are converted back to a duration. Out of range, the
  language leaves the result to the platform. On amd64 it is the smallest integer, so the interval shrinks exactly when one
  and a half times it does not fit (`GrownKeepsIff`), and from then on waits can be over at once. The collector accepts
  such settings.
- So the retry loop need not end. `EndsIff` proves exactly when it does on amd64: its waits are bounded if and only if the
  first interval is at least two nanoseconds and the loop cannot come to an interval that overflows (`CanOverflow`, which
  follows the shortest waits through the budget). Then the bound holds on every platform (`WaitsBounded`). Otherwise
  `OneNanosecondNeverEnds` and `OverflowNeverEnds` give worlds without end. A longest interval of up to two thirds of the
  largest duration, 194 years, never overflows, nor do a first interval and a budget that stay within it together
  (`RoomyNeverOverflows`).
- `parseRetryAfter` multiplies the seconds without a check. `RetryAfterExactIff` proves that the result is right exactly up
  to 9223372036 seconds.
- The counter's key joins label values with NUL. It splits back exactly when no value holds a NUL (`KeySplitsIff`). A tuple
  shares its series with no other exactly when it has no NUL or the counter has at most one label (`OwnSeriesIff`), and
  `NulCollides` gives two tuples that share one.
- `ForwardRetries` is described as the delivery attempts made after a retryable failure. The final attempt of an item that
  Shutdown found in the retry loop is one too and is not counted. `RetriesExactIff` proves that the counter is right
  exactly when there was no such attempt, `RetriesCounted` that it misses those and no others, at most one per shard, and
  `FinalAttemptNotCounted` gives a schedule.
- `Parse` takes a byte order mark at the start of the first token for the file's (`ParseUndoesPrintIff`).

## Model

| member | source | states |
|---|---|---|
| `SinkShard.ShardInvKeptByWorker` | internal/forward/forward.go:516-592 | every step of runShard, deliver, drain and finalDeliveryAttempt keeps: accepted = settled, then the item in hand, then the queue; events follow the order of acceptance; each item's tally of takes, attempts and settlements fits its stage; at most one late retry attempt |
| `SinkInvariant.LockInvKept` | internal/forward/forward.go:273-280 | closed, stopping and cancelled follow the phases of Shutdown; under the write lock there is no reader; once closed, no call is between its check and its send |
| `SinkInvariant.LinkInvKept` | internal/forward/forward.go:448-471 | a shard's accepted items are exactly those of the calls that queued on it, each routed by its key |
| `SinkInvariant.ShardInvKeptByCall` | internal/forward/forward.go:539-552 | no call step disturbs a shard; in particular nothing is sent to a shard whose worker found its queue empty and ended |
| `SinkInvariant.BytesInvKept` | internal/forward/forward.go:204-231 | every step keeps the counter equal to what the shard holds, and over the limit only one held item is not empty |
| `SinkInvariant.MetricKept` | internal/forward/forward.go:473-502 | every step keeps each counter equal to the settlements and results it stands for |
| `SinkInvariant.InvReachable` | internal/forward/forward.go:263-287 | all of these hold in every state of every schedule |
| `SinkTheorems.ExactlyOnePlace` | internal/forward/forward.go:448-592 | an item is in exactly one place of its own shard (settled, in hand, or queued), once, if its call queued it, and nowhere otherwise |
| `SinkTheorems.ShutdownSettlesEverything` | internal/forward/forward.go:653-676 | when Shutdown returns every worker is done, queues are empty, accepted items are settled in order, byte counters are zero, no call is mid-send |
| `SinkTheorems.RefusedNeverTouched` | internal/forward/forward.go:444-478 | no event of any worker concerns a call that did not queue |
| `SinkTheorems.EventsFollowAcceptance` | internal/forward/forward.go:513-552 | settled is a prefix of accepted, and each take, attempt and settlement concerns the oldest item not settled before it |
| `SinkTheorems.InstanceOrder` | internal/forward/forward.go:376-395 | payloads of one instance are accepted on one shard whatever their run IDs, and everything that happens to the one accepted earlier happens before anything happens to the later |
| `SinkTheorems.QueuedFirstHandledFirst` | internal/forward/forward.go:507-552 | if one call has queued at a moment at which another of its instance has not, then in every continuation it is ahead, and everything that happens to its payload comes first |
| `SinkTheorems.BytesAccounted` | internal/forward/forward.go:199-231 | the counter is the size of all that is held; over the limit one held item is not empty and its size is the counter |
| `SinkTheorems.MemoryBound` | internal/forward/forward.go:79-88 | held bytes never pass shards times the larger of the limit and the largest payload |
| `SinkTheorems.RefusedCounted` | internal/forward/forward.go:473-478 | at any moment ForwardRefused is the number of calls that decided to fail, per label |
| `SinkRetries.RetriesCounted` | internal/forward/forward.go:560-592 | per label, at any moment: attempts whose item was attempted before, with those about to start, are ForwardRetries plus the final attempts of items not taken by drain, and there is at most one of those per shard |
| `SinkRetries.RetriesExactIff` | metrics/counters.go:37-39 | ForwardRetries is the number of attempts after a retryable failure exactly when no item started a final attempt outside drain |
| `SinkRetries.FinalAttemptNotCounted` | internal/forward/forward.go:574-579 | a schedule with one such attempt and a counter of 0 |
| `SinkTheorems.NilCounted` | internal/forward/forward.go:433-502 | once all accepted items are settled, nil results per label are deliveries plus drops over all reasons |
| `SinkSteps.CountersCountSteps` | internal/forward/forward.go:560-592 | after every schedule, per label, ForwardDelivered is the number of attempts that succeeded, each ForwardDropped series the number of steps of its reason, and ForwardRetries the number of waits that ran out |
| `SinkSteps.MarshalDecides` | internal/forward/forward.go:430-442 | a returned call was dropped for not marshaling exactly when its payload does not marshal |
| `SinkSteps.QueueBounded` | internal/forward/forward.go:317-317 | no queue ever holds more than its size |
| `SinkSteps.RouteIff` | internal/forward/forward.go:504-511 | a shard gets exactly the instances whose key's hash leaves its number over |
| `SinkWitness.EveryOutcomeHappens` | metrics/counters.go:33-45 | every series of deliveries and drops comes to 1 in some run |
| `SinkWitness.RetryDelivers` | internal/forward/forward.go:580-591 | a run in which a retry is counted and delivers |
| `SinkWitness.WaitInterrupted` | internal/forward/forward.go:554-559 | a run in which Shutdown interrupts a retry wait and the final attempt delivers |
| `SinkWitness.TwoLateAttempts` | internal/forward/forward.go:516-537 | a run in which an item starts two attempts after stopping closed |
| `SinkWitness.RefusedLate` | internal/forward/forward.go:448-454 | a run in which a call is refused as shutting down |
| `SinkShutdown.AtMostOneItemTriesTwice` | internal/forward/forward.go:554-592 | after stopping closes an item starts at most two attempts, only one item per shard starts two, and no item has two final attempts or two settlements |
| `SinkShutdown.DrainedItemTriesOnce` | internal/forward/forward.go:539-552 | an item settled by drain had exactly one attempt, or none and a shutdown_deadline drop after the context ended |
| `SinkDeadline.CancelledIff` | internal/forward/forward.go:653-676 | the context is canceled exactly when the deadline has passed or Shutdown has seen the workers done |
| `SinkDeadline.DeadlineStopsAttempts` | internal/forward/forward.go:644-651 | after the deadline no continuation starts a final attempt on any shard, and an item that drain takes is settled only as shutdown_deadline |
| `SinkDeadline.DrainedLateIsDropped` | internal/forward/forward.go:644-651 | when Shutdown returns, every item that drain took after the deadline was dropped as shutdown_deadline |
| `SinkShutdown.AttemptsAfterStopping` | internal/forward/forward.go:638-651 | any continuation after stopping closes starts at most one attempt per held item, plus one |
| `SinkShutdown.WorkerStepsBounded` | internal/forward/forward.go:516-552 | any continuation after stopping closes holds at most four worker steps per queued item, plus ten; none left means done |
| `SinkShutdown.ShutdownCanReturn` | internal/forward/forward.go:638-676 | from every reachable state in which Shutdown was called, steps of the lock's readers, the workers and Shutdown alone lead to its return |
| `SinkIndependence.ShardRunsAlone` | internal/forward/forward.go:199-203 | any run cut down to one shard's steps is a run of a one-shard sink and ends in that shard's view of the whole |
| `SinkIndependence.OthersCannotBlock` | internal/forward/forward.go:67-71 | whether a call or worker of a shard can step, and with what effect, depends on that shard's view alone |
| `SinkIndependence.IdleShardTakesAnything` | internal/forward/forward.go:214-225 | before Shutdown a shard that holds nothing accepts a payload of any size |
| `ShardLoops.ShardQueue.Reserve` | internal/forward/forward.go:214-225 | takes n exactly when nothing of any size is held or all that is held, with n, stays within the limit; keeps the count equal to the sizes held, and over the limit only one of them is not 0 |
| `ShardLoops.ShardQueue.Release` | internal/forward/forward.go:227-231 | gives one held size back and keeps that account |
| `ShardLoops.ShardQueue.Enqueue` | internal/forward/forward.go:448-471 | the decision, that only a queued item changes queue and bytes, and that account kept through the rollback |
| `ShardLoops.AloneDecides` | internal/forward/forward.go:448-471 | the machine's call, stepping alone, makes that decision with that effect |
| `ShardLoops.Drain` | internal/forward/forward.go:542-552 | returns a schedule of worker steps that leads from the start to the end, settles all that was queued in order, with at most one attempt each, and releases its bytes |
| `ShardLoops.FinalDeliveryAttempt` | internal/forward/forward.go:682-692 | worker steps that settle the item with one attempt, or with none when the context has ended |
| `ShardKey.BuildKey` | internal/forward/forward.go:387-395 | the builder loop writes the key, and the decoder recovers the instance from it |
| `ShardKey.DecodeIffKey` | internal/forward/forward.go:376-380 | a string decodes to an instance exactly when it is that instance's key |
| `ShardKey.KeyInjective` | internal/forward/forward.go:376-380 | two instances share a key only if they are equal |
| `ShardKey.KeyOfResource` | internal/forward/forward.go:365-395 | resources share a key exactly when trimmed namespace and name and the instance ID agree; the run ID plays no part; a missing resource counts as an empty one |
| `ShardKey.KeyIgnoresSpace` | internal/forward/forward.go:365-374 | white space around namespace and name leaves the key as it is |
| `Payload.LabelsAgree` | ingest/handler.go:59-85 | handler and forwarder count a payload under one label |
| `Payload.LabelsDiffer` | ingest/handler.go:59-85 | the three kinds have three labels and three paths |
| `Utf8.TrimSpaceIff` | internal/forward/forward.go:365-374 | trimming gives t exactly when the string is t with white space characters around it and t has none at its ends |
| `Utf8.BlankIff` | ingest/handler.go:213-220 | a string trims to nothing exactly when it is all white space |
| `Utf8.ValidUtf8Iff` | cmd/otherlode-collector/main.go:515-519 | a string is valid UTF-8 exactly when it is the encodings of Unicode scalar values one after another |
| `GoStrings.DecimalCanonical` | internal/forward/forward.go:387-395 | a printed number has no superfluous zero |
| `Backoff.Backoff.constructor` | internal/forward/backoff.go:42-55 | the first interval is capped at the maximum |
| `Backoff.Backoff.NextWait` | internal/forward/backoff.go:62-81 | the answer, with 64-bit wrap-around and platform conversions, and an interval that stays within its maximum and does not shrink while one and a half times it is a duration |
| `Backoff.GrownKeeps` | internal/forward/backoff.go:76-79 | an interval that may grow by half within a duration never shrinks and never passes its maximum |
| `Backoff.GrownKeepsIff` | internal/forward/backoff.go:76-79 | on amd64 the interval does not shrink exactly when one and a half times it is a duration |
| `Backoff.GrownByHalf` | internal/forward/backoff.go:76-79 | the interval grows by half, up to one nanosecond, until it comes to its maximum |
| `Backoff.DoublesInTwoWaits` | internal/forward/backoff.go:20-29 | in every run the interval at least doubles in two waits, until it comes to its maximum |
| `Backoff.JitterRange` | internal/forward/backoff.go:83-86 | a jittered interval is at least half of it, rounded down, and less than one and a half of it, if that is a duration |
| `Backoff.JitterRangeIff` | internal/forward/backoff.go:83-86 | on amd64 a jittered interval is at least half of it exactly when the product is a duration |
| `Backoff.BudgetKeptIff` | internal/forward/backoff.go:57-75 | for every setting, the wait stays within the budget exactly when elapsed time plus jittered interval and plus hint fit in 64 bits, and then it is the asked wait or ends exactly on the budget |
| `Backoff.RunKeepsBudgetIff` | internal/forward/backoff.go:57-75 | the same for every wait of every run of the loop |
| `Backoff.SaneRunKeepsBudget` | internal/forward/backoff.go:57-75 | when the budget and one and a half times the longest interval fit together, hints that leave room for the budget keep every wait within it |
| `Backoff.BudgetOverrun` | internal/forward/backoff.go:72-74 | a wait past the budget |
| `Backoff.RetryAfterExactIff` | internal/forward/backoff.go:88-101 | delay-seconds, 0 and those beyond 64 bits included, become that many seconds exactly up to 9223372036 |
| `Backoff.RetryAfterSigned` | internal/forward/backoff.go:96-101 | a negative number of seconds is no wait, and a plus sign changes nothing |
| `Backoff.RetryAfterDate` | internal/forward/backoff.go:88-108 | what is no number is a date: the time until it if it is ahead, and otherwise nothing |
| `Backoff.WaitsBounded` | internal/forward/backoff.go:20-29 | in every world, on every platform, waits are at most the budget over half the first interval, rounded up, if the first interval is at least two nanoseconds and none can overflow |
| `Backoff.EndsIff` | internal/forward/backoff.go:20-29 | on amd64 the waits are bounded over all worlds if and only if that condition holds |
| `Backoff.RoomyNeverOverflows` | internal/forward/backoff.go:76-79 | no interval overflows if the longest one, or the first one and the budget together, may grow by half |
| `Backoff.GoesOnIff` | internal/forward/forward.go:573-591 | the loop goes on exactly when the failure is retryable and the budget is not spent |
| `Backoff.Deliver` | internal/forward/forward.go:560-592 | the loop ends within one attempt more than that and settles by the last reply; every earlier reply was retryable and within the budget, and it gives up on a retryable failure exactly when the budget is spent |
| `Backoff.OneNanosecondNeverEnds` | internal/forward/backoff.go:76-86 | with a first interval of one nanosecond no number of attempts is too many |
| `Backoff.OverflowNeverEnds` | internal/forward/backoff.go:76-86 | on amd64, for every setting that can overflow, there is a world in which no number of attempts is too many |
| `Validation.ValidIff` | ingest/handler.go:206-284 | the checks, in whatever order they are made, accept exactly the payloads whose resource and chunk fields are as required, white space around the names aside |
| `Validation.AllowedIff` | cmd/otherlode-collector/main.go:515-539 | the collector starts with exactly the namespaces that are trimmed, valid UTF-8, not empty and no dot segment |
| `Validation.ResolveMeans` | cmd/otherlode-collector/main.go:505-539 | every raw setting: off, invalid, or the value without the white space around it, inserted unless upsert is asked for |
| `Validation.Namespace.Stamp` | internal/processor/namespace.go:80-108 | the resource carries the stamped namespace, nothing else changes, and a mismatch is counted |
| `Validation.StampKeepsValid` | ingest/handler.go:213-284 | a payload that passes validation passes it after the stamp, under every allowed configuration |
| `Validation.StampKeepsUtf8` | cmd/otherlode-collector/main.go:511-519 | under every allowed configuration a namespace that can be encoded can be encoded after the stamp |
| `Validation.StampIdempotent` | internal/processor/namespace.go:80-108 | stamping twice is stamping once |
| `Validation.StampedKeys` | internal/processor/namespace.go:22-33 | under Upsert the key depends only on service and instance; under Insert a named namespace is kept and a blank one filled in |
| `Ingest.SlotInvKept` | ingest/handler.go:318-348 | the semaphore counts the requests between acquire and release and never passes the cap |
| `Ingest.RequestsInvKept` | ingest/handler.go:175-198 | where a request stands determines what its Accept call may have done, and only valid payloads reach the sink |
| `IngestOutcomes.OutcomeIff` | ingest/handler.go:175-198 | exactly which requests end how: by content type, body, decoded message, validity and the result of the Accept call, unless they gave up waiting for a slot |
| `IngestOutcomes.AnswerIff` | ingest/handler.go:286-361 | exactly which requests are answered 415, 413, 400, 503, 202 or not at all |
| `IngestOutcomes.WaitsCounted` | ingest/handler.go:318-341 | after every run "canceled" counts the waits for a slot that the context ended, "busy" those that timed out |
| `IngestOutcomes.GoodRequestAccepted` | ingest/handler.go:170-198 | before Shutdown, with a slot to be had and an idle shard, a good request has a run that ends with 202 and its payload queued |
| `Ingest.CounterInvKept` | ingest/handler.go:286-299 | each ingest counter is the number of requests that ended that way |
| `Ingest.SinkRuns` | ingest/handler.go:24-35 | a run of the collector is, for its sink, a run of the sink |
| `EndToEnd.DecodeCap` | ingest/handler.go:111-135 | at most the cap of requests hold a slot in every interleaving, release never waits, acquire succeeds exactly below the cap, and a waiting request can give up |
| `EndToEnd.RequestsCountedOnce` | ingest/handler.go:286-361 | every ended request is counted once, under its label and outcome |
| `EndToEnd.SinkSeesValidPayloads` | ingest/handler.go:184-195 | what the sink sees is valid before and after the stamp and is routed by the stamped resource |
| `EndToEnd.RoutedAs` | internal/processor/namespace.go:80-108 | a payload is routed by the ID and the name its agent sent, without white space around it, and by the collector's namespace where that applies |
| `EndToEnd.Accounting` | ingest/handler.go:192-198 | when all is quiet, per label, 202 answers are deliveries plus drops over all reasons, and sink rejections are forwarder refusals |
| `EndToEnd.AnsweredFirstHandledFirst` | ingest/handler.go:192-198 | if a request was answered 202 and queued before another of its instance arrived, everything that ever happens to its payload comes first |
| `EndToEnd.RefusedNeverAttempted` | ingest/handler.go:293-299 | a payload not answered 202 was never touched by a worker |
| `Quiescence.CanComeToRest` | ingest/handler.go:318-348 | from every reachable state the arrived requests can end and Shutdown return, without a new request, a request that gives up, or the shutdown deadline |
| `Limiter.RecentKeys` | internal/ratelimit/limiter.go:27-33 | the reference list holds exactly the keys that were used, each once |
| `Limiter.RecentOrder` | internal/ratelimit/limiter.go:27-33 | the reference list is ordered by last use |
| `Limiter.TableIsRecent` | internal/ratelimit/limiter.go:164-186 | after any history the table is a prefix of that list, without repeats, within the cap |
| `Limiter.TableIsLru` | internal/ratelimit/limiter.go:174-182 | without sweeps it is exactly the cap's worth of most recent keys |
| `Limiter.TableTimes` | internal/ratelimit/limiter.go:183-184 | each entry carries the time of its key's last use |
| `Limiter.TableSorted` | internal/ratelimit/limiter.go:167-183 | the table is sorted by last use |
| `Limiter.SweepIsFilter` | internal/ratelimit/limiter.go:216-226 | on a sorted table, stopping at the first fresh entry is filtering |
| `Limiter.SweepExact` | internal/ratelimit/limiter.go:216-226 | after any history a sweep leaves exactly the visitors seen within the threshold |
| `Limiter.Limiter.Listed` | internal/ratelimit/limiter.go:59-62 | map and list hold the same visitors |
| `Limiter.Limiter.RemoveOldest` | internal/ratelimit/limiter.go:176-178 | takes the last visitor out of list and map |
| `Limiter.Limiter.Allow` | internal/ratelimit/limiter.go:167-185 | the table follows the history, the key is in front, a known key keeps its bucket |
| `Limiter.Limiter.EvictStale` | internal/ratelimit/limiter.go:216-226 | the table follows the history |
| `Limiter.LastHeaderValue` | internal/ratelimit/limiter.go:266-275 | empty exactly when every entry is white space, else an entry without the white space around it, after which there is only white space |
| `Limiter.LastEntryWins` | internal/ratelimit/limiter.go:266-275 | an entry after the last comma is the one that counts, whatever stands before it and with or without space around it |
| `TokenFile.Parse` | internal/tokenfile/tokenfile.go:38-49 | the tokens of the data, each one a token |
| `TokenFile.TokenLine` | internal/tokenfile/tokenfile.go:41-47 | a line with a token, with white space around it or not, gives the token in its place |
| `TokenFile.SkippedLine` | internal/tokenfile/tokenfile.go:43-45 | a line of white space, or of a comment after white space, gives nothing |
| `TokenFile.LoadIff` | internal/tokenfile/tokenfile.go:167-176 | a read is good exactly when there is a file within the limit whose tokens pass the check |
| `TokenFile.TokensAreTokens` | internal/tokenfile/tokenfile.go:34-37 | tokens are not empty, trimmed, without line break and no comments |
| `TokenFile.ParseUndoesPrintIff` | internal/tokenfile/tokenfile.go:34-49 | parsing printed tokens returns them exactly when the first does not start with a byte order mark |
| `TokenFile.Open` | internal/tokenfile/tokenfile.go:115-122 | a file exactly when the first read is good |
| `TokenFile.File.Reload` | internal/tokenfile/tokenfile.go:147-165 | last value, failing flag, failure count and apply calls follow the history of reads, and apply gets only tokens that pass the check |
| `TokenFile.AppliedIsChanges` | internal/tokenfile/tokenfile.go:97-108 | apply ran once plus once per change between consecutive good reads, last with the most recent good tokens |
| `TokenFile.HistoryMeans` | internal/tokenfile/tokenfile.go:147-165 | every read is good or counted as a failure, and after the last good one there are only failures |
| `Messages.NodesIff` | internal/processor/redaction.go:159-186 | the messages of a payload are exactly those some path of fields leads to |
| `ConditionParts.ManifestPartsIff` | internal/processor/redaction.go:77-112 | the parts looked at in a manifest are exactly those in the condition or a case label of a branch site of a probe |
| `ConditionParts.BaselinePartsIff` | internal/processor/redaction.go:89-112 | the same for a method of a declared class |
| `Redaction.DropUnknown` | internal/processor/redaction.go:159-186 | no message at any depth keeps unknown bytes, and nothing else changes |
| `Redaction.Redaction.Blocks` | internal/processor/redaction.go:130-140 | all literals, or some pattern matches |
| `Redaction.Redaction.RedactParts` | internal/processor/redaction.go:116-128 | the parts of a block read as they should, the others as before, and the count is that of the parts replaced |
| `Redaction.Redaction.RedactSites` | internal/processor/redaction.go:103-112 | the same for conditions and case labels of all sites |
| `ConditionParts.SitesPartsIff` | internal/processor/redaction.go:103-112 | the parts of branch sites are exactly those in their conditions and in the case labels of their outcomes |
| `Redaction.Redaction.PassManifest` | internal/processor/redaction.go:77-85 | below a manifest, a message in a condition or case label that is a blocked literal reads "…" and keeps its kind, every other keeps its text, unknown bytes are gone everywhere, and the counter grows by the number of messages replaced |
| `Redaction.Redaction.PassBaseline` | internal/processor/redaction.go:89-99 | the same for the methods of every declared class |
| `Redaction.SecondPass` | internal/processor/redaction.go:114-128 | a second pass changes no text and counts all again or none, as its mark is blocked or not |
| `Redaction.Redaction.PassTwice` | internal/processor/redaction.go:77-85 | passing twice leaves a manifest as passing once |
| `Metrics.KeySplitsIff` | metrics/metrics.go:86-96 | a stored key splits into its tuple exactly when no value holds a NUL |
| `Metrics.KeyInjective` | metrics/metrics.go:74-96 | a tuple without NUL shares its series with no other tuple, NULs or not |
| `Metrics.OwnSeriesIff` | metrics/metrics.go:86-96 | a tuple shares its series with no other exactly when it has no NUL or at most one value |
| `Metrics.NulCollides` | metrics/metrics.go:86-87 | two tuples with a NUL that share a series |
| `Metrics.TotalsAgree` | metrics/metrics.go:62-69 | without NULs a series counts what was added to its tuple |
| `Metrics.TotalIsSum` | metrics/metrics.go:62-69 | a total is the sum of what was added, cut to 64 bits |
| `Metrics.Counter.constructor` | metrics/metrics.go:49-55 | a counter without labels has its series from the start |
| `Metrics.Counter.Get` | metrics/metrics.go:86-96 | afterwards the series of the values is there, no series but it is new, and every series holds the total added under its key |
| `Metrics.Counter.Add` | metrics/metrics.go:64-69 | the series follow the history of additions |
| `Metrics.Counter.Value` | metrics/metrics.go:74-84 | the total added under the key, 0 without a series |
| `Metrics.Counter.Render` | metrics/metrics.go:123-148 | header and one line per series, keys in ascending order |
| `Metrics.SortedListUnique` | metrics/metrics.go:107-109 | there is one ascending list of the keys, so the text is stable |
| `Metrics.LessIff` | metrics/metrics.go:128-132 | the order of the keys is that of the bytes at the first difference |
| `MetricsText.UnescapeUndoesEscape` | metrics/metrics.go:154-156 | unescaping undoes escaping, whatever follows the value |
| `MetricsText.HeaderReadsBack` | metrics/metrics.go:123-127 | the header says the counter's name, its help text, whatever bytes that holds, and its type |
| `MetricsText.BlockReadsBack` | metrics/metrics.go:123-148 | a counter's text parses into its samples, whatever parses after it |
| `MetricsText.RenderReadsBack` | metrics/metrics.go:123-148 | the parsed text holds a tuple with a count exactly when that is the tuple's total |

## Left out

- HTTP transport, TLS, redirects, URL checks and request building: an attempt is a success, a permanent or a retryable failure.
- Protobuf encoding and decoding: a payload marshals or it does not, and its body is a byte string given with the call.
- The FNV hash: routing is some function of the key, taken modulo the number of shards.
- Go's writer preference in the reader-writer lock, and later calls of Shutdown, which return at once.
- The backoff's answer inside the state machine: the worker may give up or wait at any retry. `Backoff.dfy` models the answer.
- Floating-point rounding in the backoff: the factors are exact reals and the growth is three halves rounded down.
- HTTP dates in `Retry-After`: the time until the date is a parameter.
- Token buckets of the rate limiter and the normalisation of IP addresses: a bucket is a value that stays with its key.
- Header checks and body reading in the ingest handler: their findings are part of the request.
- The parsing of the namespace action setting.
- The environment processor, bearer authentication, the log sink, health checks, settings and signals: short members.
- Opening and typing the token file: a read is an error or the bytes.
- The registry of counters: one counter's text is modelled, and `BlockReadsBack` composes. The sort in `render` is modelled by repeated selection.
- Fields of a message other than nested messages, unknown bytes, and the kind and text of a part.
- Backoff.WaitsBounded: its condition is exact on amd64 (`EndsIff`). A platform that converts out-of-range numbers otherwise may end in more settings.
- Backoff.Deliver: the same condition, without which the loop need not end.
- Backoff.JitterRange: assumes that one and a half times the interval is a duration. `JitterRangeIff` says what it is for.
- Backoff.GrownKeeps: the same assumption. `GrownKeepsIff` shows that amd64 needs it.
- MetricsText.RenderReadsBack: assumes that counter and label names are made of name characters, as the text format requires.
