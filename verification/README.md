# Aequi, verified core

Aequi is an LLM gateway: it picks an upstream and one of its keys by weight, sends the request, relays
the answer, and bills what was produced.  This project models the parts of it whose guarantees are
decided by the code itself, and proves those guarantees for all inputs, all runs or all interleavings.

| file | what it models |
|---|---|
| `rounds.dfy`, `sums.dfy`, `scheduler.dfy`, `interleaved.dfy`, `drift.dfy` | smooth weighted round-robin: exact shares, resets, fairness, other lists in between, and a bound when no list is repeated |
| `upstream_state.dfy`, `key_shares.dfy` | the class that keeps accumulators, rate-limit streaks and gates in memory, and how often it names each key |
| `backoff.dfy` | the streak, the length of a cooldown, and the wait a caller is told |
| `lifecycle.dfy` | the health record of an upstream key under reports with outdated copies of the row |
| `gate.dfy` | the concurrency gates of a block, across limit changes, deletion and re-creation |
| `sse.dfy`, `utf8.dfy`, `standard.dfy` | the incremental SSE de-framer against a batch parser, on text and on bytes, and against the WHATWG standard |
| `relay.dfy`, `relay_runs.dfy`, `pipeline.dfy` | the streaming relay against any upstream and a client that may vanish at any send, with its settlement, and fed by the de-framer |
| `dispatch.dfy` | the retry loops, before a stream and for a whole request, and the resending of refused requests |
| `ledger.dfy`, `credits.dfy` | settlement of a call, the ledger under any interleaving, fixed-point credits and prices |
| `usage.dfy`, `estimate.dfy` | merging and completing usage reports, and the local estimator |
| `pagination.dfy` | cursor pagination over a table that grows and is purged meanwhile |
| `schemas.dfy` | cleaning a JSON Schema down to the keywords Google accepts |
| `wrappers.dfy`, `characters.dfy` | small shared types and functions |

Stateful parts are classes whose methods are proved equal to functions of the old state; the theorems are
about those functions, over any number of steps.  What is outside (the network, the upstream, the
database's engine, clocks, randomness, a client that disconnects) is an arbitrary input: a list of stream
items, a list of attempts, a number of sends the client accepts, a list of interleaved steps.

Modelling conventions.  Ids are a datatype around a string.  Estimator weights are integers in hundredths.
Which characters count as letters outside ASCII is a parameter (`letters`).  JSON objects are lists of
members with distinct names.  Counters that the source keeps in 32 or 64 bits are unbounded, except in
`credits.dfy`, where the `i64` limits matter and are written out.

Places where the code, its own comments, or a natural expectation disagree; the model follows the code:

- An upstream error after content writes an error row and, if the charge goes through, a success row, and
  sends no closing frame (`RelayRuns.BothRowsExactlyOnLateFault`, `RelayRuns.BothRowsHappen`).
- A completed total can be less than prompt plus completion, exactly when only the completion was reported
  with a smaller total (`UsageReports.TotalCoversPartsExactly`, `UsageReports.TotalCanBeTooSmall`).
- The entry check reads the copy of the row taken at authentication.  So the calls charged short between
  two top-ups are bounded by the requests *authenticated* on a positive balance when it runs out
  (`Ledger.LeakIsBounded`), and by those already admitted exactly if no other still waits to be admitted
  (`Ledger.AdmittedBoundExactly`).
- A booking on a negative balance raises it to 0, and a free call on a negative balance is refused
  (`Ledger.BookingConservesExactly`, `Ledger.LimitedRefusalExactly`).
- A rejection is counted from the request's copy of the row: the count is exact if and only if the copies
  are up to date (`Lifecycle.CountIsExactIffUpToDate`); concurrent rejections can count once, and an
  outdated copy can disable a key right after a success (`Lifecycle.SharedCopyCountsOnce`,
  `Lifecycle.OutdatedCopyIsReached`, `Lifecycle.OutdatedCopyUndoesSuccess`).
- A request looks its gate up and enters it in two steps, so a gate that has been replaced can still take in
  the requests that looked it up before; it takes nobody in exactly if no such look-up is outstanding
  (`Gates.RetiredGateAdmitsNobodyExactly`, `Gates.RetiredGateDrains`, `Gates.RetiredGateCanFill`).
- `format_multiplier` can print a fraction of 100, which then reads back as a tenth
  (`Credits.MultiplierRoundTrip`, `Credits.MultiplierCanChange`).
- Dropping `prefixItems` makes `items` speak of more elements (`Schemas.ItemsSurviveExactly`,
  `Schemas.DroppingPrefixItemsNarrows`), the nullable mark is lost if the first variant left of an `anyOf`
  is `false` (`Schemas.NullSurvivesExactly`, `Schemas.MarkNeedsAnObject`), and an `anyOf` without variants is
  dropped although it accepts nothing (`Schemas.EmptyAnyOfIsLost`).
- A stream request whose usage option is refused is sent again, whether or not it carried the option.  Two
  requests an attempt is exact only for upstreams that do not refuse twice (`Dispatch.TwoRequestsExactly`),
  and there is no bound for one that keeps refusing (`Dispatch.StubbornRefusals`).
- Before a stream, a status that is neither retried nor accepted ends the run without a note of the block or the
  key it came from (`Dispatch.OtherStatusEnds`).
- A chunk that ends inside a character is an error and its text is lost, so bytes may be cut only between
  characters (`Sse.ByteChunkIndependence`, `Sse.CutCharacter`).
- Section 9.2.6 of the WHATWG HTML Standard drops an event that is open at the end of the stream, and the
  de-framer yields it.  On texts with carriage returns only as part of single CRLF line ends, no byte order
  mark and no `data` line without a colon that is the one difference (`EventStream.AgreesExactlyWhenClosed`);
  each of these other texts has its own (`EventStream.BareDataIsIgnored`, `EventStream.ByteOrderMarkHides`,
  `EventStream.LoneReturnsEndNothing`).
- A stream whose content reached the client can go unpaid: the settlement is refused if the key was disabled
  meanwhile and could have paid, or is gone (`RelayRuns.DeliveredContentIsBookedExactly`,
  `RelayRuns.DeliveredUnpaid`).

## Model

| member | source | states |
|---|---|---|
| Scheduler.PickEffect | src/service/upstream.rs:225-252 | One call lets every candidate collect its weight, chooses the earliest highest one, makes it pay the total, and touches no other id |
| Scheduler.PickKeepsSum | src/service/upstream.rs:225-252 | A call on any list, duplicates included, keeps the sum of all accumulators |
| Scheduler.AnyRunSumsToZero | src/service/upstream.rs:225-252 | Over runs with changing candidate lists from a fresh table the accumulators add up to 0 and only candidates get one |
| Scheduler.ExactShares | src/service/upstream.rs:220-252 | From a fresh state, every window of W consecutive calls, wherever it starts, chooses each candidate exactly as often as its weight |
| Scheduler.ChosenExactlyWhenWeighted | src/service/upstream.rs:220-252 | Within any W calls a candidate is chosen if and only if its weight is positive |
| Scheduler.CycleResets | src/service/upstream.rs:225-252 | W calls bring every accumulator of the candidates back to 0 |
| Scheduler.CyclesReset | src/service/upstream.rs:225-252 | So does any whole number of cycles |
| Scheduler.PrefixFairness | src/service/upstream.rs:225-252 | After k calls an accumulator is k times the weight less W times the choices, above -W and at most (n-1)(W-1) |
| Interleaved.OthersDoNotMatter | src/service/upstream.rs:112-113 | In the one table for all lists, the calls on a list choose what they would choose alone, whatever calls on lists without common ids come between |
| Interleaved.InterleavedShares | src/service/upstream.rs:220-252 | So exact shares hold for the calls on a list among any others without common ids |
| Drift.DriftIsBounded | src/service/upstream.rs:225-252 | After any run on changing lists of distinct candidates from n ids, each of total at most W, any k of the ids together are within k(n-k)W/2 of zero |
| Drift.AccumulatorIsBounded | src/service/upstream.rs:225-252 | So however long the run and whatever lists it uses, one accumulator is within (n-1)W/2 of zero |
| Drift.BoundIsReached | src/service/upstream.rs:225-252 | For two ids the bound is reached |
| Upstreams.UpstreamState.Collect | src/service/upstream.rs:235-245 | The loop over the candidates computes the scan that the theorems are about |
| Upstreams.UpstreamState.Pick | src/service/upstream.rs:225-252 | The stored table and the answer after a call are the ones the theorems are about; without weight nothing changes |
| Upstreams.UpstreamState.Forget | src/service/upstream.rs:255-266 | Exactly the named ids lose their accumulator and their streak |
| Upstreams.UpstreamState.BumpRateLimit | src/service/upstream.rs:273-292 | One more rate limit extends the streak, or starts a new one after more than a minute |
| Upstreams.UpstreamState.ClearRateLimit | src/service/upstream.rs:295-299 | The streak of that key, and no other, is dropped |
| Upstreams.UpstreamState.Replace | src/service/upstream.rs:330-336 | A new gate with all permits free takes the block's place in the table |
| Upstreams.UpstreamState.GateFor | src/service/upstream.rs:325-338 | The block's gates change exactly as in the model of gates: none for no limit, the table's gate of that capacity, else a new one; no other block is touched |
| Upstreams.UpstreamState.InvalidateGate | src/service/upstream.rs:357-361 | Exactly that block's gate leaves the table, as in the model of gates; the gate itself lives on |
| Upstreams.UpstreamState.ReportSuccess | src/service/upstream.rs:1323-1328 | A success clears the streak, the count, the cooldown and the error, not the status |
| Upstreams.UpstreamState.ReportFailure | src/service/upstream.rs:1352-1390 | Which of count, status, cooldown and streak each kind of failure changes, and the wait that is returned; after a rate limit an active key can be selected exactly from the end of that wait on |
| Upstreams.UpstreamState.SelectKey | src/service/upstream.rs:1276-1307 | The selectable keys compete in order; without any, the answer is a wait or unavailability |
| Upstreams.SelectionMeans | src/service/upstream.rs:1267-1320 | A key is named exactly if a selectable one has weight; a wait exactly if none is selectable but an active one is cooling, and then it is positive, no key is back before it is over, and one is then |
| KeyShares.KeysGetTheirShares | src/service/upstream.rs:1276-1307 | While the same keys of a block can be selected, any W selections in a row name each of them exactly as often as its own weight, where W is their weights' sum |
| Backoff.StreakIsLongestSuffix | src/service/upstream.rs:255-299 | After any run the streak of a key is the longest suffix of its rate limits since it was last cleared with gaps of at most 60 s |
| Backoff.CooldownRange | src/service/upstream.rs:56-107 | Cooldowns are 1 to 300 s; a hint is cut to that range and wins over the ladder, which is 10, 15 and then 30 s |
| Backoff.RateLimitedKeyComesBackExactly | src/service/upstream.rs:1379-1386 | Over any run: while a rate limit is the last thing that wrote a key's cooldown, an active key can be selected exactly from the time it named on; after a success or a resume at any time |
| Backoff.EarliestRetryMeans | src/service/upstream.rs:1309-1320 | The wait is that of the first active cooling key to come back |
| Backoff.WaitIsExact | src/service/upstream.rs:1309-1320 | With no key selectable the wait exists exactly if some key is active, no key is selectable before it is over, and one is then |
| Lifecycle.KeyRecord.SetStatus | src/db/block.rs:238-264 | Only a return to active clears count, cooldown and error |
| Lifecycle.KeyRecord.NoteFailure | src/db/block.rs:271-290 | Count and error are written, nothing else |
| Lifecycle.KeyRecord.NoteError | src/db/block.rs:296-309 | Only the error is written |
| Lifecycle.KeyRecord.NoteCooldown | src/db/block.rs:316-335 | Cooldown and error are written, nothing else |
| Lifecycle.KeyRecord.MarkSuccess | src/db/block.rs:387-403 | Count, cooldown and error are cleared, the status is left |
| Lifecycle.KeyRecord.SetNeverDisable | src/db/block.rs:342-359 | Only the exemption changes |
| Lifecycle.KeyRecord.Disable | src/service/upstream.rs:1426-1441 | Count and error are written and the status becomes disabled; the cooldown stays |
| Lifecycle.KeyRecord.ReportHardFailure | src/service/upstream.rs:1395-1420 | The count becomes the copy's plus one, and the key is disabled exactly if that reaches three and the copy is not exempt |
| Lifecycle.CountIsJustified | src/service/upstream.rs:1352-1441 | Over any interleaving with outdated copies, the count never exceeds the rejections and failed tests, and an automatic disabling is under way only after three |
| Lifecycle.NoAutomaticDisablingBelowThree | src/service/upstream.rs:1395-1441 | No automatic step disables a key that was rejected fewer than three times |
| Lifecycle.ExemptKeyIsNeverAutoDisabled | src/service/upstream.rs:1395-1420 | A key exempt all along never has an automatic disabling under way, whatever rejections and failed tests there are |
| Lifecycle.ExemptKeyIsNeverDisabled | src/service/upstream.rs:1395-1412 | If no manual test fails either it is never disabled at all |
| Lifecycle.OnlyResumeReactivates | src/db/block.rs:234-264 | Over any run without a resume a paused or disabled key does not become active |
| Lifecycle.LoadNeverCountsAgainstKey | src/service/upstream.rs:1331-1390 | No number of rate limits and upstream faults changes status or count |
| Lifecycle.RejectionsKeepCooldown | src/db/block.rs:266-290 | Rejections, failed tests, disabling and pausing leave a running cooldown as it is |
| Lifecycle.CooldownIsLastWritten | src/db/block.rs:316-335 | Over any run the cooldown is that of the last rate limit, or none if a success or a resume came after it |
| Lifecycle.ErrorIsLastReported | src/db/block.rs:271-335 | The error shown is that of the last report, or none if a success or a resume came after it |
| Lifecycle.StatusIsLastWritten | src/db/block.rs:234-264 | The status is that of the last pause, resume or finished disabling, and nothing else touches it |
| Lifecycle.ExemptionIsLastSet | src/db/block.rs:342-359 | The exemption is the one last set |
| Lifecycle.CopiesAreKept | src/service/upstream.rs:1395-1400 | The copy a request carries is the row as it was when it was read, and never changes |
| Lifecycle.PendingWrites | src/service/upstream.rs:1395-1441 | Exactly which steps start, finish or lose a disabling write |
| Lifecycle.UpToDateCountIsExact | src/service/upstream.rs:1395-1420 | With up-to-date copies the count is the rejections since the last success or resume |
| Lifecycle.CountIsExactIffUpToDate | src/service/upstream.rs:1395-1420 | All along a run the count is the rejections since the last success or resume if and only if every rejection was reported with an up-to-date copy |
| Lifecycle.DisablesExactlyOnThird | src/service/upstream.rs:1395-1420 | With up-to-date copies a rejection starts the disabling exactly if it is at least the third since the last success or resume |
| Lifecycle.OutdatedCopyUndoesSuccess | src/service/upstream.rs:1396 | With an outdated copy, one rejection after a success can disable the key |
| Lifecycle.SharedCopyCountsOnce | src/service/upstream.rs:1396 | Three rejections reported with the same copy leave the count at 1 |
| Gates.BlockGate.constructor | src/service/upstream.rs:154-160 | A new gate has all its permits free and nobody waiting |
| Gates.BlockGate.InFlight | src/service/upstream.rs:162-166 | On a sound gate the number shown is the number of permits held |
| Gates.BlockGate.Acquire | src/service/upstream.rs:180-208 | A permit at once if one is free, else the last place in the queue; the counter follows |
| Gates.BlockGate.GiveUp | src/proxy/mod.rs:65-73 | A timed-out waiter leaves the queue and the counter, the others keep their order |
| Gates.BlockGate.Release | src/service/upstream.rs:180-187 | A returned permit goes to the first waiter, or is free |
| Gates.EnteringKeepsSound | src/service/upstream.rs:180-208 | Arrivals keep: held plus free is the capacity, the counter is the number of waiters, nobody waits while a permit is free, grants are in order of arrival |
| Gates.GivingUpKeepsSound | src/proxy/mod.rs:65-73 | So do timeouts |
| Gates.ReleasingKeepsSound | src/service/upstream.rs:180-208 | So do releases |
| Gates.EveryGateStaysSound | src/service/upstream.rs:325-361 | All of it for every gate a block ever had, after any run of look-ups, entries, cancellations, timeouts, releases, limit changes and deletions, in any order |
| Gates.InFlightIsBounded | src/service/upstream.rs:117-123 | After any such run the total in flight is at most the capacities of the gates in use plus the current one's, and at most the current capacity while the others are empty |
| Gates.SteadyLimitHolds | src/service/upstream.rs:325-338 | While the limit stays and the block is not deleted, all its requests share one gate and at most the limit are in flight |
| Gates.DeletedGatesStayRetired | src/service/upstream.rs:357-361 | After a deletion none of the gates the block had is handed out again |
| Gates.RetiredGateDrains | src/proxy/mod.rs:57-73 | A replaced or removed gate never returns; its load changes by departures and late entries alone, and the look-ups outstanding when it was retired are used up by late entries and cancellations |
| Gates.RetiredGateAdmitsNobodyExactly | src/proxy/mod.rs:57-73 | From any valid state a replaced or removed gate takes nobody in, whatever happens, if and only if no look-up of it is outstanding |
| Gates.RetiredGateCanFill | src/proxy/mod.rs:57-73 | A gate is replaced between a request's look-up and its entry: the look-up is outstanding, and the empty gate takes the request in |
| Sse.SseParser.PollNext | src/proxy/sse.rs:41-92 | Each poll yields exactly the next output, and the end only when nothing is left |
| Sse.FirstNewlineMeaning | src/proxy/sse.rs:44 | The position found is that of the first newline |
| Sse.ChunkIndependence | src/proxy/sse.rs:41-92 | For any cut of the text and any faults between the chunks, the payloads are those of the batch parser and the faults come out in order |
| Utf8.DecodedConcat | src/proxy/sse.rs:65-66 | Texts cut between characters decode piece by piece |
| Utf8.DecodedExactly | src/proxy/sse.rs:65-66 | Bytes decode to a text if and only if they are its UTF-8 encoding |
| Sse.ByteChunkIndependence | src/proxy/sse.rs:65-71 | A valid text in chunks of bytes yields exactly the batch parser's payloads if and only if every chunk is valid UTF-8 by itself |
| Sse.CutCharacter | src/proxy/sse.rs:65-71 | A character of two bytes in two chunks is a valid text and yields two errors |
| Sse.JoinInverts | src/proxy/sse.rs:51 | Joining the lines of a payload gives the payload back |
| Sse.PrintThenParse | src/proxy/sse.rs:43-63 | Printed payloads parse back up to carriage returns at line ends |
| Sse.RoundTrip | src/proxy/sse.rs:41-92 | Under any chunking printed payloads parse back to themselves exactly if no line of any ends in a carriage return |
| EventStream.SameLines | src/proxy/sse.rs:43-46 | With carriage returns only as part of single CRLF line ends, the lines of section 9.2.6 of the WHATWG HTML Standard are the de-framer's |
| EventStream.SameEvents | src/proxy/sse.rs:48-63 | From the same lines, none of them a bare `data`, the standard dispatches exactly the payloads completed |
| EventStream.AgreesExactlyWhenClosed | src/proxy/sse.rs:41-92 | On such texts the payloads are the standard's events if and only if no frame is open at the end; an open frame is one payload more |
| EventStream.BareDataIsIgnored | src/proxy/sse.rs:57-61 | A `data` line without a colon is an empty event in the standard and nothing here |
| EventStream.ByteOrderMarkHides | src/proxy/sse.rs:65-66 | A byte order mark hides the event of the first line, for every data line |
| EventStream.LoneReturnsEndNothing | src/proxy/sse.rs:43-46 | Lone carriage returns end a line and the event in the standard; here they end nothing and the event is lost |
| Relay.StreamRelay.Send | src/proxy/mod.rs:885-889 | A send succeeds and appends its frame exactly while the client is there |
| Relay.StreamRelay.Handle | src/proxy/mod.rs:968-1050 | One event is taken into the accumulators first, and then its frame, if it causes one, is sent |
| Relay.StreamRelay.HandleAll | src/proxy/mod.rs:968-1051 | The events of a payload are handled in order until a send fails |
| Relay.StreamRelay.RelayItems | src/proxy/mod.rs:891-1052 | The main loop: what it gathered and sent, and whether it ended by exhaustion, a fault or a vanished client |
| Relay.StreamRelay.Finale | src/proxy/mod.rs:1054-1184 | The log rows, the charge call, the record it books and the frames that follow the main loop |
| Relay.StreamRelay.Settle | src/proxy/mod.rs:1117-1172 | The charge call settles against the row as it is stored by then, with the request's copy; the log row and the answer are the settlement's |
| Relay.StreamRelay.Goodbye | src/proxy/mod.rs:1091-1182 | The finish that was missing, then usage and end mark or the error frame; nothing to a client that is gone |
| Relay.StreamRelay.Run | src/proxy/mod.rs:849-1185 | The whole worker has exactly the outcome the theorems are about |
| RelayRuns.GatherMeans | src/proxy/mod.rs:968-1050 | The accumulators hold the concatenated text and reasoning, the join of all reports, and whether a finish, content or tool calls came |
| RelayRuns.SnapshotOnlyWithoutDeltas | src/proxy/mod.rs:1014-1047 | A snapshot reaches the client exactly if it has calls and no tool call came before |
| RelayRuns.SnapshotArrivesWhole | src/proxy/mod.rs:1014-1047 | With no tool deltas a client that puts deltas together has exactly the first snapshot's calls, however often snapshots are repeated |
| RelayRuns.ToolCallsArrive | src/proxy/mod.rs:970-1047 | A client that stays receives exactly the tool calls of the deltas, in order and unchanged, and of a snapshot if none came before it; one that leaves, a prefix |
| RelayRuns.FinishReasonArrives | src/proxy/mod.rs:999-1013 | The client is told the reason of the upstream's first finish, once; without one `stop`, exactly if content was produced and no upstream error came |
| RelayRuns.StopsAtFailedSend | src/proxy/mod.rs:981-997 | The relay stops right after the event whose send failed, which is still taken in |
| RelayRuns.OutcomeMeans | src/proxy/mod.rs:849-1185 | Frames, charge calls, booked records and log rows of a whole run, from the events taken in and how the loop ended |
| RelayRuns.ChargedOnceIfProduced | src/proxy/mod.rs:1054-1117 | `billing::charge` is called exactly once if the opening frame went out and content was produced, else never; on the join of the reports and all text, the failed delta's included |
| RelayRuns.ChargedExactlyForContent | src/proxy/mod.rs:1054-1117 | With a client that stays, the charge is called exactly if text, reasoning or a tool call was delivered |
| RelayRuns.BothRowsExactlyOnLateFault | src/proxy/mod.rs:893-966 | Both an error and a success row appear exactly if a fault follows content and the charge goes through; no closing frame follows such a fault |
| RelayRuns.BothRowsHappen | src/proxy/mod.rs:893-966 | One delta and then a broken stream leave both rows if the charge goes through |
| RelayRuns.LogRowsExactly | src/proxy/mod.rs:893-1182 | Each kind of log row appears exactly by its cause |
| RelayRuns.EndMarksDoNotMatter | src/proxy/mod.rs:929-933 | A `[DONE]` anywhere in the stream changes nothing |
| RelayRuns.LeavingOnlyTruncates | src/proxy/mod.rs:849-1185 | A client that vanishes has received the first frames of what it would have received by staying |
| RelayRuns.StayingClientSeesWholeStream | src/proxy/mod.rs:885-1182 | Without a late fault a client that stays sees one role frame, deltas with at most one finish (exactly one if content was produced), and one end |
| RelayRuns.FramesCarryTheText | src/proxy/mod.rs:970-998 | The deltas sent carry the text and the reasoning received, unchanged |
| RelayRuns.DeliveredTextIsTakenIn | src/proxy/mod.rs:970-998 | Text and reasoning that reached the client are prefixes of what was taken in, and all of it if it stayed |
| RelayRuns.DeliveredContentIsPresented | src/proxy/mod.rs:837-846 | If any text, reasoning or tool call reached the client, `billing::charge` was called once, on text and reasoning that start with what was delivered |
| RelayRuns.DeliveredContentIsBookedExactly | src/service/billing.rs:30-120 | What a run that delivered content books: nothing unless the copy is enabled and allowed, the row exists, and a limited key was neither disabled while it could have paid nor negative with nothing to pay; else one record, at the price or what was left |
| RelayRuns.AcceptedExactly | src/service/billing.rs:42-87 | The same condition for a charge to go through, as an equivalence |
| RelayRuns.DeliveredUnpaid | src/service/billing.rs:78-82 | A delta is delivered, the key is disabled meanwhile and could have paid: one refused charge call, no record, the balance untouched |
| Pipeline.RunsAsAtOnce | src/proxy/mod.rs:835-1185 | For any translation of payloads, frames, charge calls, records and log rows of a run are those of the text before the first fault delivered at once |
| Pipeline.ByteCutsDoNotMatter | src/proxy/sse.rs:65-66 | Bytes cut in two ways, both between characters, lead to the same run |
| Pipeline.PrintedPayloadsAreRead | src/proxy/mod.rs:835-966 | An upstream that prints clean payloads has each of them read in order, under any cut |
| Dispatch.Dispatch | src/proxy/mod.rs:1193-1487 | The loop's result, notes, health reports and requests are those of the first attempt that is not retried |
| Dispatch.TryWhole | src/proxy/mod.rs:1206-1484 | One round: a retry, an end, or nothing sent |
| Dispatch.Examine | src/proxy/mod.rs:1274-1484 | What one reply amounts to: retry, failure or success, and the report it causes |
| Dispatch.GiveUp | src/proxy/mod.rs:1214-1262 | What a round that sends nothing ends with, and the note for a missing key |
| Dispatch.ExcludedBlocks.InjectAllowed | src/service/upstream.rs:302-307 | The option is injected unless the block is excluded |
| Dispatch.ExcludedBlocks.DisableInject | src/service/upstream.rs:310-318 | Exactly that block becomes excluded |
| Dispatch.SendUntilSettled | src/proxy/mod.rs:573-691 | Every reply is examined; a refusal excludes the block and is sent again without the option, until another reply comes or none has come yet |
| Dispatch.TryStream | src/proxy/mod.rs:513-803 | One round before a stream, with the blocks it excludes |
| Dispatch.Connect | src/proxy/mod.rs:513-806 | The attempts before a stream: result, notes, reports, each request's body, and the blocks excluded in the end |
| Dispatch.ExamineStream | src/proxy/mod.rs:644-803 | What one settled reply amounts to before a stream |
| Dispatch.AtMostThreeAttempts | src/proxy/mod.rs:44-47 | At most three requests for a whole request; in both loops at most one note per attempt, and success with at most two |
| Dispatch.TwoRequestsExactly | src/proxy/mod.rs:641-691 | An attempt sends at most two requests if and only if the reply to the second is not a refusal as well |
| Dispatch.RefusedOnceAtMost | src/proxy/mod.rs:575-583 | An upstream that refuses only requests carrying the option refuses at most once an attempt, and not for an excluded block |
| Dispatch.OneResendPerBlock | src/service/upstream.rs:301-318 | Then any number of attempts send one request each and one more for each distinct block not excluded before |
| Dispatch.OptionOnFirstRequestExactly | src/proxy/mod.rs:575-583 | Only an attempt's first request carries the option, and it does exactly if the block speaks the format and is not excluded |
| Dispatch.RefusedBlockIsLeftAlone | src/service/upstream.rs:301-318 | Once a block's upstream has refused the option, no later attempt on that block carries it |
| Dispatch.RefusesExactly | src/proxy/mod.rs:683-691 | A refusal is a 400 whose text contains one of the two words |
| Dispatch.StreamRequestsBound | src/proxy/mod.rs:513-691 | So a stream request sends at most three and one more for each distinct block not excluded before |
| Dispatch.StubbornRefusals | src/proxy/mod.rs:683-691 | Without that there is no bound: an upstream that always refuses is sent one request after another, all but the first without the option, and the run stays in its first attempt |
| Dispatch.SuccessExactly | src/proxy/mod.rs:1193-1487 | Success exactly if an attempt wins after retryable ones only; the notes are theirs, in order |
| Dispatch.RunGoesOnByStatus | src/proxy/mod.rs:1274-1372 | A run goes on past an attempt whose reply was lost, or was 401, 403, 429, 500 and above, or unreadable for a whole request, and notes its block, its key and what came back |
| Dispatch.PlainAnswerWins | src/proxy/mod.rs:1374-1484 | After such attempts a 2xx wins for that attempt's block and key |
| Dispatch.OtherStatusEnds | src/proxy/mod.rs:765-803 | Any other status ends the run there with that status and the upstream's words, before a stream without saying where; so does a failed charge with its error |
| Dispatch.LastReplyEnds | src/proxy/mod.rs:1284-1372 | If all three attempts go on, the run ends with what came back last, where it came back |
| Dispatch.NothingSentEnds | src/proxy/mod.rs:1214-1262 | A missing block, key, client or permit ends the run with its own error and place |
| Dispatch.NothingLeftEnds | src/proxy/mod.rs:1218-1238 | After other attempts a missing key, or before a stream a missing block, ends the run with what came back last |
| Dispatch.NoKeyLeftKeepsPreviousFailure | src/proxy/mod.rs:1218-1238 | With no key left after a failure the run ends with that failure, and only a missing rate-limit hint is filled |
| Dispatch.ExhaustedRunEndsWithLastFailure | src/proxy/mod.rs:1284-1313 | Three failures end with the last one, its place and its words, and a rate limit with the upstream's hint before the key's own back-off |
| Dispatch.UpstreamRejectionNeverComesOut | src/proxy/mod.rs:1316-1344 | The caller is told 401 or 403 exactly if selection or the charge said so, never because the upstream did |
| Dispatch.LaterAttemptsDoNotMatter | src/proxy/mod.rs:1206-1487 | Nothing after the deciding attempt matters |
| Dispatch.ReportsByCause | src/proxy/mod.rs:1284-1482 | 401 and 403 alone are reported as rejections, 429 alone as a rate limit, and an accepted reply as a success even if the charge then fails |
| Ledger.KeyStore.Charge | src/db/keys.rs:73-80 | One statement that hits only an enabled row with enough credits, and then takes exactly the amount |
| Ledger.KeyStore.Touch | src/db/keys.rs:82-85 | The balance of an enabled row, unchanged |
| Ledger.KeyStore.SetCredits | src/db/keys.rs:286-334 | The balance becomes that value, enabled or not |
| Ledger.KeyStore.SetUnlimited | src/db/keys.rs:380-397 | Only the switch changes |
| Ledger.KeyStore.Book | src/service/billing.rs:30-120 | A settlement moves the balance and appends its record, or does neither, exactly as the theorems assume |
| Ledger.RefusalChangesNothing | src/service/billing.rs:42-87 | A refused settlement leaves the row as it was |
| Ledger.SettlementKeepsSwitches | src/service/billing.rs:57-87 | A settlement moves credits and nothing else: the row stays or stays away, and both switches stay as they are |
| Ledger.BookingAnswers | src/service/billing.rs:89-119 | A booking records the usage and its price; an unlimited key is recorded in full and keeps its balance |
| Ledger.RefusalReasonsExactly | src/service/billing.rs:42-87 | Each error appears exactly by its cause |
| Ledger.LimitedRefusalExactly | src/service/billing.rs:66-87 | A limited key in order at entry is refused exactly if it is gone, was disabled but could have paid, or has a negative balance and nothing to pay |
| Ledger.ShortOnlyByEmptying | src/service/billing.rs:54-87 | A booking records between 0 and its cost, and less than its cost only by emptying the balance |
| Ledger.BookingConservesExactly | src/service/billing.rs:66-87 | A booking moves exactly what it records, except on a limited key with a negative balance |
| Ledger.CompletedCallsCost | src/proxy/estimate.rs:338-405 | Whatever was reported, a completed usage at a positive multiplier costs at least one unit |
| Ledger.BalanceNeverNegative | src/db/keys.rs:73-85 | Over any interleaving with no negative setting the balance is never negative |
| Ledger.CreditsAreConserved | src/service/billing.rs:30-120 | Since the balance was last set, balance plus the credits taken by limited bookings is the value set |
| Ledger.SwitchesAreAsSet | src/db/keys.rs:73-85 | Over any run the row exists exactly until it is deleted, and its switches are as last set |
| Ledger.RecordsOnlyGrow | src/service/billing.rs:89-110 | Records are only added, until a deletion takes the key and all of them away for good |
| Ledger.RecordsAccountForBalance | src/service/billing.rs:66-110 | While a key is limited and its balance is not set, balance plus the charges in its records stays the same |
| Ledger.LeakIsBounded | src/service/billing.rs:57-87 | Between two top-ups the calls charged short are at most the requests open on a positive limited copy when the balance first ran out |
| Ledger.SequentialRequestsLeakAtMostOne | src/service/billing.rs:57-65 | One after the other, at most one call between two top-ups is charged short |
| Ledger.EveryHolderCanChargeShort | src/service/billing.rs:66-87 | The bound is tight: from any proper state, every open request with a positive limited copy can still be charged short |
| Ledger.AdmittedBoundExactly | src/proxy/mod.rs:484-499 | Once the balance has run out, the admitted requests bound the short charges of every continuation if and only if no request with a positive limited copy still waits to be admitted |
| Ledger.WaitingHolderIsReached | src/proxy/mod.rs:484-499 | A state with such a waiting request is reached from a fresh key |
| Ledger.ReachedStatesAreProper | src/proxy/mod.rs:484-499 | From any proper start every reached state admits only on positive or unlimited copies, and only enabled copies exist |
| UsageReports.MergeIsJoin | src/proxy/mod.rs:415-420 | Merging is idempotent and associative, commutative up to the mark for estimates, and absorbs exactly the smaller reports |
| UsageReports.ReorderedAndRepeatedReports | src/proxy/mod.rs:411-420 | Only the set of reports matters: repeating or reordering them merges to the same usage |
| UsageReports.MergeAllIsMaximum | src/proxy/mod.rs:415-420 | Each merged count is the largest reported |
| UsageReports.CompletedIsPositive | src/proxy/estimate.rs:338-405 | A completed usage has a positive total and completion and no negative count |
| UsageReports.ReportedPartsAreKept | src/proxy/estimate.rs:346-405 | Reported parts are kept and a reported total is never lowered once a part was reported; a missing completion is the rest of the total |
| UsageReports.TotalCoversPartsExactly | src/proxy/estimate.rs:350-405 | The completed total covers prompt plus completion except exactly when only the completion was reported with a smaller positive total |
| UsageReports.TotalCanBeTooSmall | src/proxy/estimate.rs:362-377 | A concrete case of it |
| UsageReports.MissingPartsAreFilled | src/proxy/estimate.rs:346-405 | Which estimate or difference fills each missing part, and what the total is then |
| UsageReports.EstimatedExactlyWhenPartMissing | src/proxy/estimate.rs:350-405 | The mark for estimates is set exactly if a part was missing |
| UsageReports.SplitReportsAgree | src/proxy/adapter/anthropic.rs:208-271 | If no report exceeds the final numbers and each is reached by some report, Anthropic's split reports, merged and completed, agree with the non-streaming report, with all input that was read, cached or not |
| UsageReports.RepeatedMetadataCountsOnce | src/proxy/adapter/google.rs:288-324 | Google's cumulative numbers, repeated with every chunk, merge to exactly the final ones, tool results as input and thoughts as output |
| Estimate.EstimateText | src/proxy/estimate.rs:257-285 | The loop computes the rounded-up sum of the weights |
| Estimate.EstimatePrompt | src/proxy/estimate.rs:288-311 | The prompt estimate is that of all texts, images, messages and tools |
| Estimate.ConcatenationLaw | src/proxy/estimate.rs:113-285 | The cost of a concatenation is the sum less the weight of a word continued across the cut |
| Estimate.AppendAndCut | src/proxy/estimate.rs:257-285 | Appending never lowers the estimate and cutting never lowers the sum |
| Estimate.DigitInWordIsFree | src/proxy/estimate.rs:113-131 | A digit inside a word adds nothing |
| Estimate.ScriptCosts | src/proxy/estimate.rs:113-285 | A text in one script, or of one kind of mark, costs the listed weight for each character |
| Estimate.SentenceCosts | src/proxy/estimate.rs:257-285 | English text costs 0.8 tokens a word and 0.3 a space, however long the words are |
| Estimate.PromptIsSum | src/proxy/estimate.rs:288-311 | A prompt costs 4 tokens a message, 1000 an image, and the estimates of all texts of messages and tools |
| Credits.ParseCredits | src/model/credits.rs:41-79 | The parser with its padding loop computes the value the theorems are about |
| Credits.ParsedExactly | src/model/credits.rs:41-79 | White space at the ends apart, a text parses exactly if it is an optional minus and a number in range with at most four decimals, with or without a dot, and then to that number |
| Credits.TrimMeans | src/model/credits.rs:42 | Trimming takes the white space off both ends and nothing else |
| Credits.CreditsShape | src/model/credits.rs:25-36 | Amounts are printed with a minus if negative, no needless zero in front and exactly four decimals |
| Credits.MultiplierShape | src/model/credits.rs:85-90 | Multipliers are printed as the whole part and the rest rounded to hundredths; the minus is lost below 1 |
| Credits.FormatThenParse | src/model/credits.rs:25-79 | Printing then parsing gives the number back for every i64 but the smallest, which is refused |
| Credits.FormatIsInjective | src/model/credits.rs:25-36 | Different amounts print differently |
| Credits.ParseThenFormat | src/model/credits.rs:25-79 | Whatever is accepted re-prints to a form that parses to the same value |
| Credits.MultiplierRoundTrip | src/model/credits.rs:85-100 | Parsing inverts printing of a multiplier exactly on the non-negative multiples of 100 |
| Credits.MultiplierCanChange | src/model/credits.rs:85-100 | A multiplier whose fraction prints as 100 reads back as another |
| Credits.PriceIsCeiling | src/model/credits.rs:121-145 | The price is the exact ceiling, saturated, and the branch that lifts 0 to 1 never runs |
| Credits.PriceIsMonotone | src/model/credits.rs:121-132 | The price never falls when either factor grows |
| Credits.SplittingCostsAtMostOneEach | src/model/credits.rs:121-132 | Unsaturated, splitting a usage into n parts never costs less and at most n-1 more |
| Pagination.UsageTable.Insert | src/db/usage.rs:111-132 | A record is appended under an id never used before |
| Pagination.UsageTable.PurgeBefore | src/db/usage.rs:216-219 | Exactly the records up to the cutoff go, and the order stays |
| Pagination.UsageTable.ListByKey | src/db/usage.rs:173-194 | The page is the one the theorems are about |
| Pagination.Fetch | src/db/usage.rs:26-31 | The query yields the matching records newest first, at most the limit |
| Pagination.ListingMembers | src/db/usage.rs:26-31 | The records listed are exactly the key's records before the cursor |
| Pagination.NegativeCursorListsNothing | src/db/usage.rs:26-31 | A negative cursor yields an empty last page |
| Pagination.PageIsExact | src/db/usage.rs:173-194 | The page size is the limit asked for, cut to 1 to 500, and more is announced exactly if an older record matches |
| Pagination.WalkYieldsFirstListing | src/db/usage.rs:22-31 | Feeding back the last id yields every record of the first page's time exactly once, newest first, whatever is inserted meanwhile |
| Pagination.WalkAcrossPurges | src/db/usage.rs:22-31 | With inserts and purges between the pages a walk yields nothing twice, nothing that was not there at first, and every record that is there throughout |
| Pagination.PurgeKeepsStart | src/db/usage.rs:216-219 | A purge followed by inserts keeps a table among those a walk may meet |
| Schemas.StripUnsupported | src/proxy/adapter/google.rs:676-728 | The recursion with its loop computes the cleaning the theorems are about |
| Schemas.StripMember | src/proxy/adapter/google.rs:680-722 | What becomes of one member of an object |
| Schemas.StrippedIsClean | src/proxy/adapter/google.rs:640-728 | Only supported keywords remain wherever cleaning reaches, and no null variants |
| Schemas.CleanIsKept | src/proxy/adapter/google.rs:676-728 | A clean schema stays exactly as it is |
| Schemas.StrippingIsIdempotent | src/proxy/adapter/google.rs:676-728 | Cleaning twice is cleaning once |
| Schemas.PropertyNamesSurvive | src/proxy/adapter/google.rs:684-688 | In the object of properties every name survives in place, each with its own schema cleaned |
| Schemas.PropertiesSurvive | src/proxy/adapter/google.rs:681-693 | A cleaned schema has `properties` exactly if the schema had some, with the same names in the same order, each with its own schema cleaned |
| Schemas.AcceptanceIsKept | src/proxy/adapter/google.rs:676-728 | Whatever the plain keywords mean, an instance that a tame schema accepts is accepted after cleaning, null included |
| Schemas.NothingMoreIsAccepted | src/proxy/adapter/google.rs:676-728 | Where unsupported keywords constrain nothing, what the cleaned schema accepts was accepted before: for any instance if no variant is dropped, for one without nulls if each `anyOf` keeps one |
| Schemas.SameIsAccepted | src/proxy/adapter/google.rs:676-728 | So on tame schemas of that kind cleaning changes nothing about what is accepted |
| Schemas.EmptyAnyOfIsLost | src/proxy/adapter/google.rs:697-719 | An `anyOf` without variants accepts nothing and is dropped |
| Schemas.NullAfterCleaning | src/proxy/adapter/google.rs:697-719 | When a cleaned `anyOf` accepts null: nothing is left, a variant left does, or the first left takes the mark |
| Schemas.NullSurvivesExactly | src/proxy/adapter/google.rs:697-719 | An `anyOf` that accepts null still does after cleaning except exactly when a null variant was dropped, the first left is `false`, and none left accepts null |
| Schemas.ItemsSurviveExactly | src/proxy/adapter/google.rs:644-665 | Without its `prefixItems`, `items` still accepts an array exactly if the elements of the prefix satisfy it too |
| Schemas.DroppingPrefixItemsNarrows | src/proxy/adapter/google.rs:646-665 | Without that condition acceptance can be lost: `prefixItems` |
| Schemas.MarkNeedsAnObject | src/proxy/adapter/google.rs:697-719 | Or lost with `false` as the first remaining variant |

## Left out

- Schemas.AcceptanceIsKept: promises nothing for schemas that are not tame; each of the two nodes that can lose an instance has its exact condition, but whether a loss deep inside shows outside depends on the meaning of keywords that the model leaves open.
- Schemas.StripUnsupported: an object is a list of members with distinct names, so the sorted order in which the source's map stores them is not modelled.
- Gates.BlockGate.Release: a permit goes to the first waiter in the same step; the moment between the wake-up and the next poll of that waiter is not modelled.
- Lifecycle.KeyRecord.MarkSuccess: the time of last use and of the last update are not modelled.
- Dispatch.Connect: the notes are those gathered; the log row of a status that ends the run before a stream leaves them out.
- Dispatch.SendUntilSettled: that the resends end is not a property of the loop; a run in which no other reply has come yet is still waiting.
- Relay.StreamRelay.Run: the last payload kept for the log, the rendering of frames and the sanitised texts are not modelled; neither is a receive buffer, so a send fails from the moment the client has gone.
- Sse.SseParser.PollNext: polls that are pending.
- Estimate.EstimateText: weights are hundredths instead of floating point, and the letters outside ASCII are a parameter.
- Upstreams.UpstreamState.Pick: a poisoned lock, for which the source answers that there is no candidate.
- Ledger.KeyStore.Book: database failures other than a missing row; the columns for times, and the model and block of a record.
- HTTP, TLS, routing, request and response field mapping, header building, effort levels: tables over libraries.
- Accounts, sessions, tokens, settings, the command line, the web panel, statistics: simple storage operations.
- Google's recovery of tool names for tool results.
- Of the WHATWG event stream format: event types, ids and retry times; only the data of events is compared.
- Log texts, clocks, random ids, migrations and the connection pool.
