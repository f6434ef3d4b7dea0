# Verified model of the mercury-farm protocol machines

This project models the small stateful machines under `lib/wire` and `lib/util` of
mercury-farm and proves what holds of them in every run. To check it, run
`dafny verify dfyconfig.toml` with Dafny 4.11.

Each machine has three layers. A class keeps the source's fields and changes them the way
its methods do. A function on a value type says what one call does to the abstract state;
every method is proved to do exactly that. Lemmas about histories of such steps then say
what every run guarantees, in terms of the calls that were made and not of that function. Time, random numbers and the moments at which callbacks, timers
and replies come are inputs.

| files | machine |
|---|---|
| `TtlSpec.dfy`, `TtlSet.dfy`, `TtlHistory.dfy` | the set whose entries expire (`lib/util/ttlset.ts`) |
| `MessageStream.dfy`, `Framing.dfy` | length-delimited framing (`lib/wire/messagestream.ts`) |
| `ProcessManager.dfy`, `ProcessRuns.dfy` | processes and the resource pool (`lib/util/ProcessManager.ts`) |
| `SeqQueue.dfy`, `SeqQueueRuns.dfy`, `SeqQueueDelivery.dfy` | the reorder buffer (`lib/wire/seqqueue.js`) |
| `ChannelManager.dfy`, `ChannelRuns.dfy`, `ChannelHistory.dfy`, `ChannelTiming.dfy` | keep-alive channels (`lib/wire/channelmanager.ts`) |
| `Srv.dfy`, `SrvLaws.dfy`, `SrvDraws.dfy` | service record order and failover (`lib/util/srv.ts`) |
| `StateQueue.dfy` | the loop-erasing state queue (`lib/util/statequeue.js`) |
| `TransManager.dfy` | concurrent transactions (`lib/wire/transmanager.ts`) |
| `Limiter.dfy` | the concurrency limiter (`lib/util/requtil.js`) |
| `FailCounter.dfy` | the sliding-window counter (`lib/util/failcounter.ts`) |
| `Collections.dfy` | shared vocabulary |

## What the proofs found

- TTL set: bumping a value that is already in the set makes it the whole head-to-tail list;
  all other entries become strays, which no check expires: a stray stays until its own value is
  bumped or dropped (`TtlHistory.StrayStays`). The list is the whole set throughout a history
  iff no call re-bumps a value while the set holds another one. A check leaves no expired
  entry behind iff no stray has expired and no expired entry stands on the list behind an
  unexpired one. The latter cannot be if bump times never decrease; but the times are the
  callers' (`TtlHistory.BlockedEntrySurvives`).
- Framing: a length prefix can come out negative from the 32-bit shift, and then the frames
  depend on where the stream is cut. Cuts are invisible iff no prefix comes out as -n with
  more than n bytes behind it; `Framing.MinusOneUnsafe` gives streams that fail. A single
  message comes back iff it is not empty and shorter than 2^31 bytes.
- Process manager: a second removal of an id whose removal is still suspended releases the
  resources twice, or loses a process created in between; one removal at a time is exactly
  what conservation needs, unless there are no resources at all.
- Reorder buffer: consecutive numbers, none of which comes a whole lap ahead of the awaited
  one, are delivered in order iff from the start on fewer than max(1, maxWaiting) of them ever
  wait for a missing one. Of those that fit the slots that holds for every order of arrival iff
  they are no more than max(1, maxWaiting). Every skip leaves a handler behind, which may be due
  and yet stay uncalled because nothing counts as waiting (`SeqQueueRuns.DueButUncalled`). A
  handler that stops the queue does not cut short what is being consumed.
- Channels: unregistering by a mere alias strands the channel under its id. Registering under
  an id in use leaves the old channel's timer or other name behind; it is harmless iff the old
  one is known by that id alone and no timer checks it. A timer left behind makes even a channel
  without a timeout expire (`ChannelRuns.StaleTimerExpires`).
- Service records: records of weight 0 are never returned, although RFC 2782 ("The format of
  the SRV RR", Weight) gives them a small chance. Trying them rejects the caller's promise iff
  there is no record at all; when all records fail, the rejection stays unhandled, so callers
  that wait for it are told nothing.
- Limiter: a handler that throws keeps its place for good. Nothing starts any more iff as many
  have thrown as may run. Still no call ever waits while there is room.

## Model

| member | source | states |
|---|---|---|
| `TtlSet.TtlSet.Bump` | lib/util/ttlset.ts:26-41 | On the linked structure, a bump keeps all chains well formed and does to the order, the list, the times, the events and the timer exactly what the abstract bump says |
| `TtlSet.TtlSet.Remove` | lib/util/ttlset.ts:92-110 | Takes any item, on the list or stray, off its chain, re-linking its neighbours and moving head and tail, and leaves it linked to nothing |
| `TtlSet.TtlSet.Create` | lib/util/ttlset.ts:73-80 | Stores a new item behind the given one and announces it unless silent |
| `TtlSet.TtlSet.DropItem` | lib/util/ttlset.ts:82-90 | Removes the item from its chain and the mapping, announcing it unless silent |
| `TtlSet.TtlSet.Drop` | lib/util/ttlset.ts:43-45 | Drops a known value and does nothing for an unknown one |
| `TtlSet.TtlSet.Check` | lib/util/ttlset.ts:59-71 | Drops expired heads one after the other and schedules the next check |
| `TtlSet.TtlSet.ScheduleCheck` | lib/util/ttlset.ts:51-57 | Arms the timer for the head's expiry, or for now, and none for an empty list |
| `TtlSet.TtlSet.Stop` | lib/util/ttlset.ts:47-49 | Clears the timer and nothing else |
| `TtlSet.TtlSet.Chains` | lib/util/ttlset.ts:26-110 | In every valid state, hence every reachable one, the mapped items hang on disjoint acyclic chains whose links agree in both directions; head and tail are null together or the two ends of one and the same chain, which no link joins to the strays |
| `TtlHistory.Histories` | lib/util/ttlset.ts:26-110 | After any history the entries stand in the order of their last bumps with those bumps' times, and an entry is on the head-to-tail list iff no value was re-bumped since its last bump |
| `TtlHistory.MembersAfter` | lib/util/ttlset.ts:26-90 | Which values each call adds, removes and keeps: a bump adds its value, a drop removes its value, a check removes exactly the leading expired run of the list |
| `TtlHistory.EventsOfRun` | lib/util/ttlset.ts:73-90 | In every run exactly this is announced, in this order: a bump its value iff it is new, a drop its value iff it is there, both iff the lowest bit of the flags is 0; a check every value that it removes |
| `TtlHistory.TimerOfRun` | lib/util/ttlset.ts:47-57 | In every run the timer is what the last bump, check or stop left: due exactly when the head of that moment expires, or at once if it had; none for an empty list or after a stop |
| `TtlHistory.OneListIffNoCrowdedRebump` | lib/util/ttlset.ts:26-38 | The list is the whole set after every call iff no call re-bumps a value while another one is present |
| `TtlHistory.ExpireClosed` | lib/util/ttlset.ts:59-71 | A check drops exactly the longest expired prefix of the list, in order, with one drop event each, and nothing else |
| `TtlHistory.ExpiredRunMaximal` | lib/util/ttlset.ts:63-68 | That prefix is expired throughout and the entry behind it, if any, is not |
| `TtlHistory.SortedByTime` | lib/util/ttlset.ts:26-41 | If bump times never decrease, all entries stand sorted by time |
| `TtlHistory.CheckFindsAllIff` | lib/util/ttlset.ts:59-71 | In every state a check leaves no expired entry on the list iff none stands behind an unexpired one, and none in the set iff, besides, no stray had expired |
| `TtlHistory.BlockedEntrySurvives` | lib/util/ttlset.ts:26-71 | A caller that gives an old time: y, bumped after x with a time that has expired, survives the check on the list behind x |
| `TtlHistory.CheckFindsAllButStrays` | lib/util/ttlset.ts:59-71 | So if bump times never decrease, no expired entry stays on the list after a check, and none stays in the set iff no stray had expired |
| `TtlHistory.StrayStays` | lib/util/ttlset.ts:26-110 | An entry that is off the list stays in the set, off the list and with its old time, through any calls but a bump or a drop of its own value |
| `TtlHistory.ExpiredStraySurvives` | lib/util/ttlset.ts:26-71 | A history that makes a stray, for any two values: after x and then twice y, a check that finds y expired leaves the older x in the set |
| `TtlHistory.CheckAlwaysPending` | lib/util/ttlset.ts:51-57 | Unless the set is stopped, a non-empty list always has a check pending, due no later than its head's expiry or the last scheduling |
| `MessageStream.DelimitedStream.Transform` | lib/wire/messagestream.ts:9-39 | The loop pushes exactly the frames the decoding function yields for the chunk and ends in its state; it terminates for every byte stream |
| `MessageStream.DelimitingStream.Transform` | lib/wire/messagestream.ts:43-54 | Pushes the base-128 bytes of the length, then the message |
| `Framing.ChunkingIrrelevant` | lib/wire/messagestream.ts:9-39 | For a safe stream every way of cutting it into chunks gives the frames and the final state of the uncut stream |
| `Framing.ChunksInvisibleIffSafe` | lib/wire/messagestream.ts:9-39 | From any waiting state, all cuts agree with the uncut stream iff no length comes out as -n with more than n bytes behind it |
| `Framing.MinusOneUnsafe` | lib/wire/messagestream.ts:13-28 | Unsafe streams exist: the prefix FF FF FF FF 0F comes out as -1, and what follows is unsafe to cut iff it is longer than one byte |
| `Framing.MinusOneFrame` | lib/wire/messagestream.ts:25-29 | With bytes behind it that prefix makes all of them but the last a frame |
| `Framing.BelowIsSafe` | lib/wire/messagestream.ts:13-22 | Streams whose length prefixes stay below 2^31 are safe to cut |
| `Framing.ReadVarint` | lib/wire/messagestream.ts:13-49 | Reading an encoded length adds exactly that number, whatever follows |
| `Framing.ReadPrefix` | lib/wire/messagestream.ts:13-22 | Every prefix, also one longer than need be, is read as the sum of its digits, each shifted by its place modulo 32 and taken as a signed 32-bit number |
| `Framing.VarintFormat` | lib/wire/messagestream.ts:43-50 | The encoded length is the standard base-128 form of the number (low bits first, top bit on all bytes but the last), no longer than need be |
| `Framing.RoundTrip` | lib/wire/messagestream.ts:9-54 | For all messages below 2^31 bytes and every chunking of their encoding, exactly these messages are pushed in order; only a final empty one stays pending |
| `Framing.RoundTripIff` | lib/wire/messagestream.ts:9-54 | One message comes back, leaving the initial state, iff it is not empty and shorter than 2^31 bytes |
| `ProcessManager.ResourcePool.Allocate` | lib/util/ProcessManager.ts:16-21 | Takes the first resources in order, or none at all if there are too few |
| `ProcessManager.ResourcePool.Release` | lib/util/ProcessManager.ts:24-26 | Appends what is returned |
| `ProcessManager.ProcessManager.Create` | lib/util/ProcessManager.ts:102-139 | Fails without effect for a known id or too few resources; otherwise stores a new process holding them |
| `ProcessManager.ProcessManager.BeginRemove` | lib/util/ProcessManager.ts:333-341 | The first segment marks the process, and only it, and suspends |
| `ProcessManager.ProcessManager.ResumeRemove` | lib/util/ProcessManager.ts:325-358 | The later segments: a failed cleanup abandons the removal; the last one clears the timer of that process and of no other, releases the captured resources and deletes what the id names then |
| `ProcessManager.ProcessManager.BeginCleanup` | lib/util/ProcessManager.ts:455-462 | Begins to remove every stored process, in order |
| `ProcessRuns.CreateGives` | lib/util/ProcessManager.ts:102-139 | A creation succeeds iff the id is unknown and as many resources as it asks for are free; the new process holds exactly the first of them and the pool exactly the others |
| `ProcessRuns.HoldsWhatItAsked` | lib/util/ProcessManager.ts:102-139 | In every run, whatever overlaps, each stored process holds as many resources as its creation asked for, the first that were free then |
| `ProcessRuns.Segments` | lib/util/ProcessManager.ts:315-358 | Nothing is given back or deleted before the last segment of a removal, and a failed cleanup callback leaves the process with its resources |
| `ProcessRuns.GivenBackLast` | lib/util/ProcessManager.ts:16-26 | Resources that were free before are handed out before those just given back |
| `ProcessRuns.Conservation` | lib/util/ProcessManager.ts:102-358 | Over every interleaving with at most one removal in flight per id, free and held resources are together the initial multiset |
| `ProcessRuns.Exclusive` | lib/util/ProcessManager.ts:102-358 | With distinct resources no two live processes share one and none is both free and held |
| `ProcessRuns.CleanupDrains` | lib/util/ProcessManager.ts:455-462 | After a clean-up and any disciplined calls, once no removal is suspended, every process left was created since or had its cleanup callback fail; without such, the pool is whole again |
| `ProcessRuns.OverlapBreaks` | lib/util/ProcessManager.ts:333-358 | When a second removal of an id begins, some continuation breaks conservation, unless there are no resources at all |
| `ProcessRuns.BeginSafeIff` | lib/util/ProcessManager.ts:333-358 | Beginning a removal is safe for every disciplined future iff none of the same id is suspended or there are no resources at all |
| `SeqQueue.SeqQueue.Start` | lib/wire/seqqueue.js:9-15 | Opens the queue at the number after the given one and consumes |
| `SeqQueue.SeqQueue.Stop` | lib/wire/seqqueue.js:16-19 | Closes the queue; nothing is consumed |
| `SeqQueue.SeqQueue.Push` | lib/wire/seqqueue.js:20-27 | Ignores numbers beyond the size; otherwise stores the handler, counts it and consumes |
| `SeqQueue.SeqQueue.MaybeConsume` | lib/wire/seqqueue.js:28-55 | The loop over the array does what the abstract consumption says, also when a handler stops the queue |
| `SeqQueueRuns.Accounting` | lib/wire/seqqueue.js:9-55 | In every run each accepted handler was called under its number, was overwritten or sits in its slot, as often as it was pushed; waiting is accepted pushes minus calls minus skips |
| `SeqQueueRuns.OccupiedSlots` | lib/wire/seqqueue.js:20-52 | The occupied slots number waiting plus skips minus overwrites |
| `SeqQueueRuns.CalledAsPushed` | lib/wire/seqqueue.js:20-41 | A handler is called under no number but one it was pushed under |
| `SeqQueueRuns.AlwaysSettled` | lib/wire/seqqueue.js:28-55 | After every call an open queue has nothing waiting, or awaits an empty slot with fewer than maxWaiting waiting |
| `SeqQueueRuns.IdleIsEmptyIff` | lib/wire/seqqueue.js:20-52 | When nothing waits the slots are empty iff there were as many overwritings as skips |
| `SeqQueueRuns.DueButUncalled` | lib/wire/seqqueue.js:28-55 | A run that leaves a handler in the awaited slot of an open queue, nothing waiting: it is not called, even if it is the one to stop the queue |
| `SeqQueueRuns.SessionInOrder` | lib/wire/seqqueue.js:9-55 | From a start to the next, calls and skips visit the slots one after the other from the number after the start |
| `SeqQueueRuns.OpenOnlyBetween` | lib/wire/seqqueue.js:9-31 | Nothing is called or skipped before the first start, nor between a stop and the next start |
| `SeqQueueRuns.StopComesAfter` | lib/wire/seqqueue.js:28-55 | A handler that stops the queue while it consumes does not change what is still called or skipped then |
| `SeqQueueRuns.BothCalled` | lib/wire/seqqueue.js:28-55 | A run in which two handlers are due together and both are called although the first stops the queue |
| `SeqQueueRuns.Distance` | lib/wire/seqqueue.js:34-48 | So the numbers of two calls differ, modulo the size, by one plus what was called or skipped between them |
| `SeqQueueDelivery.PlaceIsMod` | lib/wire/seqqueue.js:33-48 | The slots the numbers of a burst go to, one after the other with a wrap at the end, are those numbers modulo the size |
| `SeqQueueDelivery.DeliveredIff` | lib/wire/seqqueue.js:9-55 | Handlers of consecutive numbers, however many, pushed in any order in which none comes a whole lap ahead of the awaited one, with the start anywhere among them, are each called once and in sequence, iff nothing is skipped, iff from the start on fewer than max(1, maxWaiting) ever wait for a missing one; then the queue is empty again |
| `SeqQueueDelivery.Uncalled` | lib/wire/seqqueue.js:20-52 | Once all numbers have arrived, exactly as many handlers are uncalled as wait and were skipped |
| `SeqQueueDelivery.BurstDelivered` | lib/wire/seqqueue.js:9-55 | So a burst that fits the slots, of at most maxWaiting numbers or of one, is delivered like that in whatever order it arrives |
| `SeqQueueDelivery.LongBurstSkips` | lib/wire/seqqueue.js:45-49 | Of any longer burst that fits the slots, the arrival with the first number last has that number skipped |
| `ChannelManager.ChannelManager.Register` | lib/wire/channelmanager.ts:23-45 | Fails without effect if the alias is taken; otherwise stores the channel under both keys and checks it |
| `ChannelManager.ChannelManager.Unregister` | lib/wire/channelmanager.ts:47-58 | Deletes both keys and cancels the timer |
| `ChannelManager.ChannelManager.Keepalive` | lib/wire/channelmanager.ts:60-65 | Renews the activity of the channel behind the key, and of no other |
| `ChannelManager.ChannelManager.UpdateTimeout` | lib/wire/channelmanager.ts:67-72 | Extends the timeout of the channel behind the key, and of no other |
| `ChannelManager.ChannelManager.GetTimeout` | lib/wire/channelmanager.ts:74-77 | The timeout of the channel behind the key, if any |
| `ChannelManager.ChannelManager.Check` | lib/wire/channelmanager.ts:79-99 | Expires an inactive channel with one announcement, or re-arms its timer, capped at Int32, or leaves an infinite one alone |
| `ChannelRuns.AlwaysSound` | lib/wire/channelmanager.ts:23-99 | In every run that registers under free ids, unregisters by id and shortens no timeout below its timer, each key leads to one live channel that goes by it and is stored under both its names, every pending timer is its channel's own, and none is due after last activity plus timeout |
| `ChannelHistory.FromHistory` | lib/wire/channelmanager.ts:23-72 | In every such run a live channel was last active when the last keepalive reached it, under its id or alias, or when it was registered; and its timeout is the registered one and all extensions that reached it |
| `ChannelHistory.KeysAfter` | lib/wire/channelmanager.ts:23-99 | Which keys every call adds, removes and keeps, what it announces, and that a registration succeeds iff its alias is free |
| `ChannelRuns.RegisterSoundIff` | lib/wire/channelmanager.ts:23-45 | Registering keeps this soundness iff it fails or the id is free: not in use, or in use only by a channel of that one name that no timer checks |
| `ChannelRuns.StaleTimerExpires` | lib/wire/channelmanager.ts:23-45 | Registering again, now without a timeout, under the id of a channel with one: the old timer makes the new channel expire |
| `ChannelRuns.UnregisterByIdOnly` | lib/wire/channelmanager.ts:47-58 | Unregistering keeps this soundness iff it is done by the id |
| `ChannelRuns.ExtendSoundIff` | lib/wire/channelmanager.ts:67-72 | Changing a timeout, also to a shorter one, keeps this soundness iff the channel has no timer, or the new timeout is above 1 and no shorter than the timer waits |
| `ChannelTiming.FiresExactly` | lib/wire/channelmanager.ts:79-99 | In every run with punctual timers a channel expires exactly when, by the calls that reached it, it has been inactive for its timeout, losing both keys; an earlier check comes back then or after the longest delay |
| `ChannelTiming.NeverOverdue` | lib/wire/channelmanager.ts:79-99 | In punctual runs no channel is stored after that time, except one registered with the infinite timeout 1 |
| `ChannelTiming.Countdown` | lib/wire/channelmanager.ts:91-98 | A channel left alone is re-armed a fixed finite number of times: its timer fires as often as the remaining re-arms go down |
| `Srv.GroupByPriority` | lib/util/srv.ts:6-24 | The reduce loop yields the groups of the stably sorted records |
| `Srv.PickRecords` | lib/util/srv.ts:26-37 | The counter loop selects what the running totals say, and recurses on the rest |
| `SrvLaws.Sorts` | lib/util/srv.ts:7-8 | The sort orders, keeps all records, and keeps the order of those it cannot tell apart |
| `SrvLaws.GroupsOf` | lib/util/srv.ts:6-24 | Groups are non-empty, of one priority each, rising, and together the sorted list |
| `SrvLaws.SelectTiles` | lib/util/srv.ts:27-35 | The draws that select record i are exactly the interval of length weight i behind the weights before it; the intervals tile [0, sum) |
| `SrvLaws.AnyOrder` | lib/util/srv.ts:26-37 | Every order of the records of positive weight is picked for some draws, whatever draws come after them |
| `SrvLaws.SortOrders` | lib/util/srv.ts:42-44 | For all draws the result is a permutation of exactly the positive-weight records, priorities never decreasing |
| `SrvLaws.SortReaches` | lib/util/srv.ts:6-44 | Conversely every such permutation with non-decreasing priority is what sorting returns for some draws |
| `SrvLaws.SortKeepsAllIff` | lib/util/srv.ts:25-44 | No record is lost iff none has weight 0 |
| `SrvDraws.SortFollowsDraws` | lib/util/srv.ts:6-44 | For all draws: the records of each priority stand by falling weight, equal ones as given; each draw, scaled to the weights still there, hits the interval of the record that comes next; one more draw ends each priority |
| `SrvDraws.ZeroDrawsSort` | lib/util/srv.ts:6-44 | With all draws 0 the result is the records of positive weight by rising priority, then falling weight, then given order |
| `SrvLaws.AttemptTries` | lib/util/srv.ts:73-89 | Records are tried in order up to the first call that succeeds, whatever the calls' outcomes depend on; the caller's promise is rejected iff there is no record, and a total failure of some records is left unhandled |
| `SrvLaws.LowerFirst` | lib/util/srv.ts:42-89 | A record is tried only after every usable record of a lower priority number was tried, as often as it was given, and all calls so far failed |
| `StateQueue.StateQueue.Push` | lib/util/statequeue.js:10-23 | Cuts the queue back to the state if it is queued, else appends it |
| `StateQueue.StateQueue.Next` | lib/util/statequeue.js:4-6 | Takes the first state, or nothing |
| `StateQueue.AlwaysWalk` | lib/util/statequeue.js:4-23 | States taken, followed by the queue, form a walk of consecutively pushed pairs that ends at the last pushed state; no state is queued twice |
| `StateQueue.SimplePath` | lib/util/statequeue.js:10-23 | Pushes along the edges of a graph leave a simple path of it |
| `StateQueue.PushAllErasesLoops` | lib/util/statequeue.js:10-23 | Pushing a walk onto an empty queue leaves its loop erasure, defined by last visits |
| `TransManager.Transactions.RunTransaction` | lib/wire/transmanager.ts:46-76 | Subscribes, arms the timer and listens on its response channel |
| `TransManager.Transactions.HandleReply` | lib/wire/transmanager.ts:50-60 | A reply with a listener clears all three and settles by its success flag; any other does nothing |
| `TransManager.Transactions.HandleTimeout` | lib/wire/transmanager.ts:63-69 | An armed timer clears all three and rejects |
| `TransManager.Isolated` | lib/wire/transmanager.ts:40-78 | In every interleaving a transaction has listener, one subscription and timer exactly while pending, and settles at most once, as its own first reply or timer decides |
| `TransManager.OthersDoNotMatter` | lib/wire/transmanager.ts:40-78 | Deleting all other transactions' events from a run changes nothing for it |
| `Limiter.Limiter.StartNext` | lib/util/requtil.js:26-31 | Starts calls in order while there is room, up to one that throws |
| `Limiter.Limiter.Invoke` | lib/util/requtil.js:36-39 | Queues the call and starts what may start |
| `Limiter.Limiter.Complete` | lib/util/requtil.js:32-35 | Frees one place and starts what may start |
| `Limiter.AlwaysFair` | lib/util/requtil.js:22-40 | Started calls followed by the queue are the submissions in order; running never exceeds the limit and counts the calls started and not completed |
| `Limiter.NoIdlePlace` | lib/util/requtil.js:26-40 | After each event of every run, also if handlers throw, the queue is empty or the limit is reached |
| `Limiter.JammedIff` | lib/util/requtil.js:26-35 | Nothing ever starts again, whatever is submitted or completes, iff as many handlers have thrown as may run |
| `FailCounter.FailCounter.Inc` | lib/util/failcounter.ts:14-27 | Discards the leading old entries, records the call, and reports iff the threshold is exceeded |
| `FailCounter.MemoryIsWindow` | lib/util/failcounter.ts:14-27 | With a clock that does not run backwards the memory is the whole history cut to the window, and the call itself |
| `FailCounter.ReportsExactly` | lib/util/failcounter.ts:23-26 | A report is made iff more than the threshold of calls fall into the window |

## Left out

- Handlers and listeners that call back into the machine that runs them, except that a queued handler of the reorder buffer may stop the queue, as the touch plugin's closing gesture does.
- TTL set: keys that JavaScript objects inherit (such as `toString`), fractional and NaN times; the bump is split into methods for its two halves, as is the registration of a channel.
- Message streams: the host stream's handling of what is pushed; it may swallow empty frames and merge others.
- Process manager: spawning, signals, restarts and health checks (`lib/util/ProcessManager.ts:142-312`, `lib/util/ProcessManager.ts:370-452`), and managers without a pool; contexts and the terminate handler do nothing to resources.
- Process manager: the `Map` is a list in creation order, and a suspended removal is an entry of a list instead of a continuation.
- Reorder buffer: negative and fractional sequence numbers.
- Channels: fractional timeouts; timers are entries of a map from handles to due times.
- Service records: `resolve` (DNS and URL formatting) and the rounding of floating-point products; that sorting reorders the caller's array and picking consumes the groups in place.
- `runTransactionDev` (`lib/wire/transmanager.ts:84-122`), whose listener is not keyed by a response channel; the tracing spans.
- SeqQueueDelivery.DeliveredIff: starts from a closed, empty queue, because an open one may consume under an older start; only the last handler may stop the queue.
- SeqQueueDelivery.BurstDelivered: the same.
- TransManager.Isolated: assumes unique response channels, which the random identifiers provide only with overwhelming probability.
- Limiter.Limiter.Complete: is called only while some call runs, because completions come from started calls alone.
- Databases, sockets, generated message classes, option parsing and device tools.
