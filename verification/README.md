# dYdX v4 chain: streaming, checkTx locking, staging and money arithmetic

This project models four parts of the v4 protocol and proves properties of every run or every input.

* **Full-node streaming** (`SubscriptionIndex`, `StreamTypes`, `StreamSpec`, `StreamRuns`, `StreamCache`,
  `OffchainGrouping`, `StreamContents`, `StreamingManager`, `StreamReplay`, `SliceSharing`). The class `StreamingManager` holds what the manager
  holds: the table of subscriptions, three inverted indexes and the all-pairs set, the two cache slices in step,
  and a bounded channel per subscription. Every critical section is a method proved to be one step of a simple
  service, `StreamRuns.Step`, in which each subscriber just has its own queue of pending updates. The theorems
  about whole runs are about that service: what a subscriber was sent is exactly its log, in order; channels and
  cache stay within their limits; snapshots fall on their schedule in 32-bit arithmetic. `StreamReplay` drives a
  manager by any list of calls and states them of the manager itself. `StreamContents` says position by position
  what a subscriber is sent. `SliceSharing` looks one level lower, at the slices that hold recipient lists.
* **FinalizeBlock event staging** (`Keys`, `EventStager`). A list kept in a byte-keyed store as a counter and
  prefixed big-endian index keys behaves as a plain sequence.
* **The locking ante handler** (`AnteSerial`, `AnteProtocol`, `AnteProof`, `AnteRuns`, `AnteWrites`, `AnteChains`,
  `AnteTermination`). Concurrent `checkTx`
  handlers are a state machine whose steps are taking a row lock, branching, running one decorator, taking the
  global lock, writing one key of the branch, and unlocking. Decorators are arbitrary functions of the part of
  the store that the handler's documented contract lets them see. The branch reads through to the shared store.
  Every interleaving is equivalent to running the committed transactions one after the other, no interleaving
  deadlocks, every run ends, and every run can be completed. Each key ends with what the last committed decorator
  wrote there, and every decorator of the handler's chains counts, in order.
* **Arithmetic and random bytes** (`BigMath`, `Quantums`, `IntMath`, `RandomBytes`). Go's truncated and Euclidean
  divisions are kept apart, and machine integers wrap explicitly.

`Basics`, `Seqs` and `Arith` hold shared types and small facts.

## Where the code and its documentation part ways

* Removing a subscription undoes subscribing exactly when the request names no id twice
  (`SubscriptionIndex.RemoveUndoesSubscribe`); `SubscriptionIndex.DuplicateRequestLeavesDeadId` is an instance of
  the failure.
* A recipient list cached for a clob pair shares its backing array with the index when the capacity allows. For
  every course of events up to the flush, the recipients flushed are those cached exactly when no all-pairs
  subscription was listed, or the list did not fit and was copied, or nobody subscribed to the pair and the last
  list cached in its place begins with the same all-pairs subscriptions (`SliceSharing.RecipientsKept`).
  `SliceSharing.DeliveryStolen`, `SliceSharing.TwoDeliveriesStolen` and `SliceSharing.DeliveryDisplaced` are
  instances: one newcomer to the pair, two in a row, and a newcomer to all pairs.
* Random bytes are documented to be at least `start`. Over all draws that holds exactly when `start` is not longer
  than `end` (`RandomBytes.LowerBoundHolds`).
* `BigPow10` is wrong for the smallest 32-bit exponent and right for every other exponent of every type
  (`BigMath.BigPow10Exact`).
* `BaseToQuoteQuantums` says it rounds down; it truncates, which differs exactly for negative amounts with a
  remainder (`Quantums.RoundsDown`; `Quantums.RoundedTowardsZero` is an instance).
* `BigRatRoundToMultiple` is documented to round the value up to a multiple; it rounds the floor of the value. The
  result is the least multiple not below the value exactly when the floor is no multiple and the multiple is
  positive, or the floor is a multiple and the value is an integer (`BigMath.RoundsFraction`). Rounding 11/2 up to a
  multiple of 5 gives 5 (`BigMath.RoundedUpTooLow`).

## Model

| member | source | states |
|---|---|---|
| `StreamRuns.DeliveryIsTheLog` | protocol/streaming/full_node_streaming_manager.go:305-385 | In every run, for every live subscription, batches taken, then batches in its channel, then cached updates for it, equal in order and without repeats all updates addressed to it since it subscribed, for the request made in its own subscribe event, each snapshot at its moment; a reused id starts with an empty log |
| `StreamRuns.RequestIsTheirs` | protocol/streaming/full_node_streaming_manager.go:97-105 | In every run the request held for a live id is the one its present holder made |
| `StreamRuns.OnlySubscribeAdds` | protocol/streaming/full_node_streaming_manager.go:311-365 | Only an acceptable subscribe adds a subscription: with that very request, nothing sent and no snapshot yet |
| `StreamRuns.PollTakesOldest` | protocol/streaming/full_node_streaming_manager.go:389-389 | A poll takes the oldest batch, and nothing else changes |
| `StreamContents.RelevantInOrder` | protocol/streaming/full_node_streaming_manager.go:1135-1186 | Of the updates published, a subscription is sent exactly those at the positions it wants, each once and in order |
| `StreamRuns.StepDelivers` | protocol/streaming/full_node_streaming_manager.go:964-1081 | One critical section adds to a surviving subscriber's deliveries exactly what it addresses to that subscriber |
| `StreamRuns.MailOnlyForLive` | protocol/streaming/full_node_streaming_manager.go:1029-1081 | In every run nothing is cached for an id that is not live |
| `StreamRuns.SendsWhatIsOwed` | protocol/streaming/full_node_streaming_manager.go:554-593 | A flush, finalized block or snapshot round puts in each channel exactly the batches owed (earlier pending updates as their own batch, then at most one final batch), and a subscription is removed if and only if they do not all fit |
| `StreamRuns.OtherEventsKeep` | protocol/streaming/full_node_streaming_manager.go:1006-1018 | Subscribing, caching and polling end a subscription exactly when caching exceeds the cache limit |
| `StreamRuns.Bounded` | protocol/streaming/full_node_streaming_manager.go:1006-1018 | In every run the cache holds at most its maximum and every channel at most its capacity |
| `StreamRuns.FinalizeAt` | protocol/streaming/full_node_streaming_manager.go:1191-1256 | For one subscriber a finalized block is: send what is pending, then send what the block has for it; it survives exactly if both sends do |
| `StreamRuns.BlockBatchOrder` | protocol/streaming/full_node_streaming_manager.go:1210-1255 | A subscriber's final batch is its share of the sync updates, then fills, order book, subaccount and price updates, staging order kept in each |
| `StreamRuns.RearmWhenDue` | protocol/streaming/full_node_streaming_manager.go:1365-1375 | The 32-bit comparison that asks for a new snapshot succeeds exactly when the next block is a multiple of the interval after the first snapshot |
| `StreamRuns.SnapshotSchedule` | protocol/streaming/full_node_streaming_manager.go:1303-1377 | With one call at each consecutive height, a call puts in a live subscription's channel what was pending and then, if and only if the height is h, h+k, h+2k, ... after its first snapshot at h (only h when k is 0), the snapshot; it survives if and only if that fits |
| `StreamReplay.Perform` | protocol/streaming/full_node_streaming_manager.go:305-385 | Each call of the manager is one step of the service and keeps every invariant |
| `StreamReplay.Replay` | protocol/streaming/full_node_streaming_manager.go:112-165 | A manager driven by any list of calls is valid, is in the state the service's run ends in, and has given and owes each live subscription exactly its log |
| `StreamSpec.PublishConcat` | protocol/streaming/full_node_streaming_manager.go:1135-1148 | Caching two lots of updates is caching them as one |
| `StreamSpec.LeastFree` | protocol/streaming/full_node_streaming_manager.go:192-198 | The next id is free and all smaller ids are taken |
| `SubscriptionIndex.AddAllEntry` | protocol/streaming/full_node_streaming_manager.go:333-365 | Subscribing appends the id under each key as often as the request names the key, and makes no other key |
| `SubscriptionIndex.AddAllExact` | protocol/streaming/full_node_streaming_manager.go:333-365 | Adding a duplicate-free request keeps an index listing exactly the live subscriptions that named each key, once each, no empty lists |
| `SubscriptionIndex.DropAllExact` | protocol/streaming/full_node_streaming_manager.go:444-487 | Removing a subscription keeps an index exact |
| `SubscriptionIndex.RemoveUndoesSubscribe` | protocol/streaming/full_node_streaming_manager.go:444-487 | Removal gives back the index before subscribing if and only if the request named no key twice |
| `SubscriptionIndex.DuplicateRequestLeavesDeadId` | protocol/streaming/full_node_streaming_manager.go:446-451 | A request that names a key twice leaves its dead id listed |
| `SubscriptionIndex.AddSubscription` | protocol/streaming/full_node_streaming_manager.go:333-365 | The subscribing loop computes the specified index |
| `SubscriptionIndex.DropSubscription` | protocol/streaming/full_node_streaming_manager.go:444-457 | The removing loop, over keys in any order, computes the specified index |
| `SubscriptionIndex.DropFirst` | protocol/streaming/full_node_streaming_manager.go:446-451 | The scan cuts out the first occurrence only |
| `StreamCache.DeliverCopies` | protocol/streaming/full_node_streaming_manager.go:1040-1046 | Sorting one cached update by recipient gives each id one copy per listing and no other id anything |
| `StreamCache.DeliverOrderFree` | protocol/streaming/full_node_streaming_manager.go:1040-1046 | Recipient lists that name the same ids as often deliver the same, whatever their order |
| `StreamCache.CollectUpdates` | protocol/streaming/full_node_streaming_manager.go:1040-1046 | The flush loop sorts the cache by recipient, each recipient's updates in order |
| `StreamCache.CachingIsPublishing` | protocol/streaming/full_node_streaming_manager.go:1135-1186 | Appending updates with recipient lists that name the interested live subscriptions once each is queueing them for exactly those subscriptions |
| `StreamCache.SendBatches` | protocol/streaming/full_node_streaming_manager.go:1048-1065 | Batches are offered without blocking in any order; the ids reported are exactly those whose channel was full |
| `StreamCache.SendingIsFlushing` | protocol/streaming/full_node_streaming_manager.go:1029-1081 | Offering and then removing those refused gives the flushed table |
| `StreamingManager.SubscribeKeepsIndexes` | protocol/streaming/full_node_streaming_manager.go:329-383 | A duplicate-free subscription keeps the three indexes and the all-pairs set exact |
| `StreamingManager.RemoveKeepsIndexes` | protocol/streaming/full_node_streaming_manager.go:432-487 | Removal keeps the three indexes and the all-pairs set exact |
| `StreamingManager.PairListResolves` | protocol/streaming/full_node_streaming_manager.go:1135-1148 | A pair's list followed by the all-pairs ids names each interested live subscription once |
| `StreamingManager.StreamingManager.constructor` | protocol/streaming/full_node_streaming_manager.go:112-165 | A new manager is valid and serves nobody |
| `StreamingManager.StreamingManager.NextAvailableId` | protocol/streaming/full_node_streaming_manager.go:192-198 | The search ends with the least free id, which fits in 32 bits |
| `StreamingManager.StreamingManager.Subscribe` | protocol/streaming/full_node_streaming_manager.go:305-385 | Accepted exactly when some id is named (and subaccounts when filtering); adds under a fresh id one subscription with that very request and nothing sent, leaves every other, keeps every invariant, is the service's subscribe step |
| `StreamingManager.StreamingManager.RemoveSubscription` | protocol/streaming/full_node_streaming_manager.go:432-492 | Removes exactly that subscription, or nothing; indexes and active ids stay exact, cache untouched |
| `StreamingManager.StreamingManager.TracksSubaccount` | protocol/streaming/full_node_streaming_manager.go:694-699 | True exactly when a scan finds a live subscription that named the subaccount |
| `StreamingManager.StreamingManager.TracksMarket` | protocol/streaming/full_node_streaming_manager.go:702-707 | True exactly when a scan finds a live subscription that named the market |
| `StreamingManager.StreamingManager.CacheByPair` | protocol/streaming/full_node_streaming_manager.go:1135-1148 | Both cache slices grow in step, recipients live, updates queued for exactly the interested |
| `StreamingManager.StreamingManager.CacheByAccount` | protocol/streaming/full_node_streaming_manager.go:1154-1165 | The same for subaccount updates |
| `StreamingManager.StreamingManager.CacheByMarket` | protocol/streaming/full_node_streaming_manager.go:1171-1186 | The same for price updates; a length mismatch caches nothing |
| `StreamingManager.StreamingManager.RemoveAllIfFull` | protocol/streaming/full_node_streaming_manager.go:1006-1018 | Beyond the limit all subscriptions and cached updates go, otherwise nothing changes |
| `StreamingManager.StreamingManager.AddOrderUpdates` | protocol/streaming/full_node_streaming_manager.go:964-981 | Keeps every invariant and is the service's add step |
| `StreamingManager.StreamingManager.AddSubaccountUpdates` | protocol/streaming/full_node_streaming_manager.go:985-1001 | Keeps every invariant and is the service's add step |
| `StreamingManager.StreamingManager.FlushStreamUpdates` | protocol/streaming/full_node_streaming_manager.go:1020-1081 | Empties the cache, keeps every invariant and is the service's flush step |
| `StreamingManager.StreamingManager.StreamBatchAfterFinalizeBlock` | protocol/streaming/full_node_streaming_manager.go:1191-1256 | Keeps every invariant and is the service's finalized-block step for the block's updates |
| `StreamingManager.StreamingManager.InitializeStreams` | protocol/streaming/full_node_streaming_manager.go:1303-1377 | Keeps every invariant and is the service's snapshot step, whatever order the table is visited in |
| `StreamingManager.SnapshotOne` | protocol/streaming/full_node_streaming_manager.go:1319-1375 | One subscription's turn sends the snapshot it waits for, schedules the next, or loses the subscription if the channel is full |
| `StreamingManager.BuildSnapshot` | protocol/streaming/full_node_streaming_manager.go:1321-1363 | The snapshot is one order book message with the named books end to end, then the named subaccounts that are known, then the named prices that are known, each in request order with its value, height and mode, and nothing else |
| `StreamContents.SnapshotContents` | protocol/streaming/full_node_streaming_manager.go:1321-1363 | The same of the specified snapshot |
| `StreamContents.AccountSentOnce` | protocol/streaming/full_node_streaming_manager.go:1331-1341 | A duplicate-free request gets each known subaccount it names exactly once, with its value |
| `StreamContents.PriceSentOnce` | protocol/streaming/full_node_streaming_manager.go:1343-1355 | The same for prices |
| `StreamingManager.FillUpdates` | protocol/streaming/full_node_streaming_manager.go:807-842 | Each fill becomes one update for the first pair of its perpetual, or for the pair of its first order |
| `StreamingManager.AccountUpdates` | protocol/streaming/full_node_streaming_manager.go:912-935 | Each staged subaccount update becomes one update for its subaccount, with its contents |
| `StreamingManager.PriceUpdates` | protocol/streaming/full_node_streaming_manager.go:937-960 | Each staged price becomes one update for its market, with its contents |
| `SliceSharing.Append` | protocol/streaming/full_node_streaming_manager.go:1142-1143 | Appending reads back as concatenation, in place or not |
| `SliceSharing.RecipientsKept` | protocol/streaming/full_node_streaming_manager.go:1135-1148 | For every sequence of pair subscriptions and cachings up to the flush, a cached list keeps its recipients if and only if it listed no all-pairs id, or was copied, or nobody joined the pair and the last list cached in place begins with the same all-pairs ids |
| `SliceSharing.ClearIsUntouched` | protocol/streaming/full_node_streaming_manager.go:1142-1143 | No sequence of later events changes a slice in another array or within the index's own length |
| `SliceSharing.CopiedListIsSafe` | protocol/streaming/full_node_streaming_manager.go:1142-1143 | A list with no all-pairs id, or one that was copied, is flushed exactly as cached whatever happens in between |
| `SliceSharing.LaterCachingIsHarmless` | protocol/streaming/full_node_streaming_manager.go:1135-1148 | From a caching on, any number of cachings with the same all-pairs subscriptions keep its recipients, whatever order the set yields |
| `SliceSharing.SubscribeBetween` | protocol/streaming/full_node_streaming_manager.go:333-343 | A single subscription to the pair right after caching keeps the recipients if and only if no all-pairs id was listed or the list got its own array; otherwise it replaces the first all-pairs id |
| `SliceSharing.DeliveryStolen` | protocol/streaming/full_node_streaming_manager.go:1142-1143 | An instance: the newcomer gets an update that the all-pairs subscriber loses |
| `SliceSharing.TwoDeliveriesStolen` | protocol/streaming/full_node_streaming_manager.go:1142-1143 | An instance: two newcomers in a row take two all-pairs places |
| `SliceSharing.DeliveryDisplaced` | protocol/streaming/full_node_streaming_manager.go:83-89 | An instance: with nobody joining the pair, a new all-pairs subscriber displaces the earlier one |
| `SliceSharing.WholeListIsSafe` | protocol/streaming/full_node_streaming_manager.go:1154-1186 | No sequence of later events changes a subaccount or market list |
| `OffchainGrouping.GroupByPair` | protocol/streaming/full_node_streaming_manager.go:709-765 | The i-th update carries exactly the events at the increasing positions of the input that belong to the i-th pair, without the snapshot flag and at the given height |
| `OffchainGrouping.OnlyInOrder` | protocol/streaming/full_node_streaming_manager.go:718-738 | A group is exactly the events of its pair, each once and in input order |
| `OffchainGrouping.GroupItemsAre` | protocol/streaming/full_node_streaming_manager.go:740-765 | Each group is addressed to its own pair |
| `OffchainGrouping.PairsOccur` | protocol/streaming/full_node_streaming_manager.go:718-738 | The pairs listed are exactly those of the input |
| `OffchainGrouping.PairsDistinct` | protocol/streaming/full_node_streaming_manager.go:718-738 | No pair is listed twice |
| `OffchainGrouping.PairsInFirstOccurrenceOrder` | protocol/streaming/full_node_streaming_manager.go:718-738 | Pairs stand in order of first occurrence |
| `OffchainGrouping.GroupsConserve` | protocol/streaming/full_node_streaming_manager.go:709-765 | The groups together hold every event as often as the input |
| `OffchainGrouping.SplitStaged` | protocol/streaming/full_node_streaming_manager.go:1260-1301 | The loop splits staged events into the four categories |
| `OffchainGrouping.CategoryInOrder` | protocol/streaming/full_node_streaming_manager.go:1260-1301 | A category is exactly the staged events of its kind, each once and in staging order |
| `OffchainGrouping.BookItemsConcat` | protocol/streaming/full_node_streaming_manager.go:1228-1235 | Staged order book updates are grouped one by one, in order |
| `OffchainGrouping.SplitConserves` | protocol/streaming/full_node_streaming_manager.go:1260-1301 | Every staged event is used in its own category as often as staged and in no other |
| `Keys.Uint32ToKey` | protocol/lib/keys.go:9-13 | The fresh buffer holds the four-byte key |
| `Keys.KeyRoundTrip` | protocol/lib/keys.go:9-18 | Decoding an encoded index gives it back |
| `Keys.BytesRoundTrip` | protocol/lib/keys.go:9-18 | Encoding a decoded four-byte string gives it back |
| `Keys.KeysOrdered` | protocol/lib/keys.go:9-13 | Keys are ordered lexicographically as their indexes |
| `EventStager.StreamingKeysApart` | protocol/streaming/constants.go:9-12 | With the keys in use, the counter's key is no event's key |
| `EventStager.StreamingKeysSpelled` | protocol/streaming/constants.go:9-12 | The keys in use spell the documented strings |
| `EventStager.EventKeyParts` | protocol/finalizeblock/event_stager.go:69-83 | An event's key is the prefix followed by its index in four bytes |
| `EventStager.EntriesKept` | protocol/finalizeblock/event_stager.go:69-83 | Below 2^32 events, each staged event can be read under its index |
| `EventStager.RetrieveStaged` | protocol/finalizeblock/event_stager.go:39-83 | For any lossless codec and any counter key apart from the event keys, retrieval returns exactly the staged sequence if and only if fewer than 2^32 events were staged |
| `EventStager.EventStager.Stage` | protocol/finalizeblock/event_stager.go:69-83 | Staging writes the wrapped counter and the event under the old count, nothing else |
| `EventStager.EventStager.GetStaged` | protocol/finalizeblock/event_stager.go:39-56 | The retrieval loop returns the stored list |
| `EventStager.StageAndRetrieve` | protocol/finalizeblock/event_stager.go:39-83 | Staging a list one by one and retrieving it gives the list |
| `AnteRuns.Linearizable` | protocol/app/ante.go:211-309 | In every interleaving the settled store equals running the decided transactions one by one, each with the outcome and context it has when run alone at its place; every finished handler is in that order once |
| `AnteRuns.CommittedOneByOne` | protocol/app/ante.go:358-454 | In every interleaving the settled store equals running only the committed transactions one by one in the order of their writes |
| `AnteWrites.SettledValue` | protocol/app/ante.go:302-306 | In every run each key of the settled store holds what the last committed decorator that wrote it wrote, or its start value |
| `AnteWrites.WorkEffect` | protocol/app/ante.go:48-63 | A decorator runs on exactly what it may touch; its error fails the transaction; if it passes, its context is handed on, what it wrote within reach reads back from the branch and all else is as before |
| `AnteWrites.IncrementEffect` | protocol/app/ante.go:282-286 | The sequence step adds one for each signer and changes nothing else |
| `AnteWrites.AfterValue` | protocol/app/ante.go:447-451 | A committed transaction leaves each key with what it last wrote there |
| `AnteChains.ClobChain` | protocol/app/ante.go:256-306 | A clob transaction is rejected by the first of its checks that fails, in the handler's order and with that check's error, and committed if none fails |
| `AnteChains.ClobBlocked` | protocol/app/ante.go:256-306 | No clob transaction commits against any one of its checks |
| `AnteChains.OtherChain` | protocol/app/ante.go:420-453 | The same for other transactions |
| `AnteChains.OtherBlocked` | protocol/app/ante.go:420-453 | No other transaction commits against any one of its checks |
| `AnteChains.ClobSeesShared` | protocol/app/ante.go:288-300 | The rate limit and the clob decorator see the whole shared state |
| `AnteChains.OtherSeesShared` | protocol/app/ante.go:416-434 | All decorators of other transactions see the whole shared state |
| `AnteChains.ClobEarlyIsBlind` | protocol/app/ante.go:256-286 | Nothing else a clob transaction checks depends on the shared state |
| `AnteRuns.RejectedLeavesNoTrace` | protocol/app/ante.go:302-306 | A rejected transaction changes the store nowhere in the order |
| `AnteRuns.RunKeepsInv` | protocol/app/ante.go:211-309 | In every run locks, branches, outcomes and the store satisfy the invariant |
| `AnteProof.StepKeepsInv` | protocol/app/ante.go:211-309 | Each step of each handler keeps the invariant |
| `AnteRuns.SomeoneCanStep` | protocol/app/ante.go:240-293 | In any state satisfying the invariant, if a handler is unfinished, an unfinished handler can step |
| `AnteRuns.NeverStuck` | protocol/app/ante.go:398-418 | No run reaches a state where unfinished handlers all wait |
| `AnteTermination.StepProgress` | protocol/app/ante.go:211-309 | Every step of every handler leaves less to do |
| `AnteTermination.EveryRunEnds` | protocol/app/ante.go:211-309 | No run goes on for ever |
| `AnteTermination.EveryRunCompletes` | protocol/app/ante.go:358-454 | Every run can be continued until all handlers are done, all locks are free and every transaction is decided |
| `AnteRuns.PlanIncrements` | protocol/app/ante.go:272-286 | A transaction increments sequences exactly once, or not at all when it is a short-term clob or timestamp-nonce transaction |
| `AnteRuns.SequenceNumbers` | protocol/app/ante.go:436-451 | In every run an account's sequence is its start plus the number of committed transactions it signed that were neither short-term clob nor timestamp-nonce |
| `AnteSerial.FailedIsRejected` | protocol/app/ante.go:256-306 | A failing decorator rejects the transaction with its error and leaves the store alone |
| `AnteSerial.PrefixAgrees` | protocol/app/ante.go:48-63 | Decorators under account locks cannot tell apart stores that agree on the signers' rows |
| `AnteSerial.DisjointAgree` | protocol/app/ante.go:48-63 | Writes of a handler with other signers are invisible to them |
| `RandomBytes.RandomBytesBetween` | protocol/lib/random.go:15-94 | The buffer-filling loops compute the specified string, or panic, for every list of draws |
| `RandomBytes.NarrowFits` | protocol/lib/random.go:64-91 | After any byte drawn, the next range is not empty and the two prefix flags are right |
| `RandomBytes.TargetShortens` | protocol/lib/random.go:57-62 | The length is cut once for each leading draw that hits the last of 257 values |
| `RandomBytes.PanicsWhenOutOfOrder` | protocol/lib/random.go:26-46 | It panics exactly when `start` comes after `end` |
| `RandomBytes.OutputsExactly` | protocol/lib/random.go:15-94 | For bounds in order a string can come out if and only if it is not after `end`, its length lies between the two lengths, and it is not before `start` or is a proper prefix of `start` |
| `RandomBytes.LowerBoundHolds` | protocol/lib/random.go:9-15 | No draw gives less than `start` if and only if `start` is not longer than `end` |
| `BigMath.BigDivCeil` | protocol/lib/big_math.go:165-175 | The least integer not below the quotient, for a non-zero divisor of either sign |
| `BigMath.BigDivFloor` | protocol/lib/big_math.go:178-188 | The greatest integer not above the quotient, for a non-zero divisor of either sign |
| `BigMath.FloorUnique` | protocol/lib/big_math.go:178-188 | There is one floor, so all roundings down agree |
| `BigMath.CeilUnique` | protocol/lib/big_math.go:165-175 | There is one ceiling, so all roundings up agree |
| `BigMath.BigMulPpm` | protocol/lib/big_math.go:20-28 | Exact ceiling or floor of `val * ppm / 10^6` |
| `BigMath.BigIntMulPpm` | protocol/lib/big_math.go:72-76 | Exact floor of `input * ppm / 10^6` |
| `BigMath.BigRatRound` | protocol/lib/big_math.go:192-206 | Exact ceiling or floor of the fraction |
| `BigMath.BigIntMulPow10` | protocol/lib/big_math.go:55-68 | Exact product for non-negative exponents, exact ceiling or floor of the division by the power used otherwise, which is the right power if and only if the exponent is not the smallest int32 |
| `BigMath.BigIntRoundToMultiple` | protocol/lib/big_math.go:211-225 | The least multiple not below, or the greatest not above |
| `BigMath.BigRatRoundToMultiple` | protocol/lib/quantums.go:92-112 | Down: the greatest multiple not above the value; up: the least multiple not below the value if and only if the floor is no multiple and the multiple is positive, or the floor is a multiple and the value an integer |
| `BigMath.RoundsFraction` | protocol/lib/quantums.go:92-112 | The same of the specified result, for every fraction and every non-zero multiple |
| `BigMath.RoundsFloor` | protocol/lib/quantums.go:92-112 | Seen from the floor of the value, rounding down is always right and rounding up if and only if the multiple is positive or divides the floor |
| `BigMath.RoundedUpTooLow` | protocol/lib/quantums.go:92-112 | An instance: 11/2 rounded up to a multiple of 5 is 5 |
| `BigMath.RoundingsAgree` | protocol/lib/quantums.go:94-112 | For a positive multiple, rounding a fraction equals rounding its floor |
| `BigMath.WarmCache` | protocol/lib/big_math.go:298-313 | The growing decimal strings give exactly 10^i for each i below 100 |
| `BigMath.Pow10Helper` | protocol/lib/big_math.go:281-293 | The halving recursion over the memo ends and is 10^e for every exponent |
| `BigMath.PowersOfTen` | protocol/lib/big_math.go:298-313 | The powers start with 1 and 10 |
| `BigMath.Pow10Add` | protocol/lib/big_math.go:281-293 | Powers multiply as their exponents add |
| `BigMath.WrapCongruent` | protocol/lib/big_math.go:43-48 | Machine wrap-around changes a number by a multiple of the type's span only |
| `BigMath.BigPow10Exact` | protocol/lib/big_math.go:36-51 | 10^abs(e) if and only if e is not the smallest int32; the sign flag is always right |
| `Quantums.ExponentExact` | protocol/lib/quantums.go:35-35 | The 32-bit exponent is price exponent plus base resolution plus 6 if and only if that fits |
| `Quantums.BaseToQuoteQuantums` | protocol/lib/quantums.go:26-50 | `base * price * 10^e`, truncated towards zero; the smallest exponent shifts too many places |
| `Quantums.QuoteToBaseQuantums` | protocol/lib/quantums.go:67-90 | The two divisions equal one truncated division by the product, for every signed amount; the smallest exponent shifts too many places |
| `Quantums.PlacesExact` | protocol/lib/quantums.go:35-41 | The shift is by the exponent's size if and only if the exponent is not the smallest |
| `Quantums.ConversionsExact` | protocol/lib/quantums.go:26-90 | Both conversions, said with multiplication only: exact, or cut off towards zero by less than one quantum |
| `Quantums.QuoQuo` | protocol/lib/quantums.go:76-87 | Two truncated divisions equal one by the product |
| `Quantums.BaseRoundTrip` | protocol/lib/quantums.go:26-90 | Base to quote and back never grows or changes sign, is exact for e >= 0, and otherwise loses L with L * price < 10^-e + price |
| `Quantums.QuoteRoundTrip` | protocol/lib/quantums.go:26-90 | Quote to base and back never grows or changes sign, and loses less than 10^e * price, or L with L * 10^-e < price + 10^-e |
| `Quantums.RoundsDown` | protocol/lib/quantums.go:25-47 | The conversion is the floor if and only if the amount is not negative or nothing is dropped |
| `Quantums.RoundedTowardsZero` | protocol/lib/quantums.go:25-47 | An instance: minus a tenth becomes 0, not -1 |
| `IntMath.MulPpm` | protocol/lib/math.go:71-91 | The floor of `x * ppm / 10^6`, or a panic exactly when that does not fit the type |
| `IntMath.AbsDiffUint64` | protocol/lib/math.go:109-114 | The distance between the two numbers |
| `IntMath.Uint64LinearInterpolate` | protocol/lib/math.go:20-32 | An error exactly for cPpm over 10^6, otherwise no panic and a value between v0 and v1, away from v0 by exactly the floor of the share asked for |
| `IntMath.InterpolationMonotone` | protocol/lib/math.go:20-32 | Monotone in cPpm from exactly v0 to exactly v1 |
| `IntMath.AvgInt32` | protocol/lib/math.go:118-141 | Panics exactly for empty or too long lists; otherwise the truncated mean, computed in 64 bits without overflow, the range panic unreachable |
| `IntMath.SumSplit` | protocol/lib/math.go:129-133 | The sum is the sum of its parts, down to single entries |
| `IntMath.AverageBetween` | protocol/lib/math.go:116-141 | The average lies between any bounds of the entries |
| `IntMath.SumTight` | protocol/lib/math.go:13-15 | At the length limit the lowest sum is the lowest 64-bit value; one entry more would overflow |
| `IntMath.Median` | protocol/lib/math.go:177-212 | An error exactly for the empty input, otherwise the exact median of the multiset, a half rounded away from zero |
| `IntMath.MiddleExact` | protocol/lib/math.go:193-211 | The mean of the two middle elements is exact and no step overflows, for all four integer types |
| `IntMath.MedianOfPermutation` | protocol/lib/math.go:177-212 | Rearranging the input does not change the median, and there is only one |

## Left out

- Delivery after the channel: the sending loop of `Subscribe`, gRPC and websockets, tickers, goroutines, `Stop`,
  metrics and logging. A channel is a bounded sequence and a poll may happen at any time.
- The filters by subaccount inside `Subscribe`'s sending loop.
- `SendOrderbookUpdates`, `SendOrderbookFillUpdate`, `SendTakerOrderStatus` and the `Send*` staging wrappers: they
  build updates and call the modelled caching and staging methods.
- Update payloads the manager never reads are numbers; a nil oneof and unmarshalling panics do not occur in the
  model, and a fill that cannot be attributed to a pair (a panic) is excluded.
- A subscription is a value in the table, not a shared pointer; a removed subscription's channel is dropped with
  it, so reads by a poller that outlives the removal are not modelled.
- StreamingManager.StreamingManager.Subscribe: requires duplicate-free id lists, because removal drops only one
  occurrence (`SubscriptionIndex.RemoveUndoesSubscribe` gives the exact condition), and fewer than 2^32
  subscriptions.
- StreamingManager.StreamingManager.CacheByPair: recipient lists are values; sharing of backing arrays is modelled
  separately in `SliceSharing`, for one pair. Removal, which shifts ids in place, happens only while nothing is
  cached. The two lists have equal length, as every caller builds them in step; with fewer pairs than updates the
  flush would panic.
- StreamingManager.StreamingManager.CacheByAccount: the two lists have equal length, for the same reason.
- StreamingManager.StreamingManager.AddOrderUpdates: the two lists have equal length, for the same reason.
- StreamingManager.StreamingManager.AddSubaccountUpdates: the two lists have equal length, for the same reason.
- StreamReplay.Replay: never 2^32 subscriptions at once, and calls within what the manager's methods ask.
- StreamRuns.SnapshotSchedule: heights do not wrap around 32 bits within a run; the scheduled height may.
- EventStager.RetrieveStaged: gas metering and the codec's own format are not modelled; the codec is any lossless one.
- AnteRuns.Linearizable: covers non-simulated `checkTx` with the two message kinds that lock; application-injected
  messages, simulation and `deliverTx` take no locks here. Decorators are arbitrary functions within the frame the
  handler's comment demands; state outside the store, such as the order book in memory, is not modelled.
- AnteRuns.NeverStuck: assumes that the multi-row lock takes rows in one fixed order.
- AnteTermination.EveryRunEnds: each decorator is one step, so that it ends is assumed.
- AnteRuns.SequenceNumbers: sequence numbers do not wrap around 64 bits.
- BigMath.WarmCache: parsing covers decimal digit strings only.
- Quantums.QuoteToBaseQuantums: a zero price divides by zero and is excluded.
- IntMath.Median: the library sort is stood for by an insertion sort in place; any sort gives the same result.
- The distribution of random bytes (only which strings can come out) and the panic on a missing random source.
- Floating-point helpers, clamps, minima and maxima, and the remaining modules of the chain.
