# wsmux, verified

wsmux lets many JSON-RPC clients share a few upstream nodes: one follow of the chain, one running
operation, one pinned block and one connection serve all of them at once. Each client must still see
what it would see alone. This project models the code that keeps it so and proves that it does, over
every input, run or interleaving.

Where the program changes state step by step, a class with the program's fields does the same steps,
and each method is proved equal to a function on values (`Contents`, `State`, `Queued`). What the
program is for is then proved about that function: invariants of all runs, round trips, exactness.
Where a promise does not hold of the code, the code is kept, a lemma shows the failing input, and
another proves exactly when it holds.

| files | component |
|---|---|
| `BlockTracker`, `BlockTrackerProperties` | ordering of `newBlock` notifications with unknown parents |
| `StateManager`, `StateManagerProperties`, `ChainView`, `LateJoin`, `LateJoinReplay`, `LateJoinLimits`, `LateJoinDepartures` | the chainHead snapshot, its replay and the handoff to the live stream |
| `Lru`, `LruProperties` | the least-recently-used cache |
| `Operations`, `OperationsProperties` | shared chainHead operations: cache, replay, live attach |
| `PinnedBlocks`, `PinnedBlocksProperties`, `PinnedSteps`, `PinnedEviction`, `PinnedFollows` | virtual unpin |
| `SharedPoolModel`, `SharedPool`, `SharedPoolProperties`, `SharedPoolRuns` | the pool of shared subscriptions |
| `MinHeap`, `UpstreamPool`, `UpstreamRegistry`, `UpstreamProperties`, `RegistryProperties` | load-based choice of upstream connections |
| `TaskQueue`, `UpstreamServer`, `UpstreamServerProperties`, `UpstreamServerRuns` | request demultiplexing over the task ring |
| `TokenBucket` | rate limiting, over the reals |
| `TrustedIps`, `TrustedIpsProperties`, `TrustedIpsTexts`, `Text`, `Bits` | CIDR matching |
| `Collections` | sequence facts shared by the others |

## Findings

Where the code and its documentation or evident intent part, the model follows the code.

- A block that waited for its parent enters the snapshot without ever being emitted live. The live
  stream accounts for all that the snapshot gains exactly when the event, whichever it is, wakes no
  waiting block (`LiveStreamIsCompleteIff`); new blocks (`ChildFirstDiverges`), finalized and
  `initialized` events (`ReleasedSilently`) all fail it. Late-join equivalence is therefore about
  streams that report parents first.
- The replay carries the runtime of the very first `initialized` notification. A late joiner's runtime
  is right exactly under the condition of `LateRuntimeIsRightIff`; `LateRuntimeMayBeWrong` is a stream
  that fails it.
- A client that leaves while another still waits for `initialized` ends the subscription that keeps the
  snapshot up: the other one is then never sent anything (`EarlyLeaverSilencesTheOther`). Those who stay
  see the same chain exactly when nobody left before the opening arrived (`StayersSeeTheSameChainIff`).
- A client that joins a running operation is never sent its terminal event, although the repository's
  README.md (line 34) promises that it attaches to the live stream: who is told the end is said by
  `OnlyLateJoinersAreToldTheEnd`, a run in which a joiner is not by `MidwayJoinerMissesTheEnd`.
- The comment on virtual unpin says that only the last caller's unpin counts. Locals that join after
  tracking of a block began are not waited for (`LaterLocalsAreNotWaitedFor`), and an unpin is right for
  all current locals exactly when it is right for those (`UnpinIsRightIffLaterLocalsReleased`).
- Cleaning up a subscription that is not the cached least-loaded one, while it still has locals, can
  leave the cache on the entry that was just dropped (`CleanUpKeepsLeastIff`, `CleanUpMayStrandTheCache`).
  That lasts only until the second release, which the destruction of the subscription has started
  (`SecondReleaseRepairs`, `EveryRunIsSound`); without such a clean-up it never happens (`SafeRunsCacheLeast`).
- An upstream reset zeroes a client count without repairing the heap. No free capacity can stay hidden
  exactly while the connection on top has the fewest clients (`NoCapacityHiddenIff`); `ResetHidesCapacity`
  is a run after which a further connection is opened although one is free.
- A sweep walks the heap array while removals rearrange it, and passes over the connection that takes the
  place of a stopped one: it stops at most every other one of its connections (`SweepStopsTheIdle`).
- A prefix length past the address width is not rejected: an entry trusts exactly the block it writes
  iff its length is at most the width (`EntryTrustsItsBlockIff`); `/33` compares one bit of a dotted quad
  and `/129` trusts every colon-separated address (`OverlongPrefixTrustsTooMuch`).
- The 4096th task that waits in the ring makes it read as empty (`FirstInFirstOutIff`,
  `FullRingForgetsAll`).
- A task that throws ends the flush (the one enqueued in src/json-rpc/polkadot/chain-head/follow.ts:81 can:
  src/json-rpc/upstream/shared.ts:321-323). The tasks behind it wait with no flush requested until the next
  one arrives (`ThrowStrands`), and nothing else leaves tasks so (`StrandedIffLeftByThrow`).

## Model

| member | source | states |
|---|---|---|
| BlockTracker.Tracker.Remember | src/json-rpc/polkadot/chain-head/state/blocks.ts:27-40 | the known hashes gain the hash, oldest members going first beyond the bound; an absent hash changes nothing |
| BlockTracker.Tracker.Forget | src/json-rpc/polkadot/chain-head/state/blocks.ts:14-25 | the hash leaves the known set, and the queue keeps, in order, just the blocks that are neither it nor its children |
| BlockTracker.Tracker.FlushPending | src/json-rpc/polkadot/chain-head/state/blocks.ts:42-64 | the nested scan with splicing terminates and equals repeated left-to-right passes; it returns the applied blocks in order |
| BlockTracker.Tracker.HandleNewBlock | src/json-rpc/polkadot/chain-head/state/blocks.ts:66-88 | a block with an unknown parent is queued unless its hash already waits; any other is remembered, accepted and followed by a flush |
| BlockTrackerProperties.FlushIsSound | src/json-rpc/polkadot/chain-head/state/blocks.ts:42-64 | applied plus remaining is the old queue; each applied block's parent was known at the start or applied before it; no remaining block has a known parent |
| BlockTrackerProperties.FlushIsLeastFixedPoint | src/json-rpc/polkadot/chain-head/state/blocks.ts:42-64 | when what can become known fits the bound, the flush applies exactly the least set closed under "parent known", and leaves the others, however many, in order |
| BlockTrackerProperties.FedSettles | src/json-rpc/polkadot/chain-head/state/blocks.ts:66-88 | after any sequence of blocks, repeated or not, when what can become known fits the bound, known is what is reachable from the initial hashes and pending is the rest |
| BlockTrackerProperties.ArrivalOrderIrrelevant | src/json-rpc/polkadot/chain-head/state/blocks.ts:27-88 | when what can become known fits the bound, any two feeds of the same blocks, in whatever order and however often each is repeated, end with the same known set and the same pending blocks, each waiting once |
| BlockTrackerProperties.SettlesIffItFits | src/json-rpc/polkadot/chain-head/state/blocks.ts:27-88 | the tracker ends up knowing just what is reachable iff that fits the bound |
| BlockTrackerProperties.ForgottenAtOnce | src/json-rpc/polkadot/chain-head/state/blocks.ts:14-25 | forgetting hashes takes out just those, and just the waiting blocks named by one of them or built on it, whatever the order |
| StateManager.Manager.ResetState | src/json-rpc/polkadot/chain-head/state/manager.ts:36-48 | the snapshot and the known hashes are dropped, the queue is not: what it can flush enters the new snapshot |
| StateManager.Manager.Update | src/json-rpc/polkadot/chain-head/state/manager.ts:89-175 | each event changes the snapshot, the tracker and the waiting clients as the folding function says, including a finalized event without a hash |
| StateManager.Manager.OnInitialized | src/json-rpc/polkadot/chain-head/state/manager.ts:98-107 | the opening hashes are remembered, waiting clients are served the replay before the queue is flushed |
| StateManager.Manager.RecordFinalized | src/json-rpc/polkadot/chain-head/state/manager.ts:118-170 | forgetting, removing pruned blocks and children, clearing best, replacing the opening hashes and cutting the prefix, in this order |
| StateManager.Manager.RemovePruned | src/json-rpc/polkadot/chain-head/state/manager.ts:137-146 | the backward splicing loop keeps, in order, the blocks whose hash and parent were not pruned |
| StateManager.Manager.DropApplied | src/json-rpc/polkadot/chain-head/state/manager.ts:162-168 | everything up to and including the first block with the finalized hash goes; nothing goes when there is none |
| StateManager.Manager.HandleUpdate | src/json-rpc/polkadot/chain-head/state/manager.ts:265-296 | a queued block is neither recorded nor emitted; every other event is recorded and emitted once; `stop` resets after emitting |
| StateManager.Manager.Receive | src/json-rpc/polkadot/chain-head/state/manager.ts:186-231 | each attached client gets what the live stream emits, except `initialized`, once and in order; `stop` completes them all |
| StateManager.Manager.Join | src/json-rpc/polkadot/chain-head/state/manager.ts:212-231 | a client joining after initialization gets the snapshot's replay at that moment, an earlier one waits |
| LateJoin.EvictionSparesTheLiving | src/json-rpc/polkadot/chain-head/state/blocks.ts:27-40 | while fewer than the bound were announced since the finalized hash, eviction drops only hashes older than it |
| LateJoin.CutIsExact | src/json-rpc/polkadot/chain-head/state/manager.ts:137-168 | on a well-formed finalized event, removing pruned blocks and cutting the prefix leaves exactly the live blocks, which are the descendants of the new finalized block |
| LateJoin.NewBlockTracks | src/json-rpc/polkadot/chain-head/state/manager.ts:285-292 | a well-formed new block is accepted, emitted, and the snapshot again holds the live blocks with every live hash known |
| LateJoin.FinalizedTracks | src/json-rpc/polkadot/chain-head/state/manager.ts:118-173 | a well-formed finalized event leaves the snapshot holding exactly the chain's live blocks, best block and finalized head |
| LateJoin.SnapTracks | src/json-rpc/polkadot/chain-head/state/manager.ts:89-175 | the snapshot invariant in every state of a well-formed stream |
| LateJoin.SnapshotForest | src/json-rpc/polkadot/chain-head/state/manager.ts:75-173 | `newBlocks` is exactly the live blocks; each one's parent is the finalized hash or an earlier element; the known-parent filter of the replay drops nothing |
| LateJoin.ReplayIsWhole | src/json-rpc/polkadot/chain-head/state/manager.ts:50-87 | the replay is the opening, every block of the snapshot and the announced best block |
| LateJoin.SentAgrees | src/json-rpc/polkadot/chain-head/state/manager.ts:50-175 | folding the replay at any join point and then the later events gives the finalized head, the live tree and the best block of the whole history, the best block defaulting to the finalized head |
| LateJoin.SentOpensOnce | src/json-rpc/polkadot/chain-head/state/manager.ts:212-231 | what a joiner is sent starts with `initialized` and has no other |
| LateJoin.HandoffIsExact | src/json-rpc/polkadot/chain-head/state/manager.ts:208-231 | over every interleaving of joins and events each client is sent the replay at its join, then each later event exactly once and in order |
| LateJoin.LateJoinersSeeTheSameChain | src/json-rpc/polkadot/chain-head/state/manager.ts:177-240 | late-join equivalence: every client's fold is the chain view of a client that folded the whole history, with exactly one `initialized` |
| LateJoin.StopStartsAfresh | src/json-rpc/polkadot/chain-head/state/manager.ts:270-283 | `stop` is the last thing each attached client hears, waiting clients hear nothing, no sequence of later events reaches any of them, and the state is the initial one |
| LateJoinReplay.SnapshotMirrors | src/json-rpc/polkadot/chain-head/state/manager.ts:89-175 | in every state of a well-formed stream each field of the snapshot is said by the events alone: the hashes finalized last, the opening's runtime, the live blocks in the order of their report, the best block unless finalized since |
| LateJoinReplay.SentIsReplayOf | src/json-rpc/polkadot/chain-head/state/manager.ts:50-87 | what a joiner is sent, by the events alone: the replay of those before its join, then the others |
| LateJoinReplay.EveryClientIsSent | src/json-rpc/polkadot/chain-head/state/manager.ts:50-231 | the same of every client over every interleaving of joins and events |
| StateManagerProperties.OpeningIsServedAlone | src/json-rpc/polkadot/chain-head/state/manager.ts:98-107 | clients that waited are sent the opening alone, although blocks it releases from the queue enter the snapshot just then |
| StateManagerProperties.NothingPrunedRemains | src/json-rpc/polkadot/chain-head/state/manager.ts:118-173 | after any finalized event, well-formed or not, no pruned block and no child of one is in the snapshot or in the queue, and nothing new is |
| StateManagerProperties.BestStaysIff | src/json-rpc/polkadot/chain-head/state/manager.ts:148-154 | after any finalized event the announced best block stays iff it is neither the finalized one nor pruned |
| StateManagerProperties.ChildOfBestIsAccepted | src/json-rpc/polkadot/chain-head/state/manager.ts:113-117 | a block is accepted at once after its parent was announced as best, in any state |
| StateManagerProperties.ReplayIsTheKnownPart | src/json-rpc/polkadot/chain-head/state/manager.ts:50-87 | the replay of any snapshot is the opening, its blocks whose parent is known, in order, and the best block |
| StateManagerProperties.ResetKeepsTheQueue | src/json-rpc/polkadot/chain-head/state/manager.ts:36-48 | a reset loses none of the waiting blocks; only those that name no parent enter the new snapshot |
| LateJoinDepartures.Updater.Come | src/json-rpc/polkadot/chain-head/state/manager.ts:212-231 | a client joins as `Join` says, whatever keeps the stream up |
| LateJoinDepartures.Updater.Leave | src/json-rpc/polkadot/chain-head/state/manager.ts:233-236 | the client hears nothing more and the updater's own subscription ends, whoever left |
| LateJoinDepartures.Updater.Hear | src/json-rpc/polkadot/chain-head/state/manager.ts:186-200 | an event is folded and delivered while the updater's own subscription or an attached client keeps the live stream up, and is lost otherwise |
| LateJoinDepartures.LeaversDisturbNobody | src/json-rpc/polkadot/chain-head/state/manager.ts:186-236 | over every interleaving of joins, departures and events in which nobody left before the opening, the snapshot and the sessions of those who stay are as if nobody ever left, and each leaver heard the beginning of the same |
| LateJoinDepartures.SilentAfterLeavingEarly | src/json-rpc/polkadot/chain-head/state/manager.ts:186-236 | once a client left before the opening, nothing is ever folded or sent again, whoever joins later |
| LateJoinDepartures.StayersAreServedIff | src/json-rpc/polkadot/chain-head/state/manager.ts:208-236 | a client that stays is sent the replay at its join, then each later event once and in order, iff nobody left before the opening; otherwise it still waits |
| LateJoinDepartures.StayersSeeTheSameChainIff | src/json-rpc/polkadot/chain-head/state/manager.ts:177-240 | late-join equivalence with departures: a client that stays folds to the chain view of the whole history iff nobody left before the opening |
| LateJoinDepartures.EarlyLeaverSilencesTheOther | src/json-rpc/polkadot/chain-head/state/manager.ts:233-236 | two clients wait, one leaves: the opening does not reach the other |
| LateJoinDepartures.NothingAfterStop | src/json-rpc/polkadot/chain-head/state/manager.ts:270-283 | `stop` ends the live stream for good: whatever joins, departures and events follow, none is folded and nobody is attached |
| LateJoinLimits.LateRuntimeIsRightIff | src/json-rpc/polkadot/chain-head/state/manager.ts:98-101 | a late joiner derives the right runtime iff a later finalized block changed it or it still was the opening one when it joined |
| LateJoinLimits.LateRuntimeMayBeWrong | src/json-rpc/polkadot/chain-head/state/manager.ts:98-101 | a well-formed stream of three events after which a joiner derives the opening runtime and an early client the new one |
| LateJoinLimits.LiveStreamIsCompleteIff | src/json-rpc/polkadot/chain-head/state/manager.ts:98-173 | any event is all that is emitted for it, if anything; that accounts for all the snapshot gained iff the event wakes no waiting block |
| LateJoinLimits.ChildFirstDiverges | src/json-rpc/polkadot/chain-head/state/blocks.ts:66-88 | child before parent: the attached client never hears of the child, a late joiner hears of it before its parent |
| LateJoinLimits.ReleasedSilently | src/json-rpc/polkadot/chain-head/state/manager.ts:98-173 | two runs from the start, whose next event, finalized or `initialized`, brings a waiting block into the snapshot and emits nothing of it |
| Lru.LruCache.Unlink | src/util/cache/lru.ts:16-25 | taking a node out keeps the forward chain and the reversed backward chain equal to the list without it |
| Lru.LruCache.LinkFront | src/util/cache/lru.ts:23-29 | linking a detached node puts it in front of both chains |
| Lru.LruCache.MoveToHead | src/util/cache/lru.ts:16-30 | the node's binding moves to the front, the others keep their order |
| Lru.LruCache.RemoveTail | src/util/cache/lru.ts:32-42 | the last binding goes from the chain, the map and the size |
| Lru.LruCache.Get | src/util/cache/lru.ts:45-50 | returns the binding of the key, which a hit moves to the front; chains, map and size agree afterwards |
| Lru.LruCache.Set | src/util/cache/lru.ts:52-66 | the pointer structure again refines the recency list, with the binding in front and nothing beyond the capacity |
| Lru.LruCache.Remove | src/util/cache/lru.ts:68-79 | the key's binding goes, the order of the others stays; chains, map and size agree |
| Lru.LruCache.Clear | src/util/cache/lru.ts:81-85 | the cache is empty and consistent |
| Lru.LruCache.Size | src/util/cache/lru.ts:87-89 | the counter is the number of bindings |
| LruProperties.GotMovesToFront | src/util/cache/lru.ts:45-50 | a hit moves its key to the front and changes no binding |
| LruProperties.PutDropsOldest | src/util/cache/lru.ts:52-66 | inserting into a full cache drops exactly the least recently used key, otherwise nothing is dropped |
| LruProperties.RemovedKeepsRest | src/util/cache/lru.ts:68-79 | removing keeps exactly the bindings of the other keys |
| LruProperties.NeverStale | src/util/cache/lru.ts:44-90 | after any calls keys are distinct, the size is bounded, and a lookup finds the last value set and not removed, or nothing |
| LruProperties.CachedIffHeld | src/util/cache/lru.ts:44-90 | after any calls the cached keys are those stored or found, not removed since, and at no time since preceded by as many others as the capacity: a reference defined on the calls alone |
| LruProperties.CachedIffRecentlyUsed | src/util/cache/lru.ts:44-66 | without removals a key is cached iff it was stored and fewer than the capacity of distinct other keys were used since its last use |
| Operations.OperationCache.BeforeRequest | src/json-rpc/polkadot/chain-head/ops/handler.ts:141-205 | a hit is answered with `started`, the buffer, and a live attachment while the operation runs; a miss goes on |
| Operations.OperationCache.AfterResponse | src/json-rpc/polkadot/chain-head/ops/handler.ts:207-251 | a started operation is cached as incomplete under its key, with its initiator |
| Operations.OperationCache.OnUpstream | src/json-rpc/polkadot/chain-head/ops/handler.ts:227-313 | one notification as one operation handles it: foreign and late ones are ignored, the others buffered and forwarded, terminal ones finish it |
| Operations.OperationCache.Relay | src/json-rpc/polkadot/chain-head/ops/handler.ts:265-283 | a notification that is not terminal is buffered, then sent to the initiator and to every live attachment |
| Operations.OperationCache.Finish | src/json-rpc/polkadot/chain-head/ops/handler.ts:290-314 | the terminal notification goes to the initiator alone; a flush event removes the entry, success caches it as complete |
| Operations.OperationCache.CloseClient | src/json-rpc/polkadot/chain-head/ops/handler.ts:195-201 | a closing client's live attachments end, nothing else changes |
| OperationsProperties.RunKept | src/json-rpc/polkadot/chain-head/ops/handler.ts:141-314 | the invariant of all runs: what each operation has buffered and each session was sent, as functions of the steps |
| OperationsProperties.InitiatorHearsAll | src/json-rpc/polkadot/chain-head/ops/handler.ts:265-296 | over every interleaving the initiator is sent, under its own request and subscription ids, the operation's whole sequence through its terminal event, once, in order and otherwise unchanged, field by field |
| OperationsProperties.JoinersHear | src/json-rpc/polkadot/chain-head/ops/handler.ts:161-202 | a joiner after completion is sent the whole sequence, which ended well; a joiner midway exactly the non-terminal notifications, buffered then live, once and in order until it closes; each under the joiner's own ids, field by field |
| OperationsProperties.OnlyLateJoinersAreToldTheEnd | src/json-rpc/polkadot/chain-head/ops/handler.ts:279-291 | a client answered from the cache is ever sent a terminal event iff the operation was complete when it joined |
| OperationsProperties.MidwayJoinerMissesTheEnd | src/json-rpc/polkadot/chain-head/ops/handler.ts:279-291 | a run whose joiner is not told the terminal event that the initiator is told |
| OperationsProperties.DoneIsFinal | src/json-rpc/polkadot/chain-head/ops/handler.ts:231-241 | a finished operation never changes |
| OperationsProperties.CompleteEntriesAreExact | src/json-rpc/polkadot/chain-head/ops/handler.ts:243-313 | an entry marked complete holds every notification of its own operation through one successful terminal event, no flush event, and never changes, under shared keys and eviction |
| PinnedBlocks.PinnedBlocks.UnsubscribeLocal | src/json-rpc/polkadot/chain-head/state/pinned.ts:21-56 | the local leaves every holder set; blocks left without holders are unpinned in order; a follow without blocks has no entry |
| PinnedBlocks.PinnedBlocks.UnpinLocal | src/json-rpc/polkadot/chain-head/state/pinned.ts:57-106 | the batch of unpins, with dead locals dropped, tracking started lazily and the oldest block evicted at the bound |
| PinnedBlocks.UnpinOne | src/json-rpc/polkadot/chain-head/state/pinned.ts:68-101 | one unpin: the new holder sets and whether it is sent upstream |
| PinnedBlocksProperties.UnpinsOneByOne | src/json-rpc/polkadot/chain-head/state/pinned.ts:68-101 | unpinning a batch leaves the pins, and sends the messages, of unpinning its blocks one after the other |
| PinnedBlocksProperties.TrackingIsBounded | src/json-rpc/polkadot/chain-head/state/pinned.ts:78-86 | in every run each stored set is nonempty, hashes are distinct and at most 511 are tracked |
| PinnedBlocksProperties.UnpinIsSafe | src/json-rpc/polkadot/chain-head/state/pinned.ts:21-106 | an unpin is sent only when every local present as tracking of the block began has unpinned it or left since |
| PinnedBlocksProperties.LaterLocalsAreNotWaitedFor | src/json-rpc/polkadot/chain-head/state/pinned.ts:78-80 | a run in which a block is unpinned although a local that joined later never unpinned it |
| PinnedBlocksProperties.UnpinIsRightIffLaterLocalsReleased | src/json-rpc/polkadot/chain-head/state/pinned.ts:78-100 | a sent unpin finds every current local done with the block iff those that joined after tracking began are |
| PinnedBlocksProperties.UnpinnedOnceByTheLast | src/json-rpc/polkadot/chain-head/state/pinned.ts:88-100 | with fixed locals, no repeated unpins and no step that evicts, the unpin is sent at a step iff that is the last local's unpin |
| PinnedBlocksProperties.UnpinnedExactlyOnce | src/json-rpc/polkadot/chain-head/state/pinned.ts:88-100 | over a whole such run, however many blocks it has, a block is unpinned upstream once if every local unpinned it, and otherwise never |
| PinnedSteps.EveryStepTells | src/json-rpc/polkadot/chain-head/state/pinned.ts:21-106 | every step of every run, block by block: who holds each block afterwards, and that exactly the blocks whose last holder it takes are unpinned, oldest first |
| PinnedEviction.ListsOldestFirst | src/json-rpc/polkadot/chain-head/state/pinned.ts:78-86 | in every run the tracked blocks are listed in the order in which their tracking began |
| PinnedEviction.EvictsTheOldest | src/json-rpc/polkadot/chain-head/state/pinned.ts:82-86 | a tracked block is given up without an unpin of its own iff a further block is tracked beside 511 others and it has been tracked for longest |
| PinnedFollows.FollowsAreIndependent | src/json-rpc/polkadot/chain-head/state/pinned.ts:15-106 | over every interleaving of calls for many follows, the tracked blocks of each and the unpins sent for it are those of a run of its own calls alone, and a follow with nothing tracked has no entry |
| SharedPool.SharedSubscriptionPool.Acquire | src/json-rpc/upstream/shared.ts:151-157 | a fresh entry is pooled; it becomes the cached one if there was none or the cached one has an open client; counting the cached one drops closed clients only |
| SharedPool.SharedSubscriptionPool.SubscribeLocal | src/json-rpc/upstream/shared.ts:120-135 | a new local is stored and indexed, then the entries are scanned: only closed clients are dropped and no pooled entry is lighter than the cached one; a known local fails and changes nothing |
| SharedPool.SharedSubscriptionPool.SubscribersCount | src/json-rpc/upstream/shared.ts:398-407 | the mutual recursion with unsubscription terminates; the counted entry keeps exactly its open clients; elsewhere only closed clients go, and only emptied entries leave the pool |
| SharedPool.SharedSubscriptionPool.Rescan | src/json-rpc/upstream/shared.ts:142-148 | the scan, each count of which may unsubscribe, terminates; of several entries all pooled ones then have open clients only and none is lighter than the cached one, which is empty if it left meanwhile; a single entry is not counted |
| SharedPool.SharedSubscriptionPool.UnsubscribeLocal | src/json-rpc/upstream/shared.ts:138-149 | the local and the closed clients leave the entry, which is destroyed and released when emptied; the local's id leaves the index, those of the other closed clients stay there; no pooled entry is lighter than the cached one |
| SharedPool.SharedSubscriptionPool.Depart | src/json-rpc/upstream/shared.ts:366-394 | the original unsubscription: exactly the local and the closed clients leave, and an emptied entry is destroyed and released; elsewhere only closed clients go |
| SharedPool.SharedSubscriptionPool.Release | src/json-rpc/upstream/shared.ts:159-182 | the entry leaves the pool with every local unsubscribed, others lose closed clients only, and the cached entry stays at most as loaded as the pooled ones; without closed clients the exact new state |
| SharedPool.SharedSubscriptionPool.CleanUp | src/json-rpc/polkadot/chain-head/state/index.ts:33-44 | cleaning up releases the entry as above, once |
| SharedPoolModel.DropLocal | src/json-rpc/upstream/shared.ts:377-383 | one unsubscription keeps the pool consistent and strictly shrinks the closed entries: the measure of the recursion |
| SharedPoolModel.ClosedUnsubscribed | src/json-rpc/upstream/shared.ts:366-407 | unsubscribing a closed client drops closed clients only: no open one loses its subscription, its place in the index or its entry in the pool |
| SharedPoolModel.StaleStays | src/json-rpc/upstream/shared.ts:379-383 | a closed client dropped beside the unsubscribed local stays in the index |
| SharedPoolModel.LeastOfIsLeast | src/json-rpc/upstream/shared.ts:128-134 | the scan's result is a pooled entry of minimum subscriber count, and there is one iff the pool is not empty |
| SharedPoolProperties.LeftKept | src/json-rpc/upstream/shared.ts:138-149 | with no client closed an unsubscription takes just that local, unindexes it, and the cached entry is least |
| SharedPoolProperties.CleanUpKeepsLeastIff | src/json-rpc/upstream/shared.ts:159-177 | from a sound pool, the synchronous part of a clean-up leaves the cached entry least iff the entry was the cached one, had no locals, or an empty entry precedes it |
| SharedPoolProperties.CleanUpMayStrandTheCache | src/json-rpc/upstream/shared.ts:159-177 | a pool of two entries whose cache is on a dropped entry right after such a clean-up |
| SharedPoolProperties.BusyIsReached | src/json-rpc/upstream/shared.ts:116-157 | five steps from the empty pool reach that pool |
| SharedPoolProperties.SecondReleaseRepairs | src/json-rpc/upstream/shared.ts:205-224 | a clean-up and the release that follows the awaited destruction leave the cached entry a pooled one of least load |
| SharedPoolProperties.RunsStaySound | src/json-rpc/upstream/shared.ts:116-224 | every interleaving of acquisitions, subscriptions, departures, clean-ups and second releases keeps the pool and its index exact, and the cached entry least or itself still to be released |
| SharedPoolProperties.EveryRunIsSound | src/json-rpc/upstream/shared.ts:116-224 | after every such run from an empty pool the index is exact, and the cached entry is a pooled one of least load, or its own second release is still to come and finds one |
| SharedPoolProperties.SafeRunsCacheLeast | src/json-rpc/upstream/shared.ts:116-224 | after every such run whose clean-ups meet the guard of `CleanUpKeepsLeastIff`, the cached entry is a pooled one of least load, whatever is still owed |
| SharedPoolRuns.StepTells | src/json-rpc/upstream/shared.ts:116-182 | every step of a run, said without the pool's operations: who is subscribed where, which entries are pooled in which order, and when the pool is given up |
| SharedPoolRuns.GoneIffEmptied | src/json-rpc/upstream/shared.ts:179-181 | the pool is given up in just those runs in which it loses its last entry |
| SharedPoolRuns.NewIsCachedIff | src/json-rpc/upstream/shared.ts:153-156 | a new entry is cached iff there was none or the cached one has locals, otherwise the cached one stays |
| MinHeap.MinHeap.Swap | src/util/min-heap.ts:19-28 | two positions are exchanged and the inverse index stays exact |
| MinHeap.MinHeap.SiftUp | src/util/min-heap.ts:30-42 | the loop with early exit equals the recursive sift-up, whatever the keys |
| MinHeap.MinHeap.SiftDown | src/util/min-heap.ts:44-64 | the loop equals the recursive sift-down, whatever the keys |
| MinHeap.MinHeap.Push | src/util/min-heap.ts:66-74 | an absent item is appended and sifted up, the index stays exact |
| MinHeap.MinHeap.Remove | src/util/min-heap.ts:76-93 | the last item takes the place of the removed one and is sifted both ways, the index stays exact; an absent item changes nothing |
| MinHeap.MinHeap.Update | src/util/min-heap.ts:95-103 | the item is sifted both ways, the index stays exact; an absent item changes nothing |
| MinHeap.MinHeap.Clear | src/util/min-heap.ts:113-116 | heap and index are empty |
| MinHeap.MinHeap.IndexIsPosition | src/util/min-heap.ts:15-28 | items are distinct and the index maps each one to its position |
| MinHeap.SiftUpRestores | src/util/min-heap.ts:30-42 | sift-up restores heap order when only the order above one position is broken |
| MinHeap.SiftDownRestores | src/util/min-heap.ts:44-64 | sift-down restores heap order when only the order below one position is broken |
| MinHeap.SmallestIsFirst | src/util/min-heap.ts:44-64 | sift-down compares with the least of a position and its children, and of equal ones with the first |
| MinHeap.RepairRestores | src/util/min-heap.ts:95-103 | both sifts restore order whichever way one key changed; after a move down the sift up does nothing |
| MinHeap.PushRestores | src/util/min-heap.ts:66-74 | push keeps heap order and adds one item |
| MinHeap.RemoveRestores | src/util/min-heap.ts:76-93 | remove keeps heap order |
| MinHeap.RemoveTakesOne | src/util/min-heap.ts:76-93 | remove takes exactly the removed item, whatever the keys |
| MinHeap.RepairKeepsItems | src/util/min-heap.ts:95-103 | update keeps the items, whatever the keys |
| MinHeap.OneKeyChanged | src/util/min-heap.ts:95-103 | after one item's key changed, order is broken around its position only |
| MinHeap.PeekIsLeast | src/util/min-heap.ts:105-107 | in heap order the first item is a global minimum |
| UpstreamPool.UpstreamServerPool.Start | src/json-rpc/upstream/pool.ts:40-47 | the minimum number of connections opens, each with one client counted |
| UpstreamPool.UpstreamServerPool.AcquireServerConnection | src/json-rpc/upstream/pool.ts:49-69 | the least loaded connection, or a new one when that has no capacity and the limit allows, or the full one beyond |
| UpstreamPool.UpstreamServerPool.ReleaseConn | src/json-rpc/upstream/pool.ts:71-75 | the count drops by one, not below zero, and the heap is repaired |
| UpstreamPool.UpstreamServerPool.Sweep | src/json-rpc/upstream/pool.ts:76-96 | the loop over the live heap array, which removals rearrange under it, stops idle connections without clients while more than the minimum remain |
| UpstreamRegistry.Registry.PickServer | src/json-rpc/upstream/registry.ts:21-34 | round robin among the pools that support the method, none when there is none |
| UpstreamRegistry.Registry.ResolveUpstream | src/json-rpc/upstream/registry.ts:36-62 | a client keeps its ready connection; otherwise the old one is released and a new one mapped |
| UpstreamRegistry.Registry.Disconnect | src/json-rpc/upstream/registry.ts:67-74 | the client's connection is released and its mapping goes |
| UpstreamProperties.OpensOnlyWhenFull | src/json-rpc/upstream/pool.ts:49-69 | a connection is opened iff the limit allows and every open one is at capacity; otherwise the least loaded is returned |
| UpstreamProperties.SweepSpares | src/json-rpc/upstream/pool.ts:76-96 | a sweep stops only connections without clients, keeps the others, and never goes below the minimum |
| UpstreamProperties.RunCounts | src/json-rpc/upstream/registry.ts:36-74 | without resets the counts are exact and the heaps ordered in every run |
| UpstreamProperties.ClientCountsAreConserved | src/json-rpc/upstream/registry.ts:36-74 | each count is the clients mapped to the connection plus one if `start` created it, at most that when resets occur |
| UpstreamProperties.ConnectionsOpenOnlyWhenAllAreFull | src/json-rpc/upstream/pool.ts:49-60 | in every run without resets a connection is opened iff the limit allows and all are full |
| UpstreamProperties.SweepsSpareMappedConnections | src/json-rpc/upstream/pool.ts:76-96 | in every run without resets a sweep stops no connection with a mapped client |
| UpstreamProperties.ResetHidesCapacity | src/json-rpc/upstream/server.ts:57-74 | a run of two clients and one lost connection, after which a further connection is opened although an open one is free |
| UpstreamProperties.NoCapacityHiddenIff | src/json-rpc/upstream/pool.ts:49-60 | under any limits a connection is opened only when all are at capacity iff the one on top of the heap has the fewest clients |
| RegistryProperties.StickyWhileReady | src/json-rpc/upstream/registry.ts:48-50 | in every run a mapped client whose connection is ready is given that one, and nothing changes |
| RegistryProperties.OtherwiseMoves | src/json-rpc/upstream/registry.ts:48-61 | in every run any other client leaves its old connection, by the counts, and is mapped to one acquired from the pool whose turn it is, which supports the method; it gets none iff there is no such pool or that pool has no connection and may open none |
| RegistryProperties.PoolsTakeTurns | src/json-rpc/upstream/registry.ts:21-34 | of any picks in a row for one method, as many as pools support it, each of these pools is asked exactly once |
| RegistryProperties.StartOpensThatMany | src/json-rpc/upstream/pool.ts:40-47 | `start` opens as many connections as it should, each with one client, beside all that were there |
| RegistryProperties.SweepStopsIff | src/json-rpc/upstream/pool.ts:76-96 | a sweep stops a connection iff the pool is above its minimum and some connection without clients is idle |
| RegistryProperties.SweepStopsTheIdle | src/json-rpc/upstream/pool.ts:76-96 | each connection stopped was idle where it was visited, and one sweep stops at most every other connection |
| TaskQueue.NextWraps | src/util/micro-scheduler.ts:8-10 | masking with the length minus one is the remainder, because the length is a power of two |
| TaskQueue.TaskQueue.Enqueue | src/util/micro-scheduler.ts:8-16 | the task joins the waiting ones, or, as the 4096th, makes the ring read as empty; a flush is requested iff none is |
| TaskQueue.TaskQueue.Take | src/util/micro-scheduler.ts:21-24 | the oldest waiting task leaves its slot |
| TaskQueue.TaskQueue.Flush | src/util/micro-scheduler.ts:18-27 | the draining loop runs the waiting tasks and those they enqueue, each once and oldest first, up to and including one that throws, leaves the rest waiting, and leaves a flush requested iff some task that ran enqueued another |
| TaskQueue.StopsAtTheFirstThrow | src/util/micro-scheduler.ts:18-27 | only the last task that a flush runs can be one that throws, and if none throws nothing is left |
| TaskQueue.FlushLosesNothing | src/util/micro-scheduler.ts:18-27 | with room for all, the tasks that ran and those left behind one that threw are, in order, those that waited and all that were enqueued meanwhile |
| TaskQueue.RunsInRounds | src/util/micro-scheduler.ts:18-27 | a flush with room for all whose waiting tasks do not throw runs these, then all they enqueued, and so on, in order |
| TaskQueue.FirstInFirstOutIff | src/util/micro-scheduler.ts:8-27 | over every interleaving of arrivals, flushes and throwing tasks, tasks run once each in order of arrival iff none arrives with 4095 waiting |
| TaskQueue.StrandedIffLeftByThrow | src/util/micro-scheduler.ts:8-27 | over every interleaving tasks wait with no flush under way or requested iff a task threw while others waited, no flush was requested, and none has arrived since |
| TaskQueue.IdleMeansAllRanIff | src/util/micro-scheduler.ts:8-27 | with no flush under way or requested, every task has run, in order, iff no such throw left some |
| TaskQueue.ThrowStrands | src/util/micro-scheduler.ts:18-27 | a run in which the second of two tasks waits behind one that threw, with no flush requested |
| TaskQueue.FullRingForgetsAll | src/util/micro-scheduler.ts:8-10 | 4096 tasks that arrive with no turn in between are all lost; the first 4095 of them alone would wait |
| UpstreamServer.UpstreamServer.StartRequest | src/json-rpc/upstream/server.ts:167-199 | a fresh upstream id; without an open socket an immediate error, otherwise an armed timer, a pending callback and the message under that id |
| UpstreamServer.UpstreamServer.HandleMessage | src/json-rpc/upstream/server.ts:271-287 | a message whose id is pending is taken out and queued for delivery, any other is a notification, unreadable data is dropped |
| UpstreamServer.UpstreamServer.OnTimeout | src/json-rpc/upstream/server.ts:178-189 | the entry goes and the promise gets the timeout error unless it is settled |
| UpstreamServer.UpstreamServer.OnClose | src/json-rpc/upstream/server.ts:106-116 | the link is down and everything pending forgotten, timers stay |
| UpstreamServer.UpstreamServer.RunNext | src/json-rpc/upstream/server.ts:191-194 | a queued callback clears the timer and settles its promise with the client's own id |
| UpstreamServerProperties.StepKeepsSound | src/json-rpc/upstream/server.ts:167-287 | every step keeps: ids increase, entries and queued callbacks belong to sent requests, at most one callback each |
| UpstreamServerProperties.NoRequestHangs | src/json-rpc/upstream/server.ts:167-199 | in every run upstream ids are distinct, a sent unsettled request has an armed timer whose firing settles it, and every reply carries the client's own id |
| UpstreamServerProperties.SettledForGood | src/json-rpc/upstream/server.ts:177-199 | a request settles at most once: whatever follows, its reply and its ids stay |
| UpstreamServerProperties.OnlyItsOwnResponse | src/json-rpc/upstream/server.ts:191-194 | an answer is the body of a message with the request's own upstream id that arrived after the request was made |
| UpstreamServerProperties.QueuedIsDelivered | src/json-rpc/upstream/server.ts:275-281 | a queued response settles its request when its turn comes, unless the timeout was first |
| UpstreamServerProperties.ResponseAnswers | src/json-rpc/upstream/server.ts:271-284 | a response to a pending request, with room in the ring, answers it; a second copy becomes a notification |
| UpstreamServerProperties.DisconnectLeavesOnlyTheTimeout | src/json-rpc/upstream/server.ts:57-74 | a request in flight at a disconnect is never answered later, even after a reconnect: only its timeout settles it |
| UpstreamServerRuns.RequestsAreTheAsks | src/json-rpc/upstream/server.ts:167-199 | in every run the i-th request is the one the i-th asking step made: that step's id or null, the next free upstream id, sent iff the socket was open then; any reply carries the same id |
| UpstreamServerRuns.EveryMessageFindsItsPlace | src/json-rpc/upstream/server.ts:271-287 | in every run the pending callbacks are those of requests sent and since then not answered, timed out or forgotten at a disconnect, by the steps alone; every message that answers none of them is notified, in order |
| UpstreamServerRuns.DeliveredInTurn | src/json-rpc/upstream/server.ts:275-281 | whatever comes in between, disconnects included, a queued response settles its request once its turn has come, as long as the ring has room; only the request's own timeout can be first |
| TokenBucket.Bucket.Allow | src/util/token-bucket.ts:8-23 | one call refills by the time passed, grants iff a whole token is there, and takes it |
| TokenBucket.TokensInRange | src/util/token-bucket.ts:11-21 | tokens stay between zero and the capacity |
| TokenBucket.WindowsAreBounded | src/util/token-bucket.ts:3-24 | any window of length T grants at most capacity + T * capacity / windowMs calls |
| TokenBucket.GrantedIffWithinEveryBudget | src/util/token-bucket.ts:3-24 | a call is granted iff granting it keeps every window that ends with it within its budget |
| TokenBucket.DeniedCallsDoNotMatter | src/util/token-bucket.ts:12-22 | deleting a denied call from a run changes no other decision |
| TrustedIps.CreateTrustedIPs | src/util/net/trusted-ip.ts:39-46 | the loop sorts the entries by syntax into the two lists of ranges, and throws iff some entry does |
| TrustedIps.IsTrusted | src/util/net/trusted-ip.ts:49-68 | the scan with early return says whether some range of the address's version matches |
| TrustedIpsProperties.FoldIsHorner | src/util/net/trusted-ip.ts:3-5 | wrapping to 32 bits after each octet gives the number of the octets modulo 2^32 |
| TrustedIpsProperties.ReadsV4 | src/util/net/trusted-ip.ts:3-5 | reading the text of a dotted quad gives the number of its octets |
| TrustedIpsProperties.ExpandsToEight | src/util/net/trusted-ip.ts:22-28 | expanding `::` always yields eight groups: left, zeros, right |
| TrustedIpsProperties.ReadsV6 | src/util/net/trusted-ip.ts:15-20 | reading the text of a colon-separated address, with or without `::`, gives the number of its eight groups |
| TrustedIpsProperties.Mask4IsHigh | src/util/net/trusted-ip.ts:10-10 | the shifted 32-bit mask is ones followed by zeros, lengths past 32 wrapping around |
| TrustedIpsProperties.Mask6IsHigh | src/util/net/trusted-ip.ts:33-34 | the exclusive-or of the two masks is ones followed by zeros; past the width it masks everything |
| TrustedIpsProperties.SamePrefixIffSameQuotient | src/util/net/trusted-ip.ts:7-37 | two addresses share their first n bits iff dividing by 2^(width - n) makes them equal |
| TrustedIpsProperties.Masked4 | src/util/net/trusted-ip.ts:58-58 | comparing masked signed words is comparing the words shifted right |
| TrustedIpsProperties.Matching4 | src/util/net/trusted-ip.ts:7-13 | the text of a dotted-quad entry, read and masked, matches exactly the addresses that share the bits it compares |
| TrustedIpsProperties.Matching6 | src/util/net/trusted-ip.ts:30-37 | the same for a colon-separated entry |
| TrustedIpsProperties.TrustedIffCovered | src/util/net/trusted-ip.ts:39-68 | whatever the prefix lengths, an address is trusted iff an entry of its version agrees on the bits the code compares |
| TrustedIpsProperties.TrustedIffInSomeBlock | src/util/net/trusted-ip.ts:39-68 | with lengths within the width, trusted means lying in the block of some entry: agreeing on its first n bits (section 3.1 of RFC 4632, section 2.3 of RFC 4291) |
| TrustedIpsProperties.EntryTrustsItsBlockIff | src/util/net/trusted-ip.ts:9-34 | the program's verdict for an entry is membership in the block it writes, for all addresses of its version, iff its prefix length is at most the width |
| TrustedIpsProperties.OverlongPrefixTrustsTooMuch | src/util/net/trusted-ip.ts:9-34 | the program trusts every colon-separated address under `/129`, and compares a single bit of a dotted quad under `/33` |
| TrustedIpsTexts.ParsesWhatIsWritten | src/util/net/trusted-ip.ts:4-17 | reading a number written in the digits of its base, in either case, gives it back |
| TrustedIpsTexts.ReadsWrittenQuad | src/util/net/trusted-ip.ts:3-5 | a dotted quad of four written numbers reads as the number they are the bytes of |
| TrustedIpsTexts.UnreadableQuad | src/util/net/trusted-ip.ts:3-5 | a dotted text reads as what follows its last octet that is no number, or as 0 when nothing does |
| TrustedIpsTexts.EmptyOctetIsZero | src/util/net/trusted-ip.ts:3-5 | an empty octet reads as 0 |
| TrustedIpsTexts.TooManyGroupsIff | src/util/net/trusted-ip.ts:22-28 | a text with `::` throws iff it has more than eight groups beside it |
| TrustedIpsTexts.UnreadableGroupIff | src/util/net/trusted-ip.ts:15-20 | a text without `::` throws iff some group has no leading hexadecimal digit |
| TrustedIpsTexts.UnreadableLength | src/util/net/trusted-ip.ts:7-37 | a length that is no number lets a dotted-quad entry compare the whole address and makes any other entry throw |
| TrustedIpsTexts.OtherEntriesAreIgnored | src/util/net/trusted-ip.ts:43-46 | entries with neither a dot nor a colon change nothing |
| TrustedIpsTexts.ThrowsIff | src/util/net/trusted-ip.ts:39-46 | reading a list throws iff one of its colon-separated entries does |
| TrustedIpsTexts.VerdictThrowsIff | src/util/net/trusted-ip.ts:49-68 | a question throws iff a colon-separated text that cannot be read is compared with some range |
| Bits.AndLowMask | src/util/micro-scheduler.ts:10-10 | masking with n ones is the remainder by 2^n |
| Bits.AndHighMask | src/util/net/trusted-ip.ts:11-11 | masking with ones followed by k zeros clears the last k digits |
| Bits.XorMasks | src/util/net/trusted-ip.ts:33-34 | the exclusive-or of two masks of ones is the ones between them |
| Text.SplitJoin | src/util/net/trusted-ip.ts:3-28 | splitting at a separator undoes joining with it |

## Left out

- RxJS: streams are sequences and subscribers are transcripts; only `filter`, `take(1)`, `takeUntil`, replay-then-live, and what ends with a leaving client are kept.
- The watchdog that resets the chainHead state after a silent minute, and the ten-second wait for `initialized`.
- WebSockets, reconnection and back-off, JSON encoding, logging, metrics, statistics, command line and configuration: input and output or thin wrappers; messages are datatypes with the fields used.
- Clocks, idle times and their random jitter, and the platform's `isIP`: parameters.
- `getByLocalId` and the locals of a follow are a parameter of the virtual unpin; the follow handlers are not part of this model.
- Follow keys that repeat: the program numbers a new follow by the size of the pool; here every acquisition has a fresh key.
- Pool-wide `abort`, pool stop, and the close callbacks of downstream clients beyond a flag per client.
- The uncached operation handler, quotas of the other subscription kinds, pending-request counters, middleware, method presets, the FIFO benchmark cache, duration and listen-address parsing: thin wrappers, counters and plain parsing.
- Aliasing of message objects: the `finalized` branch writes into the stored `initialized` message, which the model replaces instead.
- Undefined items in the heap and falsy queue slots, which the program skips and never stores.
- LateJoinDepartures.StayersAreServedIff: some client is there, or none has left yet, whenever an event arrives; a follow whose last client left is destroyed (src/json-rpc/upstream/shared.ts:366-394), and the updater with it.
- TaskQueue.TaskQueue.Flush: tasks that enqueue others without end are excluded, because the source's loop then does not end either. What else a task does beyond enqueueing, throwing and resolving a request is not modelled, nor whether the process outlives an exception nobody catches.
- Clients joining through an updater whose follow has stopped: the manager is discarded by then.
- Which of two operations begun under one key ends up cached when both complete is what the steps say; no claim is made about it.
- BlockTrackerProperties.ArrivalOrderIrrelevant: assumes distinct hashes, and that what can become known fits the bound; under eviction nothing is claimed of the order.
- PinnedBlocksProperties.UnpinIsSafe: covers the locals present as tracking began, not those that joined later, because the code does not wait for them.
- UpstreamProperties.ClientCountsAreConserved: only the upper bound holds once an upstream was reset.
- SharedPool.SharedSubscriptionPool.Rescan: when entries are emptied by the scan itself, which of the empty ones ends up cached is not said in full.
- SharedPoolProperties.EveryRunIsSound: no client closes in these runs, and they acquire under fresh keys; what holds while clients close is in the contracts of the pool's methods.
- Text.ParseInt: reads leading digits only; signs, blanks and a `0x` prefix are not modelled.
- Text.ToNumber: reads plain decimal numerals and the empty text; signs, blanks, exponents and other radices are not modelled.
- TrustedIpsProperties.TrustedIffCovered: addresses with an embedded dotted quad or a zone are not modelled; the code does not treat such an entry as IPv6.
- TokenBucket.Bucket.Allow: real arithmetic; floating-point rounding is not modelled.
