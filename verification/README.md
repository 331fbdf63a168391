# A verified model of the IPFS website gateway's stateful core

The gateway serves websites from IPFS, asks a portal which sites may be served, and
must keep serving while the portal, its event stream or its peers come and go. This
project models the parts of it that carry state through interleavings, and proves what
they keep. `dafny verify dfyconfig.toml` checks everything.

Every component has the same shape. A class holds the fields the source changes in
place, and its methods follow the source's branches. Each method is proved against a
function on values that says what one call leaves behind. The lemmas are about those
functions, and the main results are about whole runs: any sequence of steps, in any
order, with faults where the source can meet them. A mutex-protected section is one
step unless a module's opening comment says that several source steps are one.

| component | modules |
|---|---|
| Disconnect recovery: journal replay from a persisted cursor, connection sessions, the broken-site watcher, and all three together with the cached statuses | `Journal`, `Replay`, `Reconciler`, `BrokenWatcher`, `Recovery`, `RecoveryLimits` |
| The disk block cache and its blockstore view | `Disk`, `ContentCache`, `ContentLaws`, `BlockMap` |
| The site status cache, its Redis tier, and the access decision | `SiteState`, `StatusCache`, `Gateway`, `StatusRuns` |
| The cached IPNS name system, its Redis mirror and its pubsub watchers | `IpfsPath`, `NameCache`, `NameRuns`, `NameWatchers`, `NameLimits` |
| The prewarmer, alone and behind the block cache's eviction callback | `Prewarm`, `PrewarmRuns` |
| The seed-peer worker | `SeedPeer`, `SeedPeerRuns` |
| Shared: options and the recency list that stands for the LRU library | `Options`, `Recency` |

## Hypotheses made explicit

- What is asked of the portal's pages is a parameter of every recovery run
  (`Replay.Contract`). Sessions, readiness, bounded paging and the exact condition for a
  retreating cursor ask nothing. Replay safety and exactness ask for honest pages: a page
  asked after a mark holds exactly the events up to its own mark, in order. Where reaching
  the end matters, only the last page of the run in question is asked to reach it when it
  says so (`Replay.LastReaches`). `Recovery.ReadyMeansDrained`, `Recovery.ClearingLosesNothing` and one
  theorem about the cursor ask every page to drain: truncation means progress, and no
  truncation means the end.
- The clearing theorem asks that no disconnection report is still on its way to `OnConnect`.
- A status or a name is answered in one step and stored in a later one, with anything in
  between. For names the time in between is bounded by the store's timeout, and for watch
  results by a parameter, since the source sets no bound there.
- The block cache's run theorem asks for one layout per block, no `Put` onto a block
  stored flat only, no `Put` that miscounts, and no `Clear` that fails half way. With
  content-addressed blocks and no flat files to start from, no `Put` has to be excluded but
  that of a block whose file is there with an unreadable status.
- Redis and the recency list do what their operations say; Redis expires keys at their
  deadline. The hashed path of a block is injective and differs from every flat path.
- Worker ids of the seed peer are distinct; `SeedPeerRuns.AnyIds` runs drop this.

## Where the code keeps less than it suggests

Each line names a concrete input or reached state, and the exact condition.

| what fails | concrete case | exact condition |
|---|---|---|
| a truncated page that does not advance ends its run as a success, so ready does not mean drained | `RecoveryLimits.StuckPageReportsReady` | `Replay.EndsDrainedIff`, `Recovery.ReadyMeansDrainedIff` |
| the stream can drop and return before `OnConnect` hears of it, and a tick in that window clears too early | `RecoveryLimits.UndeliveredGapClears` | `Recovery.ClearLosesNothingIff` |
| a status answered before a change and stored after its dispatch stays cached | `RecoveryLimits.StraddlingStatusSurvives` | `Recovery.StepKeepsFreshIff`, `Recovery.FreshUnlessOldStored` |
| the persisted cursor is not monotone | `RecoveryLimits.CursorMayRetreat` | `Recovery.CursorRetreatsIff` |
| `Put` counts wrong over a flat-only block, or over one that it evicts itself | `BlockMap.FlatOnlyPutMiscounts`, `BlockMap.SelfEvictingPutMiscounts` | `ContentLaws.PutKeepsBooksIff`, `ContentLaws.MiscountsIff` |
| a `Clear` that fails half way leaves the count and the recency list wrong | `BlockMap.HalfClearMiscounts` | `ContentLaws.ClearKeepsBooksIff`, `ContentLaws.ClearKeepsTrackedIff` |
| `DeleteBlock` reports success for a block whose file's status cannot be read, and leaves it | `BlockMap.UnreadableDeleteDoesNothing` | `ContentLaws.DeleteLaw` |
| a status whose remaining life rounds to zero seconds is not written to Redis, which keeps the older one | `StatusRuns.ShortLifeLeavesOlderRecord` | `StatusRuns.StoreCoherentIff`, `StatusRuns.PersistsIff` |
| a name that stands for more than two segments loses its own sub-path in the cache | `IpfsPath.LongRootLosesSubPath` | `IpfsPath.StripThenRejoinIff` |
| names that fall out while the IPNS store is loaded stay in Redis, because the eviction hook is not set yet | `NameLimits.OverflowingLoadKeepsNames` | `NameRuns.LoadHoldsAllIff` |
| `DeleteBlock` and `Clear` do not call the eviction callback, so a warmed root can lose its block unnoticed | `PrewarmRuns.DeletedRootStaysWarmed`, `PrewarmRuns.HalfClearLeavesRootWarmed` | `PrewarmRuns.OperationKeepsWarmedIff` |
| a walk whose root block never arrives, or is evicted before the walk ends, still warms the root | `PrewarmRuns.RootlessWalkWarms` | `PrewarmRuns.MoveKeepsInOrderIff` |
| a name can be served as fresh for longer after a change than the fresh window | `NameLimits.OldRootOutlivesWindow` | `NameRuns.StepKeepsWindowIff`, `NameRuns.FreshWithinWindow` |
| a worker id drawn twice lets one worker's exit make the node forget the other | `SeedPeerRuns.SameIdForgetsSuccessor` | `SeedPeerRuns.ExitClearsSameIdIff` |
| a disconnect waits for a worker connected between its two halves, which it has not told to stop | `SeedPeerRuns.LateWorkerIsNotTold` | `SeedPeerRuns.WaitEndsForTold` |
| a replaced seed-peer worker lowers the shared connected flag although its successor is watching the peer | `SeedPeerRuns.ReplacedWorkerLowersFlag` | `SeedPeerRuns.StepKeepsFlagIff` |

How much longer an old name can be served as fresh at most is part of
`NameRuns.ResolveRefinesInner`.

## Model

Main results come first, then the counterexamples, then the lemmas they rest on, and
last the methods that follow the source line by line.

| member | source | states |
|---|---|---|
| Recovery.CrashSafeReplay | internal/sitewatch/reconciler.go:191-250 | main result: over every interleaving of sessions, faults and crashes, under honest pages, every journaled event up to the persisted cursor has been dispatched; submitted for prewarming are the dispatched deployments with domain and CID, and nothing else |
| Recovery.EveryRunIsBounded | internal/sitewatch/reconciler.go:198-220 | main result: over every run of the gateway and for any portal, no reconcile asks for more pages than the cap, and the cursors it asks after strictly increase |
| Recovery.CompletedRunIsExact | internal/sitewatch/reconciler.go:198-250 | main result: under honest pages, a run ending without error dispatched the journal from its start, each event once and in order, up to its final mark (or the last cursor asked after, if later); it reached the journal head of its start if and only if its own last page was not a stuck one |
| Replay.RunLeaves | internal/sitewatch/reconciler.go:191-267 | main result: a run with nothing in between leaves exactly this: the sites published or removed among its events have no cached status, the published ones with content are submitted once each and in order, and, if no write fails, a run that ends without error leaves the cursor at its final mark |
| Recovery.ReadyMeansDrained | internal/sitewatch/reconciler.go:149-174 | main result: with a portal that keeps its contract, ready implies that everything journaled before the session opened has been dispatched |
| Recovery.ReadyMeansDrainedIff | internal/sitewatch/reconciler.go:170-174 | main result: for any honest portal, in a ready state everything journaled before the session opened has been dispatched if and only if nothing after the final mark of its own run is missing; unless that run's last page was stuck, the mark lies no earlier |
| Recovery.OneRunNoLostSession | internal/sitewatch/reconciler.go:131-186 | main result: for any portal, at most one run is live; pending exactly when it is for an older session; the current session has a live, pending or finished run |
| Recovery.ReadyIsNeverStale | internal/sitewatch/reconciler.go:115-187 | main result: for any portal, ready if and only if connected and the current session's own run ended without error, having read its cursor after the session opened |
| Recovery.CursorRetreatsIff | internal/sitewatch/reconciler.go:227-238 | main result: for any portal, a step moves the persisted mark back if and only if it is a restart that loses a positive mark, or the write of an earlier mark by a run whose cursor read failed or whose page lies before what it asked after; it moves the mark on if and only if it writes a later one, or loses a negative one |
| Recovery.StatusComesAndGoes | internal/sitewatch/reconciler.go:253-267 | main result: a cached status goes if and only if a published or removed event of its site is dispatched, a realtime event drops it, a poll finds the site active, or a restart does not keep it; one comes if and only if it arrives from the portal |
| Recovery.StepKeepsFreshIff | internal/cache/status.go:246-261 | main result: under honest pages, a step leaves a cached status that predates a dispatched publication or removal of its site if and only if it stores one that was answered before the change and arrives after the dispatch |
| Recovery.FreshUnlessOldStored | internal/cache/status.go:92-97 | main result: over every run in which no such status of a site is stored, no cached status of it predates a dispatched change |
| Recovery.FreshUnlessStraddled | internal/gateway/gateway.go:207-297 | main result: if no change of a site is dispatched while a status of it is on its way, no cached status of the site predates a dispatched change |
| Recovery.ClearLosesNothingIff | internal/sitewatch/broken_watcher.go:156-165 | main result: for any honest portal, in a state about to clear, every change before the stream came up is dispatched if and only if none after the final mark of the session's run is missing (none since the session opened, unless that run was stuck); there are none of the latter once every disconnection was delivered |
| Recovery.ClearingLosesNothing | internal/sitewatch/broken_watcher.go:156-185 | main result: composition with the reconciler, with a portal that keeps its contract: when a tick empties the watch set with disconnections delivered, every change journaled before the stream came back has been dispatched, and a cached status predates one only in the straddling case |
| Recovery.ClearLeavesFresh | internal/sitewatch/broken_watcher.go:156-185 | main result: after such a clear, of a site of which no old status was stored, no cached status predates a change journaled before the stream came back |
| BrokenWatcher.StreaksAreExact | internal/sitewatch/broken_watcher.go:172-287 | main result: over every run each counter is the length of the domain's current 404 streak, below the confirmation count, kept for tracked domains only |
| BrokenWatcher.LeavesOnlyFor | internal/sitewatch/broken_watcher.go:205-245 | main result: a domain leaves the set if and only if on a clear, an answer with status active, or a streak reaching the count |
| BlockMap.CacheRefinesMap | internal/cache/content.go:218-272 | main result: after any sequence of operations under faults, bytes equal the file sizes and stay within budget, tracked blocks have files, and the blocks found are the caller's plain map |
| BlockMap.AddressedCacheRefinesMap | internal/cache/content.go:218-272 | main result: with content-addressed blocks and no flat files to start from the same holds for every Put but that of a block whose file is there with an unreadable status: none of them miscounts |
| BlockMap.LookupsAgree | internal/cache/content_blockstore.go:69-118 | main result: in an orderly cache Has, Get and GetSize answer that map under any file faults, exactly as far as statuses and contents can be read |
| ContentLaws.EvictShrinks | internal/cache/content.go:325-443 | main result: whatever fails, eviction removes whole files, reports each once, and lowers the count by their sizes; success frees what was asked |
| ContentLaws.EvictsShortestPrefix | internal/cache/content.go:332-386 | main result: without faults, exactly the shortest least-recently-used prefix holding enough bytes is removed and reported |
| ContentLaws.EvictsAllTrackedFirst | internal/cache/content.go:334-443 | main result: the disk walk comes only after every tracked block; eviction succeeds if and only if the cache holds that many bytes |
| ContentLaws.PutSucceedsIff | internal/cache/content.go:218-272 | main result: under any faults a Put succeeds if and only if CID and block are there, directory and file can be made, and nothing is missing or making room frees what is, without a failing walk |
| ContentLaws.CalmPutSucceedsIff | internal/cache/content.go:236-271 | main result: without faults and with the whole disk to walk, exactly the blocks within the budget can be put, a block that is there already counting for its own room |
| ContentLaws.CalmPutEvictsLeast | internal/cache/content.go:248-271 | main result: such a Put of a new block evicts exactly the shortest least-recently-used prefix that holds what is missing, nothing if it fits, reports it, and stores the block as the most recent |
| ContentLaws.PutKeepsBooksIff | internal/cache/content.go:218-272 | main result: a successful Put keeps the count exact if and only if it does not miscount |
| ContentLaws.MiscountsIff | internal/cache/content.go:237-266 | main result: a fault-free Put over a tracked block miscounts if and only if it needs room and the blocks used less recently hold less than that |
| ContentLaws.UntrackedMiscountsIff | internal/cache/content.go:237-266 | main result: over a block the recency list has forgotten, if and only if the tracked blocks and the untracked files the walk comes to before it hold less |
| ContentLaws.DeleteLaw | internal/cache/content_blockstore.go:27-67 | main result: under any faults a deletion keeps the cache in order and removes exactly that block if its file can be found and removed, else nothing; it reports success for a block still there if and only if it could not read the status of its file |
| ContentLaws.ClearKeepsBooksIff | internal/cache/content.go:447-474 | main result: Clear succeeds if and only if nothing stands in its way; it keeps the count exact if and only if it does, or every file before the first that cannot be removed is empty |
| ContentLaws.ClearKeepsTrackedIff | internal/cache/content.go:447-474 | main result: every tracked block has a file after Clear if and only if nothing stands in its way or no file it removes before failing belongs to a tracked block |
| StatusRuns.TiersStayCoherent | internal/cache/status.go:129-187 | main result: over every run with lives of at least half a second, where both tiers hold a domain they hold the same response, times and error text |
| StatusRuns.StoreCoherentIff | internal/cache/status_persistent.go:63-90 | main result: storing keeps the tiers coherent if and only if it is written through or Redis says nothing else |
| StatusRuns.NothingAfterInvalidate | internal/cache/status.go:92-97 | main result: after an invalidation neither Get nor KeepAlive finds the domain until something is stored for it, a revalidation in flight counting as a store, however the tiers disagreed and however short lives are |
| StatusRuns.RevalidationRefreshes | internal/cache/status.go:246-261 | main result: in any state a revalidation that succeeds replaces what was cached by the response, which has its whole life from then on, short for pending and broken sites; one that fails changes neither tier; either way the domain is no longer pending, and the next stale hit submits it again |
| StatusRuns.PersistedIsServed | internal/cache/status.go:279-301 | main result: an entry with at least half a second to live that memory has lost is found in Redis, and promoted, if and only if neither its rounded deadline nor its own expiry has passed |
| StatusRuns.RestartReloads | internal/cache/status.go:303-317 | main result: after a restart with room for all keys, memory holds exactly what Redis holds unexpired, as it was stored |
| StatusRuns.KeepsServing | internal/gateway/gateway.go:207-293 | main result: while the portal is unreachable for a domain last known active, every answer is that same response, from memory within the stale window and in place of the portal's past it, and the entry never becomes an error; without a portal the answer past the window is empty |
| StatusRuns.AnswerDecidesNext | internal/gateway/gateway.go:241-303 | main result: what one answer makes of the next request: sites and definite refusals are remembered, a cancelled request leaves no trace, an unreachable portal is remembered only if nothing can be served, a timeout not even then |
| NameRuns.ResolveRefinesInner | internal/namesys/stale.go:133-209 | main result: after every run, an answer from the cache is the inner answer for the request's own sub-path, unless the name changed since: then no longer ago than the fresh window and the time an answer can be on its way, or the entry is being revalidated; it is served as fresh exactly while it is younger than the fresh window, and exactly otherwise submitted for revalidation |
| NameRuns.TakenIsServed | internal/namesys/stale.go:141-185 | main result: an answer taken by a request or a revalidation is served from then on for every sub-path of its name, as fresh for the fresh window and revalidated after it; a revalidation is no longer pending |
| NameRuns.StepKeepsWindowIff | internal/namesys/stale.go:178-185 | main result: a step leaves an entry that is served as fresh for longer after a change of its name than the fresh window if and only if it stores an answer whose name has come to stand for something else before |
| NameRuns.FreshWithinWindow | internal/namesys/stale.go:141-148 | main result: along every run that stores no such answer, whatever is served as fresh is the inner answer for the request's own sub-path, or its name changed within the fresh window |
| NameRuns.UnchangedNameIsExact | internal/namesys/stale.go:133-209 | main result: while a name does not change, every cached answer for any sub-path equals the uncached one |
| NameRuns.MirrorKeepsNames | internal/namesys/store.go:110-143 | main result: over every run, restarts included, every cached name is in Redis with the same path, TTL and times; equal key sets stay equal as long as every load fits |
| NameRuns.LoadHoldsAllIff | internal/namesys/store.go:39-75 | main result: a load holds all stored names if and only if every record parses and they fit the capacity |
| IpfsPath.StripThenRejoinIff | internal/namesys/stale.go:33-55 | main result: stripping a request's sub-path and joining it back is the identity if and only if the name stands for two segments |
| IpfsPath.KeysNeverLeak | internal/namesys/stale.go:22-31 | main result: two paths share a key if and only if they share namespace and name |
| NameWatchers.RegistryBound | internal/namesys/stale.go:357-435 | main result: over every run a registered watcher's name is cached and its loop not cancelled, every other running loop is cancelled, and watchers are at most the capacity |
| NameWatchers.WatchBeginsIff | internal/namesys/stale.go:361-385 | main result: a name comes to be watched, registered with its loop running and not cancelled, if and only if watching is on, its key is a path, and an answer for it is taken or watchers are started for all cached names and it is one |
| NameWatchers.WatchEndsIff | internal/namesys/stale.go:387-397 | main result: it stops being watched if and only if its loop ends, it leaves the cache, or the gateway restarts; until then by the same watcher |
| NameWatchers.LearnedStaysWatched | internal/namesys/stale.go:357-435 | main result: over every run, a watched name stays watched by the same watcher until one of those happens |
| NameWatchers.EvictionCancelsExactly | internal/namesys/stale.go:91-102 | main result: caching a name cancels exactly the watcher of the name it pushes out |
| PrewarmRuns.WalksAreConserved | internal/prewarm/prewarm.go:88-156 | main result: over every run the active set is exactly the CIDs with a walk on its way, never two for one |
| PrewarmRuns.SubmittedIsWalked | internal/prewarm/prewarm.go:88-156 | main result: a submission to a running pool, of a CID not on its way out of the active set and for a path not warmed, keeps the CID active until a walk of it has ended, and one has once the pool has nothing left to do |
| PrewarmRuns.StoppedPoolDrains | internal/prewarm/prewarm.go:473-475 | main result: a stopped pool drains within a bounded number of steps whatever is still submitted; then only submissions on their way to being refused are active |
| PrewarmRuns.WarmedExactly | internal/prewarm/prewarm.go:121-141 | main result: a root is warmed exactly if a successful walk warmed it, or it was to begin with, and it was not reported evicted since |
| PrewarmRuns.OperationKeepsWarmedIff | internal/cache/content.go:375-379 | main result: any cache operation, miscounting and half-failing ones included, keeps every warmed root cached if and only if it neither deletes a warmed root whose file can be removed nor is a Clear that removes the file of one |
| PrewarmRuns.MoveKeepsInOrderIff | internal/prewarm/prewarm.go:121-141 | main result: from an orderly state, a move keeps every warmed root cached if and only if it neither takes one away unreported nor is the end of a walk that warms a root whose own block is not there |
| PrewarmRuns.WarmedRootsStayCached | cmd/gateway/main.go:256 | main result: over every interleaving of allowed cache operations and pool steps, as long as no move of those two kinds comes up, warmed roots are cached |
| PrewarmRuns.WalkLeavesOutIff | internal/prewarm/prewarm.go:335-343 | main result: in an orderly cache with readable statuses a batch walk leaves out exactly the warmed nodes whose blocks are in the cache |
| Prewarm.WalkBatch | internal/prewarm/prewarm.go:303-397 | main result: visited are exactly the nodes with a CID that arrive and are not both warmed and reported present by the block store; it fails if and only if there are such nodes to fetch and none arrives; a success accounts for every node |
| SeedPeerRuns.OneWorkerAtMost | internal/ipfs/node.go:457-498 | main result: over every run at most one worker is neither told nor being told to stop, and it is the one the node holds |
| SeedPeerRuns.ConnectLeavesWorker | internal/ipfs/node.go:457-485 | main result: at any point of any run a connect with a fresh id leaves the node active with a worker that nobody has told to stop: the one it held, or a new one |
| SeedPeerRuns.DisconnectTellsAll | internal/ipfs/node.go:487-495 | main result: at any point of any run, after the locked half of a disconnect every worker has been told or is being told to stop, and a shutdown tells all of them |
| SeedPeerRuns.ExitClearsIff | internal/ipfs/node.go:299-307 | main result: a worker's exit changes what the node holds if and only if the node holds that worker |
| SeedPeerRuns.ExitClearsSameIdIff | internal/ipfs/node.go:299-307 | main result: whatever ids are drawn, while the node holds a worker, an exit clears the node's state if and only if the two carry the same id |
| SeedPeerRuns.ToldWorkerGoes | internal/ipfs/node.go:311-390 | main result: a worker told to stop takes at most nine more steps and is never stuck |
| SeedPeerRuns.WaitEndsForTold | internal/ipfs/node.go:487-498 | main result: from any point of any run, a worker that has been told takes at most the steps it has left, nine at the most, is gone once it has, and is never stuck; one that has not been told stays as long as nobody tells it |
| SeedPeerRuns.NoLostDisconnect | internal/ipfs/node.go:309-382 | main result: the channel is empty at each loop head; while waiting with the peer gone, the token is there or the next delivery puts it there; a disconnection delivered at any point between registering the callback and the end of the wait leaves its token |
| SeedPeerRuns.StepKeepsFlagIff | internal/ipfs/node.go:323-378 | main result: a step keeps the connected flag exact if and only if it does not lower it while another worker watches |
| SeedPeerRuns.FlagExactAlone | internal/ipfs/node.go:457-498 | main result: if no worker is started while another is there, the flag is exact |
| RecoveryLimits.StuckPageReportsReady | internal/sitewatch/reconciler.go:232-237 | counterexample: a reached state: a stuck truncated page ends in ready with nothing dispatched |
| RecoveryLimits.UndeliveredGapClears | internal/sitewatch/broken_watcher.go:156-165 | counterexample: a reached state: the tick before the disconnection is delivered clears while a missed change is undispatched and an older status cached |
| RecoveryLimits.StraddlingStatusSurvives | internal/cache/status.go:252-260 | counterexample: a reached state, and the step that stores the old status: ready, drained and about to clear, with a status cached from before a dispatched change |
| RecoveryLimits.CursorMayRetreat | internal/sitewatch/reconciler.go:191-196 | counterexample: a reached state of a draining portal from which storing a mark moves the cursor from two to one |
| BlockMap.FlatOnlyPutMiscounts | internal/cache/content.go:237-266 | counterexample: a concrete Put onto a flat file after which the count is too low |
| BlockMap.SelfEvictingPutMiscounts | internal/cache/content.go:248-266 | counterexample: a concrete Put that evicts its own old file and subtracts it twice |
| BlockMap.HalfClearMiscounts | internal/cache/content.go:447-474 | counterexample: a concrete failing Clear that leaves count and recency list wrong |
| BlockMap.UnreadableDeleteDoesNothing | internal/cache/content_blockstore.go:36-66 | counterexample: a concrete deletion that reports success and leaves the block |
| StatusRuns.ShortLifeLeavesOlderRecord | internal/cache/status_persistent.go:79-82 | counterexample: a concrete error with a short life that leaves an older response in Redis |
| IpfsPath.LongRootLosesSubPath | internal/namesys/stale.go:33-55 | counterexample: a concrete name whose cached answer lacks a segment of the inner one |
| NameLimits.OldRootOutlivesWindow | internal/namesys/stale.go:178-185 | counterexample: a legal run: an answer from before a change is stored after it and served as fresh for longer after it than the fresh window |
| NameLimits.OverflowingLoadKeepsNames | internal/namesys/store.go:39-75 | counterexample: a concrete load after which a name is in Redis only |
| PrewarmRuns.DeletedRootStaysWarmed | internal/cache/content_blockstore.go:36-47 | counterexample: a concrete deletion that leaves a root warmed without its block |
| PrewarmRuns.HalfClearLeavesRootWarmed | internal/cache/content.go:447-474 | counterexample: a concrete Clear that fails after removing a warmed root |
| PrewarmRuns.RootlessWalkWarms | internal/prewarm/prewarm.go:350-396 | counterexample: a concrete walk that gets a leaf but not its root, warms the root, and makes the next request start no walk |
| SeedPeerRuns.SameIdForgetsSuccessor | internal/ipfs/node.go:299-307 | counterexample: a concrete run with one id drawn twice after which a worker can no longer be stopped |
| SeedPeerRuns.LateWorkerIsNotTold | internal/ipfs/node.go:487-498 | counterexample: a legal run in which a worker connected between the two halves of a disconnect has not been told when the wait begins |
| SeedPeerRuns.ReplacedWorkerLowersFlag | internal/ipfs/node.go:369-374 | counterexample: a reachable state in which the flag is down while the current worker watches the connected peer |
| Recovery.StaleRunCannotMarkReady | internal/sitewatch/reconciler.go:170-174 | for any portal, the end of an older session's run leaves the reconciler not ready |
| Recovery.SessionOpensIff | internal/sitewatch/reconciler.go:115-147 | a session opens exactly on a delivered connection that follows a disconnection; a repeated report changes nothing |
| Recovery.WatchComesAndGoes | internal/sitewatch/broken_watcher.go:108-245 | a site comes under watch exactly by being marked, and leaves it exactly by a clearing tick, a restart, an active answer or a last confirming 404 |
| Recovery.SafeAlways | cmd/gateway/main.go:280-356 | under honest pages, replay, the cached statuses and those on their way hold besides |
| Recovery.OldStatusStraddles | internal/gateway/gateway.go:241-297 | a cached status of a changed site was stored after the dispatch; if it predates the change it was on its way across the dispatch |
| Recovery.LastsDrain | internal/sitewatch/reconciler.go:213-220 | with a portal that keeps its contract, the last page of every run kept it |
| Recovery.DrainingRunReaches | internal/sitewatch/reconciler.go:232-237 | a run that ends without error on a page that keeps the contract has reached the journal head of its start |
| Recovery.OwnRunClearLosesNothing | internal/sitewatch/broken_watcher.go:156-185 | the same for any honest portal, if the session's own run was not stuck |
| Recovery.DrainingCursorRetreatsIff | internal/sitewatch/reconciler.go:191-196 | with a portal that keeps its contract, besides such a restart exactly the writes of runs whose cursor read failed can do so |
| Recovery.BasicAlways | cmd/gateway/main.go:280-356 | for any portal, sessions, timing, paging, cursor and report delivery hold together along every legal run |
| Replay.SafeStep | internal/sitewatch/reconciler.go:191-250 | every step of a run keeps the invariant that a run never stands past an event it has not seen dispatched, and the world's safety |
| Replay.ExactStep | internal/sitewatch/reconciler.go:198-239 | under honest pages every step keeps: dispatched so far is exactly the journal from the start to where the run stands |
| Replay.JournalGrows | internal/sitewatch/reconciler.go:191-250 | a change journaled during a run leaves the world safe |
| Replay.ReplayIsIdempotent | internal/sitewatch/reconciler.go:189-190 | replaying an overlapping range invalidates no further domain |
| Replay.PagingIsBounded | internal/sitewatch/reconciler.go:198-239 | the same for one reconcile and any sequence of replies, failures and aborts |
| Replay.EndsDrainedIff | internal/sitewatch/reconciler.go:232-237 | a run ending without error, whose last page reaches the end if it says so, ends at or past the journal head of its start if and only if that page was not a truncated one short of it |
| Replay.BoundedStep | internal/sitewatch/reconciler.go:198-239 | every possible step keeps the bound on requests and the climbing cursors |
| Replay.CursorStep | internal/sitewatch/reconciler.go:227-238 | a step keeps the cursor at or before a run that read it, and lowers it exactly by writing an earlier mark |
| Replay.RunGoesOn | internal/sitewatch/reconciler.go:191-250 | nothing else in the gateway, nor a change journaled meanwhile, undoes what a run has established |
| Replay.DispatchLaw | internal/sitewatch/reconciler.go:253-267 | from the event's fields: a published or removed event with a domain leaves no cached status of it and all others, any other event leaves them as they are; a published one with domain and CID submits that pair, nothing else does |
| BrokenWatcher.EntersOnlyBy | internal/sitewatch/broken_watcher.go:108-119 | a domain enters the set exactly by being marked, if it has a name, and nothing else changes then |
| SiteState.StatusDecides | pkg/types/state.go:39-70 | exactly active sites are serviceable; exactly pending and broken ones need the short life |
| Journal.BetweenSplits | internal/sitewatch/reconciler.go:222-239 | page after page is the whole range: nothing lost or repeated at a boundary |
| Journal.BetweenMembers | internal/sitewatch/reconciler.go:215-225 | a page range holds exactly the journal's events with an id in it |
| BlockMap.OpensInOrder | internal/cache/content.go:137-163 | a cache opened over a fitting directory starts in order, whatever the walk's order, and tracks the blocks the walk came to last, most recent last, up to the list's capacity: all of them if they fit |
| BlockMap.StepLaw | internal/cache/content.go:170-474 | one allowed operation keeps the order and changes the contents as the caller is told |
| ContentLaws.EvictKeepsTracked | internal/cache/content.go:333-380 | files of blocks still tracked are left alone |
| ContentLaws.EvictLaw | internal/cache/content.go:325-443 | an orderly cache stays so and loses exactly the reported blocks |
| ContentLaws.EvictSucceedsIff | internal/cache/content.go:325-443 | under any faults eviction succeeds exactly if what goes frees enough and no walk it came to fails |
| ContentLaws.TooLittleTracked | internal/cache/content.go:333-340 | the list falls short exactly when tracked blocks hold too little, and then all of them go |
| ContentLaws.WalkTakesAll | internal/cache/content.go:400-442 | the walk frees any amount that is on disk, and no more |
| ContentLaws.SameLengthIsSafe | internal/cache/content.go:237-266 | rewriting a hashed block with one of the same length never miscounts |
| ContentLaws.PutLaw | internal/cache/content.go:218-272 | otherwise Put keeps order and budget even when it fails half way, and stores the block besides what eviction reported |
| ContentLaws.PutLeaves | internal/cache/content.go:256-271 | a Put that succeeds evicts nothing if the growth fits, adds its block and nothing else, and makes it the most recent |
| ContentLaws.GetLaw | internal/cache/content.go:170-211 | a lookup keeps the cache in order and changes only, and only if it finds the block, its place in the recency list: it comes last and the others keep their order |
| ContentLaws.DeleteForgets | internal/cache/content_blockstore.go:27-67 | a deletion takes that block alone from the recency list, if it removes it |
| ContentCache.PutManyMore | internal/cache/content_blockstore.go:125-132 | one more put is made exactly if all before it succeeded |
| ContentLaws.ClearLeaves | internal/cache/content.go:447-474 | Clear takes away exactly the blocks of the files before the first that cannot be removed, and reports none |
| ContentLaws.EvictionReaches | internal/cache/content.go:332-380 | making room takes a tracked block exactly if the blocks used less recently hold less than is needed |
| ContentLaws.EvictionReachesUntracked | internal/cache/content.go:400-432 | making room takes an untracked file exactly in that case |
| Disk.GoneFacts | internal/cache/content.go:365-373 | removing a list of targets frees exactly the sizes of the files removed, each removed once |
| Recency.TouchFacts | internal/cache/content.go:268-269 | inserting keeps the list duplicate-free and within capacity and drops the oldest key exactly when a new one finds it full |
| Recency.TouchUses | internal/cache/content.go:268-269 | a used key comes last, known or new, the others keep their order, and a full list loses its oldest key to a new one |
| Recency.Lru.AddLaw | internal/cache/status.go:129-138 | adding a key costs at most the oldest other one, when a new key finds the list full; a lookup only moves the key it finds |
| Recency.Lru.RemoveLaw | internal/cache/status.go:92-97 | removing takes out that key alone |
| StatusRuns.PersistsIff | internal/cache/status_persistent.go:79-82 | an entry is written through exactly when its remaining life is at least half a second |
| StatusRuns.RoundsToNearest | internal/cache/status_persistent.go:79-82 | the life in Redis is the nearest whole number of seconds |
| StatusRuns.RequestDuringOutage | internal/gateway/gateway.go:193-293 | one whole request in an outage is served and leaves the response in place |
| StatusRuns.StoredIsServedFor | internal/cache/status.go:99-161 | a portal response is served for its life, then for the stale window while it is revalidated, then not at all; the life is short exactly for pending and broken sites |
| StatusRuns.MemoryAnswers | internal/cache/status.go:99-127 | a lookup in memory answers the entry until it expires, marked expired for the stale window, then nothing; it submits exactly the expired hits |
| StatusRuns.ErrorIsServedFor | internal/gateway/gateway.go:241-293 | an unknown domain's error is remembered for the full life, one that is gone or forbidden for the short one, and so is an unreachable portal for a domain nothing is known of |
| StatusRuns.KeepAliveFinds | internal/cache/status.go:199-224 | there is something to re-arm exactly if memory holds the domain or Redis does, unexpired; then it lives for the short life and is revalidated |
| StatusRuns.StepElsewhere | internal/cache/status.go:92-317 | a step about one domain leaves every other domain's entries as they are, or evicts them |
| StatusRuns.StepCostsOldest | internal/cache/status.go:92-317 | it evicts another only as the oldest of a full memory and for a new one; an invalidation evicts none |
| StatusRuns.FirstRequestIsUncached | internal/gateway/gateway.go:193-309 | the first request for a domain is answered as without a cache; one for an IP address is refused without a trace |
| NameRuns.RecordRoundTrip | internal/namesys/store.go:61-73 | storing and reading back an entry with a valid path, and reading and storing a record, are identities |
| NameRuns.RefusalEnds | internal/namesys/stale.go:320-341 | a revalidation without an answer is no longer pending and changes nothing else |
| NameRuns.DeletedIsGone | internal/namesys/store.go:129-143 | a deleted name is gone from list, Redis and registry, its watcher is cancelled, and the others stay |
| NameRuns.WatchResultIs | internal/namesys/stale.go:414-433 | a watch result that brings no other path only counts as a lookup; another one is cached and prewarmed |
| NameRuns.CacheAlways | internal/namesys/stale.go:133-435 | the cache and mirror invariant over every run, restarts included |
| NameRuns.FittingLoadMirrors | internal/namesys/store.go:39-75 | after a load that fits the key sets are equal from then on |
| IpfsPath.KeyIsName | internal/namesys/stale.go:22-31 | the key is the text of namespace and name, and parses back to them |
| IpfsPath.ServesSubPath | internal/namesys/stale.go:33-55 | what is cached from one sub-path serves every other sub-path of the name |
| IpfsPath.SplitText | internal/namesys/store.go:61-73 | reading a path's text back gives its segments |
| IpfsPath.TextSplit | internal/namesys/store.go:61-73 | the text of the segments read is the text |
| NameWatchers.RetiringSparesSuccessor | internal/namesys/stale.go:393-397 | a retiring loop deregisters itself and nobody else |
| NameWatchers.TakingWatches | internal/namesys/stale.go:178-185 | taking an answer caches and prewarms it and leaves its name watched if watching is on, by the watcher it had if any; with watching off the registry does not grow |
| NameWatchers.WarmWatches | internal/namesys/stale.go:114-131 | after watchers have been started for all names, with watching on, every cached name whose key is a path is watched |
| PrewarmRuns.PoolDrains | internal/prewarm/prewarm.go:108-156 | the pool's own steps are bounded, and none is left if and only if nothing is active |
| PrewarmRuns.ActiveUntilWalked | internal/prewarm/prewarm.go:108-155 | while the pool runs, an active CID not on its way out stays so until a walk of it ends |
| PrewarmRuns.StopLasts | internal/prewarm/prewarm.go:473-475 | the pool is stopped exactly from a Stop on |
| PrewarmRuns.NotTaken | internal/prewarm/prewarm.go:148-212 | a warmed root's path and a submission to a stopped pool lead to no walk and leave nothing active or queued |
| PrewarmRuns.StoppedQueueShrinks | internal/prewarm/prewarm.go:84-87 | a stopped pool queues nothing that was not queued before |
| PrewarmRuns.WalksChange | internal/prewarm/prewarm.go:96-155 | a step changes the number of walks of its own CID alone |
| PrewarmRuns.PutReportsLosses | internal/cache/content.go:248-266 | any Put, also one that miscounts or fails, loses only blocks that it reports |
| PrewarmRuns.ClearKeepsWarmedIff | internal/cache/content.go:447-474 | a Clear, failing or not, keeps every warmed root cached if and only if it removes no file of one |
| PrewarmRuns.RootlessOutcome | internal/prewarm/prewarm.go:377-396 | what a batch walk must return for the nodes of that case |
| SeedPeerRuns.FlagNeverOverclaims | internal/ipfs/node.go:351-378 | the flag is raised only while some worker watches the peer |
| SeedPeerRuns.UntoldWorkerStays | internal/ipfs/node.go:311-390 | a worker that nobody tells to stop is there after every run |
| SeedPeerRuns.HeardWorkerExits | internal/ipfs/node.go:323-390 | a worker told to stop that hears it at its loop head, after a failed connect, in a pause or in its wait goes without coming back to its loop |
| Reconciler.CursorStore.Get | internal/cache/sse_cursor.go:32-52 | the stored mark, or zero on any failure, with the exact failure condition |
| Reconciler.CursorStore.Set | internal/cache/sse_cursor.go:56-68 | a success stores the mark, a failure changes nothing; without Redis it never fails |
| Reconciler.SiteReconciler.OnConnect | internal/sitewatch/reconciler.go:115-147 | the new flags and the session launched, as the session function the run theorems are about |
| Reconciler.SiteReconciler.Conclude | internal/sitewatch/reconciler.go:170-186 | the flags after a run and the session launched next |
| Reconciler.SiteReconciler.Dispatch | internal/sitewatch/reconciler.go:253-267 | one event's effect on the cached statuses and on prewarming, from the event's fields and as the step the run theorems are about |
| Reconciler.SiteReconciler.Reconcile | internal/sitewatch/reconciler.go:191-250 | the page loop is a feasible sequence of steps of the run machine that ends with its verdict and its world |
| Reconciler.SiteReconciler.Run | internal/sitewatch/reconciler.go:162-187 | the loop followed by its tail; at most the page cap of requests |
| BrokenWatcher.SiteWatcher.constructor | internal/sitewatch/broken_watcher.go:80-104 | an empty set and the defaulted confirmation count |
| BrokenWatcher.SiteWatcher.MarkBroken | internal/sitewatch/broken_watcher.go:108-119 | adds the domain unless it is empty |
| BrokenWatcher.SiteWatcher.Clear | internal/sitewatch/broken_watcher.go:172-186 | empties the set and the counters |
| BrokenWatcher.SiteWatcher.ConfirmNotFound | internal/sitewatch/broken_watcher.go:249-255 | counts one more 404 and tells whether it confirms deletion |
| BrokenWatcher.SiteWatcher.Recover | internal/sitewatch/broken_watcher.go:267-287 | forgets the domain, invalidates it once and fires one callback with the reported hash |
| BrokenWatcher.SiteWatcher.Settle | internal/sitewatch/broken_watcher.go:212-245 | one polled outcome: exactly an active answer invalidates and fires |
| BrokenWatcher.SiteWatcher.Poll | internal/sitewatch/broken_watcher.go:190-246 | the loop over the snapshot gives, in any order, what each domain would get alone; exactly the active ones are invalidated, once each, with one callback carrying the reported hash |
| BrokenWatcher.SiteWatcher.Tick | internal/sitewatch/broken_watcher.go:146-168 | connected and ready clears, connected and not ready does nothing, neither invalidates or calls back; disconnected polls, with exactly a poll's effects |
| ContentCache.Cache.constructor | internal/cache/content.go:137-163 | opening counts every file and tracks every block found |
| ContentCache.Cache.EvictOldest | internal/cache/content.go:333-380 | the loop over the recency list removes its shortest sufficient prefix |
| ContentCache.Cache.EvictLocked | internal/cache/content.go:325-387 | list first, then the disk |
| ContentCache.Cache.EvictFromDiskLocked | internal/cache/content.go:393-443 | the walk removes the shortest sufficient prefix of its order |
| ContentCache.Cache.Room | internal/cache/content.go:248-254 | evicts only what does not fit |
| ContentCache.Cache.PutBlock | internal/cache/content.go:218-272 | the whole new state of a Put under any faults, and its verdict, whose exact condition is `ContentLaws.PutSucceedsIff` |
| ContentCache.Cache.PutBlocks | internal/cache/content_blockstore.go:125-132 | puts in order up to the first failure |
| ContentCache.Cache.GetBlock | internal/cache/content.go:170-211 | the block found and the new recency, or nothing changed |
| ContentCache.Cache.DeleteBlock | internal/cache/content_blockstore.go:27-67 | hashed file first, flat file else, with their error cases |
| ContentCache.Cache.ClearAll | internal/cache/content.go:447-474 | all files gone and the books reset, or the files before the failing one gone and nothing reset |
| ContentCache.Cache.Has | internal/cache/content_blockstore.go:69-90 | present if tracked, or a readable file is there in either layout |
| ContentCache.Cache.GetSize | internal/cache/content_blockstore.go:104-118 | the size of the file found, without the recency list |
| StatusCache.Cache.constructor | internal/cache/status.go:44-83 | memory filled, in any order, with the unexpired persisted entries |
| StatusCache.Cache.StoreEntry | internal/cache/status.go:264-277 | both tiers written, Redis only if the rounded life is positive |
| StatusCache.Cache.StoreFromAPI | internal/cache/status.go:155-161 | pending and broken sites get the short life, all others the full one |
| StatusCache.Cache.StoreError | internal/cache/status.go:167-187 | the error stored with the chosen life |
| StatusCache.Cache.Drop | internal/cache/status.go:92-97 | the domain leaves both tiers |
| StatusCache.Cache.StartRevalidation | internal/cache/status.go:237-246 | submitted if and only if none is in flight and there is a portal |
| StatusCache.Cache.FinishRevalidation | internal/cache/status.go:246-261 | what a revalidation leaves, whose meaning is `StatusRuns.RevalidationRefreshes`: a success is stored, a failure changes neither tier, and the domain is no longer pending |
| StatusCache.Cache.Promote | internal/cache/status.go:279-301 | an unexpired persisted entry moves into memory |
| StatusCache.Cache.LookUp | internal/cache/status.go:99-127 | fresh, stale with a revalidation, or a miss, at the source's exact boundaries |
| StatusCache.Cache.KeepServing | internal/cache/status.go:199-224 | the last entry however old, re-armed for a short life with response, error and caching time kept |
| Gateway.SiteGateway.LastKnown | internal/gateway/gateway.go:311-326 | the last response if serviceable, else none |
| Gateway.SiteGateway.Check | internal/gateway/gateway.go:193-309 | the whole decision and the cache it leaves; without a cache, the uncached answer |
| Gateway.SiteGateway.AfterMiss | internal/gateway/gateway.go:241-303 | which portal outcome is cached, replayed or degraded |
| NameCache.Store.constructor | internal/namesys/store.go:27-88 | the list as loaded in any order, unparsable records skipped, Redis untouched |
| NameCache.NameSystem.Evicted | internal/namesys/stale.go:91-102 | the key leaves Redis and its watcher is deregistered and cancelled |
| NameCache.NameSystem.Put | internal/namesys/store.go:110-127 | the entry in the list and in Redis, the pushed-out key handled by the callback |
| NameCache.NameSystem.Delete | internal/namesys/store.go:129-143 | an absent key changes nothing, a present one leaves list, Redis and registry |
| NameCache.NameSystem.Start | internal/namesys/stale.go:361-385 | one watcher per key at most, none for a key that is no path; when there is one is `NameWatchers.WatchBeginsIff` |
| NameCache.NameSystem.EnableWatch | internal/namesys/stale.go:106-108 | watching is on from then on, and nothing else changes |
| NameCache.NameSystem.WarmSubscriptions | internal/namesys/stale.go:114-131 | the loop starts a watcher for every cached name, if watching is on |
| NameCache.NameSystem.Remember | internal/namesys/stale.go:180-185 | the stripped result is cached, watched and prewarmed under its key |
| NameCache.NameSystem.Resolve | internal/namesys/stale.go:133-209 | served from the cache, or by the inner answer, with the whole state left behind |
| NameCache.NameSystem.Revalidated | internal/namesys/stale.go:315-355 | only a success is stored; the key is no longer pending |
| NameCache.NameSystem.Watched | internal/namesys/stale.go:403-433 | an unchanged path is dropped, a new one cached and prewarmed |
| NameCache.NameSystem.Retire | internal/namesys/stale.go:393-397 | the loop is gone and its own registration with it |
| Prewarm.Walk | internal/prewarm/prewarm.go:161-175 | the batch outcome if it did not fail, else the walk link by link |
| Prewarm.Prewarmer.SubmitRoot | internal/prewarm/prewarm.go:88-106 | refused if and only if active |
| Prewarm.Prewarmer.SubmitSubPath | internal/prewarm/prewarm.go:181-212 | refused if and only if active or warmed |
| Prewarm.Prewarmer.EnterPool | internal/prewarm/prewarm.go:108-155 | queued, or dropped and inactive again if the pool has stopped |
| Prewarm.Prewarmer.FinishWalk | internal/prewarm/prewarm.go:119-147 | warmed if and only if it did not fail and visited something, or was already |
| SeedPeer.SeedNode.ConnectSeedPeer | internal/ipfs/node.go:457-485 | a worker with a new id unless one is active, there is no address, or no random bytes |
| SeedPeer.SeedNode.TakeCancel | internal/ipfs/node.go:487-492 | the node forgets its worker and hands out its cancel function |
| SeedPeer.SeedNode.Notify | internal/ipfs/node.go:338-350 | every registered callback fires once |
| SeedPeer.SeedNode.CheckConnection | internal/ipfs/node.go:355-363 | a peer gone before registration leaves a token |
| SeedPeer.SeedNode.Await | internal/ipfs/node.go:369-382 | the token is taken, or the wait ends with the context |
| SeedPeer.SeedNode.Retire | internal/ipfs/node.go:299-307 | the deferred exit |

## Left out

- Races below a mutex-protected section: `DeleteBlock` holding another mutex than the cache, in the status cache's own runs the order in which concurrent fetches of one status were answered, a domain marked broken between a confirmed 404 and its removal.
- Failing Redis operations of the status and name caches: they are taken to work; the cursor store's failures are modelled.
- Error classes across the Redis tier: only the text survives, and the model says so (`Restored`).
- Key prefixes and JSON encoding in Redis, and cursor-wise scanning: keys are the domains and names, and a scan is an order of keys.
- Path cleaning, trailing slashes and the syntax of CIDs; SHA-256 path hashing is an injective constructor.
- Partial file writes: a write that fails leaves no file change. Integer overflow of byte counts.
- Realtime events and prewarming of a missing cache or prewarmer: the reconciler is modelled as the gateway wires it, with both present.
- `ResolveAsync` as an entry point of its own: the same lookups and stores as `Resolve`, without the prewarm callback.
- The LRU, worker pool, SDK, Boxo, merkledag walk, Bitswap and libp2p libraries: lists, queues, and inputs that decide what they return. The retries of one block fetch are one outcome.
- The seed-peer worker's loop as one method: its steps interleave with everything else, so each is a step of the machine, and the class has methods for the steps that touch shared state; backoff timing, address resolution and peers other than the one the address names are not modelled.
- StatusRuns.KeepsServing: the domain is taken not to be evicted from memory nor the gateway restarted along the run, because the entry may have expired in Redis by then.
- Recovery.ClearingLosesNothing: assumes delivered disconnections and draining pages; what holds without either is stated in `Recovery.ClearLosesNothingIff`.
- BlockMap.CacheRefinesMap: excludes the operations that break the books, whose exact conditions are proved separately.
- Watchers for all cached names are started in one step: between the listing of the names and the start of a watcher the source lets a name be evicted.
- HTTP handling, templates, header rewriting, metrics, tracing, configuration, DNSLink and health checks: plumbing with no state worth a theorem.
