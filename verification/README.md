# Verified models of the Linux ABI policy crates

Dafny models of the state machines in the `fd`, `io-uring` and `cred` crates, with proofs that hold for every input, every reachable state or every run.

The crates hold policy without I/O: each method is one step under a lock that the embedding kernel owns. A component that updates fields in place is a class here, with a `Valid()` invariant and ghost history where a property speaks about runs. Rules that only compute values are functions, and loops in the source are methods with loops, proved against those functions.

| file | models |
|---|---|
| `EpollTopology.dfy`, `EpollGraph.dfy` | nesting of epoll instances: walks, longest paths, and the budgeted searches of `crates/fd/src/graph.rs` |
| `RequestLedger.dfy`, `RequestRuns.dfy` | the io_uring request protocol as a ledger and its steps; theorems over whole runs |
| `RequestRegistry.dfy`, `Bits.dfy` | the slot table, free list, credit account and wrapping completion queue, each method refining one ledger step |
| `ReadyQueue.dfy`, `Wakeups.dfy`, `EpollCore.dfy` | the ready queue in its circular buffer, the log of wakeups and deliveries, and the epoll core |
| `IdMap.dfy` | user-namespace ID maps with their two sorted indexes |
| `Credential.dfy`, `Exec.dfy`, `Transition.dfy` | capability sets, namespace authority, exec derivation, set*id and capset, and runs of them |
| `LeaseTable.dfy` | registered files and registered buffers, their leases and their retirement |
| `FdTable.dfy` | the descriptor table, two-phase publication, duplication, fork and batch close |
| `WatchAccount.dfy` | the shared watch account under interleaved atomic steps, and two-phase subscriptions |
| `Wrappers.dfy` | option and result values, and counting lemmas |

How the source is represented:

- Identities (`Arc` pointers, ring, table and epoll ids) are numbers. That ids are not reused is the caller's obligation, as the source documents it.
- Request ids, permits and publications are plain values that can be copied and replayed; safety comes from the registry. Leases and prepared descriptors exist once in the source, and are taken to exist once here. A delivery can be copied and replayed; it only has to have been handed out by its core.
- Capability words, securebits and event masks are sets of bit numbers. `Bits.WordsAreSets` and `Bits.NoBitsOutside` relate words to sets.
- Machine widths are written out: 32-bit completion counters wrap, 64-bit generations run out, `usize` is 64 bits.
- Each atomic access is one step of a sequentially consistent interleaving.
- The registered file and registered buffer tables run one protocol, so they are one class: a file table leases the whole file, a buffer table a byte range. Error names that differ only in `File` or `Buffer` are one name.
- Branches the source keeps as a defence, and that the proofs show unreachable, are left out of the bodies: the contracts say the error cannot arise.

One claim one might expect does not hold: without no_new_privs a run of credential changes can add to the permitted set. `Transitions.RootExecGains` gives the case, `Transitions.GrowsIffGains` the exact condition for one change, and `Transitions.PermittedShrinksOverRuns` the resulting law over runs.

## Model

| member | source | states |
|---|---|---|
| `EpollTopology.BoundedIsAcyclic` | crates/fd/src/graph.rs:308-355 | a bound on path length excludes every cycle, because a cycle could be walked round for ever |
| `EpollTopology.ReachableByStep` | crates/fd/src/graph.rs:281-306 | one node reaches another iff some edge leaves it for a node that reaches the other: what the depth-first search relies on |
| `EpollTopology.WalkFitsNodes` | crates/fd/src/graph.rs:281-355 | in an acyclic graph no walk is longer than the node table, so the `path_len > nodes.len()` branches are unreachable |
| `EpollTopology.NodesBoundSearch` | crates/fd/src/graph.rs:281-355 | the node table bounds the search in both directions from every node |
| `EpollTopology.AcyclicIffUnreachable` | crates/fd/src/graph.rs:411-428 | adding an edge keeps the graph acyclic iff its child did not already reach its parent |
| `EpollTopology.NestingIffFits` | crates/fd/src/graph.rs:411-428 | for an edge that closes no cycle, the new longest path fits the bound iff longest-into-parent + 1 + longest-from-child does |
| `EpollGraphs.DownCostIsFull` | crates/fd/src/graph.rs:281-333 | the step count of a downward search is that of the full search, whatever bound above the longest walk it is computed with |
| `EpollGraphs.FindCostIsFull` | crates/fd/src/graph.rs:281-306 | the step count of a search that may stop early does not depend on the bound it is computed with |
| `EpollGraphs.UnfoundIsFull` | crates/fd/src/graph.rs:281-306 | a search that finds nothing costs a full search |
| `EpollGraphs.UpCostIsFull` | crates/fd/src/graph.rs:335-355 | the same for the upward search |
| `EpollGraphs.SoundIsAcyclic` | crates/fd/src/graph.rs:239-271 | every state the graph can be in is acyclic |
| `EpollGraphs.ParentsStayWithin` | crates/fd/src/graph.rs:405-441 | an accepted edge leaves every node within its limit of distinct parents |
| `EpollGraphs.RemovalKeepsLimits` | crates/fd/src/graph.rs:444-456 | removing an interest keeps the nesting and parent limits |
| `EpollGraphs.Reaches` | crates/fd/src/graph.rs:281-306 | the search succeeds iff its budget covers the steps up to the first edge that leads to the target; then it answers reachability and has spent exactly those steps, and otherwise reports `WalkLimit` |
| `EpollGraphs.MaxDescendantDepth` | crates/fd/src/graph.rs:308-333 | computes the longest downward walk, spending exactly its full cost, or reports `WalkLimit` only when the budget is below that cost |
| `EpollGraphs.MaxParentDepth` | crates/fd/src/graph.rs:335-355 | computes the longest upward walk, spending exactly its full cost, or reports `WalkLimit` only when the budget is below that cost |
| `EpollGraphs.DistinctParentCount` | crates/fd/src/graph.rs:357-375 | counts the set of distinct parents |
| `EpollGraphs.EpollGraph.constructor` | crates/fd/src/graph.rs:176-196 | an empty graph satisfies the invariant |
| `EpollGraphs.EpollGraph.TryNew` | crates/fd/src/graph.rs:20-42 | exactly the finite limits are accepted |
| `EpollGraphs.EpollGraph.Register` | crates/fd/src/graph.rs:239-256 | lowest free slot, fresh generation, no live token disturbed; every refusal with its condition |
| `EpollGraphs.EpollGraph.Unregister` | crates/fd/src/graph.rs:259-271 | refused as stale iff the token is not live and as busy iff some edge names the node; a retired token is stale for ever |
| `EpollGraphs.EpollGraph.Judge` | crates/fd/src/graph.rs:411-428 | the three walks give one determined answer: cycle, walk limit, nesting or accept, in terms of acyclicity and path length of the larger graph and the steps the walks need |
| `EpollGraphs.EpollGraph.Refusal` | crates/fd/src/graph.rs:382-428 | the one answer to every request, in the order in which errors win |
| `EpollGraphs.EpollGraph.AddInterest` | crates/fd/src/graph.rs:382-441 | accepts an interest iff the larger graph is acyclic and within every limit and budget, stores exactly that edge, and keeps the invariant |
| `EpollGraphs.EpollGraph.RemoveInterest` | crates/fd/src/graph.rs:444-456 | removes exactly the live edge of the token; an edge token never works twice |
| `EpollGraphs.EpollGraph.ParentCount` | crates/fd/src/graph.rs:459-462 | the distinct parents of a live node, within the limit |
| `RequestLedgers.StepInv` | crates/io-uring/src/request.rs:555-954 | every step of the request protocol keeps the invariant: credits cover live and unread entries, states agree with their history, each end is recorded once |
| `RequestRuns.RunKeepsInv` | crates/io-uring/src/request.rs:555-954 | every state of every run satisfies the invariant |
| `RequestRuns.RunExtends` | crates/io-uring/src/request.rs:555-954 | a run never loses a published CQE, a fate or a terminal owner |
| `RequestRuns.OneTerminalOwner` | crates/io-uring/src/request.rs:678-771 | in every run at most one step wins the terminal transition of a request |
| `RequestRuns.UncancellableCompletes` | crates/io-uring/src/request.rs:641-711 | issued work other than a poll is only ever claimed with cause Completed |
| `RequestRuns.ClaimAllowed` | crates/io-uring/src/request.rs:678-711 | who may claim: anyone before execution, after it anyone for a poll and only the completion for other work |
| `RequestRuns.NothingAfterTheEnd` | crates/io-uring/src/request.rs:989-1046 | after a request ended, no later step of the run can name its id: stale ids, permits and publications reach nothing |
| `RequestRuns.ExactlyOnce` | crates/io-uring/src/request.rs:555-954 | after admission a request is still in the table or ended with at most one CQE, at one place, carrying its own user data and the result and flags it was finished with |
| `RequestRuns.CqeCarriesResult` | crates/io-uring/src/request.rs:774-851 | every published CQE comes from one Finish step of the run and carries its result and flags, whatever was planned, taken back and planned again between |
| `RequestRuns.FinishedOnce` | crates/io-uring/src/request.rs:774-790 | a request is finished at most once in a run |
| `RequestRuns.CommittedIsKept` | crates/io-uring/src/request.rs:618-638 | a committed request is never rolled back or committed again |
| `RequestRuns.PublishNeverFindsFullQueue` | crates/io-uring/src/request.rs:798-828 | while a request is live the queue has room for its completion |
| `RequestRuns.RetireOne` | crates/io-uring/src/request.rs:889-954 | any live request of a closing ring can be brought to its end without userspace |
| `RequestRuns.CanAlwaysClose` | crates/io-uring/src/request.rs:889-954 | from every reachable state some run closes the ring |
| `Bits.MaskIsRemainder` | crates/io-uring/src/request.rs:798-828 | masking with a power of two less one is the remainder |
| `Bits.WrapKeepsSlot` | crates/io-uring/src/request.rs:798-828 | a counter that wrapped at 2^32 still finds the same ring slot |
| `Bits.SlotsDiffer` | crates/io-uring/src/request.rs:798-828 | positions less than a ring apart use different slots |
| `Bits.WordsAreSets` | crates/cred/src/credential.rs:346-366 | bit by bit, word and, or and and-not are intersection, union and difference |
| `Bits.NoBitsOutside` | crates/cred/src/credential.rs:346-366 | a word and-not another is zero iff it is a subset of it |
| `RequestRegistries.TailSlotIsFree` | crates/io-uring/src/request.rs:798-828 | while the queue has room the slot of the next position is not the slot of an unread CQE |
| `RequestRegistries.MaskedTail` | crates/io-uring/src/request.rs:798-828 | the masked wrapping tail is the ring slot of the unbounded position |
| `RequestRegistries.WrapDifference` | crates/io-uring/src/request.rs:1048-1055 | the published count read off the wrapping counters is the true one |
| `RequestRegistries.QueueAppends` | crates/io-uring/src/request.rs:831-851 | writing the planned CQE extends the unbounded queue by it and overwrites no unread one |
| `RequestRegistries.HeadConsumes` | crates/io-uring/src/request.rs:875-886 | a head beyond the unread CQEs is the head after no prefix of them |
| `RequestRegistries.ReserveMatches` | crates/io-uring/src/request.rs:555-615 | the id handed out has never been used in this ring |
| `RequestRegistries.CanCancelMeans` | crates/io-uring/src/request.rs:717-771 | what a cancellation may claim: a committed, unclaimed request that was not issued, or an issued poll |
| `RequestRegistries.ClearFrees` | crates/io-uring/src/request.rs:1025-1046 | the free list always has room for a cleared slot, and an exhausted generation is never freed |
| `RequestRegistries.RequestRegistry.constructor` | crates/io-uring/src/request.rs:486-524 | a new registry represents the initial ledger |
| `RequestRegistries.RequestRegistry.TryNew` | crates/io-uring/src/request.rs:486-524 | exactly the valid geometries are accepted, with the error of each refusal |
| `RequestRegistries.RequestRegistry.CreditsAreLive` | crates/io-uring/src/request.rs:1057-1063 | terminal credits are exactly the live requests plus the unread CQEs, within the queue size |
| `RequestRegistries.RequestRegistry.Reserve` | crates/io-uring/src/request.rs:555-615 | succeeds iff the ring is open, a credit, a sequence and a slot are free; then refines the Reserve step; the exact error otherwise, changing nothing |
| `RequestRegistries.RequestRegistry.Withdraw` | crates/io-uring/src/request.rs:1025-1063 | a request that ends without a CQE leaves its slot and gives its credit back |
| `RequestRegistries.RequestRegistry.Rollback` | crates/io-uring/src/request.rs:618-622 | refines Rollback, on a reserved request only |
| `RequestRegistries.RequestRegistry.Commit` | crates/io-uring/src/request.rs:625-638 | refines Commit and returns the request descriptor |
| `RequestRegistries.RequestRegistry.Issue` | crates/io-uring/src/request.rs:641-666 | refines Issue and fixes the cancellation mode; exact errors for every other state |
| `RequestRegistries.RequestRegistry.ClaimTerminal` | crates/io-uring/src/request.rs:678-711 | refines Claim; exact errors, including the uncancellable case |
| `RequestRegistries.RequestRegistry.ClaimCancel` | crates/io-uring/src/request.rs:717-771 | claims the oldest cancellable match or one exact request, and otherwise reports which error |
| `RequestRegistries.RequestRegistry.Oldest` | crates/io-uring/src/request.rs:717-771 | the slot scan finds the matching request with the lowest sequence, or that there is none |
| `RequestRegistries.RequestRegistry.FinishTerminal` | crates/io-uring/src/request.rs:774-790 | refines Finish for the permit that owns the claim, and stores exactly the given result and flags with the request user data |
| `RequestRegistries.RequestRegistry.PublishedCount` | crates/io-uring/src/request.rs:1048-1055 | equals the unread CQEs and never exceeds the ring; the geometry error cannot happen |
| `RequestRegistries.RequestRegistry.Publish` | crates/io-uring/src/request.rs:798-828 | plans the write of exactly the pending CQE, in a slot holding no unread one; queue-full is unreachable |
| `RequestRegistries.RequestRegistry.CommitPublication` | crates/io-uring/src/request.rs:831-851 | accepts exactly the outstanding plan and appends its CQE to the queue |
| `RequestRegistries.RequestRegistry.RollbackPublication` | crates/io-uring/src/request.rs:854-868 | takes exactly the outstanding plan back |
| `RequestRegistries.RequestRegistry.ObserveCompletionHead` | crates/io-uring/src/request.rs:875-886 | accepts exactly the heads that consume a prefix of the unread CQEs and refunds that many credits |
| `RequestRegistries.RequestRegistry.BeginClose` | crates/io-uring/src/request.rs:889-895 | refines the step that stops admission |
| `RequestRegistries.RequestRegistry.BeginDraining` | crates/io-uring/src/request.rs:898-913 | succeeds exactly when the ledger allows it |
| `RequestRegistries.RequestRegistry.DiscardCompletion` | crates/io-uring/src/request.rs:916-923 | ends one pending request while draining |
| `RequestRegistries.RequestRegistry.DiscardPublished` | crates/io-uring/src/request.rs:926-937 | consumes every unread CQE while draining |
| `RequestRegistries.RequestRegistry.FinishClose` | crates/io-uring/src/request.rs:940-954 | closes exactly when nothing is left |
| `RequestRegistries.RequestRegistry.ClearSlot` | crates/io-uring/src/request.rs:1025-1046 | empties a slot, moves it to its next generation and frees it |
| `ReadyQueues.WithoutKeeps` | crates/fd/src/epoll.rs:335-350 | taking one token out keeps all others, in order |
| `ReadyQueues.ReadyQueue.constructor` | crates/fd/src/epoll.rs:294-305 | a new buffer is empty |
| `ReadyQueues.ReadyQueue.Push` | crates/fd/src/epoll.rs:311-319 | appends to the sequence unless the buffer is full |
| `ReadyQueues.ReadyQueue.Pop` | crates/fd/src/epoll.rs:321-329 | removes the oldest token |
| `ReadyQueues.ReadyQueue.Peek` | crates/fd/src/epoll.rs:331-333 | shows the oldest token |
| `ReadyQueues.ReadyQueue.Remove` | crates/fd/src/epoll.rs:335-350 | the in-place compaction across the wrap equals removing the token from the sequence |
| `Wakeups.OwedHolds` | crates/fd/src/epoll.rs:605-760 | every deliverable bit of a notification not consumed by a later delivery is owed |
| `Wakeups.RecheckedHolds` | crates/fd/src/epoll.rs:720-760 | what a recheck found is owed until another delivery is consumed |
| `Wakeups.OwedHasSource` | crates/fd/src/epoll.rs:605-760 | nothing is owed that no event reported |
| `Wakeups.FifoOverRuns` | crates/fd/src/epoll.rs:311-350 | the sequence fact behind first-in-first-out: over any pushes, head removals and deletions an item at position k is still queued, at most k minus the head removals from the head, unless it was removed or taken |
| `EpollCores.EventKeeps` | crates/fd/src/epoll.rs:605-760 | one event about one interest keeps the wakeup account of every interest |
| `EpollCores.QueueHasRoom` | crates/fd/src/epoll.rs:605-632 | a token waiting to be queued finds room, so ready-queue overflow and the rescan request are unreachable |
| `EpollCores.NotifyOk` | crates/fd/src/epoll.rs:605-632 | a notification leaves held readiness equal to owed readiness |
| `EpollCores.BeginOk` | crates/fd/src/epoll.rs:661-697 | snapshotting for copyout loses and invents nothing |
| `EpollCores.FinishOk` | crates/fd/src/epoll.rs:720-760 | a fault restores the snapshot and wakeups racing the copy stay pending, for every outcome and trigger mode |
| `EpollCores.ReplaceKeeps` | crates/fd/src/epoll.rs:538-602 | a modified or removed interest leaves no record behind, and its successor starts with an empty account |
| `EpollCores.EpollCore.constructor` | crates/fd/src/epoll.rs:370-394 | an empty core satisfies the invariant |
| `EpollCores.EpollCore.TryNew` | crates/fd/src/epoll.rs:370-394 | only the unbounded capacity is refused |
| `EpollCores.EpollCore.Add` | crates/fd/src/epoll.rs:492-534 | lowest free slot and fresh generation; exact order of refusals |
| `EpollCores.EpollCore.Modify` | crates/fd/src/epoll.rs:538-592 | replaces one exact generation, returns the old interest and drops its queue record |
| `EpollCores.EpollCore.Remove` | crates/fd/src/epoll.rs:595-602 | deletes exactly the live interest of the token |
| `EpollCores.EpollCore.Notify` | crates/fd/src/epoll.rs:605-632 | records readiness, queues the token once, and says whether it was ignored, queued or merged |
| `EpollCores.EpollCore.PrepareDelivery` | crates/fd/src/epoll.rs:640-654 | the candidate is the queue head, live and ready: stale records never occur |
| `EpollCores.EpollCore.CommitDelivery` | crates/fd/src/epoll.rs:661-697 | takes exactly the head and snapshots its readiness under a new serial |
| `EpollCores.EpollCore.FinishDelivery` | crates/fd/src/epoll.rs:720-760 | applies the outcome only to the delivery in flight, and logs whether it was consumed and copied and, for a level-triggered copy, what is still ready |
| `EpollCores.EpollCore.NoLostWakeup` | crates/fd/src/epoll.rs:605-760 | in every reachable state, a bit notified to an armed interest that asks for it (or an error, hangup or invalid descriptor), not consumed since, is in its ready set, its racing set or its snapshot in flight |
| `EpollCores.EpollCore.ArmedIsEnabled` | crates/fd/src/epoll.rs:720-760 | an interest is enabled iff it is not one-shot or no delivery of its generation was copied out: any other interest is enabled for ever |
| `EpollCores.EpollCore.StillReadyIsHeld` | crates/fd/src/epoll.rs:720-760 | what the check after a level-triggered copyout found ready stays held until another delivery is consumed |
| `EpollCores.EpollCore.HeldMeansQueuedOnce` | crates/fd/src/epoll.rs:605-760 | outside a delivery, an armed interest holds readiness iff its token is queued, and no token is queued twice |
| `EpollCores.EpollCore.DeliveryIsFifo` | crates/fd/src/epoll.rs:311-350 | since any earlier moment, every delivery begun has brought a queued token one place nearer the head, unless it was taken or its interest deleted |
| `EpollCores.EpollCore.HeldWasReported` | crates/fd/src/epoll.rs:605-760 | no invented wakeup: what an armed interest holds was asked for, and was notified to its own generation or found by a recheck |
| `IdMaps.SortApart` | crates/cred/src/idmap.rs:392-403 | sorting changes nothing about which rows overlap |
| `IdMaps.NeighboursSuffice` | crates/cred/src/idmap.rs:392-403 | sorted rows are pairwise disjoint iff neighbours are |
| `IdMaps.FindExtent` | crates/cred/src/idmap.rs:405-423 | binary search finds what a scan of all rows finds |
| `IdMaps.MapIdToKernel` | crates/cred/src/idmap.rs:298-306 | equals the partial injection the rows stand for |
| `IdMaps.MapIdFromKernel` | crates/cred/src/idmap.rs:308-316 | equals the inverse injection |
| `IdMaps.TranslateMeans` | crates/cred/src/idmap.rs:298-316 | a lookup succeeds iff some row covers the ID, and gives the offset into that row |
| `IdMaps.LookupsAreInverse` | crates/cred/src/idmap.rs:298-316 | the two lookups are mutually inverse and never yield the all-ones ID |
| `IdMaps.TargetMeansInsideOneRow` | crates/cred/src/idmap.rs:318-330 | a range resolves iff it lies inside one row |
| `IdMaps.MapRangeToKernel` | crates/cred/src/idmap.rs:318-330 | resolves exactly the valid ranges inside one row |
| `IdMaps.CheckApart` | crates/cred/src/idmap.rs:392-403 | accepts exactly the disjoint row lists |
| `IdMaps.ValidateInput` | crates/cred/src/idmap.rs:342-375 | accepts exactly the well-formed inputs |
| `IdMaps.WellFormedMeans` | crates/cred/src/idmap.rs:342-403 | well formed means: 1 to 340 rows, none empty or past the last valid ID, and no ID named twice on either side |
| `IdMaps.TryFromKernelExtents` | crates/cred/src/idmap.rs:210-235 | succeeds iff the rows are well formed, with both indexes sorted and holding the same rows |
| `IdMaps.TryIdentity` | crates/cred/src/idmap.rs:143-154 | the initial map sends every valid ID to itself |
| `IdMaps.ResolvedWellFormed` | crates/cred/src/idmap.rs:185-208 | re-validating rows resolved through the parent never fails |
| `IdMaps.BuiltComposes` | crates/cred/src/idmap.rs:185-235 | the built index computes child after parent for every ID |
| `IdMaps.TryFromParent` | crates/cred/src/idmap.rs:185-208 | invalid input iff the rows are malformed, not permitted iff a well-formed row leaves its parent extent, otherwise the composed map |
| `IdMaps.ExtentsForLower` | crates/cred/src/idmap.rs:281-296 | each row with its lower start translated for the reader |
| `IdMaps.ShowsInputSorted` | crates/cred/src/idmap.rs:281-296 | round trip: a child map shown to its parent gives back the input rows sorted by `first` |
| `Credentials.Validate` | crates/cred/src/credential.rs:346-366 | accepts exactly: known securebits and capabilities only, effective within permitted, ambient within permitted and inheritable; the first error in word order |
| `Credentials.SetterRules` | crates/cred/src/credential.rs:264-344 | what raising and lowering ambient, dropping bounding, setting securebits and KEEP_CAPS demand and change |
| `Credentials.TryFromTransition` | crates/cred/src/credential.rs:651-690 | succeeds iff the sets are valid and the replacement is lawful |
| `Credentials.LocksNeedSets` | crates/cred/src/credential.rs:651-690 | the two bit tests on securebits are equivalent to: locks stay set and locked values stay, except KEEP_CAPS cleared by exec |
| `Credentials.NsCapable` | crates/cred/src/credential.rs:796-826 | on a namespace tree whose levels fall toward the root the walk decides exactly who has authority |
| `Credentials.AuthorityGoesDown` | crates/cred/src/credential.rs:796-826 | authority over a namespace is authority over everything below it |
| `Credentials.CapIsSubset` | crates/cred/src/credential.rs:756-785 | within one namespace set inclusion; across namespaces ownership of the child on the path |
| `Credentials.FileRootOwnsNamespace` | crates/cred/src/exec.rs:401-423 | the walk answers whether the root ID belongs to the namespace or a strict ancestor |
| `Exec.DeriveExecCredential` | crates/cred/src/exec.rs:449-638 | fails exactly when refused, otherwise yields the specified credential and sensitivity |
| `Exec.MatchesManualPage` | crates/cred/src/exec.rs:491-582 | every new capability set written out from the file and the old sets: the formulas of capabilities(7) with the root rule, its exception and the records that count, cut to the old permitted set under no_new_privs or a suppressing tracer |
| `Exec.ExecIdentity` | crates/cred/src/exec.rs:449-638 | every ID of the result, taken from the file or given up; groups, namespace and no_new_privs stay; the sensitivity; and exactly when exec is refused |
| `Exec.NosuidIgnoresTheFile` | crates/cred/src/exec.rs:470-495 | on a mount that does not honour file privilege, exec is as without owner and record |
| `Exec.NewCapsLawful` | crates/cred/src/exec.rs:537-582 | every derived set is valid and lawful to install |
| `Exec.UnsafeExecGainsNothing` | crates/cred/src/exec.rs:537-582 | under no_new_privs or a suppressing tracer the permitted set does not grow |
| `Exec.GainsExactlyWhen` | crates/cred/src/exec.rs:537-582 | the permitted set stays within the old one iff exec is suppressed or the grant was already permitted |
| `Exec.DerivedIsAuthorized` | crates/cred/src/exec.rs:622-678 | every derived credential is valid and passes the authorization test |
| `Exec.TracingOnlyNarrows` | crates/cred/src/exec.rs:449-638 | two derivations that differ only in tracing: equal when insensitive, otherwise the traced one is a subset |
| `Exec.FreshProposalGrantsNoMore` | crates/cred/src/exec.rs:336-340 | a proposal that is not stale grants no more than deriving again at commit would |
| `Exec.StaleOnlyByNewTracer` | crates/cred/src/exec.rs:336-340 | a proposal goes stale exactly by a suppressing tracer that came after a sensitive derivation without one |
| `Transitions.FixupUidCapabilities` | crates/cred/src/transition.rs:738-784 | applying the rules one after another equals the closed form |
| `Transitions.UidsDriveCaps` | crates/cred/src/transition.rs:738-784 | from the IDs before and after: giving up the last root ID clears ambient and, without KEEP_CAPS, permitted and effective; effective follows the effective ID out of root and into it; all else stays |
| `Transitions.PlanUserIdTransition` | crates/cred/src/transition.rs:455-549 | the planner that assigns one ID after another equals one setresuid, whichever call it was; it refuses iff an unprivileged caller asks for an ID it does not hold, setfsuid never; group IDs stay |
| `Transitions.PlanGroupIdTransition` | crates/cred/src/transition.rs:558-637 | the same for group IDs; user IDs and capability sets stay |
| `Transitions.SetIdMeans` | crates/cred/src/transition.rs:455-637 | for each call, when it is refused and every ID it leaves behind |
| `Transitions.CapsetMeans` | crates/cred/src/transition.rs:669-718 | accepted iff nothing new is permitted and each new inheritable bit is bounded and, without CAP_SETPCAP, permitted; every resulting set |
| `Transitions.FixupFsuidCapabilities` | crates/cred/src/transition.rs:786-830 | the bit-by-bit loop equals the set definition |
| `Transitions.FsuidDrivesCaps` | crates/cred/src/transition.rs:786-830 | from the filesystem IDs before and after: exactly eight capabilities leave or rejoin the effective set |
| `Transitions.PlansAreValid` | crates/cred/src/transition.rs:455-718 | planned changes of user IDs, group IDs and capability sets have valid sets |
| `Transitions.UserPlanShrinks` | crates/cred/src/transition.rs:738-784 | a set*uid plan never adds permitted bits and leaves bounding and securebits alone |
| `Transitions.UnprivilegedUidsStay` | crates/cred/src/transition.rs:455-549 | without privilege the user IDs only move among the ones already held |
| `Transitions.UnprivilegedGidsStay` | crates/cred/src/transition.rs:558-637 | without privilege the group IDs only move among the ones already held |
| `Transitions.ChangeIsLawful` | crates/cred/src/transition.rs:455-718 | every accepted change is valid, lawful to install and monotone; none but exec can add a permitted bit |
| `Transitions.MonotoneOverRuns` | crates/cred/src/transition.rs:455-718 | over any run: no_new_privs and locks stay, bounding never grows, locked values stay except KEEP_CAPS cleared by exec, and under no_new_privs permitted never grows |
| `Transitions.GrowsIffGains` | crates/cred/src/transition.rs:455-718 | one change grows the permitted set iff it is an unsuppressed exec granting something not yet permitted |
| `Transitions.PermittedShrinksOverRuns` | crates/cred/src/transition.rs:455-718 | over a run without such an exec the permitted set never grows |
| `Transitions.RootExecGains` | crates/cred/src/exec.rs:491-582 | a concrete exec by root that grows the permitted set when no_new_privs is not set |
| `LeaseTables.PassMissesNothing` | crates/io-uring/src/resource.rs:456-475 | after the single pass, the table is empty iff no lease and no offered slot is outstanding |
| `LeaseTables.VacatedReturnsAll` | crates/io-uring/src/resource.rs:535-547 | an empty table has handed every installed owner back |
| `LeaseTables.RetireAccounted` | crates/io-uring/src/resource.rs:438-450 | an owner leaves under its own token, once |
| `LeaseTables.LeaseTable.constructor` | crates/io-uring/src/resource.rs:267-300 | an empty table satisfies the invariant |
| `LeaseTables.LeaseTable.TryNew` | crates/io-uring/src/resource.rs:267-300 | exactly the bounded sizes are accepted, for files and for buffers |
| `LeaseTables.LeaseTable.Install` | crates/io-uring/src/buffer.rs:345-392 | takes ownership iff building, in range, vacant and addressable; exact error otherwise |
| `LeaseTables.LeaseTable.Publish` | crates/io-uring/src/resource.rs:348-356 | makes a building table visible; refused once retiring |
| `LeaseTables.LeaseTable.TokenOf` | crates/io-uring/src/resource.rs:359-378 | the token of a visible owner, exact error otherwise |
| `LeaseTables.LeaseTable.AcquireToken` | crates/io-uring/src/buffer.rs:440-486 | leases the current owner iff published, current, within capacity and inside the registered range; the account grows by one |
| `LeaseTables.LeaseTable.Acquire` | crates/io-uring/src/resource.rs:381-384 | leases by slot number iff published, installed, within capacity and range: exactly the owner in that slot; exact error otherwise |
| `LeaseTables.LeaseTable.BeginRetire` | crates/io-uring/src/resource.rs:422-432 | stops lookups and restarts the pass, once |
| `LeaseTables.LeaseTable.Retire` | crates/io-uring/src/resource.rs:438-450 | hands an unleased owner back for the first time; busy iff leased |
| `LeaseTables.LeaseTable.NextRetirable` | crates/io-uring/src/resource.rs:456-475 | moves the cursor forward to the next unleased owner, or to the end |
| `LeaseTables.LeaseTable.ReleaseLease` | crates/io-uring/src/resource.rs:478-532 | a lease always returns to its own table and is unknown to any other; the last one of a retiring slot brings the owner out |
| `LeaseTables.LeaseTable.LeasedSlotIsPinned` | crates/io-uring/src/resource.rs:387-532 | a slot with a lease keeps the leased owner and generation, and the lease lies inside the registered range |
| `LeaseTables.LeaseTable.LeasedByteIsRegistered` | crates/io-uring/src/buffer.rs:440-486 | every byte of a lease lies in the range registered in its slot |
| `LeaseTables.LeaseTable.Progress` | crates/io-uring/src/resource.rs:550-564 | counts the owners in place; empty iff none |
| `LeaseTables.LeaseTable.FinishRetire` | crates/io-uring/src/resource.rs:535-547 | completes iff every owner is out; after the pass, iff no lease and no offer remains; then each installed owner was handed back exactly once |
| `FdTables.TokenIsExact` | crates/fd/src/table.rs:613-622 | a slot answers to a token iff the token was issued and not closed, and then holds the description published under it |
| `FdTables.ReservingKeeps` | crates/fd/src/table.rs:405-421 | generations stay distinct and below the next one |
| `FdTables.FillingKeeps` | crates/fd/src/table.rs:449-525 | filling a reserved slot issues a token never issued before |
| `FdTables.EmptyingKeeps` | crates/fd/src/table.rs:625-637 | emptying a slot retires its token |
| `FdTables.ReplacingKeeps` | crates/fd/src/table.rs:705-717 | a replacement is an emptying, a reservation and a filling under a token never issued before |
| `FdTables.TokenMeansOneThing` | crates/fd/src/table.rs:405-646 | over any run of table moves a token means the description first published under it, and once closed it never resolves again |
| `FdTables.FdTable.TokenSurvivesCalls` | crates/fd/src/table.rs:405-884 | every table call extends the recorded run, so whatever calls came since, duplication and batch close included, a token means what it meant and a closed one stays closed |
| `FdTables.PickedAscending` | crates/fd/src/table.rs:849-884 | a batch lists exactly the selected visible descriptors, each once, ascending |
| `FdTables.FdTable.constructor` | crates/fd/src/table.rs:324-349 | an empty table satisfies the invariant |
| `FdTables.FdTable.TryNew` | crates/fd/src/table.rs:324-349 | refused iff the capacity exceeds the descriptor numbers |
| `FdTables.FdTable.Reserve` | crates/fd/src/table.rs:405-421 | the lowest vacant number of the range; full iff there is none; nothing becomes visible |
| `FdTables.FdTable.CancelReservation` | crates/fd/src/table.rs:424-446 | frees exactly the reserved slot of the token |
| `FdTables.FdTable.Publish` | crates/fd/src/table.rs:449-477 | makes the reserved slot visible under the reservation generation |
| `FdTables.FdTable.PreparePublication` | crates/fd/src/table.rs:486-525 | fills the slot and shows nothing |
| `FdTables.FdTable.CancelPrepared` | crates/fd/src/table.rs:533-579 | withdraws exactly the pending publication and returns its entry |
| `FdTables.CommitPrepared` | crates/fd/src/table.rs:104-114 | without the table, makes exactly the prepared descriptor visible, under the description recorded for its token |
| `FdTables.DropPrepared` | crates/fd/src/table.rs:118-126 | a publication dropped uncommitted shows nothing |
| `FdTables.FdTable.Get` | crates/fd/src/table.rs:582-587 | what lookups see |
| `FdTables.FdTable.TokenFor` | crates/fd/src/table.rs:598-609 | a token that resolves, for a visible descriptor |
| `FdTables.FdTable.GetToken` | crates/fd/src/table.rs:613-622 | succeeds iff the token was issued here, is not closed and is visible; then gives its own description |
| `FdTables.FdTable.Close` | crates/fd/src/table.rs:625-637 | removes exactly a visible descriptor |
| `FdTables.FdTable.CloseToken` | crates/fd/src/table.rs:640-646 | closes the descriptor the token was issued for, never a later one |
| `FdTables.FdTable.Duplicate` | crates/fd/src/table.rs:672-683 | the same description at the lowest vacant number under a fresh token, as a reservation and a publication of the book; exact errors, and nothing else changes |
| `FdTables.FdTable.DuplicateReplace` | crates/fd/src/table.rs:689-727 | swaps a visible or vacant target for a new generation and returns what was there; every other slot and token stays; busy iff the target is unpublished |
| `FdTables.FdTable.ForkCopy` | crates/fd/src/table.rs:731-743 | the child sees exactly what the parent sees and inherits nothing unpublished |
| `FdTables.FdTable.CountMatching` | crates/fd/src/table.rs:849-861 | counts the selected visible descriptors |
| `FdTables.FdTable.Sweep` | crates/fd/src/table.rs:872-884 | empties exactly the selected slots and appends their entries in ascending order |
| `FdTables.FdTable.DetachMatching` | crates/fd/src/table.rs:863-884 | all selected descriptors or nothing, decided by the room in the batch |
| `FdTables.FdTable.CloseRange` | crates/fd/src/table.rs:887-897 | closes exactly the visible descriptors of the range into the batch iff the range is not reversed and they fit; otherwise changes nothing |
| `FdTables.FdTable.CommitCloseOnExec` | crates/fd/src/table.rs:829-847 | closes exactly the visible descriptors flagged close-on-exec, lowest first, and never outgrows a batch of table size |
| `WatchAccounts.CreditsUpdate` | crates/fd/src/subscription.rs:55-104 | one task changing changes the total by its own difference |
| `WatchAccounts.SourcesKept` | crates/fd/src/subscription.rs:186-336 | every step, destructors included, keeps each armed source held once or cancelled once |
| `WatchAccounts.OthersMoveNothing` | crates/fd/src/subscription.rs:241-316 | taking a field, clearing it, refunding and dropping an emptied owner change no source |
| `WatchAccounts.HuskIsEmpty` | crates/fd/src/subscription.rs:241-316 | the destructor that runs after `commit` or `cancel` finds neither registrations nor a charge |
| `WatchAccounts.StepInv` | crates/fd/src/subscription.rs:7-104 | every atomic step keeps the counter exact and within the limit, and a subtraction never underflows |
| `WatchAccounts.CounterIsExact` | crates/fd/src/subscription.rs:7-104 | under every interleaving the counter is the charges held plus the refunds not yet subtracted, at most the limit |
| `WatchAccounts.CommitSucceeds` | crates/fd/src/subscription.rs:241-257 | no run reaches a failing branch of `commit` |
| `WatchAccounts.EverythingReturned` | crates/fd/src/subscription.rs:186-336 | when all tasks are done, on whichever path of commit, cancel, drop or failed allocation, all credits are back and each armed source was cancelled exactly once |
| `WatchAccounts.HeldIsUncancelled` | crates/fd/src/subscription.rs:186-336 | a source that a task or a destructor still to run would cancel has not been cancelled, and is there once |
| `WatchAccounts.SeenWasReal` | crates/fd/src/subscription.rs:7-23 | the value the exchange compares against was the counter at some moment since the attempt began |
| `WatchAccounts.RefusalIsJustified` | crates/fd/src/subscription.rs:55-65 | a charge is refused only if at some moment of the attempt it would have passed the limit |

## Left out

- Allocation failure, reference counts and memory ordering: allocation succeeds and atomics are sequentially consistent.
- `RequestRegistry::progress` and the progress snapshots of the tables other than the owner count: counters over fields already specified.
- `EpollCore::rescan_ready` and its recovery state: reached only after a ready-queue overflow, which `EpollCores.QueueHasRoom` excludes.
- `EpollCore::begin_delivery`: the composition of `PrepareDelivery` and `CommitDelivery`.
- `RegisteredFileTable::slot`, `slot_mut` and the accessor methods of tokens and leases: field reads.
- `FdTable::set_close_on_exec`, `mark_close_on_exec_range`, `iter`, `len`, `close_on_exec` and `close_all`: flag updates, and further selectors of the same batch close.
- `Subscription::update_all` and the first-error report of `cancel`: the wakers belong to the embedding kernel; that cancelling goes on after an error is part of the model.
- `DeriveExecCredential`: does not model the process effects returned beside the credential (auxiliary identity, dumpability, parent-death signal, personality), because they are flat conjunctions of facts computed here.
- Entry into a user namespace: `Transitions.MonotoneOverRuns` speaks of runs within one namespace.
- Supplementary groups as a sorted array: they are a set here, since only membership is asked.
- `crates/io-uring/src/setup.rs`, `enter.rs`, `registration.rs` and `sqe.rs`: header decoding and rounding, which would add easy members only.
- `crates/cred/src/socket_security.rs`, `mmap_security.rs`, `security.rs`, `content_write.rs`, `key_security.rs`, `namespace.rs` and `file_capability.rs`: field holders, single-branch rules and a fixed-size parser.
- The crates `mm`, `packet`, `process`, `rseq`, `seccomp`, `signal`, `usercopy` and `vfs`: components of their own, not part of this model.
