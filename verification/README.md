# vthread: verified models of the runtime's hard parts

This project models the coordination core of the vthread runtime in Dafny and proves what
its documentation and tests promise of it. Five areas are covered.

1. **Inherited cancellation.** Live tokens form a DAG; dropped tokens are spliced away or kept
   as anonymous relays, and relays with the same flag and the same live ancestry are merged
   through a fingerprint index over persistent Patricia tries. `CancellationGraph.Graph` is the
   graph updated in place. Its ghost `history` is the uncompressed reference of
   `CancellationHistory`: every token ever made, all descendants marked on cancel. Each public
   operation is proved to move the history by the obvious step and to keep agreement with it.
   The layers below it are `Bits` and `Signature` (canonical tries), `CancellationTopology`
   (what each rewrite does to ancestry), `CancellationCompaction` (signatures that still name
   the removed token, and the worklist that accounts for everything not normal yet),
   `CancellationSteps` (one compaction step against all of the accounting) and
   `CancellationOperations` (insert, remove, cancel). `CancellationDomain` adds handles with
   packed flag words and batched retirement; `Epochs` the wrapping counter of cancels and
   `Checkpoint` the epoch-gated check of a task against it.
2. **The carrier kernel.** `ReadyQueue` (two lanes with cohorts), `KernelState` and `KernelSpec`
   (values and what the operations do to them), `KernelPhases` (the kernel as a value, and one
   abort), `KernelRetry` (a pass over all deferred aborts), `KernelTicks` (one drive iteration,
   phase by phase), `KernelAborts`, `KernelWakes` and `KernelOutcomes` (what these mean for
   single tasks, waits and start packets), `Kernel` (the kernel updated in place: selection, parking, waking,
   completion, scope abort and its retry, receiving starts, and what other threads do to it),
   `CarrierTurns` (a turn of the drive loop as a relation), `Carrier` (the drive loop from
   construction to shutdown, proved to follow that relation), `CarrierRuns` (what whole runs
   guarantee), `ParkedTasks` (dense slots acting as the map of park records the kernel works
   on), `Admission` (when remote starts are taken).
3. **Wake protocols** as atomic steps of any number of producers and one owner, under
   sequentially consistent interleaving, with their sleep protocols: `WakeMailbox`,
   `WakeInbox`, `Signal` (with the start inbox) and `Completion`.
4. **Linear ownership** of exclusive cells through guards, capabilities and slots: `Exclusive`.
5. **Admission accounting** across the control lock, lock-free retirement and unlocked reads:
   `Control` and, for what callers rely on, `ControlRuns`; least-loaded placement: `Placement`.

Code that updates objects in place is modelled by classes (`Graph`, `Iter`, `Domain`,
`ReadyQueue`, `ParkedTasks`, `Kernel`, `CarrierLoads`), each method proved against a value-level
specification; racing code is modelled by a state, its atomic events, an inductive invariant,
and theorems about every finite run from the initial state. A fiber's step, a wait's answer about
publication, the tokens whose publication is in flight, a stack allocation and the arrival of
notices are arbitrary inputs. An iteration and a turn are then determined by the kernel's value and
these inputs, up to which unused slab slots new tasks take and the order of deferred notices. The
kernel's ghost logs `attempts`, `dispatched` and `admitted` are written where the code tries an
abort, mounts a task and accepts a start.

`dafny verify dfyconfig.toml` checks everything.

## Model

| member | source | states |
|---|---|---|
| `Signature.FirstDifference` | crates/vthread/src/cancellation_signature.rs:175-175 | the branching bit of two distinct identities is the highest one on which their reversed-bit routes differ |
| `Signature.Canonical` | crates/vthread/src/cancellation_signature.rs:187-264 | two valid tries over the same set of identities are the same tree, so shape and cached fingerprint depend on the set alone |
| `Signature.SignatureIsCanonical` | crates/vthread/src/cancellation_signature.rs:71-89 | signatures denote the same set iff they are equal, and then carry the same fingerprint |
| `Signature.LenIsCardinality` | crates/vthread/src/cancellation_signature.rs:63-69 | the cached length is the number of identities below a node |
| `Signature.SameNode` | crates/vthread/src/cancellation_signature_compare.rs:18-46 | structural comparison is true iff the two node sets are equal, also when fingerprints of different sets collide |
| `Signature.SameSet` | crates/vthread/src/cancellation_signature.rs:124-157 | `same_set` is true iff the sets are equal, whether or not the tries are shared |
| `Signature.FindLeaf` | crates/vthread/src/cancellation_signature.rs:213-227 | the descent ends at the leaf the route selects |
| `Signature.InsertAt` | crates/vthread/src/cancellation_signature.rs:229-264 | splitting at the first differing bit keeps the trie valid and adds exactly the new identity |
| `Signature.Insert` | crates/vthread/src/cancellation_signature.rs:159-180 | insertion denotes set insertion |
| `Signature.Iter.constructor` | crates/vthread/src/cancellation_signature_iter.rs:10-25 | a fresh iterator has every identity left to yield |
| `Signature.Iter.Next` | crates/vthread/src/cancellation_signature_iter.rs:31-45 | one call takes the next identity of the explicit-stack walk off the remaining list, and nothing comes only when none remains |
| `Signature.ItemsAreElements` | crates/vthread/src/cancellation_signature_iter.rs:10-45 | the list a fresh iterator walks holds exactly the signature's identities, each once |
| `Signature.Union` | crates/vthread/src/cancellation_signature.rs:102-122 | union denotes exact set union, for every shortcut the code takes |
| `CancellationTopology.EraseNearest` | crates/vthread/src/cancellation_graph_rewrite.rs:6-69 | erasing and splicing an entry replaces it, in every live-ancestor set, by the tokens above it |
| `CancellationTopology.DemoteNearest` | crates/vthread/src/cancellation_graph.rs:171-179 | turning a token into a relay does the same substitution |
| `CancellationTopology.MergeNearest` | crates/vthread/src/cancellation_graph_rewrite.rs:71-110 | merging relays with equal live ancestry changes no entry's live-ancestor set |
| `CancellationTopology.SubstitutedSameReach` | crates/vthread/src/cancellation_graph.rs:116-188 | if live-ancestor sets only had one token replaced by the tokens above it, reachability among the others is unchanged |
| `CancellationCompaction.EnqueueAll` | crates/vthread/src/cancellation_graph_normalize.rs:206-215 | work is added without ever weakening a dirty visit to a known one |
| `CancellationCompaction.EqualStoredEqualNearest` | crates/vthread/src/cancellation_graph_normalize.rs:142-190 | equal stored signatures mean equal true live ancestry, although both may still name the removed token |
| `CancellationCompaction.RecomputedIsExact` | crates/vthread/src/cancellation_graph_normalize.rs:77-98 | recomputing the smallest pending relay from its parents gives its true live-ancestor set |
| `CancellationCompaction.NothingPendingIsNormal` | crates/vthread/src/cancellation_graph_normalize.rs:46-74 | with no work left, every signature is exact, no relay is thin and no two relays are duplicates |
| `CancellationSteps.EraseStep` | crates/vthread/src/cancellation_graph_normalize.rs:53-59 | erasing a thin relay keeps links, flags, index, approximate signatures and work coverage, and every token's flag and ancestry |
| `CancellationSteps.MergeStep` | crates/vthread/src/cancellation_graph_normalize.rs:67-73 | merging duplicates keeps links, flags, index, approximate signatures and work coverage, and every token's flag and ancestry |
| `CancellationSteps.RefreshStep` | crates/vthread/src/cancellation_graph_normalize.rs:77-98 | storing a recomputed signature keeps the same accounting and every token, and strictly fewer signatures name the removed token |
| `CancellationOperations.ErasedAgrees` | crates/vthread/src/cancellation_graph.rs:184-187 | after a token is spliced away the others still have the history's ancestry and flags |
| `CancellationOperations.DemotedAgrees` | crates/vthread/src/cancellation_graph.rs:171-183 | after a token became a relay the others still have the history's ancestry and flags |
| `CancellationOperations.GrownAgrees` | crates/vthread/src/cancellation_graph.rs:75-107 | after an insertion all tokens have the ancestry and flags of the history with the new token |
| `CancellationOperations.SpreadAgrees` | crates/vthread/src/cancellation_graph.rs:190-215 | after flags were raised below a token, all tokens have the flags of the history with all its descendants marked |
| `CancellationGraph.Graph.IndexRelay` | crates/vthread/src/cancellation_graph_normalize.rs:118-125 | the relay joins the bucket of its fingerprint |
| `CancellationGraph.Graph.UnindexRelay` | crates/vthread/src/cancellation_graph_normalize.rs:127-140 | the relay is found in its bucket, leaves it, and an emptied bucket disappears |
| `CancellationGraph.Graph.Erase` | crates/vthread/src/cancellation_graph_rewrite.rs:6-49 | the in-place removal computes the erased graph, its index, its relay count and its follow-up work |
| `CancellationGraph.Graph.Splice` | crates/vthread/src/cancellation_graph_rewrite.rs:51-69 | the nested loops link every parent to every child, in both directions |
| `CancellationGraph.Graph.MergeRelays` | crates/vthread/src/cancellation_graph_rewrite.rs:71-110 | the in-place merge hands all children to the older relay and reports the affected neighbours |
| `CancellationGraph.Graph.SignatureFor` | crates/vthread/src/cancellation_graph_normalize.rs:100-116 | the folded signature denotes the union of the parents' signatures |
| `CancellationGraph.Graph.EquivalentRelay` | crates/vthread/src/cancellation_graph_normalize.rs:142-190 | the indexed search finds a relay with the same flag and set if and only if one exists |
| `CancellationGraph.Graph.RefreshSignature` | crates/vthread/src/cancellation_graph_normalize.rs:77-98 | the invariant survives a refresh, which either changes nothing or removes a stale name |
| `CancellationGraph.Graph.Visit` | crates/vthread/src/cancellation_graph_normalize.rs:46-74 | each visit keeps the invariant and all tokens, and lowers relay count, then stale signatures, then pending work |
| `CancellationGraph.Graph.Normalize` | crates/vthread/src/cancellation_graph_normalize.rs:38-75 | compaction terminates in the normal form without changing any token's flag or ancestry |
| `CancellationGraph.Graph.constructor` | crates/vthread/src/cancellation_graph.rs:55-63 | an empty graph agrees with an empty history |
| `CancellationGraph.Graph.Insert` | crates/vthread/src/cancellation_graph.rs:66-107 | insertion is the history's insertion, returns the inherited flag, and keeps the invariant |
| `CancellationGraph.Graph.Remove` | crates/vthread/src/cancellation_graph.rs:116-188 | removal forgets exactly one token; history, ancestry and flags of the rest and the normal form are kept |
| `CancellationGraph.Graph.Demote` | crates/vthread/src/cancellation_graph.rs:171-183 | the branch that keeps the dropped token as a relay forgets exactly that token and restores the normal form and agreement with the history |
| `CancellationGraph.Graph.EraseToken` | crates/vthread/src/cancellation_graph.rs:184-187 | the branch that splices the token away forgets exactly that token and restores the normal form and agreement with the history |
| `CancellationGraph.Graph.VisitBelow` | crates/vthread/src/cancellation_graph.rs:191-213 | the worklist marks only what the token reaches, leaves no unmarked child of a marked entry, and reports each live newly marked handle once |
| `CancellationGraph.Graph.CancelNodes` | crates/vthread/src/cancellation_graph.rs:190-215 | cancelling is the history's cancellation; the returned handles are exactly the live tokens it newly reaches |
| `CancellationGraph.InvariantMeans` | crates/vthread/src/cancellation_graph.rs:75-215 | between operations: live tokens reach each other iff ancestors in the history, flags equal the history's, relays have at least two parents and children and exact signatures, no two share flag and ancestry, and the index lists exactly the relays |
| `CancellationGraph.NoTokensNoNodes` | crates/vthread/src/cancellation_graph.rs:116-188 | a graph without live tokens has no entries, no relays and an empty index |
| `CancellationHistory.InheritanceKept` | crates/vthread/src/cancellation_graph.rs:66-107 | in the reference, creation and cancellation never leave a token uncancelled under a cancelled parent, and cancelling touches no older token |
| `CancellationHistory.AncestryChains` | crates/vthread/src/cancellation_graph.rs:190-215 | being an ancestor is transitive |
| `CancellationDomain.Domain.constructor` | crates/vthread/src/cancellation.rs:120-130 | a domain starts at epoch one with an empty history |
| `CancellationDomain.Domain.Insert` | crates/vthread/src/cancellation.rs:132-156 | a child handle is born cancelled iff a parent is, and carries its identity |
| `CancellationDomain.Domain.Cancel` | crates/vthread/src/cancellation.rs:159-174 | every live handle's flag equals the history's afterwards, the selected handles are exactly those that changed, and the epoch advances |
| `CancellationDomain.Domain.Retire` | crates/vthread/src/cancellation.rs:82-98 | dropping a handle, in batches of 64, changes nothing the remaining handles can observe |
| `Checkpoint.InvariantKept` | crates/vthread/src/task_context.rs:187-225 | every step of cancels, insertions, masking, closing, checks and context reuse keeps the announcement invariant, with the epoch wrapping at 64 bits |
| `Checkpoint.GatedCheckRefinesFlag` | crates/vthread/src/task_context.rs:202-225 | in every reachable state a check reported Cancelled only for a raised flag, answered RuntimeStopped exactly when closing and Continue when masked, otherwise asked for the deadline exactly if there is one, and an open check begun after a covering cancel returned reported it, except exactly when it was unreported and the cancels since the context last looked are a positive multiple of 2^64 |
| `Checkpoint.VerdictIsAboutTheStart` | crates/vthread/src/task_context.rs:202-225 | what a verdict records is the masking, closing, announced cancel and epochs at the start of its own check |
| `Checkpoint.AnnounceKeeps` | crates/vthread/src/cancellation.rs:159-174 | raising flags before advancing the epoch makes an observed epoch imply a visible flag |
| `Checkpoint.NothingMissedWithinALap` | crates/vthread/src/task_context.rs:202-225 | with fewer than 2^64 cancels since the context last looked, an open due check never misses |
| `Checkpoint.WrappedEpochHidesCancel` | crates/vthread/src/task_context.rs:214-224 | the exception is reachable: after 2^64 - 1 cancels of its token the first check of a fresh context sees epoch zero and continues |
| `Epochs.ShownAlike` | crates/vthread/src/cancellation.rs:163-163 | two totals of cancels show the same 64-bit epoch iff they are whole laps apart |
| `ReadyQueue.ReadyQueue.PopFront` | crates/vthread/src/ready_queue.rs:47-65 | the in-place selection is the cohort policy `Popped` |
| `ReadyQueue.NormalEntryIsServed` | crates/vthread/src/ready_queue.rs:1-9 | in any run, a normal entry with N older ones is selected within 4N plus the cohort's remaining delay |
| `ReadyQueue.WakeEntryIsServed` | crates/vthread/src/ready_queue.rs:1-9 | the same for a wake with N older wakes, although newer wakes are served from the other end |
| `ReadyQueue.EveryEntryIsServed` | crates/vthread/src/ready_queue.rs:1-9 | the documented bound of four selections per rank, from every cohort position and for arbitrary interleaved pushes |
| `ReadyQueue.FourSelectionsAreNeeded` | crates/vthread/src/ready_queue.rs:1-9 | three selections can miss either lane's head, so four is exact |
| `ReadyQueue.CohortOrder` | crates/vthread/src/ready_queue.rs:47-65 | a cohort serves the two newest wakes, newest first, then the normal head, then the oldest wake |
| `ReadyQueue.FreshWakeIsNext` | crates/vthread/src/ready_queue.rs:47-65 | once a selection found the wake lane empty or ended a cohort, the next wake pushed is served at once |
| `ReadyQueue.ReadyQueue.PopMatching` | crates/vthread/src/ready_queue_inspection.rs:43-72 | same task and cohort position as `PopFront` on the eligible sub-queue, skipped entries in place, and no change when nothing is eligible |
| `ReadyQueue.ReadyQueue.RemoveMatching` | crates/vthread/src/ready_queue_inspection.rs:20-39 | one yield takes the next match and preserves what the finished inspection will leave |
| `ReadyQueue.ReadyQueue.RemoveAll` | crates/vthread/src/ready_queue_inspection.rs:11-39 | a full inspection yields each match once and leaves both lanes as order-preserving filters |
| `ReadyQueue.ReadyQueue.Remove` | crates/vthread/src/ready_queue_inspection.rs:74-82 | removes one occurrence iff there is one, normal lane first |
| `ReadyQueue.YieldIsTaken` | crates/vthread/src/ready_queue_inspection.rs:20-39 | rotation loses no entry: one yield takes exactly the yielded task out of the queue |
| `ParkedTasks.ParkedTasks.Insert` | crates/vthread/src/parked_tasks.rs:30-43 | the growing slot vectors act as map insertion and refuse an occupied slot; the length stays the number of records |
| `ParkedTasks.ParkedTasks.Get` | crates/vthread/src/parked_tasks.rs:45-47 | lookup is map lookup, also beyond the vectors' ends |
| `ParkedTasks.ParkedTasks.Update` | crates/vthread/src/parked_tasks.rs:49-51 | changing a record in place, as marking it deferred or retired does, is map update |
| `ParkedTasks.ParkedTasks.Matching` | crates/vthread/src/parked_tasks.rs:59-64 | filtering the records yields each matching key once, as the sweeps over parked tasks need |
| `ParkedTasks.ParkedTasks.Remove` | crates/vthread/src/parked_tasks.rs:53-57 | removal is map removal and keeps the length exact |
| `KernelState.OnePlace` | crates/vthread/src/kernel.rs:247-251 | the counted partition means each live key is ready, parked or in flight, exactly one of them, and dead keys nowhere |
| `KernelState.PartitionSizes` | crates/vthread/src/kernel.rs:247-251 | the sizes then add up as the snapshot asserts |
| `KernelState.DeferKeepsMatch` | crates/vthread/src/kernel_wake.rs:64-78 | deferring keeps notices and records matched one to one, and deferred wakes stay below the parked count |
| `KernelState.UndeferKeepsMatch` | crates/vthread/src/kernel_wake.rs:25-36 | taking a notice out with `swap_remove` keeps the rest matched and its token equal to the record's |
| `KernelState.AbortFits` | crates/vthread/src/kernel_abort.rs:33-45 | a refused scope that is not pending yet always fits the bound: it and every pending one own a live task of an open scope |
| `Kernel.Kernel.constructor` | crates/vthread/src/kernel.rs:74-104 | a fresh kernel is valid and empty |
| `Kernel.Kernel.Snapshot` | crates/vthread/src/kernel.rs:247-251 | the partition assertion never fires |
| `Kernel.Kernel.SelectReady` | crates/vthread/src/kernel.rs:145-157 | selection is the cohort policy on the tasks that are not held back; nothing is selected iff all are, and no task whose abort is deferred is selected |
| `Kernel.Kernel.SelectUnblocked` | crates/vthread/src/kernel_abort.rs:62-71 | with aborts deferred, the selected task leaves its lane and every skipped one keeps its place |
| `Kernel.Kernel.RemoveInFlight` | crates/vthread/src/kernel.rs:159-165 | the removed task is always live |
| `Kernel.Kernel.QueueCompletion` | crates/vthread/src/kernel.rs:167-189 | a batch never crosses scopes, and every completion is published or pending, in order |
| `Kernel.Kernel.FlushCompletions` | crates/vthread/src/kernel.rs:191-201 | publishes exactly the pending batch |
| `Kernel.Kernel.CompleteTask` | crates/vthread/src/kernel_complete.rs:8-73 | removes the finished task and logs its completion once |
| `Kernel.Kernel.RemoveParked` | crates/vthread/src/kernel_wake.rs:84-95 | the record leaves with its own notice and no other |
| `Kernel.Kernel.FinishWake` | crates/vthread/src/kernel_wake.rs:97-136 | the task moves from its park record to the front of the wake lane and its timer goes |
| `Kernel.Kernel.ProcessWake` | crates/vthread/src/kernel_wake.rs:41-82 | a notice is ignored, deferred or finished exactly as its record, task, token and publication say; a foreign task is a fault |
| `Kernel.Kernel.ProcessWakes` | crates/vthread/src/kernel_wake.rs:10-20 | any sequence of notices acts on the park records and the wake lane as its notices one after the other, up to the first fault; it reports a fault iff one of them belongs to another task when its turn comes |
| `Kernel.Kernel.ProcessDeferredWakes` | crates/vthread/src/kernel_wake.rs:22-39 | one pass visits each deferred notice once, newest first, with its mark cleared and its own answer, no index out of range and no reused route; a deferred notice names its record's own task, so none is a fault |
| `Kernel.Kernel.ParkTask` | crates/vthread/src/kernel_drive.rs:125-205 | parks the task in flight, or faults leaving everything in place |
| `Kernel.Kernel.Dispatch` | crates/vthread/src/kernel_drive.rs:84-117 | a yield, park, completion or revocation moves the task to exactly the place the source puts it and nothing else, and is a fault iff it parks on an unregistered wait or a used timer |
| `Kernel.Kernel.Tick` | crates/vthread/src/kernel_drive.rs:8-123 | one iteration is exactly its phases: revoked tasks go, after a signal every deferred abort is retried once and deferred notices are revisited, arrived and timed-out notices act, the cohort policy selects among the tasks not held back, and the selected one is mounted or its scope aborted; a fault ends it where it occurs, and what is tried and mounted is logged |
| `KernelTicks.FairTickSucceeds` | crates/vthread/src/kernel_drive.rs:8-123 | an iteration can fault only if an arriving notice names another task than its route's, or the mounted task parks on an unregistered wait or a used timer |
| `KernelTicks.TickMountsOrIsExcused` | crates/vthread/src/kernel_drive.rs:8-123 | a successful iteration mounts a task, never one of a scope with a deferred or requested abort, unless every ready task is held back or the selected one's scope was aborted |
| `KernelTicks.PoppedIsPicked` | crates/vthread/src/kernel.rs:145-157 | without deferred aborts the plain queue policy is the policy on unblocked tasks |
| `KernelWakes.OneNotice` | crates/vthread/src/kernel_wake.rs:41-136 | a published notice takes its parked task to the front of the wake lane with its timer and deferred notice, one in flight defers it once, and a stale, retired or unmatched one changes nothing |
| `KernelWakes.WakesExactly` | crates/vthread/src/kernel_wake.rs:10-82 | after a pass over any notices a parked task has left its record if and only if its wait is not retired and one of them is its own and published; else it is deferred if it was or one is in flight |
| `KernelWakes.WokenJoinFront` | crates/vthread/src/kernel_wake.rs:97-136 | the tasks that left join the front of the wake lane, each once, and no timer but theirs goes |
| `KernelWakes.FaultsExactly` | crates/vthread/src/kernel_wake.rs:41-51 | a pass faults if and only if a notice names another task than the one still parked on its route when its turn comes |
| `KernelWakes.RevisitsExactly` | crates/vthread/src/kernel_wake.rs:22-39 | after a pass over the deferred notices those with a finished publication have left, in the order they were deferred, those in flight are deferred again, stale ones only lost their notice, and no other task moved |
| `KernelOutcomes.PublishedWakeIsNotLost` | crates/vthread/src/kernel_drive.rs:8-50 | whatever else an iteration does, a parked task for whose unretired wait a published notice arrives is in the wake lane at selection, and parked afterwards only if it was mounted and parked again |
| `KernelOutcomes.LastWakeIsNotLost` | crates/vthread/src/kernel_drive.rs:30-35 | the same for a notice that arrives last, while every ready task is held back |
| `KernelOutcomes.TimeoutWakes` | crates/vthread/src/kernel_drive.rs:20-23 | expired timers are gone after waking, and a published timeout takes its task to the wake lane |
| `KernelOutcomes.ReleaseWakes` | crates/vthread/src/kernel_wake.rs:22-39 | after a signal a deferred task whose publication has finished goes to the wake lane |
| `KernelOutcomes.NobodyWakesUnasked` | crates/vthread/src/kernel_wake.rs:41-82 | a task leaves its park record while waking only by a published notice for its own unretired wait |
| `KernelOutcomes.WakingFaultsExactly` | crates/vthread/src/kernel_drive.rs:8-23 | waking faults if and only if an arriving or timed-out notice names another task than the one parked on its route by then |
| `KernelOutcomes.RevokedAreReclaimed` | crates/vthread/src/kernel_revoked.rs:7-64 | when borrowed scopes have exited, exactly the revoked tasks are gone before anything else, and the others keep place and record |
| `KernelOutcomes.SignalRetries` | crates/vthread/src/kernel_abort.rs:54-59 | after a signal each deferred abort is retried: it is pending again iff a publication of its scope is in flight, and else no task of its scope is left |
| `KernelOutcomes.MountSpawns` | crates/vthread/src/kernel_drive.rs:52-83 | as many children of a mounted task wait to start as the limit allows, in order, in its scope |
| `KernelOutcomes.MountRevokes` | crates/vthread/src/kernel_drive.rs:52-83 | exactly the borrowed frames of its scope that it gave back are revoked, and no other task changes |
| `KernelOutcomes.MountSends` | crates/vthread/src/kernel_drive.rs:84-117 | a mounted task goes to the back of the normal lane, a park record, or away, as its step says, and its step is a fault iff it parks on an unregistered wait or a used timer |
| `KernelOutcomes.CondemnedIsAborted` | crates/vthread/src/kernel_drive.rs:44-51 | a selected task whose scope is being aborted is not mounted: no task of the scope is left, or its abort is deferred |
| `KernelOutcomes.TickCompletes` | crates/vthread/src/kernel.rs:167-201 | an iteration adds exactly the task that completes to the completions, and leaves none pending when nothing is mounted |
| `Kernel.Kernel.RunFiber` | crates/vthread/src/kernel_drive.rs:52-83 | mounting logs the task, appends the local children that fit the task limit and revokes frames of other tasks, and keeps every invariant |
| `Kernel.Kernel.OpenScope` | crates/vthread/src/control_scope.rs:62-105 | a scope opens only within the bound on owned scopes |
| `Kernel.Kernel.FinishScope` | crates/vthread/src/control_scope.rs:162-205 | a scope gives its place back only without a task or a start left, so a deferred abort keeps its scope open |
| `Kernel.Kernel.Submit` | crates/vthread/src/inbox.rs:121-136 | a start is published iff the inbox was not told to stop and has room, its scope is open, and admission allows it |
| `KernelSpec.DepartureKeepsScopes` | crates/vthread/src/kernel_abort.rs:27-52 | forgetting a dispatched task never takes the last task of a scope whose abort is deferred |
| `Kernel.Kernel.PrepareAbort` | crates/vthread/src/kernel_abort.rs:7-25 | exactly the waits of the scope whose publisher is not in flight are retired, and it succeeds iff there is no other |
| `Kernel.Kernel.Postpone` | crates/vthread/src/kernel_abort.rs:27-45 | a deferred abort is recorded once per scope within the scope bound, and a whole-carrier abort absorbs the others |
| `Kernel.Kernel.DeferAbort` | crates/vthread/src/kernel_abort.rs:27-52 | a deferred abort is recorded and its own task goes from flight to the head of the normal lane, unless a whole-carrier abort is already pending |
| `Kernel.Kernel.AbortStarts` | crates/vthread/src/kernel_cleanup.rs:13-42 | exactly the scope's start packets are dropped from the pending slot, the incoming queue and the inbox, in order |
| `Kernel.Kernel.AbortTasks` | crates/vthread/src/kernel_cleanup.rs:53-119 | exactly the scope's tasks are reclaimed; the others keep place, lane order and cohort position, and only removed records lose their timers and notices |
| `Kernel.Kernel.Abort` | crates/vthread/src/kernel_cleanup.rs:11-123 | the whole abort, for any scope, open or not: logged; deferred iff a publisher of the scope is in flight; otherwise exactly its tasks and start packets go, with local starts appended first; on deferral every task stays, in lane order, and the scope's task leaves flight |
| `Kernel.Kernel.RetryAborts` | crates/vthread/src/kernel_abort.rs:54-59 | one pass tries each pending abort once, newest first; an entry is pending again iff one of its publishers is in flight, and exactly the tasks of the other entries are gone from lanes, park records and timers, start packets of all of them are dropped, and no index is out of range while entries are removed and added |
| `KernelRetry.PassAdvances` | crates/vthread/src/kernel_abort.rs:54-59 | one more retry leads from one state of the pass to the next in every part of the kernel, although `swap_remove` reorders the list |
| `KernelRetry.SameRefusal` | crates/vthread/src/kernel_abort.rs:7-25 | retries of other scopes leave a scope's tasks and waits alone, so its publishers answer as at the start of the pass |
| `KernelAborts.AbortedIffQuiet` | crates/vthread/src/kernel_abort.rs:7-25 | an abort goes through if and only if no unrevoked, unretired parked task of the scope has its publication in flight |
| `KernelAborts.AbortClears` | crates/vthread/src/kernel_cleanup.rs:53-119 | then no task of the scope is left, and every other task keeps its place, record and scope |
| `KernelAborts.RefusalHolds` | crates/vthread/src/kernel_abort.rs:7-52 | otherwise every task stays, exactly the scope's waits whose publication is not in flight are retired, and the abort is remembered |
| `KernelAborts.RefusalGrounds` | crates/vthread/src/kernel_abort.rs:46-52 | a refused abort takes the scope's task from flight to the head of the normal lane and no other |
| `KernelAborts.AbortDropsStarts` | crates/vthread/src/kernel_cleanup.rs:13-42 | either way exactly the scope's start packets are dropped, in order, and completions are out |
| `KernelAborts.PassDecides` | crates/vthread/src/kernel_abort.rs:54-59 | after a pass of retries an entry is pending again iff a publication of its scope was in flight when it was tried, then with all its tasks, whose other waits are retired; else no task of its scope is left |
| `KernelAborts.PassSpares` | crates/vthread/src/kernel_abort.rs:54-59 | a task no entry is about keeps its place and record across the pass |
| `Kernel.Kernel.AbortAll` | crates/vthread/src/kernel_cleanup.rs:11-123 | a whole-carrier abort is deferred iff some publisher is in flight, and otherwise leaves no task, start, record, timer or pending abort |
| `Carrier.Step` | crates/vthread/src/carrier.rs:75-107 | one turn of the drive loop is exactly `CarrierTurns.Turned`: what others do before and inside it, the demanded aborts in order or the abort of everything, the starts it receives and its iteration; every operation's assertions hold on the way |
| `Carrier.Drive` | crates/vthread/src/carrier.rs:75-107 | any number of turns from a new carrier follows that relation turn by turn, takes every turn unless one stops it or faults, and logs exactly the aborts and tasks of its turns |
| `Carrier.Run` | crates/vthread/src/carrier.rs:40-107 | from construction, over any turns and the shutdown after a fault: it ends as its turns do or, after a fault, with a stopped inbox and when a whole-carrier abort is not refused; exactly the aborts of turns and shutdown are tried; a stopped carrier is empty with every admitted task completed or aborted |
| `Carrier.GiveUp` | crates/vthread/src/carrier.rs:40-64 | after a fault the inbox is stopped and everything is aborted again and again, each attempt logged and succeeding iff no publisher is in flight, until one does |
| `Carrier.Happen` | crates/vthread/src/inbox.rs:121-136 | opened and finished scopes, published starts and the stop flag arrive exactly as their own conditions allow, in order |
| `CarrierRuns.FairRunDrives` | crates/vthread/src/carrier.rs:75-107 | with well-addressed notices, sound parks and nobody telling it to stop, a carrier neither stops nor faults |
| `CarrierRuns.FaultHasCause` | crates/vthread/src/carrier.rs:40-64 | a run faults only in its last turn, by a misaddressed notice or a bad park there |
| `CarrierRuns.StopWasAsked` | crates/vthread/src/carrier.rs:75-88 | a run stops only if the inbox was told to stop during one of the turns it took |
| `CarrierRuns.TurnsMountOrAreExcused` | crates/vthread/src/carrier.rs:75-107 | every turn that neither stops nor faults mounts a task of a scope without deferred or requested abort, unless all ready tasks are held back or the selected one's scope was aborted |
| `CarrierRuns.GivingUpEnds` | crates/vthread/src/carrier.rs:40-64 | giving up after a fault ends as soon as, at one attempt, no publication in flight is for a parked task |
| `CarrierRuns.ToldToStopStops` | crates/vthread/src/carrier.rs:75-88 | a carrier told to stop stops at its next signalled turn, with no task left, if no publication in flight is for a parked task |
| `CarrierRuns.HandedAbortsAct` | crates/vthread/src/carrier.rs:83-86 | a signalled turn tries each abort it is handed, in order: it goes through, leaving no task of its scope, iff no publication of the scope is in flight by then, and is deferred otherwise |
| `CarrierRuns.ReceiveFillsWindow` | crates/vthread/src/kernel_receive.rs:21-98 | a receive pass at or below half the window of 64 (or the inbox capacity) fills it or empties the inbox, above that it takes nothing or, once 65,536 passes have left a backlog, one start; oldest first, with the pressure counted as stated |
| `CarrierRuns.ScopeFinishesIffIdle` | crates/vthread/src/control_scope.rs:162-205 | a scope finishes if and only if no task and no start of it is left on the carrier |
| `CarrierRuns.OpeningsAndStartsArrive` | crates/vthread/src/inbox.rs:121-136 | a scope opens while there is room for one more; a start reaches the back of the inbox iff the carrier is not stopped, its scope is open, and inbox and task limits allow it |
| `CarrierRuns.RunCompletes` | crates/vthread/src/kernel.rs:167-201 | over a whole run the completions, published or pending, are exactly the completed tasks in order |
| `Kernel.Kernel.SweepRevoked` | crates/vthread/src/kernel_revoked.rs:7-64 | exactly the revoked tasks are reclaimed, in ready order and among parked ones; their park records, timers and deferred notices go and no others |
| `Kernel.Kernel.Receive` | crates/vthread/src/kernel_receive.rs:21-37 | one pass drains what the admission gate allows, oldest first, and updates pressure and backlog; local starts and then the drained ones with a stack join the back of the normal lane in order |
| `Kernel.Kernel.DrainInbox` | crates/vthread/src/kernel_receive.rs:78-98 | the refill window and the pressure quota decide the batch |
| `Kernel.Kernel.StartNext` | crates/vthread/src/kernel_receive.rs:100-163 | the oldest packet becomes a new task at the back of the normal lane or, without a stack, an aborted one |
| `Kernel.Kernel.StartIncoming` | crates/vthread/src/kernel_receive.rs:100-163 | a whole batch joins the normal lane in publication order, without the packets that found no stack |
| `Admission.SomeStartIsDrained` | crates/vthread/src/kernel_receive.rs:21-37 | while the start queue stays non-empty, 65,537 consecutive passes drain some start, whatever the ready window does |
| `Admission.BoundIsExact` | crates/vthread/src/kernel_receive.rs:78-98 | 65,536 passes are not enough |
| `Admission.PressureOutlastsBound` | crates/vthread/src/kernel_receive.rs:26-36 | the pressure counter survives a pass at or above its bound if and only if nothing was published at the drain and something is at the end |
| `WakeMailbox.EveryRunIsSound` | crates/vthread-sync-core/src/wake_mailbox.rs:53-123 | over every run each returned route was outstanding when popped, each publication is outstanding or was handed out, exactly once, and while the sleeping bit is set no unacknowledged publication's publisher has been told to stay quiet |
| `WakeMailbox.NoticeKept` | crates/vthread-sync-core/src/wake_mailbox.rs:98-123 | the compare-exchange of `arm_wait`, its retries and `disarm_wait` keep that promise step by step |
| `WakeMailbox.DeliveredWithin125Pops` | crates/vthread-sync-core/src/wake_mailbox.rs:68-84 | a publication is handed out within 125 pops, whatever else happens |
| `WakeMailbox.PopBringsNearer` | crates/vthread-sync-core/src/wake_mailbox.rs:68-84 | each pop hands it out or lowers its rank in the captured batch |
| `WakeMailbox.ArmsIffEmpty` | crates/vthread-sync-core/src/wake_mailbox.rs:98-119 | an undisturbed `arm_wait` sets the sleeping bit if and only if nothing is outstanding, and changes nothing else |
| `WakeMailbox.DisarmedIsLeftAlone` | crates/vthread-sync-core/src/wake_mailbox.rs:53-66 | until an owner that disarmed arms again, no publisher is told to notify it |
| `WakeInbox.Reverse` | crates/vthread-sync-core/src/wake_inbox.rs:218-228 | the in-place loop turns the linked list around and touches no other slot |
| `WakeInbox.InvariantKept` | crates/vthread-sync-core/src/wake_inbox.rs:80-229 | every step keeps one role per reserved slot, two acyclic chains, lanes apart, payload accounting, exchange order, and what each point of arming knows of both lanes |
| `WakeInbox.EveryRunDelivers` | crates/vthread-sync-core/src/wake_inbox.rs:80-140 | packets come out at most once with their own payload, overflow packets are returned in exchange order across captures and reversals, and the two lists are disjoint |
| `WakeInbox.QuietMeansAllReturned` | crates/vthread-sync-core/src/wake_inbox.rs:116-140 | once no slot is reserved, every accepted packet has been returned |
| `WakeInbox.NoWakeIsLost` | crates/vthread-sync-core/src/wake_inbox.rs:80-187 | whenever `arm_wait` has let the owner block, nothing is captured, the oldest overflow packet since was answered with a wake request, and every mailbox packet's publisher was too or has yet to look at a set sleeping bit |
| `WakeInbox.SleepsIffEmpty` | crates/vthread-sync-core/src/wake_inbox.rs:159-182 | an undisturbed `arm_wait` lets the owner sleep if and only if both lanes and the captured batch are empty |
| `WakeInbox.DisarmedIsLeftAlone` | crates/vthread-sync-core/src/wake_inbox.rs:184-188 | until an owner that disarmed both lanes arms again, no push is told to notify it |
| `Signal.InvariantKept` | crates/vthread/src/signal.rs:199-263 | every step of publishers and owner keeps the owed-wake invariant |
| `Signal.NoLostWakeup` | crates/vthread/src/inbox.rs:126-157 | a blocked owner with a changed epoch or queued starts always has a publisher that still owes it a notification |
| `Signal.QuietSleepIsIdle` | crates/vthread/src/inbox.rs:209-213 | once every publisher has returned, a blocked owner has nothing to do |
| `Signal.OwedPublisherWakes` | crates/vthread/src/signal.rs:199-217 | such a publisher's own remaining steps are possible and wake the owner |
| `Signal.OwnerSleepsIffIdle` | crates/vthread/src/signal.rs:223-263 | undisturbed, a driving owner falls asleep if and only if the epoch is the one it observed and no start is queued; otherwise it returns as it was |
| `Signal.SleeperHasSeenAll` | crates/vthread/src/signal.rs:199-263 | once every publisher has returned, a blocked owner has observed every notification ever made and drained every start ever pushed |
| `Completion.CountKept` | crates/vthread/src/completion.rs:44-108 | the reservation count stays exact at every step and no subtraction underflows |
| `Completion.InvariantAlways` | crates/vthread/src/completion.rs:44-131 | no live subscription is ever forgotten |
| `Completion.NoCompletionIsLost` | crates/vthread/src/completion.rs:44-131 | once all calls finish after `complete`: the word is exactly DONE, the map is empty and every live subscription was notified |
| `Completion.NobodyIsNotifiedEarly` | crates/vthread/src/completion.rs:44-108 | over every run nobody is notified before DONE, while its wait is in the map or owed by the completer, or twice; the map stays within its capacity |
| `Completion.OnlyAFullMapRejects` | crates/vthread/src/completion.rs:95-102 | a subscriber is turned away only by an insertion that met a full map |
| `Completion.SomeCallCanGoOn` | crates/vthread/src/completion.rs:44-131 | in every reachable state with a call in progress some step of a call is possible |
| `Completion.ContinuationsEnd` | crates/vthread/src/completion.rs:44-131 | only boundedly many such steps can follow, so all calls end |
| `Exclusive.InvariantKept` | crates/vthread-sync-core/src/exclusive.rs:58-223 | every step keeps exactly one capability, counting forgotten ones, per locked cell and none for an unlocked one |
| `Exclusive.OwnershipIsLinear` | crates/vthread-sync-core/src/exclusive.rs:103-223 | over every run a cell is locked exactly if one guard or ownership for it exists or was forgotten, and never two; waiter bit implies locked |
| `Exclusive.FreeCellsLock` | crates/vthread-sync-core/src/exclusive.rs:103-110 | after every run `try_lock` yields a guard if and only if nobody holds the cell |
| `Exclusive.QueuedIsMarked` | crates/vthread-sync-core/src/exclusive.rs:116-148 | a queueing call ends with the guard of a free cell or with the waiter bit seen or left, and else looks again |
| `Exclusive.ReleaseHandsOver` | crates/vthread-sync-core/src/exclusive.rs:184-199 | a release hands the ownership over if and only if the waiter bit is set, and otherwise unlocks |
| `Exclusive.OwnershipFitsItsCell` | crates/vthread-sync-core/src/exclusive.rs:150-181 | claim, `set_waiters` and `unlock` accept an ownership if and only if it is the cell's own, and do what they say |
| `Exclusive.SlotsHandOver` | crates/vthread-sync-core/src/exclusive.rs:56-74 | a mailbox takes an ownership iff it is empty and hands the same one out once |
| `Exclusive.AssertionsHold` | crates/vthread-sync-core/src/exclusive.rs:114-223 | the ownership assertions never fire |
| `Control.InvariantKept` | crates/vthread/src/control_admission.rs:60-207 | reserve, release, eviction, completion publication and scope transitions keep every balance |
| `Control.AccountsBalance` | crates/vthread/src/control_completion.rs:132-162 | over every run the record count is the records listed by scopes and within the limit, and retired never exceeds admitted per scope and per carrier |
| `Control.SubtractionsAreSafe` | crates/vthread/src/control_scope_progress.rs:52-91 | no checked subtraction fails, also between two unlocked loads |
| `Control.FinishKeeps` | crates/vthread/src/control_scope.rs:162-205 | a scope that finishes with nothing active releases exactly its listed records |
| `Control.ReleaseKeeps` | crates/vthread/src/control_admission.rs:185-207 | releasing a reservation undoes it in its scope, its carrier and the record count |
| `ControlRuns.ReservesIffRoom` | crates/vthread/src/control_admission.rs:73-103 | a reservation succeeds if and only if fewer records than the limit are listed or a listed one is terminal with an observed outcome |
| `ControlRuns.BegunScopesAdmit` | crates/vthread/src/control_scope.rs:62-105 | a scope that was just begun can be reserved in, from outside and by children |
| `ControlRuns.RecordsAreKept` | crates/vthread/src/control_admission.rs:73-94 | a listed record leaves only when its scope finishes, its reservation is undone, or the limit is reached and it is terminal with an observed outcome |
| `ControlRuns.ClosedStaysClosed` | crates/vthread/src/control_admission.rs:60-67 | in every run only local children enter a closed scope and nothing enters an aborted one |
| `ControlRuns.ReadsNeverUnderestimate` | crates/vthread/src/control_scope_progress.rs:82-91 | what an observer computes from its two loads is at least what is active at the second |
| `ControlRuns.QuietReadIsExact` | crates/vthread/src/control_scope_progress.rs:82-91 | and exactly that if the scope retired nothing in between |
| `ControlRuns.TasksRunThrough` | crates/vthread/src/control_completion.rs:132-162 | every admitted task can pass through all its stages, and then counts once as retired by its scope and its carrier |
| `Placement.CarrierLoads.Select` | crates/vthread/src/control_placement.rs:19-56 | the chosen carrier accepts and has the least cached load among those that do, first in scanning order; none iff every accepting carrier's load is the largest 64-bit number, unless all loads are and the scan starts at an accepting one |
| `Placement.AccountsFeedPlacement` | crates/vthread/src/control_placement.rs:19-83 | in every state of the admission accounts their totals meet what selection and taking a reservation back assert, and its refresh is the accounts' probe |

Where two operations differ in a corner the model follows the code: `pop_matching` leaves the
cohort counter alone when nothing is eligible, while `pop_front` on an empty queue resets it.

## Left out

- Context switching, stacks, panic payloads and mounts: a fiber is an arbitrary step result.
- Wait cells, wait hubs, the timer tree and the local wake queue: publication and retirement are arbitrary answers, timers a set of tokens, notices an arbitrary sequence.
- Networking, filesystem, readiness, blocking delegation, snapshots, evidence, profiling and error display: I/O plumbing or reporting.
- `IdSet`, `ParentSet`, hashing and the task slab's free list: finite sets, maps and "some unused slot".
- Weak memory orderings and wall-clock time: atomics are sequentially consistent steps, deadlines arbitrary events.
- 64-bit wrap-around of totals other than the cancellation epoch and the trie fingerprints: counters are unbounded elsewhere.
- `Graph.Insert` and `Domain.Insert` require identities to be left and live parents, which the source asserts.
- Kernel.Kernel.SweepRevoked: assumes that a revoked frame's wait can always be retired, which the source asserts but which depends on the wait protocol; whether borrowed scopes have exited since the last sweep is an input.
- Kernel.Kernel.PrepareAbort: makes the same assumption for revoked frames; which publications of the others are in flight is an input of each attempt.
- Kernel.Kernel.ParkTask: a timer that cannot be scheduled leaves everything in place in the model, while the source has already consumed the wait registration.
- Kernel.Kernel.FinishScope: looks at the tasks and starts of one carrier only; other carriers and the caller's own wait are not modelled.
- Carrier.GiveUp: makes at most as many attempts as it is given answers for; the source waits for the next signal and goes on.
- `Completion` assumes that every subscription has a wait identity of its own; the source keys its map by that identity.
- Pressure above its bound: aborts that empty the inbox between passes while publishers refill it during them can raise the 32-bit counter further; `Admission.PressureOutlastsBound` gives the exact condition of one pass, and the counter itself is unbounded in the model.
- The lane alternation of the wake inbox and fairness between its lanes: the owner may take either lane at each step. Its mailbox is the set of published low routes, with `arm_wait` on it one step; `WakeMailbox` has the parity word and the retries. Refused pushes change nothing and are not events.
- Mailbox pops are one step: only the owner touches the `seen` and `batch` words, so the load of the publication word is the only interaction.
- Single root scope, supervision flags, record caches and the counters of rejected admissions that change nothing else: easy members.
- Deadline expiry at a checkpoint: the check ends in `CheckDeadline`, which compares with the clock.
- Scope records are sets: their admission order, and with it the binary search in `release_reservation`, is not modelled.
- `queue_or_lock` and `set_waiters` are serialized by the caller's queue lock in the source; the model allows every interleaving, so it states safety of ownership and not that a waiter marker survives.
- Fallback waits of `cancellation.rs` and the waking of selected waits after a cancel: the selected handles are returned and nothing more.
