# Verified models of QEMU's block layer, jobs and CPU protocols

This project models, in Dafny, the parts of QEMU that its other code relies on to be exactly
right, and proves what they promise.  There are four groups of modules.

- **The block graph** (`Reachability`, `BlockGraph`, `GraphEdit`, `Permissions`, `GraphSpec`,
  `GraphLinks`, `GraphOps`, `AioContext`, `AioMover`).  Nodes are joined by edges that carry the permissions the parent
  takes and the permissions it shares.  An operation is one transaction: it edits the graph,
  refreshes the permissions of the subtrees concerned in one pass, and commits or rolls back.
  `GraphOps.BlockLayer` starts without nodes.  It proves of each operation exactly when it
  succeeds, what the graph is then, that a failure leaves the graph as it was, and that between
  operations the graph is sound and acyclic, no node has conflicting parents, every reference
  is accounted for, and a node exists as long as it has references.  `GraphSpec` computes the
  resulting graphs; `GraphLinks` says of them, field by field, which edges join which nodes,
  what the slots hold and who inherits from whom.
  The permission pass is proved to find the one solution of the permission equations, or
  there is none.  The equations are also written out permission by permission
  (`Permissions.SolutionMeans`).  Moving a connected part to another AioContext moves all of it or nothing.
- **CPU protocols** (`Exclusive`, `ExclusiveEnd`, `IoctlBlocker`, `IoctlEnd`).  Exclusive
  sections and the ioctl inhibitor, as interleavings of atomic steps of any number of threads:
  mutual exclusion, counted over the calls and returns of a run; no lost wakeup; no deadlock;
  and from every reachable state all calls can be completed and every thread can get in.
- **Image algorithms** (`Buffers`, `Rebase`, `Compare`, `Convert`, `ConvertRun`, `ConvertEnd`).
  Safe rebase, compare and convert of `qemu-img` against bytewise specifications, including every
  schedule of the copy coroutines: what success means, that it is reported unless a request
  fails, and that every run ends.
- **Jobs** (`JobGroup`, `JobEnd`, `JobTxn`, `JobPause`).  The job state table, transactions of
  jobs, what ends them and how, and the pause counter shared by the user, I/O errors and drained
  sections.

`Options` holds what the groups share.

Imperative code is modelled by methods with loops, and by classes where the source updates
objects in place.  Code that runs concurrently is modelled by a state and a relation between
states, one step for each access to shared memory that matters; a theorem about it speaks of
every finite run.  The order of the parents and children lists is arbitrary: a loop over such
a list takes its elements in any order.

What the model takes from outside is stated as parameters or as contracts:

- The drivers' `.bdrv_child_perm`, their permission checks and the nodes' options are arbitrary
  functions (`Permissions.Drivers`).  The status, read and write calls of images are methods
  that may answer anything their contract allows, and may fail unless the image is marked
  reliable; an operation on reliable images is proved not to fail.  In `Compare` and `Convert`
  the status is an arbitrary function of the image and the offset.
- Where the source asserts something of its caller, as that an edge to be replaced or removed
  is not frozen, the model requires it.
- An image reads as zeroes behind its end.  A status call reports an extent that is not empty,
  and "zero" only where the data reads as zero; in `Convert` every sector that a zero extent
  touches is zero (`Source.Honest`).
- Memory is sequentially consistent where the source has a full barrier; `QemuLockCnt` and
  `QemuEvent` are modelled by their own steps in `IoctlBlocker`.
- A driver's `.cancel` returns true if it was asked to force, and for a job that is not ready;
  drivers become ready only from RUNNING; callbacks made with the job mutex dropped do not
  re-enter the job layer; commands are not run while an abort waits for another job.
- Transactions run commit and abort callbacks newest first (`util/transactions.c:60-100`).

Three places where the code and its comments or intentions differ; the model follows the code.

- `is_allocated_sectors` (`qemu-img.c:1169-1178`) is said to return true iff the first sector
  is not zero.  It also returns true for a zero run that is too short to reach back to an
  alignment boundary; `Convert.IsAllocatedSectors` states the exact condition, and
  `Convert.ShortZeroRunIsData` is such a call.
- The comment on `bdrv_try_change_aio_context` says that the subgraph of the ignored child is
  not touched.  It is touched where another path leads to it; `AioMover.Mover.TryChange`
  states exactly what moves, and `AioMover.IgnoredChildMoves` is a call that moves it.
- A job transaction is meant to be all or nothing.  If a `.prepare` fails it may not be:
  `JobTxn.PrepareCanSplit` is a run in which one job is aborted and the other committed, and
  `JobGroup.PrepareIsUniformIff` states exactly when this does not happen.

## Model

| member | source | states |
|---|---|---|
| `BlockGraph.HasChild` | block.c:4303-4318 | the recursive search returns true if and only if the second node is reachable from the first |
| `BlockGraph.ShouldUpdateChild` | block.c:5198-5275 | true if and only if the edge may leave its node and lies in no children list that is reachable from the new node |
| `BlockGraph.VisitChildren` | block.c:5256-5268 | the inner loop of that search keeps the queue and the found set closed over what was visited |
| `BlockGraph.TopologicalDfs` | block.c:2290-2312 | with a shared found table, the list stays duplicate-free, closed and sorted, and gains exactly what is reachable from the new root |
| `BlockGraph.DfsChildren` | block.c:2307-2309 | the loop over the children lists exactly what is below the node |
| `BlockGraph.SortSubtrees` | block.c:2610-2621 | the list for several roots holds exactly the nodes reachable from some root, once each, every parent before its children |
| `GraphEdit.SetBs` | block.c:2924-2984 | an edge that is not frozen is pointed elsewhere; no other edge changes and no node comes or goes |
| `GraphEdit.SetBsNode` | block.c:1439-1497 | the attach and detach callbacks change exactly the slot of the parent that the edge is meant for |
| `GraphEdit.SetBsSound` | block.c:2924-2984 | slots and edges stay consistent with each other |
| `GraphEdit.SetBsBack` | block.c:2421-2447 | pointing an edge back restores the whole graph |
| `GraphEdit.DoSound` | block.c:2335-2489 | each of the five edits keeps the graph sound |
| `GraphEdit.UndoFirst` | block.c:2320-2447 | the undo action of any edit, run right after it, gives back the graph |
| `GraphEdit.UndoOfDo` | block.c:3010-3044 | the actions an edit adds to a transaction undo exactly that edit |
| `GraphEdit.AbortRestores` | block.c:2320-2351 | aborting any sequence of attach, replace, remove, set-perm and set-inherits edits restores edges, slots, permissions and inherits_from |
| `GraphEdit.ParentKeepsAlive` | block.c:7115-7125 | a node with an incoming edge has a positive reference count |
| `GraphEdit.DoKeepsRefs` | block.c:2469-2489 | an edit keeps: reference count = incoming edges + references saved by live replace actions + scheduled drops + references of callers |
| `GraphEdit.DoAllHoldsMore` | block.c:2469-2489 | no sequence of edits lets go of a node: the edges to it and the references saved for an abort are never fewer than before |
| `GraphEdit.DoKeepsKnown` | block.c:2469-2489 | scheduled drops, callers' references and the nodes saved in the transaction are all nodes of the graph, after every edit |
| `GraphEdit.AbortKeepsRefs` | block.c:2421-2447 | undoing a whole transaction accounts for every reference and restores the graph |
| `GraphEdit.AbortStaysAlive` | block.c:2421-2447 | at no point of an abort does the drop of a reference take the last one, so that no node is deleted in the middle of it |
| `GraphEdit.CommitKeeps` | block.c:2413-2419 | commit frees only detached edges, keeps the graph sound and accounts for every reference |
| `GraphEdit.CommitKeepsKnown` | block.c:2413-2419 | commit schedules drops of nodes of the graph only, and drops no reference at once |
| `GraphEdit.FreeDetached` | block.c:5277-5281 | freeing a removed edge changes no list, slot or adjacency |
| `Permissions.GetCumulativePerm` | block.c:2623-2639 | the loop computes what some parent asks for and what every parent shares |
| `Permissions.DemandsUnique` | block.c:2623-2639 | the computed masks are the only ones that hold exactly what some parent asks for and what every parent shares |
| `Permissions.ParentPermsConflict` | block.c:2235-2258 | the double loop finds a conflict if and only if some parent does not share what another asks for |
| `Permissions.CompatibleMeans` | block.c:2235-2258 | no conflict means that of any two edges to the node each shares what the other takes |
| `Permissions.AcceptsMeans` | block.c:2510-2555 | the demands are accepted if and only if: whoever writes finds the node writable, and of aligned size unless a parent may resize it, and the driver agrees |
| `Permissions.RefreshGrants` | block.c:2557-2567 | after a refresh each child edge takes the first and shares the second mask of what the driver answers to the demands, but shares everything if its node is force-share; every other edge, and everything else about these, is as before |
| `Permissions.RefreshSettles` | block.c:2557-2567 | refreshing the children of a node settles it and disturbs no node that is not its child |
| `Permissions.RefreshCompletes` | block.c:2578-2599 | a step of the pass completes its node and keeps complete all earlier and all unlisted nodes |
| `Permissions.PrefixAgrees` | block.c:2578-2599 | assignments that settle the nodes listed earlier agree on everything above the next node |
| `Permissions.SettledIsUnique` | block.c:2499-2568 | two assignments that settle all listed nodes and agree elsewhere are equal |
| `Permissions.SolutionIsUnique` | block.c:2578-2599 | the permission equations of a sorted, closed list have at most one solution |
| `Permissions.SolutionPasses` | block.c:2578-2599 | if there is a solution, the pass finds no fault at any node |
| `Permissions.SolutionMeans` | block.c:2578-2599 | a graph is a solution if and only if it differs from the old one at most in the permissions on the edges below the listed nodes, and at each of them: parents do not conflict, the demands are accepted, and the child edges carry what the driver answers |
| `Permissions.PassedOn` | block.c:2261-2276 | below a driver that hands its demands on, a child edge takes a permission if and only if some parent takes it, and shares at least what all parents share |
| `Permissions.DemandReachesDown` | block.c:2499-2568 | a permission that some parent takes on a node is taken on every node below it, if the drivers in between hand their demands on |
| `Permissions.ForceShareYields` | block.c:2272-2275 | an edge to a force-share node never conflicts with another parent |
| `GraphSpec.CommitGraph` | util/transactions.c:81-100 | commit frees exactly the removed edges and leaves the rest of the graph alone |
| `GraphSpec.SetBsAcyclic` | block.c:3181-3185 | pointing an edge of a node at one that does not reach it closes no cycle |
| `GraphSpec.SubtreeStable` | block.c:5198-5275 | redirecting edges from outside a subtree leaves the subtree as it is |
| `GraphSpec.MovableStable` | block.c:5317-5348 | which parents may be redirected does not depend on which were redirected before |
| `GraphSpec.RedirectOne` | block.c:5344-5344 | redirecting one more parent keeps the slots and closes no cycle |
| `GraphSpec.RefreshedIsCompatible` | block.c:2610-2621 | if an edit adds parents only inside the refreshed subtrees, no node of the whole graph is left with conflicting parents |
| `GraphSpec.HeirsAre` | block.c:3345-3368 | the nodes below a child that lose inherits_from are the child and those below its own children |
| `GraphSpec.HasOtherLink` | block.c:3355-3359 | the search finds another link from the root to the same node if and only if there is one |
| `GraphSpec.HeldIsLive` | block.c:7115-7132 | a node for which someone holds a reference or a drop is scheduled exists and is not being deleted |
| `GraphSpec.LastReference` | block.c:7115-7125 | the reference of a caller is the last one if and only if no edge, no other caller and no scheduled drop has one |
| `GraphSpec.FindCowLink` | block.c:5378-5386 | the loop down the chain ends at the link whose filtered or copy-on-write child is the node sought |
| `GraphSpec.FilterOrCowMeans` | block.c:8202-8267 | the child found is that in the backing slot, or else that in the file slot of a filter |
| `GraphSpec.RefusalMeans` | block.c:3449-3488 | setting a child is refused if and only if the node has lost its driver, the old child is frozen, the driver takes no backing file, or it has no file child to be replaced |
| `GraphLinks.AttachedGrants` | block.c:3187-3189 | a new edge takes and shares what the driver answers to the demands on its parent |
| `GraphLinks.RedirectedFields` | block.c:5317-5348 | replacing a node moves the end of an edge if and only if it pointed to the old node, may leave it and does not lie below the new one; nothing else about any edge or node changes |
| `GraphLinks.MayRedirectMeans` | block.c:5323-5346 | replacing a node is allowed if and only if no edge that has to move is frozen, and none has to stay unless such edges may be skipped |
| `GraphLinks.DisownedFields` | block.c:3345-3368 | a node stops inheriting if and only if it inherits from the root, is the child or lies below it, and the root has no other link to it; nothing else changes |
| `GraphLinks.ChildSetFields` | block.c:3490-3515 | the slot that the driver uses holds the new edge, the old one is detached, all others are as before, and who inherits from whom |
| `GraphLinks.AppendFields` | block.c:5458-5500 | the new node has one edge to the old top, in the slot that its driver uses, the parents of the old top now point to the new node, and all else but permissions is as before |
| `GraphLinks.AppendKeepsReach` | block.c:5458-5500 | whatever a node reached before an append it still reaches |
| `GraphLinks.ReplaceFields` | block.c:5364-5418 | the edges end where they should, the cut link is gone from edges and slots, and no one inherits differently |
| `GraphOps.BlockLayer.constructor` | block.c:76-77 | a block layer without nodes meets the invariant |
| `GraphOps.BlockLayer.NewNode` | block.c:411-440 | a node without links is added with one reference that the caller holds; no other node or edge changes, and the invariant is kept |
| `GraphOps.BlockLayer.Ref` | block.c:7106-7110 | one more reference of a caller is counted |
| `GraphOps.BlockLayer.Unref` | block.c:7115-7125 | the node is deleted if and only if no edge, no other caller and no scheduled drop refers to it; else the graph is unchanged |
| `GraphOps.BlockLayer.SetFrozen` | block.c:5790-5818 | freezing or unfreezing edges changes nothing else and keeps the invariant |
| `GraphOps.BlockLayer.Begin` | util/transactions.c:38-45 | a transaction starts from a healthy graph |
| `GraphOps.BlockLayer.Apply` | util/transactions.c:47-58 | an edit is done and recorded; soundness, acyclicity and references are kept |
| `GraphOps.BlockLayer.AbortAll` | util/transactions.c:60-79 | the loop over the undo actions restores the graph of the beginning, and every node is alive at each turn |
| `GraphOps.BlockLayer.CommitAll` | util/transactions.c:81-100 | the loop over the commit actions frees the removed edges and leaves a healthy graph |
| `GraphOps.BlockLayer.Finalize` | block.c:2706-2710 | success commits, failure restores |
| `GraphOps.BlockLayer.SetChildPerm` | block.c:2335-2351 | only the permissions of one edge change |
| `GraphOps.BlockLayer.SetChildrenPerms` | block.c:2557-2567 | every child edge takes and shares what the driver answers to the given demands, or shares everything below a force-share node; nothing else changes |
| `GraphOps.BlockLayer.RefreshNode` | block.c:2499-2568 | succeeds if and only if the node and its driver accept the cumulative permissions, and then its children are refreshed and nothing else changes |
| `GraphOps.BlockLayer.RefreshList` | block.c:2578-2599 | succeeds if and only if the permission equations, as `Permissions.SolutionMeans` writes them out, have a solution, and then the graph is that solution |
| `GraphOps.BlockLayer.RefreshPerms` | block.c:2610-2695 | the same for the subtrees of any roots |
| `GraphOps.BlockLayer.TryRefresh` | block.c:2676-2695 | without a transaction of the caller: the solution below the node if there is one, else nothing changes |
| `GraphOps.BlockLayer.ReplaceNodeNoperm` | block.c:5317-5348 | succeeds if and only if no movable parent is frozen and none is immovable without auto_skip; exactly the movable parents are redirected, judged in the original graph |
| `GraphOps.BlockLayer.AttachChildNoperm` | block.c:3168-3194 | succeeds if and only if the child does not reach the parent and the AioContexts can be matched; there is then one more edge, from the parent to the child, in the given slot and with what the driver answers; the graph stays acyclic |
| `GraphOps.BlockLayer.RemoveChild` | block.c:5295-5307 | the edge, which must not be frozen, points nowhere and is in no slot; nothing else changes; commit will free it |
| `GraphOps.BlockLayer.SetInheritsFrom` | block.c:3321-3337 | one inherits_from pointer changes |
| `GraphOps.BlockLayer.UnsetOwn` | block.c:3350-3363 | the node right below the child stops inheriting if and only if it is an heir |
| `GraphOps.BlockLayer.UnsetInheritsFrom` | block.c:3345-3368 | exactly the nodes below the child that inherit from the root, and that the root has no other link to, stop inheriting |
| `GraphOps.BlockLayer.UnsetChild` | block.c:3490-3494 | the old child of a slot is gone and its heirs disowned |
| `GraphOps.BlockLayer.SetFileOrBackingNoperm` | block.c:3437-3521 | the exact conditions of success, with every error case; the slot that the driver uses holds an edge to the new child, the old one is detached, and exactly the heirs by way of the old child stop inheriting |
| `GraphOps.BlockLayer.Conclude` | block.c:5484-5491 | the common end of the operations: succeeds if and only if the edits did and the permission equations of the roots have a solution, which is then committed; else the graph is as before |
| `GraphOps.BlockLayer.Append` | block.c:5458-5500 | exactly when it succeeds; the new node is then on top of the old one: one new edge in the right slot, the parents moved, all else but permissions as before; failure changes nothing; the graph stays acyclic and free of conflicts |
| `GraphOps.BlockLayer.AttachChild` | block.c:3242-3273 | exactly when it succeeds; there is then one more edge, from the parent to the child in the given slot, and all else but permissions is as before; failure changes nothing; the reference of the caller is consumed in both cases |
| `GraphOps.BlockLayer.RootAttachChild` | block.c:3203-3232 | exactly when it succeeds; there is then one more edge, from outside the graph to the child with the permissions asked for, and all else but permissions is as before; failure changes nothing; the reference of the caller is consumed in both cases |
| `GraphOps.BlockLayer.ScheduleUnref` | block.c:7142-7148 | a caller's reference becomes a scheduled drop |
| `GraphOps.BlockLayer.DetachedLink` | block.c:5378-5386 | with detach_subchain the link removed is the last one of the chain from the replaced node to its replacement |
| `GraphOps.BlockLayer.ReplaceNode` | block.c:5364-5418 | exactly when it succeeds; then every edge that may move has moved and no other, also when the chain above the replacement is cut off, and all else but permissions is as before; failure changes nothing |
| `GraphOps.BlockLayer.SetBackingHd` | block.c:3530-3552 | exactly when it succeeds; then slot, edges and inherits_from pointers are as `GraphLinks.ChildSetFields` says; failure changes nothing |
| `GraphOps.BlockLayer.ChildTrySetPerm` | block.c:2697-2729 | succeeds if and only if the request only loosens or the equations have a solution; without a solution nothing changes |
| `GraphOps.BlockLayer.RootUnrefChild` | block.c:3276-3301 | the edge is gone from edges and slots, all else but permissions is as before, its reference is scheduled to be dropped, and permissions are refreshed if that is possible |
| `GraphOps.BlockLayer.UnrefChild` | block.c:3371-3380 | the edge is gone, exactly the heirs of the parent by way of it are disowned, and all else but permissions is as before |
| `GraphOps.BlockLayer.RunUnref` | block.c:7115-7132 | the node of a scheduled drop still exists when the bottom half runs; it is deleted if and only if nothing else refers to it, and then nothing points to it |
| `GraphOps.BlockLayer.ReleaseChildren` | block.c:5118-5181 | closing a node releases all its child edges and no other edge |
| `GraphOps.BlockLayer.Delete` | block.c:5535-5552 | the node is gone and nothing points to it or comes from it; the other nodes and edges are as before but for permissions and inherits_from; the invariant is kept |
| `AioContext.ConnectedKeepsCtx` | block.c:7590-7600 | a connected part is in one context |
| `AioContext.WalkedAll` | block.c:7590-7631 | a finished walk over unvisited edges has recorded everything that is connected |
| `AioContext.DrainedMeanwhile` | block.c:7618-7630 | every recorded node is drained from when it is recorded until the end |
| `AioMover.Mover.Record` | block.c:7618-7630 | a recorded node is drained once more |
| `AioMover.Mover.Change` | block.c:7590-7631 | the recursion ends, visits only connected vertices, and fails only if one of them refuses |
| `AioMover.Mover.ChangeParents` | block.c:7604-7609 | all edges to the node are visited afterwards |
| `AioMover.Mover.ChangeChildren` | block.c:7611-7616 | all edges from the node are visited afterwards |
| `AioMover.Mover.ParentChange` | block.c:7515-7541 | a node, a job or a BlockBackend above is asked to move, anything else refuses |
| `AioMover.Mover.ChildChange` | block.c:7543-7553 | the node below an unvisited edge is asked to move |
| `AioMover.Mover.JobChange` | blockjob.c:147-171 | a job moves with all its nodes |
| `AioMover.Mover.MoveAll` | block.c:7566-7574 | everything recorded gets the new context, each node while it is drained |
| `AioMover.Mover.CleanAll` | block.c:7555-7564 | every drain counter is back at its old value, however often a node was recorded |
| `AioContext.MovedIsConnected` | block.c:7640-7677 | what was recorded is the connected part |
| `AioContext.StillSame` | block.c:7640-7677 | moving a connected part keeps the two ends of every edge in one context |
| `AioMover.Mover.TryChange` | block.c:7640-7677 | exactly the connected part moves, or nothing; it fails if and only if a vertex is connected that cannot move, or a BlockBackend that does not allow it; drain counters are balanced |
| `AioContext.IgnoredChildCanMove` | block.c:7633-7639 | a graph in which another path leads to the node of the ignored child, and nothing refuses to move |
| `AioMover.IgnoredChildMoves` | block.c:7633-7639 | a call that moves the node of the ignored child |
| `Exclusive.NextKeepsInv` | cpu-common.c:183-319 | every step of every thread keeps the invariant on pending_cpus, running, has_waiter and the lock |
| `Exclusive.RunInvariant` | cpu-common.c:183-319 | the invariant holds in every state of every run |
| `Exclusive.OwnerIsAlone` | cpu-common.c:192-284 | from the return of start_exclusive until pending_cpus is reset no other thread has raised pending_cpus, and none is between cpu_exec_start and cpu_exec_end |
| `Exclusive.CountsAreCalls` | cpu-common.c:197-238 | in every run exclusive_context_count is the number of returns of start_exclusive less that of calls of end_exclusive, and a CPU runs if and only if a cpu_exec_start returned to it and no cpu_exec_end followed |
| `Exclusive.MutualExclusion` | cpu-common.c:192-284 | a CPU with more returns of start_exclusive than calls of end_exclusive is the only one that has, and no CPU has more returns of cpu_exec_start than calls of cpu_exec_end |
| `Exclusive.NestedCalls` | cpu-common.c:197-238 | inside a section start_exclusive returns at once and changes nothing else; end_exclusive leaves the section if and only if the call is the outermost |
| `Exclusive.PendingCounts` | cpu-common.c:205-222 | outside the scan an active pending_cpus is one plus the number of CPUs with has_waiter |
| `Exclusive.NoLostWakeup` | cpu-common.c:183-244 | a thread asleep on exclusive_cond has a counted CPU that will still decrement, one asleep on exclusive_resume has an initiator that will reset |
| `Exclusive.NoDeadlock` | cpu-common.c:183-319 | whenever a thread is waiting some thread can take a step |
| `Exclusive.NoNewWaiter` | cpu-common.c:219-222 | while an initiator waits no step makes it wait for another CPU |
| `Exclusive.WaitIsBounded` | cpu-common.c:205-222 | over any stretch of a run in which an initiator waits, pending_cpus goes down by exactly one with each counted cpu_exec_end and not otherwise; there are at most as many as CPUs with has_waiter at its start, and after the last one the initiator is not asleep |
| `ExclusiveEnd.CanFinish` | cpu-common.c:183-319 | every run can go on until no CPU is in the protocol, and then pending_cpus is 0 and nothing is marked |
| `ExclusiveEnd.CanEnter` | cpu-common.c:192-230 | every run can go on so that a given CPU is in an exclusive section |
| `ExclusiveEnd.CanRun` | cpu-common.c:247-284 | every run can go on so that a given CPU runs |
| `IoctlBlocker.RunInvariant` | accel/accel-blocker.c:42-153 | the invariant on counts, locks and the event holds in every state of every run |
| `IoctlBlocker.InhibitionIsExclusive` | accel/accel-blocker.c:84-143 | between inhibit_begin and inhibit_end no counted ioctl is in progress anywhere, although the counts are read one after the other |
| `IoctlBlocker.NoLostWakeup` | accel/accel-blocker.c:100-143 | an inhibitor asleep on the event has a thread that will still set it or wake it |
| `IoctlBlocker.NoDeadlock` | accel/accel-blocker.c:42-153 | whenever a thread is inside the protocol some thread can take a step |
| `IoctlEnd.CanFinish` | accel/accel-blocker.c:42-153 | every run can go on until no thread is in the protocol and every count is 0 |
| `IoctlEnd.CanIoctl` | accel/accel-blocker.c:42-82 | every run can go on so that a given thread issues an ioctl on a given lock |
| `IoctlEnd.CanInhibit` | accel/accel-blocker.c:100-143 | every run can go on so that a given thread inhibits all ioctls |
| `Buffers.CompareBuffers` | qemu-img.c:1284-1309 | the verdict is that of the first chunk and the length is the largest run of whole chunks with that verdict |
| `Buffers.FindNonzero` | qemu-img.c:1153-1167 | the chunked search finds a non-zero byte, or there is none |
| `Rebase.RebasedKeepsContent` | qemu-img.c:3855-3990 | the rebased layer over the new backing file shows what the old layer over the old one showed |
| `Rebase.RebasedIsMinimal` | qemu-img.c:3948-3975 | any layer of whole granules that keeps the content over the new backing file allocates every byte that the rebase allocates |
| `Rebase.SettledIsRebased` | qemu-img.c:3855-3990 | a loop that has passed every byte has built exactly the rebased layer |
| `Rebase.FillIsProgress` | qemu-img.c:3951-3975 | a write of old content keeps the content and stays within the rebased layer |
| `Rebase.TornKeepsContent` | qemu-img.c:3957-3968 | a write that fails half-way keeps the visible content |
| `Rebase.RoundedOut` | qemu-img.c:3910-3915 | rounding a range out to the granularity stays in unallocated granules, and the end still makes progress although the start moves back |
| `Rebase.ChunkIsFill` | qemu-img.c:3954-3963 | a differing chunk lies in granules that differ |
| `Rebase.Overlay.IsAllocated` | qemu-img.c:3863-3871 | the oracle for the allocation of the overlay, which answers if the overlay is reliable |
| `Rebase.Overlay.Write` | qemu-img.c:3957-3968 | a write allocates whole granules; a failing write, possible only on an unreliable overlay, changes some of the bytes it would change |
| `Rebase.Overlay.ChangeBacking` | qemu-img.c:3985-3990 | the backing file is switched, or stays if the overlay is unreliable |
| `Rebase.IsAllocatedAbove` | qemu-img.c:3880-3899 | the oracle for ranges that old and new backing file share, which answers if the old file is reliable |
| `Rebase.ReadZeroExtended` | qemu-img.c:3921-3946 | a read beyond the end is filled with zeroes, eof implies that the rest is zero, and a read of a reliable file succeeds |
| `Rebase.CopyChunk` | qemu-img.c:3954-3969 | one differing chunk is copied without any visible change |
| `Rebase.CopyDiffering` | qemu-img.c:3949-3975 | all differing chunks of the buffers are copied without any visible change |
| `Rebase.RebaseStep` | qemu-img.c:3855-3977 | one turn of the loop settles a non-empty range and keeps the visible content; it fails only if overlay or file is unreliable |
| `Rebase.Rebase` | qemu-img.c:3855-4001 | with a reliable overlay and files it succeeds; success leaves the rebased layer over the new backing file; at every moment, also on failure, the visible content is the original one |
| `Compare.BlockStatus` | qemu-img.c:1514-1534 | the status is what the image reports at the offset |
| `Compare.MatchIsSameFlags` | qemu-img.c:1537-1544 | for images that report of each offset in an extent what they report of the extent: the statuses match wherever the loop compares them if and only if they are equal at every offset |
| `Compare.Read` | qemu-img.c:1552-1567 | the oracle for reads |
| `Compare.CheckEmptySectors` | qemu-img.c:1328-1349 | 0 if and only if the range reads as zero, 1 if not, 4 on a read error |
| `Compare.CompareChunk` | qemu-img.c:1511-1591 | one turn: the range agrees, and in strict mode the statuses are equal; or there is a difference, or an error is reported; and how far the turn goes |
| `Compare.CompareTail` | qemu-img.c:1593-1628 | the rest of the longer image is empty, or a difference or an error is reported |
| `Compare.Compare` | qemu-img.c:1505-1632 | without errors it ends with 0 if and only if the images are identical, with 1 otherwise; identical means that the zero-extended images agree at every byte, and in strict mode that sizes and contents are equal and the statuses match |
| `Convert.IsAllocatedSectors` | qemu-img.c:1179-1230 | exactly which verdict and length is returned, that reported zeroes are zeroes, and that the extent ends on an alignment boundary |
| `Convert.ShortZeroRunIsData` | qemu-img.c:1169-1214 | a buffer that begins with a zero sector and is reported as data |
| `Convert.AlignRun` | qemu-img.c:1206-1229 | the alignment of the end of a run |
| `Convert.IsAllocatedSectorsMin` | qemu-img.c:1237-1274 | reported zeroes are zeroes; data goes on, extent by extent, until the minimal number of zero sectors follows or the buffer ends, and not further |
| `Convert.FlatSplit` | qemu-img.c:1704-1714 | the concatenation of the sources splits at any source |
| `Convert.SelectPart` | qemu-img.c:1704-1714 | the source that holds a sector and where it starts |
| `Convert.SourceStatus` | qemu-img.c:1751-1780 | the status reported of the source that holds the sector, with the bytes it holds for |
| `Convert.CutBackMeans` | qemu-img.c:1782-1790 | the cached extent ends on an alignment boundary of its source unless it is too short, and loses less than an alignment |
| `Convert.CoRead` | qemu-img.c:1823-1874 | what is read across sources is the concatenation of the sources |
| `Convert.ExtentCache.Refill` | qemu-img.c:1738-1801 | what is cached is what the source reports, cut to the request limit and back to the alignment, and a cached zero extent is zero; with reliable sources it succeeds |
| `Convert.ExtentCache.IterationSectors` | qemu-img.c:1717-1821 | the extent claimed is not empty, stays in the image and within the cache, and is zero if it is called zero; how long it is; with reliable sources it succeeds |
| `Convert.CoWrite` | qemu-img.c:1877-1939 | an extent written, skipped or zeroed leaves exactly the wanted sectors and touches no other; each chunk is dealt with as it should be; on a reliable target it succeeds |
| `Convert.ChooseChunk` | qemu-img.c:1887-1931 | what is done with a chunk and where it ends: zero extents are zeroed or skipped as a whole, -S 0 and compressed clusters as a whole, other data as is_allocated_sectors_min says |
| `Convert.EffectReaches` | qemu-img.c:1877-1939 | one more chunk brings the target up to its end |
| `ConvertRun.NextKeepsInv` | qemu-img.c:1972-2093 | every step of every coroutine, failures included, keeps the invariant |
| `ConvertRun.RunInvariant` | qemu-img.c:1972-2156 | the invariant holds in every state of every run |
| `ConvertRun.ConvertPreservesContent` | qemu-img.c:1972-2156 | a run that ends successfully leaves the target equal to the concatenation of the sources |
| `ConvertRun.ClaimsPartition` | qemu-img.c:1996-2018 | the extents claimed under the lock are not empty and partition the image |
| `ConvertRun.WritesAreRightAndOrdered` | qemu-img.c:2040-2083 | writes of an in-order copy are contiguous and ascending, each extent once, and a range skipped or zeroed is zero |
| `ConvertRun.TurnOwnerIsAwake` | qemu-img.c:2040-2083 | the coroutine whose extent is to be written next is not asleep |
| `ConvertRun.NoStall` | qemu-img.c:1972-2093 | while a coroutine is alive some coroutine can take a step |
| `ConvertEnd.FailureIsReported` | qemu-img.c:2004-2065 | a run reports failure if and only if one of its steps failed |
| `ConvertEnd.EndIsReported` | qemu-img.c:2086-2092 | when all coroutines are through the result is failure if a step failed, and otherwise success with the target equal to the sources |
| `ConvertEnd.FailureStopsWork` | qemu-img.c:1996-2066 | after a failure no extent is claimed and no coroutine begins to write |
| `ConvertEnd.RunsAreBounded` | qemu-img.c:1972-2093 | no run is longer than nine steps for each sector and two for each coroutine |
| `ConvertEnd.RunIsTidy` | qemu-img.c:2009-2038 | in every run an extent that is read or filled fits the buffer, and with -S 0 everything is written as data |
| `ConvertEnd.CanEnd` | qemu-img.c:1972-2093 | every run can go on, without a further failure, until all coroutines are through |
| `ConvertEnd.CanBeCompleted` | qemu-img.c:2086-2092 | every run without a failure can be completed to one that succeeds with the right target |
| `ConvertEnd.SuccessIsPossible` | qemu-img.c:2095-2156 | for every valid configuration, number of coroutines and initial target there is a copy that succeeds |
| `JobGroup.NextKeepsInv` | job.c:840-1157 | every step of every job and every command keeps the invariant of the transaction |
| `JobGroup.RunInvariant` | job.c:840-1157 | the invariant holds in every state of every run |
| `JobGroup.NoFault` | job.c:59-72 | no status change of any run breaks the state table, and the assertions on completion, results and cancellation never fail |
| `JobGroup.CancelVerb` | job.c:74-76 | a job can be cancelled by command if and only if it exists and has neither begun to abort nor concluded |
| `JobGroup.CompletedStays` | job.c:300-320 | a completed job stays completed |
| `JobGroup.AbortWaitsOnCancelled` | job.c:952-957 | a job that an abort waits for has been told to stop |
| `JobGroup.AbortCanProceed` | job.c:952-959 | a job that was started and that an abort waits for can take a step that brings it closer to leaving the transaction, and no other job changes |
| `JobGroup.AbortNeverRecedes` | job.c:923-963 | while a transaction aborts no step of any run takes any job further from leaving it |
| `JobGroup.AllOrNothing` | job.c:840-963 | each job is committed or aborted exactly once, when it concludes; one committed job means all are committed, unless the abort was on behalf of a job that had not failed |
| `JobGroup.WholeTransaction` | job.c:840-1069 | once all jobs are concluded: all the same if and only if the abort, if any, was on behalf of a failed job; and all committed if and only if every run returned 0 and no cancel was a forced one |
| `JobGroup.PrepareIsUniformIff` | job.c:966-1002 | finalizing is all or nothing if and only if no .prepare fails or the first to fail is that of the job finalized for |
| `JobGroup.FinalizedFate` | job.c:840-877 | a doomed job is aborted and a spared one committed |
| `JobGroup.CompleteKeepsInv` | job.c:1031-1069 | completing a job, through waiting, pending and finalizing, keeps the invariant |
| `JobGroup.CancelKeepsInv` | job.c:1131-1165 | cancelling a job in any state keeps the invariant |
| `JobGroup.FinalizeKeepsInv` | job.c:990-1002 | preparing and finalizing a pending group keeps the invariant, also if a .prepare fails |
| `JobEnd.FailureAborts` | job.c:923-951 | a job that ends with an error or force-cancelled makes the transaction abort on its behalf, with its own error or -ECANCELED, and every other job is force-cancelled and not changed otherwise |
| `JobEnd.EndWhileAborting` | job.c:928-933 | a job that ends while the transaction aborts fails, and no other job changes |
| `JobEnd.SuccessWaits` | job.c:1036-1047 | a job that succeeded while another is at work becomes waiting, and nothing else changes |
| `JobEnd.LastOnePends` | job.c:1049-1054 | when the last job has succeeded all are pending; they stay so if one is to be finalized by hand, and otherwise are finalized at once on behalf of the last |
| `JobEnd.LastOneCommits` | job.c:990-1002 | if none is to be finalized by hand and every .prepare succeeds, the success of the last job commits all |
| `JobEnd.CancelMeans` | job.c:882-918 | a cancel tells a job at work to stop, by force or not as asked; a soft one comes too late for a job that has returned; a forced one of such a job, and any of a job not started, aborts the transaction on its behalf |
| `JobEnd.FinalizeMeans` | job.c:990-1011 | a finalize command commits all if every .prepare succeeds, and otherwise aborts on behalf of the job named in it; the blame is right if and only if none or the .prepare of that job is the first to fail |
| `JobEnd.OnlyTheCommandCommits` | job.c:1051-1054 | while a job is to be finalized by hand and nothing has gone wrong, only a finalize command commits |
| `JobEnd.NothingIsLeftWaiting` | job.c:1042-1054 | in every run, until something goes wrong or all are committed, some job is still at work or all jobs are pending |
| `JobEnd.CanConclude` | job.c:840-1157 | every run can go on until every job has left the transaction |
| `JobEnd.FinalResult` | job.c:798-877 | unless a .prepare failed: a committed job ends with result 0, an aborted one with its own error, or with -ECANCELED if it had none |
| `JobTxn.Txn.StartAbort` | job.c:923-951 | the loop force-cancels all jobs but one |
| `JobTxn.Txn.AbortTurn` | job.c:952-959 | a turn of the waiting loop finalizes the first job of the list |
| `JobTxn.Txn.PrepareAll` | job.c:177-200 | the loop stops at the first job that fails to prepare |
| `JobTxn.Txn.ApplyAll` | job.c:177-200 | the loop changes every job of the transaction and no other |
| `JobTxn.Txn.FinalizeTxn` | job.c:990-1002 | if every .prepare succeeds, all jobs of the transaction are finalized; otherwise those after the first failure are not prepared and an abort begins on behalf of the job finalized for |
| `JobTxn.Txn.Complete` | job.c:1058-1069 | after its result is updated a job that succeeded joins the waiting ones, and one that failed begins an abort unless one is under way |
| `JobTxn.Txn.Succeed` | job.c:1031-1055 | the job waits; only if every other job of the transaction is complete do they go on together |
| `JobTxn.Txn.FinishWaiting` | job.c:1049-1054 | all jobs become pending, and are finalized at once if and only if none wants to be finalized by hand |
| `JobTxn.Txn.Any` | job.c:1042-1047 | the search over the list |
| `JobTxn.Txn.Cancel` | job.c:1131-1157 | a job not yet started is completed as cancelled, one that has returned and is cancelled by force begins an abort, any other is only told to stop |
| `JobTxn.PrepareCanSplit` | job.c:990-1002 | a run that commits one job of a transaction and aborts the other |
| `JobPause.BlockJob.constructor` | job.c:385-450 | a new job is paused once |
| `JobPause.BlockJob.Start` | job.c:1115-1129 | starting takes that pause away |
| `JobPause.BlockJob.Enter` | job.c:532-555 | exactly when a waiting job is woken |
| `JobPause.BlockJob.Pause` | job.c:684-690 | one more reason to pause; a sleeping job is woken to see it |
| `JobPause.BlockJob.Resume` | job.c:698-708 | one reason less; the last one wakes the job |
| `JobPause.BlockJob.DrainedBegin` | blockjob.c:93-97 | a drained section is one reason to pause |
| `JobPause.BlockJob.DrainedEnd` | blockjob.c:123-127 | the counter stays accounted for, and a job without a reason to pause is woken |
| `JobPause.BlockJob.UserPause` | job.c:716-727 | exactly when it succeeds, and its effect |
| `JobPause.BlockJob.ResetIoStatus` | blockjob.c:557-565 | the assertion on a user pause never fails |
| `JobPause.BlockJob.UserResume` | job.c:734-752 | exactly when it succeeds; the pause counter is never the reason to refuse |
| `JobPause.BlockJob.HandleError` | blockjob.c:580-624 | which action is taken; a stop is a user pause and the first error stays visible |
| `JobPause.BlockJob.Cancel` | job.c:882-918 | a user pause and an error status are lifted, the counter stays accounted for, the job is woken |
| `JobPause.BlockJob.Sleep` | job.c:644-676 | the job sleeps if and only if it is neither force-cancelled nor to pause |
| `JobPause.BlockJob.TimerFires` | job.c:378-383 | the job is woken |
| `JobPause.BlockJob.PausePoint` | job.c:603-636 | the job stops if and only if it has to pause and is not force-cancelled |
| `JobPause.BlockJob.Wake` | job.c:572-600 | a woken job runs on and is no longer paused |
| `JobPause.BlockJob.Return` | job.c:1096-1113 | the accounting outlives the run |
| `JobPause.BlockJob.Exit` | job.c:1075-1090 | the accounting outlives the job |

## Left out

- Drain polling, graph locks, coroutine switching and bottom halves: operations are atomic, and dropped references wait in a multiset; only the balance of the drain counters is modelled.
- The order of the parents and children lists: every order is allowed.
- GraphOps.BlockLayer.AttachChildNoperm: whether the AioContexts can be matched is a parameter; that a failing transaction moves them back is not modelled.
- GraphOps.BlockLayer.RootUnrefChild: does not try to move the node back to the main AioContext.
- bdrv_refresh_limits, op blockers, open flags and the drivers' own permission state: they are not part of the graph that a transaction restores.
- GraphOps.BlockLayer.SetBackingHd: the answer of bdrv_inherits_from_recursive is a parameter.
- bdrv_replace_child_bs: it adds no harder property than replacing a node.
- Reopening, opening, option inheritance, file names and formats in block.c: string and dictionary work.
- Compression and the finite size of the buffers in rebase; target backing files, salvage, copy offloading, bitmaps and progress output in convert.
- The alignment in is_allocated_sectors is used through a remainder instead of a bit mask; the two agree because the source asserts that it is a power of two.
- Exclusive: a CPU leaves the list only while it is idle.
- Job and transaction reference counts, events, progress and names; jobs that fail while they are created; jobs that join a transaction after it has begun to complete.
- JobPause.BlockJob.Cancel: the entering of the job that follows every cancellation is part of the same step.
- Command parsing, printing and the other top-level programs.
