# A verified model of the engine's concurrent and transactional cores

This project models, in Dafny, the parts of the QEMU engine and its host application whose
correctness rests on arguments that span many functions, and proves those arguments.

- `Options.dfy`: the option type.
- `Exclusive.dfy`, `ExclusiveCalls.dfy`, `WorkQueue.dfy`: the stop-the-world protocol between
  `start_exclusive` / `end_exclusive` and `cpu_exec_start` / `cpu_exec_end`, as a step relation over any
  number of CPUs and as histories of calls, and the per-CPU work queues on top of it.
- `Permissions.dfy`, `BlockGraph.dfy`, `GraphSearch.dfy`, `PermRefresh.dfy`, `Loosening.dfy`,
  `ChildPerms.dfy`: the block graph, its searches, the default permission policy, the one-pass refresh of
  permissions and what every edge carries after it.
- `GraphOps.dfy`, `GraphRuns.dfy`, `GraphEffects.dfy`, `FrozenChains.dfy`: what the graph operations may
  do, what every finite run of them keeps, what they do to links and chains, and frozen backing chains. The specification of an operation does not
  mention its algorithm: either the edited graph with the one consistent assignment of permissions, or,
  exactly when there is none, the graph from before.
- `BlockLayer.dfy`: the operations themselves, as a class that edits its graph in place, logs every
  edit, undoes the log or commits it, and counts references along the way.
- `AioSpread.dfy`, `AioContext.dfy`: moving nodes, jobs and backends to another AioContext. Linked things
  share one context: changing the context of a node or a backend, attaching an edge and undoing that keep
  it so, and under it a change moves everything connected.
- `JobStates.dfy`, `JobTxns.dfy`, `JobErrors.dfy`, `JobOutcomes.dfy`, `JobMixing.dfy`, `JobLayer.dfy`,
  `JobPause.dfy`: background jobs, their status automaton, their transactions and how what happened to the
  jobs decides the outcome, the loops over them, and pausing.
- `GzipHeader.dfy`, `Gunzip.dfy`: the streaming gunzip.
- `AllocationMap.dfy`: the `map` and `alloc` commands.

`dafny verify dfyconfig.toml` checks everything.

## How it is modelled

- Lists whose order does not matter (parents, children, members of a transaction) are sets or maps, and
  loops over them pick the next entry arbitrarily, so the results hold for every order.
- Shared accesses of the exclusive-section protocol are sequentially consistent and interleave freely;
  a condition variable may wake a sleeper without a signal.
- Drivers are parameters: their permission policy and veto (`Env`), what `prepare`, `cancel` and `run`
  return. The only promises taken from them are that `cancel` answers true when it is forced or the job
  is not ready, that `job_transition_to_ready` is called at most once, and that `bdrv_close` unfreezes
  the node's children.
- In the job model the functions of the main thread are atomic, except that the loop of
  `job_completed_txn_abort_locked` interleaves with everything else whenever it waits for a member.
  Every assertion of the code is a conjunct of the field `ok`, and `AssertionsHold` says it stays true.
  Jobs join a transaction before it is decided, and `job_cancel_locked` is not called on an unstarted job
  that has already completed; `job_early_fail` is called on a new job whose transaction is not aborting.
  No verb is applied to a member of a transaction whose abort loop is in the middle of finalizing it,
  since that loop holds the main thread. These are what the code's assertions ask of its callers.
- References that callers hold, and the ends of chains given to the freezing functions, are ghost state.
- `InputStream.Read`, `Image.IsAllocated` and the decoder are arbitrary within their contracts, so that
  every way of splitting input and every failure is covered.

## Findings

- A transaction of jobs can end with one job committed and the others aborted. It happens exactly when a
  member other than the job that triggers finalization cannot prepare: `job_completed_txn_abort_locked`
  leaves its own job alone, and that job, without an error, commits. `MixedOutcome` and `OutcomeByEvents`
  state the condition, `MixedOutcomeHappens` gives a run.
- Loosening permissions never causes a conflict, but it can be refused: removing the only user that
  resizes an image of unaligned size fails the alignment check for the remaining writer
  (`LooseningCanFail`). `LooseningSucceedsIff` says, for the whole pass and on permissions that can be
  computed beforehand, that it succeeds exactly when this check and the drivers' vetoes pass.
- The gzip parser ignores the reserved bits of FLG, which section 2.3.1.2 of RFC 1952 tells decoders to
  reject.

## Model

| member | source | states |
|---|---|---|
| ExclusiveSections.StepKeeps | engine/qemu-wasm/cpu-common.c:186-324 | every step of every CPU, in any order, keeps one invariant over the lock, the flags, the nesting counts and pending_cpus |
| ExclusiveSections.ScanKeeps | engine/qemu-wasm/cpu-common.c:211-224 | each turn of the starter's scan keeps the count of the CPUs flagged so far, although CPUs start and stop running meanwhile |
| ExclusiveSections.SpuriousKeeps | engine/qemu-wasm/cpu-common.c:188-193 | a sleeper that wakes without a signal does no harm |
| ExclusiveSections.RunKeeps | engine/qemu-wasm/cpu-common.c:186-324 | the invariant holds in every reachable state of any number of CPUs |
| ExclusiveSections.MutualExclusion | engine/qemu-wasm/cpu-common.c:197-249 | while a CPU's exclusive_context_count is positive, no other CPU is between cpu_exec_start and cpu_exec_end, awaited, or in a section of its own |
| ExclusiveSections.PendingCount | engine/qemu-wasm/cpu-common.c:211-247 | pending_cpus is 0 exactly when nobody owns a section, and then no has_waiter flag is set; after the scan it is 1 plus the number of flags |
| ExclusiveSections.NoMissedWakeup | engine/qemu-wasm/cpu-common.c:188-193 | whoever sleeps on exclusive_resume or exclusive_cond still has its condition pending or its wakeup coming |
| ExclusiveSections.NoDeadlock | engine/qemu-wasm/cpu-common.c:188-324 | in every reachable state a blocked CPU leaves another one that can step, runs guest code or is inside a section |
| ExclusiveSections.BlockedIsStuck | engine/qemu-wasm/cpu-common.c:188-324 | what counts as blocked there really cannot step: it waits for the lock somebody holds, or sleeps |
| ExclusiveCalls.CountIsOpenCalls | engine/qemu-wasm/cpu-common.c:197-249 | in every state of every run, a CPU's exclusive_context_count is the number of its start_exclusive calls that have returned less its end_exclusive calls, and it is in a section exactly while that is not zero |
| ExclusiveCalls.OpenSectionIsAlone | engine/qemu-wasm/cpu-common.c:197-249 | while a CPU has more starts than ends, it is in its section with pending_cpus 1 and every other CPU is stopped, with no section of its own open |
| ExclusiveCalls.NestedEndKeepsSection | engine/qemu-wasm/cpu-common.c:238-243 | an end_exclusive that leaves a section open takes one off the nesting, and its CPU stays in the section with every other CPU stopped |
| ExclusiveCalls.SectionEndsWithOutermostCall | engine/qemu-wasm/cpu-common.c:238-249 | pending_cpus goes back to 0 only inside an end_exclusive whose call brought the CPU from one open section to none |
| ExclusiveCalls.CallsRunToTheirEnd | engine/qemu-wasm/cpu-common.c:186-324 | a call once made runs through its own steps to its own end; the calls around guest code take the lock only if a section is pending, and a CPU sleeps only while what it waits for has not happened |
| ExclusiveCalls.CallsOffered | engine/qemu-wasm/cpu-common.c:197-324 | outside a CPU can start a section or guest code, in a section it can nest, and end unless it still counts as running; in guest code it can leave |
| ExclusiveCalls.RunHasHistory | engine/qemu-wasm/cpu-common.c:186-324 | every run is the run of some calls, so the statements about calls cover all runs |
| WorkQueues.NextKeeps | engine/qemu-wasm/cpu-common.c:139-184 | posting, taking, running, completing and broadcasting work keep the queue invariant, interleaved with every step of the exclusive-section protocol |
| WorkQueues.RunsOnceInOrder | engine/qemu-wasm/cpu-common.c:340-377 | what was posted on a CPU is what it ran, then what it holds, then what is queued: nothing lost, repeated or reordered, under any interleaving |
| WorkQueues.SyncCallers | engine/qemu-wasm/cpu-common.c:149-172 | do_run_on_cpu returns only after its function has run, and its caller does not sleep on once the consumer that ran the item has marked it done and gone round |
| WorkQueues.NobodyLeftBehind | engine/qemu-wasm/cpu-common.c:340-377 | when the queues are empty and the consumers have gone round, every synchronous item posted is done, and its caller is not asleep and returns from its next test |
| WorkQueues.ExclusiveItemsRunAlone | engine/qemu-wasm/cpu-common.c:353-364 | the function of an exclusive item runs only while every other CPU is stopped |
| WorkQueues.ExclusiveOnlyInSection | engine/qemu-wasm/cpu-common.c:353-367 | an item marked exclusive is never run in another way |
| WorkQueues.OneSectionPerItem | engine/qemu-wasm/cpu-common.c:353-367 | every exclusive item runs in a section that its CPU opened for it alone, and the CPU has left that section before it goes on with its queue |
| Permissions.DefaultPermsMonotone | engine/qemu-wasm/block.c:2740-2888 | the default policy is monotone: a parent that needs no more and shares no less passes on no more and shares no less, for every role |
| Permissions.PolicyTable | engine/qemu-wasm/block.c:2740-2888 | the whole policy, permission by permission, for filtered, backing, metadata and data children |
| Permissions.StorageProtects | engine/qemu-wasm/block.c:2787-2865 | a node that opens an image for storage always protects its metadata from writers and from resizing |
| BlockGraph.RecurseHasChild | engine/qemu-wasm/block.c:4326-4342 | the recursive search for a child answers reachability |
| BlockGraph.ReachesIsPath | engine/qemu-wasm/block.c:4326-4342 | reachability, defined by closed sets, is the existence of a path of edges |
| GraphSearch.TopologicalDfs | engine/qemu-wasm/block.c:2268-2302 | on an acyclic graph, across calls that share `found`: no duplicates, parents before children, and exactly the old list plus what is reachable from the new root |
| GraphSearch.CollectSubtrees | engine/qemu-wasm/block.c:2599-2611 | the list for several roots is topological and holds exactly their subtrees |
| GraphSearch.ShouldUpdateChild | engine/qemu-wasm/block.c:5272-5349 | the breadth-first search says no exactly for stay-at-node edges and for edges inside the subtree of `to` |
| PermRefresh.PassStep | engine/qemu-wasm/block.c:2489-2589 | one turn of the pass: a node without conflict whose checks pass gets its children set, and everything settled before stays settled |
| PermRefresh.PassFails | engine/qemu-wasm/block.c:2568-2589 | when the pass stops, no assignment of permissions below the list is consistent |
| PermRefresh.RefreshedUnique | engine/qemu-wasm/block.c:2568-2589 | there is at most one consistent assignment, so the order of the list does not matter |
| PermRefresh.RefreshableIff | engine/qemu-wasm/block.c:2568-2589 | decided before the call: permissions can be refreshed exactly when, with those that plain propagation gives, no node has conflicting parents and every node passes its checks; the propagated graph is then the refreshed one |
| Loosening.LooseningSucceedsIff | engine/qemu-wasm/block.c:2489-2589 | after an edge was removed or its needs shrunk, every edge below needs no more and shares no less, no node has a conflict, and the refresh succeeds exactly when, with the permissions that propagation gives, no node fails the alignment check or is vetoed by its driver |
| Loosening.LooseningNeverConflicts | engine/qemu-wasm/block.c:2568-2589 | at every node the pass comes to on the way there is no conflict, and it stops exactly on the alignment check or a veto |
| Loosening.UnrefLoosens | engine/qemu-wasm/block.c:3285-3310 | bdrv_root_unref_child updates the permissions below the lost edge exactly when nothing of that kind is in the way, and otherwise only drops the edge |
| Loosening.SetPermLoosens | engine/qemu-wasm/block.c:2687-2719 | bdrv_child_try_set_perm with looser needs succeeds exactly when nothing of that kind is in the way |
| Loosening.LooseningCanFail | engine/qemu-wasm/block.c:2514-2528 | loosening can be refused nevertheless: a writer on an image of unaligned size, after the user that resized it has gone |
| ChildPerms.SettledByRole | engine/qemu-wasm/block.c:2251-2262 | the edges of a refreshed node, permission by permission, from what the users of the node need and share and the edge's role; a target opened with force-share is shared for everything |
| ChildPerms.StepSetsPermissions | engine/qemu-wasm/block.c:2489-2589 | after every successful operation, every edge below the nodes it is about carries exactly the permissions of that table: copy-on-write edges at most consistent reads and only if a user of the overlay needs them, metadata never shared for writing or resizing while the owner is active |
| ChildPerms.StepChangesNoOthers | engine/qemu-wasm/block.c:2325-2341 | no operation changes the needs of an edge that it neither sets nor finds below those nodes |
| GraphOps.AddEdgeAcyclic | engine/qemu-wasm/block.c:3184-3188 | a new edge makes no cycle when the check of bdrv_attach_child_noperm passes |
| GraphOps.RedirectAcyclic | engine/qemu-wasm/block.c:5391-5422 | redirecting edges outside the subtree of `to` keeps the graph acyclic and that subtree unchanged |
| GraphOps.RefreshKeepsNoConflicts | engine/qemu-wasm/block.c:2568-2589 | refreshing a closed set of nodes that contains everything new leaves no conflict anywhere |
| GraphOps.RefreshKeepsWriters | engine/qemu-wasm/block.c:2489-2512 | refreshing a closed set of nodes that contains everything new leaves nobody who may write to a node that is read-only or inactive |
| GraphOps.TransactKeeps | engine/qemu-wasm/block.c:2667-2685 | a transaction whose edit is sound keeps the graph acyclic, free of conflicts and free of writers on read-only nodes, whether it commits or aborts |
| GraphOps.StepKeeps | engine/qemu-wasm/block.c:3209-3310 | attach, root attach, set-perm, unref, set-backing, replace and append, succeeding or failing, keep the graph acyclic, free of conflicts, without a writer on a node that is not writable, and with one chain link per node |
| GraphRuns.RunStaysSound | engine/qemu-wasm/block.c:3209-3310 | in every finite run of these operations no node has two parents where one needs what the other does not share, nobody may write to a node that is read-only or inactive, and there is no cycle |
| GraphRuns.StepFrame | engine/qemu-wasm/block.c:5413-5417 | no operation, successful or not, changes a frozen link, apart from its permissions |
| GraphRuns.FrozenChainSurvives | engine/qemu-wasm/block.c:5852-5932 | while a chain is frozen it stays, over any run, the one chain from its top to its base |
| GraphRuns.ChainUnique | engine/qemu-wasm/block.c:8477-8487 | with one chain link per node, the chain between two nodes is unique |
| GraphEffects.StepEffect | engine/qemu-wasm/block.c:3209-3310 | a successful operation does to the links, edge by edge, what it is for: the new edge with its ends and role, the one that is gone, the parents that follow a replacement and those that stay, and no other edge changes but in its permissions |
| GraphEffects.SetBackingEffect | engine/qemu-wasm/block.c:3447-3563 | after a change of the backing link to a node, the new edge is the only chain link and leads there, for copy-on-write or as a filter's filtered and primary child; after removing it there is none |
| GraphEffects.AppendEffect | engine/qemu-wasm/block.c:5534-5607 | after an append the new edge is the only chain link of the new node and leads to the old top, in the role of its driver, and exactly the parents of the old top that may move point at the new node |
| GraphEffects.AppendInsertsIntoChain | engine/qemu-wasm/block.c:5534-5607 | the chain of the old top is the tail of the chain of the new node, and every chain that reached the old top through a link that moves now goes through the new node |
| FrozenChains.FilterOrCowChild | engine/qemu-wasm/block.c:8477-8487 | finds the chain link of a node, or says that it has none |
| FrozenChains.IsBackingChainFrozen | engine/qemu-wasm/block.c:5853-5872 | the walk finds a frozen link exactly when there is one, also without a base, and it ends |
| FrozenChains.MayFreezeChain | engine/qemu-wasm/block.c:5893-5900 | the walk says yes exactly when no link leads to a node that must never be frozen |
| FrozenChains.ThawUndoesFreeze | engine/qemu-wasm/block.c:5918-5932 | unfreezing a chain that was frozen gives the graph from before |
| FrozenChains.FrozenInBetween | engine/qemu-wasm/block.c:5881-5932 | freeze, any run of operations, unfreeze: every link of the chain is the one it was, up to its permissions |
| BlockLayers.UnreferencedHasNoParents | engine/qemu-wasm/block.c:7245-7255 | when refcnt reaches 0, no edge points at the node and nobody is owed a reference to it |
| BlockLayers.RefsPositive | engine/qemu-wasm/block.c:2411-2437 | in a transaction, and while it is undone, no refcnt reaches zero: a node that loses a parent keeps a reference in the log |
| BlockLayers.AbortBooks | engine/qemu-wasm/util/transactions.c:60-79 | undoing the last action gives the graph of before it and keeps the reference count of every node equal to its edges plus what is owed |
| BlockLayers.CommitBooks | engine/qemu-wasm/util/transactions.c:81-100 | committing the last action keeps the reference counts right |
| BlockLayers.BlockLayer.constructor | engine/qemu-wasm/block.c:410-439 | the empty block layer satisfies the invariant |
| BlockLayers.BlockLayer.NewNode | engine/qemu-wasm/block.c:410-439 | a new node starts with one reference, which the caller owns |
| BlockLayers.BlockLayer.GetCumulativePerm | engine/qemu-wasm/block.c:2613-2629 | the loop computes the union of what the parents need and the intersection of what they share |
| BlockLayers.BlockLayer.ParentPermsConflict | engine/qemu-wasm/block.c:2225-2248 | the nested loop finds a conflict exactly when some parent needs what another does not share |
| BlockLayers.BlockLayer.ChildSetPerm | engine/qemu-wasm/block.c:2325-2341 | sets and logs the permissions of one edge |
| BlockLayers.BlockLayer.NodeRefreshPerm | engine/qemu-wasm/block.c:2489-2558 | succeeds exactly when the node's checks pass, and then sets all its child edges to the policy's result; with the default policy that is the table of roles over what the node's users need and share |
| BlockLayers.BlockLayer.DoRefreshPerms | engine/qemu-wasm/block.c:2568-2589 | one pass over a topological list: on success the graph is the consistent refreshed one, on failure there is none |
| BlockLayers.BlockLayer.RefreshPerms | engine/qemu-wasm/block.c:2667-2685 | the same for the subtrees of given roots |
| BlockLayers.BlockLayer.ReplaceChildTran | engine/qemu-wasm/block.c:2459-2479 | redirects an edge; the old target keeps its reference in the log |
| BlockLayers.BlockLayer.ReplaceChildAbort | engine/qemu-wasm/block.c:2411-2437 | gives the logged reference back to the edge; the one it drops is never the last, so nothing is deleted |
| BlockLayers.BlockLayer.AttachChildCommon | engine/qemu-wasm/block.c:3056-3158 | adds an edge with its own reference to the child |
| BlockLayers.BlockLayer.AttachChildCommonAbort | engine/qemu-wasm/block.c:3000-3034 | removes the edge and schedules the release of its reference |
| BlockLayers.BlockLayer.RemoveChild | engine/qemu-wasm/block.c:5369-5381 | detaches an edge that is freed when the transaction commits |
| BlockLayers.BlockLayer.TranAbort | engine/qemu-wasm/util/transactions.c:60-79 | running the callbacks in reverse order restores the graph at the start of the transaction exactly |
| BlockLayers.BlockLayer.TranCommit | engine/qemu-wasm/util/transactions.c:81-100 | keeps all edits and frees the removed edges |
| BlockLayers.BlockLayer.RootAttachChild | engine/qemu-wasm/block.c:3209-3238 | does what the specification of root attach allows, leaves the graph as it was on failure, keeps all invariants and consumes the caller's reference either way |
| BlockLayers.BlockLayer.AttachChildNoperm | engine/qemu-wasm/block.c:3171-3197 | refuses exactly the edges that would make a cycle |
| BlockLayers.BlockLayer.AttachChild | engine/qemu-wasm/block.c:3251-3282 | likewise for attach, with the reference to the child consumed whatever the outcome; the new edge has the ends and the role that were asked for |
| BlockLayers.BlockLayer.ChildTrySetPerm | engine/qemu-wasm/block.c:2687-2719 | changes the needs of an edge or leaves the graph as it was, and reports failure only when it was not a loosening |
| BlockLayers.BlockLayer.RootUnrefChild | engine/qemu-wasm/block.c:3285-3310 | the edge goes for good even if the permissions cannot be refreshed; its reference is scheduled for release, and no other count changes |
| BlockLayers.BlockLayer.ReplaceNodeNoperm | engine/qemu-wasm/block.c:5391-5422 | redirects exactly the movable parents, or refuses exactly when one must not be skipped or is frozen |
| BlockLayers.BlockLayer.ReplaceNodeCommon | engine/qemu-wasm/block.c:5437-5492 | a whole replacement: refreshed at both nodes, or the graph exactly as it was |
| BlockLayers.BlockLayer.AppendNode | engine/qemu-wasm/block.c:5534-5607 | a whole append: the new node has the old top as its only chain link, in the role of its driver, with the parents moved and refreshed, or the graph is exactly as it was |
| BlockLayers.BlockLayer.SetBackingNoperm | engine/qemu-wasm/block.c:3446-3531 | refuses exactly nodes without driver or backing support, frozen links and cycles; otherwise cuts the old link and adds the new one |
| BlockLayers.BlockLayer.SetBackingHd | engine/qemu-wasm/block.c:3541-3563 | a whole change of the backing link: the given node is the target of the only chain link, or there is none, refreshed, or the graph is exactly as it was |
| BlockLayers.BlockLayer.UnrefNode | engine/qemu-wasm/block.c:7245-7255 | drops one reference; the last one deletes the node and its child edges and nothing else |
| BlockLayers.BlockLayer.DeleteNode | engine/qemu-wasm/block.c:5192-5220 | the loop of bdrv_close lets every child go and leaves the other edges' links alone |
| BlockLayers.BlockLayer.RunScheduledUnrefs | engine/qemu-wasm/block.c:7257-7281 | ends, and afterwards each refcnt is the number of edges at the node plus the references callers hold, and positive |
| BlockLayers.BlockLayer.FreezeBackingChain | engine/qemu-wasm/block.c:5881-5910 | freezes all links or none, and succeeds exactly when no link is frozen or leads to a node that must not be |
| BlockLayers.BlockLayer.UnfreezeBackingChain | engine/qemu-wasm/block.c:5918-5932 | clears the flag on exactly the links of the chain, each of which was frozen |
| AioSpread.EverythingArrivesIff | engine/qemu-wasm/block.c:7754-7808 | exactly when a successful change brings everything connected into the new context: no link leads from something connected that is there already to something that is neither there nor reached |
| AioSpread.UniformMovesAll | engine/qemu-wasm/block.c:7810-7889 | if no connected node is in the new context yet, the change reaches exactly everything connected |
| AioSpread.MixedContextsStayBehind | engine/qemu-wasm/block.c:7767-7778 | without that a connected node can stay behind, because the recursion stops at a node that is in the new context already |
| AioSpread.MoveKeepsUniform | engine/qemu-wasm/block.c:7824-7889 | a change of context from any node or owner keeps both ends of every link in one context |
| AioContext.SearchComplete | engine/qemu-wasm/block.c:7767-7808 | when the recursion is done, the logged nodes, jobs and backends are exactly those the change reaches, and no owner objects |
| AioContext.AlignedIsUniform | engine/qemu-wasm/block.c:3056-3158 | once the ends of a new edge are aligned and the edge is in place, both ends of every link are in one context |
| AioContext.Contexts.ChangeNode | engine/qemu-wasm/block.c:7767-7808 | terminates on any graph, diamonds included, by using up unvisited edges; it fails only if some reached owner objects |
| AioContext.Contexts.ChangeParent | engine/qemu-wasm/block.c:7675-7701 | an owner without handler, or an inflexible backend, stops the change; otherwise the search goes on at the owner |
| AioContext.Contexts.ChangeJob | engine/qemu-wasm/blockjob.c:147-171 | a job takes the nodes of all its edges along |
| AioContext.Contexts.ChangeChild | engine/qemu-wasm/block.c:7703-7713 | the search goes on at the edge's node, once per edge |
| AioContext.Contexts.Commit | engine/qemu-wasm/block.c:7726-7747 | exactly the logged contexts change, each node while it is drained |
| AioContext.Contexts.Clean | engine/qemu-wasm/block.c:7715-7724 | every drain that was begun is ended once |
| AioContext.Contexts.TryChange | engine/qemu-wasm/block.c:7824-7889 | succeeds exactly when nobody reached objects, and then everything reached and nothing else has the new context; on failure nothing changed; drains are balanced and uniform contexts stay uniform either way |
| AioContext.Contexts.SetBackendContext | engine/qemu-wasm/block/block-backend.c:2456-2481 | succeeds exactly when nobody else connected objects, and then the backend ends in the new context with everything reached; otherwise nothing changes; contexts stay uniform |
| AioContext.Contexts.AlignContexts | engine/qemu-wasm/block.c:3082-3115 | attaching an edge brings its ends into one context by moving everything on the child's side, or on the owner's only if the child's cannot move, and fails, changing nothing, only if neither side can move |
| AioContext.Contexts.UndoAlign | engine/qemu-wasm/block.c:3011-3030 | undoing the attach moves that side back: the assertion that this always succeeds holds, and every context is the one from before |
| JobStates.AllowedByColumns | engine/qemu-wasm/job.c:58-72 | the transition table, read by columns: what can lead to each status; no transition leads out of the completed ones |
| JobStates.VerbTable | engine/qemu-wasm/job.c:74-84 | what the verbs are for: cancel until the job aborts or concludes, finalize where it may conclude with success, dismiss where only dismissal is left |
| JobStates.UpdateRc | engine/qemu-wasm/job.c:802-813 | a job has no error afterwards exactly when it had none and was not cancelled by force |
| JobTxns.StepKeeps | engine/qemu-wasm/job.c:607-1173 | every step of create, start, pause, ready, return, exit, cancel, finalize, dismiss, early failure and abort loop keeps the invariant over all jobs and transactions |
| JobTxns.VerbIsSafe | engine/qemu-wasm/job.c:75-85 | the verb table lets job_user_cancel_locked through only where job_cancel_locked's assertion holds |
| JobTxns.AbortKeeps | engine/qemu-wasm/job.c:936-964 | when a job fails or is cancelled by force, every other member is on its way to the abort callback |
| JobTxns.AllPendingKeeps | engine/qemu-wasm/job.c:1047-1066 | PENDING is entered only when every member has completed with ret 0, and then by all of them together |
| JobTxns.FinalizeAllKeeps | engine/qemu-wasm/job.c:1006-1018 | if everybody could prepare, every member is committed |
| JobTxns.PrepFailKeeps | engine/qemu-wasm/job.c:1006-1018 | if somebody could not prepare, the transaction aborts with that job and the trigger on record |
| JobTxns.FinalizeFacts | engine/qemu-wasm/job.c:845-885 | finalizing aborts exactly when there is an error or a forced cancel, and the job leaves its transaction |
| JobTxns.AssertionsHold | engine/qemu-wasm/job.c:208-221 | over every run, no assertion fails: transition table, completion once, finalization of completed jobs only |
| JobTxns.AbortLoopAsserts | engine/qemu-wasm/job.c:966-970 | the abort loop waits only for members that have been asked to stop |
| JobTxns.PendingTogether | engine/qemu-wasm/job.c:1047-1066 | in a transaction that does not abort, one pending member means all are, without errors |
| JobTxns.FinalizedOnce | engine/qemu-wasm/job.c:845-885 | a job is finalized at most once; a started job that has left its transaction, dismissed or not, has been finalized exactly once |
| JobTxns.OutcomesAgree | engine/qemu-wasm/job.c:891-976 | unless somebody failed to prepare, commit and abort are never mixed at any point: once one job is finalized, every started one has its outcome, or is still on the list of an aborting transaction |
| JobTxns.TransactionOutcome | engine/qemu-wasm/job.c:936-1018 | when the list is empty and nobody failed to prepare, every started job of the transaction was aborted if it aborts or any of them failed or was cancelled by force, and otherwise every one was committed |
| JobTxns.MixedOutcome | engine/qemu-wasm/job.c:955-971 | after a failure to prepare, the outcome is mixed exactly when the failing job is not the one that finalized the transaction: that one commits, every other started job aborts |
| JobTxns.NothingUndone | engine/qemu-wasm/job.c:300-320 | over every run, a completed job stays completed, nobody rejoins a transaction, a cancel and a driver's error stay, and an outcome never changes |
| JobMixing.MixedOutcomeHappens | engine/qemu-wasm/job.c:955-971 | a concrete run in which one of two jobs commits and the other aborts |
| JobOutcomes.OutcomeByEvents | engine/qemu-wasm/job.c:936-1127 | what happened decides the outcome: with the list empty, every started job was aborted if the run of any of them returned an error or any of them was cancelled by force, committed if neither ever happened, and mixed only as said above when a job could not prepare |
| JobOutcomes.BlameByEvents | engine/qemu-wasm/job.c:1006-1018 | somebody is on record for not preparing exactly when the event that finalized the transaction said so, with that job and the trigger |
| JobOutcomes.CalmWithoutFailure | engine/qemu-wasm/job.c:1047-1085 | without a failing run, a forced cancel or a failing prepare, no job of a transaction ever has an error and it never aborts |
| JobErrors.ErrorsHaveCauses | engine/qemu-wasm/job.c:802-813 | over every run, the error of a job is what its own driver returned from run or prepare; failing that, it is -ECANCELED and the job was cancelled by force |
| JobErrors.OwnErrorStays | engine/qemu-wasm/job.c:1122-1127 | the error that a driver's run returned stays the job's error |
| JobErrors.CancelStays | engine/qemu-wasm/job.c:891-929 | a cancel that comes before the run has returned, or a forced one, marks the job for good |
| JobLayers.JobLayer.constructor | engine/qemu-wasm/job.c:54-57 | without jobs the invariant holds |
| JobLayers.JobLayer.CompletedTxnAbort | engine/qemu-wasm/job.c:936-964 | the loop force-cancels exactly the other members |
| JobLayers.JobLayer.TxnApplyFinalize | engine/qemu-wasm/job.c:177-200 | the loop, in any order, finalizes every member once |
| JobLayers.JobLayer.TxnApplyPending | engine/qemu-wasm/job.c:1030-1037 | the loop moves every member on |
| JobLayers.JobLayer.TxnApplyPrepare | engine/qemu-wasm/job.c:979-997 | the loop, in any order, stops at the first member that cannot prepare |
| JobLayers.JobLayer.DoFinalizeLocked | engine/qemu-wasm/job.c:1006-1018 | prepares all and finalizes all, or aborts the transaction |
| JobLayers.JobLayer.EverybodyCompleted | engine/qemu-wasm/job.c:1058-1063 | the loop finds out whether all members have completed; its assertion holds |
| JobLayers.JobLayer.CompletedTxnSuccess | engine/qemu-wasm/job.c:1047-1071 | waits, or moves everybody to PENDING and finalizes when nobody wants to do that by hand |
| JobLayers.JobLayer.CompletedLocked | engine/qemu-wasm/job.c:1074-1085 | aborts or waits, as the return code says |
| JobLayers.JobLayer.JobExit | engine/qemu-wasm/job.c:1091-1106 | is the exit step of the state machine and keeps the invariant |
| JobLayers.JobLayer.JobCancel | engine/qemu-wasm/job.c:1147-1173 | is the cancel step of the state machine and keeps the invariant |
| JobLayers.JobLayer.JobFinalize | engine/qemu-wasm/job.c:1020-1027 | is the finalize step, or an error when the job is not pending |
| JobPause.BlockJob.constructor | engine/qemu-wasm/job.c:412-420 | a new job is paused because it has not started |
| JobPause.BlockJob.ShouldPause | engine/qemu-wasm/job.c:334-337 | there is a reason to pause exactly while the job has not started, its user paused it or a node of it is drained |
| JobPause.BlockJob.Start | engine/qemu-wasm/job.c:1131-1145 | starting takes away one reason and leaves the others |
| JobPause.BlockJob.UserPause | engine/qemu-wasm/job.c:720-731 | pauses once, in the states the verb table allows |
| JobPause.BlockJob.UserResume | engine/qemu-wasm/job.c:738-756 | resumes what the user or an error paused, and clears the I/O status |
| JobPause.BlockJob.IoStatusReset | engine/qemu-wasm/blockjob.c:575-583 | its assertion holds: an I/O status that is not OK means that the job is user-paused |
| JobPause.BlockJob.DrainedBegin | engine/qemu-wasm/blockjob.c:93-97 | adds one reason |
| JobPause.BlockJob.DrainedEnd | engine/qemu-wasm/blockjob.c:123-127 | takes one away; the assertion on the count holds |
| JobPause.BlockJob.CancelEndsPause | engine/qemu-wasm/job.c:906-916 | a cancel ends the user's pause and nothing else; the assertion on the count holds |
| JobPause.BlockJob.HandleError | engine/qemu-wasm/blockjob.c:598-642 | stops exactly for the errors the policy names, pauses once, and keeps the first error as I/O status |
| GzipHeader.HeaderParsed | Bootbox/Bridge/GunzipStream.swift:86-118 | round trip: whatever follows an encoded header, its end is found |
| GzipHeader.HeaderFound | Bootbox/Bridge/GunzipStream.swift:86-118 | an end is found only behind an encoded header |
| GzipHeader.ParserAcceptsHeaders | Bootbox/Bridge/GunzipStream.swift:86-118 | the parser accepts exactly the data that starts with a complete header of section 2.3 of RFC 1952 with method 8, and the end is unique |
| GzipHeader.ReservedBitsAccepted | Bootbox/Bridge/GunzipStream.swift:88-94 | what is accepted has its reserved bits clear, as section 2.3.1.2 of RFC 1952 demands, exactly when the fourth byte is below 32 |
| GzipHeader.ReservedBitExample | Bootbox/Bridge/GunzipStream.swift:88-94 | a header with a reserved bit set is accepted |
| Gunzip.InputStream.Read | Bootbox/Bridge/GunzipStream.swift:68-73 | delivers any non-empty part of what is asked for, or nothing at the end |
| Gunzip.Inflater.Fill | Bootbox/Bridge/GunzipStream.swift:58-75 | for any way reads are short, the buffer holds all that was read, never overruns, and the end of the file is noted only when less than the demand is there |
| Gunzip.Inflater.Need | Bootbox/Bridge/GunzipStream.swift:81-84 | fails exactly when the file is too short |
| Gunzip.Inflater.SkipExtra | Bootbox/Bridge/GunzipStream.swift:94-100 | ends where the extra field ends, or fails exactly when it is incomplete |
| Gunzip.Inflater.SkipString | Bootbox/Bridge/GunzipStream.swift:101-114 | ends after the first NUL, or fails exactly when there is none |
| Gunzip.Inflater.ParseHeader | Bootbox/Bridge/GunzipStream.swift:86-118 | accepts exactly complete headers, with the right error otherwise, and never with the end of the file already seen |
| Gunzip.Inflater.StripHeader | Bootbox/Bridge/GunzipStream.swift:120-139 | moves exactly the bytes behind the header to the front |
| Gunzip.Inflater.Refill | Bootbox/Bridge/GunzipStream.swift:149-159 | overwrites the buffer only when it is drained, and leaves it empty only at the end of the data |
| Gunzip.Inflater.Process | Bootbox/Bridge/GunzipStream.swift:161-163 | the decoder is offered exactly the next bytes and consumes as many as it is ready for; FINALIZE comes only after the last one |
| Gunzip.Inflater.Decode | Bootbox/Bridge/GunzipStream.swift:141-184 | finishes, fails or is still running exactly as the first decoder status other than more says |
| Gunzip.Inflater.Inflate | Bootbox/Bridge/GunzipStream.swift:86-184 | for every file, every way reads are short and every way the decoder consumes, it gets exactly the bytes behind the header, in order; the first call that does not ask for another one decides between success and failure, and a decoder that always consumes makes progress |
| AllocationMap.TilingUnique | engine/qemu-wasm/qemu-io-cmds.c:2265-2301 | there is only one tiling of an image by extents that alternate, so the printed map does not depend on the pieces |
| AllocationMap.Image.IsAllocated | engine/qemu-wasm/qemu-io-cmds.c:2199-2202 | reports non-empty pieces of one status, or nothing at the end |
| AllocationMap.Image.MapIsAllocated | engine/qemu-wasm/qemu-io-cmds.c:2236-2263 | joins pieces of one status; without errors the extent is as long as it can be |
| AllocationMap.Image.MapF | engine/qemu-wasm/qemu-io-cmds.c:2265-2301 | the extents tile the image in order and expand to its map; without errors they cover it all and alternate, and the image ending early is -EIO |
| AllocationMap.Image.AllocF | engine/qemu-wasm/qemu-io-cmds.c:2175-2223 | the sum is the number of allocated bytes in the part of the range that exists, and the count shrinks to it |

## Left out

- vCPU hot-plug: the list of CPUs does not change during a run of the exclusive-section protocol.
- `bdrv_replace_child_bs`, `detach_subchain` and the reopen queue: they leave the checks for cycles and frozen links to their callers.
- Inactivating and reopening nodes: the open flags of a node do not change during a run of graph operations.
- Drain counters and locks of the block layer, `inherits_from` links, limits and filenames: bookkeeping beside the graph.
- Context moves interleaved with graph edits: `BlockLayer` edits the graph with all nodes in one context, and `Contexts` moves contexts over a given set of links.
- Commit and abort callbacks of drivers on permission changes (`bdrv_set_perm`, `bdrv_abort_perm_update`): only their veto is modelled.
- BlockLayers.BlockLayer.DeleteNode: dirty bitmaps, notifiers and option dictionaries of the node are not modelled; that its driver has unfrozen the children is taken from the driver's contract.
- AioContext.Contexts.TryChange: the AioContext locks and the driver callbacks of a context change are not modelled.
- Reference counts of jobs and of transactions: a transaction is remembered as long as one of its jobs is.
- Termination of `job_finish_sync_locked`: it depends on the event loop; the model only says what holds while it waits.
- JobPause.BlockJob.Resume: waking the coroutine and the sleep timer are not modelled.
- `job_yield` and `job_sleep_ns`: they only add ways to reach the pause point.
- DEFLATE, the gzip trailer and writing the output: the decoder is an arbitrary consumer, and I/O errors of the output file are not modelled.
- Gunzip.Inflater.Inflate: the decoding loop is followed for any finite number of decoder calls; a decoder that never ends is not excluded.
- Parsing of command arguments and formatting of the printed lines in `map` and `alloc`.
