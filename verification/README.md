# A verified model of Parrot's serving core

Parrot serves LLM requests out of a shared, forked KV cache. This project models the logic
that makes this safe and proves it for every input, every run and every interleaving:

* **Prefix sharing.** Tasks walk a chain of Fill nodes that ends in one Gen node, reuse the
  contexts cached for the longest known prefix, fork the rest, and free leaf first. All
  coroutines together are one labelled step system (`Execution`): set a variable, bind,
  advance, wait, complete, fail, finish, expire a pin. The cache is indistinguishable from no
  cache (`SharingTheorems.SharingPreservesMeaning`).
* **Paged KV memory.** The block allocator under a tree of forked contexts, its padding, the
  block tables strided out of it, and the split of those tables at the shared prompt.
* **Both together.** `EngineLink` runs the serve layer against one paged memory per engine and
  shows that every block table addresses the right slots and that an engine's memory raises
  exactly when its block pool has no room: it never misses a parent, never extends or frees a
  context above a child, never frees a block twice. `KvContents` adds the tokens: reading through
  the block table of a task's path finds the tokens of the task's own prompt
  (`KvContents.SlotsHoldPrompt`).
* **Two schedulers.** The engine's FIFO batcher with preemption and the cluster's grouping
  scheduler, each over whole runs.
* **The request graph.** Variable ids, the graph that requests build, and backward activation.
* **Three self-contained algorithms.** The online common-prefix index, the template language
  spoken by frontend and server, and chat-message merging.

Where the source updates objects in place there is a class (`*Object.dfy`, `RecyclePool`,
`PrefixMatcher`, `ChunkedRequest`, `TextContext`) whose loops are proved equal to a
specification function; what the source promises is then proved about these functions. A
raised Python exception is `Raised`, `None` or `false`.

`dafny verify dfyconfig.toml` checks the whole project.

## Hypotheses

* `fuse_fill` is off (the default), requests have one output, the traversal meets no
  native-function producer, and at most one of `graph_group` and `ctx_group` is on.
* The set of engines is fixed. A free call takes effect at the engine when it is issued, and a
  posted request reaches its engine before the serve layer gives up on it;
  `EngineLink.LateDelivery` shows what a later arrival would do.
* An engine runs a Fill in one iteration, with the tokens of its text, and answers it after that;
  a tokenizer is any function from texts to token lists.
* Engines use the shared-prompt attention, whose table builder asserts that a batch is not empty.
* A primitive fails at the serve layer only after its engine has stopped running the job. While
  the job is in the running list, `free_context` raises
  (`parrot/engine/builtin/builtin_engine.py:132-137`).
* The hash that makes variable ids is injective and ids contain no braces.
* A pool is described by the set of ids it has handed out.

Clients may write any variable at any time, outputs of running tasks included
(`parrot/serve/core.py:277`); this is part of the model, not excluded.

## What the proofs brought to light

* An engine context must not grow once a child hangs below it: the child's addresses then stay
  right if and only if the growth is a whole number of blocks (`Addressing.ExtendForkIff`). The
  serve layer never does it (`SharingTheorems.InFlightIsExclusive`).
* An exhausted block pool raises through `run_iter`, which nothing catches. It happens exactly
  when the blocks needed and the blocks in use exceed the pool size minus one
  (`PagedMemory.AllocNSucceedsIff`, `EngineLink.EngineMemoryRaisesIff`); on an empty engine, for a
  context of more than (size - 1) blocks (`Addressing.OneContextCapacity`).
* When a primitive fails, tasks that wait for its context wait forever. The same holds for a
  Generate whose output a client has already written, because the assertion in `set` then trips
  before the context becomes ready. A waiting task can be woken if and only if its context is in
  neither situation (`SharingTheorems.WakesIff`); `SharingTheorems.StrandedRun` and
  `Completion.SpoiledRun` are runs that reach the one and the other. Whether a task can still get
  to the end of its chain is decided by `Completion.FinishableIff`.
* With the shared-prompt attention, an engine with a job but without a batch asserts in
  `get_shared_context_len`
  (`parrot/engine/builtin/attn_func.py:450`), which nothing catches. The batch is empty exactly
  when nothing runs and the first waiting job is not admitted, or the oldest candidate alone is
  too long (`EngineScheduling.IterateKeeps`, `EngineScheduling.EmptyBatchIffStuck`). One Fill
  with more tokens than a batch may have does it (`EngineScheduling.LongFillStopsEngine`); jobs
  that fit the limits alone never do (`EngineScheduling.SmallJobsNeverStop`).
* A constant text and a placeholder's seed share one hash namespace. A constant outside the
  constant prefix reads another text exactly when the variable that has its id holds another
  text, which only a numeral can cause (`RequestGraph.ConstantMisreadIff`,
  `RequestGraph.NumeralReadsPlaceholder`). A request is rejected exactly when it names an unknown
  variable or takes a seed whose numeral is already an id (`RequestGraph.RejectedIff`,
  `RequestGraph.NumeralBlocksOutput`).
* The expiry of a constant prefix trips the assertion at `parrot/serve/context_manager.py:285`
  unless, since its last expiry, some bind headed by it missed the cache
  (`SharingTheorems.PinnedIff`). It trips for a prefix that never headed a bound chain, such as
  the second half of a split prefix (`SharingTheorems.OnlyHeadsArePinned`), and for one that was
  bound again by a cache hit after it had expired (`SharingTheorems.RebindLosesPin`). The variable
  has already left its namespace when the assertion trips. Of the steps modelled in `Execution`,
  the only other one that raises is writing a variable twice.
* The slot mapping `[-num_tokens:]` selects every slot of the context for a Fill without tokens
  (`SharedPrompts.QuerySlotsExact`).
* If sharing a chain group is not transitive, one round dispatches a task twice and counts it
  twice (`ClusterScheduling.TwoGroupsDispatchTwice`). The traversal cannot produce such groups:
  it puts each chain into at most one (`RequestGraph.OneGroupPerChain`).
* Grouping counts a whole group as one task against its own latency bound, so it can break
  latency isolation; `ClusterScheduling.DispatchIsolatesIff` gives the exact condition.
* The availability check looks at the model wishes of a group's first task only; the others go
  where it goes (`ClusterProgress.DispatchSuitsIff`, `ClusterProgress.ContextGroupMixesModels`).
* The engine is first in, first out as long as the clock moves between arrivals
  (`EngineArrivals.ServedInOrder`). Jobs with one arrival time can be served in another order
  after a preemption (`EngineArrivals.TiesReverse`).
* A finished job with `end_flag` takes its task's key away: the next round raises exactly when a
  candidate belongs to such a task (`EngineScheduling.EndFlagClash`), and `finish` itself exactly
  when two finished jobs end one task (`EngineScheduling.FinishRaisesIff`).
* `parrot/serve/graph/semantic_variable.py:67` calls the depth the distance to the "get" node;
  the code computes, and the model proves, the longest distance from the sources.

## Model

| member | source | states |
|---|---|---|
| SharingTheorems.SharingPreservesMeaning | parrot/serve/session/graph_executor.py:134-245 | In every interleaving, once a task is at its Gen node, the parent chain of its Gen context on the engine is unique and concatenates to exactly the contents of the task's own Fill variables, whoever filled the contexts |
| SharingTheorems.ChainUnique | parrot/engine/context/low_level_context.py:26-30 | An engine context has only one parent chain |
| SharingTheorems.CachePrefixClosed | parrot/serve/context_manager.py:54-74 | In every reachable state each engine's cache is prefix-closed and injective, and each entry is a live context whose parent is the entry one shorter |
| SharingTheorems.RefCountsExact | parrot/serve/context_manager.py:152-190 | In every reachable state a live context's counter is the number of active tasks holding it plus the number of prefixes pinning it, at least one, and its parent is live and held by all its holders |
| SharingTheorems.NothingLeaks | parrot/serve/context_manager.py:152-184 | With no active task and no pin, no context is left in the manager or on an engine and every cache is empty |
| SharingTheorems.PostIsFirstAndOrdered | parrot/serve/session/graph_executor.py:134-148 | Every posted primitive is the first for its context, its parent is ready and known to the same engine, and nothing hangs below |
| SharingTheorems.InFlightIsExclusive | parrot/serve/session/graph_executor.py:142-148 | A context with a primitive in flight has no child on the engine and no second primitive |
| SharingTheorems.NoDeadlock | parrot/serve/session/graph_executor.py:134-245 | In every reachable state some bound task can take a step if and only if some bound task is not waiting on a broken context |
| SharingTheorems.WaitsForever | parrot/serve/session/graph_executor.py:142-145 | A task waiting on a context that is broken, or whose Generate is bound to fail, never wakes, whatever happens next |
| SharingTheorems.WakesIff | parrot/serve/session/graph_executor.py:142-145 | From any reachable state a waiting task can be woken by some continuation if and only if its context is neither broken nor in flight as a Generate whose output was written by somebody else |
| SharingTheorems.FailureStrands | parrot/serve/session/graph_executor.py:247-254 | Whenever two tasks that start with the same variable on one engine are about to start, a failure of the first one's Fill leaves the second waiting on a broken context |
| SharingTheorems.StrandedRun | parrot/serve/session/graph_executor.py:134-254 | A concrete run from the empty system, set, bind, bind, advance, advance, fail, that strands a task |
| SharingTheorems.BoundedWork | parrot/serve/session/graph_executor.py:134-254 | A bound task with n nodes takes at most 2n + 2 further steps, however the others interleave |
| Completion.FinishableIff | parrot/serve/session/graph_executor.py:134-254 | From any reachable state a bound task can reach the end of its chain by some continuation if and only if it has not failed, no context on its remaining path is doomed, and its own Generate would not be spoiled |
| Completion.RunsKeepUnique | parrot/serve/context_manager.py:224-265 | Over every run two tasks share a Gen context only if it is in a prefix cache |
| Completion.GenContext | parrot/serve/context_manager.py:227-265 | The Gen context of a newly bound task is fresh, unless its whole chain is cached: then it is the cached one |
| Completion.SpoiledRun | parrot/serve/session/graph_executor.py:142-148 | A concrete run in which a task waits for a context on which another task's Generate is in flight although its output is already written |
| VariableContents.ContentsWritten | parrot/serve/graph/semantic_variable.py:73-78 | Over every run a variable holds a text if and only if a step of the run set it to that text or completed a Generate for it with that text, and was the first to write it |
| VariableContents.WrittenOnce | parrot/serve/graph/semantic_variable.py:76 | A run writes each variable at one step only |
| SharingTheorems.OnlyHeadsArePinned | parrot/serve/context_manager.py:241-252 | Over every run a variable that headed no bound chain is never pinned, so its expiry raises |
| SharingTheorems.PinnedIff | parrot/serve/context_manager.py:241-252 | Over every run a variable is pinned, and its expiry succeeds, if and only if some bind headed by it as a constant prefix missed the cache since its last expiry |
| SharingTheorems.RebindLosesPin | parrot/serve/context_manager.py:227-234 | From every state: if a pinned head expires while a task holds it and is then bound again, the bind hits the cache, does not pin, and the next expiry raises |
| Execution.StepSafe | parrot/serve/session/graph_executor.py:61-98 | Every step of a coroutine or client keeps the system invariant, and raises exactly for writing a variable twice and for the expiry of a prefix that pins nothing |
| Execution.CompleteGenKeeps | parrot/serve/session/graph_executor.py:193-194 | A Generate's response is accepted in every state; if somebody else has written the output variable, the context becomes broken instead of ready and the invariant still holds |
| Execution.RunsKeep | parrot/serve/session/graph_executor.py:61-98 | The system invariant holds after every run from the empty system |
| Execution.ExpireStepKeeps | parrot/serve/core.py:345-348 | Expiry raises if and only if the variable pins nothing, and otherwise removes exactly its pins and keeps the invariant |
| ServeContexts.BindTaskKeeps | parrot/serve/context_manager.py:206-265 | Binding never raises, also when a client has already written the Gen variable: the cached id is registered and no prefix is cached twice; it gives the task one context per node and keeps the invariant with the task added |
| ServeContexts.BindTaskPins | parrot/serve/context_manager.py:241-252 | A bind pins the head of its chain exactly when it is a constant prefix that is not cached on the engine, and changes no other pin |
| ServeContexts.MissEndsPrefix | parrot/serve/context_manager.py:227-237 | After the first miss no longer prefix of the chain is cached |
| ServeContexts.GenNotCached | parrot/serve/context_manager.py:264-265 | As long as the Gen variable is unset, the prefix that ends in it is not in the cache |
| ServeContexts.HeldDistinct | parrot/serve/context_manager.py:275-280 | The contexts of one task are pairwise distinct, so the visited set of the free loop never skips one |
| ServeContexts.ChildHolder | parrot/serve/context_manager.py:131-150 | A live forked context is held by a task that holds its parent just before it |
| ServeContexts.ParentLive | parrot/serve/context_manager.py:131-150 | A live context's parent is live and on the same engine |
| ServeContexts.ReleaseKeeps | parrot/serve/context_manager.py:152-184 | Giving up a surplus reference never raises, restores the invariant, and removes the context only at the last reference, when it has no live child |
| ServeContexts.FreeHeldKeeps | parrot/serve/context_manager.py:267-280 | Freeing a task's path leaf first never raises and keeps the invariant without the task |
| ServeContexts.ExpireKeeps | parrot/serve/context_manager.py:282-293 | Expiring a constant prefix succeeds if and only if it pins a context and then keeps the invariant without the pins |
| ContextManagerObject.ServeCoreContextManager.SetTaskContexts | parrot/serve/context_manager.py:206-265 | In every state that satisfies the invariant it succeeds with the specified binding and keeps the invariant; in any state it computes the specified binding and raises exactly when that does |
| ContextManagerObject.ServeCoreContextManager.WalkChain | parrot/serve/context_manager.py:224-265 | The loop over the chain, with its running prefix and miss flag, computes the specified binding |
| ContextManagerObject.ServeCoreContextManager.FreeTaskContexts | parrot/serve/context_manager.py:267-280 | The reversed loop with its visited set computes the specified release of the path |
| ContextManagerObject.ServeCoreContextManager.FreeContext | parrot/serve/context_manager.py:152-184 | The dictionaries and the pool after one release |
| ContextManagerObject.ServeCoreContextManager.FreeConstantPrefixContexts | parrot/serve/context_manager.py:282-293 | The loop over the pinned contexts computes the specified expiry |
| ContextManagerObject.ServeCoreContextManager.NewContext | parrot/serve/context_manager.py:118-150 | A new or forked context under a fresh pool id with one reference |
| ContextManagerObject.ServeCoreContextManager.CachePrefixContext | parrot/serve/context_manager.py:54-66 | Both directions of the cache gain the entry; raises if the prefix is cached |
| PrefixHashes.PrefixHashInjective | parrot/serve/context_manager.py:112-114 | Two sequences of brace-free ids have the same string key only if they are equal |
| PrefixHashes.PrefixHashGrows | parrot/serve/context_manager.py:224-225 | Appending one bracketed id gives the key of the longer prefix |
| RecyclePools.AllocateKeeps | parrot/utils/recycle_pool.py:30-45 | An allocated id was not live; the live set grows by exactly it, or stays when allocation raises |
| RecyclePools.FreeKeeps | parrot/utils/recycle_pool.py:47-55 | Freeing a live id succeeds and removes exactly it |
| RecyclePools.FreeRaisesIffDoubleFree | parrot/utils/recycle_pool.py:52-53 | Freeing an id that was handed out raises exactly when it is not live |
| RecyclePools.AllocateRaisesIffExhausted | parrot/utils/recycle_pool.py:35-41 | A recycling pool of size n raises exactly when n - 1 ids are live |
| RecyclePools.FixedOrderNeverRecycles | parrot/utils/recycle_pool.py:30-55 | In debug mode, over any sequence of allocations and frees, the ids handed out are strictly increasing, so none comes out twice |
| RecyclePools.FirstFreedFirstReused | parrot/utils/recycle_pool.py:43-55 | Ids that are given back come out again in the order of their frees, after those that were free before |
| RecyclePools.RecyclePool.Take | parrot/utils/recycle_pool.py:30-45 | The object's allocation is the specified one, also when it raises |
| RecyclePools.RecyclePool.Release | parrot/utils/recycle_pool.py:47-55 | The object's free is the specified one |
| PagedMemory.AllocNKeeps | parrot/engine/context/block_context.py:57-68 | Allocating n tokens keeps the cell layout, takes only blocks that were not live, and keeps what it got when the pool runs out |
| PagedMemory.AllocNSucceedsIff | parrot/utils/recycle_pool.py:35-41 | Allocating n tokens raises if and only if it needs a new block and the live blocks plus the new ones exceed the pool size minus one |
| PagedMemory.ExtendSucceedsIff | parrot/engine/builtin/builtin_runner.py:97-101 | The same for extending a context of the memory |
| PagedMemory.PadToBlock | parrot/engine/context/block_context.py:70-82 | Padding to the block boundary cannot raise and takes no block |
| PagedMemory.ExtendKeeps | parrot/engine/context/block_context.py:92-96 | Extending a context that was never padded keeps the memory invariant |
| PagedMemory.BindKeeps | parrot/engine/context/context_manager.py:37-52 | Binding under a known parent pads the parent, never raises, leaves the pool alone and keeps the invariant |
| PagedMemory.DestroyKeeps | parrot/engine/context/context_manager.py:19-35 | Freeing raises exactly when sub-contexts remain; otherwise each owned block returns to the pool exactly once |
| PagedMemory.StrideOwns | parrot/engine/context/block_context.py:88-90 | The strided block ids of a context are exactly its blocks, without repetition |
| PagedMemory.OwnedCount | parrot/engine/context/block_context.py:57-68 | A context of n tokens owns exactly ceil(n / block size) blocks |
| Addressing.TranslationExact | parrot/engine/context/block_context.py:110-124 | Every token's slot is table[p / bs] * bs + p % bs if and only if every non-empty context on the path starts on a block boundary |
| Addressing.ForkPointsAligned | parrot/engine/context/block_context.py:30-38 | A context that has had a child ends on a block boundary counted from the root |
| Addressing.ExtendForkIff | parrot/engine/context/block_context.py:92-96 | After k more tokens in the parent the child still translates if and only if k is a whole number of blocks |
| Addressing.AfterRaisesIff | parrot/engine/context/block_context.py:57-96 | Of the operations that respect the tree only an extension raises, and exactly when the pool has no room |
| Addressing.LeavesKeeps | parrot/engine/context/block_context.py:57-96 | Raised or not, every operation that respects the tree leaves the memory invariant intact |
| Addressing.OneContextCapacity | parrot/utils/recycle_pool.py:35-41 | With one context bound, n tokens raise if and only if n is positive and exceeds (size - 1) blocks |
| Addressing.RunsTranslate | parrot/engine/builtin/attn_func.py:236-252 | Over every run of bind, extend and free, every context's block table translates every position of its path |
| Addressing.SlotsNeverShared | parrot/engine/context/block_context.py:57-68 | Over every run slots of different (context, index) pairs differ and lie inside the cache |
| Addressing.BlocksConserved | parrot/engine/context/block_context.py:84-90 | Over every run the pool's live ids are the disjoint union of the live contexts' blocks |
| BlockContextObject.BlockContext.Allocate | parrot/engine/context/block_context.py:92-96 | The loop appends the specified block and slot ids and leaves the specified pool |
| BlockContextObject.BlockContext.PadToBlockBoundary | parrot/engine/context/block_context.py:70-82 | Padding extends the lists to a block boundary, by less than a block, with the pool untouched |
| BlockContextObject.BlockContext.FreeBlocks | parrot/engine/context/block_context.py:84-90 | The strided loop frees the specified blocks in order |
| SharedPrompts.Lca | parrot/engine/builtin/attn_func.py:411-438 | The depth-guided climb terminates, never touches a missing context, and returns the deepest common ancestor-or-self |
| SharedPrompts.MeetUnique | parrot/engine/builtin/attn_func.py:440-459 | The meet depends on the set of contexts only, not on the job order |
| SharedPrompts.SharedContextLen | parrot/engine/builtin/attn_func.py:440-459 | The fold returns the length of the deepest context above all jobs, 0 if there is none |
| SharedPrompts.SharedLenUnique | parrot/engine/builtin/attn_func.py:440-459 | The shared length is the same number for every order of the jobs |
| SharedPrompts.SplitRefinesPaging | parrot/engine/builtin/attn_func.py:480-494 | Flash table followed by paged table is the job's full strided table and the lengths add up, also for a single job with an unaligned length |
| SharedPrompts.BuildTables | parrot/engine/builtin/attn_func.py:486-531 | The flash length is that of the deepest context shared by all Fill and Generate jobs of the batch, the flash table is exactly that context's strided block table (empty if there is none), and each Generate job, in order, gets the paged table and length that complete it to plain paging |
| SharedPrompts.BuildFillLists | parrot/engine/builtin/attn_func.py:498-535 | One query and one key length per Fill job, and a flat slot list whose segments, cut at the key lengths, are exactly the slots of the jobs' paths and fill the key buffer |
| SharedPrompts.PadRows | parrot/engine/builtin/attn_func.py:191-192 | The padded table is a rectangle as wide as its longest row in which every row starts with the original one |
| SharedPrompts.ExtendAppends | parrot/engine/context/block_context.py:118-124 | Giving a context n tokens appends n slots to its list and changes no earlier one |
| SharedPrompts.QuerySlotsExact | parrot/engine/builtin/attn_func.py:519-520 | The slot mapping of a job is exactly the slots its iteration appended to the context if and only if it has a token or the whole context is empty |
| EngineLink.LinkStepSafe | parrot/engine/context/low_level_context.py:32-40 | With the engines' memories attached, every enabled step keeps the joint invariant, and raises exactly when the serve layer refuses it or an engine's pool has no room for an iteration's tokens |
| EngineLink.LinkedFreeHeldKeeps | parrot/serve/context_manager.py:162-184 | Freeing a task frees the same contexts on its engine without raising, and the two trees stay in step |
| EngineLink.EngineMemoryRaisesIff | parrot/engine/context/context_manager.py:37-52 | In every interleaving a step of the serve layer or of an engine's memory raises exactly when the serve layer refuses it or the pool has no room: no engine misses a parent, frees above a child or frees a block twice |
| EngineLink.LateDelivery | parrot/engine/context/context_manager.py:40-52 | A request that arrives after its context was freed raises exactly when the engine no longer has the parent, and otherwise leaves a context that the serve layer does not know |
| EngineLink.EnginesAddressCorrectly | parrot/engine/builtin/attn_func.py:236-252 | In every reachable state of the whole system every engine context's block table is right, and its parent is the one the serve layer forked it from |
| KvContents.SlotsHoldPrompt | parrot/engine/builtin/attn_func.py:236-252 | In every interleaving with tokens, once a task is at its Gen node, token j of its Fill i is what the engine's cache holds at that token's position on the task's path, looked up through the strided block table |
| KvContents.KvStepKeeps | parrot/engine/builtin/builtin_runner.py:97-101 | Every step keeps that the first slots of each context hold the tokens written to it and that each ready cached context was written with the tokens of its variable |
| KvContents.AddedSlots | parrot/engine/context/block_context.py:57-68 | The slots an iteration appends are distinct and no slot of any context before |
| KvContents.KvRefinesLink | parrot/engine/context/context_manager.py:37-52 | Runs with tokens are runs of the linked system without them |
| EngineScheduling.ScheduleConserves | parrot/engine/engine_scheduler.py:173-244 | One round keeps the multiset of jobs |
| EngineScheduling.ScheduleSpec | parrot/engine/engine_scheduler.py:173-244 | The batch and the preempted jobs are the candidates in arrival order, the batch fits, one more job would not, and the preempted suffix reversed heads the waiting list |
| EngineScheduling.AdmittedSpec | parrot/engine/engine_scheduler.py:173-197 | Admission respects both limits and stops only at a job that would break one |
| EngineScheduling.KeptSpec | parrot/engine/engine_scheduler.py:223-241 | The kept jobs are the longest prefix whose total context length fits |
| EngineScheduling.SortedOrdered | parrot/engine/engine_scheduler.py:214-219 | The candidates are in order of (task arrival, job arrival) |
| EngineScheduling.EmptyBatchIff | parrot/engine/engine_scheduler.py:223-244 | The batch is empty if and only if there is no candidate or the oldest one alone is too long |
| EngineScheduling.NeverIdle | parrot/engine/engine_scheduler.py:173-244 | If a job is present and every job fits alone, the batch is not empty |
| EngineScheduling.BatchWithinLimits | parrot/engine/engine_scheduler.py:163-244 | Every batch respects max_batch_size, max_num_batched_tokens and max_total_tokens, and no sort key is missing |
| EngineScheduling.FinishKeeps | parrot/engine/engine_scheduler.py:257-271 | Finishing keeps the unfinished jobs in order and never misses a key |
| EngineScheduling.EmptyBatchIffStuck | parrot/engine/engine_scheduler.py:173-244 | With a job present the batch is empty if and only if nothing runs and the first waiting job is not admitted, or the oldest candidate alone is too long |
| EngineScheduling.IterateKeeps | parrot/engine/builtin/builtin_engine.py:189-200 | An iteration raises if and only if a job is present and either no batch can be formed or the pool has no room for it; otherwise it keeps every key, respects all limits, runs a nonempty batch and leaves only Generate jobs running |
| EngineScheduling.EngineLoopSafe | parrot/engine/builtin/builtin_engine.py:189-200 | Over every run of arrivals and iterations the scheduler invariant holds, the next iteration raises exactly when it is stuck or the pool has no room, and every batch is within all three limits |
| EngineScheduling.SmallJobsNeverStop | parrot/engine/engine_scheduler.py:163-244 | If every job fits the limits alone and the pool has room, no iteration raises |
| EngineArrivals.ArrivalTimes | parrot/engine/engine_scheduler.py:43-58 | Over every run each present job has the time of the event that brought it, and each task the time of its first arrival since it was last ended; a task has no time exactly if all its arrivals were followed by its end |
| EngineArrivals.ServedByTimes | parrot/engine/engine_scheduler.py:214-221 | Over every run, with any clock, of two candidates the first served has the earlier pair of task time and job time, these being the times of the events above |
| EngineArrivals.ServedInOrder | parrot/engine/engine_scheduler.py:214-221 | If the clock moves between arrivals, candidates are served in the order in which their tasks came since their last end, and within a task in the order in which they came |
| EngineArrivals.TiesReverse | parrot/engine/engine_scheduler.py:253-255 | If it does not move, the order can turn: three jobs of one time, with room for one context, are next served first, third, second |
| EngineArrivals.WaitingInOrder | parrot/engine/engine_scheduler.py:43-55 | If the clock moves between arrivals, a tail of the waiting list is in the order of arrival and holds only jobs younger than all others present |
| EngineArrivals.FinishesExactly | parrot/engine/engine_scheduler.py:257-271 | An iteration finishes exactly the Fills of its batch and the Generates that stopped; no other job leaves |
| EngineArrivals.BatchTokens | parrot/engine/engine_scheduler.py:175-197 | In every batch the tokens of the Fills that carry tokens and one for every other job are within the token budget |
| EngineScheduling.LongFillStopsEngine | parrot/engine/builtin/attn_func.py:450 | A Fill with more tokens than a batch may have, alone on a fresh engine, makes every iteration raise |
| EngineScheduling.EndFlagClash | parrot/engine/engine_scheduler.py:52-58 | With all jobs keyed and contexts distinct, the round after a finish raises if and only if a candidate belongs to a task that a finished end_flag job has ended |
| EngineScheduling.FinishRaisesIff | parrot/engine/engine_scheduler.py:257-271 | Finishing raises if and only if two finished jobs both end the same task |
| EngineScheduling.EndFlagExample | parrot/engine/engine_scheduler.py:52-58 | Two jobs of one task run, the one with end_flag finishes, and the next round raises |
| EngineSchedulerObject.EngineScheduler.Schedule | parrot/engine/engine_scheduler.py:163-251 | Admission loop, sort and preemption loop compute the specified round |
| EngineSchedulerObject.EngineScheduler.Admit | parrot/engine/engine_scheduler.py:173-197 | The admission loop moves exactly the admitted prefix |
| EngineSchedulerObject.EngineScheduler.Preempt | parrot/engine/engine_scheduler.py:223-241 | The preemption loop keeps the fitting prefix and reverses the rest onto the waiting list |
| EngineSchedulerObject.EngineScheduler.FinishJobs | parrot/engine/engine_scheduler.py:257-271 | The finish loop computes the specified state |
| EngineSchedulerObject.EngineScheduler.Add | parrot/engine/engine_scheduler.py:43-50 | A new job goes to the end of the waiting list with its own arrival time; its task keeps the time it has and gets this one only if it has none; the invariant is kept |
| ClusterScheduling.GroupIsClass | parrot/serve/scheduler/global_scheduler.py:195-226 | With one group per chain, a task's group is the task and exactly the later tasks that share its group |
| ClusterScheduling.GroupIsNew | parrot/serve/scheduler/global_scheduler.py:190-226 | The group of an unscheduled task contains no task dispatched before |
| ClusterScheduling.DispatchKeeps | parrot/serve/backend_repr/engine.py:159-176 | A dispatch that passed the availability check keeps every engine's counters exact and within capacity |
| ClusterScheduling.ScheduleKeeps | parrot/serve/scheduler/global_scheduler.py:182-234 | One round dispatches each queued task at most once, keeps the undispatched tasks in order, and keeps all counters exact |
| ClusterScheduling.TwoGroupsDispatchTwice | parrot/serve/scheduler/global_scheduler.py:190-229 | For any three tasks whose groups are not transitive, one round dispatches the shared task twice to its engine and the engine's books are no longer exact |
| ClusterScheduling.DispatchIsolatesIff | parrot/serve/scheduler/global_scheduler.py:71-79 | A dispatch keeps latency isolation if and only if the whole group fits under each member's bound |
| ClusterScheduling.GroupingBreaksIsolation | parrot/serve/scheduler/global_scheduler.py:71-75 | Any five latency-bound tasks that fit an empty engine are admitted as one group and break isolation |
| ClusterScheduling.FreeKeeps | parrot/serve/backend_repr/engine.py:183-198 | A dispatched task can always be freed and takes exactly its own share of the counters |
| ClusterScheduling.FreeUndoesDispatch | parrot/serve/scheduler/task_creator.py:74-85 | Freeing a task right after its dispatch restores every engine exactly |
| ClusterScheduling.ClusterSafe | parrot/serve/scheduler/global_scheduler.py:162-234 | Over every run no task is on two engines or twice on one, counters are exact sums within capacity, and no queued task has been dispatched |
| ClusterScheduling.LatencyIsolation | parrot/serve/scheduler/global_scheduler.py:98-108 | With grouping off, in every reachable state an engine's task count is at most the bound of each resident |
| ClusterProgress.WorkConserving | parrot/serve/scheduler/global_scheduler.py:182-234 | After a round every task left in the queue is one whose group no live engine is available for, and the queue is exactly the undispatched tasks |
| ClusterProgress.DispatchOnlyFills | parrot/serve/scheduler/global_scheduler.py:62-94 | A dispatch of new tasks makes an engine available for nothing it was not available for |
| ClusterProgress.AvailableMeans | parrot/serve/scheduler/global_scheduler.py:55-96 | With exact books an engine is available to a group if and only if it suits the first task, one more task is within every member's bound, the group is within the bound of every resident, and tasks and tokens stay within capacity |
| ClusterProgress.BooksExact | parrot/serve/backend_repr/engine.py:126-176 | In every reachable state an engine counts exactly its residents and, if it takes token ids, their tokens under its tokenizer |
| ClusterProgress.DispatchSuitsIff | parrot/serve/scheduler/global_scheduler.py:56-69 | A dispatch keeps every task on an engine of its model type and wish if and only if the engine suits the other members of the group, which the check does not look at |
| ClusterProgress.ContextGroupMixesModels | parrot/serve/scheduler/global_scheduler.py:202-226 | A task that wants another model, queued behind one with the same first variable, is dispatched to an engine that does not suit it |
| ClusterProgress.TasksRunWhereWanted | parrot/serve/scheduler/global_scheduler.py:56-69 | Over every run in which tasks that are grouped want the same, as the source supposes and as holds with grouping off, every resident is on an engine of its model type whose model is among its wishes |
| ClusterProgress.SortedByDepth | parrot/serve/scheduler/global_scheduler.py:185-188 | With the application order on, the queue is served deepest first, and tasks of one depth in the order they had |
| ClusterProgress.QueueInOrder | parrot/serve/scheduler/global_scheduler.py:162-234 | With it off, the queue is at all times a part of the submitted tasks in the order of submission |
| ClusterProgress.NothingLost | parrot/serve/scheduler/global_scheduler.py:162-234 | Over every run the queue holds exactly the tasks that were submitted while it had room and were not dispatched |
| ClusterProgress.GroupIsGreedy | parrot/serve/scheduler/global_scheduler.py:193-226 | For tasks in any number of chain groups the loop takes each later task that shares a chain group with all members so far, or the first variable; what brought the second member decides which of the two goes on |
| GlobalSchedulerObject.GlobalScheduler.Schedule | parrot/serve/scheduler/global_scheduler.py:182-234 | The loop over the queue computes the specified round, keeps the books exact, and leaves in the queue only tasks whose group no live engine can take even after the round |
| GlobalSchedulerObject.GlobalScheduler.BuildGroup | parrot/serve/scheduler/global_scheduler.py:195-226 | The inner loop, with its shrinking group set and mode flags, computes the specified group |
| ClusterScheduling.EngineListExact | parrot/serve/scheduler/global_scheduler.py:96 | The engine list is exactly the available live engines, each at its own position and in order |
| GlobalSchedulerObject.GlobalScheduler.AvailableEngines | parrot/serve/scheduler/global_scheduler.py:62-96 | The list holds every available live engine and no other |
| GlobalSchedulerObject.GlobalScheduler.FindEngine | parrot/serve/scheduler/global_scheduler.py:98-158 | The whole group goes to one available engine, or nowhere if there is none |
| RequestGraph.AddRequestKeeps | parrot/serve/graph/graph.py:339-394 | Inserting a request never trips the single-producer assertion and keeps every edge going from earlier to later chains |
| RequestGraph.ConstantMisreadIff | parrot/serve/variable_manager.py:282-343 | In every accepted request constant i reads another text if and only if it is outside the constant prefix and its text is the numeral of a session variable, or of an earlier placeholder of the request, that holds something else |
| RequestGraph.NonNumeralIsNoSeed | parrot/serve/variable_manager.py:93-109 | A text with a character that is no digit never collides with a seed |
| RequestGraph.NumeralReadsPlaceholder | parrot/serve/variable_manager.py:304-335 | The template {{a}}0{{b}} fills the value of a where 0 stands |
| RequestGraph.NumeralBlocksOutput | parrot/serve/variable_manager.py:101-102 | The template {{a}}1{{b}} is rejected because the output's seed is taken |
| RequestGraph.RejectedIff | parrot/serve/variable_manager.py:282-343 | A request is rejected if and only if a node names a variable made neither before nor earlier in the request, or a placeholder's or the output's seed has a numeral that is an id of the session or an earlier constant of the request outside its prefix |
| RequestGraph.RequestReads | parrot/serve/variable_manager.py:282-343 | In every accepted request a constant reads the variable of its text, a placeholder with a value a new variable of its own that holds exactly that value, a placeholder with an id that very variable as it was; the output is new, empty and none of the inputs; nothing that existed changes |
| RequestGraph.NewEdges | parrot/serve/graph/graph.py:339-394 | A node of an accepted request depends on an earlier chain if and only if it names that chain's output, or is a local constant whose text is the numeral of it |
| RequestGraph.LeftBehindExact | parrot/serve/variable_manager.py:282-343 | A rejected request leaves exactly the variables that its nodes before the failing one made, and has spent their seeds and the one that turned out to be taken |
| RequestGraph.DepthBoundsPaths | parrot/serve/graph/graph_traverse.py:66-68 | No path of variables is longer than the depth |
| RequestGraph.DepthAttained | parrot/serve/graph/graph_traverse.py:66-68 | Some path is as long as the depth |
| RequestGraph.TraverseSpec | parrot/serve/graph/graph_traverse.py:36-87 | The traversal terminates, returns the longest-path depth, activates exactly the produced ancestors not yet activated, and puts each chain into at most one group |
| RequestGraph.OneGroupPerChain | parrot/serve/graph/graph_traverse.py:58-64 | After any sequence of requests, rejected ones included, registrations and gets, each chain is in at most one group and activation is closed under ancestors |
| RequestGraph.GetActivatesAncestors | parrot/serve/graph/graph_traverse.py:90-99 | In any reachable session one get activates exactly the missing produced ancestors, with its criteria and their depth, and changes no earlier activation |
| ActivationGroups.OrderSpec | parrot/serve/graph/graph_traverse.py:44-68 | The depth-first order from a variable starts with its producing chain, visits every chain once and only if not activated before, and reaches each later chain through a Fill of an earlier one |
| ActivationGroups.TraverseGroups | parrot/serve/graph/graph_traverse.py:58-68 | Every chain the traversal activates below the root joins exactly one more group, made new for the chain that reached it first; the root joins exactly the group passed in; no other chain joins any |
| ActivationGroups.GetGroupsAlways | parrot/serve/graph/graph_traverse.py:58-99 | In any reachable session, after one get every chain newly activated below the root is in exactly one group, which is new; two of them share it if and only if the same chain reached both first; the root is in none |
| RequestGraphObject.SessionGraph.CreateVarsOf | parrot/serve/variable_manager.py:282-343 | The loop over the nodes creates the specified variables: every node reads its own text, its own new variable or the very variable it names, and the output is new and empty; on failure it leaves behind exactly what it had made |
| RequestGraphObject.SessionGraph.TraverseVar | parrot/serve/graph/graph_traverse.py:36-87 | The recursion with its loop and in-place marks computes the specified activation and depth, activates the chains of the depth-first order, and puts each below the root into exactly the group of the chain that reached it first |
| RequestGraphObject.SessionGraph.AddRequest | parrot/serve/graph/graph.py:360-394 | A request is turned away exactly when one of its nodes has a fault or the seed for its output is taken; either way the graph stays acyclic with one producer per variable, and what a failed request had made stays |
| PrefixMatching.LcpSpec | parrot/serve/prefix_matcher.py:45-50 | The key of a class is a prefix of all its strings, and every common prefix is a prefix of it |
| PrefixMatching.IndexUnique | parrot/serve/prefix_matcher.py:17-23 | The history alone determines every bucket, independent of dictionary order |
| PrefixMatching.QueryMeans | parrot/serve/prefix_matcher.py:66-89 | A query fails if and only if it has at most 40 characters, at most three added strings share its first 41, or these have a common prefix it does not start with; otherwise it gives the length of their longest common prefix |
| PrefixMatching.PrefixMatcher.AddPrefix | parrot/serve/prefix_matcher.py:25-64 | After any adds the table has exactly one entry per class of strings sharing their first 41 characters: their longest common prefix, with their number |
| PrefixMatching.PrefixMatcher.QueryPrefix | parrot/serve/prefix_matcher.py:66-89 | Returns the length of the class's common prefix exactly when more than three strings share it and the query extends it, else -1 |
| PrefixMatching.ScanCommon | parrot/serve/prefix_matcher.py:45-50 | The scan from the 41st character finds where the two strings stop agreeing |
| Templates.HoleFound | parrot/frontend/pfunc/function.py:183 | The placeholder expression matches exactly the braced names, in only one way |
| Templates.NameAlphabet | parrot/frontend/pfunc/function.py:183 | Names start with an ASCII letter or an underscore and go on with these or digits |
| Templates.HoleFirst | parrot/frontend/pfunc/function.py:193-208 | Two braces, a name, two braces in front of any text read as that placeholder and then the rest |
| Templates.TextWithoutBrace | parrot/frontend/pfunc/function.py:195-197 | A text without a brace, at the end or in front of a placeholder, reads as one piece |
| Templates.NoFaultsMeans | parrot/frontend/pfunc/function.py:199-207 | A body has no fault if and only if every name is a parameter and no output comes first, next to another output, or twice |
| Templates.PrintPieces | parrot/frontend/pfunc/function.py:384-396 | Printing the pieces of a string gives the string back |
| Templates.ParsesBackIff | parrot/serve/graph/call_request.py:274-302 | Parsing inverts printing exactly on the lists whose names are names and whose texts are nonempty, maximal and free of placeholders |
| Templates.PrefixCanonical | parrot/frontend/pfunc/function.py:215-218 | Cutting pieces off the end never makes the rest read differently |
| Templates.RoundTrip | parrot/serve/graph/call_request.py:274-302 | For every body, parameter list and pair of flags the server reads back the frontend's pieces if and only if it is not told to drop a trailing text the frontend kept; what the frontend drops is everything behind the last output, and nothing else |
| Templates.SameFlagRoundTrip | parrot/frontend/pfunc/function.py:384-396 | With the same flag on both sides the served body is the parsed one, numbered by index |
| Templates.SplitKeeps | parrot/serve/graph/call_request.py:178-195 | A split succeeds exactly for a position inside a leading text, puts that many characters into the first piece, keeps the rendered text, the other pieces and the numbering, and reads back as the body before |
| Templates.NextPlaceholder | parrot/frontend/pfunc/function.py:183-185 | The scan finds the leftmost placeholder at or after a position |
| Templates.ParseFuncBody | parrot/frontend/pfunc/function.py:176-222 | Accepts exactly the bodies with no undefined name, no output first, next to an output or used twice; reports the first fault; numbers the kept pieces |
| Templates.ChunkedRequest.ParseBody | parrot/serve/graph/call_request.py:274-302 | The server's loop computes the specified pieces, numbered by index |
| Templates.ChunkedRequest.SplitPrefixChunk | parrot/serve/graph/call_request.py:178-195 | The in-place split and renumbering computes the specified body |
| ChatMessages.MergeSpec | parrot/engine/context/text_context.py:71-81 | No two adjacent merged messages have the same role, and every character keeps its speaker and order |
| ChatMessages.MergeRuns | parrot/engine/context/text_context.py:71-81 | A run of messages of one role, empty ones included, becomes one message with all its text, and what follows is merged on its own |
| ChatMessages.MergeDetermined | parrot/engine/context/text_context.py:71-81 | The merged list is the only alternating list of nonempty messages that says the same |
| ChatMessages.MergeAgain | parrot/engine/context/text_context.py:68-69 | Merging merged messages with more equals merging everything once |
| ChatMessages.ChatSpec | parrot/engine/context/text_context.py:51-81 | Level by level up the tree equals the flat merge, alternates, and concatenates to the whole context text |
| ChatMessages.MergeMessages | parrot/engine/context/text_context.py:71-81 | The loop computes the merge |
| ChatMessages.TextContext.WholeChatMessages | parrot/engine/context/text_context.py:60-81 | The recursive method returns the flat merge, alternating, with the whole context text |
| ChatMessages.TextContext.WholeContextText | parrot/engine/context/text_context.py:51-58 | The recursive text is the text of all levels in order |

## Left out

- The fused-Fill branch (`parrot/serve/context_manager.py:256`), where one context gets several prefix keys.
- Requests with several outputs, and nodes behind the last Gen, which belong to no completion chain.
- Native-function producers in the traversal; it has no check for activated variables there.
- The best-engine heuristic (`parrot/serve/scheduler/global_scheduler.py:130-153`): any available engine may be picked, so the results hold for every choice.
- The `tgi` and `fifo_v1` policies of the engine scheduler, and the OpenAI engine, which edits the running list directly.
- Expiry and removal of engines and sessions, and reuse of engine ids.
- `allocated_num` and `history_max` of the recycle pool: statistics, not exact after a failed allocation.
- HTTP, logging, clocks, heartbeats: requests are abstract steps, arrival times are inputs.
- Tokenizers, tensors, kernels and sampling: only the integer lists built for them are modelled; token counts and context lengths are inputs.
- Python object references: contexts, tasks and chains are named by id; an event is membership in a set of ids.
- `list.sort`: specified as a stable insertion sort.
- Rendering of Python objects into a template, prompt formatters, the virtual machine and decorators.
- ContextManagerObject.ServeCoreContextManager.WalkChain: the dictionaries after a raised exception are not described; no state that satisfies the invariant reaches one.
- The free of a context whose job is still in an engine's running list, and the arrival of a request after its context was freed: excluded by hypothesis, see above.
- What a kernel does with the zeros that pad the slot mapping.
