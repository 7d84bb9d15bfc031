# OpenVINO Model Server: a verified model of the core

This project models five stateful parts of the model server and proves what they promise, for every input,
every interleaving and every run.

1. **Demultiplexing and gathering in the DAG executor.** A node splits its output tensors along the first dimension
   into subsessions; a later node gathers one or more nested levels back. `SessionMetadata`, `SessionKeys` and
   `ShardIds` model the stack of levels, the printed session key and the shard position (`KeyAmbiguity`: when a key
   identifies its session); `Blobs` models tensors as dims and bytes; `Demultiplexer`, `InputHandlers`, `GatherRuns`
   and `PipelineNode` model the split, the input handlers and the sessions of a node (`OrdinaryNodes`: runs of a node
   that does not gather; `GatherBound`: the counter beyond 32 bits; `FailedCalls`: what a failed call leaves);
   `DemultiplyGather` and `PipelineRuns` join them into the identity: what chains of demultiplications leave,
   arriving at a gathering node in any order and with other sessions interleaved, is gathered to the tensors before
   the first of them.
2. **The pool of inference-request streams.** `StreamPool` has the ring buffer with its promise queue as a class that
   refines an abstract pool; `StreamPoolSteps` has the same code as steps of any number of clients at the granularity
   of lock operations and single shared accesses (`StreamTaking`: what a client that sees an idle stream gets);
   `StreamGuards` has the guards that take and give back streams.
3. **Loading, reloading and retiring a model instance** while requests use it: `InstanceLifecycle`, a sequentially
   consistent transition system over any number of threads; `NetworkLoading`, what a load does to a network that may
   have been kept from an earlier load; `OperationOutcomes`, how operations end by the loads that succeed and fail;
   `RequestAnswers`, how requests are answered by what they see.
4. **Version reconciliation.** `VersionPolicy`, `ModelConfigs` and `VersionDiff` model the policies, the
   configuration comparison and the diff; `Reconciliation` states one pass of the manager as set algebra and proves
   the theorems about it; `VersionLists` states the pass on the list of available versions in the order given, with
   the binary search as it is, and `VersionOrder` says when that is the set algebra; `ModelVersions` has the version
   map as a class and the manager's loops, proved to compute the pass on the list.
5. **Output buffers of custom nodes.** `CustomNodeOutputs`: who releases which buffer, and that each is released
   once.

`MixedRadix`, `Integers`, `Collections` and `Wrappers` are shared. Code that works by changing fields or in loops is a class
or a method proved against a specification function; the theorems are about those functions and about runs.
Integer widths are written out where they matter: 32-bit shard ids and dependency counters, the `size_t` bound
that wraps in the last-in-first-out loops, the `int` parameter of `updateDefaultVersion`, the `int` accumulator
of the custom-node size check.

## Properties that the code does not have as first thought

- Nobody waits while a stream is idle: true for whole calls (`StreamPool.RunInv`), false under interleaving.
  `StreamPoolSteps.WaitingBesideAnIdleStream` gives a reachable state; its step-level reading,
  `StreamPoolSteps.BrokenOnlyByLatePromise`, is that only the late push of a promise breaks the rule.
- Failed versions are removed from the available ones: the binary search finds every version of a duplicate-free
  list exactly when the list is ascending (`VersionPolicy.FindsAllExactlyWhenAscending`), while
  `readAvailableVersions` lists directories by name, where "10" comes before "9". The pass, and the retry loop alone, do
  what they should for all registered versions, policies, blacklists and outcomes of loads exactly when the list is
  ascending (`VersionOrder.PassAgreesExactly`). On the list 10, 9, with the latest version asked for and only 9 loading,
  the pass ends with nothing available (`VersionLists.NameOrderStrandsFallback`).
- The default version is right after a pass: exactly when some version is retired or cleaned up in the end, or the highest
  version that was available or reloaded well is not one whose reload failed (`ModelVersions.ReloadModelWithVersions`);
  always on ascending lists (`ModelVersions.RemovedReloadsKeepDefault`), and not in
  `ModelVersions.DefaultLeftOnFailed`.
- A pass serves what the policy picks: exactly when no registered version fails to reload
  (`Reconciliation.PolicyFallback`); a failed reload is not made up for in the same pass
  (`Reconciliation.AvailableAfterPass`).
- The default version after a retirement: `ModelVersions.DefaultAfterDropExactly` gives the exact condition, since a
  version beyond `int` is ignored under another number; `ModelVersions.DefaultStaleBeyondInt` is such a version.
- A reload gives the network that a first load would: exactly when nothing was kept, or what was kept differs only in
  what the reload sets (`InstanceLifecycle.PlainReloadContract`, `NetworkLoading.KeptEqualsRead`); a batch size set by
  an earlier dynamic reload stays otherwise (`NetworkLoading.PlainReloadKeepsBatch`).
- A dynamic reload sets the requested batch size exactly when it fits an `int`, or when the load would have ended with
  it anyway (`NetworkLoading.RequestedBatchExactly`); `NetworkLoading.BatchBeyondInt` has two requests that fail.
- Shard ids are right exactly up to 2^32 (`ShardIds.ShardIdsAreABijection`). Being ready means being complete, over all
  runs of a gathering session, exactly below 2^32 expected pairs (`GatherBound.BoundExactly`); with more there is a run
  that is ready too early (`GatherBound.ReadyTooEarly`), and three levels of 4096, 4096 and 256 are ready when created
  (`GatherBound.ReadyWhenCreated`). These are about a session alone. A node creates a session and delivers to it in one
  call, so such a session is seen empty after a call that failed; the pipeline then still asks for the ready
  sessions. `FailedCalls.NewSessionAfterFailure` says when it is ready, and `FailedCalls.ReadyWithoutInputs` has the
  three levels in a node.
- A session is ready only after its inputs have been gathered: after a failed call it is ready exactly when its counter was
  zero, or the consolidation itself failed (`FailedCalls.ReadyAfterFailure`).
- A demultiplexer in dynamic mode does not compare the first dimensions of its blobs; a blob survives split and
  gather exactly when its first dimension is the number of pieces (`Demultiplexer.PiecesRestoreExactly`), and
  `Demultiplexer.DynamicModeLosesData` has two blobs of which the second does not.
- `getShardId` accepts any set as large as the level list, whatever it names (`ShardIds.ShardIdAcceptsExactly`, and
  `ShardIds.ShardIdOfUnknownLevel` for an input); its caller has checked the names by then.
- A session key identifies a session exactly when there are no levels, or one level whose name does not read like two
  levels with an id between them (`KeyAmbiguity.KeyIdentifiesExactly`); any two levels print the same key as one level
  named after both (`KeyAmbiguity.KeyAmbiguousAcrossLevels`). Within one level list keys are injective.
- An accepted custom-node tensor has the bytes of its shape exactly under the condition of
  `CustomNodeOutputs.AcceptedLengthExactly`: 2^32 elements over an empty buffer are accepted, and 2^31 elements with
  all their bytes are refused (`CustomNodeOutputs.LengthCheckFails`).

## Model

| member | source | states |
|---|---|---|
| SessionMetadata.GenerateSubsessions | src/nodesessionmetadata.cpp:28-57 | The loop yields one metadata per shard, in order, each with the level appended and its own (id, size); empty and used names are refused |
| SessionMetadata.ValidExactlyReachable | src/nodesessionmetadata.cpp:28-57 | Distinct non-empty levels, details keyed exactly by them and id < size describe exactly what demultiplying from the empty metadata can build |
| SessionMetadata.LifoLoop | src/nodesessionmetadata.cpp:116-121 | The loop with its wrapping unsigned bound accepts exactly when the last levels are all named, and looks at nothing when every level is |
| SessionMetadata.GetCollapsedSessionMetadata | src/nodesessionmetadata.cpp:99-141 | The checks and loops give the collapse, with each error in its case |
| SessionMetadata.PartitionLevels | src/nodesessionmetadata.cpp:123-139 | Surviving details and levels, and the collapsed names with their sizes in level order |
| SessionMetadata.CollapseAcceptsExactly | src/nodesessionmetadata.cpp:99-121 | Accepted if and only if the set is that of the last levels, the full collapse with the wrapped bound included |
| SessionMetadata.CollapseKeepsOuter | src/nodesessionmetadata.cpp:123-140 | An accepted collapse leaves exactly the outer levels with their details, and reports the inner names and sizes outermost first |
| SessionMetadata.CollapseUndoesSpawning | src/nodesessionmetadata.cpp:28-141 | Collapsing the names of any chain of demultiplications restores the metadata it began with and its sizes in order |
| SessionKeys.GetSessionKey | src/nodesessionmetadata.cpp:59-97 | The printed key or the error, for every metadata and ignored set |
| SessionKeys.PrintLevels | src/nodesessionmetadata.cpp:74-96 | The backward loop prints the levels that are not ignored, or refuses when an ignored position holds another level |
| SessionKeys.KeyOfCollapsed | src/nodesessionmetadata.cpp:59-141 | For every accepted set, the key that ignores it is the key of the collapsed metadata |
| SessionKeys.KeyAcceptsExactly | src/nodesessionmetadata.cpp:59-97 | A key is printed if and only if nothing is ignored, there are no levels, or the set is collapsible |
| SessionKeys.KeyIgnoringNothing | src/nodesessionmetadata.cpp:59-97 | Ignoring nothing prints the session's own key |
| SessionKeys.KeyTextInjective | src/nodesessionmetadata.cpp:74-96 | For a fixed level list the printed key is injective in the ids |
| SessionKeys.PrintedKey | src/nodesessionmetadata.cpp:74-96 | The key as printed: level b at 12 inside level a at 3 gives b_12_a_3 |
| SessionKeys.KeyIdentifiesSession | src/nodesessionmetadata.cpp:59-97 | Sessions with the same levels and sizes have equal keys only if they are equal |
| KeyAmbiguity.KeyAmbiguousAcrossLevels | src/nodesessionmetadata.cpp:87-90 | For all names and ids: two levels print the same key as one level named after both, and both are valid metadata |
| KeyAmbiguity.KeyIdentifiesExactly | src/nodesessionmetadata.cpp:74-96 | No other levels or ids print the key of a metadata if and only if it has no levels, or one whose name does not read like two levels with an id between them |
| ShardIds.GetShardId | src/nodesessionmetadata.cpp:152-196 | The shard id or the error in each case |
| ShardIds.FoldIds | src/nodesessionmetadata.cpp:185-195 | The 32-bit accumulation computes the row-major index modulo 2^32 |
| ShardIds.ShardIdIsRowMajor | src/nodesessionmetadata.cpp:131-196 | On metadata accepted for collapse the shard id is the linear index under the collapsed sizes in stored order, below their product, when that is at most 2^32 |
| ShardIds.ShardIdsAreABijection | src/nodesessionmetadata.cpp:185-195 | Every index below the product is the id of exactly one tuple; injectivity holds if and only if the product is at most 2^32 |
| ShardIds.ShardIdAcceptsExactly | src/nodesessionmetadata.cpp:152-184 | Which sets are accepted, including the unchecked full-size set |
| ShardIds.ShardIdOfUnknownLevel | src/nodesessionmetadata.cpp:156-160 | A shard id is given for a level that does not exist, where a collapse is refused |
| MixedRadix.UnrankOfRowMajor | src/nodesessionmetadata.cpp:185-195 | Ranking id tuples and unranking are inverse |
| MixedRadix.RowMajorOfUnrank | src/nodesessionmetadata.cpp:185-195 | Unranking gives digits below their sizes and ranking gives the index back |
| MixedRadix.Index32InjectiveExactly | src/nodesessionmetadata.cpp:185-195 | The index modulo 2^32 is injective on id tuples if and only if the sizes multiply to at most 2^32 |
| Blobs.NestedShardIsChunk | src/node.cpp:238-274 | Splitting level by level along given ids lands on the chunk at their row-major index |
| Blobs.ShardOfShard | src/node.cpp:238-274 | Positions of nested splits compose in row-major order |
| Blobs.StepIsShardSize | src/node.cpp:243 | The step is the byte size of a shard when the first dimension is the number of shards |
| Blobs.ViewIsShard | src/entry_node.cpp:104-113 | The zero-copy view of the entry node stays inside the tensor and shows the dims and bytes of the copied shard |
| Blobs.ConsolidationRestores | src/gathernodeinputhandler.cpp:61-95 | A blob that holds all shards of a tensor at their places is that tensor |
| Blobs.ShardsConsolidateTo | src/gathernodeinputhandler.cpp:61-95 | And the tensor is such a blob |
| Demultiplexer.SubKeysDiffer | src/node.cpp:251-259 | Subsessions have keys of their own, all different from the parent's |
| Demultiplexer.SubKeyIsKey | src/node.cpp:251-253 | The key a shard is filed under is its subsession's key |
| Demultiplexer.CreateShardedBlob | src/node.cpp:263-275 | The shard has the tensor's dims without the first; its bytes are the i-th step exactly when a step is a shard, otherwise an error; an unsupported precision leaves no shard |
| Demultiplexer.PieceIsShard | src/node.cpp:238-274 | With the first dimension equal to the number of pieces, piece i is shard i |
| Demultiplexer.PiecesRestoreExactly | src/node.cpp:226-246 | Consolidating the pieces gives the blob back if and only if its first dimension is the number of pieces |
| Demultiplexer.DynamicModeLosesData | src/node.cpp:226-246 | Two blobs with first dimensions 2 and 3 are demultiplied in dynamic mode, and no consolidation gives the second back |
| Demultiplexer.SplitBlob | src/node.cpp:244-257 | One blob's pieces are added to every subsession and nothing else changes; exactly when its shards are not there nothing is added |
| Demultiplexer.SplitAll | src/node.cpp:218-260 | After the loop there is one entry per subsession with one piece of every blob and no parent; when it breaks off, the parent and exactly the pieces of the blobs before |
| Demultiplexer.DemultiplyOutputs | src/node.cpp:197-261 | The status in every case, in the order of the checks, undefined where the code uses a blob, dimension or shard that is not there; and the whole resulting map in every case |
| Demultiplexer.DemultipliedExactly | src/node.cpp:197-261 | A success if and only if a count is set, the name is free, the first blob has a first dimension between 1 and 10'000, and every blob has at least 3 dims, a supported precision and, for a count other than 0, that first dimension |
| Demultiplexer.RefusedBecause | src/node.cpp:197-261 | What each other status says about the call, down to the first blob that offends and how |
| Demultiplexer.FixedModeLosesNothing | src/node.cpp:226-246 | With a count other than 0 a success means that the count is the number of pieces and every blob's pieces are its shards, so that consolidating them gives every blob back |
| InputHandlers.InputHandler.constructor | src/gathernodeinputhandler.cpp:27-35 | The dependency count is the number of dependencies times the collapsed sizes, modulo 2^32 |
| InputHandlers.InputHandler.SetInput | src/gathernodeinputhandler.cpp:37-54 | Stores one shard, refuses a shard stored before; for an ordinary handler refuses shard ids and repeated inputs; errors change nothing |
| InputHandlers.InputHandler.NotifyFinishedDependency | src/gathernodeinputhandler.cpp:56-97 | Counts down; at zero, and only then, every input's shards are consolidated; fails exactly when some input's shards do not fit together or the buffer; a failure names a cause that some input has, and leaves some inputs consolidated and the rest as after a success |
| InputHandlers.InputHandler.IsReady | src/nodeinputhandler.cpp:44-49 | Ready exactly when unused and nothing is missing |
| InputHandlers.InputHandler.GetInputs | src/nodeinputhandler.hpp:42-45 | Hands out the inputs and makes the session not ready for good |
| InputHandlers.InputHandler.ClearInputs | src/nodeinputhandler.cpp:40-42 | Empties the inputs and nothing else |
| InputHandlers.Consolidate | src/gathernodeinputhandler.cpp:64-93 | Succeeds exactly when shard 0 exists, is supported, all shards look like it and none is written out of range; then each is at its place; a failure has its cause |
| InputHandlers.WriteShards | src/gathernodeinputhandler.cpp:80-93 | Shards written in any order into an uninitialised buffer all end at their places |
| InputHandlers.WriteShard | src/gathernodeinputhandler.cpp:88-92 | A shard written at its offset leaves the others intact |
| InputHandlers.ConsolidateInputs | src/gathernodeinputhandler.cpp:61-95 | All inputs consolidated, those present before kept |
| GatherRuns.FeedExactly | src/node.cpp:110-133 | A dependency's inputs are accepted exactly when every mapped output is there and none of the shards was stored before |
| GatherRuns.ArrivalCounted | src/node.cpp:110-134 | Every successful delivery is of a new (dependency, shard) pair and takes one from the counter without wrapping |
| GatherRuns.RunTracks | src/gathernodeinputhandler.cpp:27-60 | Over every run the counter and the stored shards match the set of delivered pairs |
| GatherRuns.ReadyExactlyWhenComplete | src/gathernodeinputhandler.cpp:27-60 | Pigeonhole: no pair is delivered twice, the counter is what is left, and the session is ready if and only if every pair has arrived |
| GatherBound.ReadyModulo | src/gathernodeinputhandler.cpp:27-60 | Over every run, whatever the number of expected pairs: ready exactly when what is left is a multiple of 2^32, complete exactly when nothing is left |
| GatherBound.ReadyTooEarly | src/gathernodeinputhandler.cpp:27-60 | With 2^32 expected pairs or more, a successful run of proper, different deliveries after which the session is ready although pairs are missing |
| GatherBound.BoundExactly | src/gathernodeinputhandler.cpp:27-60 | Being ready means being complete, in all runs, if and only if fewer than 2^32 pairs are expected |
| GatherBound.ReadyWhenCreated | src/gathernodeinputhandler.cpp:30-34 | Three levels within the limit of one split whose session is ready when created |
| GatherRuns.CounterCountsDown | src/nodeinputhandler.cpp:51-55 | The closed form of the counter is what repeated unsigned decrements give |
| GatherRuns.GatherRestoresTensors | src/gathernodeinputhandler.cpp:56-97 | When all pairs have arrived the inputs are exactly the original tensors, dims and bytes |
| GatherRuns.AnyOrderSucceeds | src/gathernodeinputhandler.cpp:37-97 | Deliveries of pairwise different pairs succeed in every order |
| PipelineNode.Node.GetNodeSession | src/node.cpp:146-180 | Finds the session under the collapsed key or creates it with the collapsed metadata; null exactly when key or collapse fails |
| PipelineNode.Node.SetInputs | src/node.cpp:94-135 | Succeeds exactly when session, shard id, all inputs and the notification do, and then changes that one session by that delivery; after a failure that session, which may be new, holds the inputs set before it, or a consolidation broken off, and no other has changed |
| OrdinaryNodes.OrdinarySession | src/nodeinputhandler.cpp:26-55 | Over every run of a node that does not gather: a session is ready if and only if every dependency has delivered to it; its inputs are exactly the mapped ones, each with the blob delivered; no dependency has delivered twice |
| OrdinaryNodes.CompleteSession | src/nodeinputhandler.cpp:26-55 | When it is ready, all mapped inputs of all dependencies are there and nothing else |
| OrdinaryNodes.AcceptedExactly | src/node.cpp:82-135 | A delivery in such a run is accepted if and only if the dependency has not delivered to that session before and every mapped output is there |
| FailedCalls.FedAsFarKeeps | src/node.cpp:110-133 | Setting inputs, as far as it gets, touches neither the counter nor what is stored already |
| FailedCalls.ReadyAfterFailure | src/pipeline.cpp:126-148 | A session is ready after a failed call if and only if it is unused and its inputs were refused with its counter at zero, or its consolidation failed |
| FailedCalls.NewSessionAfterFailure | src/pipeline.cpp:126-148 | A session that a failed call has created is ready if and only if it expects a multiple of 2^32 pairs |
| FailedCalls.ReadyWithoutInputs | src/node.cpp:94-135 | With three levels of 4096, 4096 and 256 shards a first call that fails leaves a session that is ready and has no input |
| PipelineNode.Deliver | src/node.cpp:110-134 | All mapped inputs of one dependency, then the notification; on a failure as far as it got |
| PipelineNode.Node.GetReadySessions | src/node.cpp:186-195 | Exactly the keys of the ready sessions |
| PipelineNode.SessionsFiledByKey | src/node.cpp:146-180 | In every run a session is kept under its own key |
| PipelineNode.SessionRun | src/node.cpp:94-180 | Sessions do not interfere: what a node holds for one session is a run of that session's own deliveries |
| DemultiplyGather.DemultiplyDeepens | src/node.cpp:197-261 | Each entry left by a demultiplication is the nested shard one level deeper, under the subsession's metadata |
| DemultiplyGather.LeafRouted | src/node.cpp:94-104 | A shard is addressed to its root's session, collapses to the split sizes and gets its row-major position |
| DemultiplyGather.GatherInvertsDemultiply | src/gathernodeinputhandler.cpp:56-97 | For nested shards of tensors, with other sessions interleaved and shards in any order: ready if and only if every dependency delivered every position, and then the inputs are the original tensors |
| PipelineRuns.DemultiplierCuts | src/node.cpp:197-261 | What a successful demultiplication leaves is an entry for every subsession, one link of a chain |
| PipelineRuns.ChainReaches | src/node.cpp:197-261 | By induction over the depth: every entry a chain of demultiplications leaves is the nested shard of its tensor, under the chain's metadata |
| PipelineRuns.LeafExists | src/node.cpp:197-261 | A chain of demultiplications reaches every position |
| PipelineRuns.GatherUndoesDemultiplication | src/gathernodeinputhandler.cpp:56-97 | Over every run of a gathering node fed by such entries: ready if and only if all positions have arrived, and then the inputs are the tensors before the first demultiplication |
| PipelineRuns.AnyOrderOfLeaves | src/node.cpp:94-135 | For every order of the entries there is a run of the node in which every call succeeds; with all of them it ends ready with those tensors |
| StreamPool.RunInv | src/ovinferrequestsqueue.cpp:22-56 | Over every run of whole calls: each stream in one place, promises served in order, nobody waits while a stream is idle |
| StreamPool.FirstComeFirstServed | src/ovinferrequestsqueue.cpp:28-47 | A fulfilled promise was made before every unfulfilled one |
| StreamPool.OVInferRequestsQueue.constructor | src/ovinferrequestsqueue.hpp:49-57 | Starts as the full pool in order |
| StreamPool.OVInferRequestsQueue.GetIdleStream | src/ovinferrequestsqueue.cpp:22-38 | The ring and the promise queue refine taking the oldest idle stream, or queueing |
| StreamPool.OVInferRequestsQueue.ReturnStream | src/ovinferrequestsqueue.cpp:40-56 | Refines serving the oldest waiter or appending to the idle streams; the slot written was empty |
| StreamPoolSteps.StepGood | src/ovinferrequestsqueue.cpp:22-56 | Every step of every client at lock granularity keeps the invariant: locks, promises, ring segment, places of streams |
| StreamPoolSteps.RoomToReturn | src/ovinferrequestsqueue.cpp:49-55 | The slot a return is about to fill is empty, by counting streams against slots |
| StreamPoolSteps.EveryStreamInOnePlace | src/ovinferrequestsqueue.cpp:22-56 | In every reachable state each id is in exactly one slot, hand or future |
| StreamPoolSteps.NoStreamIsOverwritten | src/ovinferrequestsqueue.cpp:43-55 | A return never overwrites a stream and no promise is fulfilled twice |
| StreamPoolSteps.WaitingBesideAnIdleStream | src/ovinferrequestsqueue.cpp:27-55 | A reachable state with a waiter beside an idle stream |
| StreamPoolSteps.BrokenOnlyByLatePromise | src/ovinferrequestsqueue.cpp:27-29 | The same at one step: the rule is broken if and only if a promise is queued after a stream came back |
| StreamTaking.SeenIsTaken | src/ovinferrequestsqueue.cpp:27-37 | Over every run, in every interleaving: a client that finds a stream in the front slot takes that one, whatever others do, and one that finds none goes on to queue a promise |
| StreamTaking.SeenIsGot | src/ovinferrequestsqueue.cpp:27-37 | And the future it gets holds the stream it saw |
| StreamGuards.StepOk | src/nodestreamidguard.hpp:26-66 | Every protocol action keeps pool conservation, exclusivity and the accounting of streams to open guards |
| StreamGuards.GuardReturnsExactlyOnce | src/nodestreamidguard.hpp:31-59 | Along every protocol-respecting run a guard gives its stream back exactly once, at disarming or destruction |
| StreamGuards.NodeStreamIdGuard.constructor | src/nodestreamidguard.hpp:27-29 | Takes a ticket from the pool: the object is the guard that the system's creation action makes |
| StreamGuards.NodeStreamIdGuard.TryGetId | src/nodestreamidguard.hpp:42-49 | Follows the system's action: the id granted to this guard's ticket, once it is there, the future consumed once |
| StreamGuards.TryGetMeans | src/nodestreamidguard.hpp:42-49 | In every state that keeps the invariant: an id if and only if the stream has been granted, and then the granted one |
| StreamGuards.NodeStreamIdGuard.TryDisarm | src/nodestreamidguard.hpp:51-59 | Follows the system's action: the stream is given back, and the guard disarmed, exactly when the future is ready |
| StreamGuards.TryDisarmMeans | src/nodestreamidguard.hpp:51-59 | Disarms if and only if the stream has been granted, and then gives it back |
| StreamGuards.NodeStreamIdGuard.Destroy | src/nodestreamidguard.hpp:31-40 | Follows the system's action: the stream is given back unless disarmed |
| StreamGuards.DestroyMeans | src/nodestreamidguard.hpp:31-40 | The destructor gives back the granted stream unless the guard was disarmed |
| InstanceLifecycle.StepGood | src/modelinstance.cpp:468-716 | Every step of every thread keeps counter, lock, protection and what each thread knows |
| InstanceLifecycle.CounterCountsGuards | src/modelinstanceunloadguard.cpp:21-28 | In every reachable state the handle counter is the number of live guards |
| InstanceLifecycle.OkMeansGuard | src/modelinstance.cpp:634-682 | A request answered OK has a live guard, one answered otherwise has none |
| InstanceLifecycle.UsedComponentsAreStable | src/modelinstance.cpp:537-716 | While a request that was answered OK holds its guard, no thread is tearing down or rebuilding, and the components are those it was given |
| InstanceLifecycle.NoStepChangesUsedComponents | src/modelinstance.cpp:537-716 | And no step that anyone can take changes them |
| InstanceLifecycle.DynamicReloadContract | src/modelinstance.cpp:537-608 | From the request to the return of a dynamic reload: OK leaves a guard on a model whose network has the requested batch size or, where no batch is set, the requested shape on every auto input; failure leaves none, and a model that is failed loading or available with exactly the network of a first unparameterised load; no parameter is answered exactly to an empty request |
| OperationOutcomes.DynamicReloadOutcome | src/modelinstance.cpp:537-608 | Over every run, by the loads that succeed and fail: OK if and only if the first load with the request succeeds, or it fails and a second one, from no kept network, succeeds; a failure means both failed and a third, without parameter and from no kept network, was made, and the model is available if and only if that one succeeded, failed otherwise |
| OperationOutcomes.OperationOutcome | src/modelinstance.cpp:523-716 | How every operation ends: a load or plain reload is decided by its one load; a retirement ends the instance and a clean-up leaves it failed, both without components |
| RequestAnswers.AnsweredByTests | src/modelinstance.cpp:634-682 | A request is answered OK at its first test that sees the model available and only then; it is told that the model is not loaded yet only after all its tests |
| RequestAnswers.RefusedByPhase | src/modelinstance.cpp:634-682 | Which negative answer it gets, by the phase it saw last |
| RequestAnswers.RefusedOnlyByRetirement | src/modelinstance.cpp:684-702 | Whatever loads and reloads fail, a model that nobody retires is never unloading or ended, and no request is told that it is not loaded any more |
| InstanceLifecycle.PlainReloadContract | src/modelinstance.cpp:468-551 | A plain reload that ends OK is loaded from the network kept when it began, unless the custom loader had it unloaded; equal to a first load if and only if nothing was kept or the kept network differs only in what is set |
| NetworkLoading.LoadInputTensors | src/modelinstance.cpp:64-134 | Fails exactly when the configuration does not fit or a needed reshape fails; with no batch size to set, every input ends with the shape requested for it where the configuration says auto, else the one configured under its name, else the anonymous one, else its own |
| NetworkLoading.ShapeInputs | src/modelinstance.cpp:97-119 | The loop gives every input its shape and says whether any has changed |
| NetworkLoading.ConfigureMeans | src/modelinstance.cpp:97-109 | The shape of every input after a whole load, spelled out: a batch size replaces the first dimension and nothing else, otherwise the rule for shapes holds |
| NetworkLoading.RejectedExactly | src/modelinstance.cpp:65-87 | With one input, a configuration is rejected if and only if it names an input that is not there |
| NetworkLoading.RejectedExactlyForSeveral | src/modelinstance.cpp:65-87 | With several, also if there is a layout without a name, or a single shape, which is fixed and anonymous |
| NetworkLoading.LoadHonours | src/modelinstance.cpp:97-109 | Whatever the network was before, the batch size set is there, and without one the requested shape is on every auto input |
| NetworkLoading.KeptEqualsRead | src/modelinstance.cpp:482-497 | A load on a kept network ends as one from the files if and only if the two differ only in what the load sets |
| NetworkLoading.PlainReloadKeepsBatch | src/modelinstance.cpp:460-466 | A plain reload after a dynamic batch change keeps the batch; it is the first load's network exactly if the files have that batch |
| NetworkLoading.RequestedBatchExactly | src/modelinstance.cpp:589-597 | The requested batch size is the network's afterwards if and only if it fits an int, or the load would have ended with it anyway |
| NetworkLoading.BatchBeyondInt | src/modelinstance.cpp:589-597 | Two requested batch sizes beyond int and what they set |
| VersionPolicy.SetIntersection | src/model_version_policy.cpp:38-43 | The sorted merge gives the intersection, ascending |
| VersionPolicy.SetDifference | src/modelmanager.cpp:808-812 | The sorted merge gives the difference, ascending |
| VersionPolicy.BinarySearch | src/modelmanager.cpp:1033 | The loop finds what the search function finds, on any list |
| VersionPolicy.FindsAllExactlyWhenAscending | src/modelmanager.cpp:1033-1035 | On a duplicate-free list every element is found if and only if the list is ascending |
| VersionPolicy.NameOrderHidesVersion | src/modelmanager.cpp:901-909 | A list in directory-name order in which a version is not found |
| VersionOrder.PassAgreesExactly | src/modelmanager.cpp:901-909 | On a duplicate-free list the whole pass, versions and outcome, and the retry loop alone are those on the set of its versions, for all registered versions, policies, blacklists and outcomes of loads, if and only if the list is ascending |
| VersionLists.LoopExactly | src/modelmanager.cpp:1027-1043 | Round by round, for one outcome of the loads: the retry loop is the set-level loop if and only if every failing version it tries is found |
| VersionLists.AscendingReconciles | src/modelmanager.cpp:997-1089 | On an ascending list the whole pass is the set-level one, with the same outcome |
| VersionLists.NameOrderStrandsFallback | src/modelmanager.cpp:1027-1061 | On the list 10, 9 with the latest version asked for and only 9 loading the pass fails with nothing available, where the policy would fall back to 9 |
| VersionPolicy.Filter | src/model_version_policy.cpp:35-61 | On distinct versions: All serves everything, a specific policy the versions it names, Latest as many as there are up to N, each above everything left out |
| VersionPolicy.FilterLatest | src/model_version_policy.cpp:54-61 | The loop keeps exactly the versions with fewer than N above them |
| VersionPolicy.ServedMonotone | src/model_version_policy.cpp:35-61 | A served version stays served when others disappear |
| VersionPolicy.ServedSurvivors | src/model_version_policy.cpp:35-61 | If everything served survives, dropping the rest changes nothing |
| ModelConfigs.ReloadRequiredExactly | src/modelconfig.cpp:44-105 | A reload is required if and only if the configurations differ in a field other than those the comparison leaves out: what a load fills in, the version policy and the loader option text |
| ModelConfigs.SettledExactly | src/modelconfig.cpp:44-105 | None is required if and only if replacing six named fields makes the one the other |
| ModelConfigs.ShapesEqualIsEquality | src/modelconfig.cpp:121-136 | The comparison by cases is equality of the shape maps |
| ModelConfigs.CustomLoaderChangedIsInequality | src/modelconfig.cpp:107-119 | The comparison by cases is inequality of the option maps |
| VersionDiff.GetVersionsToChange | src/modelmanager.cpp:748-834 | For distinct requested versions the sort, merges and filters give exactly the start, reload and retire sets, each ascending |
| VersionDiff.DiffIsDisjoint | src/modelmanager.cpp:748-834 | The three sets are pairwise disjoint, blacklist included |
| VersionDiff.StartIgnoresBlacklist | src/modelmanager.cpp:763-783 | The blacklist never keeps a new version from starting |
| Reconciliation.FewerToTry | src/modelmanager.cpp:1027-1043 | Each failing round strictly decreases the number of available unregistered versions |
| Reconciliation.LoopFinishes | src/modelmanager.cpp:1021-1043 | What the retry loop keeps and where it ends: registered versions, failed ones, and a reload list independent of the rounds |
| Reconciliation.LoopServes | src/modelmanager.cpp:1021-1043 | The loop settles on what the policy would pick had it known which new versions load |
| Reconciliation.AvailableAfterPass | src/modelmanager.cpp:997-1089 | The AVAILABLE set after any pass over settled versions: those still served when all failures are known that the loop had picked, or that were available before |
| Reconciliation.PolicyFallback | src/modelmanager.cpp:997-1089 | The AVAILABLE set after the pass is the policy applied to the registered versions and the new ones that load, less the blacklisted, if and only if no registered version fails to reload |
| Reconciliation.PolicyFallbackFromEmpty | src/modelmanager.cpp:997-1089 | For an empty model: the policy applied to the available versions that load |
| Reconciliation.FallbackForAll | src/modelmanager.cpp:997-1089 | For that policy: exactly the available versions that load |
| Reconciliation.FallbackForSpecific | src/modelmanager.cpp:997-1089 | Exactly those of them that the policy names |
| Reconciliation.FallbackForLatest | src/modelmanager.cpp:997-1089 | As many of them as there are up to N, each above every other one that loads |
| Reconciliation.PickedAreConfigured | src/modelmanager.cpp:787-805 | What the policy picks and is available after the pass runs with the configuration of the pass, in all that is compared |
| Reconciliation.FailedReloadFailsThePass | src/modelmanager.cpp:1045-1088 | A pass in which a reload fails ends in a failure |
| Reconciliation.OutcomeByRounds | src/modelmanager.cpp:1021-1088 | The outcome otherwise: whether there was anything to do if the first versions tried load, a failure if they do not and none is left to try instead, and else that of a pass over the others |
| Reconciliation.HistorySettled | src/modelmanager.cpp:997-1089 | After any history of passes every instance is available, ended or failed |
| Reconciliation.FinishedVersion | src/modelmanager.cpp:1045-1082 | Each version after the pass: kept if still served, otherwise ended, or left failed if it failed in the pass |
| Reconciliation.QuietPass | src/modelmanager.cpp:1021-1088 | A pass with nothing to do changes nothing and reports no reload |
| Reconciliation.Converges | src/modelmanager.cpp:1021-1088 | After a pass whose attempted loads all succeed, the same pass finds nothing to start, reload or retire |
| Reconciliation.ConvergesExactly | src/modelmanager.cpp:1021-1088 | Without a blacklist that holds if and only if every load of the first diff succeeds |
| ModelVersions.Model.UpdateDefaultVersion | src/model.cpp:83-99 | The highest available version other than the ignored one, or 0 |
| ModelVersions.Model.AddVersion | src/model.cpp:124-138 | Registered before it is loaded, whatever the outcome; the default is right after a success |
| ModelVersions.Model.AddVersions | src/model.cpp:140-160 | All are registered, the failed list is exactly those that do not load, a right default stays right |
| ModelVersions.Model.ReloadVersion | src/model.cpp:268-281 | Reloaded whatever the outcome; only a success looks at the default |
| ModelVersions.Model.ReloadVersions | src/model.cpp:246-285 | All are reloaded, failures appended to the list; the default is the highest of what was available when it was last looked at |
| ModelVersions.TopIsDefaultExactly | src/model.cpp:268-281 | After the reloads the default is right if and only if the highest version that was available or reloaded well is not one whose reload failed |
| ModelVersions.DefaultLeftOnFailed | src/modelmanager.cpp:1045-1061 | On the list 10, 9 a failed reload of 10 is not found and not cleaned up, and 10 stays the default |
| ModelVersions.Model.DropVersions | src/model.cpp:162-204 | Retiring or cleaning up all of a list leaves the default right if it was not empty and fits int |
| ModelVersions.Model.RetireAllVersions | src/model.cpp:206-224 | Every version ends and the default becomes 0 |
| ModelVersions.DefaultAfterDropExactly | src/model.cpp:83-93 | When the default is right after taking out one version, in terms of the int it is passed as |
| ModelVersions.DefaultStaleBeyondInt | src/model.cpp:83-93 | A version beyond int whose retirement leaves it the default |
| ModelVersions.RemoveFailed | src/modelmanager.cpp:1031-1037 | Each failed version is searched for in what is left and removed if found, on any list |
| ModelVersions.StartPhase | src/modelmanager.cpp:1021-1043 | The retry loop ends for all distinct versions and computes the list-level loop; a right default stays right |
| ModelVersions.FinishPhase | src/modelmanager.cpp:1045-1082 | Reloads, removals, retirements and clean-ups compute the list-level end of the pass; when a right default is right after it |
| ModelVersions.FailedReloadsAreCleanedUp | src/modelmanager.cpp:1052-1064 | Every failed reload that has come off the list is among the versions cleaned up |
| ModelVersions.ReloadModelWithVersions | src/modelmanager.cpp:997-1089 | The whole pass on any distinct list: version map and status as the list-level pass says; if the versions fit int, a right default is right after it if and only if something is retired or cleaned up in the end or the top version's reload has not failed; a missing custom loader retires everything |
| ModelVersions.RemovedReloadsKeepDefault | src/modelmanager.cpp:1052-1064 | That holds when every failed reload has come off the list, as on ascending lists |
| CustomNodeOutputs.AccumulateTruncates | src/customnodesession.cpp:180 | The int accumulator ends as the product of the dims truncated to int, whatever overflows on the way |
| CustomNodeOutputs.ExpectedBytesExactly | src/customnodesession.cpp:180-182 | When the expected byte length is the true one |
| CustomNodeOutputs.AcceptedLengthExactly | src/customnodesession.cpp:180-194 | An accepted tensor has the bytes of its shape if and only if the element count fits an int or is just below the end of the address space |
| CustomNodeOutputs.AcceptedExactly | src/customnodesession.cpp:150-235 | Acceptance in numbers: dimensions and data are there, the blob can be made, and the length is the product truncated to an int, widened, times 4, 2 or 1 by precision |
| CustomNodeOutputs.RefusedBecause | src/customnodesession.cpp:150-235 | Which check refuses a tensor: the first that it does not pass |
| CustomNodeOutputs.LengthCheckFails | src/customnodesession.cpp:180-194 | 2^32 elements over an empty buffer are accepted, 2^31 elements with all their bytes are refused |
| CustomNodeOutputs.TensorResourcesGuard.Destroy | src/customnodesession.cpp:137-144 | Releases dims, and data unless it was kept |
| CustomNodeOutputs.CustomNodeSession.CreateBlob | src/customnodesession.cpp:150-235 | The verdict on a tensor in the order of the checks; the data buffer is owned by the blob exactly when one is returned, all else is released |
| CustomNodeOutputs.CustomNodeSession.Emplace | src/customnodesession.cpp:102 | A name used before keeps its blob and the new one's buffer is released |
| CustomNodeOutputs.CustomNodeSession.TakeOutput | src/customnodesession.cpp:87-103 | One tensor's buffers are released or owned by a stored blob, once |
| CustomNodeOutputs.CustomNodeSession.Execute | src/customnodesession.cpp:62-108 | Each early exit with what it releases; otherwise every buffer is released once or owned by one stored blob, the first good tensor of each name is stored, and the status is a missing name's or the first failure's |
| CustomNodeOutputs.CustomNodeSession.Destroy | src/custom_node_output_allocator.hpp:44-46 | The blobs that are left release what they own |
| CustomNodeOutputs.ExecuteAndDestroy | src/customnodesession.cpp:84-108 | Over the life of a session the released addresses are exactly the buffers handed over, as often as handed over |
| CustomNodeOutputs.StoredDataIsAlive | src/customnodesession.cpp:128-235 | If the library's buffers are all different, a stored blob's buffer has not been released and no other blob has it |

## Left out

- Demultiplexer.DemultiplyOutputs: where the code uses a blob, dimension or shard that is not there, the map is described as it is at that point, and nothing beyond.
- InputHandlers.InputHandler.NotifyFinishedDependency: which of several failing inputs is reported depends on the iteration order of a hash map and is left open.
- PipelineNode.Node.SetInputs: takes blobs whose bytes match their dims.
- Runs of a node with failed calls in between: the pipeline breaks off its loop at the first failure, so a failed call is described on its own.
- StreamGuards.NodeStreamIdGuard.Destroy: the blocking `get` of the future is the moment at which the call is enabled.
- StreamPoolSteps.StepGood: a compare-exchange that fails is modelled as reloading the index; spurious failures change nothing and are not steps.
- ModelVersions.ReloadModelWithVersions: takes distinct available versions, so not directories such as "1" and "01" together.
- InstanceLifecycle.DynamicReloadContract: a network is the shapes of its inputs; setting the batch size replaces the first dimension of each, a reshape gives the inputs the shapes asked for, and each can fail. The files of a configuration do not change between loads.
- Model instances are a transition system rather than a class, because the properties are about interleavings; the mutex is one step to take and one to release.
- Layouts: the effective shape of a tensor is taken to be its dims, and layouts of outputs are not modelled.
- `fetchResults` erasing a finished session from its node, and `setInputs` over a whole `SessionResults` map, which repeats the modelled call.
- A load's outcome is an arbitrary but fixed predicate within a pass; failures of the file system, of downloads and of mapping files are part of it.
- The status of a newly registered instance before `loadModel` is taken to be START; the code default-constructs it without initialising the state.
- Whether a custom loader's options changed is an arbitrary choice at each reload; the blacklist is an arbitrary set.
- The checks on stateful and dynamic parameters at the start of the manager's pass, subscriptions and notifications, clean-up of all versions: one branch each.
- Versions are positive numbers without a 64-bit bound; counters of handles and sessions are unbounded.
- Execution guards that take a stream and return it in the destructor: the special case of a guard that is never disarmed.
- The pipeline event loop, pipeline definitions, stateful models and sequences.
- Weak memory, exceptions thrown by third-party code other than the modelled ones, and liveness.
- File systems, request parsing and validation, HTTP and gRPC services, OpenVINO itself.
