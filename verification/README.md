# Verified model of the training infrastructure

This project models the parts of the repository whose correctness is a matter of
state and arithmetic, and proves what they are for:

- **Activation offload** (`offload_window`, `streams`, `stream_order`, `offload_tables`,
  `offload_handler`, `offload_runs`): the asynchronous handler that copies activation
  groups to the host in the forward pass, frees them on a schedule and brings them back in
  the backward pass. The handler is a class; whole training runs (any layers, any number of
  rounds, any number of groups up to the number of layers, any order of pops in a layer)
  are methods over it. Device streams are a log of enqueued operations with the
  happens-before relation that `wait_stream` gives.
- **Weight synchronisation** (`weight_chunks`, `weight_buckets`, `weight_places`): split,
  bucket packing, unpacking and merge of named weights as byte sequences, with the place of
  every chunk in its buffer.
- **The NIXL chain** (`nixl_chain`, `nixl_safety`, `nixl_results`, `nixl_topology`) and
  **the NCCL rounds** (`nccl_rounds`, `nccl_safety`, `nccl_results`): transition systems in
  which all ranks, executor threads and transfers interleave arbitrarily, with an
  invariant over every run, absence of deadlock, and a measure that falls at every step.
- **Nearest box** (`nearest_box`): the column sweep against a brute-force optimum.
- **Replay buffer** (`replay_buffer`, `replay_protocol`, `replay_progress`, `replay_ends`):
  the locked store, and trainer, workers and polling thread around it under every
  interleaving: what a sample holds, that the wait for it ends, and what a step leaves behind.
- **Session selection** (`session_keys`, `session_selection`): parsing of output keys, the
  final row of every session, and scattering its score.
- **Pipeline shards and QKV unpacking** (`pipeline_shards`, `qkv_split`).
- **Batches** (`meta_merge`, `data_proto`, `data_padding`, `data_chunks`): padding, chunking
  and concatenation of parallel columns, and merging their metadata and metrics; `blocks`
  holds the facts about equal blocks.
- **Round-robin buckets** (`named_buckets`) of the Kimi engine.

`basics` holds what the modules share. Integers are unbounded, as in Python.

## Axioms on the environment

A copy or kernel is one event on its stream; events of one stream are in order, and
`wait_stream` orders everything enqueued so far before everything enqueued later. A remote
read copies one chunk slot at a time out of the neighbour's live buffer and then notifies
it. A receiver's broadcast copies slot by slot out of the root's buffer, and only after
the root has entered that round. A byte slice can be viewed as a wider type only at an
offset that is a multiple of the item size. Sockets are FIFO; requests at the REP socket may be
served in any order. The transfer queue is an atomic key/tag store, and new uids never
repeat.

## Where the code and its documentation disagree

- `verl/utils/activation_offload.py:230` allows as many offload groups as commits. Values
  come back then too, but the copy of every group except the first is started before the
  group has any tensor, so that only the first group ever leaves the device
  (`OffloadWindow.HostedAllIff`, `OffloadHandler.AsyncHandler.ResidentExactly`).
- Host copies are shared by storage key. Tensors that share a key with different contents do
  not come back: with other extents a view fails, with other strides a wrong tensor is
  returned silently (`OffloadTables.ExtentsFail`, `OffloadTables.TransposeIsLost`).
- Chunks are packed back to back, so that a weight may lie where its bytes cannot be viewed
  as its type; the receiver then fails (`WeightPlaces.MixedTypesMisalign`,
  `WeightPlaces.OddBucketMisaligns`). One item size that divides the bucket size is enough
  to rule this out (`WeightPlaces.OneTypeAligns`).
- Padding a batch and concatenating its chunks change a "metrics" entry unless it is an empty
  dictionary (`MetaMerge.MetricsAreWrapped`).
- A prompt fails as soon as one of its sessions raises, while its other sessions go on. A
  sample may then miss what they put (`ReplayProtocol.FailedPromptLosesOutputs`). It misses
  nothing exactly when all sessions of every failed prompt of the step are over, each having
  put its outputs or raised, and what they put is in the buffer
  (`ReplayProtocol.NothingLostIff`).
- The docstring of `get_dynamic_pipeline_shards` promises a sharding as uniform as
  possible. The largest stage is indeed minimal, but the spread is minimal only under the
  condition of `PipelineShards.MostUniformIff`, and for some valid inputs the search ends
  in an `IndexError` (`PipelineShards.FailsOnFiveOverFour`).

## Model

| member | source | states |
|---|---|---|
| OffloadWindow.BuildWindowMap | verl/utils/activation_offload.py:250-257 | the constructor's table with its running constant is the closed-form schedule, for every G >= 1 |
| OffloadWindow.WindowIncreasing | verl/utils/activation_offload.py:250-257 | at most one group is freed per layer commit: the schedule is strictly increasing |
| OffloadWindow.WindowEven | verl/utils/activation_offload.py:246-257 | the schedule is even: L/G commits pass from one freeing to the next, one more for each of the first L mod G groups |
| OffloadWindow.WindowLast | verl/utils/activation_offload.py:250-257 | the last group is freed exactly at the last layer's commit |
| OffloadWindow.WindowAfterOwnCommit | verl/utils/activation_offload.py:229-232 | every group is freed only after its own commit if and only if there are fewer groups than layers |
| OffloadWindow.AtMostTwoIff | verl/utils/activation_offload.py:503-504 | the schedule never leaves more than two groups resident if and only if G = L-1, the value line 543 passes |
| OffloadWindow.HostedAllIff | verl/utils/activation_offload.py:324-345 | every group is complete when its copy starts if and only if all groups really go to the host: always with G < L, and with G = L only for one group |
| OffloadWindow.FreedStep | verl/utils/activation_offload.py:319-345 | for all G <= L the counter of freed groups advances at a commit exactly when the table names the next group |
| OffloadWindow.FreedStepBack | verl/utils/activation_offload.py:373-395 | the backward test against the same table undoes exactly the forward step of that layer |
| Streams.SafeAppend | verl/utils/activation_offload.py:324-391 | a safe log stays safe when the appended operation is ordered after everything it depends on |
| Streams.KnownHasRun | verl/utils/activation_offload.py:319-395 | whatever the log says is ordered has run in every schedule that respects FIFO streams and `wait_stream` |
| Streams.SafeInEverySchedule | verl/utils/activation_offload.py:319-395 | in every such schedule of a safe log, a copy runs after the computation it copies, a drop and a reload after the copy, and a use after the reload |
| StreamOrder.AppendCopyOut | verl/utils/activation_offload.py:298-317 | a device-to-host copy enqueued after the wait follows the compute of every tensor it copies |
| StreamOrder.AppendDrop | verl/utils/activation_offload.py:324-345 | a group's device buffers are dropped only after its copy is ordered before later compute |
| StreamOrder.AppendReload | verl/utils/activation_offload.py:354-391 | a reload enqueued on the h2d stream follows the copy it reads |
| StreamOrder.AppendUse | verl/utils/activation_offload.py:285-296 | a pop uses a reloaded group only when compute has waited for its reload |
| OffloadTables.ComesBackIff | verl/utils/activation_offload.py:298-317 | one host copy per key, of the tensor pushed first, gives a layer back exactly if tensors that share a key have the same contents |
| OffloadTables.ExtentsFail | verl/utils/activation_offload.py:364-371 | two views of one buffer with different extents: the copy does not have the size of the second view, so that the view on reload fails |
| OffloadTables.TransposeIsLost | verl/utils/activation_offload.py:364-371 | a matrix and its transpose: every view fits and a wrong tensor comes back without an error |
| OffloadTables.VisitFirst | verl/utils/activation_offload.py:303-311 | the first tag with a key in insertion order is the one that is copied, and its contents are what comes back for all tags with that key |
| OffloadHandler.AsyncHandler.TensorPush | verl/utils/activation_offload.py:263-283 | a push keeps the handler's invariant, files the tensor under a fresh tag of the current group, or passes a stray tensor through; tensors that share a key may differ |
| OffloadHandler.AsyncHandler.TensorPop | verl/utils/activation_offload.py:285-296 | a pop returns the type, shape and contents due for that tag, never a host handle, forgets only that tag, and is ordered after the reload |
| OffloadHandler.AsyncHandler.BulkOffloadGroup | verl/utils/activation_offload.py:298-317 | exactly the group's tensors become host handles, backed by one copy per key of the tensor pushed first; nothing else changes |
| OffloadHandler.AsyncHandler.BulkReloadGroup | verl/utils/activation_offload.py:354-371 | fails exactly when a copy does not fit a view; otherwise exactly the group's handles become device tensors with the copied contents and their own types and shapes; no lookup fails |
| OffloadHandler.AsyncHandler.OnGroupCommitForward | verl/utils/activation_offload.py:347-352 | a forward commit keeps the invariant, keeps everything saved, and moves on to the next group |
| OffloadHandler.AsyncHandler.SynchronizeOnGroupCommitForward | verl/utils/activation_offload.py:319-345 | the commit's offloading and freeing follow the schedule and the stream order |
| OffloadHandler.AsyncHandler.OnGroupCommitBackward | verl/utils/activation_offload.py:373-395 | a backward commit keeps the invariant and has the group about to be popped on the device and waited for, or fails because some copy does not fit a view |
| OffloadHandler.AsyncHandler.AtMostTwoResident | verl/utils/activation_offload.py:503-504 | in every valid state with G = L-1 at most two offload groups are resident |
| OffloadHandler.AsyncHandler.ResidentExactly | verl/utils/activation_offload.py:319-395 | which groups hold device memory, in every valid state and for all G <= L, follows from the commit count and the freed count |
| OffloadRuns.ForwardLayer | verl/utils/activation_offload.py:263-352 | a layer's pushes and commit keep the invariant, and the handler holds for every tensor what it will give back |
| OffloadRuns.BackwardLayer | verl/utils/activation_offload.py:285-395 | popping a layer's handles in any order gives every held value and empties the layer, unless some copy does not fit a view |
| OffloadRuns.TrainRound | verl/utils/activation_offload.py:347-395 | for all 1 <= G <= L a forward and backward pass fails exactly when some copy does not fit a view; otherwise it gives back what is due for every layer and ends in the initial state |
| OffloadRuns.RunComesBackIff | verl/utils/activation_offload.py:298-371 | what is due is what was pushed exactly if every layer that goes to the host is key-consistent, and then no view fails |
| OffloadRuns.TrainRun | verl/utils/activation_offload.py:221-395 | for all 1 <= G <= L and any number of rounds, exact failure; every consumer gets the type, shape and contents that were pushed if and only if layers that go to the host are key-consistent; the whole run's stream log is safe |
| WeightChunks.SplitWeightChunks | verl/checkpoint_engine/base.py:515-529 | the split loop yields the chunk list of the specification |
| WeightChunks.MergeConcat | verl/checkpoint_engine/base.py:544-571 | merging a stream is merging its first part and then the rest from the pending state |
| WeightChunks.SmallWeightMerges | verl/checkpoint_engine/base.py:549-554 | a weight that fits in a bucket comes back if its place allows the view as its type, and the view fails otherwise |
| WeightChunks.LargeWeightMerges | verl/checkpoint_engine/base.py:556-571 | a weight larger than a bucket merges to exactly itself wherever its chunks lie, and leaves nothing pending |
| WeightChunks.SplitThenMerge | verl/checkpoint_engine/base.py:515-571 | for every bucket size, weight list and placement, split then merge yields the non-empty weights, in order and byte for byte, if and only if every weight in one piece is aligned; no assertion ever fails |
| WeightChunks.NothingLostIff | verl/checkpoint_engine/base.py:518 | the receiver's list is the sender's if and only if no weight has zero bytes |
| WeightChunks.MergeWeightChunks | verl/checkpoint_engine/base.py:544-571 | the loop with its preallocated buffer, filled slice by slice, computes the merge of any chunk stream, or stops with the same assertion or tensor error |
| WeightChunks.MergeNeverMixes | verl/checkpoint_engine/base.py:544-571 | whatever stream the merge accepts, every weight it yields has exactly the bytes of its own run of chunks, all under its name and each where it belongs, and no chunk is left out |
| WeightBuckets.NextFitFlatten | verl/checkpoint_engine/nccl_checkpoint_engine.py:275-307 | packing loses, repeats and reorders no chunk |
| WeightBuckets.SplitPackable | verl/checkpoint_engine/base.py:515-529 | chunks of distinctly named weights fit a bucket, and no bucket can get two chunks of one weight |
| WeightBuckets.SendBuckets | verl/checkpoint_engine/nccl_checkpoint_engine.py:271-323 | the send loop with two alternating buffers sends one bucket per next-fit group, each carrying its group; both assertions hold |
| WeightBuckets.UnpackCarried | verl/checkpoint_engine/nccl_checkpoint_engine.py:373-390 | a bucket reads back as the group it carries, each chunk at its offset, whatever old bytes lie behind it |
| WeightBuckets.ReceiveChunks | verl/checkpoint_engine/nccl_checkpoint_engine.py:362-390 | the receive loop yields exactly the packed chunks in order, with their places |
| WeightBuckets.NextFitGroups | verl/checkpoint_engine/nccl_checkpoint_engine.py:275-307 | any two consecutive buckets together carry more than a bucket, and no bucket is empty unless the stream is |
| WeightBuckets.BucketCount | verl/checkpoint_engine/nccl_checkpoint_engine.py:275-307 | K buckets satisfy (K/2)*(bucket_size+1) <= total bytes |
| WeightPlaces.NextFitPlaces | verl/checkpoint_engine/nccl_checkpoint_engine.py:303-307 | the running offset of the send loop is the size of what lies before a chunk in its next-fit group |
| WeightPlaces.MixedTypesMisalign | verl/checkpoint_engine/base.py:552 | a two-byte weight followed by a four-byte one is not aligned |
| WeightPlaces.OddBucketMisaligns | verl/checkpoint_engine/base.py:552 | one two-byte type with a bucket of five bytes is not aligned either |
| WeightPlaces.OneTypeAligns | verl/checkpoint_engine/base.py:549-554 | one item size that divides the bucket size aligns every weight list |
| WeightPlaces.SynchronizeWeights | verl/checkpoint_engine/nccl_checkpoint_engine.py:259-390 | end to end, split, pack, unpack and merge give exactly the non-empty weights if and only if the weights are aligned, fail in a view otherwise, and never fail an assertion |
| NixlTopology.ChainIff | verl/checkpoint_engine/nixl_checkpoint_engine.py:288-305 | the slices describe one chain from trainer rank 0 through all rollout ranks if and only if there are at least two of these |
| NixlSafety.StepInv | verl/checkpoint_engine/nixl_checkpoint_engine.py:143-219 | every step of every rank or transfer keeps the chain's invariant |
| NixlSafety.RunInv | verl/checkpoint_engine/nixl_checkpoint_engine.py:386-518 | the invariant holds in every state of every run |
| NixlResults.DeliversInOrder | verl/checkpoint_engine/nixl_checkpoint_engine.py:445-518 | in every reachable state every rank has yielded a prefix of the sender's chunk sequence, and all of it once done |
| NixlResults.NotifyKeyMatches | verl/checkpoint_engine/nixl_checkpoint_engine.py:159-174 | at most one readable operation is outstanding per rank and the notification it waits for has its key: the assertion never fails |
| NixlResults.NeverOverwrites | verl/checkpoint_engine/nixl_checkpoint_engine.py:386-518 | no write goes to a buffer the next rank may still read or the local consumer still views |
| NixlResults.NoDeadlock | verl/checkpoint_engine/nixl_checkpoint_engine.py:393-518 | in every state of the invariant all ranks are done or some rank can step |
| NixlResults.StepWorks | verl/checkpoint_engine/nixl_checkpoint_engine.py:393-518 | every step of every interleaving makes a natural measure of the remaining work smaller |
| NixlResults.EveryRunCompletes | verl/checkpoint_engine/nixl_checkpoint_engine.py:393-518 | run length is bounded and a run that cannot go on has delivered everything to every receiver |
| NixlResults.SenderBucketsOk | verl/checkpoint_engine/nixl_checkpoint_engine.py:386-432 | the sender's loop only produces bucket sequences the chain's proofs assume |
| NixlResults.EveryReceiverGetsTheWeights | verl/checkpoint_engine/nixl_checkpoint_engine.py:368-518 | a completed run under any interleaving gives every receiver chunks that merge to exactly the non-empty weights if the weights are aligned, and whose merge fails in a view if not |
| NcclSafety.RootEnters | verl/checkpoint_engine/nccl_checkpoint_engine.py:91-107 | when the root enters a broadcast every receiver has its metadata for that round |
| NcclSafety.ServesInTurn | verl/checkpoint_engine/nccl_checkpoint_engine.py:91-98 | whichever waiting request the root takes, its receiver was not served in this round and asks for this round |
| NcclSafety.StepInv | verl/checkpoint_engine/nccl_checkpoint_engine.py:84-110 | every step of root and receivers keeps the invariant |
| NcclSafety.RunInv | verl/checkpoint_engine/nccl_checkpoint_engine.py:271-390 | the invariant holds in every state of every run |
| NcclResults.ReceivesInOrder | verl/checkpoint_engine/nccl_checkpoint_engine.py:346-390 | every receiver has yielded a prefix of the sender's chunk sequence, and all of it once done |
| NcclResults.ServedOncePerRound | verl/checkpoint_engine/nccl_checkpoint_engine.py:91-98 | the anonymous requests of one round come from pairwise distinct receivers, each getting the metadata of the bucket it then receives |
| NcclResults.EntersTogether | verl/checkpoint_engine/nccl_checkpoint_engine.py:84-107 | the root enters a broadcast only in step with every receiver |
| NcclResults.BuffersKeptApart | verl/checkpoint_engine/nccl_checkpoint_engine.py:277-390 | the root never writes a buffer with a broadcast in flight, and the buffer a receiver yields from stays intact |
| NcclResults.NcclNoDeadlock | verl/checkpoint_engine/nccl_checkpoint_engine.py:84-110 | every reachable state is final or has a step, even if the root's call returns only after all receivers have the data |
| NcclResults.NetWorks | verl/checkpoint_engine/nccl_checkpoint_engine.py:84-390 | every step makes the measure of remaining work smaller |
| NcclResults.EveryRoundCompletes | verl/checkpoint_engine/nccl_checkpoint_engine.py:271-390 | run length is bounded and a run that cannot go on has delivered everything to every receiver |
| NcclResults.EveryReceiverMerges | verl/checkpoint_engine/nccl_checkpoint_engine.py:259-390 | a completed run gives every receiver chunks that merge to exactly the non-empty weights if the weights are aligned, and whose merge fails in a view if not |
| NearestBox.ColumnLimit | annotation/geometric_nearby.py:31-32 | a row of a column is within the cap if and only if its vertical overlap is within the column's limit |
| NearestBox.CandidatesAllowed | annotation/geometric_nearby.py:33-45 | every candidate is allowed, so the re-check at line 45 never skips one |
| NearestBox.CandidatesSuffice | annotation/geometric_nearby.py:33-42 | every allowed row of a column is a candidate or strictly farther than one |
| NearestBox.OptimaAreCandidates | annotation/geometric_nearby.py:27-51 | every globally optimal box is among the examined candidates |
| NearestBox.ColumnRows | annotation/geometric_nearby.py:31-42 | the loop body computes the column's candidates |
| NearestBox.CapIsIoU | annotation/geometric_nearby.py:26 | the second stage's cap is exactly the bound of 1/20 on intersection over union |
| NearestBox.IntersectionCounts | annotation/geometric_nearby.py:13-15 | the product of the overlaps is the number of pixels two boxes have in common |
| NearestBox.InPixels | annotation/geometric_nearby.py:25-46 | the two caps mean no common pixel, and at most a twentieth of all pixels in common |
| NearestBox.DisjointIsSlide | annotation/geometric_nearby.py:25-51 | the nearest disjoint box is the positive box moved straight to one side by its width or its height, whichever is smaller of those that fit |
| NearestBox.Stage | annotation/geometric_nearby.py:27-51 | a stage returns a global optimum over all allowed boxes whenever one exists, for every outcome of the random tie-break |
| NearestBox.DisjointFitsIff | annotation/geometric_nearby.py:25-52 | a disjoint box exists if and only if some margin is at least the width or the height |
| NearestBox.Choose | annotation/geometric_nearby.py:18-52 | in pixels and squares written out: a box of the positive box's size in the image, disjoint if any such box is, otherwise with at most a twentieth of the pixels in common, and no qualifying box is nearer; an error exactly when there is none or the input is malformed |
| ReplayBuffers.ReplayBuffer.Add | verl/trainer/main_ppo_sync.py:215-227 | every item's given tags replace the old ones, its other tags and all other keys stay; other partitions stay |
| ReplayBuffers.ReplayBuffer.Remove | verl/trainer/main_ppo_sync.py:229-240 | exactly the given keys disappear |
| ReplayBuffers.ReplayBuffer.SampleOnce | verl/trainer/main_ppo_sync.py:258-275 | a pass waits exactly while a prompt of the step runs and otherwise hands out exactly the step's successful keys, each once |
| ReplayProtocol.StepInv | verl/trainer/main_ppo_sync.py:202-240 | every action of trainer, workers and polling thread keeps the invariant |
| ReplayProtocol.RunInv | verl/trainer/main_ppo_sync.py:202-275 | the invariant holds in every state of every run |
| ReplayProtocol.NeverKeyError | verl/trainer/main_ppo_sync.py:258-275 | no pass of sampling meets an entry without the tags it reads, whatever stale listing was added |
| ReplayProtocol.SampleIsExact | verl/trainer/main_ppo_sync.py:202-275 | in every interleaving a sample holds only outputs of the current step, every prompt of the step has its final status, and all outputs of finished prompts are there |
| ReplayProtocol.NothingLostIff | verl/trainer/main_ppo_sync.py:333-351 | in every run, no output that a prompt of the step has put or will ever put is missing from a sample if and only if, when it is taken, every session of every failed prompt of the step is over (has put its outputs or has raised) and the prompt's outputs are in the buffer; finished prompts always meet this |
| ReplayProtocol.SampleIsComplete | verl/trainer/main_ppo_sync.py:341-351 | when no prompt of the step failed nothing is ever lost, and the sample is exactly the step's outputs |
| ReplayProtocol.FailedPromptLosesOutputs | verl/trainer/main_ppo_sync.py:333-351 | a run with two sessions a prompt: one raises, the prompt fails, the trainer samples the step without it, and then the other session puts an output |
| ReplayProtocol.TrainerSample | verl/trainer/main_ppo_sync.py:258-275 | the buffer object's pass returns what the protocol samples and waits exactly when the protocol does |
| ReplayProgress.NothingStays | verl/trainer/main_ppo_sync.py:1564-1566 | between two steps the transfer queue holds no outputs but those of failed prompts, in every run |
| ReplayProgress.TrainedBatch | verl/trainer/main_ppo_sync.py:1564-1595 | the batch that is trained on and removed has all outputs of the step's finished prompts and all its padding, and nothing of another step |
| ReplayProgress.RemovalsAreExact | verl/trainer/main_ppo_sync.py:1565-1566 | clearing the queue and removing from the buffer take exactly the batch |
| ReplayProgress.OutputWasPut | verl/trainer/main_ppo_sync.py:418-423 | every output there is was put by an earlier step of the run |
| ReplayProgress.SampledWasPut | verl/trainer/main_ppo_sync.py:258-275 | a sample has each output that the sessions of a finished prompt put, one by one, and nothing that was not put |
| ReplayProgress.WaitEnds | verl/trainer/main_ppo_sync.py:202-275 | once every prompt of the step has its result, one listing and a poll after it are enough, whatever happens in between: from then on `sample` returns, with all outputs of finished prompts |
| ReplayEnds.EveryWaitCanEnd | verl/trainer/main_ppo_sync.py:341-351 | from every state of every run in which the trainer waits, a continuation within the step lets every prompt without a raised session finish, changes no result, and ends where `sample` returns |
| SessionKeys.KeyRoundTrip | verl/trainer/main_ppo_sync.py:396 | a printed key reads back as its session and index, even when the uid has underscores, whatever else `int` accepts |
| SessionKeys.ParseExact | verl/trainer/main_ppo_sync.py:148-151 | what the two last underscores of any key make of it, and exactly when it does not have three parts or its index is no number |
| SessionKeys.DigitsReadDecimals | verl/trainer/main_ppo_sync.py:150 | any `int` that reads plain digits reads back every printed index |
| SessionKeys.SessionNameInjective | verl/trainer/main_ppo_sync.py:148-151 | two different (uid, session) pairs never share a session key |
| SessionKeys.PrintedKeyDetermined | verl/trainer/main_ppo_sync.py:148-151 | printed keys with the same session and index are the same key |
| SessionSelection.SessionMaxIsFinal | verl/trainer/main_ppo_sync.py:145-153 | the dictionary holds every session once, with the first row of its highest index |
| SessionSelection.FinalIff | verl/trainer/main_ppo_sync.py:145-153 | a row is final if and only if no row of its session has a higher index and none before it the same |
| SessionSelection.MalformedTakes | verl/trainer/main_ppo_sync.py:870-880 | in validation a key without three parts takes its entry from whatever row had it, and keeps it until another row concerns it |
| SessionSelection.ScatterSessions | verl/trainer/main_ppo_sync.py:144-162 | fails exactly on a key without three parts or with an index that `int` refuses; otherwise one final row per session, and every row is mapped to a row of its session that no other has a higher index than, and none before it the same |
| SessionSelection.ValidateSelection | verl/trainer/main_ppo_sync.py:868-882 | selects, in ascending order, exactly the rows its dictionary ends with, on well-formed keys exactly the final ones; fails exactly on an index that `int` refuses |
| SessionSelection.ScatterSelectsFinals | verl/trainer/main_ppo_sync.py:155-162 | a correct scatter selects every final row once and no other row |
| SessionSelection.SelectionsAgree | verl/trainer/main_ppo_sync.py:868-884 | training and validation select the same rows |
| SessionSelection.ScatterIgnoresOrder | verl/trainer/main_ppo_sync.py:162-179 | permuting the rows maps every row to the same final key, so the scattered score commutes with the permutation |
| PipelineShards.MeanIsBest | verl/model_merger/megatron_model_merger.py:83-96 | if any middle size fits, the rounded-up mean fits and wins the sort strictly |
| PipelineShards.GetDynamicPipelineShards | verl/model_merger/megatron_model_merger.py:57-98 | exact failure; otherwise a split whose largest stage is minimal over all splits, with every stage between the ends the rounded-up mean and the last stage equal to the first or one more |
| PipelineShards.LargestIsAtLeastMean | verl/model_merger/megatron_model_merger.py:57-66 | every split into p stages has a stage of at least the rounded-up mean |
| PipelineShards.FailsOnFiveOverFour | verl/model_merger/megatron_model_merger.py:96 | five layers over four ranks can be split but the search finds no candidate |
| PipelineShards.MostUniformIff | verl/model_merger/megatron_model_merger.py:65 | the result has the smallest possible spread if and only if ceil(L/p)*p - L <= 2 |
| QkvSplit.ChunksMatchIff | verl/model_merger/megatron_model_merger.py:339-350 | the integer divisions of the sizes match every chunk if and only if the rows divide by groups*(q_per_kv+2) |
| QkvSplit.SplitChunks | verl/model_merger/megatron_model_merger.py:344-354 | the loop fails exactly when a chunk has another size and otherwise collects the three parts of every group |
| QkvSplit.SplitQkv | verl/model_merger/megatron_model_merger.py:330-354 | exact failure; otherwise every row of q, k and v is the row of the tensor at its closed-form index |
| QkvSplit.PartFromGroups | verl/model_merger/megatron_model_merger.py:344-354 | row p of a part is row p mod n of what it has of group p/n |
| QkvSplit.RegroupRestores | verl/model_merger/megatron_model_merger.py:344-354 | re-interleaving per group restores the tensor |
| QkvSplit.UnpackingIsExact | verl/model_merger/megatron_model_merger.py:344-354 | any q, k and v come back out of their fused tensor, and nothing else does |
| QkvSplit.RowsMoveHome | verl/model_merger/megatron_model_merger.py:344-354 | every source row is at its closed-form index in q, k, v laid end to end |
| QkvSplit.PlacedExactlyOnce | verl/model_merger/megatron_model_merger.py:344-354 | that index map is a bijection of the rows |
| MetaMerge.DictOfLists | verl/utils/py_functional.py:359-368 | fails exactly when a dictionary has a key the first one lacks; otherwise collects every key's items in order |
| MetaMerge.GatheredLists | verl/utils/py_functional.py:359-368 | a list has one item for every dictionary with its key, in the order of the dictionaries |
| MetaMerge.MetricsInTurn | verl/protocol.py:943-948 | the metrics are those of all batches in turn: a list counts for its items, None for nothing, anything else for itself |
| MetaMerge.MergeMeta | verl/protocol.py:937-958 | exact success and exact kind of error; every other entry stays as it was; the metrics have the first dictionary's keys, each with the values of all dictionaries that have it, in order, so that with the same keys everywhere item i is the value of batch i |
| MetaMerge.CopiesIff | verl/protocol.py:937-958 | merging copies of one dictionary keeps everything but the metrics, and the metrics exactly if there are none or they are an empty dictionary |
| MetaMerge.MetricsAreWrapped | verl/protocol.py:957-958 | merging two copies of one metric turns its value into a list |
| DataProtos.Concat | verl/protocol.py:917-961 | succeeds exactly on fitting batches; every column is the rows of all batches one after the other, and the metadata is merged |
| DataPadding.PadToDivisor | verl/protocol.py:74-99 | exact failures, least multiple of the divisor; row i of every column is row i modulo the rows there were |
| DataPadding.JoinCyclic | verl/protocol.py:89-95 | one round of the pad loop continues the cycle |
| DataPadding.PadThenUnpad | verl/protocol.py:74-106 | unpad gives all rows back whenever padding works, and inverts pad if and only if nothing was added or the metrics are stable |
| DataPadding.Unpad | verl/protocol.py:102-106 | all rows but the last pad_size ones, none if there are fewer |
| DataChunks.CutTensors | verl/protocol.py:878-893 | the tensor library's pieces and the cumulative cut indices are the same equal blocks, with and without tensors |
| DataChunks.CutArrays | verl/protocol.py:886-895 | every array is cut at the same rows as the tensors |
| DataChunks.Chunks | verl/protocol.py:864-903 | fails exactly when the rows do not divide; otherwise chunk i is rows i*size up to (i+1)*size of every column of both kinds, with the same metadata |
| DataChunks.JoinedPieces | verl/protocol.py:917-961 | the first pieces joined are the first rows of the batch |
| DataChunks.ChunkThenConcat | verl/protocol.py:864-961 | concatenating the chunks gives all rows back whenever the metrics merge, and is the identity on tensors, arrays and metadata if and only if the metrics are stable |
| NamedBuckets.ShareExact | verl/checkpoint_engine/kimi_checkpoint_engine.py:49-51 | tensor j is item j/W of rank j mod W, and a rank has as many items as there are such positions |
| NamedBuckets.ShareAt | verl/checkpoint_engine/kimi_checkpoint_engine.py:49-51 | item i of a rank is tensor i*W + rank |
| NamedBuckets.SharesCover | verl/checkpoint_engine/kimi_checkpoint_engine.py:49-51 | all ranks together have as many tensors as there are |
| NamedBuckets.GroupsExact | verl/checkpoint_engine/kimi_checkpoint_engine.py:52-63 | packing keeps all tensors in order, every group is within the limit unless it is one oversized tensor, and a group is closed only when the next tensor does not fit |
| NamedBuckets.AsDictExact | verl/checkpoint_engine/kimi_checkpoint_engine.py:59 | a bucket has every name of its group once, with the last tensor under it, in the order in which the names came first |
| NamedBuckets.BucketsExactIff | verl/checkpoint_engine/kimi_checkpoint_engine.py:58-59 | a rank's dictionaries hold its whole share if and only if no packed group repeats a name |
| NamedBuckets.NamedTensorBuckets | verl/checkpoint_engine/kimi_checkpoint_engine.py:37-63 | both errors exactly; otherwise the rank's share, packed, each group a dictionary |
| NamedBuckets.AllRanks | verl/checkpoint_engine/kimi_checkpoint_engine.py:37-63 | for distinct names, over all ranks every tensor is at its place exactly once, order kept, every bucket within the limit |

## Left out

- The synchronous base handler's own push and pop, the autograd hooks, pinned memory and the
  copy kernels of the activation offload; the stray-tensor and filter tests are one flag of
  the tensor.
- OffloadHandler: tensor contents are read when they are pushed; in-place changes of a saved
  tensor between push and copy are not modelled.
- NIXL and NCCL buffers are sequences of chunk slots, written and read slot by slot;
  `WeightBuckets` proves separately that the slots lie apart in the bytes.
- A NIXL agent that takes notifications from several peers: line 137 rebinds the one remote
  name, so each rank has a single next rank here, as the topology gives it.
- `TensorMeta.dtype` is its item size; a view to another type keeps the bytes. Weights are contiguous,
  as the split's own view needs.
- WeightChunks.MergeWeightChunks: streams whose headers contradict each other stop with an error; that
  a one-byte chunk is broadcast into a slice of another length is not modelled.
- NixlResults and NcclResults: a receiver goes on taking chunks after its merge has failed.
- mooncake_checkpoint_engine.py: its flow control shares bytes with the data it guards, so the
  code decides no clean safety statement.
- hccl_checkpoint_engine.py: the NCCL scheme without splitting would only add an easier copy.
- The rest of kimi_checkpoint_engine.py depends on library functions outside the repository.
- The random generator of the box search: its draws are arbitrary. Non-integer coordinates
  are ruled out by the model's types.
- Equality of metadata values is plain equality; values that refuse to be compared are not modelled.
- Waiting and sleeping in the replay buffer's sample loop: one locked pass is modelled. Its
  `batch_size` argument selects no rows in the code either.
- Validation sampling: several batches share one step number there.
- SessionSelection: the advantage estimator between selection and scatter is a score per final
  key.
- PipelineShards and QkvSplit: the rest of the weight conversion is naming and file access.
- DataChunks.Chunks: a batch with tensors has at least one row, because what the tensor library does
  when it chunks no rows is not part of this repository; batches of arrays alone may be empty.
- Columns of `DataPadding` and `DataChunks` are parallel; without tensors the code does not check that.
- Auto-padding, ragged chunks, serialisation, device moves and iterators of `DataProto`.
- CUDA, NCCL, RDMA, ZeroMQ, Ray and the transfer queue appear only as the axioms above.
- Evaluation, data readers, annotation requests, launch scripts and configuration: plumbing.
