# Verified model of the dataflow checkpoint, program-surgery and reference-model cores

A Dafny 4.11 project that models the parts of the repository with the most intricate state and
proves what they promise. `dafny verify dfyconfig.toml` checks everything.

* **Checkpoints** (`CheckpointRecord`, `CheckpointReassembly`, `CheckpointSave`, `CheckpointProtocol`,
  `CheckpointDirectory`, `CheckpointSafety`, `CheckpointDestination`, `CheckpointSharing`,
  `CheckpointTwins`, `CheckpointRestore`, `CheckpointPlacement`, `CheckpointRoundTrip`). Many sources
  snapshot slices of logical objects; a record is written last. The record checks are loops over
  entries, proved exact in both directions. An accepted object is a tiling, and any choice of replicas
  rebuilds one byte string. The save is a step machine in which
  sources write their slices on their own, even into one directory, and any step may fail or be the
  last; its invariant holds over every run, and the destinations on which a record means a complete
  checkpoint are characterised exactly. Saving and then restoring writes back every byte of the targets
  and nothing else, and the bytes are those the sources had in memory.
* **RL program surgery** (`RlKeys`, `RlProgram`, `RlValidity`, `RlTwoRounds`, `RlMeaning`). The rewrite of a
  standard training chain, the exact condition under which its result is a valid program, and
  preservation of meaning under a store semantics with uninterpreted kernels.
* **Packed execution and selection** (`PackedForward`, `DeltaAttention`, `PackedReference`,
  `SparseSelection`, `IndexShare`, `IndexPacking`, `IndexTies`, `IndexerLoss`). Restarted positions,
  block-causal masks and per-segment recurrences compose, over any stack of layers, to complete
  non-interference between packed sequences. The recurrence is attention over corrections, and every row
  of a forward is a token-by-token reference without states, masks or padding. For sparse top-k
  selections shared across layers there is the exact condition under which packing leaves the masks of a
  sequence alone in all layers.
* **Expert routing** (`ExpertRouting`, `RoutingBias`, `RouterBias`, `RoutePack`). Group-limited top-k
  routing and how it depends on the bias, the balance bias over whole training runs, and the routing sort
  with three equivalent ways to add up expert outputs.
* **Small exact kernels** (`ExactOracle`, `SimulatorClock`, `DispatchFloor`, `DispatchLanes`,
  `RlHeadLoss`, `RlHeadGradient`, `RlHeadInputs`, `RlHeadNorm`, `RmsNorm`, `Derivative`). The exhaustive
  plan search over the simulator's clock, the offload/prefetch ring for every chain length and every
  interleaving of its transfers, and the chunked policy-gradient head, whose four results are proved to
  be its loss and the derivatives of that loss in the head weight, the rows and the norm weight.

Arithmetic is over exact integers and reals. Numeric kernels (projections, norms, rope, attention,
exp, logsumexp) are arbitrary functions of the values they read. A hash is an arbitrary function of
the bytes, and that it is injective is an explicit hypothesis where a result needs it. Source keys are
taken in sorted order.

What the proofs found where the code does less than its documentation says:

* `check_replica_hashes` compares with `get`, so two replicas without hashes count as equal, also two
  slices of one snapshot that fill one span from different bytes (`TwinsAreAccepted`). Replicas are
  interchangeable if and only if every replica carries a hash (`ReplicaCertificateIsExact`).
* `hash_by_span` keeps one hash per span. An entry carries the hash of its own bytes if and only if its
  slice is the last one requested for that span (`OwnHashExactly`); a source that fills a span from two
  places lands a record whose readers disagree (`SharedSpanMisleads`). Policies emit requests and
  entries in step, and then filling no span from two places is enough (`InStepOwnsHashes`,
  `LandedSaveRestores`).
* Saving into a destination that already holds a record truncates its snapshots while the record
  still stands, and the composer never compares the directories of its sources, so two sources may
  write into one. "A record means complete" holds over all runs if and only if no snapshot of an old
  record is rewritten and, if the save can land at all, sources that share a directory agree on it
  (`SafeExactly`); for sources as the policies emit them that is to request the same spans in the same
  order (`PlainSafeExactly`). Two replicas may share a directory (`SharedReplicasAreSafe`), two sources
  of different objects may not (`SharedDirectoryMisleads`).
* A target list that names a non-empty object twice resolves to a plan, and the engine refuses it as
  overlapping with itself (`AdmittedExactly`, `RepeatedTargetWritesNothing`).
* A restore places every slice of the logical object that the snapshot holds, listed in the record or
  not. It writes nothing but the rebuilt bytes if and only if no such slice differs on a byte its
  snapshot is the source of (`RestoreWritesOnlyExactly`). What a caller can check for that is that the
  record lists every slice, as it does for sources in step (`RestoreWritesOnly`, `LandedSaveRestores`).
* The RL rewrite names every head of a step alike, so a standard program with two accumulation rounds
  rewrites to an invalid one (`TwoRoundsClash`, `TwoHeadsClash`), and there it also takes the gradient
  for the weight (`GradientForWeight`). The exact condition is `Rewritable`, stated in
  `RlValidExactlyWhenRewritable`.
* Packing leaves the masks of a sequence alone in all layers, for every top-k kernel, if and only if
  its standalone selections met no tie (`StaysInsideExactly`, for one row `LeaderRowShiftsExactly`);
  `TiedRoundDiffers` is a round where it does not.
* The simulator gives an idle stream the end 2^63, so a time that reaches it makes its loops complete a
  transfer that is not there. Such a run aborts instead of returning a log (`ReturnedIsBounded`,
  `AbortsOnlyAtTheLimit`), the oracle does not catch that, and "infeasible" means that no map is a valid
  plan (`FindExactPlan`).
* The dispatch-floor program declares too little fast memory for a single task with objects above
  one eleventh of 64 MiB (`FastCapacityExactly`).
* A packed round with an empty sequence is refused as soon as there is a linear layer, and an empty
  list of sequences always is (`ForwardPacked`).
* In the clipped surrogate the `in_band` disjunct is redundant (`BandIsPicked`), and the gradient is
  the derivative everywhere but at the two kinks, where there is none (`DerivativeExactly`,
  `GlpIsDerivative`).

## Model

| member | source | states |
|---|---|---|
| CheckpointRecord.CheckEntryShapes | src/dataflow/checkpoint/record.py:127-152 | passes exactly when every entry names a listed snapshot, has equal lengths, stays inside the object, and its source range lies inside the resident object of the bare id |
| CheckpointRecord.ShapeRefusal | src/dataflow/checkpoint/record.py:127-152 | refuses an entry exactly when it breaks one of the five shape rules; the rule it names is broken and every rule checked before it is met |
| CheckpointRecord.Bare | src/dataflow/checkpoint/record.py:142 | the id up to its last `@`, or all of it when there is none |
| CheckpointRecord.SweepStep | src/dataflow/checkpoint/record.py:167-170 | one turn of the gap sweep keeps: gaps so far are sorted, disjoint, non-empty and hold exactly the uncovered bytes below the cursor |
| CheckpointRecord.SweepEnd | src/dataflow/checkpoint/record.py:171-173 | closing the sweep at the total gives exactly the uncovered bytes of the object |
| CheckpointRecord.CoverageGaps | src/dataflow/checkpoint/record.py:163-173 | the gaps are sorted, disjoint, separated, non-empty, and a byte is in one exactly when no entry covers it |
| CheckpointRecord.CheckCoverage | src/dataflow/checkpoint/record.py:155-160 | passes exactly when every byte of the object is covered |
| CheckpointRecord.CheckInterval | src/dataflow/checkpoint/record.py:184-198 | finds a clash on an elementary interval exactly when two coverers have different spans, comparing only against the first |
| CheckpointRecord.SweepIsComplete | src/dataflow/checkpoint/record.py:182-192 | looking only at elementary intervals misses nothing: uniform intervals everywhere mean that entries sharing any byte have equal spans |
| CheckpointRecord.CheckOverlap | src/dataflow/checkpoint/record.py:176-198 | refuses exactly when two entries share a byte and differ in span |
| CheckpointRecord.GroupBySpan | src/dataflow/checkpoint/record.py:206-208 | a span has a group exactly when some entry has that span, and the group is the subsequence of its entries, with their order and repeats |
| CheckpointRecord.CheckTwins | src/dataflow/checkpoint/record.py:209-212 | finds the first replica whose hash differs from that of the first, and none exactly when all agree |
| CheckpointRecord.CheckReplicaHashes | src/dataflow/checkpoint/record.py:201-218 | passes exactly when all entries of one span carry the same hash, absent counted as a value |
| CheckpointRecord.CheckElementBoundary | src/dataflow/checkpoint/record.py:236-250 | passes exactly when the first field touching the endpoint has it on an element boundary |
| CheckpointRecord.CheckAlignment | src/dataflow/checkpoint/record.py:230-233 | passes exactly when every endpoint of every entry is on an element boundary |
| CheckpointRecord.CheckObject | src/dataflow/checkpoint/record.py:115-121 | passes exactly when the object is in bounds, complete, overlaps only by exact replicas, and its hashes agree |
| CheckpointRecord.CheckLogical | src/dataflow/checkpoint/record.py:115-124 | adds the digest and alignment rules where a field schema is given, and is exact for both |
| CheckpointRecord.ValidateRecord | src/dataflow/checkpoint/record.py:86-124 | passes exactly when the record is valid |
| CheckpointRecord.ReadRecord | src/dataflow/checkpoint/record.py:72-83 | returns the document exactly when it is present, of this schema and valid |
| CheckpointReassembly.AcceptedObjectTiles | src/dataflow/checkpoint/record.py:115-124 | the distinct object ranges of an accepted object tile it exactly, in order, with no gap or overlap |
| CheckpointReassembly.ReassembledLength | src/dataflow/checkpoint/record.py:115-124 | any choice of replicas along a tiling rebuilds a byte string of the full length |
| CheckpointReassembly.ReassembledByte | src/dataflow/checkpoint/record.py:115-124 | each rebuilt byte is the corresponding byte of the payload chosen for its span |
| CheckpointReassembly.AnyReplicaRebuilds | src/dataflow/checkpoint/record.py:201-218 | if every replica carries a hash and equal hashes mean equal bytes, all choices of replicas rebuild one full-length string; two entries of a span are replicas as soon as they name different snapshots or different resident bytes |
| CheckpointReassembly.UncertifiedReadersDisagree | src/dataflow/checkpoint/record.py:212 | two unhashed replicas, in two snapshots or in one, are accepted and can rebuild different objects |
| CheckpointReassembly.TwinsAreAccepted | src/dataflow/checkpoint/record.py:201-218 | an accepted object with two unhashed slices of one snapshot that fill one span from different bytes, whose readers disagree |
| CheckpointReassembly.ReplicaCertificateIsExact | src/dataflow/checkpoint/record.py:201-218 | in an accepted object any reader may take any replica if and only if every replica carries a hash |
| CheckpointReassembly.ElementInOneSpan | src/dataflow/checkpoint/record.py:230-250 | with disjoint fields of whole elements, each element of each field lies in exactly one span of the tiling |
| CheckpointRecord.ElementBits | src/dataflow/checkpoint/record.py:26-27 | an element of a listed dtype takes as many bits as the number its name ends with |
| CheckpointRestore.ChooseSources | src/dataflow/checkpoint/targets.py:126-141 | one source per covered byte and none elsewhere, each the lowest-index covering snapshot, in order |
| CheckpointRestore.CoalesceWindows | src/dataflow/checkpoint/targets.py:220-232 | merging abutting windows changes no byte and its destination nor how often it is sent, keeps order, and leaves no two abutting |
| CheckpointRestore.GroupPieces | src/dataflow/checkpoint/targets.py:200-203 | pieces grouped by snapshot and object, each group in order |
| CheckpointRestore.MergeWindows | src/dataflow/checkpoint/targets.py:208-209 | sorting then coalescing sends exactly the bytes the windows sent, each as often |
| CheckpointRestore.MergeSteps | src/dataflow/checkpoint/targets.py:196-213 | one step per snapshot in index order, sending exactly what the pieces send, with the recorded path |
| CheckpointRestore.LogicalPieces | src/dataflow/checkpoint/targets.py:106-122 | the pieces of all targets in order; fails only on a target the record does not list |
| CheckpointRestore.AllPiecesPlanned | src/dataflow/checkpoint/targets.py:107-123 | those pieces send exactly the requested bytes home from their sources, each as often as it was requested |
| CheckpointRestore.ResolveLogical | src/dataflow/checkpoint/targets.py:32-43 | a plan exists exactly when the record is valid and lists every target; it sends every byte of every target home from its chosen source, once per request, and nothing else; every step reads the directory recorded for its snapshot, and none is empty |
| CheckpointPlacement.CheckOverlaps | src/dataflow/service/handlers_snapshot.py:141-147 | comparing sorted neighbours finds an overlap exactly when two windows share a byte |
| CheckpointPlacement.ValidateRemap | src/dataflow/service/handlers_snapshot.py:112-147 | admits a remap exactly when its windows are well formed and inside their targets, no two windows of one logical object overlap, and targets of one id agree on their size |
| CheckpointPlacement.StepAdmittedExactly | src/dataflow/service/handlers_snapshot.py:142-147 | a step of a resolved plan is admitted if and only if it moves no object that was requested twice |
| CheckpointPlacement.AdmittedExactly | src/dataflow/service/handlers_snapshot.py:112-147 | the engine admits every step of a resolved plan if and only if no non-empty object was requested twice |
| CheckpointPlacement.RepeatedTargetWritesNothing | src/dataflow/service/handlers_snapshot.py:142-147 | of an object that was requested twice, nothing is written |
| CheckpointPlacement.AnySliceHolds | src/dataflow/checkpoint/record.py:201-205 | any slice covering a byte holds the byte that every choice of replicas rebuilds |
| CheckpointPlacement.RestoreWritesAll | src/dataflow/service/handlers_snapshot.py:166-175 | carrying out an admitted plan writes every byte of the object with the rebuilt value |
| CheckpointPlacement.RestoreWritesOnlyExactly | src/dataflow/service/handlers_snapshot.py:150-188 | carrying out an admitted plan over all slices the snapshots hold writes no other object, place or value if and only if no snapshot holds a slice that differs on a byte it is the source of, listed in the record or not |
| CheckpointPlacement.RestoreWritesOnly | src/dataflow/service/handlers_snapshot.py:158-175 | where the record lists every slice of the object in the snapshots it uses, an admitted plan writes nothing but the rebuilt bytes |
| CheckpointSave.HashBySpan | src/dataflow/checkpoint/compose.py:105-111 | maps each span to the hash reported last for it |
| CheckpointSave.LastHashIs | src/dataflow/service/handlers_snapshot.py:226-257 | the hash kept for a span is that of the bytes cut by the last request for it |
| CheckpointSave.OwnHashExactly | src/dataflow/checkpoint/compose.py:71-83 | with hashes that identify bytes, an entry gets the hash of its own bytes whatever the objects hold if and only if its own slice is the last one requested for its span |
| CheckpointSave.AppendSource | src/dataflow/checkpoint/compose.py:71-83 | succeeds exactly when the source reported a hash for each of its entries, and appends them under its index |
| CheckpointSave.ComposeSlices | src/dataflow/checkpoint/compose.py:60-83 | succeeds exactly when every source is fully hashed, and yields every source in order |
| CheckpointSave.ComposedProvenance | src/dataflow/checkpoint/compose.py:70-83 | the snapshot index of each slice names the source whose status supplied its hash |
| CheckpointSave.ComposedKeepsEachSource | src/dataflow/checkpoint/compose.py:70-83 | restricted to one source, the composed slices are its own entries, none lost, repeated or reordered |
| CheckpointSave.CheckReplicationDrift | src/dataflow/checkpoint/compose.py:114-134 | passes exactly when replicas agree in every object |
| CheckpointSave.TabulateAndCheck | src/dataflow/checkpoint/compose.py:60-85 | composing and then the drift check yield a table exactly when a hashed, drift-free one exists |
| CheckpointSave.DriftFreeRecordIsCertified | src/dataflow/checkpoint/compose.py:85-102 | once the drift check passes, the replica check of the record cannot refuse, and every replica is hashed |
| CheckpointProtocol.ComposeAndCheck | src/dataflow/checkpoint/compose.py:60-85 | yields a slice table exactly when a composed, drift-free one exists |
| CheckpointDirectory.SoleIsIntact | src/dataflow/service/handlers_snapshot.py:226-251 | a job that has its directory to itself leaves the slices it streamed, each verifying |
| CheckpointDirectory.HoldEachOther | src/dataflow/service/handlers_snapshot.py:390-396 | two jobs whose payload files hold the slices of each other at their offsets write the same file |
| CheckpointDirectory.OverlayIsFile | src/dataflow/service/handlers_snapshot.py:226-240 | jobs that write the same file into one directory leave it, however their writes and truncations interleave |
| CheckpointProtocol.RunKeepsInv | src/dataflow/checkpoint/compose.py:43-102 | every state of every run, with any interleaving of slice writes, any failure or stop between any two steps and whatever the snapshot paths, keeps the protocol invariant |
| CheckpointSafety.RecordMeansComplete | src/dataflow/checkpoint/compose.py:43-102 | a record at the final name is valid and every slice it names verifies on disk, in every state, if the save rewrites no snapshot of an earlier record and sources that share a directory agree on it |
| CheckpointSafety.FreshSaveIsAllOrNothing | src/dataflow/checkpoint/compose.py:50-58 | into a fresh destination a record exists exactly after landing; then every source finished and the record validates; a raised or stopped save leaves none |
| CheckpointSafety.LandedRecordDescribes | src/dataflow/checkpoint/record.py:43-71 | the record a save lands carries the schema, the step, the seed and the logical objects it was given, and for every source its directory, key and inventory |
| CheckpointSafety.DiskIsIdentified | src/dataflow/service/handlers_snapshot.py:226-257 | in a landed save with own directories and own hashes, the recorded hash of every entry is that of its bytes on disk, so an injective hash identifies the payloads |
| CheckpointSafety.LandedRecordRebuilds | src/dataflow/checkpoint/record.py:63-69 | from the disk of a landed record, with an injective hash, own directories and own hashes, all choices of replicas rebuild every object to the same full-length bytes |
| CheckpointSafety.LandedSlicesExist | src/dataflow/service/handlers_snapshot.py:226-251 | that disk does hold every slice the record names |
| CheckpointSafety.LandRun | src/dataflow/checkpoint/compose.py:43-102 | finished, hashed, drift-free sources with a valid record admit a run that lands |
| CheckpointSafety.OverwritingBreaksCompleteness | src/dataflow/service/handlers_snapshot.py:224-226 | a run in which re-saving truncates a snapshot that the record still at the final name refers to |
| CheckpointDestination.LandedIsLandable | src/dataflow/checkpoint/compose.py:60-102 | whether a save can validate does not depend on the bytes: if finished jobs of any content compose to a valid record, so does the dry run on zero-filled objects |
| CheckpointDestination.DriftFreeIsValid | src/dataflow/checkpoint/compose.py:60-102 | if the dry run validates, so does the record of any contents on which replicas agree |
| CheckpointDestination.DisagreementBreaks | src/dataflow/service/handlers_snapshot.py:226-251 | if a source that shares the directory of a contributing one would write another payload file or report another hash, some interleaving lands a record that is not backed |
| CheckpointDestination.SerialSharingBreaks | src/dataflow/checkpoint/compose.py:45-49 | a source that does not request a span recorded by another in its directory: even one after the other, the later job replaces the slice and the record lands all the same |
| CheckpointDestination.SafeExactly | src/dataflow/checkpoint/compose.py:43-49 | with hashes that identify bytes, every state of every run keeps the completeness marker if and only if the save rewrites no snapshot of a record already there and, if it can land at all, sources that share the directory of a contributing one agree with it on payload file and hashes for all drift-free contents |
| CheckpointSharing.SharersAgreeExactly | src/dataflow_training/distributed/source_policy.py:96-197 | sources as the policies emit them, in step and streaming no byte twice, agree on the directories they share if and only if they request the same spans in the same order |
| CheckpointSharing.PlainSafeExactly | src/dataflow/checkpoint/compose.py:43-49 | for such sources the destination is safe if and only if no snapshot of a record already there is rewritten and, if the save can land, sources that share a directory request the same spans in the same order |
| CheckpointTwins.SharedSpanMisleads | src/dataflow/checkpoint/compose.py:105-111 | a landed save, marker intact and all slices on disk, whose readers disagree: one source fills a span twice and both entries carry the last hash |
| CheckpointTwins.SharedDirectoryMisleads | src/dataflow/checkpoint/compose.py:45-49 | two sources of different objects in one directory: the save lands and its record is not backed |
| CheckpointTwins.SharedReplicasAreSafe | src/dataflow/checkpoint/compose.py:45-49 | two sources that write the same byte of the same object into one directory are safe in every interleaving |
| CheckpointSafety.ReaderAcceptsWhatWriterAccepts | src/dataflow/checkpoint/record.py:63-83 | what the writer validated, the reader accepts |
| CheckpointRoundTrip.InStepOwnsHashes | src/dataflow_training/distributed/source_policy.py:96-197 | sources whose slice requests and record entries go in step, as the policies emit them, record every slice with its own hash if none fills a span from two places |
| CheckpointRoundTrip.LandedSaveRestores | src/dataflow/checkpoint/targets.py:32-43 | save, then restore: after any run that lands, the engine admits every plan that asks for no non-empty object twice, every step reads what its directory holds, and each requested object is written back byte for byte, as any choice of replicas rebuilds it, and nothing else |
| CheckpointRoundTrip.RestoredIsMemory | src/dataflow/checkpoint/compose.py:45-78 | wherever a landed record maps a range of an object of a source to a byte, the restored byte is the one that source had in memory when it streamed the range |
| RlProgram.RewriteTask | examples/rl_training/builder.py:50-81 | one turn of the walk emits what its task calls for, and fails exactly where the lookup, the context or the head inputs are missing |
| RlProgram.RewriteChain | examples/rl_training/builder.py:47-81 | the walk builds the rewritten chain exactly when no position fails |
| RlProgram.OutSpecKeys | examples/rl_training/builder.py:42-45 | the output table describes exactly the produced objects |
| RlProgram.Promote | examples/rl_training/builder.py:83-93 | one backing object per orphaned input, described as its producer described it; defined exactly when all have producers |
| RlProgram.BuildRl | examples/rl_training/builder.py:34-105 | the rewritten program: chain, kept, promoted and rollout objects; the three rollout inputs come last, with four bytes a row |
| RlKeys.KindKey | examples/rl_training/builder.py:77-78 | the forward key of a kind becomes its recompute key |
| RlKeys.PlainKey | examples/rl_training/builder.py:77-78 | a key without the forward suffix stays as it is |
| RlKeys.FirstForward | examples/rl_training/builder.py:77-78 | replacement goes from the left: the text up to the first occurrence stays and the rest is replaced on its own |
| RlKeys.RenamedExactly | examples/rl_training/builder.py:77-78 | the replacement is what cutting the key at every occurrence and joining the parts with the recompute suffix gives, and nothing else |
| RlValidity.OneProducer | examples/rl_training/builder.py:42-45 | in a valid standard program an object is initial or has one producer |
| RlValidity.KnownUnlessRebuiltLater | examples/rl_training/builder.py:83-100 | what the standard program knows at a position exists in the result there, except contexts still to be rebuilt |
| RlValidity.RecomputeInputs | examples/rl_training/builder.py:67-73 | a recompute reads, without repeats, only what exists by then and never its own context |
| RlValidity.Position | examples/rl_training/builder.py:49-81 | a block of the result is valid exactly when its reads are in time and its head keeps two separate inputs |
| RlValidity.ChainNames | examples/rl_training/builder.py:58-61 | ids stay distinct exactly when each step has one head |
| RlValidity.RlTasksOk | examples/rl_training/builder.py:47-81 | each read id is initial or produced strictly earlier and nothing is produced twice, exactly when no position reads a context before its rebuild |
| RlValidity.FinalKeptExactly | examples/rl_training/builder.py:83-100 | a terminal object is still known to the result if and only if a kept task produces it, a recompute rebuilds it, or some block of the standard chain still reads or mutates it |
| RlValidity.RlValidExactlyWhenRewritable | examples/rl_training/builder.py:100-105 | the result of the surgery is a valid program if and only if the standard program is rewritable: one head per step with two separate inputs, no context read before its rebuild, terminal objects kept and recompute choices surviving, all read off the standard tasks |
| RlValidity.TwoHeadsClash | examples/rl_training/builder.py:54-62 | any valid standard program with two heads in one step rewrites to an invalid one |
| RlTwoRounds.TwoRoundsValid | src/dataflow_training/lowering/shaped_program.py:565-748 | a one-layer lowering with two accumulation rounds is a valid program |
| RlTwoRounds.GradientForWeight | examples/rl_training/builder.py:55-62 | its first head keeps the weight; its second is given the weight gradient in place of the weight, which it no longer reads |
| RlTwoRounds.TwoRoundsBuilds | examples/rl_training/builder.py:47-93 | the walk and the promotion go through on it |
| RlTwoRounds.TwoRoundsClash | examples/rl_training/builder.py:58-61 | and the result is not valid |
| RlValidity.PromotionIsDefined | examples/rl_training/builder.py:91-93 | every lookup of a promoted object is defined |
| RlValidity.KeptAtPlace | examples/rl_training/builder.py:47-81 | each kept task stands in the result, unchanged but for the head |
| RlValidity.KeptInOrder | examples/rl_training/builder.py:47-81 | kept tasks keep their order |
| RlValidity.BackwardFollowsRecompute | examples/rl_training/builder.py:64-81 | each backward directly follows its own recompute |
| RlMeaning.InsertedRecompute | examples/rl_training/builder.py:64-80 | before a backward stands a task derived from the last forward of the same step, round and layer: its inputs, then its discrete choices in order; only its context as output; no mutation; the renamed key and the same parameters |
| RlValidity.ReplacedHead | examples/rl_training/builder.py:53-63 | in place of a head stands the RL loss on its first input, the three rollout inputs and its last input, with its outputs, mutations and parameters |
| RlMeaning.FaithfulFromText | examples/rl_training/builder.py:64-80 | kernels that rebuild the context under the renamed key, from the inputs and the emitted choices, make the inserted task faithful |
| RlMeaning.RecomputedContext | examples/rl_training/builder.py:64-80 | on the values of the standard run, the recompute yields the context the backward would have read |
| RlMeaning.RolloutKept | examples/rl_training/builder.py:56-62 | the rollout data reaches every head as supplied |
| RlMeaning.StepAgrees | examples/rl_training/builder.py:47-81 | each block keeps the two runs in agreement on everything the result uses |
| RlMeaning.AgreesAlong | examples/rl_training/builder.py:47-81 | the two runs agree after every prefix |
| RlMeaning.RlRunsAsBase | examples/rl_training/builder.py:34-105 | every object the RL program reads or writes, rollouts aside, ends with the value of the standard run, for kernels that meet the literal promises of recompute and head keys |
| PackedForward.DeltaRule | reference_models/qwen35.py:106-130 | the token loop over all heads computes the recurrence from a zero state |
| PackedForward.DeltaRuleStores | reference_models/qwen35.py:125-128 | recalling a key after its token moves each component by the squared key norm times the requested correction |
| PackedForward.RecallContracts | reference_models/qwen35.py:125-128 | writing a token multiplies the error of recalling it by one minus beta times the squared key norm |
| DeltaAttention.AdvanceRecurs | reference_models/qwen35.py:123-128 | over the state before a token, any recall afterwards is the decayed recall plus the inner product with the key times the gated error against the decayed recall of the key |
| DeltaAttention.StateIsAttention | reference_models/qwen35.py:121-129 | what the state recalls after any number of tokens is attention over the corrections of those tokens, with the decays since as weights, and no state at all |
| DeltaAttention.OrthogonalRecall | reference_models/qwen35.py:121-129 | with orthogonal keys, recalling the key of a token later gives its own gated value times the squared norm and the decays since |
| PackedReference.PostIs | reference_models/qwen35.py:193-198 | the convolution at a token reads the window of the left-padded inputs that ends with it |
| PackedReference.WindowEndsAt | reference_models/qwen35.py:193-198 | every window ends with the input of its own token |
| PackedReference.KeyHeadShared | reference_models/qwen35.py:115-117 | value heads from one multiple of the repetition to the next share one key head |
| PackedReference.LinIsReference | reference_models/qwen35.py:200-224 | a row of the linear mixer is its output of the heads, each of them attention over corrections |
| PackedReference.FullIsReference | reference_models/qwen35.py:240-261 | a row of the full mixer attends to the keys with their values up to the token, in order |
| PackedReference.BlockIsReference | reference_models/qwen35.py:285-290 | a token leaves a block as itself plus what the mixer and the feed-forward half add, coordinate by coordinate |
| PackedReference.AloneIsReference | reference_models/qwen35.py:307-333 | the forward of one sequence is the token-by-token reference: embedding, layers in order, head |
| PackedReference.PackedIsReference | reference_models/qwen35.py:307-333 | so is every sequence of a packed forward |
| PackedForward.TokenAt | reference_models/qwen35.py:169-175 | token p of a sequence sits at its start plus p and nowhere else |
| PackedForward.InSequence | reference_models/qwen35.py:169-175 | a token belongs to a sequence exactly when it lies between its bounds |
| PackedForward.PositionsRestart | reference_models/qwen35.py:148-151 | packed positions are in-sequence positions |
| PackedForward.SequenceBounds | reference_models/qwen35.py:169-175 | the bounds are the running totals |
| PackedForward.BlockCausalMask | reference_models/qwen35.py:154-166 | an entry is open exactly when query and key are in one sequence and the key is not later |
| PackedForward.LiveIsOwnPrefix | reference_models/qwen35.py:240-261 | the live keys of a packed token are the causal prefix of its own sequence |
| PackedForward.AttentionStaysInside | reference_models/qwen35.py:240-261 | masked attention restricted to a sequence is causal attention on that sequence |
| PackedForward.RecurrenceStaysInside | reference_models/qwen35.py:200-207 | the packed linear mixer restricted to a sequence is the mixer on that sequence |
| PackedForward.BlockStaysInside | reference_models/qwen35.py:285-290 | one packed block restricted to a sequence is the block on that sequence |
| PackedForward.StackStaysInside | reference_models/qwen35.py:327-332 | for every stack of layers, the packed stack restricted to a sequence is the stack on that sequence |
| PackedForward.RopesRestart | reference_models/qwen35.py:321-324 | each sequence sees the rope table it would see alone |
| PackedForward.LinForward | reference_models/qwen35.py:208-224 | the single-sequence mixer, refusing an empty segment |
| PackedForward.ForwardPacked | reference_models/qwen35.py:307-333 | fails exactly on lengths that do not add up, on no sequences, or on an empty segment under a linear layer; otherwise every sequence gets exactly its standalone rows |
| PackedForward.Forward | reference_models/qwen35.py:307-333 | the model forward in both modes, packed mode only for a single row |
| PackedForward.LinIsCausal | reference_models/qwen35.py:193-224 | convolution and recurrence see no later token: the mixer rows of a prefix are the prefix of the rows |
| PackedForward.ForwardIsCausal | reference_models/qwen35.py:307-333 | over any stack, the forward of a prefix is the prefix of the forward |
| SparseSelection.SelectRow | reference_models/glm52.py:275-278 | scatter then base mask: open exactly at chosen visible positions |
| SparseSelection.LiveSetFacts | reference_models/glm52.py:270-278 | for any tie-breaking the live set is visible, of size min(k, visible), top-scoring, and everything visible when that fits |
| SparseSelection.BlockedChoice | reference_models/glm52.py:274-278 | a masked position is chosen only once everything visible has been |
| SparseSelection.TradeTied | reference_models/glm52.py:274 | trading a chosen position for a tied one left out is another legal answer of topk |
| SparseSelection.DeterminedExactlyWithoutTies | reference_models/glm52.py:273-278 | all answers topk may give yield one live set if and only if no live score equals a visible one left out |
| SparseSelection.TopOfIsTopK | reference_models/glm52.py:274 | a stable sort is a topk kernel |
| IndexShare.CheckRoles | reference_models/glm52.py:99-107 | accepts exactly the role lists with one role per layer, a full first layer, known roles and full dense layers |
| IndexShare.Select | reference_models/glm52.py:260-278 | the rows of a leader selection |
| IndexShare.LiveSetOfToken | reference_models/glm52.py:235-278 | the live set of a token lies in its own causal prefix, has min(index_topk, p+1) keys, only top-scoring ones, and is the whole prefix when that fits, packed or not |
| IndexShare.RunLayer | reference_models/glm52.py:300-301 | leaders select, followers reuse the mask passed on, and a follower without one fails |
| IndexShare.RunLayers | reference_models/glm52.py:534-541 | fails exactly when the first layer is a follower; otherwise each layer attends with the selection of its nearest preceding leader |
| IndexShare.BlockToken | reference_models/glm52.py:478-491 | a token leaves a sparse block as the feed-forward of its residual plus attention over exactly the open positions of its mask row, in order, each key with its value |
| IndexShare.AcceptedRolesRun | reference_models/glm52.py:99-115 | for every accepted role list, threading the mask through the layers never finds it missing, and the mask of each layer was selected by the nearest layer at or before it whose role is full, from the rows that entered that layer |
| IndexShare.KernelExists | reference_models/glm52.py:274 | some kernel meets what is asked of topk |
| IndexPacking.LeaderRowShiftsExactly | reference_models/glm52.py:260-278 | in a round with other tokens, every kernel that chooses alike for the token alone gives it its standalone selection, shifted, if and only if that selection met no tie |
| IndexPacking.TiedRoundDiffers | reference_models/glm52.py:273-274 | a packed round and a legal kernel whose selection for a token is not its standalone selection |
| IndexPacking.AttentionAlike | reference_models/glm52.py:322-328 | attention under a shifted mask is attention alone |
| IndexPacking.InputStaysInside | reference_models/glm52.py:514-542 | through every layer, leaders and followers, a packed sequence computes what it computes alone, if its own selections met no ties |
| IndexTies.StaysInsideExactly | reference_models/glm52.py:514-542 | in a round with other tokens, every layer attends in the packed sequence with its standalone mask, for every kernel that answers the standalone rows alike, if and only if the standalone run met no tie |
| IndexerLoss.GroupStashes | reference_models/glm52.py:557-566 | the grouping loop computes the groups |
| IndexerLoss.GroupsPartition | reference_models/glm52.py:557-566 | with the stash on, groups concatenate to all layers in order, each one leader and its trailing followers |
| IndexerLoss.MeanTarget | reference_models/glm52.py:581-584 | every entry of the centroid is the sum of that entry over the members divided by their number |
| IndexerLoss.CentroidIsAlike | reference_models/glm52.py:303-314 | the centroid of non-negative targets of one mass is non-negative and has that mass |
| IndexerLoss.CentroidGap | reference_models/glm52.py:574-580 | the mean of the member divergences and the centroid divergence differ by a gap in which the leader scores do not occur, so both train the indexer alike |
| IndexerLoss.ModelLoss | reference_models/glm52.py:550-589 | one centroid divergence per non-empty group, added up |
| ExpertRouting.GroupScoreIsBestPair | reference_models/dsv3.py:359-360 | a group score is the largest sum of two of its members |
| ExpertRouting.KeptAreBest | reference_models/dsv3.py:361-364 | the kept groups are preferred to every other group, ties by index |
| ExpertRouting.EligibleMask | reference_models/dsv3.py:363-365 | the mask opens exactly the experts of kept groups |
| ExpertRouting.EligibleFirst | reference_models/dsv3.py:366-367 | in rank order exactly as many leading positions are eligible as there are eligible experts |
| ExpertRouting.ChosenAreBest | reference_models/dsv3.py:366-368 | the chosen ids are distinct and preferred to every eligible expert left out |
| ExpertRouting.ChosenEligibleExactly | reference_models/dsv3.py:362-368 | every chosen expert is eligible if and only if the number chosen fits into the kept groups |
| ExpertRouting.Weigh | reference_models/dsv3.py:369-371 | weights are proportional to raw scores and sum to the scaling |
| ExpertRouting.WeightRatio | reference_models/dsv3.py:369-370 | two weights are in the ratio of their raw scores |
| ExpertRouting.EqualScoresShare | reference_models/dsv3.py:369-370 | chosen experts of equal score share the scaling evenly |
| ExpertRouting.GroupOrder | reference_models/dsv3.py:358-362 | the order of groups by pairs of members is the order by group score |
| ExpertRouting.RouteToken | reference_models/dsv3.py:347-371 | fails exactly when the groups do not divide the experts; otherwise, in scores and biases: every pair of a group left out is beaten by a pair of a kept one, chosen experts come in order of score plus bias with ties by index and before every expert left out, and weights are proportional to the raw scores |
| RoutingBias.SelectionIsUnique | reference_models/dsv3.py:356-368 | scores and biases leave one choice, in one order |
| RoutingBias.RaisingKeeps | reference_models/dsv3.py:356-368 | raising one bias never drops its expert from the chosen |
| RoutingBias.ShiftingChangesNothing | reference_models/dsv3.py:356-368 | one constant added to every bias changes nothing |
| RouterBias.Bincount | reference_models/dsv3.py:419 | the histogram of the ids |
| RouterBias.HistogramTotal | reference_models/dsv3.py:419 | counts total the number of assignments |
| RouterBias.Balancer.constructor | reference_models/dsv3.py:314-322 | no counts yet, zero bias |
| RouterBias.Balancer.CountForward | reference_models/dsv3.py:417-421 | a forward replaces the last counts and adds to the aggregate |
| RouterBias.Balancer.ApplyBiasUpdate | reference_models/dsv3.py:334-345 | every bias moves by the speed towards the mean load, up below it and down above it, and the aggregate is cleared; it fails before any forward |
| RouterBias.DirectionExactly | reference_models/dsv3.py:343-344 | a bias rises, falls or stays exactly when experts times its count is below, above or at the total |
| RouterBias.BusierDoesNotGain | reference_models/dsv3.py:343-344 | in one update a busier expert does not gain on a less busy one |
| RouterBias.BusierNeverGains | reference_models/dsv3.py:334-345 | over any run in which one expert was as busy as another before every update, it never gains on it |
| RouterBias.StepsAreSinceUpdate | reference_models/dsv3.py:334-345 | over any interleaving the aggregate is the histogram of what was assigned since the last update |
| RouterBias.StepsTotal | reference_models/dsv3.py:417-421 | over any run the aggregated counts total top-k times the tokens routed since the last update |
| RouterBias.BiasStaysClose | reference_models/dsv3.py:342-344 | after any run each bias is within the sum of the update speeds of its start |
| RouterBias.BiasBound | reference_models/dsv3.py:342-344 | after any run with s updates at one speed, each bias is within s times that speed of its start |
| RouterBias.UnequalCountsMoveBoth | reference_models/dsv3.py:342-344 | unequal counts raise some bias and lower some bias |
| RouterBias.EqualCountsMoveNothing | reference_models/dsv3.py:342-344 | equal counts move nothing |
| RouterBias.RepeatedForwardsChangeNothing | reference_models/dsv3.py:504-509 | counting every forward m times throughout a run leaves every bias where it would be |
| Sorting.ArgsortFacts | examples/rl_training/harness.py:78 | a stable argsort lists every position once, by key and then by position |
| RoutePack.RoutingFields | examples/rl_training/harness.py:69-80 | the order is the stable argsort and the offsets are the running counts |
| RoutePack.BelowFirst | examples/rl_training/harness.py:71-79 | the positions before an offset hold exactly the slots of smaller experts |
| RoutePack.PackIsCountingSort | examples/rl_training/harness.py:71-79 | the slice between consecutive offsets holds exactly the slots of that expert in increasing order |
| RoutePack.MaskedLoop | reference_models/dsv3.py:423-429 | the masked expert loop gives each token its top-K sum |
| RoutePack.GroupedLoop | examples/rl_training/harness.py:69-80 | summing expert by expert over the slices gives every token its top-K sum |
| ExactOracle.ObjectIds | tools/bench/pressurefit_exact_oracle.py:41-48 | every object once, in order of first appearance |
| ExactOracle.AnnotateChain | tools/bench/pressurefit_exact_oracle.py:59-85 | the annotated chain of an assignment |
| ExactOracle.AnnotateRoundTrip | tools/bench/pressurefit_exact_oracle.py:66-84 | the directives give back the action of every slot |
| ExactOracle.AnnotateInjective | tools/bench/pressurefit_exact_oracle.py:59-85 | different assignments are different plans |
| ExactOracle.AssignmentOfNumber | tools/bench/pressurefit_exact_oracle.py:124 | every assignment is enumerated |
| ExactOracle.NumberOfAssignment | tools/bench/pressurefit_exact_oracle.py:124 | and only once |
| ExactOracle.Search | tools/bench/pressurefit_exact_oracle.py:119-136 | keeps the first fastest plan with its own peaks and counts the valid ones, unless the simulator aborts on some assignment |
| ExactOracle.CountIsTrue | tools/bench/pressurefit_exact_oracle.py:131 | the count is the number of valid maps |
| SimulatorClock.RunKeepsInv | src/dataflow_sim/engine/simulator.py:456-472 | in every run of the clock, a logged end beyond the limit means that the run can no longer return |
| SimulatorClock.ReturnedIsBounded | src/dataflow_sim/engine/simulator.py:423-472 | a log that is returned holds no end beyond the limit given to idle streams, no infinite one and none that is not a number |
| SimulatorClock.AbortsOnlyAtTheLimit | src/dataflow_sim/engine/simulator.py:456-472 | the loops abort only when a time they run towards or have logged reaches that limit |
| SimulatorClock.EndlessTaskAborts | src/dataflow_sim/engine/simulator.py:704-711 | running towards such a time with nothing in flight aborts at once |
| ExactOracle.MakespanFacts | tools/bench/pressurefit_exact_oracle.py:88-95 | the makespan of a returned log is its latest end, zero for no intervals, and never beyond the limit |
| ExactOracle.NumbersInOrder | tools/bench/pressurefit_exact_oracle.py:119 | maps are tried in the order of their first differing slot |
| ExactOracle.FindExactPlan | tools/bench/pressurefit_exact_oracle.py:98-149 | aborts if and only if the simulator aborts on some map; infeasible if and only if it does not and no map is a valid plan; otherwise the plan of a valid map with the latest end and the peaks of its own log, such that no valid map ends sooner and those that end at the same time are tried later, with the true counts |
| DispatchFloor.BuildProgram | tools/bench/dispatch_floor.py:35-96 | the generator loop produces the three shapes |
| DispatchFloor.UsedWeightIsBack | tools/bench/dispatch_floor.py:71-82 | the weight a task uses has been prefetched since its last offload |
| DispatchFloor.PrefetchedIsAway | tools/bench/dispatch_floor.py:76-82 | a prefetched weight is away when its prefetch fires, offloaded four tasks earlier |
| DispatchFloor.TaskKeepsState | tools/bench/dispatch_floor.py:55-87 | each task takes the memory from one closed-form state to the next |
| DispatchLanes.RunIsCounted | src/dataflow_sim/engine/simulator.py:423-474 | under asynchronous transfers, every state of every interleaving is fixed by the numbers of tasks run and of offloads and prefetches finished |
| DispatchLanes.ReadyExactly | src/dataflow_sim/engine/simulator.py:502-534 | the next task can run if and only if the prefetch of its weight has finished |
| DispatchLanes.NeverStuck | src/dataflow_sim/engine/simulator.py:593-640 | in every interleaving some step is enabled until all tasks ran and all transfers finished |
| DispatchLanes.RunsEnd | tools/bench/dispatch_floor.py:48-87 | every run takes at most three steps per task |
| DispatchLanes.StepsAreSafe | src/dataflow_sim/engine/simulator.py:806-830 | no output exists already, what is released, offloaded or leaves is there, and what a prefetch brings is not |
| DispatchLanes.TwelveLive | tools/bench/dispatch_floor.py:92-93 | at most twelve objects are live or on their way in while a task runs |
| DispatchFloor.PrefetchIsUsed | tools/bench/dispatch_floor.py:79-82 | every prefetch is used four tasks later, resident all the while |
| DispatchFloor.FastCapacityExactly | tools/bench/dispatch_floor.py:92-93 | the declared fast capacity holds the live objects if and only if the shape is minimal, there are at least two tasks, or eleven objects fit into 64 MiB |
| DispatchFloor.BackingCapacitySuffices | tools/bench/dispatch_floor.py:94-95 | the declared backing capacity always suffices |
| RlHeadLoss.BandIsPicked | examples/rl_training/rl_ops.py:83-86 | inside the band the unclipped branch is always picked, so the extra disjunct is redundant |
| RlHeadLoss.SurrogateIs | examples/rl_training/rl_ops.py:80-84 | the surrogate is the advantage times a one-sided clip at 1.2 or 0.8 |
| RlHeadLoss.DerivativeExactly | examples/rl_training/rl_ops.py:83-88 | a number is the limit of the difference quotient of the surrogate if and only if the ratio is at no kink and the number is the slope the backward uses |
| RlHeadLoss.GlpIsDerivative | examples/rl_training/rl_ops.py:79-88 | where exp is its own derivative, a number is the derivative of the reported row loss in the log-probability if and only if the objective is at no PPO kink and the number is the value the backward uses, in both modes |
| RlHeadGradient.DlogitIsDerivative | examples/rl_training/rl_ops.py:90-93 | with the softmax for the partial derivatives of logsumexp, away from the kinks, the logits gradient is the derivative of the row loss in that logit |
| RlHeadGradient.DwIsDerivative | examples/rl_training/rl_ops.py:89-95 | every entry of the returned head gradient is the derivative of the returned loss in that weight entry, over all rows |
| RlHeadInputs.DynIsGradient | examples/rl_training/rl_ops.py:89-96 | along any curve of normed rows, the slope of the row loss is dyn times the slope of the curve |
| RlHeadNorm.DynIsDerivative | examples/rl_training/rl_ops.py:96 | dyn is the derivative of the row loss in each coordinate of the normed row |
| RlHeadNorm.DyIsDerivative | examples/rl_training/rl_ops.py:96-100 | where the backward of the norm is its vector-Jacobian product, every entry of the returned dy is the derivative of the returned loss |
| RlHeadNorm.DnormIsDerivative | examples/rl_training/rl_ops.py:96-101 | so is every entry of the returned dnorm, over all rows |
| RmsNorm.RowBackward | src/dataflow_training/blocks/ops.py:30-61 | the row backward of rmsnorm is its vector-Jacobian product in the row |
| RmsNorm.WeightBackward | src/dataflow_training/blocks/ops.py:30-61 | the weight backward of rmsnorm is its vector-Jacobian product in the weight |
| RmsNorm.RmsDyIsDerivative | examples/rl_training/rl_ops.py:70-100 | with rmsnorm, every entry of the returned dy is the derivative of the returned loss |
| RmsNorm.RmsDnormIsDerivative | examples/rl_training/rl_ops.py:70-101 | with rmsnorm, every entry of the returned dnorm is the derivative of the returned loss |
| RlHeadLoss.DlogitsSumToZero | examples/rl_training/rl_ops.py:90-93 | every row of the logits gradient sums to zero when the softmax sums to one |
| RlHeadLoss.GradsJoin | examples/rl_training/rl_ops.py:64-101 | gradients of adjacent row ranges add up |
| RlHeadLoss.ChunkLoop | examples/rl_training/rl_ops.py:64-101 | any positive chunk size gives the gradients of all rows at once |
| RlHeadLoss.HeadLoss | examples/rl_training/rl_ops.py:52-102 | loss, dy, dw and dnorm are those of all rows at once for every chunk size, over the given number of rows or else all of them, and are zero for no rows |
| RlHeadLoss.LossReference | examples/rl_training/rl_ops.py:33-49 | the reference loss of a row range is the loss reported for it |

## Left out

- Engine, planner, most of the simulator, service daemon and model lowering: their behaviour enters only as arbitrary functions or as the directive semantics of the README; modelling them needs sources outside this core.
- Floating-point and bf16 rounding, softmax and rope values, autograd: exact reals and arbitrary functions instead.
- JSON and filesystem details of records: one write that may stop half-way and one atomic rename.
- Keyed (per-rank) restore targets: they repeat the placement arithmetic already covered for logical targets.
- Which refusal comes first when a record breaks several rules in different objects: dictionaries are unordered here.
- Order of promoted objects and of the windows of a repeated target in a restore plan: only their contents are stated.
- Task groups, runtimes and output locations in the RL rewrite: they affect no object.
- RL families whose dropped forwards change persistent state: excluded by hypothesis, as the adapters freeze that rule.
- Load-balance auxiliary losses of the MoE layers: sums of per-row terms with no interaction beyond the counts.
- Batch dimension of the GLM and DeepSeek layers: rows are independent; only packed rows interact.
- IndexPacking.InputStaysInside: rows are equal for sequences whose own selections met no ties; `StaysInsideExactly` gives the exact condition for the masks, since under different masks later rows may still happen to be equal.
- DispatchFloor.ChainRuns: transfers take effect when their task completes; `DispatchLanes` covers every interleaving of transfers with tasks.
- DispatchLanes.NeverStuck: each direction is one queue in issue order whose prefetch at the head waits for its own offload, which is the order deferral produces; a queue head waiting for fast memory is not modelled, since at most twelve objects are ever live (`TwelveLive`).
- CheckpointSafety.LandedRecordRebuilds: needs an injective hash, own directories and own hashes; `SharedSpanMisleads` and `SafeExactly` show what happens without the last two.
- CheckpointDestination.SafeExactly: a slice is written in one step and a marker file in another; two jobs that write a temporary marker at once cannot both rename it, so half-written markers never reach a landed record.
- RlHeadLoss.GlpIsDerivative: that exp is its own derivative at the point is a hypothesis, since exp is an arbitrary function.
- RlHeadGradient.DwIsDerivative: that exp is its own derivative and logsumexp has the softmax for its partial derivatives are hypotheses.
- RlHeadInputs.DynIsGradient: that logsumexp is differentiable with the softmax for its gradient, which partial derivatives alone do not give, is a hypothesis.
- RmsNorm.RmsDyIsDerivative: that the reciprocal square root has its derivative at the row is a hypothesis; the normalised value is not rounded before the weight is applied.
- ExactOracle.FindExactPlan: validation and simulation are one arbitrary function that refuses, aborts or reports interval ends and two peaks; of the simulator only its clock is modelled, with arbitrary targets, task ends and starts of transfers.
- SimulatorClock.ReturnedIsBounded: for transfers without a runtime override, as the oracle emits them; finite times are exact reals.
- RlHeadLoss.DlogitsSumToZero: that the softmax sums to one is a hypothesis, since exp and logsumexp are arbitrary functions.
- RlHeadLoss.HeadLoss: `dy` is built by appending the chunks' rows instead of filling slices of a preallocated buffer.
- RoutePack.GroupedLoop: one coordinate of the expert outputs at a time, and exact sums in place of accumulated rounding.
- PackedForward.DeltaRule: l2 norm, gates, decays and the output norm are arbitrary per-token functions; what the recurrence computes from them is `StateIsAttention`.
- RlMeaning.RlRunsAsBase: that recompute kernels rebuild the context and that the RL head writes what the standard head writes are hypotheses on the kernels, stated over literal keys and input lists.
- Reference models that repeat the same packing, routing and mask code (qwen3.5-moe, DeepSeek-V3.2, llama3, qwen3, qwen3-moe, olmoe, gpt2): they would only add copies.
