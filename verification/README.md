# compiler_suit_runner: a verified model

A Dafny model of the coordination core of `compiler_suit_runner` and of the tree-line decoder of
`template_graph`, with proofs of what it promises. `dafny verify dfyconfig.toml` checks everything.

The program plans a large build matrix on a cluster. The model covers five parts of it.

* **Streamed handoff.** The dependency_graph worker packs task descriptors into bounded JSON messages;
  the primary decodes them strictly, spawns tasks batch by batch and reconciles the count at phase end.
  `Json`, `JsonText`, `JsonRoundTrip` and `Utf8` are the text layers (RFC 8259 sections 4 to 7;
  RFC 3629 section 3). `SpawnCodec` is the wire format. `BatchPlan` describes the packing in terms of
  whole messages, `GreedyPacking` proves it optimal, and `SpawnEncoder` is the encoder with its running
  byte count.
  `Handoff`, `SpawnFailure` and `SuitTask` are the primary's side; `EndToEnd` joins both ends.
* **Gate graph.** Import gates are synthesised while batches arrive and become extra edges of every
  build task: `TaskGraph`, `TaskIds`, `GateGraph`, `GateEdges`, `GateTheorems`; `DescriptorTasks` says it of the
  descriptors themselves.
* **Toolchain archives.** COMMON plus per-toolchain deltas, and a build-deps archive that leaves out
  what they carry: `NixStore`, `ToolchainSplit`, `SplitTheorems`, `SplitArchives`; `ArchiveGates` is
  the worker that imports them.
* **Replication and gossip.** Offer slots (`PushStep`, `ReplicationSender`, `RepairWorker`), the settle
  window (`SettleWindow`), the receiving side (`ReplicationReceiver`), the broadcast flood (`Broadcast`,
  `BroadcastFlood`, `BroadcastCoverage`), the signing-key race (`SigningKey`) and the placement watcher (`Placements`,
  `PlacementWatcher`), over the vocabulary of `Cluster`.
* **Line decoder and memo cache.** `TreeLine`, `TreeLineProofs`; `CacheKey`, `MemoCodec`, `MemoCache`,
  `MemoTheorems`, with `JsonSort` and `StringOrder` for sorted keys and lists.
  `Decimals` gives numerals their value; `Dicts`, `Sequences` and `Wrappers` are shared helpers.

Classes with mutable fields stand for the program's classes, and each method is proved against a
function of the old state; what the program promises is then proved about that function, over all
inputs or all runs. Where several threads or processes meet, a machine takes one lock section, file
operation or message at a time as a step, and the theorems hold for every sequence of steps. Timers
are steps that may happen at any moment; a cancelled one may still run. Network answers, peer lists,
placement snapshots, fetch results and the choice of `random.sample` are parameters or unconstrained.

## Where the code and its own description differ

The model follows the code.

* The encoder does not check `priority_hint`; the decoder rejects a negative one
  (`SpawnEncoder.StreamRoundTrip`).
* A task always waits for `import_common`, which is discovered only with realised toolchains
  (`GateTheorems.ClosedIffCommonGate`).
* `toolchain_id_for_outpath` does not raise for a basename without a dash, as documented; it raises for
  an empty first token only (`ArchiveGates.NameWithoutDash`).
* No archive is written for an empty delta, but the gate of that toolchain still fails hard without it;
  so it does when only one toolchain was realised, the case the split is said to handle
  (`ArchiveGates.GateRaisesIff`, `ArchiveGates.OnlyToolchainGateRaises`).
* An export with an empty COMMON (toolchains that share nothing) raises, because `export_closure`
  refuses an empty seed list (`SplitArchives.ExportSucceedsIff`, `SplitArchives.UnrelatedToolchains`).
* Workers are said to import COMMON before any delta, but no edge orders the two gates; a delta imported
  first fails if it refers to a common path the store lacks (`ArchiveGates.GatesImport`).
* Archives are marked as imported before they are opened, so a second call after a failure returns as if
  it had worked (`ArchiveGates.OnlyFirstCallRaises`).
* A batch whose `spawn_tasks` raised stays unhandled, but its gates are remembered by then: if the same
  primary handles it again, it spawns the tasks without them (`SpawnFailure.RedeliveryLosesGates`).
* `on_peer_removed` can only report a path lost if the placement map changes meanwhile
  (`RepairWorker.LostNeedsARefresh`).
* A cancel flag can outlive its fetch and drop a later, successful one: exactly when an offerer withdrew
  and then left the peers list before its fetch was looked at (`ReplicationReceiver.StaleFlagIff`,
  `ReplicationReceiver.RecordedIffNotWithdrawn`).
* Any public key with the cluster prefix is accepted, from whatever run
  (`SigningKey.LeftoverIsReturned`).
* The memo cache takes the JSON value `true`, and a float such as `1.0`, for version 1, as Python does
  (`MemoCodec.LoadsIff`, `MemoCodec.OneAndOneTenth`).
* Only invalid entries are said to be discarded; a valid one that was stored between the failed read and the
  directory probe of a lookup is discarded too (`MemoCache.FreshEntryDiscarded`).

## Model

| member | source | states |
|---|---|---|
| `Utf8.DecodeEncode` | python/compiler_suit_runner/streamed_spawn.py:440-455 | strict UTF-8 decoding (section 3 of RFC 3629) undoes encoding, for every string |
| `Utf8.EncodeDecoded` | python/compiler_suit_runner/streamed_spawn.py:440-455 | strictness: only the encoding of a string decodes, no overlong form, surrogate or stray byte |
| `Utf8.EncodeInjective` | python/compiler_suit_runner/streamed_spawn.py:329-331 | no two strings share their UTF-8 bytes |
| `JsonRoundTrip.ParsePrint` | python/compiler_suit_runner/streamed_spawn.py:262-278 | `json.loads` undoes `json.dumps`, with compact, default or indented layout, for every value whose dicts have unique keys, floats included |
| `JsonRoundTrip.PrintInjective` | python/compiler_suit_runner/incremental_cache.py:115-121 | two values with the same JSON text are the same value |
| `JsonRoundTrip.ParseWellFormed` | python/compiler_suit_runner/streamed_spawn.py:456-466 | the parser only builds dicts: no object it returns has a key twice, whatever the text repeats |
| `JsonRoundTrip.CollapseKeepsLast` | python/compiler_suit_runner/streamed_spawn.py:456-466 | of repeated keys the value written last counts |
| `JsonRoundTrip.PrintedByteLength` | python/compiler_suit_runner/streamed_spawn.py:262-278 | with ASCII-only output the byte length of a printed value is its character count, which the byte accounting relies on |
| `JsonRoundTrip.WireRoundTrip` | python/compiler_suit_runner/streamed_spawn.py:440-466 | bytes to text to value undoes value to text to bytes |
| `SpawnCodec.DescriptorRoundTrip` | python/compiler_suit_runner/streamed_spawn.py:178-238 | a descriptor decodes from its encoding if and only if its priority hint is non-negative |
| `SpawnCodec.DecodedIsEncoded` | python/compiler_suit_runner/streamed_spawn.py:195-238 | strictness: a value decodes to a descriptor if and only if it has exactly the seven fields, each with the value the encoder would write |
| `SpawnCodec.DecodedFields` | python/compiler_suit_runner/streamed_spawn.py:195-238 | each field of a decoded descriptor comes from its own key |
| `SpawnCodec.DecodesToBatch` | python/compiler_suit_runner/streamed_spawn.py:466-499 | exactly these objects are batches: the four fields and no other, version 1, a non-negative `seq`, and a list of which every item is a strict descriptor |
| `SpawnCodec.DecodesToSummary` | python/compiler_suit_runner/streamed_spawn.py:466-529 | exactly these objects are summaries: the five fields and no other, version 1, non-negative totals, and counters that are whole numbers |
| `SpawnCodec.DecodedMessage` | python/compiler_suit_runner/streamed_spawn.py:440-466 | bytes decode exactly when they are the UTF-8 of a text that parses to such an object |
| `SpawnCodec.SpliceIsPrint` | python/compiler_suit_runner/streamed_spawn.py:241-259 | cutting the last two characters off the envelope and appending the joined parts gives the text of the full JSON object, and its length is envelope plus joined parts |
| `SpawnCodec.EnvelopeMonotone` | python/compiler_suit_runner/streamed_spawn.py:241-259 | the envelope never gets shorter as `seq` grows, so capacity only shrinks |
| `SpawnCodec.BatchRoundTrip` | python/compiler_suit_runner/streamed_spawn.py:440-499 | a batch message decodes to its `seq` and descriptors if and only if every hint in it is non-negative |
| `SpawnCodec.SummaryRoundTrip` | python/compiler_suit_runner/streamed_spawn.py:393-432 | the summary message decodes to the totals and counters it was made of |
| `BatchPlan.AddKeepsPlanOk` | python/compiler_suit_runner/streamed_spawn.py:339-385 | after every successful `add`, on whatever plan adds and flushes have reached, each returned message is non-empty and within both caps at its own `seq`, and so is the pending batch |
| `BatchPlan.LifeIsSplit` | python/compiler_suit_runner/streamed_spawn.py:281-391 | for any mix of adds (also raising ones) and flushes: returned and pending batches are the accepted descriptors in order, in non-empty messages within both caps at their own `seq` |
| `BatchPlan.RunKeepsStream` | python/compiler_suit_runner/streamed_spawn.py:339-391 | emitted plus pending descriptors are exactly the successful adds, in order |
| `BatchPlan.RunIsSplit` | python/compiler_suit_runner/streamed_spawn.py:326-391 | the run is an order-preserving cut of the stream into messages within both caps |
| `BatchPlan.RunSendsNoEmpty` | python/compiler_suit_runner/streamed_spawn.py:326-391 | no message of a run is empty |
| `GreedyPacking.WireLength` | python/compiler_suit_runner/streamed_spawn.py:356-376 | the byte length of a batch message is envelope plus parts plus commas |
| `GreedyPacking.StayAhead` | python/compiler_suit_runner/streamed_spawn.py:339-385 | one step of greedy-stays-ahead: whatever cut exists for the whole stream, the greedy run never falls behind it and never raises before it |
| `GreedyPacking.GreedyIsOptimal` | python/compiler_suit_runner/streamed_spawn.py:326-391 | no order-preserving cut of the same descriptors under the same caps uses fewer messages, although capacity shrinks as `seq` gains digits |
| `GreedyPacking.RunSucceedsIffSplittable` | python/compiler_suit_runner/streamed_spawn.py:339-391 | the encoder gets through a stream without raising exactly when some cut of it fits |
| `SpawnEncoder.SpawnBatchEncoder.Create` | python/compiler_suit_runner/streamed_spawn.py:300-316 | the constructor raises exactly for a non-positive cap, and otherwise starts empty |
| `SpawnEncoder.SpawnBatchEncoder.Emit` | python/compiler_suit_runner/streamed_spawn.py:326-337 | the spliced message is the wire form of the pending batch; counters and byte count follow |
| `SpawnEncoder.SpawnBatchEncoder.AddDescriptor` | python/compiler_suit_runner/streamed_spawn.py:339-385 | `add` behaves as the plan does, also after a flush, with exact pending bytes and counters; a raising `add` leaves the state unchanged |
| `SpawnEncoder.SpawnBatchEncoder.FlushPending` | python/compiler_suit_runner/streamed_spawn.py:387-391 | the remainder is returned once, nothing for an empty remainder, and the encoder stays usable with its `seq` counting on |
| `SpawnEncoder.SpawnBatchEncoder.EncodeSummary` | python/compiler_suit_runner/streamed_spawn.py:393-432 | raises exactly for a non-integer counter or an overlong summary; otherwise carries the true totals |
| `SpawnEncoder.StreamDescriptors` | python/compiler_suit_runner/workers/dependency_graph_worker/run.py:327-380 | the worker sends the batches of the plan in order under the spawn topic and then one summary under its own, none longer than 100 KiB, and raises exactly when the stream cannot be cut or the summary is too long |
| `SpawnEncoder.KindCountsUnique` | python/compiler_suit_runner/workers/dependency_graph_worker/run.py:370-375 | the per-kind counters are a dict, so the summary names each kind once |
| `SpawnEncoder.KindCountsCount` | python/compiler_suit_runner/workers/dependency_graph_worker/run.py:370-375 | the counter of a kind is the number of its descriptors; a kind without descriptors has none |
| `SpawnEncoder.StreamRoundTrip` | python/compiler_suit_runner/streamed_spawn.py:241-391 | all messages of a run decode, with `seq` 0, 1, 2, … and batches that concatenate to the input, if and only if every hint in the stream is non-negative |
| `SpawnEncoder.LifeRoundTrip` | python/compiler_suit_runner/streamed_spawn.py:241-391 | the same for any mix of adds and flushes over the lifetime of one encoder |
| `SpawnEncoder.SummaryCarriesTotals` | python/compiler_suit_runner/streamed_spawn.py:393-432 | the summary a run sends decodes to the true number of descriptors and batches |
| `SuitTask.Runner.OnPhaseStart` | python/compiler_suit_runner/suit_task.py:2924-2940 | only dependency_graph resets, and then counters, summary and remembered gates all start fresh; nothing spawned is forgotten |
| `SuitTask.Runner.OnPhaseEnd` | python/compiler_suit_runner/suit_task.py:2942-3003 | returns normally exactly when the phase is another one, there is no primary handle, or the count equals the recorded total |
| `SuitTask.Runner.CustomMessageHandler` | python/compiler_suit_runner/suit_task.py:3047-3098 | handles exactly the two topics and decodes strictly: any other topic and any malformed message raises without effect; a raise leaves no effect, unless `spawn_tasks` itself raised: then the ids of the gates it was given stay remembered |
| `SuitTask.Runner.HandleStreamedSpawnBatch` | python/compiler_suit_runner/suit_task.py:3100-3157 | raises without a usable handle; otherwise spawns every header task plus the new gates, and counts header tasks only; a raising `spawn_tasks` spawns and counts nothing, but gate ids are remembered |
| `SpawnFailure.RedeliveryLosesGates` | python/compiler_suit_runner/suit_task.py:3134-3182 | handled again by the same primary after such a raise, a batch spawns and counts its header tasks but none of its gates: it ends as an undisturbed one exactly if it called for no new gate |
| `SpawnFailure.OtherwiseReceive` | python/compiler_suit_runner/suit_task.py:3047-3157 | with any other handle the message has the effect of `Handoff.Receive` |
| `SuitTask.Runner.HandleStreamedSummary` | python/compiler_suit_runner/suit_task.py:3210-3246 | first summary recorded, identical redelivery ignored, conflicting one raises |
| `Handoff.DeliverBatch` | python/compiler_suit_runner/suit_task.py:3100-3157 | a delivered batch adds one per header if all its hints are non-negative and nothing otherwise, and leaves the summary alone |
| `Handoff.SumIsTotal` | python/compiler_suit_runner/suit_task.py:2986-2993 | the count of handled batches never exceeds the total and reaches it exactly when no batch is missing or incomplete |
| `Handoff.BarrierIsExact` | python/compiler_suit_runner/suit_task.py:2924-3003 | after a fresh phase start, messages in any order, lost or not, batches at most once: the barrier opens if and only if the summary and every batch were handled and every descriptor became a header |
| `Handoff.BarrierCounts` | python/compiler_suit_runner/suit_task.py:2980-2993 | for any deliveries, repeated ones included: the barrier opens if and only if the summary was handled and the handled headers, repetitions counted, number as many as the descriptors |
| `Handoff.DuplicateMasksLoss` | python/compiler_suit_runner/suit_task.py:2986-2993 | when all batches but one were handled, handling another one again opens the barrier exactly if it has as many descriptors as the lost one |
| `EndToEnd.HeadersStream` | python/compiler_suit_runner/dependency_graph_planner/manifest_glue.py:21-61 | headers made batch by batch are the headers of the whole plan, however it was cut |
| `EndToEnd.HandoffDelivers` | python/compiler_suit_runner/streamed_spawn.py:241-499 | encode, send, decode and spawn in order, after a phase start that follows any run: the barrier opens, every descriptor has its task with exactly its own edges, and the graph is acyclic, and closed if and only if the common gate exists |
| `DescriptorTasks.TaskOfDescriptor` | python/compiler_suit_runner/suit_task.py:855-923 | the task of a descriptor of a known kind, in terms of the descriptor: its id, its toolchain builds in their own phase, its dependencies and exactly the documented gates in the build phase; no edge with dependencies disabled |
| `DescriptorTasks.HeaderAt` | python/compiler_suit_runner/dependency_graph_planner/manifest_glue.py:21-61 | every descriptor of a known kind has its header, in the order of the descriptors |
| `DescriptorTasks.HeaderFrom` | python/compiler_suit_runner/dependency_graph_planner/manifest_glue.py:21-61 | every header comes from such a descriptor |
| `DescriptorTasks.HeadersCounted` | python/compiler_suit_runner/dependency_graph_planner/manifest_glue.py:21-61 | the headers number as many as the descriptors of the two known kinds |
| `DescriptorTasks.DescriptorsAreSpawned` | python/compiler_suit_runner/suit_task.py:3100-3157 | in the graph of any good stream every descriptor of a known kind has its task |
| `DescriptorTasks.ImportGateIsSpawned` | python/compiler_suit_runner/suit_task.py:3159-3208 | a streamed shared dependency has its import gate: affine, and waiting for the first streamed task that publishes its store hash and for nothing else |
| `DescriptorTasks.StaticGateStays` | python/compiler_suit_runner/suit_task.py:1676-1763 | in the graph of any good stream every static gate is affine and waits for nothing |
| `TaskIds.IdentRecovered` | python/compiler_suit_runner/suit_task.py:255-294 | the ident of a minted shared-dependency id of any of the four shapes is recovered if and only if a family name shows no double underscore |
| `TaskIds.GateFollowsHash` | python/compiler_suit_runner/suit_task.py:236-294 | the import gate is the one of the store hash, whatever the shape of the id, if and only if a family name keeps it: no double underscore shows, or the one inside it is followed by that very hash and a dash |
| `TaskIds.HeadAfterFamily` | python/compiler_suit_runner/suit_task.py:286-292 | that condition on the name says that the head token behind the first separator is the head token of the ident |
| `TaskIds.PlannedFamilies` | template_graph/cowalk/cross_arch.py:62-73 | for every family of the arch table, and the one for other archs, ident and gate come back exactly |
| `TaskIds.ForeignIdHasNoGate` | python/compiler_suit_runner/suit_task.py:255-270 | an id without the shared-dependency prefix has no ident and no gate |
| `TaskIds.HeadIs` | python/compiler_suit_runner/suit_task.py:236-252 | the head token is what stands before the first dash |
| `TaskIds.BasenameIs` | python/compiler_suit_runner/suit_task.py:297-308 | the basename is what stands behind the last slash |
| `TaskIds.ToolchainGateIs` | python/compiler_suit_runner/suit_task.py:297-308 | the gate of a store path in any directory carries its hash; there is none exactly for an empty hash |
| `SuitTask.Runner.DiscoverImportGateTasks` | python/compiler_suit_runner/suit_task.py:1676-1763 | exactly the documented static gates are emitted, each once, affine and without dependencies |
| `SuitTask.Runner.BuildCommonDepGateInfos` | python/compiler_suit_runner/suit_task.py:3159-3208 | the loop yields the gates of `NewGates` and remembers their ids |
| `GateGraph.NewGatesSpec` | python/compiler_suit_runner/suit_task.py:3159-3208 | a batch adds exactly the gates not remembered yet, each once, each waiting for the first streamed task that calls for it |
| `GateGraph.HandleHeadersContents` | python/compiler_suit_runner/suit_task.py:3100-3157 | one batch, cut anywhere, keeps the whole-graph invariant: what is spawned, every id once |
| `GateEdges.EdgesAre` | python/compiler_suit_runner/suit_task.py:855-923 | a task waits for exactly its own dependencies, the documented gates, and its toolchain builds; for nothing with dependencies disabled |
| `GateEdges.DependencyIsImported` | python/compiler_suit_runner/suit_task.py:824-858 | for each shared dependency of a streamed task, the task waits for its import gate, the gate is spawned affine, and it waits for the first task that publishes that store hash, no earlier one does |
| `GateTheorems.BatchesContents` | python/compiler_suit_runner/suit_task.py:3100-3157 | the invariant after any number of batches |
| `GateTheorems.ClosedIffCommonGate` | python/compiler_suit_runner/suit_task.py:902-907 | no intra-phase edge dangles if and only if `toolchain_outpaths_map` is non-empty (or edges are disabled, or nothing was streamed) |
| `GateTheorems.CommonGateMissing` | python/compiler_suit_runner/suit_task.py:1739-1742 | without realised toolchains `import_common` is never spawned |
| `GateTheorems.NoCycle` | python/compiler_suit_runner/suit_task.py:855-923 | a rank function drops along every edge, also when two shared dependencies have one hash |
| `GateTheorems.GraphAfterEveryBatch` | python/compiler_suit_runner/suit_task.py:3120-3208 | all of this after each batch, however the stream is cut |
| `NixStore.ImportStripped` | python/compiler_suit_runner/preflight.py:2051-2058 | a dependency-first closure without some paths imports exactly when the store holds every removed path that a kept one refers to |
| `NixStore.ImportedRefs` | python/compiler_suit_runner/workers/build_compilers_worker.py:459-477 | after a successful import nothing imported has an unregistered reference |
| `ToolchainSplit.ComputeToolchainSplit` | python/compiler_suit_runner/preflight.py:1321-1420 | raises exactly when no out-path is absolute and answered by a non-empty list; otherwise there is one delta for each such out-path, in order of first occurrence, and the split of their answers |
| `ToolchainSplit.FreqIs` | python/compiler_suit_runner/preflight.py:1399-1413 | counting occurrences at least two means lying in two closures, when no closure repeats a path |
| `ToolchainSplit.CollectToolchainArchivePaths` | python/compiler_suit_runner/preflight.py:2061-2098 | the subtracted set is exactly the union of the non-empty answers for the absolute out-paths |
| `ToolchainSplit.GatheredAre` | python/compiler_suit_runner/preflight.py:1361-1391 | an out-path has a gathered closure if and only if it is listed, begins with a slash and its query answers with a non-empty list; the closure is that answer |
| `ToolchainSplit.InOrderOfFirst` | python/compiler_suit_runner/preflight.py:1361-1391 | the gathered closures stand in the order in which their out-paths first occur |
| `ToolchainSplit.SplitSays` | python/compiler_suit_runner/preflight.py:1361-1420 | the same of the split: one delta for each such out-path, in that order |
| `ToolchainSplit.UnionOfAnswers` | python/compiler_suit_runner/preflight.py:2061-2098 | a path is in the union of the gathered closures exactly when some such answer lists it |
| `SplitTheorems.SplitPartition` | python/compiler_suit_runner/preflight.py:1383-1420 | COMMON and the deltas are pairwise disjoint, their union is the union of the closures, and their sizes add up to its size |
| `SplitTheorems.CommonRefClosed` | python/compiler_suit_runner/preflight.py:1399-1413 | COMMON is reference-closed |
| `SplitTheorems.ExpandingAddsNothing` | python/compiler_suit_runner/preflight.py:1517-1526 | expanding the requisites of a path set adds nothing exactly when the set is reference-closed |
| `SplitTheorems.SplitImports` | python/compiler_suit_runner/preflight.py:1517-1554 | importing COMMON and then any deltas in any order never meets an unregistered reference and ends with the whole closure of each |
| `SplitArchives.ExportToolchainSplit` | python/compiler_suit_runner/preflight.py:1517-1554 | raises exactly when the common archive or some non-empty delta cannot be written; otherwise COMMON is what the query lists and each other name holds the newest non-empty delta of its store hash |
| `SplitArchives.ExportSucceedsIff` | python/compiler_suit_runner/preflight.py:1405-1554 | for the split of gathered closures: the export succeeds if and only if the toolchains share a path (one toolchain counts), every toolchain with a path of its own has a store hash, and queries and exports work |
| `SplitArchives.UnrelatedToolchains` | python/compiler_suit_runner/preflight.py:1405-1413 | two or more toolchains share a path exactly when their closures are not pairwise disjoint |
| `SplitArchives.ArchivesHoldEverything` | python/compiler_suit_runner/preflight.py:1535-1554 | the archives hold every path of every closure if and only if no two non-empty deltas share a store hash |
| `ArchiveGates.NameWithoutDash` | python/compiler_suit_runner/preflight.py:1201-1224 | an out-path has an archive name exactly when its basename is non-empty and does not begin with a dash; a basename without a dash is its own id |
| `ArchiveGates.ArchiveNameIs` | python/compiler_suit_runner/preflight.py:1201-1235 | a store path in any directory has the archive name of its hash, and none exactly for an empty hash |
| `ArchiveGates.GateArchivesAre` | python/compiler_suit_runner/workers/build_worker.py:1413-1450 | the archive name of each gate, in full |
| `ArchiveGates.GateFindsName` | python/compiler_suit_runner/workers/build_worker.py:1413-1450 | the name a worker derives from the gate id is the name the submitter wrote |
| `ArchiveGates.ImportNamed` | python/compiler_suit_runner/workers/build_worker.py:1301-1342 | an absent archive raises, and so does one that does not import |
| `ArchiveGates.GatesImport` | python/compiler_suit_runner/workers/build_worker.py:1345-1450 | on any store the common gate imports COMMON; the gate of any out-path imports the newest delta of its store hash exactly if there is one and the store holds each common path that delta refers to, and raises otherwise |
| `ArchiveGates.AfterCommon` | python/compiler_suit_runner/workers/build_worker.py:1413-1450 | once COMMON is there, a toolchain gate that finds an archive completes the closure it was written for, its own if no store hash is shared |
| `ArchiveGates.GateRaisesIff` | python/compiler_suit_runner/workers/build_worker.py:1301-1450 | after COMMON, the first call for the gate of any out-path, also one the split skipped, raises if and only if no toolchain of the split has its store hash and a path that is not common |
| `ArchiveGates.OnlyFirstCallRaises` | python/compiler_suit_runner/workers/build_worker.py:1365-1450 | in any sequence of calls only the first for an archive can raise; later ones return and change nothing, also after a failure |
| `ArchiveGates.OnlyToolchainGateRaises` | python/compiler_suit_runner/preflight.py:1396-1407 | with a single realised toolchain the archives hold its closure, and its gate raises all the same |
| `SplitArchives.BuildDepsImport` | python/compiler_suit_runner/preflight.py:1971-2058 | the build-deps archive repeats nothing shipped, covers every seed, and can be imported exactly when the worker holds each subtracted path it refers to |
| `SplitArchives.BuildDepsOnFullWorker` | python/compiler_suit_runner/preflight.py:1971-2058 | a worker that holds all toolchain closures can always import it and then holds the inputs' whole closure |
| `SplitArchives.BuildDepsAre` | python/compiler_suit_runner/preflight.py:1971-2058 | whatever the query answers: the archive holds each reported path that is not subtracted, and exactly the named inputs that were not reported are handed back; it raises only when asked in vain |
| `PushStep.PushedNeverOvercommits` | python/compiler_suit_runner/peer_replication.py:387-452 | a step that issues offers ends with live holders plus in-flight at most K, and never targets the sender, a holder or an excluded peer |
| `PushStep.OffersWhatIsMissing` | python/compiler_suit_runner/peer_replication.py:387-452 | offers go only to peers that may have one and number at most what is missing to K; if any such peer gets none, they number exactly what is missing |
| `PushStep.PushFills` | python/compiler_suit_runner/peer_replication.py:387-452 | with all transports up, a step leaves K live holders and offers, or an offer at every peer that could take one |
| `ReplicationSender.Sender.PushAttempt` | python/compiler_suit_runner/peer_replication.py:244-269 | one push step, metadata remembered, nothing after `stop`, other outpaths untouched; every offer and every new slot carries the given drv path and item class |
| `ReplicationSender.Sender.PushAttemptLocked` | python/compiler_suit_runner/peer_replication.py:387-452 | one step of `PushStep.Pushed`, counted by `PushStep.OffersWhatIsMissing`: a slot exists for each offer whose transport worked, and offers carry the remembered metadata |
| `ReplicationSender.Sender.SendOffers` | python/compiler_suit_runner/peer_replication.py:413-452 | the loop offers once to each chosen peer and keeps slots within K, keyed by target |
| `ReplicationSender.Sender.ReleaseSlot` | python/compiler_suit_runner/peer_replication.py:454-464 | frees one slot; no empty inner map is left |
| `ReplicationSender.Sender.OnReject` | python/compiler_suit_runner/peer_replication.py:282-294 | frees the rejecter's slot, then one push step without exclusions |
| `ReplicationSender.Sender.OnTimeout` | python/compiler_suit_runner/peer_replication.py:296-308 | does nothing for a settled slot; otherwise frees it and pushes |
| `ReplicationSender.Sender.OnPathHave` | python/compiler_suit_runner/peer_replication.py:310-360 | settles the slot of the holder; at K holders, counting the announcing one, withdraws every other offer and tells the known peers; the timer is armed exactly if converged, and unclaimed with a bound hook or armed before |
| `ReplicationSender.Sender.Stop` | python/compiler_suit_runner/peer_replication.py:362-377 | no slot and no timer is left |
| `ReplicationSender.Sender.FireSettleBegin` | python/compiler_suit_runner/peer_replication.py:511-535 | first lock section: goes on exactly if the sender runs and nothing has claimed the outpath; then the claim is set and the holders are read |
| `ReplicationSender.Sender.FireSettleFinish` | python/compiler_suit_runner/peer_replication.py:536-567 | publishes if and only if the hook is bound, a task hash is known and there are at least K holders; gives the claim back exactly for fewer |
| `SettleWindow.PublishedAtMostOnce` | python/compiler_suit_runner/peer_replication.py:468-567 | under every interleaving of announcements, timer threads and both lock sections: at most one publication, always of at least K holders |
| `SettleWindow.PublishesIff` | python/compiler_suit_runner/peer_replication.py:536-567 | in every reachable window the end of a fire publishes its holders if and only if the hook is bound, the task hash is known and they are at least K; it gives the claim back exactly for fewer |
| `SettleWindow.SettledIsPublished` | python/compiler_suit_runner/peer_replication.py:468-567 | from every reachable unclaimed window of a running sender, a converging announcement leads to a fire that publishes the holders it read, the first and only publication |
| `SettleWindow.ArmedOnlyToPublish` | python/compiler_suit_runner/peer_replication.py:468-535 | a timer is armed only for a bound hook and an unclaimed outpath, an announcement below K disarms it, and a claimed or stopped window lets no fire begin |
| `SettleWindow.OnlySetterClears` | python/compiler_suit_runner/peer_replication.py:554-560 | only the fire that set the flag can clear it, and only before anything was published |
| `SettleWindow.RearmIffUnclaimed` | python/compiler_suit_runner/peer_replication.py:468-509 | a converging announcement arms a timer again exactly when no claim is out |
| `RepairWorker.Worker.OnPeerRemoved` | python/compiler_suit_runner/peer_replication.py:819-852 | exactly the outpaths that we and the dead peer hold and that have fewer than K live holders get one push step, with the dead peer excluded; lost are those without a live holder and with a task hash |
| `RepairWorker.RepairOffers` | python/compiler_suit_runner/peer_replication.py:955-980 | the push of a repair neither counts nor offers to the dead peer, and offers to as many others as are missing to K, or to all that could take the path |
| `RepairWorker.WithoutDead` | python/compiler_suit_runner/peer_replication.py:819-852 | "one holder less" counts the live holders, because the dead peer is one of those listed |
| `RepairWorker.Worker.RepairForOutpaths` | python/compiler_suit_runner/peer_replication.py:955-1023 | one push per outpath; lost is reported exactly when the placement map read after the push lists no live holder and a task hash is known |
| `RepairWorker.LostNeedsARefresh` | python/compiler_suit_runner/peer_replication.py:981-1007 | a removal reports a path lost only if the map read after the push no longer lists this node, because only paths we hold are looked at |
| `ReplicationReceiver.Receiver.OnOffer` | python/compiler_suit_runner/peer_replication.py:602-638 | the verdict of every branch; an accepted offer becomes the target |
| `ReplicationReceiver.Receiver.OnCancel` | python/compiler_suit_runner/peer_replication.py:640-653 | only the current offerer can cancel; it is flagged and untargeted |
| `ReplicationReceiver.Receiver.FetchFromUnknown` | python/compiler_suit_runner/peer_replication.py:705-711 | a vanished offerer only loses the target |
| `ReplicationReceiver.Receiver.FetchDone` | python/compiler_suit_runner/peer_replication.py:712-764 | the bookkeeping is cleared; recorded exactly for a successful, un-cancelled fetch before `stop`; cascaded only for toolchains |
| `ReplicationReceiver.AtMostOneUncancelled` | python/compiler_suit_runner/peer_replication.py:602-764 | if no sender runs two fetches of an outpath, at most one un-cancelled fetch runs, and it is the target's |
| `ReplicationReceiver.OnlyTargetRecords` | python/compiler_suit_runner/peer_replication.py:729-757 | a copy is recorded exactly when the current target's un-flagged fetch succeeds |
| `ReplicationReceiver.ReofferBreaksExclusivity` | python/compiler_suit_runner/peer_replication.py:624-638 | a re-offer while the first fetch runs can leave two un-cancelled fetches |
| `ReplicationReceiver.RecordedIffNotWithdrawn` | python/compiler_suit_runner/peer_replication.py:602-764 | in every polite run, a fetch that was accepted and succeeds is recorded if and only if no flag of its sender was up at the offer and the sender did not withdraw while it ran |
| `ReplicationReceiver.StaleFlagIff` | python/compiler_suit_runner/peer_replication.py:640-740 | a flag is up if and only if its sender withdrew during a fetch and none of its fetches has completed since; it is up without a running fetch if and only if such a fetch was given up for an unknown offerer |
| `ReplicationReceiver.StaleFlagDropsNextFetch` | python/compiler_suit_runner/peer_replication.py:706-740 | an input: a cancel flag left by a vanished offerer drops its next, successful fetch |
| `Broadcast.Receiver.FirstTime` | python/compiler_suit_runner/peer_push.py:271-277 | of any arrivals of an id exactly the first reaches the callback |
| `Broadcast.Receiver.OnBroadcastOffer` | python/compiler_suit_runner/peer_replication.py:1458-1549 | accepted if and only if it runs, the path is not empty, and it holds the path or fetches it from a known origin; every accepted offer is recorded; a cascade with the hop count raised by one exactly for a fetched copy below the cap |
| `Broadcast.Receiver.Targets` | python/compiler_suit_runner/peer_replication.py:1619-1643 | one message to every peer but this one and the origin, no URL twice |
| `BroadcastFlood.StepDecreases` | python/compiler_suit_runner/peer_replication.py:1458-1652 | every delivery, loss, callback and fan-out uses up work |
| `BroadcastFlood.FloodEnds` | python/compiler_suit_runner/peer_replication.py:1458-1652 | no run is longer than the work the start held |
| `BroadcastFlood.FloodIsBounded` | python/compiler_suit_runner/peer_push.py:264-307 | cascades send at most n(n-1) messages, hop counts stay within the cap, every offer in flight names a holder, every placement record is true |
| `BroadcastFlood.StepKeepsSane` | python/compiler_suit_runner/peer_replication.py:1458-1652 | each peer handles a broadcast id once and cascades at most once |
| `BroadcastFlood.StepKeepsSound` | python/compiler_suit_runner/peer_replication.py:1500-1535 | no step makes an offer or a record name a peer without the path |
| `BroadcastCoverage.RunCovers` | python/compiler_suit_runner/peer_replication.py:1482-1549 | the coverage invariant of flawless runs: every peer holds the path, is fetching it or has an unseen offer on its way, or the first cascade is still to come |
| `BroadcastCoverage.OneSeedCovers` | python/compiler_suit_runner/peer_replication.py:1482-1549 | with complete peer maps, no loss and no failed fetch, one seeded peer that lacks the path suffices, whoever else holds it: at rest every peer holds the path, and all that lacked it recorded it |
| `BroadcastCoverage.WhoSawRecorded` | python/compiler_suit_runner/peer_replication.py:1500-1535 | in a flawless flood at rest every peer that saw the offer of a path has recorded itself as a holder, also one that had the path all along |
| `BroadcastCoverage.HolderDoesNotForward` | python/compiler_suit_runner/peer_replication.py:1496-1506 | if all seeds hold the path already, a flawless flood comes to rest with no new holder; without cascades only the seeds can gain it |
| `BroadcastCoverage.CoversIffReaches` | python/compiler_suit_runner/peer_replication.py:1482-1652 | the exact condition: every flawless flood at rest has reached all peers if and only if all had the path, or the path is non-empty and either the seeds make up for all that lacked it or a cascade is allowed and some seed lacks it |
| `BroadcastCoverage.ComesToRest` | python/compiler_suit_runner/peer_replication.py:1619-1652 | a flawless flood can always be continued until it rests |
| `SigningKey.AllReturnTheSecretsKey` | python/compiler_suit_runner/peer_cache.py:225-315 | with no acceptable public key beforehand, under every interleaving of any callers (also dying ones), all that return got the public key of the one secret on disk |
| `SigningKey.PairNeverMismatched` | python/compiler_suit_runner/peer_cache.py:225-315 | in every reachable state the public key on disk belongs to the secret on disk, or is what was there at the beginning |
| `SigningKey.SecretIsFinal` | python/compiler_suit_runner/peer_cache.py:225-315 | once created the secret keeps its owner, and once written its content |
| `SigningKey.LeftoverIsReturned` | python/compiler_suit_runner/peer_cache.py:200-222 | a public key left by any earlier run passes the prefix check and is returned beside another winner's |
| `SigningKey.LoserReloadsPublished` | python/compiler_suit_runner/peer_cache.py:303-311 | once the winner has published, a loser's next read returns the winner's key |
| `SigningKey.FailsOnlyAfterReloads` | python/compiler_suit_runner/peer_cache.py:303-315 | a caller that nothing kills fails only after losing the race and reloading forty times, each time without an acceptable key on disk |
| `SigningKey.ExistingPairIsReturned` | python/compiler_suit_runner/peer_cache.py:225-262 | a caller that finds both files and an acceptable public key returns it and writes nothing |
| `SigningKey.RunIdIsIgnored` | python/compiler_suit_runner/peer_cache.py:200-222 | a key is accepted exactly if it has the cluster prefix, whatever the run id |
| `Placements.ReadAllPlacementFiles` | python/compiler_suit_runner/peer_cache.py:1358-1409 | an outpath lists a holder exactly when a readable placement file has a well-formed line saying so; no outpath is listed without holders |
| `Placements.EntrySaysIff` | python/compiler_suit_runner/peer_cache.py:1358-1409 | what counts: a regular file with the two name parts, and in it a JSON object with a non-empty path and holder |
| `Placements.WrittenRecord` | python/compiler_suit_runner/peer_paths.py:156-163 | the line `record_self_has` writes, float time stamp included, reads back as exactly its outpath and secondary |
| `Placements.RecordSelfHasAdds` | python/compiler_suit_runner/peer_paths.py:117-164 | it raises for an empty outpath or id; otherwise readers list what they listed before and this one holder, nothing else |
| `Placements.ComputePlacementDiff` | python/compiler_suit_runner/peer_cache.py:1338-1355 | the loop yields exactly the gained and the lost holders per outpath, and omits unchanged ones |
| `Placements.DiffHolders` | python/compiler_suit_runner/peer_cache.py:1338-1355 | added and removed are exactly who gained and who lost each path, and list no path without a change |
| `Placements.PatchReconstructs` | python/compiler_suit_runner/peer_cache.py:1319-1355 | removing then adding turns the old aggregate into the new, and leaves the new one as it is |
| `Placements.EmptyDiffIff` | python/compiler_suit_runner/peer_cache.py:1326-1328 | a diff is empty exactly when nothing changed |
| `PlacementWatcher.Watcher.Refresh` | python/compiler_suit_runner/peer_cache.py:1319-1335 | the aggregate becomes what the files say, and callbacks get the difference exactly when there is one |
| `PlacementWatcher.SubscribersAgree` | python/compiler_suit_runner/peer_cache.py:1263-1335 | whenever no refresh is under way every subscriber that took a snapshot at any time after registering holds the watcher's aggregate; during one, that or the previous |
| `PlacementWatcher.RequestIsServed` | python/compiler_suit_runner/peer_cache.py:1298-1316 | no refresh request is lost: the loop never sleeps on one, and within three of its own steps has read what was there when it was made |
| `TreeLine.ParseLine` | template_graph/tree_walker.py:46-79 | the segment loop computes `ParseText` |
| `TreeLine.DrvTreeStream` | template_graph/tree_walker.py:196-205 | yields the decoded lines in order and stops at the first that raises; what that is for rendered lines says `TreeLineProofs.StreamDecodes` |
| `TreeLineProofs.TextDecodes` | template_graph/tree_walker.py:46-79 | the segment loop returns the fields of every rendered line |
| `TreeLineProofs.BytesDecode` | template_graph/tree_walker.py:88-122 | the byte arithmetic returns the fields of every rendered line's UTF-8 form (section 3 of RFC 3629) |
| `TreeLineProofs.DecodersAgree` | template_graph/tree_walker.py:46-122 | both decoders agree on every rendered line, and return its own fields if and only if it is a backref or its name does not end in the marker |
| `TreeLineProofs.RawDecodes` | template_graph/tree_walker.py:196-205 | a rendered line with its newline decodes to its fields |
| `TreeLineProofs.UnterminatedDecodes` | template_graph/tree_walker.py:196-205 | without its newline it does so if and only if the text does not itself end in one, which the stream would strip off the name |
| `TreeLineProofs.StreamDecodes` | template_graph/tree_walker.py:196-205 | the stream of any rendered lines yields exactly their fields, in order, and does not raise |
| `TreeLineProofs.BytesRaiseIff` | template_graph/tree_walker.py:88-122 | on any line: the byte decoder succeeds if and only if the first store prefix, the marker aside, stands behind whole four-character segments with a connector, and the name is ASCII |
| `TreeLineProofs.TextOfAnyRest` | template_graph/tree_walker.py:46-79 | on any indentation and any rest: a rest that is no store path is all name, and only a hash that is not ASCII raises |
| `StringOrder.SortedSetCanonical` | python/compiler_suit_runner/incremental_cache.py:61-71 | two lists have the same sorted, de-duplicated form exactly when they have the same elements |
| `JsonSort.SortedIsSame` | python/compiler_suit_runner/incremental_cache.py:115-121 | sorting keys at every depth gives an equal Python value |
| `JsonSort.SameSorted` | python/compiler_suit_runner/incremental_cache.py:115-121 | equal values, however their dicts were filled, have the same key-sorted form |
| `CacheKey.CanonicalBytesIff` | python/compiler_suit_runner/incremental_cache.py:61-177 | two invocations serialise their axes alike exactly when kind, scalars and lists as sets agree, "all" being different from every list |
| `CacheKey.ComputeInputHash` | python/compiler_suit_runner/incremental_cache.py:202-234 | feeds the hash exactly the preimage, and raises for a field of 2^64 bytes or more |
| `CacheKey.BigEndianInjective` | python/compiler_suit_runner/incremental_cache.py:221-232 | eight-byte lengths determine the length |
| `CacheKey.PreimageInjective` | python/compiler_suit_runner/incremental_cache.py:202-234 | the length-prefixed concatenation determines its four fields |
| `CacheKey.SubentryKeyIff` | python/compiler_suit_runner/incremental_cache.py:202-250 | two hash preimages are equal exactly when lock, revision, diff, entry kind and effective axes are |
| `MemoCodec.ToolchainsFromPayload` | python/compiler_suit_runner/incremental_cache.py:366-404 | the loops accept exactly well-shaped entries, a later duplicate drv overwriting an earlier |
| `MemoCodec.VariantsFromPayload` | python/compiler_suit_runner/incremental_cache.py:418-446 | accepts exactly dicts of metadata with the required keys and a list of strings as archs |
| `MemoCodec.LoadsIff` | python/compiler_suit_runner/incremental_cache.py:511-565 | an entry loads if and only if it is a dict whose version compares equal to 1, `true` and `1.0` included |
| `MemoCodec.OneAndOneTenth` | python/compiler_suit_runner/incremental_cache.py:553-556 | as versions, `1.0` is accepted and `1.1` is not |
| `MemoCodec.VersionKinds` | python/compiler_suit_runner/incremental_cache.py:542-556 | of whole numbers only 1, of the truth values only `true` is the version; texts, lists, objects and `null` never are |
| `Decimals.IsOneIffNearest` | python/compiler_suit_runner/incremental_cache.py:542-556 | a float counts as 1 exactly when no other double is nearer to the numeral |
| `Decimals.DecimalIs` | python/compiler_suit_runner/incremental_cache.py:542-556 | a numeral with a fraction is worth its whole part plus the digits of the fraction over their power of ten |
| `Decimals.ExponentScales` | python/compiler_suit_runner/incremental_cache.py:542-556 | an exponent multiplies or divides that by its power of ten |
| `MemoCodec.ToolchainsRoundTrip` | python/compiler_suit_runner/incremental_cache.py:341-404 | storing and loading a toolchains triple is exact, order included |
| `MemoCodec.VariantsRoundTrip` | python/compiler_suit_runner/incremental_cache.py:407-446 | a stored variants dict loads exactly when every binary has the metadata shape, and is then equal as a Python dict |
| `MemoCodec.PairsExactly` | python/compiler_suit_runner/incremental_cache.py:366-404 | a list reads as pairs exactly when it is the written form of those pairs |
| `MemoCodec.DrvsExactly` | python/compiler_suit_runner/incremental_cache.py:366-404 | drvs are read exactly when every item is three texts, into a dict with the value given last for each key |
| `MemoCodec.ToolchainsExactly` | python/compiler_suit_runner/incremental_cache.py:366-404 | a toolchains payload is read exactly when its three fields have those shapes |
| `MemoCodec.VariantsExactly` | python/compiler_suit_runner/incremental_cache.py:418-446 | a variants payload is read exactly when every metadata is an object with the four fields and a list of texts as archs, and is handed on as it is |
| `MemoCache.LookupsAgree` | python/compiler_suit_runner/incremental_cache.py:501-610 | under every interleaving of stores, discards and lookups of any processes, a lookup is a miss or exactly the computed value |
| `MemoCache.StoreThenHit` | python/compiler_suit_runner/incremental_cache.py:501-610 | after a discard, an undisturbed store makes the next lookup a hit |
| `MemoCache.EntryStays` | python/compiler_suit_runner/incremental_cache.py:567-610 | a complete entry stays, whoever stores or looks up, until somebody discards its key |
| `MemoCache.OnlyMissesDiscard` | python/compiler_suit_runner/incremental_cache.py:511-565 | only a lookup that has just missed discards: on a text that does not decode, a value it cannot use, or a directory without its file |
| `MemoCache.BadEntryDiscarded` | python/compiler_suit_runner/incremental_cache.py:511-565 | an undisturbed lookup of an entry that does not decode misses and removes it |
| `MemoCache.EmptyEntryDiscarded` | python/compiler_suit_runner/incremental_cache.py:524-535 | so does one that finds a directory without its file |
| `MemoCache.GoodEntryHits` | python/compiler_suit_runner/incremental_cache.py:501-565 | an undisturbed lookup of a good entry returns it and leaves it there |
| `MemoCache.FreshEntryDiscarded` | python/compiler_suit_runner/incremental_cache.py:524-535 | a lookup that found no file discards what is there at its later directory probe, also a complete entry stored in between |
| `MemoTheorems.SameKeySameInputs` | python/compiler_suit_runner/incremental_cache.py:237-250 | with a collision-free hash, one key means one repository state and one canonical set of axes |
| `MemoTheorems.ToolchainsCacheAgrees` | python/compiler_suit_runner/incremental_cache.py:614-677 | every toolchains lookup is a miss or the triple the enumeration gives for its inputs |
| `MemoTheorems.VariantsCacheAgrees` | python/compiler_suit_runner/incremental_cache.py:680-710 | every variants lookup is a miss or a dict equal to the one the enumeration gives |
| `Json.Print` | python/compiler_suit_runner/streamed_spawn.py:262-278 | JSON text of a value, compact, on one line or with `indent=2`; injective and undone by the parser (`JsonRoundTrip.ParsePrint`) |
| `Json.Parse` | python/compiler_suit_runner/streamed_spawn.py:456-466 | the JSON reader; it accepts every printed value and returns it (`JsonRoundTrip.ParsePrint`), and only ever builds dicts |
| `Utf8.Encode` | python/compiler_suit_runner/streamed_spawn.py:329-337 | UTF-8 of a string; injective, and undone by `Utf8.Decode` |
| `SpawnCodec.Envelope` | python/compiler_suit_runner/streamed_spawn.py:241-259 | the batch object with an empty list; what splicing parts into it yields is `SpawnCodec.SpliceIsPrint` |
| `SpawnCodec.DecodeDescriptor` | python/compiler_suit_runner/streamed_spawn.py:195-238 | the strict descriptor reader; what it accepts is exactly what the encoder writes (`SpawnCodec.DecodedIsEncoded`) |
| `SpawnCodec.DecodeMessage` | python/compiler_suit_runner/streamed_spawn.py:440-499 | bytes to message, raising for anything malformed; inverse of the two writers |
| `BatchPlan.Add` | python/compiler_suit_runner/streamed_spawn.py:339-385 | `add` in terms of whole messages: the pending batch grows, is returned first, or the call raises; refined by the encoder class |
| `BatchPlan.Run` | python/compiler_suit_runner/streamed_spawn.py:339-385 | a run of adds; its invariants are part of its contract: well-formed plan, every message in both caps |
| `TaskGraph.IdentOf` | python/compiler_suit_runner/suit_task.py:255-294 | the ident part of a shared-dependency id (`TaskIds.IdentRecovered`) |
| `TaskGraph.GateIdOf` | python/compiler_suit_runner/suit_task.py:236-252 | the import gate of a shared dependency, absent where the caller skips (`TaskIds.GateFollowsHash`) |
| `TaskGraph.ToolchainGateId` | python/compiler_suit_runner/suit_task.py:297-308 | the import gate of a toolchain out-path, absent for the `ValueError` |
| `TaskGraph.HeadersOf` | python/compiler_suit_runner/dependency_graph_planner/manifest_glue.py:21-61 | headers in descriptor order, unknown kinds dropped; field by field by `DescriptorTasks.TaskOfDescriptor`, one for one by `DescriptorTasks.HeaderAt` and `DescriptorTasks.HeaderFrom` |
| `TaskGraph.CommonDepGateDeps` | python/compiler_suit_runner/suit_task.py:824-852 | one gate per shared dependency, de-duplicated and sorted; its elements are given by `GateEdges.ImportDepsAre` |
| `TaskGraph.HeaderDependsOn` | python/compiler_suit_runner/suit_task.py:855-923 | all edges of a header; as a set they are exactly those of `GateEdges.EdgesAre` |
| `TaskGraph.NewGates` | python/compiler_suit_runner/suit_task.py:3159-3208 | the gates a batch adds; specified by `GateGraph.NewGatesSpec` |
| `TaskGraph.StaticIds` | python/compiler_suit_runner/suit_task.py:1676-1763 | the ids of the static gates; the discovery method emits exactly these |
| `TaskGraph.HandleHeaders` | python/compiler_suit_runner/suit_task.py:3117-3150 | what one batch does to the spawned graph; keeps the invariant of `GateGraph.HandleHeadersContents` |
| `GateEdges.ImportDepsAre` | python/compiler_suit_runner/suit_task.py:902-922 | a header waits for a gate exactly when the documented list says so |
| `Handoff.Receive` | python/compiler_suit_runner/suit_task.py:3047-3157 | one message on the primary: new counters and graph, or a raise without effect |
| `Handoff.Reconciled` | python/compiler_suit_runner/suit_task.py:2980-2993 | the barrier condition; exact by `Handoff.BarrierIsExact` |
| `NixStore.Import` | python/compiler_suit_runner/workers/build_compilers_worker.py:459-515 | registering an archive's paths in order, failing on an unregistered reference; when it succeeds is `NixStore.ImportStripped` |
| `ToolchainSplit.Gather` | python/compiler_suit_runner/preflight.py:1361-1391 | the closures that survive the skips, one per out-path: exactly those of `ToolchainSplit.GatheredAre` |
| `ToolchainSplit.GatherGood` | python/compiler_suit_runner/preflight.py:1361-1391 | each gathered closure is the non-empty answer for its own out-path, and no out-path occurs twice |
| `ToolchainSplit.SplitOf` | python/compiler_suit_runner/preflight.py:1405-1420 | COMMON and the deltas; a partition by `SplitTheorems.SplitPartition` |
| `SplitTheorems.CommonIs` | python/compiler_suit_runner/preflight.py:1405-1413 | a path is common exactly when two closures have it, or the only closure does |
| `SplitTheorems.DeltaImports` | python/compiler_suit_runner/preflight.py:1415-1420 | one delta on top of a store with COMMON completes that toolchain's closure |
| `SplitArchives.DeltaArchiveName` | python/compiler_suit_runner/preflight.py:1201-1235 | the archive name from the store hash, absent for the `ValueError`; never the common archive's name (`SplitArchives.NotCommonArchive`) |
| `SplitArchives.BuildDepsClosure` | python/compiler_suit_runner/preflight.py:1971-2058 | the archive's paths in order and the uncovered seeds; specified by `SplitArchives.BuildDepsImport` |
| `PushStep.Quota` | python/compiler_suit_runner/peer_replication.py:397-412 | how many offers one push step sends; counted without it by `PushStep.OffersWhatIsMissing` |
| `PushStep.Pushed` | python/compiler_suit_runner/peer_replication.py:387-452 | the relation of one push step that every sender method is proved against |
| `PushStep.Arm` | python/compiler_suit_runner/peer_replication.py:468-509 | arming and cancelling the debounce of one outpath |
| `PushStep.BeginFire` | python/compiler_suit_runner/peer_replication.py:519-535 | the first lock section of a timer thread |
| `PushStep.EndOf` | python/compiler_suit_runner/peer_replication.py:536-567 | how a timer thread ends: publish, give the claim back, or quietly; decided by `SettleWindow.PublishesIff` |
| `SettleWindow.Apply` | python/compiler_suit_runner/peer_replication.py:468-567 | one step of one outpath's settle window; `SettleWindow.StepKeepsOneClaim` is its invariant |
| `SettleWindow.StepKeepsOneClaim` | python/compiler_suit_runner/peer_replication.py:468-567 | the flag is worth exactly one claim: a fire under way, a publication, or a quiet end |
| `ReplicationReceiver.Fetched` | python/compiler_suit_runner/peer_replication.py:729-740 | the locked part after a fetch |
| `ReplicationReceiver.StepKeepsExclusive` | python/compiler_suit_runner/peer_replication.py:602-764 | every offer, cancel and completion keeps: each running fetch is the target or flagged, and a target runs |
| `Broadcast.Decide` | python/compiler_suit_runner/peer_replication.py:1482-1549 | the four-branch decision on a fresh offer |
| `BroadcastFlood.Apply` | python/compiler_suit_runner/peer_replication.py:1458-1652 | one step of the cluster: delivery with dedup, loss, callback, fan-out |
| `SigningKey.Accepts` | python/compiler_suit_runner/peer_cache.py:200-222 | which public-key text a reader takes |
| `SigningKey.Move` | python/compiler_suit_runner/peer_cache.py:225-315 | the next file operation of a caller; `SigningKey.MoveKeepsAgreed` is its invariant |
| `SigningKey.MoveKeepsAgreed` | python/compiler_suit_runner/peer_cache.py:225-315 | every file operation of every caller keeps writer, published key and returned keys in agreement |
| `Placements.DiffOf` | python/compiler_suit_runner/peer_cache.py:1338-1355 | the difference of two aggregates; reconstructs by `Placements.PatchReconstructs` |
| `PlacementWatcher.Next` | python/compiler_suit_runner/peer_cache.py:1263-1335 | one step of the feed: registration, snapshot, swap, delivery |
| `PlacementWatcher.StepKeepsInStep` | python/compiler_suit_runner/peer_cache.py:1319-1335 | every step leaves each subscriber up to date, or one diff behind while that diff is still to come |
| `PlacementWatcher.TicksLoseNothing` | python/compiler_suit_runner/peer_cache.py:1298-1316 | an unserved request keeps the wake flag up, or a read is about to happen |
| `TreeLine.ParseText` | template_graph/tree_walker.py:46-79 | the text decoder as a function; correct on rendered lines by `TreeLineProofs.TextDecodes` |
| `TreeLine.ParseLineBytes` | template_graph/tree_walker.py:88-122 | the byte decoder; correct on rendered lines by `TreeLineProofs.BytesDecode` |
| `TreeLineProofs.FindAfterHead` | template_graph/tree_walker.py:99-101 | the store prefix is found right behind the indentation, which holds no slash |
| `CacheKey.CanonicalBytes` | python/compiler_suit_runner/incremental_cache.py:107-177 | the serialised axes of an invocation; equal exactly for equal meaning |
| `CacheKey.Preimage` | python/compiler_suit_runner/incremental_cache.py:202-234 | the hashed bytes; injective |
| `MemoCodec.LoadPayload` | python/compiler_suit_runner/incremental_cache.py:511-565 | an entry text is a JSON object of this version, or a miss; `true` and every float that rounds to 1 compare equal to the version |
| `MemoCodec.DecodeToolchains` | python/compiler_suit_runner/incremental_cache.py:366-404 | the strict reader of a toolchains payload |
| `MemoCodec.DecodeVariants` | python/compiler_suit_runner/incremental_cache.py:418-446 | the strict reader of a variants payload |
| `MemoCache.Advance` | python/compiler_suit_runner/incremental_cache.py:501-659 | the next file operation of a process inside a store, lookup or discard |
| `MemoCache.StepKeepsSlots` | python/compiler_suit_runner/incremental_cache.py:567-610 | no step puts a text under a key that reads as another key's value |
| `MemoTheorems.ToolchainMemoFaithful` | python/compiler_suit_runner/incremental_cache.py:614-677 | key and codec of the toolchains namespace meet what the cache theorem asks |
| `MemoTheorems.VariantMemoFaithful` | python/compiler_suit_runner/incremental_cache.py:680-710 | key and codec of the variants namespace meet what the cache theorem asks |

## Left out

- JsonRoundTrip.ParsePrint: does not model lone surrogates, nor binary floating point: a float is the numeral it is written as (or `NaN`, `Infinity`, `-Infinity`), so `1.0` and `1.00` are different values here and equal ones in Python.
- SpawnCodec.DescriptorRoundTrip: a payload is JSON-native with string keys or not serialisable at all; a dict with other key types, which `json.dumps` would convert, is not modelled.
- EndToEnd.HeadersStream: only the header fields that shape the graph are modelled; `attr`, priorities and the header's own payload copy are not.
- GateTheorems.GraphAfterEveryBatch: assumes what the planner promises (shared dependencies listed before their dependents, task ids unique and not beginning with `import_`, binaries and out-paths known to the configuration); the planner itself is not part of this model.
- SuitTask.Runner.HandleStreamedSpawnBatch: the framework's own deduplication and error list of `spawn_tasks` are not modelled: a call that returns has spawned every task, one that raises none.
- Handoff.Receive: a raising `spawn_tasks` is the subject of `SpawnFailure.ReceiveWith`, which agrees with it otherwise.
- Handoff.BarrierIsExact: failover to a promoted primary, whose counters start at zero, is not modelled.
- ToolchainSplit.ComputeToolchainSplit: a query answer is its list of non-blank lines; store paths hold no white space, so stripping them changes nothing.
- SplitTheorems.SplitImports: assumes the requisites query lists the least reference-closed set over its seeds, once each, dependencies first.
- SplitArchives.ExportToolchainSplit: only the path sets of archives are modelled, not the archive bytes, temporary files or the atomic rename.
- ReplicationSender.Sender.PushAttempt: peer ids are distinct; real time is not modelled, and no progress of retries is claimed, because a retry may pick the same peer again.
- ReplicationReceiver.AtMostOneUncancelled: holds before `stop`, and only if a sender does not offer again while its fetch still runs.
- RepairWorker.Worker.OnPeerRemoved: the placement-diff trigger `on_diff` and its metadata lookup in the local gossip file are not modelled.
- BroadcastCoverage.CoversIffReaches: peers are identified with their URLs, and nobody deletes a path during the flood.
- SigningKey.AllReturnTheSecretsKey: file contents are taken as already stripped; what `nix key` computes is one fixed public key per generated secret.
- Placements.ReadAllPlacementFiles: a file is a list of stripped lines; file-system errors other than an unreadable file or a missing directory, and undecodable bytes, are not modelled.
- Placements.RecordSelfHasAdds: the push to the peers after the write is not modelled.
- ArchiveGates.ImportNamed: zero-byte archives are not modelled (an export never writes one), nor paths registered by an import that fails half way.
- PlacementWatcher.SubscribersAgree: a subscriber installs a snapshot before its next callback can run; one that stores it later, after a diff was delivered, can go back to an old aggregate.
- PlacementWatcher.Next: for the same reason reading and installing a snapshot are one event.
- Json.Parse: refuses an escaped lone surrogate, which `json.loads` turns into one; strings here hold Unicode scalar values only.
- PlacementWatcher.RequestIsServed: a refresh that raises is not modelled; the request it served waits for the next tick.
- TreeLine.DrvTreeStream: stands for the generator by the list it yields.
- MemoCache.LookupsAgree: writing the private staging directory, fsync and permissions are not modelled; temporary directories of different processes are distinct.
- MemoTheorems.SameKeySameInputs: SHA-256 is any function without collisions.
- Variant file names (`parse_variant_path`), enumeration, manifests, HTTP, SSH, SLURM, harmonia and nix-daemon control, `git` and `nix` subprocesses: table lookups or I/O.
