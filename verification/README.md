# Dymint, modelled and proved

Dymint is a rollup node: it applies blocks to an ABCI application, keeps them in a key-value store,
recovers from crashes, syncs from a data availability layer and submits batches to a settlement
layer. This project models the parts of it where a mistake would be hardest to see and proves what
they promise.

**Block application, crash recovery, sync and submission.** `Chain` and `Kv` hold the values: blocks,
commits, the replicated state, and the contents of the store. `Recovery` is a transition system whose
events are the single durable writes, application commits and memory updates of applyBlock,
alignStoreWithApp, pruning, index updates and restart; a crash is possible in every state.
`RecoveryInvariant` has the inductive invariant and `RecoveryTheorems` what follows for every run:
exactly-once application, agreement of store and application, retained heights, and refinement of a node
that never crashes. `RecoveryResults` follows the results hash, `RecoveryFloor` the settlement index, and
`RecoverySteps` says what a few consecutive events amount to. `HalfAligned`, `Unsigned` and `Submission`
are about three ways in which a run can go wrong. `Store` and `Manager` are the imperative code itself;
every method returns, as a ghost result, the protocol events it went through, and is proved to be a legal
run, so that all theorems about runs apply wherever the process stops. `CanonicalChain` and `SyncSpec`
define the rollup's chain and the layers a node syncs from. `Settlement` is a second transition system,
of the submit loop, the sync target loop, the settlement client and the hub.

**Wire codec.** `Varint`, `Wire`, `Unknown`, `Malformed`, `Messages`, `RoundTrip`, `Marshal`,
`Serialization` and `Layout` cover the generated code for Version, Header, Commit, Data, Block and Batch,
which follows the Protocol Buffers Encoding specification (sections "Base 128 Varints" and "Message
Structure"): encoding backwards into an exactly sized array, decoding forwards, what is refused and why,
the conversions to and from the node's own types, and the bytes that come out in the end. `BatchCut` is
the size-limited cut of the next batch.

**Priority mempool.** `CList` is the concurrent list with its wait channels, `TxCache` the LRU cache,
`Pool` the contents of the mempool as values, `Mempool` the class that updates them, and `SecondCopy` a
history in which the cache lets a transaction in twice.

**Transaction index.** `TxKeys` has the string keys, `TxSearch` what an index holds and what a search
selects from it, `TxFilter` the proof that selecting is filtering, and `TxIndex` the class.

## Where the code differs from what one would expect

- NewManager calls InitChain only when the stored state has no block height. applyBlock writes that
  height before the application's first commit. A crash between the two, at the first block, restarts
  without InitChain. `RecoveryTheorems.GenesisLost` gives the run for every acceptable first block;
  `RecoveryTheorems.GenesisFate` shows that the first block runs on the genesis data if and only if no
  restart fell into that window, and the refinement theorem has exactly that condition.
- waitForSync reads the latest batch and stores the sync target in two steps. If a batch is posted in
  between, the stored target is too low, the next draft starts too low, and the client panics on it.
  Accepted batches still tile. `Settlement.OutdatedTarget` gives the run for every node that is down and
  holds unsubmitted blocks, `Settlement.OutdatedRun` one from an empty chain, and
  `Settlement.NextStartsAtLatest` the exact condition on the order of events. It covers the time before
  the sync target loop has stored its first fetch as well, when a draft may start at height 1
  (`Settlement.EarlyTick`).
- alignStoreWithApp changes application hash, store height and validators of the running state before it
  loads the responses. If that fails, the state claims the new height with the old results hash, and an
  index update may write it. `RecoveryResults.ResultsExactly` shows that the stored results hash is right
  throughout a run if and only if no index update with a different hash falls between a failed load and
  the next alignment; the refinement theorem has that condition. `HalfAligned.TornRun` gives the run, and
  `HalfAligned.TornRejects` shows that the node then rejects the chain it has followed.
- submitNextBatch ends at the last block that the running state names. `Submission.SubmittedRan` shows that
  all submitted blocks were run by the application if and only if the state names none above the
  application's height, and `Submission.UnranSubmitted` how any block at all gets there.
- Validation does not tie the transactions of a block to its header (`Chain.BodyUnbound`), so it is the
  header that is signed. `RecoveryTheorems.NodesAgree` is therefore about equal blocks.
- A commit of height 0 without signatures passes the basic checks, and reading its first signature
  panics. `Chain.ValidateExactly` says exactly when, `Unsigned.UnsignedPanics` that every running node has
  such blocks at its next height. The process dies with the block saved; started again, it finds the
  block pending and proposes it (`Manager.Manager.ProduceBlock`), so it can die again any number of times
  (`Unsigned.DiesForever`), and in no run that receives no other block does the application ever move
  again (`Unsigned.NeverPast`).
- updateStateIndex records a batch without looking at the store. `RecoveryFloor.SyncFloor` shows that the
  store stays above the recorded batch if and only if no batch is recorded before its end is stored, and
  `Manager.Manager.SyncUntilTarget` that none is when the batches tile and lie where they are recorded.
- A transaction whose key has left the cache can be admitted a second time while it is in the pool. The
  second copy takes the index entry; the first can then neither be reaped nor be removed by a block.
  `Mempool.TxMempool.Submit` gives the exact condition, `SecondCopy.AdmitTwice` a history in which it
  happens, for any two transactions, and what a block leaves behind.
- The comment of purgeExpiredTxs says that expired transactions stay in the cache. The code removes
  them from it, and so does the model.
- A search takes both bounds on a key as one range, so one value has to meet both. It also requires the
  transaction's own height when the query asks for a positive height. `TxFilter.NaiveExactly` shows for
  which transactions this is the condition-by-condition filter, whatever the query: those with at most
  one integer value for each key.
- Exclusive bounds at the ends of the 64-bit range wrap; `TxFilter.LowerExact` and
  `TxFilter.UpperExact` are exact about it.

## Assumptions

The initial height is 1. applyBlock calls are serialised, and so is updateStateIndex with them. A
database batch is atomic. Header hashes are collision-free. What the application returns depends on the
data it committed and the block; work it did not commit, InitChain included, is lost in a crash. The
settlement layer's events are delivered once and in order and die with the process. Reading the database
fails nowhere but in alignStoreWithApp, where the model has it: elsewhere the code takes a failed read
for an absent entry (LoadState, PruneBlocks, and the pending block in produceBlock), or gives up as for
one. Transactions of one index differ in hash and in place on the chain where a theorem says so.

## Model

| member | source | states |
|---|---|---|
| `RecoveryInvariant.StepKeeps` | block/block.go:19-146 | every event of the protocol, crash and restart included, keeps the invariant that ties disk, memory, application log, phase and hub together |
| `RecoveryInvariant.ReceiveKeeps` | block/block.go:36-41 | saving a block before it is validated disturbs no committed height |
| `RecoveryInvariant.FlushKeeps` | store/pruning.go:6-73 | a flush in the middle of pruning keeps every height from the cut up, wherever the base stands |
| `RecoveryInvariant.CommitKeeps` | state/executor.go:171-186 | the application's commit extends the log by the block in flight, and by no other |
| `RecoveryInvariant.AlignKeeps` | block/block.go:116-146 | alignment gives the state the hashes of the application's last block |
| `RecoveryTheorems.RunKeeps` | block/block.go:19-146 | the invariant holds after every legal run |
| `RecoveryTheorems.ExactlyOnce` | block/block.go:19-146 | in every run with crashes and restarts anywhere the application commits heights 1, 2, 3, ... once each, every block names the application hash its predecessor left and has a signed header, and the application is at the store height or one above, on disk and in memory |
| `RecoveryTheorems.LogGrows` | block/block.go:78-83 | nothing the application committed is ever taken back |
| `RecoveryTheorems.LogIsCrashFree` | state/executor.go:171-234 | a log that started from the genesis data has the height, data, hashes, block id and time of a fold over its blocks that knows no crashes |
| `RecoveryTheorems.RefinesCrashFree` | block/block.go:97-146 | at every point of every run that neither loses the genesis data nor tears, stored state, running state and application data are those of the crash-free fold: hashes of the height they claim, block id and time of the last committed block unless they already name the next one; only the running state may lack the last results hash, after a failed load |
| `RecoveryTheorems.CompletedRefines` | block/block.go:97-146 | whenever the state of a height is written for good, directly or through alignment, it has the hashes, both heights, block id and time of the crash-free fold over all committed blocks, without reservations, and memory agrees once the block is done |
| `RecoveryResults.ResultsExactly` | block/block.go:128-146 | the stored results hash is that of the stored height throughout a run if and only if no index update with a different hash falls between a failed load of the responses and the next alignment; then every committed block names the results its predecessor left |
| `HalfAligned.TornRun` | block/block.go:128-137 | for every node whose application is ahead and whose next batch to note lies within the store, a run after which the node stands at the application's height with the results hash it had before |
| `HalfAligned.TornTears` | block/retriever.go:62-70 | that run tears if and only if the two results hashes differ |
| `HalfAligned.TornRejects` | state/executor.go:265-288 | then the node rejects the next block of the chain it has followed |
| `RecoveryTheorems.NodesAgree` | state/executor.go:303-358 | two nodes that committed the same blocks have the same data and hashes, whatever crashes either went through |
| `Chain.BodyUnbound` | state/executor.go:265-300 | the verdict on a block does not depend on its transactions |
| `Submission.SubmittedRan` | block/submit.go:49-73 | everything a submission asks for loads, and all of it was run by the application if and only if the running state names no block above the application's height |
| `Submission.UnranSubmitted` | block/submit.go:49-73 | after one crash between persisting and commit, any block of the next height with any commit is what the next submission ends with |
| `RecoveryTheorems.GenesisFate` | block/manager.go:96-174 | the first block runs on the genesis data if and only if no restart came after the first state write and before the first application commit |
| `RecoveryTheorems.GenesisLost` | block/manager.go:120-146 | for every acceptable first block there is a legal run in which it is executed without InitChain |
| `RecoveryTheorems.AcceptedAgain` | state/executor.go:265-300 | a block that was attempted and given up is accepted again |
| `RecoveryTheorems.StoreAgrees` | store/store.go:78-190 | at every unpruned height the application committed, index, block, commit and responses are those it ran and a validator set with the powers of the sequencers is stored; anything else in the index sits alone right above |
| `RecoveryTheorems.RetainedSuffix` | store/pruning.go:6-73 | loadable heights are exactly those from a cut up, the base is never above the cut, the cut never passes the latest accepted batch, so parent and unsubmitted blocks load; below the cut no block, commit, responses or validator set is left |
| `RecoveryTheorems.HeightBookkeeping` | types/serialization.go:281-295 | every stored state has its two heights equal or one apart, so the compatibility branch never fires and a restart resumes with the stored height, base and state, no sync target, and the data the application committed |
| `RecoveryTheorems.HeightNeverDrops` | store/store.go:212-232 | no event lowers the height a node stands at or would resume at |
| `RecoveryFloor.SyncFloor` | block/retriever.go:40-70 | the store is at or above the end of the batch its state index names, in memory and on disk and throughout a run with crashes, if and only if no batch is noted before its end is stored |
| `RecoverySteps.AlignmentRepairs` | block/block.go:116-146 | wherever the application is ahead, the responses alignment needs are stored, and aligning makes store, disk and memory agree with the application, results hash included |
| `Chain.ValidateExactly` | state/executor.go:142-300 | validation panics exactly on a fitting block whose commit has height 0 and no signature, and accepts exactly a fitting block with a good signature, whatever the order of the checks |
| `Chain.FromProtoExactly` | types/serialization.go:281-321 | reading a stored state back changes nothing but the store height of a state without one |
| `Unsigned.UnsignedPanics` | types/validation.go:45-66 | for every running node and any contents there is a block at the next height whose commit passes the basic checks and on which validation panics |
| `Unsigned.DiesAgain` | block/block.go:36-46 | after such a block is received, the process has died and was started again, the block is pending at the same height with the same verdict, and the application has not moved |
| `Unsigned.DiesForever` | block/block.go:36-46 | there is such a run for any number of starts |
| `Unsigned.NeverPast` | block/block.go:36-46 | in every run that receives no other block the application never moves again, and whenever the node is idle validating the block still panics |
| `RecoverySteps.ParentLoads` | block/produce.go:122-138 | the block and commit below the next height load, and are the ones the application ran |
| `RecoverySteps.OwnBlockAccepted` | state/executor.go:104-150 | a block built on the running state passes validation |
| `Kv.SaveBlockFrame` | store/store.go:78-113 | what is saved is what loads at its height, and every other height loads as before |
| `Kv.SaveExecutionFrame` | block/block.go:55-76 | responses, state and the validators of the state are what loads afterwards, the sets and responses of every other height and all blocks and commits as before |
| `Kv.PruneExact` | store/pruning.go:6-73 | no block, commit, responses or validator set of an indexed height of the range can be loaded afterwards, nor found by its hash, and everything outside it loads as before |
| `Kv.DeleteTwice` | store/pruning.go:25-71 | two deletion batches amount to one of both |
| `Store.DefaultStore.PruneBlocks` | store/pruning.go:6-73 | refuses exactly the bad ranges; without a failing flush it succeeds on all others; when it succeeds it has deleted exactly the range counted what it deleted, and flushed once per thousand and once at the end; when a flush fails it stands after a prefix of its flushes, which go forward and below the target; validator sets outside the range stay |
| `Manager.Manager.constructor` | block/manager.go:85-174 | starting on what a crash left is the protocol's restart |
| `Manager.Manager.ExecuteBlock` | block/block.go:36-76 | save, validate, execute and persist, each of which may fail, is a legal run; it succeeds if and only if the block is acceptable and none fails, and panics if and only if the block is saved and validation panics; afterwards the validator set that was next is stored for the height, and those of other heights are as before |
| `Manager.Manager.CommitBlock` | block/block.go:78-113 | commit, publish, prune and final write, each of which may fail, is a legal run that commits the block at most once |
| `Manager.Manager.AlignStoreWithApp` | block/block.go:116-146 | is a legal run whether the load or the write fails; it brings the store to the block's height iff neither does, and a failed load leaves the old results hash with the new height and application hash |
| `Manager.Manager.ApplyBlock` | block/block.go:19-113 | is a legal run whichever of its calls fail; skips exactly the blocks that are not next, and panics exactly on a next block, with the application not ahead, that is saved and on which validation panics; without faults it repairs iff the application is ahead and otherwise applies iff the block is acceptable, appending exactly this block to the application's log; after success the stored state is the running one, has both heights at the block's, and names the application's last block and its results hash, the validator set that was next is the current one and the one stored for the height, the sets of all other heights that were not pruned are as before, the next one has the same powers and its turn moved by one, and the base is where pruning within the settlement height takes it |
| `Manager.Manager.ApplyBatch` | block/retriever.go:80-87 | the store reaches every block of a batch that starts no higher than the next height, and a node on the chain stays on it |
| `Manager.Manager.ProcessNextDABatch` | block/retriever.go:72-89 | the same for all batches found at one height, in any order |
| `Manager.Manager.UpdateStateIndex` | block/retriever.go:62-70 | moves the index by one, in memory even when the write fails, and on disk otherwise; the note is early if and only if the batch ends above the store |
| `Manager.Manager.SyncBatch` | block/retriever.go:49-57 | one round keeps the sync floor when the batches tile, and succeeds on the canonical chain when nothing fails |
| `Manager.Manager.SyncUntilTarget` | block/retriever.go:40-60 | is a legal run for any recorded batches; returning synced means the target is reached; if the batches tile and lie where they are recorded, no batch is noted early, a target that is accepted never starves it while retrievals succeed in the end, and on the canonical chain without faults nothing else can stop it and the node stays on the chain |
| `Manager.Manager.ProduceBlock` | block/produce.go:116-203 | always finds its parent; a stored block at the next height is proposed again, otherwise the new block names the parent the application ran and its commit, or none at the first height, has the transactions, time, proposer and fields proposed and the version and hashes of the running state, and goes with a commit of its height, hash and signature; without faults a new block is applied, and a pending one is repaired iff the application is ahead, applied iff acceptable, and kills the process iff validation panics on it; when a block is skipped as empty or not gossiped |
| `Manager.Manager.PruneBlocks` | block/pruning.go:8-23 | pruning is a sequence of protocol flushes; it reaches the asked height exactly when the settlement height and the store allow it |
| `CanonicalChain.NextBlockAccepted` | state/executor.go:142-150 | a node that followed the chain accepts its next block, whatever crashes it went through |
| `SyncSpec.BatchLeft` | block/retriever.go:40-47 | below a target that is accepted, with the floor kept, there is always a batch left to fetch |
| `SyncSpec.BatchReached` | block/retriever.go:49-58 | applying everything at a batch's recorded height brings the store to the batch's end |
| `SyncSpec.StaysOnChain` | block/block.go:19-113 | a faultless application of a chain block succeeds and leaves the node on the chain |
| `Settlement.StepKeeps` | block/submit.go:12-84 | every step of production, pruning, submission, acceptance, delivery, fetch, crash and restart keeps the invariant of system and event history |
| `Settlement.SettlementTiles` | block/submit.go:12-84 | in every run the accepted batches tile the heights from 1, at most one batch is drafted or under way, and meanwhile no submission begins |
| `Settlement.CoveredOnce` | settlement/mock/mock.go:201-224 | every height up to the latest is in exactly one accepted batch |
| `Settlement.HubGrows` | settlement/mock/mock.go:201-224 | accepted batches are permanent |
| `Settlement.NextStartsAtLatest` | block/submit.go:49-84 | when a draft starts at the latest height plus one and can pass the client's check: once the loop has stored its fetch, if and only if no batch was posted between the read and the store of waitForSync with nothing stored after; before that, if and only if there is no batch or waitForSync has stored |
| `Settlement.ProducesAbove` | block/produce.go:21-47 | in no run does a node produce a block below the latest accepted one, although the target that waitForSync waits for may be outdated |
| `Settlement.HeightCounts` | block/produce.go:116-203 | a node that retrieves nothing stands higher by exactly the blocks it produced, received or added empty, through crashes too |
| `Settlement.OutdatedTarget` | block/produce.go:21-47 | for every node that is down with unsubmitted blocks, a run in which waitForSync is overtaken and the client refuses the next draft |
| `Settlement.OutdatedRun` | block/produce.go:21-47 | such a run from an empty chain, for any number of blocks produced |
| `Settlement.EarlyTick` | block/submit.go:23-45 | for every node that is down with accepted batches and its first block not pruned, a run in which the first tick comes before any fetch is stored and the client refuses the draft |
| `BatchCut.PrefixGrows` | types/pb/dymint/dymint.pb.go:1095-1124 | longer prefixes are never smaller |
| `BatchCut.LowerEndFits` | block/submit.go:113-128 | rewriting the end height to a lower one never makes a batch larger |
| `BatchCut.CreateNextDABatch` | block/submit.go:86-129 | terminates for all 64-bit heights; holds exactly the stored blocks and commits from its start in order, stays within the limit under its final end height, stops short only where every longer prefix is over the limit, fails to load exactly at the first missing height the limit would have let in, and panics exactly when there is no room for end - start + 1 blocks, or for the wrapped number when the range is more than empty |
| `Varint.SovIsLength` | types/pb/dymint/dymint.pb.go:1122-1124 | the size formula is the length of the varint |
| `Varint.LengthMonotone` | types/pb/dymint/dymint.pb.go:1122-1124 | larger numbers never have shorter varints |
| `Varint.DecodeEncoded` | types/pb/dymint/dymint.pb.go:1128-1215 | the shifting decoder adds a varint's value to what it accumulated, for every 64-bit total |
| `Varint.ReadEncoded` | types/pb/dymint/dymint.pb.go:1128-1215 | a varint anywhere in the input reads back as its number |
| `Varint.EncodeVarint` | types/pb/dymint/dymint.pb.go:936-946 | writes the varint right before the offset and nothing else |
| `Varint.ReadVarint` | types/pb/dymint/dymint.pb.go:1128-1215 | the loop terminates on every input with the result or error of its specification |
| `Wire.ReadDeclared` | types/pb/dymint/dymint.pb.go:1128-1215 | a field of a declared number and type reads back as itself |
| `Unknown.UndeclaredIgnored` | types/pb/dymint/dymint.pb.go:2311-2388 | a field of an undeclared number, of any wire type and with groups nested to any depth, is skipped to its exact end |
| `Unknown.SkipRaw` | types/pb/dymint/dymint.pb.go:2311-2388 | inside any number of open groups, skipping goes on exactly behind the field |
| `Unknown.UnmarshalItems` | types/pb/dymint/dymint.pb.go:1216-1677 | undeclared fields, wherever they stand, make no difference to what is decoded |
| `Malformed.EncodedMeans` | types/pb/dymint/dymint.pb.go:936-946 | a varint is bytes that say that more follow and one that does not, holds its number seven bits at a time, and does not end in a zero |
| `Malformed.ReadVarintAt` | types/pb/dymint/dymint.pb.go:1128-1215 | up to ten such bytes, minimal or not, are read as the number in them, in 64 bits |
| `Malformed.ReadTooLong` | types/pb/dymint/dymint.pb.go:1128-1145 | ten bytes that say that more follow are an overflow |
| `Malformed.ReadTooShort` | types/pb/dymint/dymint.pb.go:1128-1145 | input that ends while more should follow is cut off |
| `Malformed.UnmarshalCut` | types/pb/dymint/dymint.pb.go:1678-1848 | behind any complete fields, a declared or undeclared field of which at least one and not all bytes are there makes the message cut off, groups of any depth included |
| `Malformed.UnmarshalWrongType` | types/pb/dymint/dymint.pb.go:1678-1848 | behind any complete fields, a declared number with a wire type other than its own makes the message fail with just that |
| `Malformed.BadTag` | types/pb/dymint/dymint.pb.go:1128-1215 | a tag that ends a group, has an illegal number, a wrong wire type or none that exists fails with the error for it |
| `Malformed.BadLength` | types/pb/dymint/dymint.pb.go:1740-1755 | a length that does not fit a signed 64-bit index is refused as such |
| `Wire.UnmarshalFields` | types/pb/dymint/dymint.pb.go:1216-1677 | decoding the concatenation of declared fields stores exactly these fields, in order |
| `Wire.SkipField` | types/pb/dymint/dymint.pb.go:2311-2388 | the skip loop, groups included, terminates on every input with the result of its specification |
| `Wire.UnmarshalAll` | types/pb/dymint/dymint.pb.go:1216-1677 | the decode loop terminates on every input with the result of its specification; `Unknown.UnmarshalItems`, `Malformed.UnmarshalCut` and `Malformed.UnmarshalWrongType` say what that is |
| `RoundTrip.VersionSizeIsLength` | types/pb/dymint/dymint.pb.go:947-960 | Size is the number of bytes |
| `RoundTrip.HeaderSizeIsLength` | types/pb/dymint/dymint.pb.go:962-1019 | Size is the number of bytes, over all thirteen fields |
| `RoundTrip.CommitSizeIsLength` | types/pb/dymint/dymint.pb.go:1021-1045 | Size is the number of bytes |
| `RoundTrip.DataSizeIsLength` | types/pb/dymint/dymint.pb.go:1047-1072 | Size is the number of bytes |
| `RoundTrip.BlockSizeIsLength` | types/pb/dymint/dymint.pb.go:1074-1093 | Size is the number of bytes, through the nested messages |
| `RoundTrip.BatchSizeIsLength` | types/pb/dymint/dymint.pb.go:1095-1120 | Size is the number of bytes, through the nested messages |
| `RoundTrip.VersionRoundTrip` | types/pb/dymint/dymint.pb.go:1128-1215 | decoding what was encoded gives the message back |
| `RoundTrip.HeaderRoundTrip` | types/pb/dymint/dymint.pb.go:1216-1677 | decoding what was encoded gives the message back |
| `RoundTrip.CommitRoundTrip` | types/pb/dymint/dymint.pb.go:1678-1848 | decoding what was encoded gives the message back |
| `RoundTrip.DataRoundTrip` | types/pb/dymint/dymint.pb.go:1849-1996 | decoding what was encoded gives the message back |
| `RoundTrip.BlockRoundTrip` | types/pb/dymint/dymint.pb.go:1997-2154 | decoding what was encoded gives the message back |
| `RoundTrip.BatchRoundTrip` | types/pb/dymint/dymint.pb.go:2155-2310 | decoding what was encoded gives the message back |
| `Marshal.MarshalVersion` | types/pb/dymint/dymint.pb.go:572-588 | writing backwards leaves the message's encoding before what was there, and returns where it starts |
| `Marshal.MarshalHeader` | types/pb/dymint/dymint.pb.go:605-703 | the same, with the nested version |
| `Marshal.MarshalCommit` | types/pb/dymint/dymint.pb.go:720-759 | the same, with the repeated signatures last to first |
| `Marshal.MarshalData` | types/pb/dymint/dymint.pb.go:776-814 | the same |
| `Marshal.MarshalBlock` | types/pb/dymint/dymint.pb.go:831-873 | the same, each nested message written before its length and tag |
| `Marshal.MarshalBatch` | types/pb/dymint/dymint.pb.go:890-934 | the same, with blocks and commits last to first |
| `Marshal.EncodeBatch` | types/pb/dymint/dymint.pb.go:875-934 | a buffer of Size bytes is filled exactly, and decoding it gives the batch back |
| `Serialization.HeaderExact` | types/serialization.go:83-141 | a message converts to a header if and only if it is that header's message |
| `Serialization.FromProtoExact` | types/serialization.go:154-242 | which messages convert to which block, exactly, absent commits included |
| `Serialization.FromProtoFails` | types/serialization.go:105-242 | which messages panic for a missing part and which are refused for a wrong length |
| `Serialization.BatchConverts` | types/serialization.go:201-208 | a batch converts if and only if all its blocks and commits do, one by one and in order, and panics otherwise |
| `Serialization.BlockBinaryRoundTrip` | types/serialization.go:14-32 | a block survives its binary form |
| `Serialization.BatchBinaryRoundTrip` | types/serialization.go:19-43 | a batch survives its binary form |
| `Layout.HeaderBinary` | types/pb/dymint/dymint.pb.go:605-703 | the bytes of a header: which tag stands before which of its fields, and in which order |
| `Layout.CommitBinary` | types/pb/dymint/dymint.pb.go:720-759 | the same for a commit |
| `Layout.BlockBinary` | types/pb/dymint/dymint.pb.go:831-873 | the same for a block, with its transactions |
| `Layout.BatchBinary` | types/pb/dymint/dymint.pb.go:890-934 | the same for a batch, through its blocks and commits |
| `CList.CElement.SetNext` | mempool/clist/clist.go:158-177 | opens and releases the next gate exactly when the neighbour goes and comes, never releasing twice |
| `CList.CElement.SetPrev` | mempool/clist/clist.go:181-195 | the same for the previous gate |
| `CList.CElement.SetRemoved` | mempool/clist/clist.go:197-212 | releases exactly the gates that still wait |
| `CList.CList.PushBack` | mempool/clist/clist.go:316-352 | fails only at the maximal length; otherwise the links represent the old sequence and the new element, and a gate is released iff its neighbour exists |
| `CList.CList.Remove` | mempool/clist/clist.go:356-401 | the links represent the sequence without the element, whose both gates are released; no gate is released twice or driven negative |
| `TxCache.Bounded` | mempool/cache.go:64-89 | over any history the cache has at most its size, without repetition |
| `TxCache.PresentIsKept` | mempool/cache.go:56-110 | over any history a present key was pushed and neither removed nor reset since |
| `TxCache.RecentIsPresent` | mempool/cache.go:64-110 | over any history a kept key is present as long as fewer than size other keys were pushed since |
| `TxCache.PresentExactly` | mempool/cache.go:64-89 | over any history of pushes a key is present if and only if fewer than size other keys were pushed since |
| `TxCache.LRUTxCache.Push` | mempool/cache.go:64-89 | map and list stay one recency-ordered sequence; reports whether the key was new |
| `TxCache.LRUTxCache.Remove` | mempool/cache.go:91-102 | the sequence without the key |
| `TxCache.LRUTxCache.Has` | mempool/cache.go:104-110 | membership in the sequence |
| `Pool.RemoveKeeps` | mempool/v1/mempool.go:260-284 | removal keeps list, indexes and byte counter in agreement, even when another element has the same key |
| `Pool.InsertKeeps` | mempool/v1/mempool.go:623-631 | insertion keeps them in agreement, if the sender is new |
| `Pool.InsertKeysIndexed` | mempool/v1/mempool.go:623-631 | afterwards every element is indexed under its key if and only if all were and none has the new key |
| `Pool.AdmittedIndexed` | mempool/v1/mempool.go:539-631 | after an admission with eviction every element is indexed if and only if no copy of the new key stays |
| `Pool.RemoveAllKeeps` | mempool/v1/mempool.go:583-604 | evicting a set frees its size and bytes and keeps all else |
| `Pool.EvictionFits` | mempool/v1/mempool.go:539-604 | evicting a shortest sufficient prefix makes the new transaction fit both limits, and evicts nothing else |
| `Pool.SumOfSame` | mempool/v1/mempool.go:540-581 | the order of the victims does not matter to their total |
| `Pool.TotalsAdd` | mempool/v1/mempool.go:337-352 | sizes, gas and encoded sizes of two lists add up |
| `Pool.TotalsOfOne` | mempool/v1/mempool.go:337-352 | of one transaction they are its length, the gas it wants, and tag, length and bytes of a repeated field |
| `Mempool.SortBy` | mempool/v1/mempool.go:572-581 | each element once, none before one that has to precede it |
| `Mempool.TxMempool.RemoveTxByElement` | mempool/v1/mempool.go:276-284 | exactly the element leaves, list, indexes and counter agree, and the limits hold on |
| `Mempool.TxMempool.RemoveTxByKey` | mempool/v1/mempool.go:260-272 | the element the index leads to leaves; reports whether there is one |
| `Mempool.TxMempool.InsertTx` | mempool/v1/mempool.go:623-631 | list, indexes and counter agree on the new element |
| `Mempool.TxMempool.CollectVictims` | mempool/v1/mempool.go:540-548 | exactly the transactions of strictly lower priority, and their total size |
| `Mempool.TxMempool.Evict` | mempool/v1/mempool.go:583-603 | evicts the shortest non-empty prefix that frees enough, from pool and cache |
| `Mempool.TxMempool.InitialTxCallback` | mempool/v1/mempool.go:466-621 | when each answer is given; the pool is unchanged unless the transaction is added; when full, the evicted ones are the shortest sufficient prefix by rising priority and then newest first; the new transaction is last with the values of the answer, all others that were not evicted are still there, no evicted one has a higher priority than one that was passed over, nothing is evicted while both limits have room, limits and agreement hold afterwards; every element stays indexed if and only if no copy of the key stays; which keys leave the cache |
| `Mempool.TxMempool.CheckTx` | mempool/v1/mempool.go:179-217 | which check turns a transaction away, in order; it is forwarded if and only if the others pass and its key is not in the cache; what the cache then holds |
| `Mempool.TxMempool.Submit` | mempool/v1/mempool.go:179-247 | a fully indexed pool stops being so if and only if the transaction passes the checks, is not in the cache, is admitted, and another copy of its key stays |
| `Mempool.TxMempool.PurgeExpiredTxs` | mempool/v1/mempool.go:762-786 | exactly the transactions that are older than a positive limit, in blocks or in time, leave the pool, and their keys the cache |
| `Mempool.TxMempool.Update` | mempool/v1/mempool.go:393-451 | exactly those stay that the removal of the keys leaves and that are not expired; if every element was indexed, exactly those that are neither in the block nor expired; the cache holds what the results and the expiry leave in it; how many recheck answers are expected |
| `Mempool.CacheAfterMeans` | mempool/v1/mempool.go:409-421 | what a block does to the cache: a key that failed last is out unless invalid ones are kept, the key that succeeded last of all is in, none comes in that did not succeed, and failures that are kept change nothing |
| `Mempool.ForgetMeans` | mempool/v1/mempool.go:583-604 | forgetting removes exactly the keys of the given transactions |
| `Mempool.TxMempool.RecheckTxCallback` | mempool/v1/mempool.go:639-696 | an answer that is not expected any more changes nothing; otherwise a transaction that is not indexed changes nothing; accepted, the indexed one gets the answered priority and keeps its place, identity and all else, and no other transaction, index or counter changes; refused, exactly it leaves; every element stays indexed, limits and agreement hold |
| `Mempool.TxMempool.Flush` | mempool/v1/mempool.go:288-305 | pool, indexes, counter and cache are empty |
| `Mempool.TxMempool.AllEntriesSorted` | mempool/v1/mempool.go:310-325 | every indexed transaction once, by falling priority and rising time, whatever order the map is walked in |
| `Mempool.TxMempool.ReapMaxBytesMaxGas` | mempool/v1/mempool.go:337-352 | the longest prefix of that order whose every partial total fits both limits, by falling priority and rising time, and one more would exceed a limit that is set; without limits, every transaction of an indexed pool; the pool is unchanged |
| `Mempool.SecondCopyStays` | mempool/v1/mempool.go:422-434 | after a second copy was admitted, removing the key leaves a transaction with that key in the pool and none in the index |
| `SecondCopy.AdmitTwice` | mempool/v1/mempool.go:179-247 | for any two transactions with different keys, a cache of one key and room for three: the first, the second and the first again are all admitted, and a copy of the first is left after a block that executed it |
| `TxKeys.ParseDecimal` | state/txindex/kv/kv.go:474-482 | a printed 64-bit number parses back |
| `TxKeys.ParseExactly` | state/txindex/kv/kv.go:474-482 | a string parses as a number if and only if the number has 64 bits and the string is an optional sign, any zeros and the digits of its magnitude, the sign agreeing |
| `TxKeys.NotANumber` | state/txindex/kv/kv.go:474-482 | the empty string, and one with any other character or with a sign elsewhere, parses as none |
| `TxKeys.JoinPrefix` | state/txindex/kv/kv.go:591-597 | of slash-free fields, a prefix is an equal field and a prefix of the rest |
| `TxKeys.JoinSplit` | state/txindex/kv/kv.go:557-564 | splitting at the first slash undoes joining |
| `TxSearch.TagKeyPlace` | state/txindex/kv/kv.go:566-582 | a slash-free key tells tag, height and index |
| `TxSearch.AddKeeps` | state/txindex/kv/kv.go:68-99 | indexing one more distinct transaction, or one again, indexes exactly it besides |
| `TxSearch.AddAllKeeps` | state/txindex/kv/kv.go:68-99 | the same for a batch |
| `TxFilter.HitsExact` | state/txindex/kv/kv.go:308-418 | a condition's scan finds a transaction if and only if one of its values satisfies the condition, at the asked height |
| `TxFilter.RangeHitsExact` | state/txindex/kv/kv.go:450-527 | a range's scan finds a transaction if and only if one of its values is an integer in the range |
| `TxFilter.LowerExact` | state/indexer/query_range.go:34-53 | an exclusive lower bound means greater-than on all 64-bit values if and only if it is not the largest |
| `TxFilter.UpperExact` | state/indexer/query_range.go:57-76 | an exclusive upper bound means less-than on all 64-bit values if and only if it is not the smallest |
| `TxFilter.RangeMeans` | state/indexer/query_range.go:80-111 | the range collected for a key holds exactly the values that meet all conditions on the key |
| `TxFilter.RangeHitMeans` | state/txindex/kv/kv.go:450-527 | the keys a range picks are those whose value is a numeral within the bounds |
| `TxFilter.MatchedIsNumeral` | state/txindex/kv/kv.go:474-511 | a transaction that matches a bound has a numeral that meets it among its values for the key |
| `TxFilter.MatchedHasPart` | state/txindex/kv/kv.go:374-402 | one that matches a text has a value with the text somewhere in it |
| `TxFilter.TagsMean` | state/txindex/kv/kv.go:136-160 | under which keys and values a transaction is indexed: its height, and each attribute marked for it with a key in an event with a type |
| `TxFilter.SearchIsFilter` | state/txindex/kv/kv.go:173-281 | a transaction is in the intersection of all scans if and only if the query matches it |
| `TxFilter.PlainIsNaive` | state/txindex/kv/kv.go:173-281 | for a transaction with at most one integer value for each key, matching is satisfying every condition |
| `TxFilter.NaiveExactly` | state/txindex/kv/kv.go:173-281 | matching is satisfying every condition, for all queries, if and only if the transaction is of that kind |
| `TxIndex.LookForRanges` | state/indexer/query_range.go:80-111 | the range of every bounded key, and exactly the indexes of range conditions |
| `TxIndex.FirstHashDecides` | state/txindex/kv/kv.go:283-291 | the first condition on the hash is the one taken, and only its text |
| `TxIndex.FirstHeightDecides` | state/txindex/kv/kv.go:293-302 | the first equality on the height is the one taken |
| `TxIndex.TxIndex.IndexEvents` | state/txindex/kv/kv.go:136-160 | writes the keys of exactly the indexed attributes with a type and a key |
| `TxIndex.TxIndex.AddBatch` | state/txindex/kv/kv.go:68-99 | an index that held exactly some transactions then holds exactly these and the batch |
| `TxIndex.TxIndex.Match` | state/txindex/kv/kv.go:308-443 | intersects with the condition's scan, on the first run and later |
| `TxIndex.TxIndex.MatchRange` | state/txindex/kv/kv.go:450-553 | intersects with the range's scan, on the first run and later; what is new has a numeral in the range |
| `TxIndex.TxIndex.MatchRanges` | state/txindex/kv/kv.go:212-230 | the intersection of all ranges, in whatever order the map is walked, early exit included |
| `TxIndex.TxIndex.MatchConditions` | state/txindex/kv/kv.go:235-253 | the intersection with all other conditions, early exit included |
| `TxIndex.TxIndex.Search` | state/txindex/kv/kv.go:173-281 | a hash condition decides alone; otherwise each selected result once, and of an index that holds exactly some transactions, exactly the matching ones, each with a numeral for every key that is bounded |

## Left out

- Interleaving of two applyBlock calls: gossip, production and sync call it without a common lock; the model serialises them.
- Liveness of the submit loop: an error leaves the in-process flag set, so only safety is stated.
- Proposer rotation: a block that is executed again after a crash rotates once more; validator sets are compared by keys and powers, and validator updates are the empty list the code passes.
- Signatures, hashing and Merkle roots: signature checks are a parameter, header hashes are free terms, results and application hashes are parameters.
- SubmitLoop, SyncTargetLoop, waitForSync and the settlement clients are a transition system on values and not classes; in-place update and goroutine scheduling inside one event are not captured.
- Settlement and data availability clients: whether a retrieval succeeds in the end is a parameter; retries, timers and the network are not modelled.
- Store.DefaultStore.PruneBlocks: a delete that fails inside a batch is not told apart from a flush that fails, since both leave what the flushes before it left.
- RoundTrip.BatchRoundTrip: for messages smaller than 2^63 bytes, as are the other round trips, because lengths are signed 64-bit integers; nil and empty byte slices are one; CommitSig and Evidence are carried as encoded bytes.
- Serialization.BlockBinaryRoundTrip: block evidence is empty, since the conversion drops it.
- State.ToProto and State.FromProto: only the compatibility branch for old states is modelled, not their codec.
- CList: waiting on a gate (NextWait, FrontWait and their kin) and the locks are left out; a channel with its wait group is a gate that counts waiters and can be released once.
- Mempool.TxMempool: works on a sequence with element identities in place of the linked list, which CList covers on its own; locks, metrics, notifications and peers are left out.
- Mempool.TxMempool.RecheckTxCallback: models one answer; that recheck visits every transaction is not claimed, since its loop steps on from an element that the answer may have detached.
- Mempool.TxMempool.ReapMaxBytesMaxGas: totals are unbounded integers, so wrap-around of the gas total is not modelled.
- The pre-check and post-check hooks and the application are parameters of CheckTx and its callback; ReapMaxTxs takes a prefix of the order that ReapMaxBytesMaxGas takes one of, by count alone.
- TxIndex.TxIndex.Search: tags and results are two maps, so a transaction hash that happens to spell a tag key is not modelled; a cancelled context, time and float operands are left out, hex decoding is a parameter.
- TxFilter.SearchIsFilter: for queries with at most one lower and one upper bound for each key, because LookForRanges keeps only the last of several, and for keys and values without slashes.
- The block indexer, p2p, RPC, configuration and metrics.
