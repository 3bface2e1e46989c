# Verified model of the ress stateless consensus engine

ress is a stateless Ethereum execution client: it keeps only recent blocks in memory, fetches
everything else from peers, and validates each payload with an execution witness. This project
models the part that decides *which chain is canonical, which blocks wait for what, and what is
answered to the consensus layer*, and proves that part correct in Dafny.

`dafny verify dfyconfig.toml` checks everything.

| file | component |
|---|---|
| `Blocks.dfy` | hashes, headers, ancestry: the reference every other claim is stated against |
| `ChainState.dfy` | the in-memory block tree, the canonical number-to-hash index, block-hash lookups, pruning |
| `ChainSwitch.dfy` | computing the commit or reorg for a requested head |
| `CanonicalIndex.dfy` | the index, lookups and pruning against the full chain |
| `ChainRuns.dfy` | the chain as a state machine, and what holds after every run of it |
| `ChainExamples.dfy` | runs that show what goes wrong when syncs or finality break their conditions |
| `InvalidAncestors.dfy` | the invalid-header cache and `latestValidHash` |
| `BlockBuffer.dfy` | pending blocks with their four indexes, witnesses and missing bytecodes |
| `RemovalOrder.dfy` | when a branch removal comes in number order, and when it never does |
| `Fetch.dfy` | the retrying fetches of a block, a header range, a block with ancestors |
| `Downloader.dfy` | fetches in flight and the queue of outcomes |
| `NetworkManager.dfy` | requests handed to peer connections in rotation |
| `TreeSpec.dfy` | the engine tree as a value: insertion, chain switch, fork choice, and what they keep |
| `BlockHandling.dfy` | handling a block from insertion to answer, with everything that is connected along with it |
| `EngineTree.dfy` | the tree itself: inserting blocks, connecting buffered ones, fork choice |
| `EngineSpec.dfy` | the event loop as a value: what a turn does and keeps, and runs of turns |
| `Answers.dfy` | what answers and turns mean: when each is given, what is then in flight, what becomes of each download |
| `ConsensusEngine.dfy` | the event loop itself, with its single parked payload |
| `ParkedExample.dfy` | a parked payload that stays unanswered although its block has been dealt with |

## How it is modelled

- A hash is symbolic: opaque, or the hash of one header. Collision freedom and acyclic ancestry
  hold by construction. `Numbered` says that numbers count down by one to a genesis at zero; that is
  what header validation against the parent establishes, and it is proved for every block inserted.
- A header stands for its block. EVM execution, the sparse trie, the state root and the consensus
  rules are an arbitrary deterministic oracle (`Rules`) that accepts, rejects or crashes.
- The components whose fields change in place are classes. Each has a `View()` of its state as a
  value; its methods are proved against functions and predicates on views, and the properties are
  lemmas about those.
- Whatever the environment decides is a parameter: which responses have arrived, whether a
  connection is open, whether sender recovery, a database read or a bytecode write succeeds, whether
  the parked payload's time is up. The foreign invalid-header cache may drop an entry on any access;
  when it is a lookup that drops the very entry it looks for, that is recorded.
- The bytecode database is a set that only grows.

## Main results

1. **Canonical index.** After every run of block insertions, head changes, finalized syncs and
   prunes, each entry is the canonical head's true ancestor (`EveryRunIsSound`). For a finalized sync
   this holds exactly when the entries it leaves in place are ancestors of the synced block
   (`SyncSoundIff`; `SyncCanBreakIndex` is a run that ends in such a sync).
2. **Block-hash lookups** refine a plain walk over the unpruned chain. Wherever the head has been
   moved, all of the last 256 ancestors are found from every descendant of the finalized root, and
   later prunes change no answer, as long as finality keeps to its condition: a prune is not behind
   the root or at a child of its ancestry, and a sync leaves no higher block without its parent
   (`EveryFinalRunIsComplete`). That condition is exactly what keeps the root anchored to the head's
   chain (`StepAnchoredIff`, `AnchoredThroughoutIff`), and the first event to break it costs a lookup
   exactly under the condition of `NextEventIsCompleteIff`; `FinalityGoingBackLosesHashes` and
   `SyncGoingBackLosesHashes` are runs that do. Pruning at a block is transparent exactly when the
   index takes over from memory below it (`PruneTransparentIff`; `PruneCanLoseHashes` is a run after
   which it does not).
3. **Chain switching** yields an update exactly when memory connects head and target, and the update
   is the right one: highest common ancestor, linked, contiguous (`OnNewHead`, `UpdateShape`).
4. **Invalid ancestors.** A hash reported for a block is an in-memory ancestor, the block right above
   it on the path failed validation, and everything above it is invalid, however many entries the
   cache has dropped. It is exactly what the recorded entries lead to (`LatestValidFinds`), for a
   payload that could not be decoded too. A block or fork choice whose checked hash is recorded as bad
   is refused, unless that very lookup dropped the record (`KnownBadIsRefused`, `KnownBadHeadIsRefused`).
5. **Buffer.** All indexes stay coherent; branch removal and eviction take out exactly what they
   should, removal in depth-first order; the parent index is complete along a run exactly when every
   branch removal is clean (`ListedAlongTrace`); numbers ascend exactly under the condition of
   `AscendsIff`.
6. **Downloads.** Every pass advances every fetch by exactly one poll in spite of in-place removal. A
   fetch completes exactly when what it needs has arrived (`PollBlockIff`, `PollAncestorsIff`), and then
   it is delivered and no longer in flight; nothing else is delivered (`PollDelivers`).
7. **Handling a block.** The tree after a payload or a downloaded block is tied to the insertion's
   only result, every block connected along with it and every event followed (`Handles`, `Connects`).
   From that: when each result and answer comes about (`InsertTable`, `AnswersTable`); what was ready
   below a new block is settled (`ConnectsSettles`); every answer is justified (`HandlesJustified`);
   and another waiting block leaves the buffer exactly if it is pushed out at the limit or swept along
   (`HandlesKeepsIff`).
8. **Engine.** A turn's effect on requests, tree and downloads is a relation that leaves open only the
   order in which sets are walked and what the invalid-header cache has dropped (`TurnEffect`), and
   over every run (`Run`): replies in request order, one each, at most one payload parked, which goes
   away only when its own block is handed to the tree or its time is up; blocks execute only with
   witnesses whose bytecodes are all stored; no missing bytecode is waited for in vain unless its last
   write failed; a parked block is buffered and makes progress unless it lacks such a bytecode, or
   since it was parked it was pushed out at the buffer's limit or failed or an execution was fatal, or
   it is in memory (`ParkedProgresses`); when it is parked it makes progress and none of these has
   happened (`ParkingStarts`); every block ever executed obeyed the rules, and none is marked failed
   without breaking one; and the chain is what a run of the chain's state machine leads to, so 1 and 2
   hold of it. A downloaded block is always processed, and if it is ready with its parent in memory
   the turn decides it unless it is recorded as bad (`StepsAfter`, `DownloadedIsDecided`).

## Where the code and its documentation differ

The model follows the code.

- `remove_block_with_children` is documented to return lower block numbers first
  (`block_buffer.rs:131-132`). It walks depth first, so parents precede children, but two branches of
  three blocks each never come out in number order (`ForkNeverAscends`). Whatever the order of the
  children, the numbers ascend exactly under the condition of `AscendsIff`; where numbers go up by one
  along every link, that is when ready blocks below different children of one parent always have the
  same number (`StepwiseLevel`).
- `remove_children` forgets a parent's whole child set even if some child stays buffered, so the
  parent index can lose blocks. `ListedAfterRemoval` says exactly when.
- `prepare_invalid_response` reports the zero hash where the quoted rule asks for null, when no valid
  ancestor is known (`tree/mod.rs:816-820`).
- A parked payload is answered when its block is processed (`engine.rs:203-213`). If another block
  unlocked by the same bytecode is processed first and connects the parked one along with it, the
  payload's own step finds nothing, and only the timeout answers it (`ParkedIsBypassed`,
  `ParkedCanBeBypassed`).
- A fork choice naming an ancestor of the head is described as already canonical
  (`tree/mod.rs:227-239`), but `on_new_head` finds a reorg for it first, and the head moves back.
- A chain update is applied before the safe and finalized hashes are checked. The head has moved
  under an answer "invalid state" exactly when memory connects it and one of the two hashes is not
  canonical in the index after the update (`Applies`, `ForkchoiceMoves`).
- The request for a finalized block asks for 256 ancestors, which exist only from block 256 on; below
  that it retries forever (`RangeServableIff`).

## Model

| member | source | states |
|---|---|---|
| `ChainStates.ChainState.constructor` | bin/ress/src/launch.rs:84-94 | a node starts with the genesis block in memory, canonical at zero |
| `ChainStates.ChainState.IsHashCanonical` | crates/provider/src/chain_state.rs:36-38 | true exactly when some number maps to the hash |
| `ChainStates.ChainState.BlockHash` | crates/provider/src/chain_state.rs:43-63 | the loop computes `Lookup`, whose answers `LookupSound` and `LookupFinds` tie to the plain ancestor walk; it terminates |
| `ChainStates.ChainState.InsertCanonicalHash` | crates/provider/src/chain_state.rs:66-68 | one entry is written; everything else and coherence are kept |
| `ChainStates.ChainState.RemoveCanonicalHash` | crates/provider/src/chain_state.rs:71-78 | the entry goes only if it holds that hash; everything else and coherence are kept |
| `ChainStates.ChainState.InsertBlock` | crates/provider/src/chain_state.rs:116-124 | block, number bucket and witness are added; coherence of the four maps is kept |
| `ChainStates.ChainState.RemoveBlocksOnFinalized` | crates/provider/src/chain_state.rs:128-156 | popping buckets off the front leaves exactly the blocks and witnesses from the finalized height on and the hashes of its 256-block window |
| `ChainStates.InsertCoherent` | crates/provider/src/chain_state.rs:116-124 | insertion keeps the number buckets in exact agreement with the blocks |
| `ChainStates.BucketPopped` | crates/provider/src/chain_state.rs:134-144 | removing the first bucket removes exactly the blocks and witnesses of that height |
| `ChainStates.BucketsExhausted` | crates/provider/src/chain_state.rs:134-144 | once no bucket below the height is left, no block below it is |
| `ChainSwitch.WalkBack` | crates/engine/src/tree/mod.rs:344-355 | yields the linked headers down to the height limit, or stops at a block that is not in memory; no underflow |
| `ChainSwitch.WalkToFork` | crates/engine/src/tree/mod.rs:387-405 | finds the highest common ancestor with equally long linked paths to it, or fails only if memory does not connect the two |
| `ChainSwitch.OnNewHead` | crates/engine/src/tree/mod.rs:332-410 | an update is found if and only if memory connects target and head; a commit rises from the head to the target, a reorg's two sides rise from the highest common ancestor strictly below the target |
| `ChainSwitch.OnSideChain` | crates/engine/src/tree/mod.rs:364-409 | the same for the reorg part |
| `ChainSwitch.RisingMembers` | crates/engine/src/tree/mod.rs:406-409 | a linked segment holds exactly the tip's ancestors above its base |
| `ChainSwitch.UpdateShape` | crates/engine/src/tree/mod.rs:357-409 | commit if and only if the head is a proper ancestor of the target; old and new overlap only in the target, exactly when it is on the current chain |
| `CanonicalIndex.OnChainUpdate` | crates/provider/src/provider.rs:91-98 | the two loops remove the old hashes, then write the new ones |
| `CanonicalIndex.AppliedIndex` | crates/provider/src/provider.rs:91-98 | after an update the index holds exactly the old heights below the fork and every height from the fork to the target, each with the target's true ancestor |
| `CanonicalIndex.SyncedIndex` | crates/engine/src/engine.rs:117-122 | the finalized step writes one contiguous segment of true ancestors and touches no other height |
| `CanonicalIndex.SyncSoundIff` | crates/engine/src/engine.rs:117-122 | the synced index is sound if and only if the entries left in place are ancestors of the synced block |
| `ChainExamples.SyncCanBreakIndex` | crates/engine/src/engine.rs:117-122 | a run in which the line up to any height above 257 becomes canonical, after which syncing a sibling with all 256 ancestors leaves an unsound entry |
| `ChainRuns.StepStaysSound` | crates/engine/src/tree/mod.rs:459-473 | every chain event keeps the index sound |
| `ChainRuns.RunsStaySound` | crates/engine/src/tree/mod.rs:459-473 | so does every run of events from genesis |
| `ChainRuns.EveryRunIsSound` | crates/engine/src/tree/mod.rs:332-473 | after every run from genesis each entry is the head's true ancestor at that height, none lies above the head, and any lookup answer is the true ancestor |
| `CanonicalIndex.LookupSound` | crates/provider/src/chain_state.rs:43-63 | any lookup answer equals the plain walk over the unpruned chain |
| `CanonicalIndex.CanonicalFound` | crates/provider/src/chain_state.rs:55-60 | from a canonical block every height down to which the index has no gap is found |
| `ChainRuns.PathFound` | crates/provider/src/chain_state.rs:46-60 | a path in memory down to a block of the head's chain, continued by the index, finds every height |
| `ChainRuns.LookupFinds` | crates/provider/src/chain_state.rs:43-63 | from any in-memory descendant of the finalized root every height down to the root's window is found |
| `ChainRuns.RecentAncestorsFound` | crates/evm/src/db.rs:76-81 | each of the 256 hashes a BLOCKHASH can ask for is found |
| `ChainRuns.HangsAfterUpdate` | crates/engine/src/tree/mod.rs:332-410 | whatever head an update moves to, the root still hangs off its chain by a path in memory |
| `ChainRuns.HangsAfterPrune` | crates/provider/src/chain_state.rs:128-144 | so it does after a prune at a block whose parent is on the root's ancestry |
| `ChainRuns.PruneAnchoredIff` | crates/provider/src/chain_state.rs:128-156 | a prune keeps the root in memory, hanging off the head's chain with a gapless index, if and only if it is not behind the root or is at a child of the root's ancestry |
| `ChainRuns.SyncAnchorsIff` | crates/engine/src/engine.rs:110-124 | a sync anchors its block, with the 256 ancestors fetched along, if and only if no higher block in memory is left without its parent |
| `ChainRuns.StepAnchoredIff` | crates/engine/src/tree/mod.rs:198-213 | of the four kinds of events executions and head changes always keep the chain anchored, and the other two exactly under their condition |
| `ChainRuns.RunsStayAnchored` | crates/engine/src/tree/mod.rs:198-213 | after every run from genesis in which finality keeps to the condition the chain is anchored |
| `ChainRuns.AnchoredThroughoutIff` | crates/engine/src/tree/mod.rs:198-213 | a run from genesis is anchored all along if and only if finality keeps to the condition all along |
| `ChainRuns.EveryFinalRunIsComplete` | crates/provider/src/chain_state.rs:43-156 | after every such run lookups from the root's descendants are complete, and pruning at a canonical block not below the root changes no answer |
| `ChainRuns.PruneCompleteIff` | crates/provider/src/chain_state.rs:128-156 | in an anchored state a prune leaves those lookups complete if and only if it keeps the chain anchored or is more than 254 below the root |
| `ChainRuns.SyncCompleteIff` | crates/engine/src/engine.rs:117-122 | a sync leaves the lookups from its block's descendants complete if and only if none of those is left without its parent |
| `ChainRuns.NextEventIsCompleteIff` | crates/provider/src/chain_state.rs:43-156 | after a run in which finality kept to its condition, any next event leaves lookups complete if and only if its own condition holds |
| `ChainExamples.FinalityGoingBackLosesHashes` | crates/provider/src/chain_state.rs:128-156 | a run in which, with the head off the root, finality goes back to a block whose parent is not the root's ancestor, after which the root no longer finds a recent hash |
| `ChainExamples.SyncGoingBackLosesHashes` | crates/engine/src/engine.rs:117-122 | a run in which a fork's block is synced, then the line's, the head moves back, and a lower block of the fork is synced: the fork's first block stays in memory without its parent and does not find it |
| `CanonicalIndex.PruneTransparent` | crates/provider/src/chain_state.rs:128-156 | pruning at a canonical block whose window has no gap changes no lookup from any descendant at heights from its window's start on |
| `CanonicalIndex.PruneTransparentIff` | crates/provider/src/chain_state.rs:128-156 | that holds if and only if the index takes over from memory: it knows every height memory gives up, and if it does not know the height where memory ended, it knows nothing of the window below |
| `ChainRuns.AnchoredHasNoGap` | crates/provider/src/chain_state.rs:128-156 | in an anchored state the index has no gap below any canonical block that is not below the root |
| `ChainExamples.PruneCanLoseHashes` | crates/provider/src/chain_state.rs:128-156 | a run that executes blocks and then syncs a higher one, after which a prune at the last executed block is not transparent |
| `CanonicalIndex.PruneKeepsHead` | crates/engine/src/tree/mod.rs:198-213 | pruning at a canonical block never removes the head |
| `InvalidAncestors.InvalidHeaderCache.Insert` | crates/engine/src/tree/mod.rs:908-909 | the failed block is in the cache afterwards, no other entry is added or changed; every key still names a failed block that is itself or its ancestor |
| `InvalidAncestors.LatestValidHashForInvalidPayload` | crates/engine/src/tree/mod.rs:864-886 | the parent if that is in memory; otherwise the hash without an entry to which the entries left in the cache lead from it, if that is in memory, and nothing if not; terminates although entries vanish on the way |
| `InvalidAncestors.TrailSound` | crates/engine/src/tree/mod.rs:870-883 | the trail ends at an ancestor whose child on the path failed, and everything between is invalid |
| `InvalidAncestors.LatestValidSound` | crates/engine/src/tree/mod.rs:854-886 | the hash is an in-memory ancestor-or-self of the queried parent; if it is not the parent, its child on the path failed; every higher ancestor is invalid |
| `InvalidAncestors.LatestValidFinds` | crates/engine/src/tree/mod.rs:864-886 | what is found is exactly the parent in memory, or the in-memory end of the entries that lead down from it; nothing else meets that description |
| `InvalidAncestors.TrailCut` | crates/engine/src/tree/mod.rs:872-877 | a dropped entry makes every trail through it end there |
| `InvalidAncestors.PrepareInvalidResponse` | crates/engine/src/tree/mod.rs:807-821 | zero for a proof-of-work parent and when nothing is found, else the latest valid hash |
| `InvalidAncestors.ResponseNames` | crates/engine/src/tree/mod.rs:807-821 | the parent if that is in memory, zero in its place for a proof-of-work block; if it is not in memory, the block in memory that the entries lead to |
| `InvalidAncestors.AnswerForDescendant` | crates/engine/src/tree/mod.rs:778-802 | the answer found from a failed block's parent sits right below a failed block and is right for everything built on it |
| `InvalidAncestors.CheckInvalidAncestorWithHead` | crates/engine/src/tree/mod.rs:778-793 | a hash with an entry is answered for, unless that very lookup dropped the entry, and one without is not; the answer is what is found from the recorded parent, right for the head, which is then recorded as well |
| `InvalidAncestors.CheckInvalidAncestor` | crates/engine/src/tree/mod.rs:797-802 | the same without recording the head |
| `BlockBuffers.BlockBuffer.LowestAncestor` | crates/engine/src/tree/block_buffer.rs:75-81 | the bottom of the buffered path; nothing exactly if the hash is not buffered |
| `BlockBuffers.BlockBuffer.InsertBlock` | crates/engine/src/tree/block_buffer.rs:84-99 | the block is indexed as the most recent and under its parent; only the least recent one leaves, exactly for a new block at the limit; coherence is kept |
| `BlockBuffers.BlockBuffer.InsertHashAndGetEvicted` | crates/engine/src/tree/block_buffer.rs:116-125 | only a new hash at the limit pushes out the oldest one |
| `BlockBuffers.InsertedCoherent` | crates/engine/src/tree/block_buffer.rs:84-125 | insertion, with or without eviction, keeps all indexes coherent and the block in the buffer |
| `BlockBuffers.InsertedMakesRoom` | crates/engine/src/tree/block_buffer.rs:84-125 | the block is in, most recent and listed; of all others, with witnesses and missing sets, exactly the least recent one is out, if the block is new and the limit reached |
| `BlockBuffers.TakenLeavesNoTrace` | crates/engine/src/tree/block_buffer.rs:197-222 | a block taken out is gone from every index with its witness and missing set, and nothing else is |
| `BlockBuffers.TakenCoherent` | crates/engine/src/tree/block_buffer.rs:197-222 | taking a block out keeps all indexes coherent |
| `BlockBuffers.BlockBuffer.RemoveBlock` | crates/engine/src/tree/block_buffer.rs:197-210 | a block leaves, with its witness, if and only if it is ready; otherwise nothing changes |
| `BlockBuffers.BlockBuffer.EvictBlock` | crates/engine/src/tree/block_buffer.rs:214-222 | all traces of the block are gone |
| `BlockBuffers.BlockBuffer.RemoveChildren` | crates/engine/src/tree/block_buffer.rs:225-246 | the worklist takes out exactly the ready blocks linked below the parent, in depth-first order; it terminates by (index size, stack size) |
| `BlockBuffers.BlockBuffer.RemoveBlockWithChildren` | crates/engine/src/tree/block_buffer.rs:133-145 | the same including the root: no duplicates, exactly the ready ones, each after its parent, root first and then depth first, nothing else gone |
| `RemovalOrder.AscendsIff` | crates/engine/src/tree/block_buffer.rs:127-145 | for any links, whatever the order of the children, the returned numbers ascend if and only if, below every hash reached, ready children have one number, nothing ready below them is lower, and ready blocks strictly below different ones have one number |
| `RemovalOrder.StepwiseLevel` | crates/engine/src/tree/block_buffer.rs:127-145 | where links go up by one in number, only the last of these matters |
| `RemovalOrder.RemovalAscends` | crates/engine/src/tree/block_buffer.rs:127-145 | under that condition a whole removal is in number order, root included if nothing ready below it is lower |
| `RemovalOrder.Drains` | crates/engine/src/tree/block_buffer.rs:231-245 | what is on top of the stack comes out whole before anything of the rest |
| `RemovalOrder.DepthFirstMembers` | crates/engine/src/tree/block_buffer.rs:231-245 | what comes out is exactly what is ready and linked below the stack |
| `RemovalOrder.NeverAscends` | crates/engine/src/tree/block_buffer.rs:127-145 | with two ready branches of three below the root, no enumeration of the children gives ascending numbers |
| `RemovalOrder.ForkNeverAscends` | crates/engine/src/tree/block_buffer.rs:127-145 | the same for a buffer built by inserting the six blocks |
| `BlockBuffers.CollectWithRoot` | crates/engine/src/tree/block_buffer.rs:133-145 | putting the root in front keeps exactness and order |
| `BlockBuffers.ListedAfterRemoval` | crates/engine/src/tree/block_buffer.rs:233-244 | the parent index stays complete if and only if no unready buffered block was reached |
| `BlockBuffers.ListedAfterInsertion` | crates/engine/src/tree/block_buffer.rs:84-99 | insertion keeps the parent index complete |
| `BlockBuffers.ListedAlongTrace` | crates/engine/src/tree/block_buffer.rs:84-289 | over every sequence of operations the parent index is complete throughout if and only if every branch removal reached only ready blocks |
| `BlockBuffers.BlockBuffer.EvictOldBlocks` | crates/engine/src/tree/block_buffer.rs:148-169 | exactly the blocks numbered up to the height and everything linked below them go, with witnesses, missing sets and links; coherence is restored |
| `BlockBuffers.BlockBuffer.PopEarliest` | crates/engine/src/tree/block_buffer.rs:152-158 | lists exactly the blocks at or below the height, once each |
| `BlockBuffers.BlockBuffer.EvictChildren` | crates/engine/src/tree/block_buffer.rs:249-263 | evicts exactly what is linked below the given hashes; terminates |
| `BlockBuffers.EvictEnd` | crates/engine/src/tree/block_buffer.rs:160-166 | evicting the roots first and sweeping below them afterwards takes out what one sweep of the original links would |
| `BlockBuffers.BlockBuffer.InsertWitness` | crates/engine/src/tree/block_buffer.rs:102-113 | an empty missing set leaves an older one in place; missing sets stay non-empty and tied to witnesses |
| `BlockBuffers.BlockBuffer.RemoveWitness` | crates/engine/src/tree/block_buffer.rs:266-273 | a witness leaves only if nothing it needs is missing |
| `BlockBuffers.BlockBuffer.OnBytecodeReceived` | crates/engine/src/tree/block_buffer.rs:277-289 | the code leaves every missing set; exactly the blocks whose last missing code it was are reported |
| `Fetch.FetchFullBlock.Poll` | crates/engine/src/download/futs.rs:129-172 | the loop comes to `PollBlock`, whatever the responses; it terminates |
| `Fetch.PollBlockSound` | crates/engine/src/download/futs.rs:92-172 | a poll yields only the requested header with a body accepted for it; otherwise a part is outstanding because no response had it |
| `Fetch.PollBlockIff` | crates/engine/src/download/futs.rs:92-172 | a poll completes the block if and only if its header is there or has come, and a body accepted for it, kept from earlier or among the responses; otherwise the header is kept, and the first body that came before it |
| `Fetch.PollHeadersRange` | crates/engine/src/download/futs.rs:263-273 | yields the first acceptable response |
| `Fetch.FirstAcceptedSpec` | crates/engine/src/download/futs.rs:225-257 | the first acceptable response is among the responses; there is none exactly if none is acceptable |
| `Fetch.OnResponse` | crates/engine/src/download/futs.rs:225-257 | accepts exactly the long enough, rightly starting, valid responses |
| `Fetch.AcceptedFalls` | crates/engine/src/download/futs.rs:237-251 | an accepted range is parent-linked downwards from the requested hash, one number at a time, and every header passed the check |
| `Fetch.FallsAccepted` | crates/engine/src/download/futs.rs:225-257 | and every such range that is long enough is accepted |
| `Fetch.FetchFullBlockWithAncestors.Poll` | crates/engine/src/download/futs.rs:322-343 | the loop comes to `PollAncestors` |
| `Fetch.PollAncestorsSound` | crates/engine/src/download/futs.rs:322-343 | a poll yields the requested block with at least the requested number of linked and checked headers starting at its parent; otherwise a part of the block is outstanding, or no range response was acceptable |
| `Fetch.PollAncestorsIff` | crates/engine/src/download/futs.rs:322-343 | the fetch completes if and only if its block does or has, and some range response is acceptable |
| `Fetch.RangeServableIff` | crates/engine/src/download/futs.rs:237-246 | a range request can be answered if and only if the chain is long enough |
| `Downloads.AdvanceAll` | crates/engine/src/download/mod.rs:125-138 | despite in-place `swap_remove`, one pass polls each request exactly once, queues the finished ones from the back and keeps the others in their advanced state |
| `Downloads.PassConserves` | crates/engine/src/download/mod.rs:125-189 | a request is in flight afterwards in its advanced state, or its result is queued |
| `Downloads.PassInvents` | crates/engine/src/download/mod.rs:125-189 | everything in flight or queued afterwards comes from one poll of one request |
| `Downloads.PassCounts` | crates/engine/src/download/mod.rs:125-189 | as many results as requests that left |
| `Downloads.AdvancedOnce` | crates/engine/src/download/mod.rs:55-138 | a pass puts no key in flight twice |
| `Downloads.FinalizedResultsOk` | crates/engine/src/download/mod.rs:125-138 | every finalized block comes with 256 linked ancestors, by what its fetch promises |
| `Downloads.EngineDownloader.DownloadFullBlock` | crates/engine/src/download/mod.rs:55-70 | a key already in flight is not requested again |
| `Downloads.EngineDownloader.DownloadBytecode` | crates/engine/src/download/mod.rs:73-83 | likewise |
| `Downloads.EngineDownloader.DownloadWitness` | crates/engine/src/download/mod.rs:86-96 | likewise |
| `Downloads.EngineDownloader.DownloadFinalizedWithAncestors` | crates/engine/src/download/mod.rs:99-116 | likewise |
| `Downloads.EngineDownloader.Poll` | crates/engine/src/download/mod.rs:119-197 | outcomes leave in queue order; a pass over all four classes of fetches is made only on an empty queue, with the effect that `PollDelivers` and the lemmas about each class describe; no key is ever in flight twice; a finalized block comes with 256 linked ancestors |
| `Downloads.FinalizedDelivered` | crates/engine/src/download/mod.rs:124-138 | a finalized fetch for which block and ancestors have arrived is queued with them and no longer in flight; any other goes on in its new state |
| `Downloads.BlockDelivered` | crates/engine/src/download/mod.rs:142-156 | likewise a block for which header and body have arrived |
| `Downloads.WitnessDelivered` | crates/engine/src/download/mod.rs:158-173 | a witness that has arrived is queued, that very one, and no longer in flight; any other goes on |
| `Downloads.CodeDelivered` | crates/engine/src/download/mod.rs:175-190 | likewise a bytecode |
| `Downloads.PollDelivers` | crates/engine/src/download/mod.rs:119-197 | an outcome is yielded or queued by a poll if and only if it was queued, or the queue was empty and it has arrived for a request in flight |
| `Downloads.PollKeepsAwaited` | crates/engine/src/download/mod.rs:119-197 | a bytecode, witness or block asked for stays in flight or queued until it is delivered |
| `NetworkManagers.NetworkManager.OnPeerRequest` | crates/network/src/manager.rs:44-61 | the loop computes `Deliver`, whose meaning `DeliverConserves` states |
| `NetworkManagers.DeliverConserves` | crates/network/src/manager.rs:44-61 | a request goes to one open connection if there is any, else it is kept pending; exactly the closed connections met on the way are dropped; nothing is lost or duplicated |
| `NetworkManagers.DeliverKeeps` | crates/network/src/manager.rs:44-61 | a connection that stays open is kept |
| `NetworkManagers.NetworkManager.RetryPending` | crates/network/src/manager.rs:70-74 | retrying conserves requests and shrinks connections plus pending |
| `NetworkManagers.NetworkManager.Poll` | crates/network/src/manager.rs:67-94 | conserves requests, delivers only to known connections open at that moment, keeps every connection that stays open, never idles with both connections and pending requests, and terminates |
| `NetworkManagers.RotationIsFair` | crates/network/src/manager.rs:44-52 | while all connections stay open, k requests go to the k connections at the front, one each, in order |
| `EngineTrees.EngineTree.InsertBlock` | crates/engine/src/tree/mod.rs:666-771 | result and whole new state by the conditions that lead to them, which `InsertTable` and `InsertIntoMemory` spell out; only a block that obeys the rules is recorded as executed, and only one that breaks one is rejected |
| `TreeSpecs.InsertDetermined` | crates/engine/src/tree/mod.rs:666-771 | those conditions leave one result, missing ancestor included, and one new state for every input |
| `TreeSpecs.InsertTable` | crates/engine/src/tree/mod.rs:666-771 | when each result comes about: connected or lacking its witness only if the block obeys the rules on its own and against its parent in memory, with the next number; then its execution alone decides |
| `TreeSpecs.InsertIntoMemory` | crates/engine/src/tree/mod.rs:751-752 | a connected block is in memory with its witness and everything that was; no other insertion changes memory, and only a waiting block changes the buffer |
| `TreeSpecs.WaitingBlockIsKept` | crates/engine/src/tree/mod.rs:682-714 | a block that waits is in the buffer, and a disconnected one keeps the witness it came with |
| `TreeSpecs.TrackedNext` | crates/engine/src/tree/mod.rs:751-752 | an event the code lets happen extends the history by one enabled step of the chain's state machine |
| `TreeSpecs.TrackedSound` | crates/engine/src/tree/mod.rs:459-473 | a chain that follows its history is sound if every sync in it met its condition |
| `TreeSpecs.InsertGated` | crates/engine/src/tree/mod.rs:691-699 | inserting with a complete witness, or none, keeps the execution gate |
| `TreeSpecs.MissingAncestor` | crates/engine/src/tree/mod.rs:682-699 | the reported ancestor is a true one, all blocks in between are buffered, it is itself unbuffered both before and after the block is buffered |
| `EngineTrees.EngineTree.LowestBufferedAncestorOr` | crates/engine/src/tree/mod.rs:847-852 | the first unbuffered hash on the way down, with everything above it buffered; the hash itself exactly if it is not buffered |
| `EngineTrees.EngineTree.TryConnectBufferedBlocks` | crates/engine/src/tree/mod.rs:624-663 | exactly the ready blocks linked below the parent leave the buffer, parents first, and each is inserted on the tree the one before left, up to a fatal error; the rest of the buffer changes only by those insertions |
| `BlockHandling.ConnectsSettles` | crates/engine/src/tree/mod.rs:624-663 | afterwards every block that was ready below the parent is in memory, has failed in the attempt, or has no parent in memory; it fails only if one of its own executions crashed |
| `BlockHandling.ConnectsGrows` | crates/engine/src/tree/mod.rs:624-663 | a waiting block whose parent is in memory stays in the buffer as it was, unless meanwhile it was pushed out at the limit or failed or an execution crashed, or it is in memory; memory and records only grow |
| `BlockHandling.ConnectsGated` | crates/engine/src/tree/mod.rs:624-663 | the execution gate is kept |
| `BlockHandling.SettleNext` | crates/engine/src/tree/mod.rs:637-659 | because parents come first, connecting a block unsettles none before it |
| `TreeSpecs.CollectedComplete` | crates/engine/src/tree/mod.rs:628-639 | blocks taken from the buffer come with witnesses whose bytecodes are all stored |
| `EngineTrees.EngineTree.MakeCanonical` | crates/engine/src/tree/mod.rs:450-454 | the tree switches by the update the blocks in memory call for, and stays the same if there is none |
| `EngineTrees.EngineTree.OnCanonicalChainUpdate` | crates/engine/src/tree/mod.rs:459-473 | the head becomes the update's tip and the index the applied one |
| `EngineTrees.EngineTree.OnInsertBlockError` | crates/engine/src/tree/mod.rs:893-914 | the block is marked failed and recorded as bad, and nothing else changes; the reported hash is what is found from its parent: the parent itself if that is in memory |
| `EngineTrees.EngineTree.OnNewPayload` | crates/engine/src/tree/mod.rs:476-558 | a malformed payload changes nothing and names what is found from its parent, nothing if its hash is at fault; a block whose checked hash is recorded as bad is refused, unless that lookup dropped the record, and nothing but the cache changes; otherwise the new tree is the insertion's, then what is connected after it, and answer and event are those of its only result |
| `BlockHandling.KnownBadIsRefused` | crates/engine/src/tree/mod.rs:502-513 | if the lowest unbuffered ancestor, or the parent, is recorded as bad, the answer is "invalid" with what is found from the recorded parent, and the block is recorded too, or looking dropped the record; if it is not recorded, the block is tried |
| `BlockHandling.AnswersTable` | crates/engine/src/tree/mod.rs:526-621 | a tried block is answered "valid" if and only if it is then in memory; made canonical if and only if it is then also the sync target, and new or a payload; "syncing" with the first unbuffered ancestor to be fetched if only its parent is not in memory |
| `BlockHandling.InvalidIff` | crates/engine/src/tree/mod.rs:527-558 | a tried block is "invalid" if and only if it is new and breaks a rule on its own, or with its parent in memory one against that, or its execution fails; then it is marked failed and recorded, a parent in memory is named, and nothing else changes |
| `BlockHandling.WitnessAskedIff` | crates/engine/src/tree/mod.rs:543-547 | its witness is asked for if and only if only that is missing to execute a new block |
| `BlockHandling.ValidSettles` | crates/engine/src/tree/mod.rs:527-535 | a "valid" answer settles what was ready below the block, unless it was a downloaded one already known |
| `BlockHandling.ConnectedTargetIsHead` | crates/engine/src/tree/mod.rs:637-659 | the sync target becomes the head as soon as it is connected, if memory allows |
| `BlockHandling.HandlesJustified` | crates/engine/src/tree/mod.rs:476-621 | "valid" means in memory, "invalid" names the ancestor right below a failed block, an error means an execution crashed while the block was handled |
| `BlockHandling.HandlesSettles` | crates/engine/src/tree/mod.rs:527-535 | after a new block, or a known one from a payload, everything that was ready and linked below it is settled |
| `BlockHandling.HandlesGrows` | crates/engine/src/tree/mod.rs:565-663 | a waiting block whose parent is in memory stays in the buffer as it was, or while the block was handled it was pushed out at the limit or failed or an execution crashed, or it is in memory; the gate is kept |
| `BlockHandling.HandlesKeepsIff` | crates/engine/src/tree/mod.rs:565-663 | it leaves the buffer if and only if it is pushed out at the limit, or is ready and linked below the handled block and that is connected; in the latter case it is in memory or has just failed, unless an execution was fatal |
| `EngineTrees.EngineTree.OnDownloadedBlock` | crates/engine/src/tree/mod.rs:565-621 | the same for a downloaded block, which never asks for a witness |
| `EngineTrees.EngineTree.EnsureConsistentForkchoiceState` | crates/engine/src/tree/mod.rs:308-324 | accepted exactly if the given finalized and safe hashes are canonical |
| `EngineTrees.EngineTree.ApplyForkchoice` | crates/engine/src/tree/mod.rs:198-225 | the head moves by the update there is; "invalid state" exactly if finalized or safe is not canonical in the index after the update, and then nothing else happens; otherwise finality is applied, and "invalid attributes" exactly if those are bad |
| `EngineTrees.EngineTree.OnForkchoiceUpdated` | crates/engine/src/tree/mod.rs:142-279 | answer, event and new tree for every case, including when a head is refused as known bad |
| `EngineTrees.EngineTree.OnSameHead` | crates/engine/src/tree/mod.rs:168-195 | the answer when the head is already canonical, and nothing changes |
| `EngineTrees.EngineTree.OnFinalized` | crates/engine/src/tree/mod.rs:208-213 | memory pruned and everything doomed evicted, the head and the rest kept |
| `TreeSpecs.ForkchoiceMoves` | crates/engine/src/tree/mod.rs:197-244 | the head moves if and only if memory connects it; it stays in memory; unless the state was inconsistent nothing older than finality remains and the finalized block is canonical |
| `TreeSpecs.KnownBadHeadIsRefused` | crates/engine/src/tree/mod.rs:285-302 | if the lowest unbuffered hash below the head is recorded as bad, the answer is "invalid" with what is found from the recorded parent and nothing else changes, or looking dropped the record; if it is not recorded, the answer is never "invalid" |
| `Answers.ForkchoiceErrorIff` | crates/engine/src/tree/mod.rs:168-195 | an internal error if and only if attributes come with a consistent state for a current head that is not in memory; "invalid state" without a head |
| `Answers.ReachedForkchoice` | crates/engine/src/tree/mod.rs:167-225 | with the head reached: "invalid state" if and only if a given safe or finalized hash is not canonical, else "invalid attributes" if and only if attributes are given and bad for the head, else "valid" |
| `Answers.UnreachedForkchoice` | crates/engine/src/tree/mod.rs:227-279 | with the head not reached: "valid" if it is in memory, else "syncing", asking for a missing finalized block first, then for the gap below safe or head |
| `EngineTrees.EngineTree.SyncEvent` | crates/engine/src/tree/mod.rs:256-276 | the finalized block if it is unknown; otherwise the gap below safe or head, and nothing exactly if that gap is the finalized block or in memory |
| `EngineTrees.EngineTree.AdoptFinalized` | crates/engine/src/engine.rs:117-122 | the block becomes head, and the block and its ancestors canonical; recorded as a finalized sync |
| `TreeSpecs.FinalizedKeeps` | crates/provider/src/provider.rs:101-105 | applying finality keeps the gate, the waits, the head and the finalized entry |
| `TreeSpecs.FinalitySpares` | crates/engine/src/tree/block_buffer.rs:148-169 | finality leaves a buffered block alone, with all it has, if every buffered block it builds on is higher |
| `InvalidAncestors.LatestValidAbove` | crates/engine/src/tree/mod.rs:293-298 | an answer about the lowest unbuffered ancestor is right for the requested head |
| `TreeSpecs.UpdateNeedsPath` | crates/engine/src/tree/mod.rs:332-410 | every update proves that memory connects head and target |
| `ConsensusEngines.ConsensusEngine.OnTreeEvent` | crates/engine/src/engine.rs:83-101 | exactly what the event asks for is requested unless it is in flight, or the tree has switched |
| `EngineSpecs.RequestingAsks` | crates/engine/src/engine.rs:83-101 | what the event asks for is then in flight, a block's witness too unless it is held, and nothing in flight or queued is touched |
| `ConsensusEngines.ConsensusEngine.OnWitness` | crates/engine/src/engine.rs:138-170 | the witness is buffered with exactly the bytecodes the store lacks, and of those exactly the ones not in flight are requested, once each |
| `ConsensusEngines.ConsensusEngine.StoreBytecode` | crates/engine/src/engine.rs:171-182 | a written code unlocks exactly the blocks it was the last one for; a failed write changes nothing but that the code is noted as lost |
| `ConsensusEngines.ConsensusEngine.StoreOutcome` | crates/engine/src/engine.rs:109-183 | new tree, new requests and unlocked blocks for each outcome, which `StepsAfter` and `OutcomeStored` spell out; when it is fatal |
| `ConsensusEngines.ConsensusEngine.ProcessUnlocked` | crates/engine/src/engine.rs:185-214 | a block is handed to the tree if and only if it is buffered and ready, and then tree and requests change exactly as handling it says; the parked payload is answered exactly if it is that block, with what the tree said |
| `EngineSpecs.StepKeepsIff` | crates/engine/src/engine.rs:185-214 | exactly which other waiting blocks leave the buffer in such a step |
| `EngineSpecs.ParkedIsBypassed` | crates/engine/src/engine.rs:185-213 | a parked block swept along by an earlier step is in memory or has failed in it; its own step is skipped and the payload stays parked without an answer |
| `ParkedExamples.ParkedCanBeBypassed` | crates/engine/src/engine.rs:185-213 | so it goes whenever a bytecode completes both a connectable block and, two above it, the parked one, with a finalized block in between, and the lower one is processed first |
| `ParkedExamples.PoisedRipens` | crates/engine/src/engine.rs:171-182 | storing the bytecode makes both ready, the parked one linked below the other |
| `ParkedExamples.SituationArises` | crates/engine/src/engine.rs:110-137 | such a situation arises: a run of the chain, with the executions it records, leads to the tree, and insertions lead to its buffer |
| `ParkedExamples.PoisedIsWaiting` | crates/engine/src/engine.rs:171-182 | it meets everything the engine keeps between turns, and the bytecode unlocks exactly those two |
| `ConsensusEngines.ConsensusEngine.ProcessAll` | crates/engine/src/engine.rs:185-214 | every unlocked block has its step, one after the other, leading from the old tree to the new one |
| `EngineSpecs.ParkedResolves` | crates/engine/src/engine.rs:203-213 | the parked payload is answered exactly if a step hands its own block to the tree, once, with that step's answer |
| `ConsensusEngines.ConsensusEngine.OnDownloadOutcome` | crates/engine/src/engine.rs:103-217 | the outcome is stored, exactly what it unlocks is processed step by step, each with its exact effect on tree and requests, the parked payload answered only by its own step; the only finalized sync recorded is the outcome's; every invariant is kept |
| `Answers.StepsAfter` | crates/engine/src/engine.rs:103-183 | which blocks have a step: a downloaded or finalized block itself whenever it can be recovered, a witness's block exactly if no code it needs is missing, after a bytecode exactly the blocks it was the last one for |
| `Answers.OutcomeStored` | crates/engine/src/engine.rs:103-183 | what is in the tree before those steps: the block buffered, or head and in memory if finalized; the witness with exactly what the store lacks; the code stored and in no missing set |
| `Answers.OutcomeFetches` | crates/engine/src/engine.rs:125-182 | of the requests exactly the bytecodes a witness needs and the store lacks are in flight afterwards besides those before |
| `Answers.FatalIff` | crates/engine/src/engine.rs:110-150 | the engine ends exactly if a finalized block cannot be recovered or the store not be read for a witness |
| `Answers.DownloadedIsDecided` | crates/engine/src/engine.rs:125-137 | a downloaded block with its witness held and its parent in memory is in memory after the turn, has failed in it, or an execution in it was fatal, unless it was recorded as bad |
| `Answers.WitnessedIsDecided` | crates/engine/src/engine.rs:138-194 | so is a buffered block whose complete witness arrives |
| `Answers.UnlockedIsDecided` | crates/engine/src/engine.rs:185-214 | so is any single unlocked block that is ready with its parent in memory |
| `Answers.StepFetches` | crates/engine/src/engine.rs:191-198 | after the step of a block that misses its parent, its first unbuffered ancestor is being fetched, with its witness unless that is held |
| `Answers.StepMakesHead` | crates/engine/src/engine.rs:191-198 | the step that gets the sync target into memory makes it the head, if memory allows |
| `ConsensusEngines.ConsensusEngine.OnNewPayload` | crates/engine/src/engine.rs:221-255 | tried with the complete witness the buffer holds, the downloads the tree asks for and possibly the payload's witness requested and no others, then answered with what the tree says, or parked with its witness awaited exactly if it only lacks that |
| `Answers.PayloadReported` | crates/engine/src/engine.rs:231-254 | a payload is answered at once with the tree's own status, or with nothing for an internal error, unless it is parked |
| `Answers.MalformedReported` | crates/engine/src/tree/mod.rs:484-500 | a malformed payload is answered "invalid" with its parent if that is in memory, else what the entries left in the cache lead to, nothing if its hash is at fault; nothing but the cache changes |
| `Answers.ParkedIff` | crates/engine/src/engine.rs:235-243 | it is parked if and only if its block is tried, new, obeys the rules, has its parent in memory, and no complete witness is held |
| `Answers.DisconnectedFetches` | crates/engine/src/engine.rs:83-101 | a payload without its parent is answered "syncing", with its first unbuffered ancestor and its own witness, unless held, in flight |
| `Answers.ValidMakesHead` | crates/engine/src/tree/mod.rs:526-535 | a payload whose block is in memory is "valid", and is the new head if it is the sync target and memory allows |
| `Answers.PayloadFetchesNoMore` | crates/engine/src/engine.rs:231-248 | nothing but what the tree asks for and the payload's own witness is requested |
| `Answers.ParkedReported` | crates/engine/src/engine.rs:203-213 | a parked payload is answered with the status of the step that handles its block |
| `ConsensusEngines.ConsensusEngine.OnForkchoiceUpdated` | crates/engine/src/engine.rs:256-272 | answered with what the tree says, the sync target updated, exactly the download it calls for requested |
| `Answers.ForkchoiceReported` | crates/engine/src/engine.rs:256-272 | the reply carries the tree's own status; the head becomes the sync target exactly on "syncing", and "valid" or bad attributes clear it |
| `Answers.SyncingFetches` | crates/engine/src/engine.rs:83-101 | what a fork choice asks for is then in flight, a block's witness too unless it is held |
| `ConsensusEngines.ConsensusEngine.OnEngineMessage` | crates/engine/src/engine.rs:219-277 | a request is answered or parked, never dropped, and taken only while nothing is parked |
| `ConsensusEngines.ConsensusEngine.TimeOut` | crates/engine/src/engine.rs:301-308 | the parked payload is answered "syncing" |
| `ConsensusEngines.ConsensusEngine.Turn` | crates/engine/src/engine.rs:295-320 | one pass of the loop: the downloader is polled, its outcome handled, or else a message served; every invariant is kept unless it exits, and when it exits |
| `Answers.ParkedFirst` | crates/engine/src/engine.rs:295-308 | without a finished download nothing is served while a payload is parked; once its time is up it is answered "syncing" |
| `Answers.NextIsServed` | crates/engine/src/engine.rs:314-317 | otherwise the next message is taken and handled as its kind says |
| `EngineSpecs.TurnKeepsOrder` | crates/engine/src/engine.rs:295-320 | exactly the turn's own request is taken, no reply is taken back, and a parked payload goes away only because its own block was handed to the tree, then with the justified answer it got, or because its time was up |
| `EngineSpecs.RunAdds` | crates/engine/src/engine.rs:292-321 | over a run, exactly the requests of the turns that served one are taken, and exactly the finalized syncs the downloader delivered are made |
| `EngineSpecs.AnsweredInOrder` | crates/engine/src/engine.rs:203-277 | reply by reply, the ids are those of the requests taken; only a parked payload, the last one taken, is open |
| `EngineSpecs.TrackedIsOk` | crates/engine/src/engine.rs:110-124 | the engine's chain is what a run of the chain's state machine leads to; sound if its syncs met their condition, with complete lookups and clean prunes if finality did not go back |
| `ConsensusEngines.ConsensusEngine.Run` | crates/engine/src/engine.rs:292-321 | over any number of turns: a trace of turns each with its effect; replies once each in order; execution gate; every executed block obeyed the rules and every failed one broke one; no orphaned wait but for bytecodes whose last write failed; a parked block that progresses, unless it lacks such a bytecode or something has happened since it was parked that took it out of the buffer; and the chain guarantees |
| `EngineSpecs.WaitingTakes` | crates/engine/src/engine.rs:186-194 | a block taken for execution has a complete witness, and no other block's wait is disturbed |
| `EngineSpecs.WitnessHandled` | crates/engine/src/engine.rs:138-170 | storing a witness keeps gate, waits and progress |
| `EngineSpecs.BytecodeHandled` | crates/engine/src/engine.rs:171-182 | storing a bytecode keeps gate, waits and progress |
| `EngineSpecs.FullBlockHandled` | crates/engine/src/engine.rs:125-137 | buffering a block, possibly evicting another, keeps gate, waits and progress |
| `EngineSpecs.FailedWriteOrphans` | crates/engine/src/engine.rs:178-180 | a failed write orphans a wait if and only if some block still lacks the code, it is not being fetched again and was not lost before |
| `EngineSpecs.ParkingStarts` | crates/engine/src/engine.rs:235-243 | when a payload is parked its block is buffered, its witness in flight, and it was not pushed out or failed, nor an execution fatal, since then, and it is not in memory |
| `EngineSpecs.ParkedProgresses` | crates/engine/src/engine.rs:231-248 | between turns a parked block is buffered and its witness is in flight or queued, or it has a non-empty missing set all of whose codes are, or it lacks a code whose last write failed and that nobody fetches; or since it was parked it was pushed out at the limit, failed, or an execution was fatal; or it is in memory |

## Left out

- EVM execution, sparse-trie reveal and the state root: an oracle; their meaning lives in other libraries.
- Consensus checks, payload decoding, payload attributes, sender recovery: oracles or parameters. Only "number follows the parent's" is spelled out.
- MDBX: a set of stored code hashes with reads and writes that may fail.
- `FetchFullBlockRangeFuture`: not used by the downloader.
- The bytecode and witness fetches: one arrival per request, without their own retry loops. The block and header fetches are modelled in full.
- Real time, wakers, sleeps, retry delays, metrics, tracing, emitted events and `is_fork`, which only picks an event; the launcher beyond the genesis block, CLI and RPC.
- Locking in the chain state: every method holds one lock, so each is one step.
- First-in-first-out order of pending network requests: the code does not keep it.
- Iteration order over hash sets and maps: arbitrary in the model, as in the code.
- A buffer limit of zero: the engine uses 256, and the buffer's invariants need at least one.
- Recency, capacity and hit counts of the invalid-header cache: abstracted to dropping any entry at any access; only a lookup that drops the entry it looks for is told apart.
- `ChainRuns.RunsStayAnchored`: assumes that finality keeps to its condition, which the code does not check; `AnchoredThroughoutIff` shows the condition exact, and two runs show what happens without it.
- `EngineSpecs.TrackedIsOk`: soundness assumes of each finalized sync that the block is a real, numbered one and that the entries left in place are its ancestors, the condition shown exact by `SyncSoundIff`.
- `Answers.DownloadedIsDecided`: says nothing of a block that is itself recorded as bad; whether it is refused then is what `BlockHandling.KnownBadIsRefused` says of the hash that is looked up.
- `EngineSpecs.ParkedProgresses`: says nothing more of a parked block that lacks a bytecode whose write failed, or that one of the listed events since it was parked has taken out of the buffer; the payload is then answered by its timeout at the latest.
- `ParkedExamples.ParkedCanBeBypassed`: starts from a tree that a run of the chain and insertions into the buffer lead to, not from a whole run of the engine.
- The tracker of fork choice states: a library type that is not part of this model. It is taken to forget the sync target on a status that is valid, which that of an answer about bad payload attributes is, and to set it on "syncing".
