# Verified model of the ress engine

A Dafny model of the in-memory fork-choice engine of ress, a stateless Ethereum execution client, with
proofs about every run of it. `dafny verify dfyconfig.toml` checks the whole project.

The engine keeps verified blocks and an index from numbers to canonical hashes, finds and applies commits and
reorgs on fork-choice updates, buffers blocks that do not connect yet, remembers invalid ones, downloads what
is missing, and answers each message of the consensus client once.

| file | what it holds |
|---|---|
| `Chain.dfy` | headers, the world of real headers, walks along parent hashes |
| `NumberIndex.dfy` | ordered indexes from numbers to sets of hashes |
| `ChainState.dfy` | block store, canonical index, pruning, the provider's updates |
| `ForkChoice.dfy` | what an update of the canonical chain is |
| `Ledger.dfy` | store, index and head as values, and invariants over every run |
| `BlockHash.dfy` | the lookup of block hashes by number |
| `BufferContents.dfy`, `BlockBuffer.dfy` | the pool of unconnected blocks: values and traversals, then the class |
| `InvalidHeaders.dfy`, `Refutations.dfy` | the cache of invalid headers and what its entries mean; runs with rejections, and when the cache can name a stored block |
| `Insertion.dfy` | what becomes of an inserted block, and which of a family of buffered blocks connect |
| `Answers.dfy` | payloads, fork-choice states and the answers to them: what they mean and when they are given |
| `EngineTree.dfy` | the tree: fork choice, inserting, connecting, answering |
| `Downloader.dfy`, `Fetch.dfy` | downloads in flight, and single downloads as state machines |
| `Network.dfy` | rotation of requests over connections |
| `Engine.dfy` | the event loop, the parked payload, the messages |
| `Counterexamples.dfy` | runs from genesis that show where conditions are needed |

## How the state machines fit together

Classes follow the source's structs, with the same fields. `EngineTree` carries a ghost list of events, and its
validity says that its store, index and head are what that list leads to from genesis. So each lemma over every
run of events in `Ledger.dfy` holds in every reachable state of the tree. An event is the storing of a verified
block, an update of the canonical chain, a pruning, or a jump to a downloaded checkpoint. `Refutations.dfy` adds
rejections and the cache to these runs, and the tree's validity also says that its cache and rejected blocks are
reachable that way.

Two kinds of event can spoil the canonical index, and the ledger's `tidy` flag is true exactly as long as
neither has happened. A checkpoint below the head leaves entries above the new head, because the download only
inserts (crates/engine/src/engine.rs:122-127). A rewind below a checkpoint's ancestors can leave entries of a
branch that was canonical before the jump, because those hashes do not match the ones being removed
(crates/provider/src/chain_state.rs:88-95). Both conditions are proved exact, for single
events and for whole runs, each with a run from genesis. In every run a checkpoint comes with the 256 ancestors that
the downloader asks for (crates/engine/src/download/mod.rs:84-101).

What an operation changes and answers is stated on values, in `Insertion.dfy` and `Answers.dfy` for the tree and
in `Engine.dfy` for a round of the event loop: which buffered blocks connect, what a block comes to, when a
fork-choice state gets which answer, and what a message or a download leads to. The methods are proved to do
exactly that, and lemmas say what follows from it.

## Where code and comments differ

The model follows the code.

- crates/engine/src/tree/block_buffer.rs:119-120 promises lower numbers first. Numbers of buffered blocks are
  unchecked; what holds is that each block comes after its parent.
- crates/engine/src/tree/block_buffer.rs:135 says that blocks preceding a number are evicted. Blocks with that
  number go too, and so does everything linked under them, whatever its number.
- crates/engine/src/tree/block_buffer.rs:209-216 drops a parent's whole entry first, so that a child without a
  proof stays buffered without its link and is not connected through its parent again.
- crates/provider/src/chain_state.rs:57-59 describes the index as searched first. The stored blocks are walked
  first, and the index is used where they end.
- crates/engine/src/tree/mod.rs:307-323 assumes that the head was made canonical; the answer INVALID comes
  after the head has moved (crates/engine/src/tree/mod.rs:196-205).
- crates/engine/src/tree/mod.rs:331 gives no update for genesis as the target, since its walk ends at the zero
  hash while the head's walk stands on genesis.

## Model

| member | source | states |
|---|---|---|
| `Ledgers.IndexAfterEveryRun` | crates/engine/src/tree/mod.rs:331-472 | Over every run from genesis of storing, updating, pruning and jumping in which every event is harmless, the index lists exactly the head's real ancestors from a low bound to the head without a gap, nothing above the head, and the head is stored; the bound is at or below the window of the last pruning or of some root. |
| `Ledgers.SoundRunsExactly` | crates/engine/src/tree/mod.rs:331-472 | For every run from genesis, the index is sound in each of its states if and only if every event is harmless: no update leaves a foreign entry above the new tip, and no checkpoint is numbered below the head. |
| `Ledgers.StoreAfterEveryRun` | crates/provider/src/chain_state.rs:133-173 | Over every run from genesis, each stored block is a root (genesis or the checkpoint of some jump), or at the last pruning floor or below (zero, or the number of a finalized block pruned at), or was verified with the proof still stored and has its parent stored one number lower; proofs belong to stored blocks; after harmless runs nothing is stored below the floor. |
| `Ledgers.RunKeepsInv` | crates/engine/src/tree/mod.rs:331-472 | Every event keeps the invariant of the store, and of the index too as long as each event so far was harmless; the flag in the state records exactly that. |
| `Ledgers.RunKeepsLowBound` | crates/engine/src/engine.rs:115-129 | Every run keeps the low end of the index at or below the window of the last pruning or of some root, since each checkpoint comes with 256 ancestors. |
| `Ledgers.RunOrigins` | crates/provider/src/chain_state.rs:133-173 | Every root that a run adds is the checkpoint of one of its jumps, and a floor that it changes is the number of a block pruned at. |
| `Ledgers.RunWithoutJumpsIsHarmless` | crates/engine/src/tree/mod.rs:331-472 | Without checkpoint downloads every run is harmless: commits, reorgs, rewinds and prunes alone never break the index. |
| `Ledgers.UpdateKeepsIndexExactly` | crates/provider/src/provider.rs:63-70 | Removing the old hashes and then inserting the new ones turns a sound index into a sound one if and only if the index held nothing but the old head's ancestors between the new tip and the contiguous part. |
| `Ledgers.JumpKeepsIndexExactly` | crates/engine/src/engine.rs:115-129 | A downloaded checkpoint, which only inserts, keeps a sound index sound if and only if the checkpoint is not numbered below the head. |
| `Ledgers.PrunedKeepsIndex` | crates/provider/src/chain_state.rs:145-173 | Pruning at a canonical stored block keeps the index sound and never drops the head. |
| `Ledgers.PrunedKeepsStore` | crates/provider/src/chain_state.rs:145-173 | Pruning keeps every block above the floor verified, with its parent stored. |
| `Ledgers.StoredKeepsStore` | crates/engine/src/tree/mod.rs:686-698 | A block that is stored after its proof was accepted is one number above its stored parent. |
| `Ledgers.IndexIsAncestry` | crates/provider/src/chain_state.rs:53-80 | In the contiguous part, the entry at n is the block that walking down n numbers of real headers from the head leads to. |
| `Ledgers.UpdateShape` | crates/engine/src/tree/mod.rs:331-409 | Both chains of an update cover consecutive numbers, start at the same number, and end at the target and at the old head. |
| `Ledgers.UpdatedAt` | crates/provider/src/provider.rs:63-70 | The whole index after an update, number by number: the new chain, the gaps left by the old one, and what was there before. |
| `Ledgers.JumpedAt` | crates/engine/src/engine.rs:122-127 | The whole index after a checkpoint download, number by number. |
| `Counterexamples.JumpBelowHead` | crates/engine/src/engine.rs:122-127 | A run from genesis: with the chain canonical to some number, downloading the block below the head with its 256 ancestors leaves an entry above the head. |
| `Counterexamples.RewindBelowJump` | crates/engine/src/tree/mod.rs:331-472 | A run from genesis: after a checkpoint is downloaded with 256 ancestors over a fork, making a block below those ancestors canonical turns a sound index into one with an entry of the fork above the head. |
| `EngineTrees.EngineTree.OnNewHead` | crates/engine/src/tree/mod.rs:331-409 | An update is found if and only if the target is stored, is not block zero, and its walk meets the head's walk; then it consists of two linked chains of stored headers over the first meeting point. For a stored target not numbered zero, none is found only if a header is missing on one of the walks. |
| `EngineTrees.EngineTree.WalkBack` | crates/engine/src/tree/mod.rs:343-386 | Walking down to a number collects exactly the headers passed, or stops at a missing one above that number. |
| `EngineTrees.EngineTree.WalkToForkPoint` | crates/engine/src/tree/mod.rs:388-404 | The lock-step walk stops at the first common hash; it finds none only if the walks never meet, and then a real header is missing on one of them. |
| `ForkChoice.ForkIsHighestCommonAncestor` | crates/engine/src/tree/mod.rs:331-409 | Unless the target is already an ancestor-or-self of the head, the fork point is the highest common ancestor. |
| `ForkChoice.RewindToAncestor` | crates/engine/src/tree/mod.rs:331-409 | For a target on the head's own chain the update re-adds the target alone and removes the head's chain down to and including it. |
| `ForkChoice.ChainsMakeUpdate` | crates/engine/src/tree/mod.rs:364-408 | The two collected lists, reversed, are the parent-linked update over the first meeting point. |
| `ForkChoice.NoMeetingMeansBroken` | crates/engine/src/tree/mod.rs:331-409 | Walks that never meet do not both reach the end of the chain: one of them comes to a real hash whose header is missing. |
| `ForkChoice.TargetWalkBroken` | crates/engine/src/tree/mod.rs:346-353 | A missing header on the target's walk rules out every meeting. |
| `ForkChoice.HeadWalkBroken` | crates/engine/src/tree/mod.rs:372-379 | A missing header on the head's walk rules out every meeting. |
| `ForkChoice.ChainIsWalk` | crates/engine/src/tree/mod.rs:331-409 | A chain of an update lists the headers met when walking down from its tip. |
| `ForkChoice.UpdateOnce` | crates/engine/src/tree/mod.rs:331-409 | At most one update leads from a head to a target, so whatever is said of an update that is made determines the new head and index. |
| `EngineTrees.EngineTree.IsFork` | crates/engine/src/tree/mod.rs:109-125 | The loop that stops early on the number agrees with the definition: the head is not a stored ancestor-or-self of the target. |
| `EngineTrees.EngineTree.OnCanonicalChainUpdate` | crates/engine/src/tree/mod.rs:458-472 | Head and index become what the update says, the store stays, and the tree stays valid. |
| `EngineTrees.EngineTree.MakeCanonical` | crates/engine/src/tree/mod.rs:449-453 | The target becomes the head, with the index of the one update to it, if and only if such an update exists; otherwise nothing changes. |
| `EngineTrees.EngineTree.IndexIsSound` | crates/engine/src/tree/mod.rs:331-472 | In every reachable state of the tree whose events were harmless, the index holds the head's real ancestors and nothing above the head. |
| `EngineTrees.EngineTree.OnForkchoiceUpdated` | crates/engine/src/tree/mod.rs:141-276 | The answer and all changes, exactly: SYNCING for an unknown head that no update leads to; INVALID for the zero head or when the head is or becomes canonical and a safe or finalized hash is not canonical then; VALID for a stored head that cannot be advanced to; store, index, head and buffer after each. A head is turned down as invalid only above a recorded block, and always so if the cache keeps its entries. VALID with the head canonical means, whenever the index is sound, that the head is stored and the safe and finalized blocks are its ancestors. |
| `Answers.DecidedStatus` | crates/engine/src/tree/mod.rs:169-276 | For a state that is not turned down at once: when exactly the answer is SYNCING or INVALID, and that a stored head that no update leads to is VALID. |
| `Answers.DecidedHead` | crates/engine/src/tree/mod.rs:169-239 | The head moves to nothing but the requested block, and is there after every VALID answer that an update leads to; SYNCING changes nothing; a sound index rules out a missing head. |
| `EngineTrees.EngineTree.AdvanceHead` | crates/engine/src/tree/mod.rs:196-224 | The update happens before the consistency check: on inconsistency, which is exactly a safe or finalized hash missing from the new index, the head has moved but nothing is pruned; otherwise store, index and buffer are cleaned up, and with a sound index the safe and finalized blocks are the head's ancestors. |
| `EngineTrees.EngineTree.CleanUpFinalized` | crates/engine/src/tree/mod.rs:207-212 | Store and index are pruned and the buffer is swept at the finalized block, if it is stored; otherwise nothing changes. |
| `EngineTrees.EngineTree.EnsureConsistentForkchoiceState` | crates/engine/src/tree/mod.rs:307-323 | True if and only if every non-zero safe and finalized hash is canonical. |
| `EngineTrees.EngineTree.PreValidateForkchoiceUpdate` | crates/engine/src/tree/mod.rs:284-301 | An early answer means the zero head, or a recorded hash where the head's buffered ancestors end; the reported latest valid hash is stored and everything from the head down to it is blamed. A cache that keeps its entries determines whether there is one, and the hash. |
| `EngineTrees.EngineTree.SyncEvent` | crates/engine/src/tree/mod.rs:246-274 | The download asked for is the missing finalized block, else the hash where the buffered ancestors of the missing safe block or of the head end; none only if that hash is the finalized block or stored. |
| `EngineTrees.EngineTree.CanonicalAnchors` | crates/engine/src/tree/mod.rs:307-323 | Scanning index values decides real ancestry: with a sound index, a canonical hash in the contiguous part is an ancestor-or-self of the head, which is stored. |
| `EngineTrees.EngineTree.AnchoredAfterCleanUp` | crates/engine/src/tree/mod.rs:199-212 | After pruning at the finalized block the same holds of the safe and finalized blocks, even where only the pruning makes the index sound. |
| `EngineTrees.EngineTree.TrackForkchoice` | crates/engine/src/engine.rs:234-241 | The sync target is the head last answered SYNCING, none after a valid one, and unchanged after any other answer. |
| `EngineTrees.EngineTree.OnFinalized` | crates/provider/src/provider.rs:73-77 | Pruning happens for a stored non-zero finalized hash and is one more event of the run. |
| `EngineTrees.EngineTree.JumpToCheckpoint` | crates/engine/src/engine.rs:115-129 | Head, store and index after a finalized download are those of a jump. |
| `EngineTrees.EngineTree.constructor` | crates/engine/src/tree/mod.rs:69-93 | The tree starts valid at genesis, with no event. |
| `EngineTrees.EngineTree.InsertBlock` | crates/engine/src/tree/mod.rs:654-724 | Result and changes, exactly: stored if and only if it is new, its parent is stored and its proof is accepted; buffered, with its proof, if the parent or the proof is missing; a validation failure means the block is refutable; the missing ancestor is where the buffered ancestors of the parent end. |
| `EngineTrees.EngineTree.VerifyAndStore` | crates/engine/src/tree/mod.rs:686-698 | A block is stored if and only if it passes against its stored parent; otherwise nothing changes. |
| `EngineTrees.EngineTree.TryConnectBufferedBlocks` | crates/engine/src/tree/mod.rs:612-651 | Block by block: exactly the blocks that lie above a stored one through taken blocks whose proofs verify are stored, those refuted against a parent that connects are rejected and recorded, those that wait are back in the buffer with their proofs, and it fails exactly at a fault; the ledger is what storing them one after the other, each after its parent, and following the sync target gives. So if the root is stored and all its linked descendants' proofs verify, the whole family is stored. |
| `EngineTrees.EngineTree.ConnectBlock` | crates/engine/src/tree/mod.rs:627-646 | One block by its fate: stored and followed if it is the sync target, rejected and recorded, buffered again with its proof, or left alone; fatal exactly for a fault. |
| `Insertions.DescendantConnects` | crates/engine/src/tree/mod.rs:612-651 | Below a stored root a linked descendant is stored if its proof and those of its linked ancestors below the root verify, whatever its siblings carry. |
| `Insertions.FamilyConnects` | crates/engine/src/tree/mod.rs:612-651 | If the proofs of all linked descendants of a stored root verify, each of them connects. |
| `Insertions.OneMoreHandled` | crates/engine/src/tree/mod.rs:627-646 | Inserting the next block of a list in which parents come first handles one more block of the pool as what connects says, unless it faults; so the outcome does not depend on which such order the list has. |
| `Insertions.FamilySettles` | crates/engine/src/tree/mod.rs:612-651 | Without a fault each block that was buffered is stored, rejected or still buffered. |
| `Insertions.RunFollowsTarget` | crates/engine/src/tree/mod.rs:630-634 | If connecting stores the sync target, the head moves only then, by the update from the blocks stored by then, if there is one. |
| `Insertions.FamilyKeepsHead` | crates/engine/src/tree/mod.rs:630-634 | If the sync target is stored already or not among the blocks taken out, head and index stay. |
| `EngineTrees.EngineTree.OnPayloadBlock` | crates/engine/src/tree/mod.rs:498-546 | Refused only if the hash looked up is recorded (the parent, or where the buffered ancestors of a buffered block end), and always so if the cache keeps its entries; otherwise handled by its fate: stored with its family connected, rejected and recorded, or buffered with the missing ancestor or proof asked for. |
| `EngineTrees.EngineTree.OnNewPayload` | crates/engine/src/tree/mod.rs:475-546 | The same for any payload, and what it means: VALID means stored, and now or before verified, and stores every buffered family whose proofs verify; an answer that links to an invalid block names a rejected ancestor; a reported latest valid hash is stored with only blamed blocks above it, for malformed payloads too; SYNCING means buffered; the requested action fits the answer; a fatal error means that verification faulted. |
| `EngineTrees.EngineTree.OnDownloadedBlock` | crates/engine/src/tree/mod.rs:553-609 | The same for a downloaded block: one that passes over a stored parent is stored and VALID, with its family connected; a refuted one is INVALID and recorded; SYNCING means that its parent is not stored; a block stored before changes nothing. |
| `Answers.HandledValid` | crates/engine/src/tree/mod.rs:513-538 | A block that passes, or a payload stored before, is answered VALID unless its family faults; then it is stored, the target is asked for exactly if it is the block, and a family whose proofs all verify is stored as a whole. |
| `Answers.HandledRefuted` | crates/engine/src/tree/mod.rs:839-863 | INVALID is the answer exactly for a refuted block, and changes no stored or buffered block. |
| `EngineTrees.EngineTree.OnNotConnected` | crates/engine/src/tree/mod.rs:519-538 | The answer and the download for each way a block is not stored. |
| `EngineTrees.EngineTree.LowestBufferedAncestorOr` | crates/engine/src/tree/mod.rs:796-801 | Where the buffered ancestors of the hash end, a real ancestor-or-self: the hash itself if it is not buffered. |
| `EngineTrees.EngineTree.LatestValidHashForInvalidPayload` | crates/engine/src/tree/mod.rs:813-837 | A returned hash is stored, is an ancestor-or-self of the parent, and everything strictly above it has a rejected ancestor-or-self. With a cache that keeps its entries it is the parent if that is stored, else the hash where following the entries ends if that is stored, else none; the walk ends although any entry may vanish. |
| `EngineTrees.EngineTree.PrepareInvalidResponse` | crates/engine/src/tree/mod.rs:760-775 | The same, with the zero hash in place of a proof-of-work parent. |
| `EngineTrees.EngineTree.CheckInvalidAncestorWithHead` | crates/engine/src/tree/mod.rs:731-746 | A refused block really descends from a rejected one, and so does everything above the reported hash; it is recorded, and nothing else. A cache that keeps its entries finds every recorded hash and determines the reported one. |
| `EngineTrees.EngineTree.CheckInvalidAncestor` | crates/engine/src/tree/mod.rs:750-755 | The same for a head, which is not recorded. |
| `EngineTrees.EngineTree.OnInsertBlockError` | crates/engine/src/tree/mod.rs:842-863 | A validation error records the block, and nothing else, and reports the latest valid hash, which is the parent if that is stored; a fatal error changes nothing. |
| `InvalidHeaders.FollowEntry` | crates/engine/src/tree/mod.rs:823-834 | Following an entry to the parent of the block it names goes strictly down and passes only blocks with a rejected ancestor-or-self. |
| `InvalidHeaders.CacheEndsOnce` | crates/engine/src/tree/mod.rs:823-834 | Following entries leads to one hash at most that is not recorded, so the latest valid hash is determined. |
| `Refutations.StoredKeyExactly` | crates/engine/src/tree/mod.rs:842-863 | The cache can come to name a stored block if and only if some run leads to a dispute, where one proof gets a block stored and another gets it rejected, or to a checkpoint with 256 ancestors at or above a rejected block. |
| `Refutations.StoredKeyMeansDisputeExactly` | crates/engine/src/tree/mod.rs:842-863 | In states in which every rejected ancestor-or-self of a root is acceptable, the cache can come to name a stored block if and only if a run leads to a dispute. |
| `Refutations.CacheNeverNamesStored` | crates/engine/src/tree/mod.rs:731-746 | In every reachable state, as long as no run leads to a dispute and no root lies above an unacceptable rejected block, no stored block is recorded or descends from a rejected block. |
| `Refutations.OneVerdictMeansNoDispute` | crates/verifier/src/lib.rs:73-99 | If no block is accepted with one proof and rejected with another, no run leads to a dispute; verification may still fault on some proofs. |
| `Refutations.DisputeMeansStoredKey` | crates/engine/src/tree/mod.rs:731-746 | A disputed block that is rejected first and accepted next is recorded and stored. |
| `Refutations.StoredBlameMeansDispute` | crates/engine/src/tree/mod.rs:842-863 | A stored block with a rejected ancestor-or-self means that a run leads to a dispute, or that a root lies above an unacceptable rejected block. |
| `Refutations.BadCheckpointMeansStoredKey` | crates/engine/src/engine.rs:115-129 | A checkpoint with 256 ancestors that is recorded as below a rejected block and then downloaded is recorded and stored. |
| `Refutations.AcceptedIsVouched` | crates/engine/src/tree/mod.rs:686-698 | Every real ancestor-or-self of an accepted child of such a block is acceptable, or at or below a root. |
| `Refutations.WhenRejected` | crates/engine/src/tree/mod.rs:842-863 | Each rejected block was refuted by one step of the run, at a state in which it was not stored, by its own checks or by a proof against its stored parent. |
| `Refutations.ReachableEntries` | crates/engine/src/tree/mod.rs:731-746 | In every reachable state each entry names a rejected ancestor-or-self of its key, with the parent of that block. |
| `EngineTrees.EngineTree.StoredIsNotBlamed` | crates/engine/src/tree/mod.rs:502-512 | In every reachable state of the tree, as long as no run leads to a dispute and no root lies above an unacceptable rejected block, no stored block is in the cache or below a rejected block. |
| `Counterexamples.BadProofBlamesGoodBlock` | crates/engine/src/tree/mod.rs:842-863 | A run from genesis: a block is rejected with a bad proof and stored with a good one, and is then both recorded and stored. |
| `Counterexamples.CheckpointAboveRejected` | crates/engine/src/engine.rs:115-129 | A run from genesis, in a world without disputes: a block fails its own checks, a block above it is recorded, and downloading that with 256 ancestors leaves it both recorded and stored. |
| `Counterexamples.RecordThenDownload` | crates/engine/src/tree/mod.rs:498-512 | From any state of the tree with a recorded hash, sending a child of it as a payload and then downloading the child as a checkpoint leaves the child both recorded and stored. |
| `Counterexamples.RejectThenAccept` | crates/engine/src/tree/mod.rs:475-546 | From any state of the tree with a disputed block that is not buffered, sending the block with the bad proof and again with the good one leaves a stored block recorded. |
| `BlockBuffers.BlockBuffer.InsertBlock` | crates/engine/src/tree/block_buffer.rs:80-95 | The five indexes stay coherent; the block is the most recent one, linked to its parent, and only the oldest is pushed out, when the buffer is full and the block is new. |
| `BlockBuffers.BlockBuffer.InsertHashAndGetEvicted` | crates/engine/src/tree/block_buffer.rs:104-113 | The list keeps no duplicate, never exceeds the limit, and evicts the oldest only for a new hash at the limit. |
| `BlockBuffers.BlockBuffer.RemoveBlock` | crates/engine/src/tree/block_buffer.rs:185-196 | A block is taken out if and only if it is buffered with a proof; otherwise nothing changes. |
| `BlockBuffers.BlockBuffer.EvictBlock` | crates/engine/src/tree/block_buffer.rs:199-206 | A buffered block goes with its proof and links, even where the number index has lost it already. |
| `BlockBuffers.BlockBuffer.RemoveBlockWithChildren` | crates/engine/src/tree/block_buffer.rs:121-133 | Exactly the blocks with proofs among the block and its linked descendants are returned, each once, each after its parent; the rest of the buffer is as before, but for the links that are cut. |
| `BlockBuffers.BlockBuffer.RemoveChildren` | crates/engine/src/tree/block_buffer.rs:209-227 | The worklist sees exactly what is linked under the given blocks and ends without assuming acyclic links. |
| `BufferContents.CutOffExactly` | crates/engine/src/tree/block_buffer.rs:209-227 | After taking a family out, the blocks without a parent link are those from before that stay and exactly the offspring without a proof. |
| `BufferContents.CutOffIsNotFound` | crates/engine/src/tree/block_buffer.rs:209-227 | A block that lost its link is in no family but its own. |
| `BufferContents.SweepDone` | crates/engine/src/tree/block_buffer.rs:209-244 | A finished traversal has seen exactly the roots and everything linked under them. |
| `BufferContents.FamilyInTwoSteps` | crates/engine/src/tree/block_buffer.rs:121-133 | Taking out the block first and its descendants next takes out the whole family and cuts exactly its links. |
| `BufferContents.ParentFirstLed` | crates/engine/src/tree/block_buffer.rs:121-133 | Hash links have no cycle, so the block itself may lead the list. |
| `BlockBuffers.BlockBuffer.EvictOldBlocks` | crates/engine/src/tree/block_buffer.rs:136-157 | Exactly the blocks numbered at most the given number and everything linked under them are evicted, with their proofs; all else survives. |
| `BlockBuffers.BlockBuffer.EvictChildren` | crates/engine/src/tree/block_buffer.rs:230-244 | Exactly the linked descendants are evicted; the loop ends although it deletes links as it goes. |
| `BufferContents.EvictInTwoSteps` | crates/engine/src/tree/block_buffer.rs:136-157 | Evicting the old blocks first and then what is linked under them evicts the families of the old blocks. |
| `BlockBuffers.BlockBuffer.PopEarliest` | crates/engine/src/tree/block_buffer.rs:137-146 | The number index yields exactly the old blocks, each once. |
| `BlockBuffers.BlockBuffer.LowestAncestor` | crates/engine/src/tree/block_buffer.rs:71-77 | The result is a buffered ancestor-or-self whose parent is not buffered; none if and only if the hash is not buffered. |
| `BlockBuffers.BlockBuffer.RemoveFromParent` | crates/engine/src/tree/block_buffer.rs:170-179 | The link to the child goes, and the entry with it once it is empty. |
| `BlockBuffers.BlockBuffer.RemoveFromEarliestBlocks` | crates/engine/src/tree/block_buffer.rs:160-167 | The hash goes from under its number, and the entry with it once it is empty. |
| `BufferContents.TakenMakesRoom` | crates/engine/src/tree/mod.rs:616-646 | What is taken out leaves room for itself, so that putting it back evicts nothing. |
| `ChainStates.ChainState.BlockHash` | crates/provider/src/chain_state.rs:60-80 | The loop computes the lookup that the lemmas about block hashes are stated for, from any header. |
| `BlockHashes.AskBlockHash` | crates/evm/src/db.rs:83-88 | Executing a child of any real block: with a sound index, a hash that is found for a number from the low bound on is the true ancestor, also from side chains; and none is found when the stored blocks end above the number on a hash that is not canonical. |
| `BlockHashes.LookupIsSound` | crates/provider/src/chain_state.rs:60-80 | With a sound index, from any real block, stored or not, whatever is found for a number from the low bound on is the true ancestor with that number. |
| `BlockHashes.LookupFindsExactly` | crates/provider/src/chain_state.rs:60-80 | From the low bound on a hash is found exactly when the walk through stored blocks passes the number or ends on the canonical hash at or above it. |
| `BlockHashes.LookupIsExact` | crates/provider/src/chain_state.rs:60-80 | From any block that reaches a canonical one through stored blocks, side chains included, the lookup agrees with walking the real chain down to the index's low bound. |
| `BlockHashes.LookupFromCanonical` | crates/provider/src/chain_state.rs:60-80 | From a canonical block the lookup agrees with walking the real chain, wherever the stored blocks end. |
| `BlockHashes.LookupAfterPruning` | crates/provider/src/chain_state.rs:145-173 | After pruning at F, from any stored descendant-or-self of F, the lookup finds the true ancestor for every number from F's window up to the block, and nothing outside. |
| `BlockHashes.BlockHashWindowSurvivesPruning` | crates/evm/src/db.rs:83-88 | After pruning, each of the 256 numbers a child of a stored descendant of F may ask for is answered with the true ancestor. |
| `BlockHashes.BlockHashAfterEveryRun` | crates/evm/src/db.rs:83-88 | After every harmless run, pruning at any canonical stored block not below a root leaves all of the 256 numbers answered with the true ancestors. |
| `BlockHashes.WindowServed` | crates/evm/src/db.rs:83-88 | With a sound index, above any canonical stored block not below a root each of the 256 numbers a child may ask for is answered with the true ancestor, pruned or not. |
| `EngineTrees.EngineTree.WindowIsServed` | crates/engine/src/tree/mod.rs:207-212 | In every reachable state of the tree with a sound index, also after cleaning up at a finalized block not below a root, each of the 256 numbers is answered from the store and the index with the true ancestor. |
| `BlockHashes.CheckpointServesWindow` | crates/engine/src/engine.rs:115-129 | Right after a checkpoint is downloaded with 256 ancestors, each of the 256 numbers a child of a stored descendant of it may ask for is answered with the true ancestor. |
| `BlockHashes.CanonicalIsAncestor` | crates/provider/src/chain_state.rs:53-55 | A canonical hash in the contiguous part is a real ancestor-or-self of the head. |
| `BlockHashes.AncestorIsCanonical` | crates/provider/src/chain_state.rs:53-55 | A real ancestor-or-self of the head in the contiguous part is canonical. |
| `ChainStates.ChainState.InsertBlock` | crates/provider/src/chain_state.rs:133-141 | Block, number index and proofs stay in step. |
| `ChainStates.ChainState.RemoveBlocksOnFinalized` | crates/provider/src/chain_state.rs:145-173 | Exactly the blocks below the finalized one go, with their proofs, and the canonical hashes more than 256 below it; nothing changes for an unknown hash. |
| `ChainStates.ChainState.RemoveBlocksBelow` | crates/provider/src/chain_state.rs:152-162 | Popping the lowest entries removes exactly the blocks below the number, with their proofs. |
| `ChainStates.ChainState.OnChainUpdate` | crates/provider/src/provider.rs:63-70 | The index is what removing all old and then inserting all new hashes gives. |
| `ChainStates.ChainState.OnFinalized` | crates/provider/src/provider.rs:73-77 | The zero hash prunes nothing. |
| `Engines.ExactlyOneResponse` | crates/engine/src/engine.rs:196-251 | Responses come in arrival order: message i has exactly the i-th response, or is the one parked payload, or still waits. |
| `Engines.ConsensusEngine.OnDownloadOutcome` | crates/engine/src/engine.rs:108-194 | Exactly: the download is put into the tree, the block that became complete is inserted and the tree's event carried out, and the parked payload is answered if it is that block. So a block that is buffered again has an unbuffered ancestor asked for, and a sync target stored without a fault is the head if it can be. |
| `Engines.ConsensusEngine.StoreDownload` | crates/engine/src/engine.rs:114-161 | The state of the tree after each kind of download, and which hash it makes complete. |
| `Engines.ConsensusEngine.InsertUnlocked` | crates/engine/src/engine.rs:163-177 | A block is inserted if and only if block and proof are both buffered; what the tree asks for is done: a missing ancestor is asked for, a new sync target becomes the head if it can be; the answer is justified. |
| `Engines.ConsensusEngine.InsertDownloaded` | crates/engine/src/engine.rs:166-176 | The block is handled by the tree as a downloaded one, and the event that the tree returns is carried out: exactly the downloads it names are added, and a new head is sought exactly if it says so. |
| `Engines.OrphanAsks` | crates/engine/src/tree/mod.rs:585-592 | A downloaded block that is buffered again and not stored was answered SYNCING for want of its parent, and the hash where its buffered ancestors end is asked for. |
| `Engines.NewTargetAdvances` | crates/engine/src/tree/mod.rs:570-580 | A sync target that is new and inserted without a fault is the head afterwards if an update leads to it. |
| `Engines.ConsensusEngine.OnNewPayload` | crates/engine/src/engine.rs:198-233 | The payload goes to the tree with its buffered proof, exactly the downloads that the tree's event names are added, and the proof too if it was missing and an event came; parked exactly when the tree asks for the proof, and answered otherwise. SYNCING right away means that an ancestor is asked for; any answer is justified, and an internal error means that verification faulted. |
| `Engines.ConsensusEngine.OnEngineMessage` | crates/engine/src/engine.rs:196-251 | The next message is processed and parked, or answered at once after all earlier responses with an answer that is justified, never both, and only when nothing is parked. |
| `Engines.ConsensusEngine.OnForkchoiceUpdated` | crates/engine/src/engine.rs:234-249 | The tree's answer and changes are those of the fork-choice table, the sync target follows the answer, and exactly the download that a syncing head needs is added. VALID with the requested head canonical means, with a sound index, that the safe and finalized blocks are ancestors of the stored head; INVALID reports a justified latest valid hash. |
| `Engines.ConsensusEngine.AnswerParkedPayload` | crates/engine/src/engine.rs:180-190 | The parked payload is answered once. |
| `Engines.ConsensusEngine.OnTreeEvent` | crates/engine/src/engine.rs:88-106 | Exactly the downloads that a block, a proof or a finalized block needs are added, or the update to the target is made if there is one; nothing else changes. |
| `Engines.ConsensusEngine.Receive` | crates/engine/src/engine.rs:296-296 | A message that arrives is accounted for. |
| `Engines.ConsensusEngine.PollOnce` | crates/engine/src/engine.rs:270-294 | What one round does, exactly: the download that is handed out is handled; without one a parked payload waits until its time is up and is then answered SYNCING, and the next message is handled; the round ends the loop only when no download is ready and a payload is parked or the inbox is empty, or when a finalized block's senders cannot be recovered. |
| `Engines.RoundMeans` | crates/engine/src/engine.rs:270-294 | Whatever a round does, earlier responses stay, at most one message is taken, none while a download is handled, and a parked payload is answered first. |
| `Engines.ConsensusEngine.Poll` | crates/engine/src/engine.rs:267-296 | The loop is a sequence of rounds from the old state to the new one, one with each turn of the script and then quiet ones, each of which does exactly what a round does; all but the last go on. All messages that have arrived are accounted for and all earlier responses kept; unless some senders cannot be recovered, it stops with no outcome queued at a parked payload or an empty inbox. |
| `Downloads.EngineDownloader.Poll` | crates/engine/src/download/mod.rs:104-165 | In-flight requests and queued outcomes are conserved but for the outcome handed out; a poll that scans polls every request exactly once, and a pending poll leaves no outcome behind. |
| `Downloads.EngineDownloader.PollEach` | crates/engine/src/download/mod.rs:110-123 | The reverse swap-remove-and-push loop visits each request once, from the last to the first. |
| `Downloads.EngineDownloader.ScanAll` | crates/engine/src/download/mod.rs:109-158 | Three scans, in order, conserve requests and outcomes together. |
| `Downloads.ScanConserves` | crates/engine/src/download/mod.rs:110-123 | Each request becomes exactly one outcome or exactly one pending request. |
| `Downloads.RescannedSame` | crates/engine/src/download/mod.rs:110-123 | The order the loop leaves the requests in is a permutation of those that stay pending. |
| `Downloads.SwapRemoveRotates` | crates/engine/src/download/mod.rs:110-111 | Swap-removing the next request rotates those already polled and leaves the rest alone. |
| `Downloads.EngineDownloader.DownloadFullBlock` | crates/engine/src/download/mod.rs:53-68 | No hash is in flight twice; the block is asked for afterwards, and no other download is added. |
| `Downloads.EngineDownloader.DownloadProof` | crates/engine/src/download/mod.rs:71-81 | No hash is in flight twice; the proof is asked for afterwards, and no other download is added. |
| `Downloads.EngineDownloader.DownloadFinalizedWithAncestors` | crates/engine/src/download/mod.rs:84-101 | No hash is in flight twice; the finalized block is asked for afterwards, and no other download is added. |
| `Fetching.FetchFullBlockFuture.Poll` | crates/engine/src/download/futs.rs:127-174 | A resolved block has the requested hash and a body that validates, its header is the one there before or the first right reply, its body was there or is among the replies; while pending, each missing part has exactly one request in flight, polled since it was made, and the right header, or a body for the header, was not among the replies. |
| `Fetching.FetchHeadersRangeFuture.OnResponse` | crates/engine/src/download/futs.rs:226-258 | A response is accepted if and only if it is long enough, starts at the requested hash and is valid and parent-linked throughout. |
| `Fetching.FetchHeadersRangeFuture.Poll` | crates/engine/src/download/futs.rs:261-276 | It resolves to the first acceptable reply, and stays pending only if no reply was acceptable, with one request that was polled. |
| `Fetching.FetchFullBlockWithAncestorsFuture.Poll` | crates/engine/src/download/futs.rs:320-345 | A resolved download has the requested hash, a matching body, and at least the requested number of linked ancestors from the block's parent hash, all of them from the replies; while pending, exactly what is missing is being requested and was not among the replies. |
| `Fetching.DownloadedLineage` | crates/engine/src/download/futs.rs:320-345 | What resolves is the checkpoint's lineage if and only if the block is numbered one above its first ancestor, which nothing in the download checks; with 256 ancestors it is then what a jump needs. |
| `Network.RessNetworkManager.OnPeerRequest` | crates/network/src/manager.rs:44-61 | A request goes to the first open connection, which goes to the back, or waits when none is open; closed ones are dropped. |
| `Network.RessNetworkManager.Poll` | crates/network/src/manager.rs:64-95 | Pending requests go out first while there are connections, each to the first open one, which goes to the back; every request received is pending or was accepted once; afterwards there are no connections or no pending requests, and no connection that stays open is dropped, whenever others close. |
| `Network.ConsecutiveRequestsSpread` | crates/network/src/manager.rs:44-61 | While none of n connections closes, any n consecutive requests go to n different connections, even if they lead to the same peer. |

## Left out

- `FetchFullBlockRangeFuture` (crates/engine/src/download/futs.rs:371-509): the downloader does not use it, and header/body alignment is not claimed for it.
- `FetchProofFuture`: a retry loop with one request; a proof is a value here.
- Verification itself (state root, witness, EVM execution): an arbitrary predicate of block, parent header and proof that implies the number check of crates/verifier/src/lib.rs:94.
- Payload well-formedness and payload attributes: inputs that say whether the check succeeds.
- Sender recovery, RLP, hashing: a block is its sealed header, whose hash commits to the rest; the world of headers is free of hash cycles and collisions, and a rank witnesses the former.
- Metrics, tracing, emitted engine events, elapsed times and real timers: whether the parked payload's time is up is an input of each round; the event that depends on `is_fork` is not emitted in `InsertBlock`.
- Locks: every method of the chain state is atomic.
- bin/ and crates/testing: start-up and plumbing; genesis is inserted as in bin/zk-ress/src/launch.rs:80-91.
- Liveness: downloads and payloads may wait for ever, as for a finalized block with fewer ancestors than requested.
- Responders that were dropped by the other side: a response counts as sent.
- LRU order of the invalid header cache and its limit (crates/engine/src/tree/mod.rs:86): any entry may vanish at any access, unless the cache is made to keep all of them, as one with room does.
- The forkchoice tracker belongs to another library: only its sync target is kept, and the status of invalid payload attributes counts as valid, as that library has it.
- Engines.ConsensusEngine.Poll: what arrives and what becomes ready before each round is any script of any length, with nothing more after its end; between rounds the requests in flight are tied to what was asked for, not to an order.
- Network.RessNetworkManager.Poll: arrivals come in one given order; a connection may close before any request is sent.
- Engines.ConsensusEngine.OnDownloadOutcome: the downloaded finalized block is assumed to be the lineage of a checkpoint with 256 ancestors; `Fetching.DownloadedLineage` says exactly when the download provides it.
- Ledgers.IndexAfterEveryRun: assumes harmless events, because the runs from genesis in `Counterexamples.JumpBelowHead` and `Counterexamples.RewindBelowJump` show that the code alone does not give it; `Ledgers.SoundRunsExactly` shows that this is the exact condition.
- EngineTrees.EngineTree.StoredIsNotBlamed: holds only without disputes and without unacceptable rejected blocks below roots; `Refutations.StoredKeyExactly` and `Refutations.StoredKeyMeansDisputeExactly` say exactly what it takes to fail.
- EngineTrees.EngineTree.CheckInvalidAncestor: promises that a recorded hash is found, and which hash is reported, only for a cache that keeps its entries, since others may have dropped them; so do the members that use it.
- Proofs kept for hashes whose blocks are not buffered are not bounded: the code does not bound them either.
- Loops that iterate a hash set take its elements in any order; the split of long functions into methods (`WalkBack`, `WalkToForkPoint`, `RemoveEach`, `TakeChildren`, `AdvanceHead`, `SeekHead`, `ConnectBlock`, `RefuseIfRecorded`, `StoreDownload`, `HandlePayload`, ...) follows their loops and branches.
