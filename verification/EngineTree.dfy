/** The engine tree: storing blocks, moving the canonical head, and answering the consensus client. */
module EngineTrees {
  import opened Chain
  import opened ChainStates
  import opened ForkChoice
  import opened Ledgers
  import opened BufferContents
  import opened BlockBuffers
  import opened InvalidHeaders
  import opened Refutations
  import opened Insertions
  import opened Answers
  import BlockHashes

  /** The number of blocks the buffer holds. */
  const BUFFER_LIMIT: nat := 256

  ghost predicate IsGenesis(w: World, g: Header) {
    g.hash in w.headers && w.headers[g.hash] == g && g.number == 0 && g.parent == ZERO
  }

  /** The headers collected so far, and the number and hash reached. */
  datatype Walked = Walked(chain: seq<Header>, hash: Hash, number: nat)

  class EngineTree {
    const state: ChainState
    const buffer: BlockBuffer
    const invalidHeaders: InvalidHeaderCache
    const rules: Rules
    var canonicalHead: NumHash
    /** The head the consensus client last asked to sync to. */
    var syncTarget: Option<Hash>

    ghost const world: World
    ghost const genesis: Header
    /** What happened to the stored blocks, the index and the head since genesis, and where that led. */
    ghost var events: seq<Event>
    ghost var ledger: Ledger
    ghost var rejected: set<Hash>

    /** The stored blocks, the index and the head are the outcome of a run of ledger events from genesis. */
    ghost predicate Ledgered()
      reads this`events, this`ledger, this`canonicalHead, state
    {
      && state.Valid()
      && Proper(world) && ChecksNumber(rules) && IsGenesis(world, genesis)
      && Replay(world, rules, genesis, events) == Some(ledger)
      && ledger.blocks == state.blocksByHash
      && ledger.proofs == state.proofs
      && ledger.canon == state.canonicalHashesByNumber
      && ledger.head == canonicalHead
    }

    /** The ledger, the entries and the rejected blocks are the outcome of a run with refutations. */
    ghost predicate Blames()
      reads this`rejected, this`ledger, invalidHeaders
    {
      Reachable(world, rules, genesis, Memory(ledger, invalidHeaders.entries, rejected))
    }

    ghost predicate Buffers()
      reads buffer
    {
      buffer.Valid() && Known(world, buffer.blocks)
    }

    ghost function Now(): View
      reads this`ledger, this`rejected, buffer
    {
      View(ledger, rejected, buffer.Now())
    }

    ghost predicate Valid()
      reads this, state, buffer, invalidHeaders
    {
      Ledgered() && Blames() && Buffers()
    }

    lemma LedgerInv()
      requires Ledgered()
      ensures Inv(world, rules, ledger)
    {
      GenesisInv(world, rules, genesis);
      RunKeepsInv(world, rules, Genesis(genesis), events);
    }

    /** As long as every event was harmless: the index lists the head's true ancestors, and nothing above the head. */
    lemma IndexIsSound(n: nat)
      requires Ledgered() && ledger.tidy
      ensures canonicalHead.hash in state.blocksByHash && ledger.lo <= canonicalHead.number
      ensures n in state.canonicalHashesByNumber ==> n <= canonicalHead.number
      ensures ledger.lo <= n <= canonicalHead.number ==>
        && n in state.canonicalHashesByNumber
        && Walk(world.headers, canonicalHead.hash, canonicalHead.number - n) == Some(state.canonicalHashesByNumber[n])
    {
      LedgerInv();
      assert EntryOk(world, ledger.canon, ledger.head, ledger.lo, n);
      if ledger.lo <= n <= canonicalHead.number {
        IndexIsAncestry(world, ledger, n);
      }
    }

    /** As long as every event was harmless the index is sound; it may be so again after others. */
    lemma TidyIsSound()
      requires Ledgered() && ledger.tidy
      ensures IndexOk(world, ledger)
    {
      LedgerInv();
    }

    /**
     * With a sound index, above a canonical stored block f not below a root, as is a finalized block at which the
     * tree was cleaned up: executing a child of a block d that reaches f finds the true ancestor for every number
     * that BLOCKHASH may ask for.
     */
    lemma WindowIsServed(f: Hash, d: Hash, n: nat)
      requires Ledgered() && IndexOk(world, ledger)
      requires f in state.blocksByHash && f in state.canonicalHashesByNumber.Values
      requires forall root | root in ledger.roots && root in world.headers ::
        world.headers[root].number <= state.blocksByHash[f].number
      requires d in world.headers && Reaches(state.blocksByHash, d, f)
      requires n <= world.headers[d].number < n + BLOCK_HASH_WINDOW
      ensures Known(world, state.blocksByHash)
      ensures Lookup(world, state.blocksByHash, state.canonicalHashesByNumber, NumHashOf(world.headers[d]), n)
           == Walk(world.headers, d, world.headers[d].number - n)
      ensures Walk(world.headers, d, world.headers[d].number - n).Some?
    {
      LedgerInv();
      RunKeepsLowBound(world, rules, Genesis(genesis), events);
      BlockHashes.WindowServed(world, rules, ledger, f, d, n);
    }

    /**
     * As long as no run leads to a dispute, no stored block is ever recorded as invalid or descends from a
     * rejected block, unless a downloaded checkpoint does.
     */
    lemma StoredIsNotBlamed(h: Hash)
      requires Valid() && rules.preValid(genesis) && !SomeDispute(world, rules, genesis)
      requires RootsHold(world, rules, Memory(ledger, invalidHeaders.entries, rejected))
      requires h in state.blocksByHash
      ensures h !in invalidHeaders.entries && !Blamed(world, h, rejected)
    {
      CacheNeverNamesStored(world, rules, genesis, Memory(ledger, invalidHeaders.entries, rejected), h);
    }

    /** A ledger event keeps the run going. */
    lemma Moved(before: Ledger, e: Event)
      requires Reachable(world, rules, genesis, Memory(before, invalidHeaders.entries, rejected))
      requires Enabled(world, rules, before, e) && ledger == Apply(world, rules, before, e)
      ensures Blames()
    {
      Reach(world, rules, genesis, Memory(before, invalidHeaders.entries, rejected), Move(e));
    }

    /** Records one more event. */
    ghost method Record(e: Event)
      requires Replay(world, rules, genesis, events) == Some(ledger)
      requires Enabled(world, rules, ledger, e)
      modifies this`events, this`ledger
      ensures Replay(world, rules, genesis, events) == Some(ledger)
      ensures events == old(events) + [e] && ledger == Apply(world, rules, old(ledger), e)
    {
      ReplayAppend(world, rules, genesis, events, ledger, e);
      ledger := Apply(world, rules, ledger, e);
      events := events + [e];
    }

    constructor (state: ChainState, rules: Rules, genesis: Header, forgetful: bool, ghost world: World)
      requires Proper(world) && ChecksNumber(rules) && IsGenesis(world, genesis)
      requires state.Valid()
      requires state.blocksByHash == map[genesis.hash := genesis] && state.proofs == map[]
      requires state.canonicalHashesByNumber == map[0 := genesis.hash]
      ensures Valid() && fresh(buffer) && fresh(invalidHeaders)
      ensures this.state == state && this.world == world && this.genesis == genesis && this.rules == rules
      ensures events == [] && ledger == Genesis(genesis) && rejected == {}
      ensures buffer.blocks == map[] && invalidHeaders.entries == map[] && invalidHeaders.forgetful == forgetful
      ensures buffer.limit == BUFFER_LIMIT && buffer.proofs == map[] && syncTarget == None
    {
      StartReachable(world, rules, genesis);
      this.state, this.rules, this.genesis, this.world := state, rules, genesis, world;
      buffer := new BlockBuffer(BUFFER_LIMIT);
      invalidHeaders := new InvalidHeaderCache(forgetful);
      canonicalHead, syncTarget := NumHash(0, genesis.hash), None;
      events, ledger, rejected := [], Genesis(genesis), {};
    }

    function IsSyncTargetHead(hash: Hash): bool
      reads this`syncTarget
    {
      syncTarget == Some(hash)
    }

    function IsBlockPersistedOrBuffered(hash: Hash): bool
      reads state, buffer
    {
      IsKnown(state.blocksByHash, buffer.blocks, hash)
    }

    /** Whether the target is not the canonical head or a stored descendant of it. */
    method IsFork(target: Hash) returns (fork: bool)
      requires Ledgered()
      ensures fork <==>
        !(canonicalHead.hash in state.blocksByHash && Reaches(state.blocksByHash, target, canonicalHead.hash))
    {
      LedgerInv();
      ghost var m, head := state.blocksByHash, canonicalHead.hash;
      var current := target;
      while current in state.blocksByHash
        invariant head in m && Reaches(m, target, head) ==> Reaches(m, current, head)
        invariant Reaches(m, current, head) ==> Reaches(m, target, head)
        decreases world.rank(current)
      {
        var block := state.blocksByHash[current];
        if block.hash == canonicalHead.hash {
          ReachesSelf(m, current);
          return false;
        }
        if block.number <= canonicalHead.number {
          if Reaches(m, current, head) {
            var k: nat :| Walk(m, current, k) == Some(head);
            WalkLevel(world, m, current, k);
          }
          break;
        }
        if Reaches(m, current, head) {
          var k: nat :| Walk(m, current, k) == Some(head);
          assert Walk(m, block.parent, k - 1) == Some(head);
        }
        if Reaches(m, block.parent, head) {
          ReachesParent(m, current);
          ReachesTrans(m, current, block.parent, head);
        }
        current := block.parent;
      }
      if current !in state.blocksByHash && Reaches(m, current, head) {
        var k: nat :| Walk(m, current, k) == Some(head);
        assert k == 0;
      }
      return true;
    }

    /** Collects headers from the hash downwards while its number is above the bound; None if one is missing. */
    method WalkBack(chain: seq<Header>, hash: Hash, number: nat, bound: nat, ghost from: Hash)
      returns (r: Option<Walked>, ghost missing: nat)
      requires state.Valid() && Climbed(state.blocksByHash, from, chain, hash)
      ensures r.Some? ==>
        && Climbed(state.blocksByHash, from, r.value.chain, r.value.hash) && chain <= r.value.chain
        && r.value.number == (if number > bound then bound else number)
        && r.value.number + |r.value.chain| == number + |chain|
      ensures r.None? ==>
        && Walk(state.blocksByHash, from, missing).Some?
        && Walk(state.blocksByHash, from, missing).value !in state.blocksByHash
        && |chain| <= missing && bound + missing < number + |chain|
    {
      var collected, currentHash, currentNumber := chain, hash, number;
      missing := 0;
      while currentNumber > bound
        invariant Climbed(state.blocksByHash, from, collected, currentHash) && chain <= collected
        invariant currentNumber + |collected| == number + |chain|
        invariant currentNumber >= bound || currentNumber == number
      {
        if currentHash !in state.blocksByHash {
          missing := |collected|;
          return None, missing;
        }
        ClimbedMore(state.blocksByHash, from, collected, currentHash);
        var header := state.blocksByHash[currentHash];
        currentHash := header.parent;
        currentNumber := currentNumber - 1;
        collected := collected + [header];
      }
      r := Some(Walked(collected, currentHash, currentNumber));
    }

    lemma BrokenIfStored(target: Hash, head: Hash)
      requires Ledgered() && !exists i: nat, j: nat :: Meets(state.blocksByHash, target, i, head, j)
      ensures target in state.blocksByHash ==>
        WalkBreaks(state.blocksByHash, target) || WalkBreaks(state.blocksByHash, head)
    {
      LedgerInv();
      if target in state.blocksByHash {
        NoMeetingMeansBroken(world, state.blocksByHash, target, head);
      }
    }

    /**
     * Collects headers from both hashes, one each at a time, until the hashes agree; None if one is missing.
     * Both stand at the same height, unless the new one is the zero hash above block number zero.
     */
    method WalkToForkPoint(newChain: seq<Header>, newHash: Hash, oldHash: Hash, oldChain: seq<Header>,
                           ghost target: Hash, ghost head: Hash)
      returns (r: Option<(seq<Header>, seq<Header>)>)
      requires Ledgered() && target in world.headers && head in world.headers
      requires InStep(state.blocksByHash, target, newChain, newHash, head, oldChain, oldHash)
      requires newHash == ZERO ==> oldHash != ZERO
      requires newHash != ZERO ==> SameHeight(world, target, |newChain|, head, |oldChain|)
      ensures newHash == ZERO ==> r.None?
      ensures r.None? && newHash != ZERO ==> !exists i: nat, j: nat :: Meets(state.blocksByHash, target, i, head, j)
      ensures r.None? && newHash != ZERO && target in state.blocksByHash ==>
        WalkBreaks(state.blocksByHash, target) || WalkBreaks(state.blocksByHash, head)
      ensures r.Some? ==>
        && r.value.1 != []
        && exists fork :: InStep(state.blocksByHash, target, r.value.0, fork, head, r.value.1, fork)
    {
      LedgerInv();
      ghost var m := state.blocksByHash;
      var added, removed, currentHash, currentOld := newChain, oldChain, newHash, oldHash;
      while currentOld != currentHash
        invariant InStep(m, target, added, currentHash, head, removed, currentOld)
        invariant newHash == ZERO ==> currentHash == ZERO && currentOld != ZERO
        invariant newHash != ZERO ==> SameHeight(world, target, |added|, head, |removed|)
        decreases world.rank(currentOld)
      {
        if currentOld !in state.blocksByHash {
          if newHash != ZERO {
            StepBroken(world, m, target, added, currentHash, head, removed, currentOld);
            BrokenIfStored(target, head);
          }
          return None;
        }
        var oldHeader := state.blocksByHash[currentOld];
        if currentHash !in state.blocksByHash {
          if newHash != ZERO {
            StepBroken(world, m, target, added, currentHash, head, removed, currentOld);
            BrokenIfStored(target, head);
          }
          return None;
        }
        var newHeader := state.blocksByHash[currentHash];
        StepDown(world, m, target, added, currentHash, head, removed, currentOld);
        currentOld, removed := oldHeader.parent, removed + [oldHeader];
        currentHash, added := newHeader.parent, added + [newHeader];
      }
      return Some((added, removed));
    }

    /**
     * The update that makes the new head canonical: found exactly when the head is stored, is not numbered
     * zero, and its walk meets the current head's walk; and then it leads over the first meeting point. For a
     * stored head not numbered zero, none is found only if a header is missing on one of the walks.
     */
    method OnNewHead(newHead: Hash) returns (r: Option<NewCanonicalChain>)
      requires Ledgered()
      ensures r.Some? <==> CanAdvance(state.blocksByHash, canonicalHead.hash, newHead)
      ensures r.Some? ==> IsUpdate(state.blocksByHash, canonicalHead.hash, newHead, r.value)
      ensures r.None? && newHead in state.blocksByHash && state.blocksByHash[newHead].number > 0 ==>
        WalkBreaks(state.blocksByHash, newHead) || WalkBreaks(state.blocksByHash, canonicalHead.hash)
    {
      if newHead !in state.blocksByHash {
        return None;
      }
      LedgerInv();
      ghost var m, head := state.blocksByHash, canonicalHead.hash;
      var newHeadBlock := state.blocksByHash[newHead];
      var parent := ParentNumHash(newHeadBlock);
      ClimbedStart(m, newHead);
      ClimbedMore(m, newHead, [], newHead);
      ClimbedStart(m, head);

      // Walk back the new chain down to the height of the canonical head.
      ghost var missing;
      var back;
      back, missing := WalkBack([newHeadBlock], parent.hash, parent.number, canonicalHead.number, newHead);
      if back.None? {
        TargetWalkBroken(world, m, newHead, missing, head, 0);
        BrokenIfStored(newHead, head);
        return None;
      }
      var newChain, currentHash, currentNumber := back.value.chain, back.value.hash, back.value.number;
      if currentHash == canonicalHead.hash {
        ChainsMakeUpdate(world, m, newHead, newChain, head, [], currentHash);
        return Some(Commit(Reversed(newChain)));
      }

      // A reorg: walk back the old chain to the same height, then both chains to the fork point.
      var oldBack;
      oldBack, missing := WalkBack([], canonicalHead.hash, canonicalHead.number, currentNumber, head);
      if oldBack.None? {
        HeadWalkBroken(world, m, newHead, 1, head, missing);
        BrokenIfStored(newHead, head);
        return None;
      }
      WalkLevel(world, m, newHead, |newChain|);
      WalkLevel(world, m, head, |oldBack.value.chain|);
      var chains := WalkToForkPoint(newChain, currentHash, oldBack.value.hash, oldBack.value.chain, newHead, head);
      if chains.None? {
        return None;
      }
      ghost var fork :| InStep(m, newHead, chains.value.0, fork, head, chains.value.1, fork);
      ChainsMakeUpdate(world, m, newHead, chains.value.0, head, chains.value.1, fork);
      return Some(Reorg(Reversed(chains.value.0), Reversed(chains.value.1)));
    }

    /** Applies an update to the head and the canonical index. */
    method ApplyUpdate(update: NewCanonicalChain, ghost target: Hash)
      requires Ledgered() && IsUpdate(ledger.blocks, canonicalHead.hash, target, update)
      modifies this`canonicalHead, this`events, this`ledger, state`canonicalHashesByNumber
      ensures Ledgered()
      ensures events == old(events) + [Update(target, update)] && ledger == Updated(old(ledger), update)
      ensures state.blocksByHash == old(state.blocksByHash) && canonicalHead.hash == target
    {
      Record(Update(target, update));
      canonicalHead := NumHashOf(update.Tip());
      state.OnChainUpdate(update.added, update.Removed());
    }

    method OnCanonicalChainUpdate(update: NewCanonicalChain, ghost target: Hash)
      requires Valid() && IsUpdate(ledger.blocks, canonicalHead.hash, target, update)
      modifies this`canonicalHead, this`events, this`ledger, state`canonicalHashesByNumber
      ensures Valid() && buffer.Now() == old(buffer.Now()) && rejected == old(rejected)
      ensures events == old(events) + [Update(target, update)] && ledger == Updated(old(ledger), update)
      ensures state.blocksByHash == old(state.blocksByHash) && canonicalHead.hash == target
    {
      ghost var before := ledger;
      ApplyUpdate(update, target);
      Moved(before, Update(target, update));
    }

    /** Makes the target canonical, if an update leads to it. */
    method MakeCanonical(target: Hash)
      requires Valid()
      modifies this`canonicalHead, this`events, this`ledger, state`canonicalHashesByNumber
      ensures syncTarget == old(syncTarget)
      ensures Valid() && buffer.Now() == old(buffer.Now()) && rejected == old(rejected)
      ensures ledger.blocks == old(ledger.blocks) && state.blocksByHash == old(state.blocksByHash)
      ensures !CanAdvance(ledger.blocks, old(canonicalHead.hash), target) ==>
        events == old(events) && ledger == old(ledger)
      ensures CanAdvance(ledger.blocks, old(canonicalHead.hash), target) ==>
        && canonicalHead.hash == target
        && exists u ::
             && IsUpdate(old(ledger.blocks), old(canonicalHead.hash), target, u)
             && events == old(events) + [Update(target, u)] && ledger == Updated(old(ledger), u)
      ensures Canonicalized(old(ledger), ledger, target) && Now() == old(Now()).(ledger := ledger)
    {
      var chainUpdate := OnNewHead(target);
      if chainUpdate.Some? {
        OnCanonicalChainUpdate(chainUpdate.value, target);
      }
    }

    /** Prunes the store and the index at a finalized block, if it is stored. */
    method OnFinalized(finalized: Hash)
      requires Ledgered() && (finalized != ZERO && finalized in ledger.blocks ==> finalized in ledger.canon.Values)
      modifies this`events, this`ledger, state
      ensures Ledgered()
      ensures finalized in old(ledger.blocks) ==>
        && events == old(events) + [Prune(finalized)]
        && ledger == Pruned(old(ledger), old(ledger.blocks)[finalized].number)
      ensures finalized !in old(ledger.blocks) ==> events == old(events) && ledger == old(ledger)
    {
      LedgerInv();
      if finalized in ledger.blocks {
        Record(Prune(finalized));
      }
      state.OnFinalized(finalized);
    }

    /** Makes a downloaded finalized block the head, without verification, and indexes it and its ancestors. */
    method JumpToCheckpoint(checkpoint: Header, ancestors: seq<Header>)
      requires Ledgered() && CheckpointOk(world, checkpoint, ancestors)
      modifies this`canonicalHead, this`events, this`ledger, state
      ensures Ledgered()
      ensures events == old(events) + [Jump(checkpoint, ancestors)]
      ensures ledger == Jumped(old(ledger), checkpoint, ancestors)
    {
      LedgerInv();
      Record(Jump(checkpoint, ancestors));
      canonicalHead := NumHashOf(checkpoint);
      state.InsertCanonicalHash(checkpoint.number, checkpoint.hash);
      state.InsertBlock(checkpoint, None);
      InsertAncestors(ancestors);
    }

    /** Indexes the ancestors one after the other. */
    method InsertAncestors(ancestors: seq<Header>)
      modifies state`canonicalHashesByNumber
      ensures state.canonicalHashesByNumber == InsertAll(old(state.canonicalHashesByNumber), ancestors)
    {
      for i := 0 to |ancestors|
        invariant state.canonicalHashesByNumber == InsertAll(old(state.canonicalHashesByNumber), ancestors[..i])
      {
        assert ancestors[..i + 1][..i] == ancestors[..i];
        state.InsertCanonicalHash(ancestors[i].number, ancestors[i].hash);
      }
      assert ancestors[..|ancestors|] == ancestors;
    }

    /** Stores a verified block. */
    method StoreVerified(block: Header, proof: Proof)
      requires Ledgered() && Enabled(world, rules, ledger, Store(block, proof))
      modifies this`events, this`ledger, state
      ensures Ledgered()
      ensures events == old(events) + [Store(block, proof)] && ledger == Stored(old(ledger), block, proof)
    {
      Record(Store(block, proof));
      state.InsertBlock(block, Some(proof));
    }

    /** Where the buffered ancestors of the hash end: the hash itself if it is not buffered. */
    method LowestBufferedAncestorOr(hash: Hash) returns (r: Hash)
      requires Ledgered() && Buffers()
      ensures EndsAt(buffer.blocks, hash, r) && Reaches(world.headers, hash, r)
      ensures if hash in buffer.blocks then r !in buffer.blocks else r == hash
    {
      var lowest := buffer.LowestAncestor(hash, world);
      if lowest.None? {
        ReachesSelf(world.headers, hash);
        EndsAtSelf(buffer.blocks, hash, hash);
        return hash;
      }
      LowestEnds(hash, lowest.value);
      return lowest.value.parent;
    }

    /** Below the lowest buffered ancestor the buffered walk ends. */
    lemma LowestEnds(hash: Hash, lowest: Header)
      requires Buffers() && lowest.hash in buffer.blocks && buffer.blocks[lowest.hash] == lowest
      requires Reaches(buffer.blocks, hash, lowest.hash) && lowest.parent !in buffer.blocks
      ensures EndsAt(buffer.blocks, hash, lowest.parent) && Reaches(world.headers, hash, lowest.parent)
    {
      ReachesParent(buffer.blocks, lowest.hash);
      ReachesTrans(buffer.blocks, hash, lowest.hash, lowest.parent);
      ReachesMonotone(buffer.blocks, world.headers, hash, lowest.parent);
    }

    /**
     * Inserts a block: stored if its parent is stored and its proof is accepted, buffered if the parent or
     * the proof is missing.
     */
    method InsertBlock(block: Header, maybeProof: Option<Proof>) returns (r: InsertResult)
      requires Valid()
      requires block.hash in world.headers && world.headers[block.hash] == block
      modifies this`events, this`ledger, state, buffer
      ensures Valid() && rejected == old(rejected)
      ensures ResultIs(FateOf(rules, old(ledger.blocks), block, maybeProof), r)
      ensures r.AlreadySeen? <==> block.hash in old(ledger.blocks)
      ensures r == Inserted(Connected) <==>
        && block.hash !in old(ledger.blocks) && block.parent in old(ledger.blocks)
        && maybeProof.Some? && Passes(world, rules, block, maybeProof.value)
      ensures r == Inserted(Connected) ==>
        && ledger == Stored(old(ledger), block, maybeProof.value)
        && events == old(events) + [Store(block, maybeProof.value)]
      ensures r != Inserted(Connected) ==> ledger == old(ledger) && events == old(events)
      ensures r == Inserted(NoProof) <==>
        && block.hash !in old(ledger.blocks) && rules.preValid(block)
        && block.parent in old(ledger.blocks) && maybeProof.None?
      ensures r.Inserted? && r.status.Disconnected? <==>
        && block.hash !in old(ledger.blocks) && rules.preValid(block) && block.parent !in old(ledger.blocks)
      ensures r.Inserted? && r.status.Disconnected? ==>
        && r.status.head == canonicalHead
        && EndsAt(old(buffer.blocks), block.parent, r.status.missingAncestor.hash)
        && Reaches(world.headers, block.hash, r.status.missingAncestor.hash)
      ensures r.Failed? && !r.fatal ==> CanRefute(world, rules, ledger, block)
      ensures r.Failed? && r.fatal ==> CanFault(rules)
      ensures maybeProof.Some? && RefutedBy(world, rules, old(ledger), block, maybeProof.value) ==> r == Failed(false)
      ensures
        if r.Inserted? && !r.status.Connected? then
          buffer.Now() == WithBlock(WithProof(old(buffer.Now()), block.hash, maybeProof), buffer.limit, block)
        else buffer.Now() == old(buffer.Now())
      ensures Now() == Inserting(old(Now()), buffer.limit, block, maybeProof, r)
    {
      LedgerInv();
      if block.hash in state.blocksByHash {
        return AlreadySeen;
      }
      if !rules.preValid(block) {
        assert RefutedBy(world, rules, ledger, block, 0);
        return Failed(false);
      }
      if block.parent !in state.blocksByHash {
        var missing := MissingAncestor(block);
        BufferBlock(block, maybeProof);
        return Inserted(Disconnected(canonicalHead, missing));
      }
      if maybeProof.None? {
        BufferBlock(block, None);
        return Inserted(NoProof);
      }
      r := VerifyAndStore(block, maybeProof.value);
    }

    /** Verifies a block against its stored parent, and stores it if its proof is accepted. */
    method VerifyAndStore(block: Header, proof: Proof) returns (r: InsertResult)
      requires Valid() && block.hash !in ledger.blocks && block.parent in ledger.blocks && rules.preValid(block)
      requires block.hash in world.headers && world.headers[block.hash] == block
      modifies this`events, this`ledger, state
      ensures Valid() && rejected == old(rejected) && buffer.Now() == old(buffer.Now())
      ensures r == Inserted(Connected) || r.Failed?
      ensures ResultIs(FateOf(rules, old(ledger.blocks), block, Some(proof)), r)
      ensures r == Inserted(Connected) <==> Passes(world, rules, block, proof)
      ensures r == Inserted(Connected) ==>
        ledger == Stored(old(ledger), block, proof) && events == old(events) + [Store(block, proof)]
      ensures r != Inserted(Connected) ==> ledger == old(ledger) && events == old(events)
      ensures r.Failed? && !r.fatal ==> CanRefute(world, rules, ledger, block)
      ensures r.Failed? && r.fatal ==> CanFault(rules)
      ensures RefutedBy(world, rules, old(ledger), block, proof) ==> r == Failed(false)
    {
      LedgerInv();
      var verdict := rules.verify(block, state.blocksByHash[block.parent], proof);
      if verdict == Reject {
        assert RefutedBy(world, rules, ledger, block, proof);
        return Failed(false);
      }
      if verdict == Fault {
        return Failed(true);
      }
      KeepVerified(block, proof);
      return Inserted(Connected);
    }

    lemma StoreEnabled(block: Header, proof: Proof)
      requires Ledgered() && block.hash !in ledger.blocks && block.parent in ledger.blocks
      requires block.hash in world.headers && world.headers[block.hash] == block
      requires Passes(world, rules, block, proof)
      ensures Enabled(world, rules, ledger, Store(block, proof))
    {
      LedgerInv();
    }

    /** Stores a block whose proof was accepted. */
    method KeepVerified(block: Header, proof: Proof)
      requires Valid() && block.hash !in ledger.blocks && block.parent in ledger.blocks
      requires block.hash in world.headers && world.headers[block.hash] == block
      requires Passes(world, rules, block, proof)
      modifies this`events, this`ledger, state
      ensures Valid() && rejected == old(rejected) && buffer.Now() == old(buffer.Now())
      ensures ledger == Stored(old(ledger), block, proof) && events == old(events) + [Store(block, proof)]
    {
      StoreEnabled(block, proof);
      ghost var before := ledger;
      StoreVerified(block, proof);
      Moved(before, Store(block, proof));
    }

    /** Buffers a block, with its proof if there is one. */
    method BufferBlock(block: Header, maybeProof: Option<Proof>)
      requires Buffers() && block.hash in world.headers && world.headers[block.hash] == block
      modifies buffer
      ensures Buffers()
      ensures buffer.Now() == WithBlock(WithProof(old(buffer.Now()), block.hash, maybeProof), buffer.limit, block)
    {
      if maybeProof.Some? {
        buffer.InsertProof(block.hash, maybeProof.value);
      }
      buffer.InsertBlock(block);
    }

    /** Where the buffered ancestors of the block's parent end, numbered one below the last of them or the block. */
    method MissingAncestor(block: Header) returns (r: NumHash)
      requires Ledgered() && Buffers()
      requires block.hash in world.headers && world.headers[block.hash] == block
      ensures EndsAt(buffer.blocks, block.parent, r.hash) && Reaches(world.headers, block.hash, r.hash)
      ensures exists b ::
        (b == block || (b.hash in buffer.blocks && buffer.blocks[b.hash] == b)) && r == ParentNumHash(b)
    {
      ReachesParent(world.headers, block.hash);
      var lowest := buffer.LowestAncestor(block.parent, world);
      if lowest.None? {
        EndsAtSelf(buffer.blocks, block.parent, block.parent);
        return ParentNumHash(block);
      }
      LowestEnds(block.parent, lowest.value);
      ReachesTrans(world.headers, block.hash, block.parent, lowest.value.parent);
      return ParentNumHash(lowest.value);
    }

    /** Looks a hash up in the lossy cache of invalid headers. */
    method FindInvalid(hash: Hash) returns (r: Option<BlockWithParent>)
      requires Blames()
      modifies invalidHeaders
      ensures Blames()
      ensures invalidHeaders.OnlyForgets(old(invalidHeaders.entries))
      ensures r == Get(invalidHeaders.entries, hash)
      ensures r.Some? ==> EntryNames(world, hash, r.value, rejected)
    {
      ghost var before := Memory(ledger, invalidHeaders.entries, rejected);
      r := invalidHeaders.Lookup(hash);
      ReachableEntries(world, rules, genesis, before);
      ReachFewer(world, rules, genesis, before, invalidHeaders.entries);
    }

    /**
     * The lowest steps up from an invalid block's parent to a stored block, following the cache: every block
     * passed on the way has a rejected ancestor-or-self. A cache that keeps its entries determines the answer.
     */
    method LatestValidHashForInvalidPayload(parentHash: Hash) returns (r: Option<Hash>)
      requires Proper(world) && Blames()
      modifies invalidHeaders
      ensures Blames()
      ensures invalidHeaders.OnlyForgets(old(invalidHeaders.entries))
      ensures parentHash in state.blocksByHash ==> r == Some(parentHash)
      ensures !invalidHeaders.forgetful ==>
        LatestIs(state.blocksByHash, old(invalidHeaders.entries), parentHash, r)
      ensures r.Some? ==>
        r.value in state.blocksByHash && exists k: nat :: BlamedDownTo(world, parentHash, k, r.value, rejected)
    {
      ghost var k: nat, n: nat := 0, 0;
      ghost var entries := invalidHeaders.entries;
      assert BlamedDownTo(world, parentHash, 0, parentHash, rejected);
      if parentHash in state.blocksByHash {
        return Some(parentHash);
      }
      var currentHash := parentHash;
      var current := FindInvalid(currentHash);
      while current.Some?
        invariant Blames() && invalidHeaders.OnlyForgets(entries)
        invariant BlamedDownTo(world, parentHash, k, currentHash, rejected)
        invariant CacheWalk(entries, parentHash, n) == Some(currentHash)
        invariant current == Get(invalidHeaders.entries, currentHash)
        invariant current.Some? ==> EntryNames(world, currentHash, current.value, rejected)
        invariant current.None? ==> currentHash !in state.blocksByHash
        decreases world.rank(currentHash), current.Some?
      {
        k := FollowEntry(world, parentHash, k, currentHash, current.value, rejected);
        CacheFollow(entries, parentHash, n, currentHash);
        n := n + 1;
        currentHash := current.value.parent;
        current := FindInvalid(currentHash);
        if current.None? && currentHash in state.blocksByHash {
          assert !invalidHeaders.forgetful ==> CacheEndsAt(entries, parentHash, currentHash);
          return Some(currentHash);
        }
      }
      assert !invalidHeaders.forgetful ==> CacheEndsAt(entries, parentHash, currentHash);
      return None;
    }

    /** The response for a block linked to an invalid one: the zero hash stands in for a proof-of-work parent. */
    method PrepareInvalidResponse(parentHash: Hash) returns (r: PayloadStatus)
      requires Ledgered() && Blames()
      modifies invalidHeaders
      ensures Blames()
      ensures invalidHeaders.OnlyForgets(old(invalidHeaders.entries))
      ensures r.LinksToInvalid?
      ensures r.lastValid != ZERO ==>
        r.lastValid in state.blocksByHash && exists k: nat :: BlamedDownTo(world, parentHash, k, r.lastValid, rejected)
      ensures parentHash in state.blocksByHash ==>
        r.lastValid == if state.blocksByHash[parentHash].difficulty == 0 then parentHash else ZERO
      ensures !invalidHeaders.forgetful ==>
        LastValidIs(state.blocksByHash, old(invalidHeaders.entries), parentHash, r.lastValid)
    {
      LedgerInv();
      var hash := parentHash;
      if hash in state.blocksByHash && state.blocksByHash[hash].difficulty != 0 {
        hash := ZERO;
      }
      var valid := LatestValidHashForInvalidPayload(hash);
      if valid.Some? {
        ghost var k: nat :| BlamedDownTo(world, hash, k, valid.value, rejected);
        assert hash == ZERO ==> k == 0;
      }
      return LinksToInvalid(if valid.Some? then valid.value else ZERO);
    }

    ghost predicate LinkJustified(hash: Hash, status: PayloadStatus)
      reads this`ledger, this`rejected
    {
      LinksToRejected(world, ledger.blocks, rejected, hash, status)
    }

    /** Answers for a hash recorded as invalid, and records the head below it. */
    method CheckInvalidAncestorWithHead(check: Hash, head: Hash) returns (r: Option<PayloadStatus>)
      requires Ledgered() && Blames() && Reaches(world.headers, head, check)
      modifies invalidHeaders
      ensures Blames()
      ensures invalidHeaders.Keeps(old(invalidHeaders.entries))
      ensures r.Some? ==> r.value.LinksToInvalid? && LinkJustified(head, r.value)
      ensures r.Some? ==> check in old(invalidHeaders.entries) && head in invalidHeaders.entries
      ensures !invalidHeaders.forgetful && check in old(invalidHeaders.entries) ==> r.Some?
      ensures r.None? ==> invalidHeaders.OnlyForgets(old(invalidHeaders.entries))
      ensures Records(invalidHeaders.forgetful, old(invalidHeaders.entries), invalidHeaders.entries,
                      if r.Some? then {head} else {})
      ensures r.Some? && !invalidHeaders.forgetful ==>
        RefusalIs(state.blocksByHash, old(invalidHeaders.entries), check, r.value.lastValid)
    {
      var header := FindInvalid(check);
      if header.None? {
        return None;
      }
      BlamedByEntry(world, check, header.value, rejected, head);
      ghost var before := Memory(ledger, invalidHeaders.entries, rejected);
      var status := AnswerBelow(head, header.value);
      invalidHeaders.InsertWithInvalidAncestor(head, header.value);
      ReachInherited(world, rules, genesis, before, head, check, invalidHeaders.entries);
      return Some(status);
    }

    /** Answers for a hash recorded as invalid. */
    method CheckInvalidAncestor(head: Hash) returns (r: Option<PayloadStatus>)
      requires Ledgered() && Blames()
      modifies invalidHeaders
      ensures Blames()
      ensures invalidHeaders.OnlyForgets(old(invalidHeaders.entries))
      ensures r.Some? ==> r.value.LinksToInvalid? && head in old(invalidHeaders.entries) && LinkJustified(head, r.value)
      ensures !invalidHeaders.forgetful && head in old(invalidHeaders.entries) ==>
        r.Some? && RefusalIs(state.blocksByHash, old(invalidHeaders.entries), head, r.value.lastValid)
    {
      var header := FindInvalid(head);
      if header.None? {
        return None;
      }
      ReachesSelf(world.headers, head);
      BlamedByEntry(world, head, header.value, rejected, head);
      var status := AnswerBelow(head, header.value);
      return Some(status);
    }

    /** The answer for a block below the rejected block that an entry names. */
    method AnswerBelow(head: Hash, header: BlockWithParent) returns (r: PayloadStatus)
      requires Ledgered() && Blames() && EntryNames(world, head, header, rejected)
      modifies invalidHeaders
      ensures Blames()
      ensures invalidHeaders.OnlyForgets(old(invalidHeaders.entries))
      ensures LinkJustified(head, r)
      ensures !invalidHeaders.forgetful ==>
        LastValidIs(state.blocksByHash, old(invalidHeaders.entries), header.parent, r.lastValid)
    {
      assert BlamedDownTo(world, head, 0, head, rejected);
      ghost var k := FollowEntry(world, head, 0, head, header, rejected);
      r := PrepareInvalidResponse(header.parent);
      if r.lastValid != ZERO {
        ghost var j: nat :| BlamedDownTo(world, header.parent, j, r.lastValid, rejected);
        BlamedConcat(world, head, k, header.parent, j, r.lastValid, rejected);
      }
    }

    /** Records a block that failed validation; None for a fatal error. */
    method OnInsertBlockError(block: Header, fatal: bool) returns (r: Option<PayloadStatus>)
      requires Valid()
      requires block.hash in world.headers && world.headers[block.hash] == block
      requires !fatal ==> CanRefute(world, rules, ledger, block)
      modifies this`rejected, invalidHeaders
      ensures Valid() && ledger == old(ledger) && buffer.Now() == old(buffer.Now())
      ensures invalidHeaders.Keeps(old(invalidHeaders.entries))
      ensures fatal ==> r == None && rejected == old(rejected)
      ensures !fatal ==> block.hash in invalidHeaders.entries
      ensures Records(invalidHeaders.forgetful, old(invalidHeaders.entries), invalidHeaders.entries,
                      if fatal then {} else {block.hash})
      ensures !fatal && block.parent in state.blocksByHash ==> r == Some(InvalidPayload(Some(block.parent)))
      ensures !fatal && !invalidHeaders.forgetful ==>
        && r.Some? && r.value.InvalidPayload?
        && LatestIs(state.blocksByHash, old(invalidHeaders.entries), block.parent, r.value.latestValid)
      ensures !fatal ==>
        && r.Some? && r.value.InvalidPayload? && rejected == old(rejected) + {block.hash}
        && (r.value.latestValid.Some? ==>
              && r.value.latestValid.value in state.blocksByHash
              && exists k: nat :: BlamedDownTo(world, block.parent, k, r.value.latestValid.value, old(rejected)))
    {
      if fatal {
        return None;
      }
      var latestValid := LatestValidHashForInvalidPayload(block.parent);
      ghost var before := Memory(ledger, invalidHeaders.entries, rejected);
      rejected := rejected + {block.hash};
      invalidHeaders.Insert(WithParent(block));
      ReachRefuted(world, rules, genesis, before, block, invalidHeaders.entries);
      return Some(InvalidPayload(latestValid));
    }

    /** Makes a newly stored block canonical, if it is the head to sync to. */
    method FollowSyncTarget(hash: Hash)
      requires Valid()
      modifies this`canonicalHead, this`events, this`ledger, state`canonicalHashesByNumber
      ensures Valid() && buffer.Now() == old(buffer.Now()) && rejected == old(rejected)
      ensures TargetFollowed(syncTarget, hash, old(ledger), ledger)
    {
      if IsSyncTargetHead(hash) {
        MakeCanonical(hash);
      }
    }

    /** Inserts one block taken from the buffer; false for a fatal error. */
    method ConnectBlock(block: Header, proof: Proof) returns (ok: bool)
      requires Valid()
      requires block.hash in world.headers && world.headers[block.hash] == block
      modifies this`events, this`ledger, this`canonicalHead, this`rejected, state, buffer, invalidHeaders
      ensures Valid()
      ensures BlockConnected(rules, syncTarget, buffer.limit, Buffered(block, proof), old(Now()), Now(), ok)
      ensures Records(invalidHeaders.forgetful, old(invalidHeaders.entries), invalidHeaders.entries,
                      if FateOf(rules, old(ledger.blocks), block, Some(proof)).Refuted? then {block.hash} else {})
      ensures !ok ==> CanFault(rules)
    {
      var result := InsertBlock(block, Some(proof));
      match result
      case Failed(fatal) =>
        var status := OnInsertBlockError(block, fatal);
        return status.Some?;
      case AlreadySeen =>
        return true;
      case Inserted(status) =>
        if status.Connected? {
          FollowSyncTarget(block.hash);
        }
        return true;
    }

    /** Takes the blocks linked to a block out of the buffer. */
    method TakeFamily(parentHash: Hash) returns (blocks: seq<Buffered>)
      requires Valid()
      modifies buffer
      ensures Valid() && ledger == old(ledger) && rejected == old(rejected) && events == old(events)
      ensures Lists(blocks, PoolOf(old(buffer.Now()), parentHash))
      ensures buffer.Now() == FamilyTaken(old(buffer.Now()), parentHash)
      ensures |buffer.lru| + |blocks| <= buffer.limit
    {
      ghost var start := buffer.Now();
      blocks := buffer.RemoveBlockWithChildren(parentHash, world);
      TakenMakesRoom(start, Family(start, {parentHash}) * start.proofs.Keys, blocks);
      ExtractsLists(blocks, start, parentHash);
    }

    /**
     * Connects the buffered blocks linked to a block. Without a fatal error exactly those are stored that lie
     * above a stored block through blocks whose proofs verify, those refuted are rejected and recorded, and the
     * others are buffered again; no other block leaves the buffer. So if the block is stored and the proofs of
     * all its linked descendants verify, all of them end up stored, whatever proof the block's own copy carries.
     */
    method TryConnectBufferedBlocks(parentHash: Hash) returns (ok: bool)
      requires Valid()
      modifies this`events, this`ledger, this`canonicalHead, this`rejected, state, buffer, invalidHeaders
      ensures Valid() && invalidHeaders.Keeps(old(invalidHeaders.entries))
      ensures
        if ok then FamilyConnected(world, rules, syncTarget, parentHash, old(Now()), Now())
        else FamilyFaulted(world, rules, syncTarget, parentHash, old(Now()), Now())
      ensures !invalidHeaders.forgetful ==> rejected - old(rejected) <= invalidHeaders.entries.Keys
      ensures old(ledger.blocks).Keys <= ledger.blocks.Keys && old(rejected) <= rejected
      ensures ok ==>
        && Records(invalidHeaders.forgetful, old(invalidHeaders.entries), invalidHeaders.entries,
                   RefusedFamily(world, rules, old(Now()), parentHash))
        && AllSettled(old(Now()), Now())
      ensures !ok ==> CanFault(rules)
      ensures
        forall h | h in old(buffer.blocks) && h !in Family(old(buffer.Now()), {parentHash}) * old(buffer.proofs).Keys ::
          h in buffer.blocks
      ensures
        parentHash in old(ledger.blocks) && FamilyPasses(world, rules, old(buffer.Now()), parentHash) ==>
        ok && Family(old(buffer.Now()), {parentHash}) <= ledger.blocks.Keys
    {
      ghost var before := Now();
      LedgerInv();
      PoolIsReal(world, before.buffer, parentHash);
      var blocks := TakeFamily(parentHash);
      ghost var done;
      ok, done := ConnectAll(blocks, parentHash, before);
      if ok {
        AllHandled(world, rules, syncTarget, parentHash, blocks, before, Now());
        FamilySettles(world, rules, syncTarget, parentHash, before, Now());
      }
      if parentHash in before.ledger.blocks && FamilyPasses(world, rules, before.buffer, parentHash) {
        PassingFamily(world, rules, syncTarget, parentHash, before, Now());
      }
    }

    /** Inserts blocks taken from the buffer one after the other, up to the first fatal error. */
    method ConnectAll(blocks: seq<Buffered>, ghost root: Hash, ghost before: View) returns (ok: bool, ghost done: nat)
      requires Valid() && |buffer.lru| + |blocks| <= buffer.limit
      requires Known(world, before.buffer.blocks) && Lists(blocks, PoolOf(before.buffer, root))
      requires Now() == before.(buffer := FamilyTaken(before.buffer, root))
      modifies this`events, this`ledger, this`canonicalHead, this`rejected, state, buffer, invalidHeaders
      ensures Valid() && done <= |blocks| && (ok <==> done == |blocks|)
      ensures HandledUpTo(world, rules, syncTarget, root, blocks, done, before, Now())
      ensures !ok ==>
        && Judged(world, rules, before.ledger.blocks, PoolOf(before.buffer, root), blocks[done].block.hash, Fault)
        && CanFault(rules)
      ensures Records(invalidHeaders.forgetful, old(invalidHeaders.entries), invalidHeaders.entries,
                      RefusedUpTo(world, rules, root, blocks, done, before))
    {
      NoneHandled(world, rules, syncTarget, root, blocks, before, Now());
      ghost var entries := invalidHeaders.entries;
      for i := 0 to |blocks|
        invariant Valid() && |buffer.lru| + |blocks| - i <= buffer.limit
        invariant HandledUpTo(world, rules, syncTarget, root, blocks, i, before, Now())
        invariant Records(invalidHeaders.forgetful, entries, invalidHeaders.entries,
                          RefusedUpTo(world, rules, root, blocks, i, before))
      {
        ok := ConnectNext(blocks, i, root, before, entries);
        if !ok {
          return false, i;
        }
      }
      return true, |blocks|;
    }

    /** Inserts the next one of the blocks taken from the buffer. */
    method ConnectNext(blocks: seq<Buffered>, i: nat, ghost root: Hash, ghost before: View, ghost entries: Entries)
      returns (ok: bool)
      requires Valid() && |buffer.lru| < buffer.limit && i < |blocks|
      requires Known(world, before.buffer.blocks)
      requires HandledUpTo(world, rules, syncTarget, root, blocks, i, before, Now())
      requires Records(invalidHeaders.forgetful, entries, invalidHeaders.entries,
                       RefusedUpTo(world, rules, root, blocks, i, before))
      modifies this`events, this`ledger, this`canonicalHead, this`rejected, state, buffer, invalidHeaders
      ensures Valid() && |buffer.lru| <= |old(buffer.lru)| + 1
      ensures HandledUpTo(world, rules, syncTarget, root, blocks, if ok then i + 1 else i, before, Now())
      ensures Records(invalidHeaders.forgetful, entries, invalidHeaders.entries,
                      RefusedUpTo(world, rules, root, blocks, if ok then i + 1 else i, before))
      ensures !ok ==>
        && Judged(world, rules, before.ledger.blocks, PoolOf(before.buffer, root), blocks[i].block.hash, Fault)
        && CanFault(rules)
    {
      ghost var mid := Now();
      LedgerInv();
      PoolIsReal(world, before.buffer, root);
      OneMoreRefused(world, rules, syncTarget, root, blocks, i, before, mid);
      ok := ConnectBlock(blocks[i].block, blocks[i].proof);
      OneMoreHandled(world, rules, syncTarget, buffer.limit, root, blocks, i, before, mid, Now(), ok);
    }

    ghost predicate Justified(block: Header, status: PayloadStatus)
      reads this`ledger, this`rejected, buffer
    {
      AnswerJustified(world, ledger.blocks, rejected, buffer.blocks, block, status)
    }

    /** The answer for a block that could not be stored right away, or that failed. */
    method OnNotConnected(block: Header, result: InsertResult, ghost buffered: Blocks)
      returns (r: Option<PayloadOutcome>)
      requires Valid() && block.hash in world.headers && world.headers[block.hash] == block
      requires result.Failed? || (result.Inserted? && !result.status.Connected?)
      requires result.Failed? && !result.fatal ==> CanRefute(world, rules, ledger, block)
      requires result.Failed? && result.fatal ==> CanFault(rules)
      requires result.Inserted? ==> block.hash in buffer.blocks && block.hash !in ledger.blocks
      requires result.Inserted? && result.status.Disconnected? ==>
        EndsAt(buffered, block.parent, result.status.missingAncestor.hash)
      modifies this`rejected, invalidHeaders
      ensures Valid() && Now() == Settling(old(Now()), block, result)
      ensures AnsweredNotStored(old(ledger.blocks), buffered, block, result, r)
      ensures Answered(block, r) && Remembers(old(rejected), old(invalidHeaders.entries))
      ensures LatestFits(old(invalidHeaders.entries), block, r)
    {
      match result
      case Failed(fatal) =>
        var status := OnInsertBlockError(block, fatal);
        if status.None? {
          return None;
        }
        if status.value.latestValid.Some? {
          ghost var k: nat :| BlamedDownTo(world, block.parent, k, status.value.latestValid.value, old(rejected));
          assert BlamedDownTo(world, block.parent, k, status.value.latestValid.value, rejected);
        }
        return Some(PayloadOutcome(status.value, None));
      case Inserted(status) =>
        match status {
          case NoProof => return Some(PayloadOutcome(Syncing, Some(DownloadProof(block.hash))));
          case Disconnected(_, missing) => return Some(PayloadOutcome(Syncing, Some(DownloadBlock(missing.hash))));
        }
    }

    /** What the answer says about the block holds, an invalid block is recorded, and no answer means a fault. */
    ghost predicate Answered(block: Header, r: Option<PayloadOutcome>)
      reads this`ledger, this`rejected, buffer, invalidHeaders
    {
      if r.None? then CanFault(rules)
      else
        && Justified(block, r.value.status)
        && (r.value.status.InvalidPayload? || r.value.status.LinksToInvalid? ==>
              block.hash in invalidHeaders.entries)
    }

    /** Entries and newly rejected blocks are recorded, unless the cache forgets. */
    ghost predicate Remembers(refused: set<Hash>, entries: Entries)
      reads this`rejected, invalidHeaders
    {
      && invalidHeaders.Keeps(entries) && refused <= rejected
      && (!invalidHeaders.forgetful ==> rejected - refused <= invalidHeaders.entries.Keys)
    }

    /** The latest valid hash of an invalid block is the one that these entries determine, unless the cache forgets. */
    ghost predicate LatestFits(entries: Entries, block: Header, r: Option<PayloadOutcome>)
      reads this`ledger
    {
      !invalidHeaders.forgetful && r.Some? && r.value.status.InvalidPayload? ==>
        LatestIs(ledger.blocks, entries, block.parent, r.value.status.latestValid)
    }

    /** Connects what waited for a stored block, which makes it a valid payload; None for a fatal error. */
    method AnswerStored(block: Header) returns (r: Option<PayloadOutcome>)
      requires Valid() && block.hash in ledger.blocks
      modifies this`events, this`ledger, this`canonicalHead, this`rejected, state, buffer, invalidHeaders
      ensures Valid() && old(ledger.blocks).Keys <= ledger.blocks.Keys
      ensures AnsweredStored(world, rules, syncTarget, block.hash, old(Now()), Now(), r)
      ensures Answered(block, r) && Remembers(old(rejected), old(invalidHeaders.entries))
      ensures r.Some? ==> r.value.status.ValidPayload?
    {
      var ok := TryConnectBufferedBlocks(block.hash);
      if !ok {
        return None;
      }
      return Some(PayloadOutcome(ValidPayload(block.hash),
                                 if IsSyncTargetHead(block.hash) then Some(CanonicalizeTarget(block.hash)) else None));
    }

    /** Inserts the block of a payload, and connects what waited for it; None for a fatal error. */
    method InsertPayload(block: Header, maybeProof: Option<Proof>) returns (r: Option<PayloadOutcome>)
      requires Valid() && block.hash in world.headers && world.headers[block.hash] == block
      modifies this`events, this`ledger, this`canonicalHead, this`rejected, state, buffer, invalidHeaders
      ensures Valid() && Answered(block, r) && Remembers(old(rejected), old(invalidHeaders.entries))
      ensures Handled(world, rules, syncTarget, buffer.limit, true, old(Now()), Now(), block, maybeProof, r)
      ensures !Refused(r) && LatestFits(old(invalidHeaders.entries), block, r)
    {
      ghost var before := Now();
      var result := InsertBlock(block, maybeProof);
      if result == AlreadySeen || result == Inserted(Connected) {
        InsertingStored(rules, buffer.limit, true, before, block, maybeProof, result);
        r := AnswerStored(block);
        StoredHandled(world, rules, syncTarget, buffer.limit, true, before, Now(), block, maybeProof, r);
        return;
      }
      r := OnNotConnected(block, result, before.buffer.blocks);
      NotStoredHandled(world, rules, syncTarget, buffer.limit, true, before, Now(), block, maybeProof, result, r);
    }

    /** Refuses a block if the hash looked up for it is recorded as invalid. */
    method RefuseIfRecorded(block: Header, check: Hash, ghost payload: bool) returns (r: Option<PayloadOutcome>)
      requires Valid() && block.hash in world.headers && world.headers[block.hash] == block
      requires CheckedAt(buffer.blocks, block, payload, check) && Reaches(world.headers, block.hash, check)
      modifies invalidHeaders
      ensures Valid() && invalidHeaders.Keeps(old(invalidHeaders.entries))
      ensures r.Some? ==>
        && Refused(r) && r.value.event.None? && Answered(block, r)
        && BelowRecorded(buffer.blocks, old(invalidHeaders.entries), block, payload)
      ensures r.Some? && !invalidHeaders.forgetful ==>
        ExactlyAnswered(old(invalidHeaders.entries), Now(), block, payload, r)
      ensures r.None? && !invalidHeaders.forgetful ==>
        && !BelowRecorded(buffer.blocks, old(invalidHeaders.entries), block, payload)
        && invalidHeaders.entries == old(invalidHeaders.entries)
    {
      CheckedOnce(buffer.blocks, invalidHeaders.entries, block, payload, check);
      var invalid := CheckInvalidAncestorWithHead(check, block.hash);
      if invalid.None? {
        return None;
      }
      if !invalidHeaders.forgetful {
        RefusedExactly(old(invalidHeaders.entries), Now(), block, payload, check, invalid.value.lastValid);
      }
      return Some(PayloadOutcome(invalid.value, None));
    }

    /** Handles a well-formed payload; None for a fatal error. */
    method OnPayloadBlock(block: Header, maybeProof: Option<Proof>) returns (r: Option<PayloadOutcome>)
      requires Valid() && block.hash in world.headers && world.headers[block.hash] == block
      modifies this`events, this`ledger, this`canonicalHead, this`rejected, state, buffer, invalidHeaders
      ensures Valid() && Answered(block, r) && Remembers(old(rejected), old(invalidHeaders.entries))
      ensures BlockAnswered(world, rules, syncTarget, buffer.limit, true, old(invalidHeaders.entries),
                            old(Now()), Now(), block, maybeProof, r)
      ensures !invalidHeaders.forgetful ==>
        ExactlyAnswered(old(invalidHeaders.entries), old(Now()), block, true, r)
    {
      var lowest := LowestBufferedAncestorOr(block.hash);
      if lowest == block.hash {
        ReachesParent(world.headers, block.hash);
        lowest := block.parent;
      }
      r := RefuseIfRecorded(block, lowest, true);
      if r.Some? {
        return;
      }
      r := InsertPayload(block, maybeProof);
      if !invalidHeaders.forgetful {
        HandledExactly(old(invalidHeaders.entries), old(Now()), block, true, r);
      }
    }

    /**
     * What the answer to a block means: what it says of the block holds and fits the event, a valid one means
     * that the block is stored, and an invalid one changes no block and is recorded.
     */
    ghost predicate AnswerHolds(before: View, block: Header, maybeProof: Option<Proof>, r: Option<PayloadOutcome>)
      reads this`ledger, this`rejected, this`syncTarget, buffer, invalidHeaders
    {
      && Answered(block, r) && before.ledger.blocks.Keys <= ledger.blocks.Keys
      && (r.Some? ==> EventFits(world, syncTarget, block, r.value))
      && (r.Some? && (r.value.status.InvalidPayload? || r.value.status.LinksToInvalid?) ==>
            ledger == before.ledger && buffer.Now() == before.buffer)
      && (maybeProof.Some? && !Refused(r) ==>
            && (RefutedBy(world, rules, before.ledger, block, maybeProof.value) ==>
                  r.Some? && r.value.status.InvalidPayload?)
            && (block.parent in before.ledger.blocks && Passes(world, rules, block, maybeProof.value) ==>
                  && block.hash in ledger.blocks && (r.Some? ==> r.value.status.ValidPayload?)))
    }

    /** Handles a payload from the consensus client; None for a fatal error. */
    method OnNewPayload(payload: Payload, maybeProof: Option<Proof>) returns (r: Option<PayloadOutcome>)
      requires Valid()
      requires payload.WellFormed? ==>
        payload.block.hash in world.headers && world.headers[payload.block.hash] == payload.block
      modifies this`events, this`ledger, this`canonicalHead, this`rejected, state, buffer, invalidHeaders
      ensures Valid() && Remembers(old(rejected), old(invalidHeaders.entries))
      ensures syncTarget == old(syncTarget)
      ensures payload.WellFormed? ==>
        && BlockAnswered(world, rules, syncTarget, buffer.limit, true, old(invalidHeaders.entries),
                         old(Now()), Now(), payload.block, maybeProof, r)
        && (!invalidHeaders.forgetful ==>
              ExactlyAnswered(old(invalidHeaders.entries), old(Now()), payload.block, true, r))
      ensures payload.WellFormed? && Refused(r) && payload.block.hash !in old(buffer.blocks) ==>
        payload.block.parent in old(invalidHeaders.entries)
      ensures
        (&& payload.WellFormed? && !invalidHeaders.forgetful && payload.block.hash !in old(buffer.blocks)
         && payload.block.parent in old(invalidHeaders.entries)) ==> Refused(r)
      ensures payload.WellFormed? ==> AnswerHolds(old(Now()), payload.block, maybeProof, r)
      ensures payload.WellFormed? && r.Some? && r.value.status.ValidPayload? ==>
        ValidMeans(world, rules, syncTarget, old(Now()), Now(), payload.block, maybeProof, r.value)
      ensures payload.Malformed? ==>
        && r.Some? && r.value.status.InvalidPayload? && r.value.event == None && Now() == old(Now())
        && (payload.hashMismatch ==> r.value.status.latestValid == None)
        && LatestJustified(payload.parent, r.value.status.latestValid)
        && (!payload.hashMismatch && payload.parent in ledger.blocks ==>
              r.value.status.latestValid == Some(payload.parent))
        && (!payload.hashMismatch && !invalidHeaders.forgetful ==>
              LatestIs(ledger.blocks, old(invalidHeaders.entries), payload.parent, r.value.status.latestValid))
    {
      if payload.Malformed? {
        var latestValid: Option<Hash> := None;
        if !payload.hashMismatch {
          latestValid := LatestValidHashForInvalidPayload(payload.parent);
        }
        return Some(PayloadOutcome(InvalidPayload(latestValid), None));
      }
      LedgerInv();
      r := OnPayloadBlock(payload.block, maybeProof);
      if payload.block.hash !in old(buffer.blocks) {
        CheckedOnce(old(buffer.blocks), old(invalidHeaders.entries), payload.block, true, payload.block.parent);
      }
      AnsweredMeans(old(invalidHeaders.entries), true, old(Now()), payload.block, maybeProof, r);
    }

    /** What follows from the way a block was answered. */
    lemma AnsweredMeans(entries: Entries, payload: bool, before: View, block: Header, maybeProof: Option<Proof>,
                        r: Option<PayloadOutcome>)
      requires Known(world, before.ledger.blocks) && Known(world, before.buffer.blocks)
      requires block.hash in world.headers && world.headers[block.hash] == block
      requires BlockAnswered(world, rules, syncTarget, buffer.limit, payload, entries, before, Now(), block,
                             maybeProof, r)
      requires Answered(block, r)
      ensures AnswerHolds(before, block, maybeProof, r)
      ensures r.Some? && r.value.status.ValidPayload? && (payload || block.hash !in before.ledger.blocks) ==>
        ValidMeans(world, rules, syncTarget, before, Now(), block, maybeProof, r.value)
    {
      if !Refused(r) {
        HandledGrows(world, rules, syncTarget, buffer.limit, payload, before, Now(), block, maybeProof, r);
        HandledRefuted(world, rules, syncTarget, buffer.limit, payload, before, Now(), block, maybeProof, r);
        HandledFits(world, rules, syncTarget, buffer.limit, payload, before, Now(), block, maybeProof, r);
        if OnceStored(rules, payload, before.ledger.blocks, block, maybeProof) {
          HandledValid(world, rules, syncTarget, buffer.limit, payload, before, Now(), block, maybeProof, r);
        }
      }
    }

    /** A reported hash is stored, and everything from the parent down to it is blamed. */
    ghost predicate LatestJustified(parent: Hash, latest: Option<Hash>)
      reads this`ledger, this`rejected
    {
      latest.Some? ==>
        latest.value in ledger.blocks && exists k: nat :: BlamedDownTo(world, parent, k, latest.value, rejected)
    }

    /** Inserts a downloaded block, and connects what waited for it if it is new; None for a fatal error. */
    method InsertDownload(block: Header, proof: Proof) returns (r: Option<PayloadOutcome>)
      requires Valid() && block.hash in world.headers && world.headers[block.hash] == block
      modifies this`events, this`ledger, this`canonicalHead, this`rejected, state, buffer, invalidHeaders
      ensures Valid() && Answered(block, r) && Remembers(old(rejected), old(invalidHeaders.entries))
      ensures Handled(world, rules, syncTarget, buffer.limit, false, old(Now()), Now(), block, Some(proof), r)
      ensures !Refused(r) && LatestFits(old(invalidHeaders.entries), block, r)
    {
      ghost var before := Now();
      var result := InsertBlock(block, Some(proof));
      if result == Inserted(Connected) {
        InsertingStored(rules, buffer.limit, false, before, block, Some(proof), result);
        r := AnswerStored(block);
        StoredHandled(world, rules, syncTarget, buffer.limit, false, before, Now(), block, Some(proof), r);
        return;
      }
      if result == AlreadySeen {
        return Some(PayloadOutcome(ValidPayload(block.hash), None));
      }
      r := OnNotConnected(block, result, before.buffer.blocks);
      NotStoredHandled(world, rules, syncTarget, buffer.limit, false, before, Now(), block, Some(proof), result, r);
    }

    /** Checks and inserts a downloaded block; None for a fatal error. */
    method TryDownloadedBlock(block: Header, proof: Proof) returns (r: Option<PayloadOutcome>)
      requires Valid() && block.hash in world.headers && world.headers[block.hash] == block
      modifies this`events, this`ledger, this`canonicalHead, this`rejected, state, buffer, invalidHeaders
      ensures Valid() && Answered(block, r) && Remembers(old(rejected), old(invalidHeaders.entries))
      ensures BlockAnswered(world, rules, syncTarget, buffer.limit, false, old(invalidHeaders.entries),
                            old(Now()), Now(), block, Some(proof), r)
      ensures !invalidHeaders.forgetful ==>
        ExactlyAnswered(old(invalidHeaders.entries), old(Now()), block, false, r)
    {
      var lowest := LowestBufferedAncestorOr(block.hash);
      r := RefuseIfRecorded(block, lowest, false);
      if r.Some? {
        return;
      }
      r := InsertDownload(block, proof);
      if !invalidHeaders.forgetful {
        HandledExactly(old(invalidHeaders.entries), old(Now()), block, false, r);
      }
    }

    /** Handles a downloaded block; None for a fatal error. */
    method OnDownloadedBlock(block: Header, proof: Proof) returns (r: Option<PayloadOutcome>)
      requires Valid() && block.hash in world.headers && world.headers[block.hash] == block
      modifies this`events, this`ledger, this`canonicalHead, this`rejected, state, buffer, invalidHeaders
      ensures Valid() && Remembers(old(rejected), old(invalidHeaders.entries))
      ensures syncTarget == old(syncTarget)
      ensures BlockAnswered(world, rules, syncTarget, buffer.limit, false, old(invalidHeaders.entries),
                            old(Now()), Now(), block, Some(proof), r)
      ensures !invalidHeaders.forgetful ==>
        ExactlyAnswered(old(invalidHeaders.entries), old(Now()), block, false, r)
      ensures AnswerHolds(old(Now()), block, Some(proof), r)
      ensures r.Some? && r.value.status.ValidPayload? && block.hash !in old(ledger.blocks) ==>
        ValidMeans(world, rules, syncTarget, old(Now()), Now(), block, Some(proof), r.value)
      ensures r.Some? && r.value.status.Syncing? ==> block.parent !in old(ledger.blocks)
    {
      LedgerInv();
      r := TryDownloadedBlock(block, proof);
      AnsweredMeans(old(invalidHeaders.entries), false, old(Now()), block, Some(proof), r);
    }

    /** Whether the non-zero safe and finalized hashes are on the canonical index. */
    method EnsureConsistentForkchoiceState(fc: ForkchoiceState) returns (ok: bool)
      requires state.Valid()
      ensures ok <==>
        forall h | h in {fc.finalized, fc.safe} && h != ZERO :: h in state.canonicalHashesByNumber.Values
    {
      if fc.finalized != ZERO && !state.IsHashCanonical(fc.finalized) {
        return false;
      }
      if fc.safe != ZERO && !state.IsHashCanonical(fc.safe) {
        return false;
      }
      return true;
    }

    /** An answer right away: for the zero hash, or for a head below a recorded block. */
    method PreValidateForkchoiceUpdate(fc: ForkchoiceState) returns (r: Option<ForkchoiceStatus>)
      requires Valid()
      modifies invalidHeaders
      ensures Valid()
      ensures fc.head == ZERO ==> r == Some(InvalidState)
      ensures r.Some? && r.value.InvalidHead? ==> LinkJustified(fc.head, LinksToInvalid(r.value.latest))
      ensures r.Some? ==> r.value.InvalidHead? || (r.value.InvalidState? && fc.head == ZERO)
      ensures r.Some? && r.value.InvalidHead? ==>
        fc.head != ZERO && RecordedBelow(buffer.blocks, old(invalidHeaders.entries), fc.head)
      ensures r.Some? && !invalidHeaders.forgetful ==>
        HeadExactly(fc, old(invalidHeaders.entries), Now(), r.value)
      ensures r.None? && !invalidHeaders.forgetful ==>
        !RecordedBelow(buffer.blocks, old(invalidHeaders.entries), fc.head)
    {
      if fc.head == ZERO {
        return Some(InvalidState);
      }
      var lowest := LowestBufferedAncestorOr(fc.head);
      RecordedOnce(buffer.blocks, invalidHeaders.entries, fc.head, lowest);
      var status := CheckInvalidAncestor(lowest);
      if status.None? {
        return None;
      }
      LinkFromBelow(fc.head, lowest, status.value);
      if !invalidHeaders.forgetful {
        HeadRefusedExactly(fc, old(invalidHeaders.entries), Now(), lowest, status.value.lastValid);
      }
      return Some(InvalidHead(status.value.lastValid));
    }

    /** An answer for an ancestor holds for everything above it. */
    lemma LinkFromBelow(head: Hash, lowest: Hash, status: PayloadStatus)
      requires Reaches(world.headers, head, lowest) && LinkJustified(lowest, status)
      ensures LinkJustified(head, status)
    {
      BlamedBelow(world, head, lowest, rejected);
      if status.lastValid != ZERO {
        var k := BlamedStretch(world, head, lowest, rejected);
        var j: nat :| BlamedDownTo(world, lowest, j, status.lastValid, rejected);
        BlamedConcat(world, head, k, lowest, j, status.lastValid, rejected);
      }
    }

    /** What to download so that the head can be reached: the download is of a real ancestor-or-self. */
    method SyncEvent(fc: ForkchoiceState) returns (event: Option<TreeEvent>)
      requires Valid()
      ensures SyncsTo(ledger.blocks, buffer.blocks, fc, event)
      ensures event.Some? && event.value.DownloadBlock? ==>
        Reaches(world.headers, fc.safe, event.value.hash) || Reaches(world.headers, fc.head, event.value.hash)
    {
      if fc.finalized != ZERO && !IsBlockPersistedOrBuffered(fc.finalized) {
        return Some(DownloadFinalized(fc.finalized));
      }
      var start := if fc.safe != ZERO && !IsBlockPersistedOrBuffered(fc.safe) then fc.safe else fc.head;
      var target := LowestBufferedAncestorOr(start);
      if target != fc.finalized && !IsBlockPersistedOrBuffered(target) {
        return Some(DownloadBlock(target));
      }
      assert LeadsTo(ledger.blocks, buffer.blocks, start, fc.finalized);
      return None;
    }

    /** The non-zero safe and finalized blocks are real, and the head's ancestors where the index is contiguous. */
    ghost predicate Anchored(fc: ForkchoiceState, s: Ledger) {
      forall h | h in {fc.finalized, fc.safe} && h != ZERO ::
        h in world.headers && (s.lo <= world.headers[h].number ==> Reaches(world.headers, s.head.hash, h))
    }

    /** Where the index is sound, the head is stored and the safe and finalized blocks are its ancestors. */
    ghost predicate AnchoredIfSound(fc: ForkchoiceState, s: Ledger) {
      IndexOk(world, s) ==> Anchored(fc, s) && s.head.hash in s.blocks
    }

    lemma CanonicalAnchors(fc: ForkchoiceState, s: Ledger)
      requires StoreOk(world, rules, s)
      requires forall h | h in {fc.finalized, fc.safe} && h != ZERO :: h in s.canon.Values
      ensures AnchoredIfSound(fc, s)
    {
      if IndexOk(world, s) {
        forall h | h in {fc.finalized, fc.safe} && h != ZERO
          ensures h in world.headers && (s.lo <= world.headers[h].number ==> Reaches(world.headers, s.head.hash, h))
        {
          IndexedUnderNumber(world, s, h);
          if s.lo <= world.headers[h].number {
            BlockHashes.CanonicalIsAncestor(world, s, h);
          }
        }
      }
    }

    /** The same after cleaning up at the finalized block, also where only that makes the index sound. */
    lemma AnchoredAfterCleanUp(fc: ForkchoiceState, s: Ledger)
      requires StoreOk(world, rules, s)
      requires forall h | h in {fc.finalized, fc.safe} && h != ZERO :: h in s.canon.Values
      ensures AnchoredIfSound(fc, CleanedUp(s, fc.finalized))
    {
      var cleaned := CleanedUp(s, fc.finalized);
      if IndexOk(world, cleaned) {
        forall h | h in {fc.finalized, fc.safe} && h != ZERO
          ensures h in world.headers
          ensures cleaned.lo <= world.headers[h].number ==> Reaches(world.headers, cleaned.head.hash, h)
        {
          StillAnchored(s, fc.finalized, h);
        }
      }
    }

    lemma StillAnchored(s: Ledger, finalized: Hash, h: Hash)
      requires StoreOk(world, rules, s) && h in s.canon.Values && IndexOk(world, CleanedUp(s, finalized))
      ensures
        var cleaned := CleanedUp(s, finalized);
        && h in world.headers
        && (cleaned.lo <= world.headers[h].number ==> Reaches(world.headers, cleaned.head.hash, h))
    {
      var cleaned := CleanedUp(s, finalized);
      var n :| n in s.canon && s.canon[n] == h;
      if cleaned.lo <= n {
        assert n in cleaned.canon && cleaned.canon[n] == h;
        BlockHashes.CanonicalIsAncestor(world, cleaned, h);
      }
    }

    /** Drops what a finalized block makes obsolete from the store and the index. */
    method PruneFinalized(finalized: Hash)
      requires Valid() && (finalized != ZERO ==> finalized in ledger.canon.Values)
      modifies this`events, this`ledger, state
      ensures Valid() && rejected == old(rejected) && buffer.Now() == old(buffer.Now())
      ensures finalized in old(ledger.blocks) ==>
        && ledger == Pruned(old(ledger), old(ledger.blocks)[finalized].number)
        && events == old(events) + [Prune(finalized)]
        && state.BlockNumber(finalized) == Some(old(ledger.blocks)[finalized].number)
      ensures finalized !in old(ledger.blocks) ==>
        ledger == old(ledger) && events == old(events) && state.BlockNumber(finalized) == None
    {
      LedgerInv();
      ghost var before := ledger;
      OnFinalized(finalized);
      if finalized in before.blocks {
        Moved(before, Prune(finalized));
      }
    }

    /** Evicts old blocks from the buffer. */
    method EvictBuffered(number: nat)
      requires Valid()
      modifies buffer
      ensures Valid() && ledger == old(ledger) && events == old(events) && rejected == old(rejected)
      ensures buffer.Now() == Drop(old(buffer.Now()), Family(old(buffer.Now()), Old(old(buffer.blocks), number)))
    {
      buffer.EvictOldBlocks(number);
    }

    /** Drops what a finalized block makes obsolete from the store, the index and the buffer. */
    method CleanUpFinalized(finalized: Hash)
      requires Valid() && (finalized != ZERO ==> finalized in ledger.canon.Values)
      modifies this`events, this`ledger, state, buffer
      ensures Valid() && rejected == old(rejected)
      ensures finalized in old(ledger.blocks) ==>
        var number := old(ledger.blocks)[finalized].number;
        && ledger == Pruned(old(ledger), number)
        && events == old(events) + [Prune(finalized)]
        && buffer.Now() == Drop(old(buffer.Now()), Family(old(buffer.Now()), Old(old(buffer.blocks), number)))
      ensures finalized !in old(ledger.blocks) ==>
        ledger == old(ledger) && events == old(events) && buffer.Now() == old(buffer.Now())
    {
      PruneFinalized(finalized);
      var finalizedNumber := state.BlockNumber(finalized);
      if finalizedNumber.Some? {
        EvictBuffered(finalizedNumber.value);
      }
    }

    /** Makes the requested head canonical, and cleans up if the requested state is consistent with it. */
    method AdvanceHead(fc: ForkchoiceState, chainUpdate: NewCanonicalChain) returns (ok: bool)
      requires Valid() && IsUpdate(ledger.blocks, canonicalHead.hash, fc.head, chainUpdate)
      modifies this`events, this`ledger, this`canonicalHead, state, buffer
      ensures Valid() && rejected == old(rejected) && canonicalHead.hash == fc.head
      ensures ok <==> Consistent(fc, Updated(old(ledger), chainUpdate))
      ensures !ok ==>
        && events == old(events) + [Update(fc.head, chainUpdate)] && ledger == Updated(old(ledger), chainUpdate)
        && buffer.Now() == old(buffer.Now())
        && exists h :: h in {fc.finalized, fc.safe} && h != ZERO && h !in ledger.canon.Values
      ensures ok ==>
        var updated := Updated(old(ledger), chainUpdate);
        && (forall h | h in {fc.finalized, fc.safe} && h != ZERO :: h in updated.canon.Values)
        && ledger == CleanedUp(updated, fc.finalized)
        && buffer.Now() == Swept(old(buffer.Now()), updated.blocks, fc.finalized)
      ensures ok ==> AnchoredIfSound(fc, ledger)
    {
      OnCanonicalChainUpdate(chainUpdate, fc.head);
      ok := EnsureConsistentForkchoiceState(fc);
      if !ok {
        return;
      }
      LedgerInv();
      AnchoredAfterCleanUp(fc, ledger);
      CleanUpFinalized(fc.finalized);
    }

    /** The requested head is canonical already. */
    method KeepHead(fc: ForkchoiceState, attributesOk: Option<bool>) returns (r: ForkchoiceStatus)
      requires Valid() && canonicalHead.hash == fc.head
      ensures Decided(fc, attributesOk, Now(), Now(), r)
      ensures r.ValidHead? ==> AnchoredIfSound(fc, ledger)
    {
      LedgerInv();
      var consistent := EnsureConsistentForkchoiceState(fc);
      if !consistent {
        return InvalidState;
      }
      CanonicalAnchors(fc, ledger);
      if attributesOk.Some? {
        if canonicalHead.hash !in state.blocksByHash {
          return MissingHeader;
        }
        if !attributesOk.value {
          return InvalidAttributes;
        }
      }
      return ValidHead;
    }

    /** The requested head is not canonical yet: it becomes so, is stored at least, or has to be synced to. */
    method SeekHead(fc: ForkchoiceState, attributesOk: Option<bool>)
      returns (r: ForkchoiceStatus, event: Option<TreeEvent>)
      requires Valid() && canonicalHead.hash != fc.head
      modifies this`events, this`ledger, this`canonicalHead, state, buffer
      ensures Valid() && rejected == old(rejected)
      ensures Decided(fc, attributesOk, old(Now()), Now(), r)
      ensures if r.SyncingHead? then SyncsTo(ledger.blocks, buffer.blocks, fc, event) else event == None
      ensures r.ValidHead? && canonicalHead.hash == fc.head ==> AnchoredIfSound(fc, ledger)
    {
      event := None;
      var chainUpdate := OnNewHead(fc.head);
      if chainUpdate.Some? {
        var consistent := AdvanceHead(fc, chainUpdate.value);
        assert HeadMoved(fc, attributesOk, Updated(old(ledger), chainUpdate.value), old(Now()), Now(),
                         if consistent then Accepted(attributesOk) else InvalidState);
        if !consistent {
          return InvalidState, None;
        }
        if attributesOk == Some(false) {
          return InvalidAttributes, None;
        }
        return ValidHead, None;
      }
      if fc.head in state.blocksByHash {
        return ValidHead, None;
      }
      event := SyncEvent(fc);
      return SyncingHead, event;
    }

    /** What the answer to a fork-choice state says about it. */
    ghost predicate HeadAnswered(fc: ForkchoiceState, attributesOk: Option<bool>, r: ForkchoiceStatus)
      reads this`ledger, this`canonicalHead, this`rejected
    {
      match r
      case ValidHead => canonicalHead.hash == fc.head ==> AnchoredIfSound(fc, ledger)
      case SyncingHead => fc.head !in ledger.blocks
      case InvalidHead(latest) => LinkJustified(fc.head, LinksToInvalid(latest))
      case InvalidState => fc.head == ZERO || !Consistent(fc, ledger)
      case InvalidAttributes => attributesOk == Some(false)
      case MissingHeader => fc.head == canonicalHead.hash && fc.head !in ledger.blocks
    }

    /** Handles a fork-choice state that is not turned down at once. */
    method DecideForkchoice(fc: ForkchoiceState, attributesOk: Option<bool>)
      returns (r: ForkchoiceStatus, event: Option<TreeEvent>)
      requires Valid()
      modifies this`events, this`ledger, this`canonicalHead, state, buffer
      ensures Valid() && rejected == old(rejected) && syncTarget == old(syncTarget)
      ensures Decided(fc, attributesOk, old(Now()), Now(), r) && !r.InvalidHead?
      ensures r.SyncingHead? <==>
        && fc.head != old(canonicalHead.hash) && fc.head !in old(ledger.blocks)
        && !CanAdvance(old(ledger.blocks), old(canonicalHead.hash), fc.head)
      ensures r.InvalidState? <==> Inconsistent(fc, old(ledger))
      ensures HeadAnswered(fc, attributesOk, r)
      ensures r.ValidHead? && IndexOk(world, ledger) ==> fc.head in ledger.blocks
      ensures r.SyncingHead? ==> ledger == old(ledger)
      ensures OnlyMovedTo(fc, old(ledger), ledger, r)
      ensures
        r.ValidHead? && CanAdvance(old(ledger.blocks), old(canonicalHead.hash), fc.head) ==>
        canonicalHead.hash == fc.head
      ensures IndexOk(world, old(ledger)) ==> !r.MissingHeader?
      ensures if r.SyncingHead? then SyncsTo(ledger.blocks, buffer.blocks, fc, event) else event == None
      ensures attributesOk == Some(false) && canonicalHead.hash == fc.head ==> !r.ValidHead?
    {
      event := None;
      if canonicalHead.hash == fc.head {
        r := KeepHead(fc, attributesOk);
      } else {
        r, event := SeekHead(fc, attributesOk);
      }
      DecidedStatus(fc, attributesOk, old(Now()), Now(), r);
      DecidedHead(world, fc, attributesOk, old(Now()), Now(), r);
    }

    /**
     * Handles a fork-choice update. An answer of valid with the requested head canonical means that the head
     * is stored and the safe and finalized blocks are its ancestors, as far as the index is contiguous, whenever
     * the index is sound. Only the requested head can become canonical, but it may do so even when the answer is
     * not valid. Syncing is the answer exactly for an unknown head that no update leads to, and the state is
     * invalid exactly if the head is or becomes canonical and the safe or finalized block is not.
     */
    method OnForkchoiceUpdated(fc: ForkchoiceState, attributesOk: Option<bool>)
      returns (r: ForkchoiceStatus, event: Option<TreeEvent>)
      requires Valid()
      modifies this`events, this`ledger, this`canonicalHead, state, buffer, invalidHeaders
      ensures Valid() && rejected == old(rejected)
      ensures syncTarget == old(syncTarget)
      ensures ForkchoiceHandled(fc, attributesOk, old(invalidHeaders.entries), old(Now()), Now(), r)
      ensures !invalidHeaders.forgetful ==> HeadExactly(fc, old(invalidHeaders.entries), old(Now()), r)
      ensures fc.head != ZERO && !r.InvalidHead? ==>
        && (r.SyncingHead? <==>
              && fc.head != old(canonicalHead.hash) && fc.head !in old(ledger.blocks)
              && !CanAdvance(old(ledger.blocks), old(canonicalHead.hash), fc.head))
        && (r.InvalidState? <==> Inconsistent(fc, old(ledger)))
      ensures HeadAnswered(fc, attributesOk, r)
      ensures r.ValidHead? && IndexOk(world, ledger) ==> fc.head in ledger.blocks
      ensures r.InvalidHead? || r.SyncingHead? ==> ledger == old(ledger)
      ensures OnlyMovedTo(fc, old(ledger), ledger, r)
      ensures
        r.ValidHead? && CanAdvance(old(ledger.blocks), old(canonicalHead.hash), fc.head) ==>
        canonicalHead.hash == fc.head
      ensures IndexOk(world, old(ledger)) ==> !r.MissingHeader?
      ensures if r.SyncingHead? then SyncsTo(ledger.blocks, buffer.blocks, fc, event) else event == None
      ensures attributesOk == Some(false) && canonicalHead.hash == fc.head ==> !r.ValidHead?
    {
      event := None;
      var early := PreValidateForkchoiceUpdate(fc);
      if early.Some? {
        return early.value, None;
      }
      r, event := DecideForkchoice(fc, attributesOk);
    }

    /** Makes a downloaded finalized block the head. */
    method AcceptCheckpoint(checkpoint: Header, ancestors: seq<Header>)
      requires Valid() && CheckpointOk(world, checkpoint, ancestors)
      modifies this`canonicalHead, this`events, this`ledger, state
      ensures Valid() && Now() == old(Now()).(ledger := Jumped(old(ledger), checkpoint, ancestors))
      ensures events == old(events) + [Jump(checkpoint, ancestors)]
    {
      ghost var before := ledger;
      JumpToCheckpoint(checkpoint, ancestors);
      Moved(before, Jump(checkpoint, ancestors));
    }

    /** Takes one block with a proof out of the buffer. */
    method TakeBuffered(hash: Hash) returns (r: Option<Buffered>)
      requires Valid()
      modifies buffer
      ensures Valid()
      ensures r.Some? <==> hash in old(buffer.blocks) && hash in old(buffer.proofs)
      ensures r.Some? ==> r.value == Buffered(old(buffer.blocks)[hash], old(buffer.proofs)[hash])
      ensures r.Some? ==> r.value.block.hash == hash && hash in world.headers && world.headers[hash] == r.value.block
      ensures Now() ==
        if r.Some? then old(Now()).(buffer := Drop(old(buffer.Now()), {hash})) else old(Now())
    {
      r := buffer.RemoveBlock(hash);
    }

    method BufferProof(hash: Hash, proof: Proof)
      requires Valid()
      modifies buffer
      ensures Valid() && Now() == old(Now()).(buffer := WithProof(old(buffer.Now()), hash, Some(proof)))
    {
      buffer.InsertProof(hash, proof);
    }

    method UnbufferProof(hash: Hash) returns (r: Option<Proof>)
      requires Valid()
      modifies buffer
      ensures Valid() && r == Get(old(buffer.proofs), hash)
      ensures Now() == old(Now()).(buffer := old(buffer.Now()).(proofs := old(buffer.proofs) - {hash}))
    {
      r := buffer.RemoveProof(hash);
    }

    method BufferDownloaded(block: Header)
      requires Valid() && block.hash in world.headers && world.headers[block.hash] == block
      modifies buffer
      ensures Valid() && Now() == WithBuffered(old(Now()), buffer.limit, block, None)
      ensures block.hash in buffer.blocks
      ensures block.hash in buffer.proofs <==> block.hash in old(buffer.proofs)
    {
      BufferBlock(block, None);
    }

    /**
     * Remembers the head to sync to, or that there is none once a head was answered valid; invalid payload
     * attributes do not make the head invalid.
     */
    method TrackForkchoice(head: Hash, status: ForkchoiceStatus)
      requires Valid()
      modifies this`syncTarget
      ensures Valid() && ledger == old(ledger)
      ensures syncTarget == Tracked(old(syncTarget), head, status)
      ensures status.SyncingHead? ==> IsSyncTargetHead(head)
      ensures status.ValidHead? || status.InvalidAttributes? ==> syncTarget == None
      ensures status.InvalidHead? || status.InvalidState? || status.MissingHeader? ==> syncTarget == old(syncTarget)
    {
      if status.ValidHead? || status.InvalidAttributes? {
        syncTarget := None;
      } else if status.SyncingHead? {
        syncTarget := Some(head);
      }
    }
  }
}
