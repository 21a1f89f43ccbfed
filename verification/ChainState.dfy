/** The store of validated blocks and the canonical number index, with the provider's updates of them. */
module ChainStates {
  import opened Chain
  import NumberIndex

  /** How far below the finalized block the canonical index is kept. */
  const BLOCK_HASH_WINDOW: nat := 256

  type Canon = map<nat, Hash>

  /** The lowest number the index keeps when pruning at the given finalized number. */
  function WindowStart(finalized: nat): nat {
    if finalized < BLOCK_HASH_WINDOW then 0 else finalized - BLOCK_HASH_WINDOW
  }

  ghost function RemoveCanonical(canon: Canon, b: Header): Canon {
    if b.number in canon && canon[b.number] == b.hash then canon - {b.number} else canon
  }

  ghost function RemoveAll(canon: Canon, removed: seq<Header>): Canon
    decreases |removed|
  {
    if removed == [] then canon
    else RemoveCanonical(RemoveAll(canon, removed[..|removed| - 1]), removed[|removed| - 1])
  }

  ghost function InsertAll(canon: Canon, added: seq<Header>): Canon
    decreases |added|
  {
    if added == [] then canon
    else InsertAll(canon, added[..|added| - 1])[added[|added| - 1].number := added[|added| - 1].hash]
  }

  /** The blocks that survive pruning below the given number. */
  ghost function BlocksFrom(blocks: Blocks, number: nat): Blocks {
    map h | h in blocks && number <= blocks[h].number :: blocks[h]
  }

  /** The proofs whose blocks are still stored. */
  ghost function ProofsOf(proofs: map<Hash, Proof>, blocks: Blocks): map<Hash, Proof> {
    map h | h in proofs && h in blocks :: proofs[h]
  }

  /** Some blocks below the number are gone from the store, each with its proof, and nothing else changed. */
  ghost predicate PartlyPruned(blocks: Blocks, proofs: map<Hash, Proof>, blocks': Blocks, proofs': map<Hash, Proof>,
                               number: nat)
  {
    && (forall h | h in blocks' :: h in blocks && blocks[h] == blocks'[h])
    && (forall h | h in blocks && number <= blocks[h].number :: h in blocks')
    && proofs' == ProofsOf(proofs, blocks')
  }

  lemma PruneMore(blocks: Blocks, proofs: map<Hash, Proof>, blocks': Blocks, proofs': map<Hash, Proof>, number: nat,
                  hashes: set<Hash>)
    requires PartlyPruned(blocks, proofs, blocks', proofs', number)
    requires forall h | h in hashes :: h in blocks' && blocks'[h].number < number
    ensures PartlyPruned(blocks, proofs, blocks' - hashes, proofs' - hashes, number)
  {
  }

  ghost function CanonFrom(canon: Canon, number: nat): Canon {
    map n | n in canon && number <= n :: canon[n]
  }

  /** What looking up the ancestor at a number finds, starting from the given block. */
  ghost function Lookup(w: World, blocks: Blocks, canon: Canon, from: NumHash, number: nat): Option<Hash>
    requires Proper(w) && Known(w, blocks)
    decreases w.rank(from.hash)
  {
    if from.hash in blocks then
      var b := blocks[from.hash];
      if b.number == number then Some(b.hash) else Lookup(w, blocks, canon, ParentNumHash(b), number)
    else if number <= from.number && Get(canon, from.number) == Some(from.hash) then Get(canon, number)
    else None
  }

  class ChainState {
    var canonicalHashesByNumber: Canon
    var blocksByHash: Blocks
    var blockHashesByNumber: NumberIndex.Index
    var proofs: map<Hash, Proof>

    /** The number index mirrors the block store, and every proof belongs to a stored block. */
    ghost predicate Valid()
      reads this
    {
      && NumberIndex.Mirrors(blockHashesByNumber, blocksByHash)
      && proofs.Keys <= blocksByHash.Keys
    }

    constructor ()
      ensures Valid()
      ensures canonicalHashesByNumber == map[] && blocksByHash == map[] && proofs == map[]
    {
      canonicalHashesByNumber, blocksByHash, blockHashesByNumber, proofs := map[], map[], map[], map[];
    }

    function BlockNumber(hash: Hash): Option<nat>
      reads this
    {
      if hash in blocksByHash then Some(blocksByHash[hash].number) else None
    }

    function IsHashCanonical(hash: Hash): bool
      reads this
    {
      hash in canonicalHashesByNumber.Values
    }

    method BlockHash(parent: NumHash, number: nat, ghost w: World) returns (r: Option<Hash>)
      requires Proper(w) && Known(w, blocksByHash)
      ensures r == Lookup(w, blocksByHash, canonicalHashesByNumber, parent, number)
    {
      var ancestor := parent;
      while ancestor.hash in blocksByHash
        invariant Lookup(w, blocksByHash, canonicalHashesByNumber, parent, number)
               == Lookup(w, blocksByHash, canonicalHashesByNumber, ancestor, number)
        decreases w.rank(ancestor.hash)
      {
        var block := blocksByHash[ancestor.hash];
        if block.number == number {
          return Some(block.hash);
        }
        ancestor := ParentNumHash(block);
      }
      if number <= ancestor.number && Get(canonicalHashesByNumber, ancestor.number) == Some(ancestor.hash) {
        return Get(canonicalHashesByNumber, number);
      }
      return None;
    }

    method InsertCanonicalHash(number: nat, hash: Hash)
      modifies this`canonicalHashesByNumber
      ensures canonicalHashesByNumber == old(canonicalHashesByNumber)[number := hash]
    {
      canonicalHashesByNumber := canonicalHashesByNumber[number := hash];
    }

    method RemoveCanonicalHash(number: nat, hash: Hash)
      modifies this`canonicalHashesByNumber
      ensures canonicalHashesByNumber ==
        if number in old(canonicalHashesByNumber) && old(canonicalHashesByNumber)[number] == hash
        then old(canonicalHashesByNumber) - {number} else old(canonicalHashesByNumber)
    {
      if number in canonicalHashesByNumber && canonicalHashesByNumber[number] == hash {
        canonicalHashesByNumber := canonicalHashesByNumber - {number};
      }
    }

    method InsertBlock(block: Header, maybeProof: Option<Proof>)
      requires Valid()
      requires block.hash in blocksByHash ==> blocksByHash[block.hash].number == block.number
      modifies this`blockHashesByNumber, this`blocksByHash, this`proofs
      ensures Valid()
      ensures blocksByHash == old(blocksByHash)[block.hash := block]
      ensures proofs == if maybeProof.Some? then old(proofs)[block.hash := maybeProof.value] else old(proofs)
    {
      NumberIndex.InsertMirrors(blockHashesByNumber, blocksByHash, block);
      blockHashesByNumber := NumberIndex.Insert(blockHashesByNumber, block.number, block.hash);
      blocksByHash := blocksByHash[block.hash := block];
      if maybeProof.Some? {
        proofs := proofs[block.hash := maybeProof.value];
      }
    }

    /** Drops every block below the finalized one, and every canonical hash below its window. */
    method RemoveBlocksOnFinalized(finalizedHash: Hash)
      requires Valid()
      modifies this
      ensures Valid()
      ensures finalizedHash !in old(blocksByHash) ==>
        blocksByHash == old(blocksByHash) && proofs == old(proofs)
        && canonicalHashesByNumber == old(canonicalHashesByNumber)
      ensures finalizedHash in old(blocksByHash) ==>
        var number := old(blocksByHash)[finalizedHash].number;
        && blocksByHash == BlocksFrom(old(blocksByHash), number)
        && proofs == ProofsOf(old(proofs), blocksByHash)
        && canonicalHashesByNumber == CanonFrom(old(canonicalHashesByNumber), WindowStart(number))
    {
      if finalizedHash in blocksByHash {
        var finalizedNumber := blocksByHash[finalizedHash].number;
        RemoveBlocksBelow(finalizedNumber);
        RemoveCanonicalHashesBelow(WindowStart(finalizedNumber));
      }
    }

    /** Pops the lowest entry of the number index, with its blocks, while it is below the given number. */
    method RemoveBlocksBelow(number: nat)
      requires Valid()
      modifies this`blockHashesByNumber, this`blocksByHash, this`proofs
      ensures Valid()
      ensures blocksByHash == BlocksFrom(old(blocksByHash), number)
      ensures proofs == ProofsOf(old(proofs), blocksByHash)
    {
      while blockHashesByNumber != map[] && NumberIndex.MinKey(blockHashesByNumber.Keys) < number
        invariant Valid()
        invariant PartlyPruned(old(blocksByHash), old(proofs), blocksByHash, proofs, number)
        decreases blockHashesByNumber.Keys
      {
        var first := NumberIndex.MinKey(blockHashesByNumber.Keys);
        var hashes := blockHashesByNumber[first];
        NumberIndex.DropMirrors(blockHashesByNumber, blocksByHash, first);
        PruneMore(old(blocksByHash), old(proofs), blocksByHash, proofs, number, hashes);
        blockHashesByNumber := blockHashesByNumber - {first};
        RemoveBlocks(hashes);
      }
      assert forall h | h in blocksByHash :: number <= blocksByHash[h].number;
      assert blocksByHash == BlocksFrom(old(blocksByHash), number);
    }

    method RemoveCanonicalHashesBelow(number: nat)
      modifies this`canonicalHashesByNumber
      ensures canonicalHashesByNumber == CanonFrom(old(canonicalHashesByNumber), number)
    {
      while canonicalHashesByNumber != map[] && NumberIndex.MinKey(canonicalHashesByNumber.Keys) < number
        invariant CanonFrom(old(canonicalHashesByNumber), number) == CanonFrom(canonicalHashesByNumber, number)
        decreases canonicalHashesByNumber.Keys
      {
        var first := NumberIndex.MinKey(canonicalHashesByNumber.Keys);
        canonicalHashesByNumber := canonicalHashesByNumber - {first};
      }
      assert canonicalHashesByNumber == CanonFrom(canonicalHashesByNumber, number);
    }

    /** Removes the given blocks and their proofs, one at a time. */
    method RemoveBlocks(hashes: set<Hash>)
      modifies this`blocksByHash, this`proofs
      ensures blocksByHash == old(blocksByHash) - hashes && proofs == old(proofs) - hashes
    {
      var rest := hashes;
      while rest != {}
        invariant rest <= hashes
        invariant blocksByHash == old(blocksByHash) - (hashes - rest)
        invariant proofs == old(proofs) - (hashes - rest)
      {
        var hash :| hash in rest;
        blocksByHash := blocksByHash - {hash};
        proofs := proofs - {hash};
        rest := rest - {hash};
      }
    }

    /** Replaces the hashes of the old chain by those of the new one, old first. */
    method OnChainUpdate(added: seq<Header>, removed: seq<Header>)
      modifies this`canonicalHashesByNumber
      ensures canonicalHashesByNumber == InsertAll(RemoveAll(old(canonicalHashesByNumber), removed), added)
    {
      for i := 0 to |removed|
        invariant canonicalHashesByNumber == RemoveAll(old(canonicalHashesByNumber), removed[..i])
      {
        assert removed[..i + 1][..i] == removed[..i];
        RemoveCanonicalHash(removed[i].number, removed[i].hash);
      }
      assert removed[..|removed|] == removed;
      ghost var base := canonicalHashesByNumber;
      for i := 0 to |added|
        invariant canonicalHashesByNumber == InsertAll(base, added[..i])
      {
        assert added[..i + 1][..i] == added[..i];
        InsertCanonicalHash(added[i].number, added[i].hash);
      }
      assert added[..|added|] == added;
    }

    method OnFinalized(finalizedHash: Hash)
      requires Valid()
      modifies this
      ensures Valid()
      ensures finalizedHash == ZERO || finalizedHash !in old(blocksByHash) ==>
        blocksByHash == old(blocksByHash) && proofs == old(proofs)
        && canonicalHashesByNumber == old(canonicalHashesByNumber)
      ensures finalizedHash != ZERO && finalizedHash in old(blocksByHash) ==>
        var number := old(blocksByHash)[finalizedHash].number;
        && blocksByHash == BlocksFrom(old(blocksByHash), number)
        && proofs == ProofsOf(old(proofs), blocksByHash)
        && canonicalHashesByNumber == CanonFrom(old(canonicalHashesByNumber), WindowStart(number))
    {
      if finalizedHash != ZERO {
        RemoveBlocksOnFinalized(finalizedHash);
      }
    }
  }
}
