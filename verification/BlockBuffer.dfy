/** The bounded pool of blocks whose parents are not stored yet, kept coherent over its five indexes. */
module BlockBuffers {
  import opened Chain
  import opened BufferContents
  import NumberIndex

  class BlockBuffer {
    var blocks: Blocks
    var proofs: map<Hash, Proof>
    var parentToChild: Links
    var earliestBlocks: NumberIndex.Index
    /** Oldest first. */
    var lru: seq<Hash>
    const limit: nat
    /** The buffered blocks whose parent link is gone. */
    ghost var unlinked: set<Hash>

    /** Coherence of the maps, where the number index has already lost the given blocks. */
    ghost predicate MapsOk(lost: set<Hash>)
      reads this`blocks, this`parentToChild, this`earliestBlocks, this`unlinked
    {
      && (forall h | h in blocks :: blocks[h].hash == h)
      && NumberIndex.Mirrors(earliestBlocks, blocks - lost)
      && LinksSound(parentToChild, blocks)
      && LinksComplete(parentToChild, blocks, unlinked)
    }

    ghost predicate LruOk()
      reads this`lru, this`blocks
    {
      NoDuplicates(lru) && Elements(lru) == blocks.Keys && |lru| <= limit
    }

    ghost predicate Valid()
      reads this
    {
      limit >= 1 && MapsOk({}) && LruOk()
    }

    constructor (limit: nat)
      requires limit >= 1
      ensures Valid() && this.limit == limit
      ensures blocks == map[] && proofs == map[] && lru == [] && unlinked == {}
    {
      blocks, proofs, parentToChild, earliestBlocks, lru := map[], map[], map[], map[], [];
      this.limit := limit;
      unlinked := {};
    }

    ghost function Now(): Contents
      reads this
    {
      Contents(blocks, proofs, lru, unlinked)
    }

    /** The lowest buffered ancestor-or-self of a buffered block. */
    method LowestAncestor(hash: Hash, ghost w: World) returns (r: Option<Header>)
      requires Proper(w) && Known(w, blocks)
      ensures r.None? <==> hash !in blocks
      ensures r.Some? ==>
        && r.value.hash in blocks && blocks[r.value.hash] == r.value
        && Reaches(blocks, hash, r.value.hash) && r.value.parent !in blocks
    {
      if hash !in blocks {
        return None;
      }
      var current := blocks[hash];
      ReachesSelf(blocks, hash);
      while current.parent in blocks
        invariant current.hash in blocks && blocks[current.hash] == current
        invariant Reaches(blocks, hash, current.hash)
        decreases w.rank(current.hash)
      {
        ReachesParent(blocks, current.hash);
        ReachesTrans(blocks, hash, current.hash, current.parent);
        current := blocks[current.parent];
      }
      return Some(current);
    }

    method InsertBlock(block: Header)
      requires Valid()
      requires block.hash in blocks ==> blocks[block.hash] == block
      modifies this
      ensures Valid()
      ensures Now() == WithBlock(old(Now()), limit, block)
    {
      ghost var out := PushedOut(lru, limit, block.hash);
      WithBlockParts(Now(), limit, block);
      AddToIndexes(block);
      var evictedHash := InsertHashAndGetEvicted(block.hash);
      EvictPushedOut(evictedHash, out);
    }

    /** Evicts the block that was pushed out of the LRU list, if any, with its link. */
    method EvictPushedOut(hash: Option<Hash>, ghost out: set<Hash>)
      requires MapsOk({}) && NoDuplicates(lru)
      requires out == if hash.Some? then {hash.value} else {}
      requires out <= blocks.Keys && out !! Elements(lru)
      modifies this
      ensures MapsOk({})
      ensures blocks == old(blocks) - out && proofs == old(proofs) - out
      ensures lru == old(lru) && unlinked == old(unlinked) - out
    {
      if hash.None? {
        RemoveNothing(blocks, out);
        RemoveNothing(proofs, out);
        return;
      }
      ghost var none: set<Hash> := {};
      assert none - {hash.value} == none;
      WithoutNone(lru, {hash.value});
      var evictedBlock := EvictBlock(hash.value, none);
      if evictedBlock.Some? {
        UnlinkGone(parentToChild, blocks, evictedBlock.value.parent, hash.value);
        RemoveFromParent(evictedBlock.value.parent, hash.value);
      }
    }

    /** Adds the block to every map, and links it to its parent. */
    method AddToIndexes(block: Header)
      requires MapsOk({})
      requires block.hash in blocks ==> blocks[block.hash] == block
      modifies this`blocks, this`parentToChild, this`earliestBlocks, this`unlinked
      ensures MapsOk({})
      ensures blocks == old(blocks)[block.hash := block]
      ensures unlinked == old(unlinked) - {block.hash} && proofs == old(proofs)
    {
      LinkKeeps(parentToChild, blocks, unlinked, block);
      parentToChild := parentToChild[block.parent :=
        (if block.parent in parentToChild then parentToChild[block.parent] else {}) + {block.hash}];
      assert blocks - {} == blocks;
      NumberIndex.InsertMirrors(earliestBlocks, blocks, block);
      earliestBlocks := NumberIndex.Insert(earliestBlocks, block.number, block.hash);
      blocks := blocks[block.hash := block];
      assert blocks - {} == blocks;
      unlinked := unlinked - {block.hash};
    }

    method InsertProof(hash: Hash, proof: Proof)
      modifies this`proofs
      ensures proofs == old(proofs)[hash := proof]
    {
      proofs := proofs[hash := proof];
    }

    /** Makes the hash the most recent one, and returns the oldest if that exceeds the limit. */
    method InsertHashAndGetEvicted(entry: Hash) returns (evicted: Option<Hash>)
      requires NoDuplicates(lru) && |lru| <= limit && limit >= 1
      modifies this`lru
      ensures evicted == if PushedOut(old(lru), limit, entry) == {} then None else Some(old(lru)[0])
      ensures lru == Without(old(lru), PushedOut(old(lru), limit, entry) + {entry}) + [entry]
      ensures NoDuplicates(lru) && |lru| <= limit
      ensures Elements(lru) == Elements(old(lru)) - PushedOut(old(lru), limit, entry) + {entry}
    {
      evicted := None;
      WithoutElements(lru, PushedOut(lru, limit, entry) + {entry});
      if entry !in lru && limit <= |lru| {
        evicted := Some(lru[0]);
        ghost var gone := {lru[0]} + {entry};
        assert PushedOut(lru, limit, entry) == {lru[0]};
        assert Without(lru, gone) == Without(lru[1..], gone);
        WithoutNone(lru[1..], gone);
        WithoutNone(lru[1..], {entry});
        lru := lru[1..];
      } else {
        assert PushedOut(lru, limit, entry) + {entry} == {entry};
      }
      ElementsPush(Without(lru, {entry}), entry);
      lru := Without(lru, {entry}) + [entry];
    }

    method RemoveFromEarliestBlocks(number: nat, hash: Hash)
      modifies this`earliestBlocks
      ensures earliestBlocks == NumberIndex.Remove(old(earliestBlocks), number, hash)
    {
      if number in earliestBlocks {
        earliestBlocks := earliestBlocks[number := earliestBlocks[number] - {hash}];
        if earliestBlocks[number] == {} {
          earliestBlocks := earliestBlocks - {number};
        }
      }
    }

    /** Removes the link from the parent to this child, not the child's own children. */
    method RemoveFromParent(parent: Hash, hash: Hash)
      modifies this`parentToChild
      ensures parentToChild == Unlink(old(parentToChild), parent, hash)
    {
      if parent in parentToChild {
        parentToChild := parentToChild[parent := parentToChild[parent] - {hash}];
        if parentToChild[parent] == {} {
          parentToChild := parentToChild - {parent};
        }
      }
    }

    method RemoveProof(hash: Hash) returns (r: Option<Proof>)
      modifies this`proofs
      ensures r == Get(old(proofs), hash) && proofs == old(proofs) - {hash}
    {
      r := Get(proofs, hash);
      proofs := proofs - {hash};
    }

    /** Takes out a buffered block that has a proof. */
    method RemoveBlock(hash: Hash) returns (r: Option<Buffered>)
      requires Valid()
      modifies this
      ensures Valid()
      ensures hash in old(blocks) && hash in old(proofs) ==>
        r == Some(Buffered(old(blocks)[hash], old(proofs)[hash])) && Now() == Drop(old(Now()), {hash})
      ensures !(hash in old(blocks) && hash in old(proofs)) ==> r == None && Now() == old(Now())
      ensures parentToChild.Keys <= old(parentToChild).Keys
    {
      if hash !in blocks {
        return None;
      }
      var proof := RemoveProof(hash);
      if proof.None? {
        return None;
      }
      var block := blocks[hash];
      WithoutElements(lru, {hash});
      ghost var none: set<Hash> := {};
      assert none - {hash} == none;
      RemoveFromIndexes(hash, none);
      return Some(Buffered(block, proof.value));
    }

    /** Drops a block and its proof, if it is buffered. */
    method EvictBlock(hash: Hash, ghost lost: set<Hash>) returns (r: Option<Header>)
      requires MapsOk(lost) && NoDuplicates(lru)
      modifies this
      ensures MapsOk(lost - {hash})
      ensures r == Get(old(blocks), hash)
      ensures Now() == if hash in old(blocks) then Drop(old(Now()), {hash}) else old(Now())
      ensures parentToChild.Keys <= old(parentToChild).Keys
    {
      if hash !in blocks {
        assert blocks - lost == blocks - (lost - {hash});
        return None;
      }
      var block := blocks[hash];
      proofs := proofs - {hash};
      RemoveFromIndexes(hash, lost);
      return Some(block);
    }

    /** Removes a buffered block from everything but the proofs. */
    method RemoveFromIndexes(hash: Hash, ghost lost: set<Hash>)
      requires MapsOk(lost) && NoDuplicates(lru) && hash in blocks
      modifies this`blocks, this`earliestBlocks, this`parentToChild, this`lru, this`unlinked
      ensures MapsOk(lost - {hash})
      ensures blocks == old(blocks) - {hash} && lru == Without(old(lru), {hash}) && unlinked == old(unlinked) - {hash}
      ensures parentToChild.Keys <= old(parentToChild).Keys
    {
      var block := blocks[hash];
      NumberIndex.RemoveLost(earliestBlocks, blocks, lost, hash);
      UnlinkKeeps(parentToChild, blocks, unlinked, hash);
      blocks := blocks - {hash};
      RemoveFromEarliestBlocks(block.number, hash);
      RemoveFromParent(block.parent, hash);
      lru := Without(lru, {hash});
      unlinked := unlinked - {hash};
    }

    /** Takes the given blocks out, in any order, as far as they have proofs; lists them all in that order. */
    method RemoveEach(hashes: set<Hash>) returns (removed: seq<Buffered>, order: seq<Hash>)
      requires Valid() && hashes <= blocks.Keys
      modifies this
      ensures Valid()
      ensures Elements(order) == hashes
      ensures Extracts(removed, old(Now()), hashes * old(proofs).Keys)
      ensures Now() == Drop(old(Now()), hashes * old(proofs).Keys)
      ensures parentToChild.Keys <= old(parentToChild).Keys
    {
      removed, order := [], [];
      var rest := hashes;
      ghost var start := Now();
      ghost var gone := {};
      DropNone(start, gone);
      while rest != {}
        invariant Valid() && rest <= hashes
        invariant forall h :: h in order <==> h in hashes && h !in rest
        invariant forall h :: h in gone <==> h in hashes && h !in rest && h in start.proofs
        invariant Extracts(removed, start, gone)
        invariant Now() == Drop(start, gone)
        invariant parentToChild.Keys <= old(parentToChild).Keys
      {
        var hash :| hash in rest;
        var r := RemoveBlock(hash);
        if r.Some? {
          ExtractsOneMore(removed, start, gone, hash);
          DropDrop(start, gone, {hash});
          removed := removed + [r.value];
          gone := gone + {hash};
        }
        order := order + [hash];
        rest := rest - {hash};
      }
      assert gone == hashes * start.proofs.Keys;
    }

    /** Drops the parent's entry, takes its children with proofs out, and lists all of its children. */
    method TakeChildren(parent: Hash) returns (taken: seq<Buffered>, order: seq<Hash>)
      requires Valid()
      modifies this
      ensures Valid()
      ensures Now() == PassedOver(old(Now()), {parent})
      ensures
        var children := Children(Linked(old(blocks), old(unlinked)), {parent});
        Elements(order) == children && Extracts(taken, old(Now()), children * old(proofs).Keys)
      ensures parentToChild.Keys <= old(parentToChild).Keys - {parent}
      ensures parent !in old(parentToChild) ==> order == []
    {
      ghost var start := Now();
      ghost var cut := Children(Linked(blocks, unlinked), {parent});
      if parent !in parentToChild {
        assert cut == {} && cut * proofs.Keys == {} && unlinked + cut == unlinked;
        DropNone(start, cut * proofs.Keys);
        return [], [];
      }
      var children := parentToChild[parent];
      DropParentKeeps(parentToChild, blocks, unlinked, parent);
      assert children == cut;
      parentToChild := parentToChild - {parent};
      unlinked := unlinked + children;
      taken, order := RemoveEach(children);
      assert Extracts(taken, start, children * start.proofs.Keys);
    }

    /**
     * Takes out the linked descendants of the given blocks that have proofs, each after its parent, and cuts
     * the links of all of them. None of the given blocks may be one that could itself be taken out.
     */
    method RemoveChildren(parents: seq<Hash>) returns (removed: seq<Buffered>, ghost seen: set<Hash>)
      requires Valid()
      requires forall h | h in parents :: !(h in blocks && h in proofs)
      modifies this
      ensures Valid()
      ensures
        var linked := Linked(old(blocks), old(unlinked));
        && Closed(linked, seen) && (forall h :: h in seen <==> Under(linked, Elements(parents), h))
        && Extracts(removed, old(Now()), Children(linked, seen) * old(proofs).Keys)
      ensures ParentFirst(removed)
      ensures Now() == PassedOver(old(Now()), seen)
    {
      var stack := parents;
      removed := [];
      ghost var start := Now();
      seen := {};
      RemovalStart(start, stack);
      while stack != []
        invariant Valid()
        invariant Removing(start, Elements(parents), seen, stack, removed, Now())
        decreases parentToChild.Keys, |stack|
      {
        var parent := stack[|stack| - 1];
        ghost var mid := Now();
        var taken, order := TakeChildren(parent);
        RemovalStep(start, Elements(parents), seen, stack, removed, mid, taken, order);
        removed := removed + taken;
        stack := stack[..|stack| - 1] + order;
        seen := seen + {parent};
      }
      RemovalDone(start, Elements(parents), seen, removed, Now());
    }

    /**
     * Takes out the given block and its linked descendants, as far as they have proofs, parents first; the
     * offspring without proofs stay buffered, without their links.
     */
    method RemoveBlockWithChildren(parentHash: Hash, ghost w: World) returns (removed: seq<Buffered>)
      requires Valid() && Proper(w) && Known(w, blocks)
      modifies this
      ensures Valid()
      ensures Extracts(removed, old(Now()), Family(old(Now()), {parentHash}) * old(proofs).Keys)
      ensures ParentFirst(removed)
      ensures Now() == FamilyTaken(old(Now()), parentHash)
    {
      ghost var start := Now();
      DropNone(start, {});
      var first := RemoveBlock(parentHash);
      ghost var mid := Now();
      ghost var seen;
      removed, seen := RemoveChildren([parentHash]);
      assert Elements([parentHash]) == {parentHash};
      FamilyInTwoSteps(start, parentHash, mid, seen);
      FamilyList(w, start, parentHash, mid, seen, removed);
      if first.Some? {
        removed := [first.value] + removed;
      }
    }

    /** Drops the parent's entry, evicts its children in any order, and lists them in that order. */
    method EvictTheChildren(parent: Hash) returns (order: seq<Hash>)
      requires Valid()
      modifies this
      ensures Valid()
      ensures Elements(order) == Children(Linked(old(blocks), old(unlinked)), {parent})
      ensures Now() == Drop(old(Now()), Elements(order))
      ensures parentToChild.Keys <= old(parentToChild).Keys - {parent}
      ensures parent !in old(parentToChild) ==> order == []
    {
      ghost var start := Now();
      order := [];
      if parent !in parentToChild {
        DropNone(start, Elements(order));
        return;
      }
      var children := parentToChild[parent];
      DropParentKeeps(parentToChild, blocks, unlinked, parent);
      parentToChild := parentToChild - {parent};
      unlinked := unlinked + children;
      order := EvictEach(children);
      assert unlinked == start.unlinked - children;
    }

    method EvictEach(hashes: set<Hash>) returns (order: seq<Hash>)
      requires Valid() && hashes <= blocks.Keys
      modifies this
      ensures Valid()
      ensures Elements(order) == hashes && Now() == Drop(old(Now()), hashes)
      ensures parentToChild.Keys <= old(parentToChild).Keys
    {
      order := [];
      var rest := hashes;
      ghost var start := Now();
      ghost var gone := {};
      ghost var none: set<Hash> := {};
      DropNone(start, gone);
      while rest != {}
        invariant Valid() && rest <= hashes
        invariant forall h :: h in order <==> h in hashes && h !in rest
        invariant forall h :: h in gone <==> h in hashes && h !in rest
        invariant Now() == Drop(start, gone)
        invariant parentToChild.Keys <= old(parentToChild).Keys
      {
        var hash :| hash in rest;
        assert none - {hash} == none;
        WithoutElements(lru, {hash});
        var _ := EvictBlock(hash, none);
        DropDrop(start, gone, {hash});
        gone := gone + {hash};
        order := order + [hash];
        rest := rest - {hash};
      }
      assert gone == hashes;
    }

    /** Evicts every linked descendant of the given blocks. */
    method EvictChildren(parents: seq<Hash>)
      requires Valid()
      modifies this
      ensures Valid()
      ensures Now() == Drop(old(Now()), Offspring(old(Now()), Elements(parents)))
    {
      var stack := parents;
      ghost var start := Now();
      ghost var seen := {};
      EvictionStart(start, stack);
      while stack != []
        invariant Valid()
        invariant Evicting(start, Elements(parents), seen, stack, Now())
        decreases parentToChild.Keys, |stack|
      {
        var parent := stack[|stack| - 1];
        ghost var mid := Now();
        var order := EvictTheChildren(parent);
        EvictionStep(start, Elements(parents), seen, stack, mid, order);
        stack := stack[..|stack| - 1] + order;
        seen := seen + {parent};
      }
      EvictionDone(start, Elements(parents), seen, Now());
    }

    /** Evicts exactly the blocks numbered at most the given number and everything linked under them. */
    method EvictOldBlocks(number: nat)
      requires Valid()
      modifies this
      ensures Valid()
      ensures Now() == Drop(old(Now()), Family(old(Now()), Old(old(blocks), number)))
    {
      ghost var start := Now();
      var hashes := PopEarliest(number);
      EvictListed(hashes);
      EvictInTwoSteps(start, Elements(hashes));
      EvictChildren(hashes);
    }

    /** Pops the lowest entries of the number index while they are not above the given number. */
    method PopEarliest(number: nat) returns (hashes: seq<Hash>)
      requires Valid()
      modifies this`earliestBlocks
      ensures MapsOk(Elements(hashes)) && NoDuplicates(hashes) && Elements(hashes) == Old(blocks, number)
    {
      hashes := [];
      assert Elements(hashes) == {} && blocks - Elements(hashes) == blocks;
      while earliestBlocks != map[] && NumberIndex.MinKey(earliestBlocks.Keys) <= number
        invariant MapsOk(Elements(hashes)) && NoDuplicates(hashes) && Elements(hashes) <= Old(blocks, number)
        decreases earliestBlocks.Keys
      {
        var first := NumberIndex.MinKey(earliestBlocks.Keys);
        var order := Enumerate(earliestBlocks[first]);
        NumberIndex.DropMirrors(earliestBlocks, blocks - Elements(hashes), first);
        NumberIndex.ListedUnder(earliestBlocks, blocks - Elements(hashes), first);
        ListMore(blocks, hashes, order, first, number);
        earliestBlocks := earliestBlocks - {first};
        hashes := hashes + order;
      }
      AllListed(earliestBlocks, blocks, Elements(hashes), number);
    }

    /** Evicts the listed blocks, which the number index has lost already. */
    method EvictListed(hashes: seq<Hash>)
      requires MapsOk(Elements(hashes)) && NoDuplicates(hashes) && limit >= 1 && LruOk()
      requires Elements(hashes) <= blocks.Keys
      modifies this
      ensures Valid()
      ensures Now() == Drop(old(Now()), Elements(hashes))
    {
      ghost var start := Now();
      DropNone(start, Elements(hashes[..0]));
      assert hashes[0..] == hashes;
      for i := 0 to |hashes|
        invariant MapsOk(Elements(hashes[i..])) && LruOk()
        invariant Now() == Drop(start, Elements(hashes[..i]))
      {
        ListSplit(hashes, i);
        WithoutElements(lru, {hashes[i]});
        assert hashes[i] in blocks;
        var _ := EvictBlock(hashes[i], Elements(hashes[i..]));
        DropDrop(start, Elements(hashes[..i]), {hashes[i]});
      }
      assert hashes[..|hashes|] == hashes;
      assert Elements(hashes[|hashes|..]) == {};
    }

    /** The elements of a set, in any order. */
    static method Enumerate(s: set<Hash>) returns (order: seq<Hash>)
      ensures Elements(order) == s && NoDuplicates(order)
    {
      order := [];
      var rest := s;
      while rest != {}
        invariant rest <= s && NoDuplicates(order)
        invariant forall h :: h in order <==> h in s && h !in rest
      {
        var hash :| hash in rest;
        order := order + [hash];
        rest := rest - {hash};
      }
    }
  }
}
