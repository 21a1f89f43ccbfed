/** The lossy cache of invalid headers, and what its entries say about the real chain. */
module InvalidHeaders {
  import opened Chain

  /** A rejected block and its parent. */
  datatype BlockWithParent = BlockWithParent(parent: Hash, block: NumHash)

  function WithParent(b: Header): BlockWithParent {
    BlockWithParent(b.parent, NumHashOf(b))
  }

  type Entries = map<Hash, BlockWithParent>

  /** Every entry names a rejected ancestor-or-self of its key, with that block's parent. */
  ghost predicate EntriesOk(w: World, entries: Entries, rejected: set<Hash>) {
    forall k | k in entries :: EntryNames(w, k, entries[k], rejected)
  }

  ghost predicate EntryNames(w: World, k: Hash, e: BlockWithParent, rejected: set<Hash>) {
    && e.block.hash in rejected && e.block.hash in w.headers
    && e.parent == w.headers[e.block.hash].parent
    && Reaches(w.headers, k, e.block.hash)
  }

  /** h or an ancestor of h was rejected. */
  ghost predicate Blamed(w: World, h: Hash, rejected: set<Hash>) {
    exists r :: r in rejected && Reaches(w.headers, h, r)
  }

  lemma BlamedByEntry(w: World, k: Hash, e: BlockWithParent, rejected: set<Hash>, h: Hash)
    requires EntryNames(w, k, e, rejected) && Reaches(w.headers, h, k)
    ensures Blamed(w, h, rejected) && EntryNames(w, h, e, rejected)
  {
    ReachesTrans(w.headers, h, k, e.block.hash);
  }

  /** Every block from h down to a blamed ancestor a is blamed. */
  lemma BlamedStretch(w: World, h: Hash, a: Hash, rejected: set<Hash>) returns (k: nat)
    requires Reaches(w.headers, h, a) && Blamed(w, a, rejected)
    ensures BlamedDownTo(w, h, k, a, rejected)
  {
    k :| Walk(w.headers, h, k) == Some(a);
    forall i: nat | i < k
      ensures Walk(w.headers, h, i).Some? && Blamed(w, Walk(w.headers, h, i).value, rejected)
    {
      WalkPrefix(w.headers, h, i, k);
      WalkAdd(w.headers, h, i, k - i);
      BlamedBelow(w, Walk(w.headers, h, i).value, a, rejected);
    }
  }

  lemma BlamedBelow(w: World, h: Hash, a: Hash, rejected: set<Hash>)
    requires Reaches(w.headers, h, a) && Blamed(w, a, rejected)
    ensures Blamed(w, h, rejected)
  {
    var r :| r in rejected && Reaches(w.headers, a, r);
    ReachesTrans(w.headers, h, a, r);
  }

  /** a lies k steps above h, and every block strictly above a on the way is blamed. */
  ghost predicate BlamedDownTo(w: World, h: Hash, k: nat, a: Hash, rejected: set<Hash>) {
    && Walk(w.headers, h, k) == Some(a)
    && forall i: nat | i < k :: Walk(w.headers, h, i).Some? && Blamed(w, Walk(w.headers, h, i).value, rejected)
  }

  /** Following an entry from a to the parent of the rejected block it names extends the blamed stretch. */
  lemma FollowEntry(w: World, h: Hash, k: nat, a: Hash, e: BlockWithParent, rejected: set<Hash>) returns (k': nat)
    requires Proper(w) && BlamedDownTo(w, h, k, a, rejected) && EntryNames(w, a, e, rejected)
    ensures BlamedDownTo(w, h, k', e.parent, rejected)
    ensures w.rank(e.parent) < w.rank(a)
  {
    var r := e.block.hash;
    var j: nat :| Walk(w.headers, a, j) == Some(r);
    WalkRank(w, w.headers, a, j);
    k' := k + j + 1;
    WalkAdd(w.headers, h, k, j);
    WalkAdd(w.headers, h, k + j, 1);
    assert Walk(w.headers, r, 1) == Walk(w.headers, e.parent, 0);
    forall i: nat | i < k'
      ensures Walk(w.headers, h, i).Some? && Blamed(w, Walk(w.headers, h, i).value, rejected)
    {
      if k <= i {
        WalkAdd(w.headers, h, k, i - k);
        if i < k + j {
          WalkPrefix(w.headers, a, i - k, j);
        }
        var x := Walk(w.headers, a, i - k).value;
        WalkAdd(w.headers, a, i - k, k + j - i);
        assert Reaches(w.headers, x, r);
      }
    }
  }

  lemma BlamedConcat(w: World, h: Hash, k: nat, a: Hash, j: nat, b: Hash, rejected: set<Hash>)
    requires BlamedDownTo(w, h, k, a, rejected) && BlamedDownTo(w, a, j, b, rejected)
    ensures BlamedDownTo(w, h, k + j, b, rejected)
  {
    WalkAdd(w.headers, h, k, j);
    forall i: nat | i < k + j
      ensures Walk(w.headers, h, i).Some? && Blamed(w, Walk(w.headers, h, i).value, rejected)
    {
      if k <= i {
        assert Walk(w.headers, a, i - k).Some?;
        WalkAdd(w.headers, h, k, i - k);
      }
    }
  }

  /** Entries were dropped, and this key has the given entry or the one it had. */
  ghost predicate OneMore(before: Entries, after: Entries, key: Hash, entry: BlockWithParent) {
    forall k | k in after :: (k in before && after[k] == before[k]) || (k == key && after[k] == entry)
  }

  /** The hash that following k entries from h leads to: each leads to the parent of the block it names. */
  ghost function CacheWalk(entries: Entries, h: Hash, k: nat): Option<Hash>
    decreases k
  {
    if k == 0 then Some(h)
    else if h in entries then CacheWalk(entries, entries[h].parent, k - 1)
    else None
  }

  /** Following entries from h ends at a: the first hash on the way that is not recorded. */
  ghost predicate CacheEndsAt(entries: Entries, h: Hash, a: Hash) {
    a !in entries && exists k: nat :: CacheWalk(entries, h, k) == Some(a)
  }

  lemma {:induction false} CacheWalkAdd(entries: Entries, h: Hash, i: nat, j: nat)
    requires CacheWalk(entries, h, i).Some?
    ensures CacheWalk(entries, h, i + j) == CacheWalk(entries, CacheWalk(entries, h, i).value, j)
    decreases i
  {
    if i > 0 {
      CacheWalkAdd(entries, entries[h].parent, i - 1, j);
    }
  }

  /** One entry further. */
  lemma CacheFollow(entries: Entries, h: Hash, k: nat, a: Hash)
    requires CacheWalk(entries, h, k) == Some(a) && a in entries
    ensures CacheWalk(entries, h, k + 1) == Some(entries[a].parent)
  {
    CacheWalkAdd(entries, h, k, 1);
    assert CacheWalk(entries, a, 1) == CacheWalk(entries, entries[a].parent, 0);
  }

  lemma {:induction false} CachePrefix(entries: Entries, h: Hash, i: nat, k: nat)
    requires i < k && CacheWalk(entries, h, k).Some?
    ensures CacheWalk(entries, h, i).Some? && CacheWalk(entries, h, i).value in entries
    decreases i
  {
    if i > 0 {
      CachePrefix(entries, entries[h].parent, i - 1, k - 1);
    }
  }

  lemma CacheEndsOnce(entries: Entries, h: Hash, a: Hash, b: Hash)
    requires CacheEndsAt(entries, h, a) && CacheEndsAt(entries, h, b)
    ensures a == b
  {
    var i: nat :| CacheWalk(entries, h, i) == Some(a);
    var j: nat :| CacheWalk(entries, h, j) == Some(b);
    if i < j {
      CachePrefix(entries, h, i, j);
    } else if j < i {
      CachePrefix(entries, h, j, i);
    }
  }

  /** The latest valid hash for a block with this parent: the parent or else where the entries end, if stored. */
  ghost predicate LatestIs(stored: Blocks, entries: Entries, parent: Hash, latest: Option<Hash>) {
    if parent in stored then latest == Some(parent)
    else exists a: Hash :: CacheEndsAt(entries, parent, a) && latest == if a in stored then Some(a) else None
  }

  /** The hash that the answer for a block below a rejected one with this parent reports. */
  ghost predicate LastValidIs(stored: Blocks, entries: Entries, parent: Hash, lastValid: Hash) {
    if parent in stored then lastValid == if stored[parent].difficulty == 0 then parent else ZERO
    else exists a: Hash :: CacheEndsAt(entries, parent, a) && lastValid == if a in stored then a else ZERO
  }

  /** At most these keys were added, and in a cache that keeps its entries exactly these. */
  ghost predicate Records(forgetful: bool, before: Entries, after: Entries, keys: set<Hash>) {
    && after.Keys <= before.Keys + keys
    && (!forgetful ==> before.Keys + keys <= after.Keys)
  }

  class InvalidHeaderCache {
    /** Whether an entry may be dropped at any access, as a full cache does, or none is, as in a cache with room. */
    const forgetful: bool
    var entries: Entries

    /** No key was dropped, unless the cache may. */
    ghost predicate Keeps(before: Entries)
      reads this
    {
      forgetful || before.Keys <= entries.Keys
    }

    /** No entry was added or changed, and none was dropped, unless the cache may. */
    ghost predicate OnlyForgets(before: Entries)
      reads this
    {
      if forgetful then forall k | k in entries :: k in before && entries[k] == before[k] else entries == before
    }

    constructor (forgetful: bool)
      ensures entries == map[] && this.forgetful == forgetful
    {
      this.forgetful, entries := forgetful, map[];
    }

    /** Drops any entries, if the cache may. */
    method Forget()
      modifies this
      ensures OnlyForgets(old(entries))
    {
      if forgetful {
        var lost: set<Hash> := *;
        entries := entries - lost;
      }
    }

    /** Looks a hash up; any entry may have been dropped by then. */
    method Lookup(hash: Hash) returns (r: Option<BlockWithParent>)
      modifies this
      ensures OnlyForgets(old(entries))
      ensures r == Get(entries, hash)
    {
      Forget();
      r := Get(entries, hash);
    }

    /** Records a rejected block; an entry that it has already may stay, and other entries may be dropped. */
    method Insert(block: BlockWithParent)
      modifies this
      ensures Keeps(old(entries))
      ensures block.block.hash in entries && OneMore(old(entries), entries, block.block.hash, block)
    {
      Forget();
      var replace: bool := *;
      if replace || block.block.hash !in entries {
        entries := entries[block.block.hash := block];
      }
    }

    /** Records a block below a rejected one, unless it is recorded already. */
    method InsertWithInvalidAncestor(hash: Hash, ancestor: BlockWithParent)
      modifies this
      ensures Keeps(old(entries))
      ensures hash in entries && OneMore(old(entries), entries, hash, ancestor)
    {
      var known := Lookup(hash);
      if known.None? {
        Forget();
        entries := entries[hash := ancestor];
      }
    }
  }
}
