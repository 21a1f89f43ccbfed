/** Ordered indexes from block numbers to non-empty sets of hashes. */
module NumberIndex {
  import opened Chain

  type Index = map<nat, set<Hash>>

  /** The index lists exactly the given blocks under their numbers, and holds no empty set. */
  ghost predicate Mirrors(index: Index, blocks: Blocks) {
    && (forall n | n in index :: index[n] != {})
    && (forall n, h | n in index && h in index[n] :: h in blocks && blocks[h].number == n)
    && (forall h | h in blocks :: blocks[h].number in index && h in index[blocks[h].number])
  }

  /** `entry(number).or_default().insert(hash)` */
  function Insert(index: Index, number: nat, hash: Hash): Index {
    index[number := (if number in index then index[number] else {}) + {hash}]
  }

  /** Removes the hash from the set under the number, and the entry with it when the set gets empty. */
  function Remove(index: Index, number: nat, hash: Hash): Index {
    if number !in index then index
    else if index[number] - {hash} == {} then index - {number}
    else index[number := index[number] - {hash}]
  }

  lemma InsertMirrors(index: Index, blocks: Blocks, b: Header)
    requires Mirrors(index, blocks)
    requires b.hash in blocks ==> blocks[b.hash].number == b.number
    ensures Mirrors(Insert(index, b.number, b.hash), blocks[b.hash := b])
  {
  }

  lemma RemoveMirrors(index: Index, blocks: Blocks, h: Hash)
    requires Mirrors(index, blocks) && h in blocks
    ensures Mirrors(Remove(index, blocks[h].number, h), blocks - {h})
  {
  }

  /** Removing a block that the index may have lost already. */
  lemma RemoveLost(index: Index, blocks: Blocks, lost: set<Hash>, h: Hash)
    requires Mirrors(index, blocks - lost) && h in blocks
    ensures Mirrors(Remove(index, blocks[h].number, h), (blocks - {h}) - (lost - {h}))
  {
    var n := blocks[h].number;
    assert (blocks - {h}) - (lost - {h}) == (blocks - lost) - {h};
    if h in lost {
      assert (blocks - lost) - {h} == blocks - lost;
      assert n in index ==> index[n] - {h} == index[n];
      assert Remove(index, n, h) == index;
    } else {
      RemoveMirrors(index, blocks - lost, h);
    }
  }

  /** Dropping a whole entry drops exactly the blocks of that number. */
  lemma DropMirrors(index: Index, blocks: Blocks, n: nat)
    requires Mirrors(index, blocks) && n in index
    ensures Mirrors(index - {n}, blocks - index[n])
  {
    forall k, h | k in index && k != n && h in index[k]
      ensures h !in index[n]
    {
      assert blocks[h].number == k;
    }
  }

  lemma ListedUnder(index: Index, blocks: Blocks, n: nat)
    requires Mirrors(index, blocks) && n in index
    ensures forall h | h in index[n] :: h in blocks && blocks[h].number == n
  {
  }

  lemma MinOf(s: set<nat>) returns (m: nat)
    requires s != {}
    ensures m in s && forall y | y in s :: m <= y
    decreases s
  {
    m :| m in s;
    var below := set y | y in s && y < m;
    if below != {} {
      assert m !in below && below <= s;
      var least := MinOf(below);
      forall y | y in s ensures least <= y {
        assert y < m ==> y in below;
      }
      m := least;
    } else {
      assert forall y | y in s :: y !in below;
    }
  }

  lemma MinExists(s: set<nat>)
    requires s != {}
    ensures exists m :: m in s && forall y | y in s :: m <= y
  {
    var m := MinOf(s);
  }

  /** The first key of an ordered map. */
  function MinKey(s: set<nat>): (m: nat)
    requires s != {}
    ensures m in s && forall y | y in s :: m <= y
  {
    MinExists(s);
    var x :| x in s && forall y | y in s :: x <= y;
    x
  }
}
