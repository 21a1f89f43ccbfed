/** The stored blocks, the canonical index and the head, through every run of the engine. */
module Ledgers {
  import opened Chain
  import opened ChainStates
  import opened ForkChoice

  /** Outcome of verifying a block with a proof; a fault is not the block's fault. */
  datatype Verdict = Accept | Reject | Fault

  /** Header and body checks, and proof verification of a block against its parent's header. */
  datatype Rules = Rules(preValid: Header -> bool, verify: (Header, Header, Proof) -> Verdict)

  /** Verification includes the header's check against its parent. */
  ghost predicate ChecksNumber(rules: Rules) {
    forall b, p, proof :: rules.verify(b, p, proof) == Accept ==> b.number == p.number + 1
  }

  /**
   * The provider's maps and the canonical head, with what a run leaves behind: the blocks stored without
   * verification (roots), the last pruning floor, the low end of the contiguous part of the index, and
   * whether the index has been free of stale entries so far.
   */
  datatype Ledger = Ledger(
    blocks: Blocks, proofs: map<Hash, Proof>, canon: Canon, head: NumHash,
    roots: set<Hash>, floor: nat, lo: nat, tidy: bool)

  function Max(a: nat, b: nat): nat { if a < b then b else a }
  function Min(a: nat, b: nat): nat { if a < b then a else b }

  // ----- Invariants

  /** h was verified with its stored proof, and its stored parent is one number lower. */
  ghost predicate Verified(rules: Rules, s: Ledger, h: Hash)
    requires h in s.blocks
  {
    var b := s.blocks[h];
    && h in s.proofs && b.parent in s.blocks
    && b.number == s.blocks[b.parent].number + 1
    && rules.preValid(b)
    && rules.verify(b, s.blocks[b.parent], s.proofs[h]) == Accept
  }

  /** Every entry of the index is a real header, listed under its own number. */
  ghost predicate CanonReal(w: World, canon: Canon) {
    forall n | n in canon :: canon[n] in w.headers && w.headers[canon[n]].number == n
  }

  ghost predicate StoreOk(w: World, rules: Rules, s: Ledger) {
    && Proper(w) && ChecksNumber(rules)
    && Numbered(w, s.blocks)
    && s.proofs.Keys <= s.blocks.Keys
    && s.head.hash in w.headers && w.headers[s.head.hash].number == s.head.number
    && CanonReal(w, s.canon)
    && (forall h | h in s.blocks :: h in s.roots || s.blocks[h].number <= s.floor || Verified(rules, s, h))
  }

  /** What the index says about n: nothing above the head, no gap from lo on, entries linked downwards. */
  ghost predicate EntryOk(w: World, canon: Canon, head: NumHash, lo: nat, n: nat) {
    && (n in canon ==> n <= head.number && canon[n] in w.headers && w.headers[canon[n]].number == n)
    && (lo <= n <= head.number ==> n in canon)
    && (lo < n <= head.number ==> n - 1 in canon && w.headers[canon[n]].parent == canon[n - 1])
  }

  /** The index lists the head's ancestors, contiguously from lo up to the head, and nothing above the head. */
  ghost predicate Indexed(w: World, canon: Canon, head: NumHash, lo: nat) {
    && lo <= head.number
    && Get(canon, head.number) == Some(head.hash)
    && forall n: nat :: EntryOk(w, canon, head, lo, n)
  }

  /** The index is sound, the head is stored, and nothing below the pruning floor is. */
  ghost predicate IndexOk(w: World, s: Ledger) {
    && s.head.hash in s.blocks
    && (forall h | h in s.blocks :: s.floor <= s.blocks[h].number)
    && Indexed(w, s.canon, s.head, s.lo)
  }

  ghost predicate Inv(w: World, rules: Rules, s: Ledger) {
    StoreOk(w, rules, s) && (s.tidy ==> IndexOk(w, s))
  }

  // ----- Transitions

  function Genesis(g: Header): Ledger {
    Ledger(map[g.hash := g], map[], map[0 := g.hash], NumHash(0, g.hash), {g.hash}, 0, 0, true)
  }

  ghost function Stored(s: Ledger, b: Header, proof: Proof): Ledger {
    s.(blocks := s.blocks[b.hash := b], proofs := s.proofs[b.hash := proof])
  }

  /** Between the new tip and the contiguous part, the index lists nothing but ancestors of the old head. */
  ghost predicate NoStale(s: Ledger, u: NewCanonicalChain)
    requires u.added != []
  {
    forall n | n in s.canon && u.Tip().number < n < s.lo && n <= s.head.number ::
      Walk(s.blocks, s.head.hash, s.head.number - n) == Some(s.canon[n])
  }

  ghost function Updated(s: Ledger, u: NewCanonicalChain): Ledger
    requires u.added != []
  {
    s.(canon := InsertAll(RemoveAll(s.canon, u.Removed()), u.added),
       head := NumHashOf(u.Tip()),
       lo := if u.Commit? then s.lo else Min(s.lo, u.added[0].number),
       tidy := s.tidy && NoStale(s, u))
  }

  ghost function Pruned(s: Ledger, number: nat): Ledger {
    s.(blocks := BlocksFrom(s.blocks, number),
       proofs := ProofsOf(s.proofs, BlocksFrom(s.blocks, number)),
       canon := CanonFrom(s.canon, WindowStart(number)),
       floor := Max(s.floor, number),
       lo := Max(s.lo, WindowStart(number)))
  }

  ghost function Jumped(s: Ledger, checkpoint: Header, ancestors: seq<Header>): Ledger {
    s.(blocks := s.blocks[checkpoint.hash := checkpoint],
       canon := InsertAll(s.canon[checkpoint.number := checkpoint.hash], ancestors),
       head := NumHashOf(checkpoint),
       roots := s.roots + {checkpoint.hash},
       lo := if checkpoint.number < |ancestors| then 0 else checkpoint.number - |ancestors|,
       tidy := s.tidy && s.head.number <= checkpoint.number)
  }

  /** The downloaded ancestors are real headers that descend from the checkpoint one number at a time. */
  ghost predicate Lineage(w: World, checkpoint: Header, ancestors: seq<Header>) {
    && checkpoint.hash in w.headers && w.headers[checkpoint.hash] == checkpoint
    && ancestors != []
    && (forall i | 0 <= i < |ancestors| ::
          ancestors[i].hash in w.headers && w.headers[ancestors[i].hash] == ancestors[i])
    && checkpoint.parent == ancestors[0].hash && checkpoint.number == ancestors[0].number + 1
    && (forall i | 0 < i < |ancestors| ::
          ancestors[i - 1].parent == ancestors[i].hash && ancestors[i - 1].number == ancestors[i].number + 1)
  }

  /** What the download of a finalized checkpoint delivers: its lineage, 256 ancestors or more. */
  ghost predicate CheckpointOk(w: World, checkpoint: Header, ancestors: seq<Header>) {
    Lineage(w, checkpoint, ancestors) && |ancestors| >= BLOCK_HASH_WINDOW
  }

  // ----- Genesis and storing

  lemma GenesisInv(w: World, rules: Rules, g: Header)
    requires Proper(w) && ChecksNumber(rules)
    requires g.hash in w.headers && w.headers[g.hash] == g && g.number == 0 && g.parent == ZERO
    ensures Inv(w, rules, Genesis(g))
  {
  }

  lemma StoredKeepsStore(w: World, rules: Rules, s: Ledger, b: Header, proof: Proof)
    requires StoreOk(w, rules, s)
    requires b.hash in w.headers && w.headers[b.hash] == b && b.hash !in s.blocks && b.parent in s.blocks
    requires rules.preValid(b) && rules.verify(b, s.blocks[b.parent], proof) == Accept
    ensures StoreOk(w, rules, Stored(s, b, proof))
  {
    var s' := Stored(s, b, proof);
    assert b.number == s.blocks[b.parent].number + 1;
    forall h | h in s'.blocks
      ensures h in s'.roots || s'.blocks[h].number <= s'.floor || Verified(rules, s', h)
    {
      if h == b.hash {
        assert Verified(rules, s', h);
      } else if Verified(rules, s, h) {
        assert Verified(rules, s', h);
      }
    }
  }

  lemma StoredKeepsInv(w: World, rules: Rules, s: Ledger, b: Header, proof: Proof)
    requires Inv(w, rules, s)
    requires b.hash in w.headers && w.headers[b.hash] == b && b.hash !in s.blocks && b.parent in s.blocks
    requires rules.preValid(b) && rules.verify(b, s.blocks[b.parent], proof) == Accept
    ensures Inv(w, rules, Stored(s, b, proof))
  {
    StoredKeepsStore(w, rules, s, b, proof);
  }

  // ----- Chain updates

  lemma {:induction false} ChainNumbers(w: World, m: Blocks, from: Hash, c: seq<Header>, tip: Hash, i: nat)
    requires Proper(w) && Numbered(w, m) && IsChain(m, from, c, tip) && i < |c|
    ensures c[i].number == c[0].number + i
    ensures c[0].number == Level(w, from) + 1
    decreases i
  {
    if i > 0 {
      ChainNumbers(w, m, from, c, tip, i - 1);
    }
  }

  /** The consecutive numbers c covers. */
  ghost predicate Rising(c: seq<Header>) {
    c != [] && forall i | 0 <= i < |c| :: c[i].number == c[0].number + i
  }

  ghost predicate Covers(c: seq<Header>, n: nat) {
    c != [] && c[0].number <= n < c[0].number + |c|
  }

  lemma {:induction false} InsertAllAt(canon: Canon, c: seq<Header>, n: nat)
    requires Rising(c)
    ensures Get(InsertAll(canon, c), n) == if Covers(c, n) then Some(c[n - c[0].number].hash) else Get(canon, n)
    decreases |c|
  {
    if |c| > 1 {
      InsertAllAt(canon, c[..|c| - 1], n);
    } else {
      assert InsertAll(canon, c[..0]) == canon;
    }
  }

  lemma {:induction false} RemoveAllAt(canon: Canon, c: seq<Header>, n: nat)
    requires Rising(c)
    ensures Get(RemoveAll(canon, c), n) ==
      if Covers(c, n) && Get(canon, n) == Some(c[n - c[0].number].hash) then None else Get(canon, n)
    decreases |c|
  {
    if |c| > 1 {
      RemoveAllAt(canon, c[..|c| - 1], n);
    } else {
      assert RemoveAll(canon, c[..0]) == canon;
    }
  }

  /** In the contiguous part, the index agrees with walking down the real chain from the head. */
  lemma {:induction false} IndexIsAncestry(w: World, s: Ledger, n: nat)
    requires Proper(w) && IndexOk(w, s) && s.lo <= n <= s.head.number
    ensures n in s.canon && s.canon[n] in w.headers && w.headers[s.canon[n]].number == n
    ensures Walk(w.headers, s.head.hash, s.head.number - n) == Some(s.canon[n])
    decreases s.head.number - n
  {
    assert EntryOk(w, s.canon, s.head, s.lo, n);
    if n < s.head.number {
      IndexIsAncestry(w, s, n + 1);
      assert EntryOk(w, s.canon, s.head, s.lo, n + 1);
      WalkAdd(w.headers, s.head.hash, s.head.number - n - 1, 1);
      var x := s.canon[n + 1];
      assert Walk(w.headers, x, 1) == Walk(w.headers, w.headers[x].parent, 0);
    }
  }

  /** Both chains of an update start just above the fork point and cover every number up to their tips. */
  lemma UpdateShape(w: World, rules: Rules, s: Ledger, target: Hash, u: NewCanonicalChain)
    requires StoreOk(w, rules, s) && IsUpdate(s.blocks, s.head.hash, target, u)
    ensures Rising(u.added) && target in s.blocks && u.Tip() == s.blocks[target]
    ensures u.added[0].number + |u.added| == u.Tip().number + 1
    ensures u.added[0].number + |u.Removed()| == s.head.number + 1
    ensures u.Reorg? ==> Rising(u.removed) && u.removed[0].number == u.added[0].number
  {
    var fork := Walk(s.blocks, target, |u.added|).value;
    forall i | 0 <= i < |u.added| ensures u.added[i].number == u.added[0].number + i {
      ChainNumbers(w, s.blocks, fork, u.added, target, i);
    }
    ChainNumbers(w, s.blocks, fork, u.added, target, 0);
    WalkLevel(w, s.blocks, s.head.hash, |u.Removed()|);
    if u.Reorg? {
      forall i | 0 <= i < |u.removed| ensures u.removed[i].number == u.removed[0].number + i {
        ChainNumbers(w, s.blocks, fork, u.removed, s.head.hash, i);
      }
      ChainNumbers(w, s.blocks, fork, u.removed, s.head.hash, 0);
    }
  }

  /** The removed chain is the walk down from the head, and what the index lists where it is contiguous. */
  lemma RemovedIsIndexed(w: World, rules: Rules, s: Ledger, target: Hash, u: NewCanonicalChain, n: nat)
    requires StoreOk(w, rules, s) && IndexOk(w, s) && IsUpdate(s.blocks, s.head.hash, target, u)
    requires u.Reorg? && u.added[0].number <= n <= s.head.number
    ensures 0 <= n - u.added[0].number < |u.removed|
    ensures Walk(s.blocks, s.head.hash, s.head.number - n) == Some(u.removed[n - u.added[0].number].hash)
    ensures s.lo <= n ==> n in s.canon && s.canon[n] == u.removed[n - u.added[0].number].hash
  {
    UpdateShape(w, rules, s, target, u);
    var fork := Walk(s.blocks, target, |u.added|).value;
    var k := s.head.number - n;
    ChainIsWalk(s.blocks, fork, u.removed, s.head.hash, k);
    if s.lo <= n {
      IndexIsAncestry(w, s, n);
      WalkMonotone(s.blocks, w.headers, s.head.hash, k);
    }
  }

  /** What the index holds at n after an update. */
  ghost function IndexAfter(s: Ledger, u: NewCanonicalChain, n: nat): Option<Hash>
    requires u.added != []
  {
    if Covers(u.added, n) then Some(u.added[n - u.added[0].number].hash)
    else if u.added[0].number <= n <= s.head.number
         && Get(s.canon, n) == Walk(s.blocks, s.head.hash, s.head.number - n) then None
    else Get(s.canon, n)
  }

  lemma UpdatedAt(w: World, rules: Rules, s: Ledger, target: Hash, u: NewCanonicalChain, n: nat)
    requires StoreOk(w, rules, s) && IndexOk(w, s) && IsUpdate(s.blocks, s.head.hash, target, u)
    ensures Get(Updated(s, u).canon, n) == IndexAfter(s, u, n)
  {
    UpdateShape(w, rules, s, target, u);
    RemovedAt(w, rules, s, target, u, n);
    InsertAllAt(RemoveAll(s.canon, u.Removed()), u.added, n);
  }

  /** Removing the old chain clears the numbers above the fork point whose entries are on the head's walk. */
  lemma RemovedAt(w: World, rules: Rules, s: Ledger, target: Hash, u: NewCanonicalChain, n: nat)
    requires StoreOk(w, rules, s) && IndexOk(w, s) && IsUpdate(s.blocks, s.head.hash, target, u)
    ensures
      Get(RemoveAll(s.canon, u.Removed()), n) ==
      if u.added[0].number <= n <= s.head.number
         && Get(s.canon, n) == Walk(s.blocks, s.head.hash, s.head.number - n) then None
      else Get(s.canon, n)
  {
    UpdateShape(w, rules, s, target, u);
    if u.Reorg? {
      RemoveAllAt(s.canon, u.removed, n);
      if u.added[0].number <= n <= s.head.number {
        RemovedIsIndexed(w, rules, s, target, u, n);
      }
    }
  }

  /** Every number is listed correctly after an update that leaves no stale entry. */
  lemma UpdatedListed(w: World, rules: Rules, s: Ledger, target: Hash, u: NewCanonicalChain, n: nat)
    requires StoreOk(w, rules, s) && IndexOk(w, s) && IsUpdate(s.blocks, s.head.hash, target, u)
    requires NoStale(s, u)
    ensures
      var s' := Updated(s, u);
      && (n in s'.canon ==>
            n <= s'.head.number && s'.canon[n] in w.headers && w.headers[s'.canon[n]].number == n)
      && (s'.lo <= n <= s'.head.number ==> n in s'.canon)
  {
    UpdateShape(w, rules, s, target, u);
    UpdatedAt(w, rules, s, target, u, n);
    assert EntryOk(w, s.canon, s.head, s.lo, n);
    if u.added[0].number <= n <= s.head.number && u.Reorg? {
      RemovedIsIndexed(w, rules, s, target, u, n);
    }
  }

  /** Just below the lowest added block, the index after an update holds the fork point. */
  lemma UpdatedForkPoint(w: World, rules: Rules, s: Ledger, target: Hash, u: NewCanonicalChain)
    requires StoreOk(w, rules, s) && IndexOk(w, s) && IsUpdate(s.blocks, s.head.hash, target, u)
    requires Updated(s, u).lo < u.added[0].number
    ensures Get(Updated(s, u).canon, u.added[0].number - 1) == Some(u.added[0].parent)
  {
    UpdateShape(w, rules, s, target, u);
    ForkPointIndexed(w, rules, s, target, u);
    UpdatedAt(w, rules, s, target, u, u.added[0].number - 1);
  }

  /** The fork point is the head's ancestor just below the lowest added block, and so is what the index holds. */
  lemma ForkPointIndexed(w: World, rules: Rules, s: Ledger, target: Hash, u: NewCanonicalChain)
    requires StoreOk(w, rules, s) && IndexOk(w, s) && IsUpdate(s.blocks, s.head.hash, target, u)
    requires s.lo < u.added[0].number
    ensures Get(s.canon, u.added[0].number - 1) == Some(u.added[0].parent)
  {
    UpdateShape(w, rules, s, target, u);
    WalkMonotone(s.blocks, w.headers, s.head.hash, |u.Removed()|);
    IndexIsAncestry(w, s, u.added[0].number - 1);
  }

  /** The entries at n and below it are there, and linked. */
  ghost predicate LinkedAt(w: World, canon: Canon, n: nat) {
    && 0 < n && n in canon && n - 1 in canon
    && canon[n] in w.headers && w.headers[canon[n]].parent == canon[n - 1]
  }

  /** Below the lowest added block, the index after an update is linked as before. */
  lemma UpdatedLinkedBelow(w: World, rules: Rules, s: Ledger, target: Hash, u: NewCanonicalChain, n: nat)
    requires StoreOk(w, rules, s) && IndexOk(w, s) && IsUpdate(s.blocks, s.head.hash, target, u)
    requires Updated(s, u).lo < n < u.added[0].number
    ensures LinkedAt(w, Updated(s, u).canon, n)
  {
    UpdateShape(w, rules, s, target, u);
    UpdatedAt(w, rules, s, target, u, n);
    UpdatedAt(w, rules, s, target, u, n - 1);
    assert EntryOk(w, s.canon, s.head, s.lo, n);
  }

  /** Every entry after an update is linked to the one below it. */
  lemma UpdatedLinked(w: World, rules: Rules, s: Ledger, target: Hash, u: NewCanonicalChain, n: nat)
    requires StoreOk(w, rules, s) && IndexOk(w, s) && IsUpdate(s.blocks, s.head.hash, target, u)
    requires Updated(s, u).lo < n <= Updated(s, u).head.number
    ensures LinkedAt(w, Updated(s, u).canon, n)
  {
    if n < u.added[0].number {
      UpdatedLinkedBelow(w, rules, s, target, u, n);
    } else if n == u.added[0].number {
      UpdatedLinkedAtFork(w, rules, s, target, u);
    } else {
      UpdatedHead(w, rules, s, target, u);
      UpdatedLinkedAbove(w, rules, s, target, u, n - u.added[0].number);
    }
  }

  lemma UpdatedHead(w: World, rules: Rules, s: Ledger, target: Hash, u: NewCanonicalChain)
    requires StoreOk(w, rules, s) && IsUpdate(s.blocks, s.head.hash, target, u)
    ensures Updated(s, u).head.number + 1 == u.added[0].number + |u.added|
  {
    UpdateShape(w, rules, s, target, u);
  }

  /** The lowest added block is linked to the fork point. */
  lemma UpdatedLinkedAtFork(w: World, rules: Rules, s: Ledger, target: Hash, u: NewCanonicalChain)
    requires StoreOk(w, rules, s) && IndexOk(w, s) && IsUpdate(s.blocks, s.head.hash, target, u)
    requires Updated(s, u).lo < u.added[0].number
    ensures LinkedAt(w, Updated(s, u).canon, u.added[0].number)
  {
    UpdatedAdded(w, rules, s, target, u, 0);
    UpdatedForkPoint(w, rules, s, target, u);
  }

  /** Above it, the index after an update lists the added blocks. */
  lemma UpdatedLinkedAbove(w: World, rules: Rules, s: Ledger, target: Hash, u: NewCanonicalChain, i: nat)
    requires StoreOk(w, rules, s) && IsUpdate(s.blocks, s.head.hash, target, u) && 0 < i < |u.added|
    ensures LinkedAt(w, Updated(s, u).canon, u.added[0].number + i)
  {
    UpdatedAdded(w, rules, s, target, u, i - 1);
    UpdatedAdded(w, rules, s, target, u, i);
    assert u.added[i].parent == u.added[i - 1].hash;
  }

  lemma UpdatedAdded(w: World, rules: Rules, s: Ledger, target: Hash, u: NewCanonicalChain, i: nat)
    requires StoreOk(w, rules, s) && IsUpdate(s.blocks, s.head.hash, target, u) && i < |u.added|
    ensures Get(Updated(s, u).canon, u.added[0].number + i) == Some(u.added[i].hash)
    ensures u.added[i].hash in w.headers && w.headers[u.added[i].hash] == u.added[i]
  {
    UpdateShape(w, rules, s, target, u);
    InsertAllAt(RemoveAll(s.canon, u.Removed()), u.added, u.added[0].number + i);
  }

  lemma UpdatedEntryOk(w: World, rules: Rules, s: Ledger, target: Hash, u: NewCanonicalChain, n: nat)
    requires StoreOk(w, rules, s) && IndexOk(w, s) && IsUpdate(s.blocks, s.head.hash, target, u)
    requires NoStale(s, u)
    ensures EntryOk(w, Updated(s, u).canon, Updated(s, u).head, Updated(s, u).lo, n)
  {
    UpdatedListed(w, rules, s, target, u, n);
    if Updated(s, u).lo < n <= Updated(s, u).head.number {
      UpdatedLinked(w, rules, s, target, u, n);
    }
  }

  lemma NoStaleKeepsIndex(w: World, rules: Rules, s: Ledger, target: Hash, u: NewCanonicalChain)
    requires StoreOk(w, rules, s) && IndexOk(w, s) && IsUpdate(s.blocks, s.head.hash, target, u)
    requires NoStale(s, u)
    ensures IndexOk(w, Updated(s, u))
  {
    var s' := Updated(s, u);
    UpdateShape(w, rules, s, target, u);
    forall n: nat ensures EntryOk(w, s'.canon, s'.head, s'.lo, n) {
      UpdatedEntryOk(w, rules, s, target, u, n);
    }
    UpdatedAt(w, rules, s, target, u, s'.head.number);
  }

  /** A foreign entry above the new tip stays. */
  lemma StaleEntryStays(w: World, rules: Rules, s: Ledger, target: Hash, u: NewCanonicalChain, n: nat)
    requires StoreOk(w, rules, s) && IndexOk(w, s) && IsUpdate(s.blocks, s.head.hash, target, u)
    requires n in s.canon && u.Tip().number < n <= s.head.number
    requires Walk(s.blocks, s.head.hash, s.head.number - n) != Some(s.canon[n])
    ensures !IndexOk(w, Updated(s, u))
  {
    UpdateShape(w, rules, s, target, u);
    UpdatedAt(w, rules, s, target, u, n);
    var s' := Updated(s, u);
    assert !EntryOk(w, s'.canon, s'.head, s'.lo, n);
  }

  /** An update of a sound index gives a sound index exactly when it leaves no stale entry above the new tip. */
  lemma UpdateKeepsIndexExactly(w: World, rules: Rules, s: Ledger, target: Hash, u: NewCanonicalChain)
    requires StoreOk(w, rules, s) && IndexOk(w, s) && IsUpdate(s.blocks, s.head.hash, target, u)
    ensures IndexOk(w, Updated(s, u)) <==> NoStale(s, u)
  {
    if NoStale(s, u) {
      NoStaleKeepsIndex(w, rules, s, target, u);
    } else {
      var n :| n in s.canon && u.Tip().number < n < s.lo && n <= s.head.number
        && Walk(s.blocks, s.head.hash, s.head.number - n) != Some(s.canon[n]);
      StaleEntryStays(w, rules, s, target, u, n);
    }
  }

  lemma {:induction false} InsertAllReal(w: World, canon: Canon, c: seq<Header>)
    requires CanonReal(w, canon)
    requires forall i | 0 <= i < |c| :: c[i].hash in w.headers && w.headers[c[i].hash] == c[i]
    ensures CanonReal(w, InsertAll(canon, c))
    decreases |c|
  {
    if c != [] {
      InsertAllReal(w, canon, c[..|c| - 1]);
    }
  }

  lemma {:induction false} RemoveAllFewer(canon: Canon, c: seq<Header>)
    ensures forall n | n in RemoveAll(canon, c) :: n in canon && canon[n] == RemoveAll(canon, c)[n]
    decreases |c|
  {
    if c != [] {
      RemoveAllFewer(canon, c[..|c| - 1]);
    }
  }

  lemma UpdatedKeepsStore(w: World, rules: Rules, s: Ledger, target: Hash, u: NewCanonicalChain)
    requires StoreOk(w, rules, s) && IsUpdate(s.blocks, s.head.hash, target, u)
    ensures StoreOk(w, rules, Updated(s, u))
  {
    UpdateShape(w, rules, s, target, u);
    RemoveAllFewer(s.canon, u.Removed());
    InsertAllReal(w, RemoveAll(s.canon, u.Removed()), u.added);
    forall h | h in s.blocks && Verified(rules, s, h) ensures Verified(rules, Updated(s, u), h) {
    }
  }

  lemma UpdatedKeepsInv(w: World, rules: Rules, s: Ledger, target: Hash, u: NewCanonicalChain)
    requires Inv(w, rules, s) && IsUpdate(s.blocks, s.head.hash, target, u)
    ensures Inv(w, rules, Updated(s, u))
  {
    UpdatedKeepsStore(w, rules, s, target, u);
    if s.tidy {
      UpdateKeepsIndexExactly(w, rules, s, target, u);
    }
  }

  // ----- Pruning

  lemma PrunedKeepsStore(w: World, rules: Rules, s: Ledger, number: nat)
    requires StoreOk(w, rules, s)
    ensures StoreOk(w, rules, Pruned(s, number))
  {
    var s' := Pruned(s, number);
    forall h | h in s'.blocks
      ensures h in s'.roots || s'.blocks[h].number <= s'.floor || Verified(rules, s', h)
    {
      if h !in s'.roots && s'.floor < s'.blocks[h].number {
        assert Verified(rules, s, h);
        assert Verified(rules, s', h);
      }
    }
  }

  /** An indexed hash is indexed under its own number, which the head's number bounds. */
  lemma IndexedUnderNumber(w: World, s: Ledger, h: Hash)
    requires Indexed(w, s.canon, s.head, s.lo) && h in s.canon.Values
    ensures h in w.headers && w.headers[h].number <= s.head.number
    ensures Get(s.canon, w.headers[h].number) == Some(h)
  {
    var n :| n in s.canon && s.canon[n] == h;
    assert EntryOk(w, s.canon, s.head, s.lo, n);
  }

  /** Pruning at an indexed stored block never drops the head. */
  lemma PrunedKeepsIndex(w: World, rules: Rules, s: Ledger, finalized: Hash)
    requires StoreOk(w, rules, s) && IndexOk(w, s)
    requires finalized in s.blocks && finalized in s.canon.Values
    ensures IndexOk(w, Pruned(s, s.blocks[finalized].number))
  {
    IndexedUnderNumber(w, s, finalized);
    var s' := Pruned(s, s.blocks[finalized].number);
    forall n: nat ensures EntryOk(w, s'.canon, s'.head, s'.lo, n) {
      assert EntryOk(w, s.canon, s.head, s.lo, n);
    }
  }

  // ----- Checkpoint jumps

  lemma {:induction false} InsertFallingAt(canon: Canon, top: nat, c: seq<Header>, n: nat)
    requires forall i | 0 <= i < |c| :: c[i].number + i + 1 == top
    ensures |c| <= top
    ensures Get(InsertAll(canon, c), n) ==
      if top - |c| <= n < top then Some(c[top - 1 - n].hash) else Get(canon, n)
    decreases |c|
  {
    if |c| > 0 {
      InsertFallingAt(canon, top, c[..|c| - 1], n);
      assert c[|c| - 1].number + |c| == top;
    }
  }

  lemma {:induction false} LineageNumbers(w: World, checkpoint: Header, ancestors: seq<Header>, i: nat)
    requires Lineage(w, checkpoint, ancestors) && i < |ancestors|
    ensures ancestors[i].number + i + 1 == checkpoint.number
  {
    if i > 0 {
      LineageNumbers(w, checkpoint, ancestors, i - 1);
    }
  }

  /** What the index holds after a jump: the checkpoint, its ancestors, and elsewhere what was there before. */
  lemma JumpedAt(w: World, s: Ledger, checkpoint: Header, ancestors: seq<Header>, n: nat)
    requires Lineage(w, checkpoint, ancestors)
    ensures |ancestors| <= checkpoint.number
    ensures
      Get(Jumped(s, checkpoint, ancestors).canon, n) ==
      if n == checkpoint.number then Some(checkpoint.hash)
      else if checkpoint.number - |ancestors| <= n < checkpoint.number
        then Some(ancestors[checkpoint.number - 1 - n].hash)
      else Get(s.canon, n)
  {
    forall i | 0 <= i < |ancestors| ensures ancestors[i].number + i + 1 == checkpoint.number {
      LineageNumbers(w, checkpoint, ancestors, i);
    }
    InsertFallingAt(s.canon[checkpoint.number := checkpoint.hash], checkpoint.number, ancestors, n);
  }

  lemma JumpedKeepsStore(w: World, rules: Rules, s: Ledger, checkpoint: Header, ancestors: seq<Header>)
    requires StoreOk(w, rules, s) && Lineage(w, checkpoint, ancestors)
    ensures StoreOk(w, rules, Jumped(s, checkpoint, ancestors))
  {
    var s' := Jumped(s, checkpoint, ancestors);
    assert checkpoint.parent == ancestors[0].hash;
    InsertAllReal(w, s.canon[checkpoint.number := checkpoint.hash], ancestors);
    forall h | h in s'.blocks
      ensures h in s'.roots || s'.blocks[h].number <= s'.floor || Verified(rules, s', h)
    {
      if h != checkpoint.hash && Verified(rules, s, h) {
        assert Verified(rules, s', h);
      }
    }
  }

  lemma JumpedEntryOk(w: World, s: Ledger, checkpoint: Header, ancestors: seq<Header>, n: nat)
    requires IndexOk(w, s) && Lineage(w, checkpoint, ancestors) && s.head.number <= checkpoint.number
    ensures var s' := Jumped(s, checkpoint, ancestors); EntryOk(w, s'.canon, s'.head, s'.lo, n)
  {
    JumpedAt(w, s, checkpoint, ancestors, n);
    assert EntryOk(w, s.canon, s.head, s.lo, n);
    var i := checkpoint.number - 1 - n;
    if 0 <= i < |ancestors| {
      LineageNumbers(w, checkpoint, ancestors, i);
      assert ancestors[i].hash in w.headers && w.headers[ancestors[i].hash] == ancestors[i];
    }
    if checkpoint.number - |ancestors| < n <= checkpoint.number {
      JumpedAt(w, s, checkpoint, ancestors, n - 1);
      assert 0 <= i + 1 < |ancestors|;
    }
  }

  /**
   * The download of a finalized checkpoint inserts without removing: from a sound index it gives a sound
   * index exactly when the checkpoint is not below the head.
   */
  lemma JumpKeepsIndexExactly(w: World, rules: Rules, s: Ledger, checkpoint: Header, ancestors: seq<Header>)
    requires StoreOk(w, rules, s) && IndexOk(w, s) && Lineage(w, checkpoint, ancestors)
    ensures IndexOk(w, Jumped(s, checkpoint, ancestors)) <==> s.head.number <= checkpoint.number
  {
    var s' := Jumped(s, checkpoint, ancestors);
    JumpedAt(w, s, checkpoint, ancestors, checkpoint.number);
    if s.head.number <= checkpoint.number {
      forall n: nat ensures EntryOk(w, s'.canon, s'.head, s'.lo, n) {
        JumpedEntryOk(w, s, checkpoint, ancestors, n);
      }
    } else {
      JumpedAt(w, s, checkpoint, ancestors, s.head.number);
      assert !EntryOk(w, s'.canon, s'.head, s'.lo, s.head.number);
    }
  }

  // ----- Runs

  datatype Event =
    | Store(block: Header, proof: Proof)
    | Update(target: Hash, update: NewCanonicalChain)
    | Prune(finalized: Hash)
    | Jump(checkpoint: Header, ancestors: seq<Header>)

  ghost predicate Enabled(w: World, rules: Rules, s: Ledger, e: Event) {
    match e
    case Store(b, proof) =>
      && b.hash in w.headers && w.headers[b.hash] == b && b.hash !in s.blocks && b.parent in s.blocks
      && rules.preValid(b) && rules.verify(b, s.blocks[b.parent], proof) == Accept
    case Update(target, u) => IsUpdate(s.blocks, s.head.hash, target, u)
    case Prune(f) => f in s.blocks && f in s.canon.Values
    case Jump(c, ancestors) => CheckpointOk(w, c, ancestors)
  }

  ghost function Apply(w: World, rules: Rules, s: Ledger, e: Event): Ledger
    requires Enabled(w, rules, s, e)
  {
    match e
    case Store(b, proof) => Stored(s, b, proof)
    case Update(_, u) => Updated(s, u)
    case Prune(f) => Pruned(s, s.blocks[f].number)
    case Jump(c, ancestors) => Jumped(s, c, ancestors)
  }

  /** The events that keep a sound index sound. */
  ghost predicate Harmless(w: World, rules: Rules, s: Ledger, e: Event)
    requires Enabled(w, rules, s, e)
  {
    match e
    case Update(_, u) => NoStale(s, u)
    case Jump(c, _) => s.head.number <= c.number
    case _ => true
  }

  lemma StepKeepsInv(w: World, rules: Rules, s: Ledger, e: Event)
    requires Inv(w, rules, s) && Enabled(w, rules, s, e)
    ensures Inv(w, rules, Apply(w, rules, s, e))
  {
    match e
    case Store(b, proof) => StoredKeepsInv(w, rules, s, b, proof);
    case Update(target, u) => UpdatedKeepsInv(w, rules, s, target, u);
    case Prune(f) =>
      PrunedKeepsStore(w, rules, s, s.blocks[f].number);
      if s.tidy {
        PrunedKeepsIndex(w, rules, s, f);
      }
    case Jump(c, ancestors) =>
      JumpedKeepsStore(w, rules, s, c, ancestors);
      if s.tidy {
        JumpKeepsIndexExactly(w, rules, s, c, ancestors);
      }
  }

  ghost predicate CanRun(w: World, rules: Rules, s: Ledger, es: seq<Event>)
    decreases |es|
  {
    es == [] || (Enabled(w, rules, s, es[0]) && CanRun(w, rules, Apply(w, rules, s, es[0]), es[1..]))
  }

  ghost function Run(w: World, rules: Rules, s: Ledger, es: seq<Event>): Ledger
    requires CanRun(w, rules, s, es)
    decreases |es|
  {
    if es == [] then s else Run(w, rules, Apply(w, rules, s, es[0]), es[1..])
  }

  /** Every event of the run is harmless where it happens. */
  ghost predicate HarmlessRun(w: World, rules: Rules, s: Ledger, es: seq<Event>)
    requires CanRun(w, rules, s, es)
    decreases |es|
  {
    es == [] || (Harmless(w, rules, s, es[0]) && HarmlessRun(w, rules, Apply(w, rules, s, es[0]), es[1..]))
  }

  lemma {:induction false} RunKeepsInv(w: World, rules: Rules, s: Ledger, es: seq<Event>)
    requires Inv(w, rules, s) && CanRun(w, rules, s, es)
    ensures Inv(w, rules, Run(w, rules, s, es))
    ensures Run(w, rules, s, es).tidy <==> s.tidy && HarmlessRun(w, rules, s, es)
    decreases |es|
  {
    if es != [] {
      StepKeepsInv(w, rules, s, es[0]);
      RunKeepsInv(w, rules, Apply(w, rules, s, es[0]), es[1..]);
    }
  }

  lemma RunFromGenesis(w: World, rules: Rules, g: Header, es: seq<Event>)
    requires Proper(w) && ChecksNumber(rules)
    requires g.hash in w.headers && w.headers[g.hash] == g && g.number == 0 && g.parent == ZERO
    requires CanRun(w, rules, Genesis(g), es)
    ensures Inv(w, rules, Run(w, rules, Genesis(g), es))
    ensures Run(w, rules, Genesis(g), es).tidy <==> HarmlessRun(w, rules, Genesis(g), es)
  {
    GenesisInv(w, rules, g);
    RunKeepsInv(w, rules, Genesis(g), es);
  }

  // ----- Exactly when the index stays sound

  lemma StepKeepsIndexExactly(w: World, rules: Rules, s: Ledger, e: Event)
    requires StoreOk(w, rules, s) && IndexOk(w, s) && Enabled(w, rules, s, e)
    ensures IndexOk(w, Apply(w, rules, s, e)) <==> Harmless(w, rules, s, e)
  {
    match e
    case Store(b, proof) =>
    case Update(target, u) => UpdateKeepsIndexExactly(w, rules, s, target, u);
    case Prune(f) => PrunedKeepsIndex(w, rules, s, f);
    case Jump(c, ancestors) => JumpKeepsIndexExactly(w, rules, s, c, ancestors);
  }

  /** The index is sound in every state of the run. */
  ghost predicate SoundThroughout(w: World, rules: Rules, s: Ledger, es: seq<Event>)
    requires CanRun(w, rules, s, es)
    decreases |es|
  {
    IndexOk(w, s) && (es == [] || SoundThroughout(w, rules, Apply(w, rules, s, es[0]), es[1..]))
  }

  /** From a sound index on, the index stays sound throughout a run exactly when every event is harmless. */
  lemma {:induction false} SoundThroughoutExactly(w: World, rules: Rules, s: Ledger, es: seq<Event>)
    requires Inv(w, rules, s) && IndexOk(w, s) && CanRun(w, rules, s, es)
    ensures SoundThroughout(w, rules, s, es) <==> HarmlessRun(w, rules, s, es)
    decreases |es|
  {
    if es != [] {
      var next := Apply(w, rules, s, es[0]);
      StepKeepsInv(w, rules, s, es[0]);
      StepKeepsIndexExactly(w, rules, s, es[0]);
      if IndexOk(w, next) {
        SoundThroughoutExactly(w, rules, next, es[1..]);
      } else {
        assert !SoundThroughout(w, rules, next, es[1..]);
      }
    }
  }

  /** For runs from genesis: the index is sound in every state exactly when every event is harmless. */
  lemma SoundRunsExactly(w: World, rules: Rules, g: Header, es: seq<Event>)
    requires Proper(w) && ChecksNumber(rules)
    requires g.hash in w.headers && w.headers[g.hash] == g && g.number == 0 && g.parent == ZERO
    requires CanRun(w, rules, Genesis(g), es)
    ensures SoundThroughout(w, rules, Genesis(g), es) <==> HarmlessRun(w, rules, Genesis(g), es)
  {
    GenesisInv(w, rules, g);
    SoundThroughoutExactly(w, rules, Genesis(g), es);
  }

  // ----- Where roots, the pruning floor and the low end of the index come from

  /** The contiguous part reaches down to the window of the last pruning, or of some root. */
  ghost predicate LowBound(w: World, s: Ledger) {
    || s.lo <= WindowStart(s.floor)
    || exists root :: root in s.roots && root in w.headers && s.lo <= WindowStart(w.headers[root].number)
  }

  lemma StepKeepsLowBound(w: World, rules: Rules, s: Ledger, e: Event)
    requires LowBound(w, s) && Enabled(w, rules, s, e)
    ensures LowBound(w, Apply(w, rules, s, e))
  {
    var s' := Apply(w, rules, s, e);
    if e.Jump? {
      assert e.checkpoint.hash in s'.roots;
    } else if s.lo > WindowStart(s.floor) && s'.lo > WindowStart(s'.floor) {
      var root :| root in s.roots && root in w.headers && s.lo <= WindowStart(w.headers[root].number);
      assert root in s'.roots;
    }
  }

  lemma {:induction false} RunKeepsLowBound(w: World, rules: Rules, s: Ledger, es: seq<Event>)
    requires LowBound(w, s) && CanRun(w, rules, s, es)
    ensures LowBound(w, Run(w, rules, s, es))
    decreases |es|
  {
    if es != [] {
      StepKeepsLowBound(w, rules, s, es[0]);
      RunKeepsLowBound(w, rules, Apply(w, rules, s, es[0]), es[1..]);
    }
  }

  /** h is the checkpoint of some jump. */
  ghost predicate JumpedTo(es: seq<Event>, h: Hash) {
    exists e :: e in es && e.Jump? && e.checkpoint.hash == h
  }

  /** n is the number of some finalized block that was pruned at. */
  ghost predicate PrunedAt(w: World, es: seq<Event>, n: nat) {
    exists e :: e in es && e.Prune? && e.finalized in w.headers && w.headers[e.finalized].number == n
  }

  lemma {:induction false} RunOrigins(w: World, rules: Rules, s: Ledger, es: seq<Event>)
    requires Inv(w, rules, s) && CanRun(w, rules, s, es)
    ensures forall h | h in Run(w, rules, s, es).roots :: h in s.roots || JumpedTo(es, h)
    ensures Run(w, rules, s, es).floor == s.floor || PrunedAt(w, es, Run(w, rules, s, es).floor)
    decreases |es|
  {
    if es != [] {
      var next := Apply(w, rules, s, es[0]);
      StepKeepsInv(w, rules, s, es[0]);
      RunOrigins(w, rules, next, es[1..]);
      forall h | JumpedTo(es[1..], h) ensures JumpedTo(es, h) {
      }
      forall n: nat | PrunedAt(w, es[1..], n) ensures PrunedAt(w, es, n) {
      }
      if es[0].Jump? {
        assert JumpedTo(es, es[0].checkpoint.hash);
      }
      if es[0].Prune? {
        assert PrunedAt(w, es, s.blocks[es[0].finalized].number);
      }
    }
  }

  lemma {:induction false} RunAppend(w: World, rules: Rules, s: Ledger, es: seq<Event>, e: Event)
    requires CanRun(w, rules, s, es) && Enabled(w, rules, Run(w, rules, s, es), e)
    ensures CanRun(w, rules, s, es + [e])
    ensures Run(w, rules, s, es + [e]) == Apply(w, rules, Run(w, rules, s, es), e)
    decreases |es|
  {
    if es == [] {
      assert ([e])[1..] == [];
    } else {
      RunAppend(w, rules, Apply(w, rules, s, es[0]), es[1..], e);
      assert (es + [e])[1..] == es[1..] + [e];
    }
  }

  /** Where a run from genesis leads, if all its events are possible. */
  ghost function Replay(w: World, rules: Rules, g: Header, es: seq<Event>): Option<Ledger> {
    if CanRun(w, rules, Genesis(g), es) then Some(Run(w, rules, Genesis(g), es)) else None
  }

  lemma ReplayAppend(w: World, rules: Rules, g: Header, es: seq<Event>, s: Ledger, e: Event)
    requires Replay(w, rules, g, es) == Some(s) && Enabled(w, rules, s, e)
    ensures Replay(w, rules, g, es + [e]) == Some(Apply(w, rules, s, e))
  {
    RunAppend(w, rules, Genesis(g), es, e);
  }

  /** A sound index lists the head's true ancestors, and nothing above the head. */
  lemma IndexLists(w: World, s: Ledger)
    requires Proper(w) && IndexOk(w, s)
    ensures forall n | n in s.canon :: n <= s.head.number
    ensures forall n | s.lo <= n <= s.head.number ::
      n in s.canon && Walk(w.headers, s.head.hash, s.head.number - n) == Some(s.canon[n])
  {
    forall n | n in s.canon ensures n <= s.head.number {
      assert EntryOk(w, s.canon, s.head, s.lo, n);
    }
    forall n | s.lo <= n <= s.head.number
      ensures n in s.canon && Walk(w.headers, s.head.hash, s.head.number - n) == Some(s.canon[n])
    {
      IndexIsAncestry(w, s, n);
    }
  }

  /**
   * Over every run from genesis whose events are harmless, the index lists the head's true ancestors from
   * some low bound up to the head without a gap, nothing above the head, and the head is stored. That bound is
   * at or below the window of the last pruning or of some root.
   */
  lemma IndexAfterEveryRun(w: World, rules: Rules, g: Header, es: seq<Event>, s: Ledger)
    requires Proper(w) && ChecksNumber(rules)
    requires g.hash in w.headers && w.headers[g.hash] == g && g.number == 0 && g.parent == ZERO
    requires CanRun(w, rules, Genesis(g), es) && HarmlessRun(w, rules, Genesis(g), es)
    requires s == Run(w, rules, Genesis(g), es)
    ensures s.head.hash in s.blocks && s.lo <= s.head.number
    ensures forall n | n in s.canon :: n <= s.head.number
    ensures forall n | s.lo <= n <= s.head.number ::
      n in s.canon && Walk(w.headers, s.head.hash, s.head.number - n) == Some(s.canon[n])
    ensures LowBound(w, s)
  {
    HarmlessRunIndexed(w, rules, g, es, s);
    IndexLists(w, s);
    RunKeepsLowBound(w, rules, Genesis(g), es);
  }

  lemma HarmlessRunIndexed(w: World, rules: Rules, g: Header, es: seq<Event>, s: Ledger)
    requires Proper(w) && ChecksNumber(rules)
    requires g.hash in w.headers && w.headers[g.hash] == g && g.number == 0 && g.parent == ZERO
    requires CanRun(w, rules, Genesis(g), es) && HarmlessRun(w, rules, Genesis(g), es)
    requires s == Run(w, rules, Genesis(g), es)
    ensures IndexOk(w, s)
  {
    RunFromGenesis(w, rules, g, es);
  }

  /**
   * Over every run from genesis, each stored block is a root, or at the pruning floor or below, or was
   * verified with the proof still stored for it and has its parent stored one number lower. A root is genesis
   * or a downloaded checkpoint, and a positive pruning floor is the number of a finalized block pruned at.
   */
  lemma StoreAfterEveryRun(w: World, rules: Rules, g: Header, es: seq<Event>, h: Hash)
    requires Proper(w) && ChecksNumber(rules)
    requires g.hash in w.headers && w.headers[g.hash] == g && g.number == 0 && g.parent == ZERO
    requires CanRun(w, rules, Genesis(g), es)
    ensures
      var s := Run(w, rules, Genesis(g), es);
      && s.proofs.Keys <= s.blocks.Keys
      && (h in s.blocks ==> h in s.roots || s.blocks[h].number <= s.floor || Verified(rules, s, h))
      && (HarmlessRun(w, rules, Genesis(g), es) && h in s.blocks ==> s.floor <= s.blocks[h].number)
      && (forall root | root in s.roots :: root == g.hash || JumpedTo(es, root))
      && (s.floor == 0 || PrunedAt(w, es, s.floor))
  {
    GenesisInv(w, rules, g);
    RunFromGenesis(w, rules, g, es);
    RunOrigins(w, rules, Genesis(g), es);
  }

  // ----- Runs without checkpoint jumps

  /** The index lists nothing below its contiguous part. */
  ghost predicate NothingBelow(s: Ledger) {
    forall n | n in s.canon :: s.lo <= n
  }

  lemma StepKeepsNothingBelow(w: World, rules: Rules, s: Ledger, e: Event)
    requires Inv(w, rules, s) && s.tidy && NothingBelow(s) && Enabled(w, rules, s, e) && !e.Jump?
    ensures Harmless(w, rules, s, e) && NothingBelow(Apply(w, rules, s, e))
  {
    if e.Update? {
      var s' := Apply(w, rules, s, e);
      UpdateShape(w, rules, s, e.target, e.update);
      forall n | n in s'.canon ensures s'.lo <= n {
        UpdatedAt(w, rules, s, e.target, e.update, n);
      }
    }
  }

  /** Without checkpoint jumps every run is harmless: commits, reorgs, rewinds and prunes keep the index sound. */
  lemma {:induction false} RunWithoutJumpsIsHarmless(w: World, rules: Rules, s: Ledger, es: seq<Event>)
    requires Inv(w, rules, s) && s.tidy && NothingBelow(s) && CanRun(w, rules, s, es)
    requires forall e | e in es :: !e.Jump?
    ensures HarmlessRun(w, rules, s, es)
    decreases |es|
  {
    if es != [] {
      assert es[0] in es && forall e | e in es[1..] :: e in es;
      StepKeepsInv(w, rules, s, es[0]);
      StepKeepsNothingBelow(w, rules, s, es[0]);
      RunWithoutJumpsIsHarmless(w, rules, Apply(w, rules, s, es[0]), es[1..]);
    }
  }
}
