/** Block hashes by number: the lookup gives true ancestors, also after pruning. */
module BlockHashes {
  import opened Chain
  import opened ChainStates
  import opened Ledgers

  /** The lookup from the block d finds its true ancestor numbered n. */
  ghost predicate Serves(w: World, s: Ledger, d: Hash, n: nat) {
    && Proper(w) && Known(w, s.blocks) && d in w.headers && n <= w.headers[d].number
    && var r := Lookup(w, s.blocks, s.canon, NumHashOf(w.headers[d]), n);
    r.Some? && r == Walk(w.headers, d, w.headers[d].number - n)
  }

  /** The finalized block's parent is pruned from the store, but not from the index. */
  lemma FinalizedParent(w: World, rules: Rules, s: Ledger, f: Hash)
    requires StoreOk(w, rules, s) && IndexOk(w, s)
    requires f in s.blocks && f in s.canon.Values && s.blocks[f].number > 0
    requires s.lo <= WindowStart(s.blocks[f].number)
    ensures
      var p := ParentNumHash(s.blocks[f]);
      var s' := Pruned(s, s.blocks[f].number);
      p.hash !in s'.blocks && Get(s'.canon, p.number) == Some(p.hash)
  {
    IndexedUnderNumber(w, s, f);
    assert EntryOk(w, s.canon, s.head, s.lo, s.blocks[f].number);
  }

  /** Pruned at f, an index that was contiguous down to f's window gives the walk from f through the index. */
  lemma LookupFromFinalized(w: World, rules: Rules, s: Ledger, f: Hash, n: nat)
    requires StoreOk(w, rules, s) && IndexOk(w, s)
    requires f in s.blocks && f in s.canon.Values
    requires s.lo <= WindowStart(s.blocks[f].number)
    ensures FindsFrom(w, Pruned(s, s.blocks[f].number), f, WindowStart(s.blocks[f].number), n)
  {
    var number := s.blocks[f].number;
    IndexedUnderNumber(w, s, f);
    var s' := Pruned(s, number);
    if number > 0 {
      FinalizedParent(w, rules, s, f);
    }
    if WindowStart(number) <= n <= number {
      IndexedBelow(w, s, f, n);
    }
  }

  /** Below a canonical block, the index lists the block's ancestors. */
  lemma IndexedBelow(w: World, s: Ledger, h: Hash, n: nat)
    requires Proper(w) && IndexOk(w, s) && h in s.canon.Values && h in w.headers && s.lo <= n <= w.headers[h].number
    ensures n in s.canon && Walk(w.headers, h, w.headers[h].number - n) == Some(s.canon[n])
  {
    var number := w.headers[h].number;
    IndexedUnderNumber(w, s, h);
    IndexIsAncestry(w, s, number);
    IndexIsAncestry(w, s, n);
    WalkAdd(w.headers, s.head.hash, s.head.number - number, number - n);
  }

  /**
   * After pruning at a finalized block whose index window was contiguous, looking up a number from any
   * stored descendant-or-self d of it finds exactly d's true ancestor from the window's start up to d, and
   * nothing outside.
   */
  lemma LookupAfterPruning(w: World, rules: Rules, s: Ledger, f: Hash, d: Hash, k: nat, n: nat)
    requires StoreOk(w, rules, s) && IndexOk(w, s)
    requires f in s.blocks && f in s.canon.Values
    requires s.lo <= WindowStart(s.blocks[f].number)
    requires d in Pruned(s, s.blocks[f].number).blocks && Walk(Pruned(s, s.blocks[f].number).blocks, d, k) == Some(f)
    ensures FindsFrom(w, Pruned(s, s.blocks[f].number), d, WindowStart(s.blocks[f].number), n)
  {
    var s' := Pruned(s, s.blocks[f].number);
    LookupFromFinalized(w, rules, s, f, n);
    assert Numbered(w, s'.blocks);
    LookupAlongStored(w, s', f, d, k, WindowStart(s.blocks[f].number), n);
  }

  /** The lookup from the stored block d finds its true ancestor from the low number up to d, and nothing outside. */
  ghost predicate FindsFrom(w: World, s: Ledger, d: Hash, low: nat, n: nat) {
    && Proper(w) && Known(w, s.blocks) && d in s.blocks
    && var r := Lookup(w, s.blocks, s.canon, NumHashOf(s.blocks[d]), n);
    if low <= n <= s.blocks[d].number then r.Some? && r == Walk(w.headers, d, s.blocks[d].number - n) else r == None
  }

  /** What holds of the lookup from f holds of the lookup from every block above it. */
  lemma {:induction false} LookupAlongStored(w: World, s: Ledger, f: Hash, d: Hash, k: nat, low: nat, n: nat)
    requires Proper(w) && Numbered(w, s.blocks) && d in s.blocks && Walk(s.blocks, d, k) == Some(f)
    requires FindsFrom(w, s, f, low, n) && low <= s.blocks[f].number
    ensures FindsFrom(w, s, d, low, n) && low <= s.blocks[d].number
    decreases k
  {
    if k > 0 {
      var b := s.blocks[d];
      assert b.parent in s.blocks by {
        if k > 1 {
          assert Walk(s.blocks, b.parent, k - 1).Some?;
        }
      }
      LookupAlongStored(w, s, f, b.parent, k - 1, low, n);
      assert ParentNumHash(b) == NumHashOf(s.blocks[b.parent]);
    }
  }

  /**
   * The BLOCKHASH window survives pruning: executing a child of d, every number the opcode may ask for
   * (the 256 below the child's) is answered with the hash of the true ancestor.
   */
  lemma BlockHashWindowSurvivesPruning(w: World, rules: Rules, s: Ledger, f: Hash, d: Hash, n: nat)
    requires StoreOk(w, rules, s) && IndexOk(w, s)
    requires f in s.blocks && f in s.canon.Values
    requires s.lo <= WindowStart(s.blocks[f].number)
    requires d in Pruned(s, s.blocks[f].number).blocks && Reaches(Pruned(s, s.blocks[f].number).blocks, d, f)
    requires n < s.blocks[d].number + 1 <= n + 256
    ensures Serves(w, Pruned(s, s.blocks[f].number), d, n)
  {
    var s' := Pruned(s, s.blocks[f].number);
    var k: nat :| Walk(s'.blocks, d, k) == Some(f);
    LookupAfterPruning(w, rules, s, f, d, k, n);
  }

  /** Where the index reaches down far enough for every root, pruning above the roots keeps the window. */
  lemma PrunedWindow(w: World, rules: Rules, s: Ledger, f: Hash, d: Hash, n: nat)
    requires StoreOk(w, rules, s) && IndexOk(w, s) && LowBound(w, s)
    requires f in s.blocks && f in s.canon.Values
    requires forall root | root in s.roots && root in w.headers :: w.headers[root].number <= s.blocks[f].number
    requires d in Pruned(s, s.blocks[f].number).blocks && Reaches(Pruned(s, s.blocks[f].number).blocks, d, f)
    requires n < s.blocks[d].number + 1 <= n + BLOCK_HASH_WINDOW
    ensures Serves(w, Pruned(s, s.blocks[f].number), d, n)
  {
    BlockHashWindowSurvivesPruning(w, rules, s, f, d, n);
  }

  /**
   * After every harmless run, pruning at any canonical stored block not below a root leaves every BLOCKHASH
   * number answered: executing a child of a stored descendant-or-self d of the finalized block finds the true
   * ancestors.
   */
  lemma BlockHashAfterEveryRun(w: World, rules: Rules, g: Header, es: seq<Event>, s: Ledger, f: Hash, d: Hash, n: nat)
    requires Proper(w) && ChecksNumber(rules)
    requires g.hash in w.headers && w.headers[g.hash] == g && g.number == 0 && g.parent == ZERO
    requires CanRun(w, rules, Genesis(g), es) && HarmlessRun(w, rules, Genesis(g), es)
    requires s == Run(w, rules, Genesis(g), es)
    requires f in s.blocks && f in s.canon.Values
    requires forall root | root in s.roots && root in w.headers :: w.headers[root].number <= s.blocks[f].number
    requires d in Pruned(s, s.blocks[f].number).blocks && Reaches(Pruned(s, s.blocks[f].number).blocks, d, f)
    requires n < s.blocks[d].number + 1 <= n + BLOCK_HASH_WINDOW
    ensures Serves(w, Pruned(s, s.blocks[f].number), d, n)
  {
    RunFromGenesis(w, rules, g, es);
    RunKeepsLowBound(w, rules, Genesis(g), es);
    PrunedWindow(w, rules, s, f, d, n);
  }

  /** From a canonical block, the lookup agrees with walking the real chain, wherever the stored blocks end. */
  lemma {:induction false} LookupFromCanonical(w: World, rules: Rules, s: Ledger, m: nat, n: nat)
    requires StoreOk(w, rules, s) && IndexOk(w, s) && s.lo <= n <= m <= s.head.number
    ensures m in s.canon && Walk(w.headers, s.canon[m], m - n).Some?
    ensures Lookup(w, s.blocks, s.canon, NumHash(m, s.canon[m]), n) == Walk(w.headers, s.canon[m], m - n)
    decreases m
  {
    IndexIsAncestry(w, s, m);
    IndexIsAncestry(w, s, n);
    WalkAdd(w.headers, s.head.hash, s.head.number - m, m - n);
    var d := s.canon[m];
    if d in s.blocks && n < m {
      assert EntryOk(w, s.canon, s.head, s.lo, m);
      assert ParentNumHash(s.blocks[d]) == NumHash(m - 1, s.canon[m - 1]);
      LookupFromCanonical(w, rules, s, m - 1, n);
    }
  }

  /**
   * From any block that reaches a canonical one through stored blocks, side chains included, the lookup
   * agrees with walking the real chain, down to the low end of the index.
   */
  lemma {:induction false} LookupIsExact(w: World, rules: Rules, s: Ledger, d: Hash, k: nat, n: nat)
    requires StoreOk(w, rules, s) && IndexOk(w, s) && d in w.headers
    requires Walk(s.blocks, d, k).Some? && Walk(s.blocks, d, k).value in s.canon.Values
    requires s.lo <= Level(w, Walk(s.blocks, d, k).value)
    requires s.lo <= n <= w.headers[d].number
    ensures Walk(w.headers, d, w.headers[d].number - n).Some?
    ensures
      Lookup(w, s.blocks, s.canon, NumHashOf(w.headers[d]), n) == Walk(w.headers, d, w.headers[d].number - n)
    decreases k
  {
    var number := w.headers[d].number;
    if k == 0 {
      IndexedUnderNumber(w, s, d);
      LookupFromCanonical(w, rules, s, number, n);
    } else {
      WalkLevel(w, s.blocks, d, k);
      if n < number {
        LookupIsExact(w, rules, s, s.blocks[d].parent, k - 1, n);
      }
    }
  }

  // ----- From any real block

  /** The stored walk from d passes a block numbered n. */
  ghost predicate Passes(w: World, m: Blocks, d: Hash, n: nat) {
    exists h :: h in m && Reaches(m, d, h) && m[h].number == n
  }

  /** The stored walk from d ends, at n or above, on a canonical hash. */
  ghost predicate EndsCanonical(w: World, s: Ledger, d: Hash, n: nat) {
    exists e :: e in w.headers && EndsAt(s.blocks, d, e) && n <= w.headers[e].number
      && Get(s.canon, w.headers[e].number) == Some(e)
  }

  /** Where d is stored, both depend on its parent, unless d is numbered n itself. */
  lemma CoveredByParent(w: World, s: Ledger, d: Hash, n: nat)
    requires Proper(w) && Numbered(w, s.blocks) && d in s.blocks && s.blocks[d].number != n
    ensures Passes(w, s.blocks, d, n) <==> Passes(w, s.blocks, s.blocks[d].parent, n)
    ensures EndsCanonical(w, s, d, n) <==> EndsCanonical(w, s, s.blocks[d].parent, n)
  {
    var p := s.blocks[d].parent;
    if Passes(w, s.blocks, d, n) {
      var h :| h in s.blocks && Reaches(s.blocks, d, h) && s.blocks[h].number == n;
      var k: nat :| Walk(s.blocks, d, k) == Some(h);
      assert Walk(s.blocks, p, k - 1) == Some(h);
      assert Reaches(s.blocks, p, h);
    }
    if Passes(w, s.blocks, p, n) {
      var h :| h in s.blocks && Reaches(s.blocks, p, h) && s.blocks[h].number == n;
      ReachesParent(s.blocks, d);
      ReachesTrans(s.blocks, d, p, h);
    }
    forall e ensures EndsAt(s.blocks, d, e) <==> EndsAt(s.blocks, p, e) {
      EndsAtParent(s.blocks, d, e);
    }
  }

  /** Outside the store, nothing is passed and the walk ends at once. */
  lemma CoveredOutside(w: World, s: Ledger, d: Hash, n: nat)
    requires d !in s.blocks
    ensures !Passes(w, s.blocks, d, n)
    ensures EndsCanonical(w, s, d, n) <==>
      d in w.headers && n <= w.headers[d].number && Get(s.canon, w.headers[d].number) == Some(d)
  {
    forall h | Reaches(s.blocks, d, h) ensures h == d {
      var k: nat :| Walk(s.blocks, d, k) == Some(h);
      assert k == 0;
    }
    forall e ensures EndsAt(s.blocks, d, e) <==> e == d {
      EndsAtSelf(s.blocks, d, e);
    }
  }

  /** From the zero hash nothing is found. */
  lemma NothingAtZero(w: World, rules: Rules, s: Ledger, n: nat)
    requires StoreOk(w, rules, s)
    ensures Lookup(w, s.blocks, s.canon, NumHash(0, ZERO), n) == None
    ensures !Passes(w, s.blocks, ZERO, n) && !EndsCanonical(w, s, ZERO, n)
  {
    CoveredOutside(w, s, ZERO, n);
  }

  /**
   * From any real block, on whatever branch: a hash that the lookup finds is the block's true ancestor with that
   * number, and none is found above the block.
   */
  lemma {:induction false} LookupIsSound(w: World, rules: Rules, s: Ledger, d: Hash, n: nat)
    requires StoreOk(w, rules, s) && IndexOk(w, s) && d in w.headers && s.lo <= n
    ensures
      var r := Lookup(w, s.blocks, s.canon, NumHashOf(w.headers[d]), n);
      r.Some? ==> n <= w.headers[d].number && r == Walk(w.headers, d, w.headers[d].number - n)
    decreases w.rank(d)
  {
    if d in s.blocks && s.blocks[d].number != n {
      if s.blocks[d].number == 0 {
        NothingAtZero(w, rules, s, n);
      } else {
        assert ParentNumHash(s.blocks[d]) == NumHashOf(w.headers[s.blocks[d].parent]);
        LookupIsSound(w, rules, s, s.blocks[d].parent, n);
      }
    } else if d !in s.blocks && n <= w.headers[d].number && Get(s.canon, w.headers[d].number) == Some(d) {
      IndexedBelow(w, s, d, n);
    }
  }

  /**
   * It finds one exactly when the stored walk from the block passes the number, or ends on a canonical hash at
   * the number or above: where a side chain ends on a hash that is not canonical, it finds none.
   */
  lemma {:induction false} LookupFindsExactly(w: World, rules: Rules, s: Ledger, d: Hash, n: nat)
    requires StoreOk(w, rules, s) && IndexOk(w, s) && d in w.headers && s.lo <= n
    ensures
      Lookup(w, s.blocks, s.canon, NumHashOf(w.headers[d]), n).Some? <==>
      Passes(w, s.blocks, d, n) || EndsCanonical(w, s, d, n)
    decreases w.rank(d)
  {
    if d !in s.blocks {
      CoveredOutside(w, s, d, n);
      if n <= w.headers[d].number && Get(s.canon, w.headers[d].number) == Some(d) {
        IndexedBelow(w, s, d, n);
      }
    } else if s.blocks[d].number == n {
      ReachesSelf(s.blocks, d);
    } else {
      CoveredByParent(w, s, d, n);
      if s.blocks[d].number == 0 {
        NothingAtZero(w, rules, s, n);
      } else {
        assert ParentNumHash(s.blocks[d]) == NumHashOf(w.headers[s.blocks[d].parent]);
        LookupFindsExactly(w, rules, s, s.blocks[d].parent, n);
      }
    }
  }

  /**
   * What BLOCKHASH is answered while a child of the given real block is executed: a hash is the true ancestor with
   * that number, and there is one exactly when the stored walk passes the number or ends on a canonical hash.
   */
  method AskBlockHash(state: ChainState, parent: Header, number: nat, ghost w: World, ghost rules: Rules,
                      ghost s: Ledger)
    returns (r: Option<Hash>)
    requires StoreOk(w, rules, s) && IndexOk(w, s)
    requires s.blocks == state.blocksByHash && s.canon == state.canonicalHashesByNumber
    requires parent.hash in w.headers && w.headers[parent.hash] == parent && s.lo <= number
    ensures r.Some? ==> number <= parent.number && r == Walk(w.headers, parent.hash, parent.number - number)
    ensures r.Some? <==> Passes(w, s.blocks, parent.hash, number) || EndsCanonical(w, s, parent.hash, number)
  {
    LookupIsSound(w, rules, s, parent.hash, number);
    LookupFindsExactly(w, rules, s, parent.hash, number);
    r := state.BlockHash(NumHashOf(parent), number, w);
  }

  /**
   * A checkpoint downloaded with 256 ancestors serves the BLOCKHASH window at once: executing a child of any
   * stored descendant-or-self of it, every number the opcode may ask for is answered with the true ancestor.
   */
  lemma CheckpointServesWindow(w: World, rules: Rules, s: Ledger, checkpoint: Header, ancestors: seq<Header>,
                               d: Hash, n: nat)
    requires StoreOk(w, rules, s) && IndexOk(w, s) && Lineage(w, checkpoint, ancestors)
    requires s.head.number <= checkpoint.number && |ancestors| >= BLOCK_HASH_WINDOW
    requires d in w.headers && Reaches(Jumped(s, checkpoint, ancestors).blocks, d, checkpoint.hash)
    requires n <= w.headers[d].number < n + BLOCK_HASH_WINDOW
    ensures Serves(w, Jumped(s, checkpoint, ancestors), d, n)
  {
    var s' := Jumped(s, checkpoint, ancestors);
    JumpedKeepsStore(w, rules, s, checkpoint, ancestors);
    JumpKeepsIndexExactly(w, rules, s, checkpoint, ancestors);
    var k: nat :| Walk(s'.blocks, d, k) == Some(checkpoint.hash);
    WalkLevel(w, s'.blocks, d, k);
    assert s'.canon[checkpoint.number] == checkpoint.hash;
    LookupIsExact(w, rules, s', d, k, n);
  }

  /**
   * Above a canonical stored block not below a root, every BLOCKHASH number is answered, pruned at that block
   * or not: executing a child of a block d that reaches it finds the true ancestors.
   */
  lemma WindowServed(w: World, rules: Rules, s: Ledger, f: Hash, d: Hash, n: nat)
    requires StoreOk(w, rules, s) && IndexOk(w, s) && LowBound(w, s)
    requires f in s.blocks && f in s.canon.Values
    requires forall root | root in s.roots && root in w.headers :: w.headers[root].number <= s.blocks[f].number
    requires d in w.headers && Reaches(s.blocks, d, f) && n <= w.headers[d].number < n + BLOCK_HASH_WINDOW
    ensures Serves(w, s, d, n)
  {
    var k: nat :| Walk(s.blocks, d, k) == Some(f);
    WalkLevel(w, s.blocks, d, k);
    LookupIsExact(w, rules, s, d, k, n);
  }

  /** A canonical hash numbered in the contiguous part of the index is a true ancestor-or-self of the head. */
  lemma CanonicalIsAncestor(w: World, s: Ledger, h: Hash)
    requires Proper(w) && IndexOk(w, s)
    requires h in s.canon.Values && h in w.headers && s.lo <= w.headers[h].number
    ensures Reaches(w.headers, s.head.hash, h)
  {
    IndexedUnderNumber(w, s, h);
    IndexIsAncestry(w, s, w.headers[h].number);
  }

  /** Conversely, every true ancestor-or-self of the head in the contiguous part is canonical. */
  lemma AncestorIsCanonical(w: World, s: Ledger, h: Hash, k: nat)
    requires Proper(w) && IndexOk(w, s)
    requires s.lo + k <= s.head.number && Walk(w.headers, s.head.hash, k) == Some(h)
    ensures h in s.canon.Values
  {
    IndexIsAncestry(w, s, s.head.number - k);
  }
}
