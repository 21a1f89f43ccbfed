/** What becomes of a block that is inserted, and of a family of buffered blocks that is connected. */
module Insertions {
  import opened Chain
  import opened ChainStates
  import opened ForkChoice
  import opened Ledgers
  import opened BufferContents

  /** The target is stored, not numbered zero, and its walk meets the head's. */
  ghost predicate CanAdvance(m: Blocks, head: Hash, target: Hash) {
    target in m && m[target].number > 0 && exists i: nat, j: nat :: Meets(m, target, i, head, j)
  }

  /** The update to the target is made, if there is one. */
  ghost predicate Canonicalized(s: Ledger, s': Ledger, target: Hash) {
    if CanAdvance(s.blocks, s.head.hash, target) then
      exists u :: IsUpdate(s.blocks, s.head.hash, target, u) && s' == Updated(s, u)
    else s' == s
  }

  /** A block that was just stored becomes canonical, if it is the target and an update leads to it. */
  ghost predicate TargetFollowed(target: Option<Hash>, h: Hash, s: Ledger, s': Ledger) {
    if target == Some(h) then Canonicalized(s, s', h) else s' == s
  }

  /** What the tree holds. */
  datatype View = View(ledger: Ledger, rejected: set<Hash>, buffer: Contents)

  /** What inserting a block comes to. */
  datatype Fate = Seen | Refuted | Orphaned | Unproven | Faulty | Passing

  function FateOf(rules: Rules, stored: Blocks, b: Header, maybeProof: Option<Proof>): Fate {
    if b.hash in stored then Seen
    else if !rules.preValid(b) then Refuted
    else if b.parent !in stored then Orphaned
    else if maybeProof.None? then Unproven
    else
      match rules.verify(b, stored[b.parent], maybeProof.value)
      case Accept => Passing
      case Reject => Refuted
      case Fault => Faulty
  }

  /** With the block in the buffer, and its proof if there is one. */
  ghost function WithBuffered(v: View, limit: nat, b: Header, maybeProof: Option<Proof>): View {
    v.(buffer := WithBlock(WithProof(v.buffer, b.hash, maybeProof), limit, b))
  }

  /** The block is a real one that passes its own checks, and its proof is accepted against its real parent. */
  ghost predicate Passes(w: World, rules: Rules, b: Header, proof: Proof) {
    && b.parent in w.headers && rules.preValid(b)
    && rules.verify(b, w.headers[b.parent], proof) == Accept
  }

  // ----- Families of buffered blocks

  type Pool = map<Hash, Buffered>

  /** The blocks taken out with a root: those of its family that have proofs. */
  ghost function PoolOf(c: Contents, root: Hash): Pool {
    map h | h in Family(c, {root}) && h in c.proofs :: Buffered(c.blocks[h], c.proofs[h])
  }

  ghost predicate RealPool(w: World, pool: Pool) {
    forall h | h in pool :: h in w.headers && w.headers[h] == pool[h].block
  }

  /** h lies k steps above a stored block, and every block on the way is in the pool with a proof that passes. */
  ghost predicate ConnectsIn(w: World, rules: Rules, stored: Blocks, pool: Pool, h: Hash, k: nat)
    decreases k
  {
    if k == 0 then h in stored
    else
      && h in pool && Passes(w, rules, pool[h].block, pool[h].proof)
      && ConnectsIn(w, rules, stored, pool, pool[h].block.parent, k - 1)
  }

  ghost predicate Connects(w: World, rules: Rules, stored: Blocks, pool: Pool, h: Hash) {
    exists k: nat :: ConnectsIn(w, rules, stored, pool, h, k)
  }

  lemma ConnectsStored(w: World, rules: Rules, stored: Blocks, pool: Pool, h: Hash)
    requires h in stored
    ensures Connects(w, rules, stored, pool, h)
  {
    assert ConnectsIn(w, rules, stored, pool, h, 0);
  }

  /** A block that is not stored connects exactly when it passes and its parent connects. */
  lemma ConnectsAbove(w: World, rules: Rules, stored: Blocks, pool: Pool, h: Hash)
    requires h !in stored
    ensures Connects(w, rules, stored, pool, h) <==>
      && h in pool && Passes(w, rules, pool[h].block, pool[h].proof)
      && Connects(w, rules, stored, pool, pool[h].block.parent)
  {
    if k: nat :| ConnectsIn(w, rules, stored, pool, h, k) {
      assert ConnectsIn(w, rules, stored, pool, pool[h].block.parent, k - 1);
    }
    if h in pool && Passes(w, rules, pool[h].block, pool[h].proof) {
      if k: nat :| ConnectsIn(w, rules, stored, pool, pool[h].block.parent, k) {
        assert ConnectsIn(w, rules, stored, pool, h, k + 1);
      }
    }
  }

  /** The new block's parent connects, and its proof is answered with this verdict. */
  ghost predicate Judged(w: World, rules: Rules, stored: Blocks, pool: Pool, h: Hash, verdict: Verdict) {
    && h in pool && h !in stored && rules.preValid(pool[h].block)
    && Connects(w, rules, stored, pool, pool[h].block.parent)
    && pool[h].block.parent in w.headers
    && rules.verify(pool[h].block, w.headers[pool[h].block.parent], pool[h].proof) == verdict
  }

  /** The new block fails its own checks, or its proof is rejected against a parent that connects. */
  ghost predicate Refuses(w: World, rules: Rules, stored: Blocks, pool: Pool, h: Hash) {
    || (h in pool && h !in stored && !rules.preValid(pool[h].block))
    || Judged(w, rules, stored, pool, h, Reject)
  }

  /** The new block passes its own checks, and its parent does not connect. */
  ghost predicate Waits(w: World, rules: Rules, stored: Blocks, pool: Pool, h: Hash) {
    && h in pool && h !in stored && rules.preValid(pool[h].block)
    && !Connects(w, rules, stored, pool, pool[h].block.parent)
  }

  /** The blocks among those handled that go back into the buffer. */
  ghost function Waiting(w: World, rules: Rules, stored: Blocks, pool: Pool, handled: set<Hash>): set<Hash> {
    set h | h in handled && Waits(w, rules, stored, pool, h)
  }

  /** The blocks among those handled that are rejected. */
  ghost function RefusedOf(w: World, rules: Rules, stored: Blocks, pool: Pool, handled: set<Hash>): set<Hash> {
    set h | h in handled && Refuses(w, rules, stored, pool, h)
  }

  /**
   * The pool was taken out of the buffer and part of it handled: exactly the blocks that connect are stored,
   * those refuted are rejected, those that wait are back in the buffer with their proofs, and none faulted.
   */
  ghost predicate PoolHandled(w: World, rules: Rules, pool: Pool, handled: set<Hash>, before: View, after: View) {
    var stored := before.ledger.blocks;
    var gone := pool.Keys - Waiting(w, rules, stored, pool, handled);
    && (forall h :: h in after.ledger.blocks <==>
          h in stored || (h in handled && Connects(w, rules, stored, pool, h)))
    && after.rejected == before.rejected + RefusedOf(w, rules, stored, pool, handled)
    && (forall h | h in handled :: !Judged(w, rules, stored, pool, h, Fault))
    && after.buffer.blocks == before.buffer.blocks - gone
    && after.buffer.proofs == before.buffer.proofs - gone
  }

  /** One block is stored on top of what is stored, and followed if it is the target; otherwise nothing happens. */
  ghost predicate ConnectStep(rules: Rules, target: Option<Hash>, b: Buffered, s: Ledger, s': Ledger) {
    if FateOf(rules, s.blocks, b.block, Some(b.proof)).Passing? then
      TargetFollowed(target, b.block.hash, Stored(s, b.block, b.proof), s')
    else s' == s
  }

  /** The listed blocks are inserted one after the other. */
  ghost predicate ConnectRun(rules: Rules, target: Option<Hash>, r: seq<Buffered>, s: Ledger, s': Ledger)
    decreases |r|
  {
    if r == [] then s' == s
    else
      var init, last := r[..|r| - 1], r[|r| - 1];
      exists mid :: ConnectRun(rules, target, init, s, mid) && ConnectStep(rules, target, last, mid, s')
  }

  ghost function HashesOf(r: seq<Buffered>): set<Hash> {
    set i | 0 <= i < |r| :: r[i].block.hash
  }

  /** The list holds exactly the pool, each block once and after its parent. */
  ghost predicate Lists(r: seq<Buffered>, pool: Pool) {
    && (forall i | 0 <= i < |r| :: r[i].block.hash in pool && pool[r[i].block.hash] == r[i])
    && (forall i, j | 0 <= i < j < |r| :: r[i].block.hash != r[j].block.hash)
    && HashesOf(r) == pool.Keys
    && ParentFirst(r)
  }

  /** The whole pool is handled, each block after its parent. */
  ghost predicate FamilyConnected(w: World, rules: Rules, target: Option<Hash>, root: Hash, before: View, after: View) {
    var pool := PoolOf(before.buffer, root);
    && PoolHandled(w, rules, pool, pool.Keys, before, after)
    && exists r: seq<Buffered> :: Lists(r, pool) && ConnectRun(rules, target, r, before.ledger, after.ledger)
  }

  /** The first n of the listed blocks are handled, each after its parent. */
  ghost predicate HandledUpTo(w: World, rules: Rules, target: Option<Hash>, root: Hash, r: seq<Buffered>, n: nat,
                              before: View, after: View)
  {
    && n <= |r| && Lists(r, PoolOf(before.buffer, root))
    && PoolHandled(w, rules, PoolOf(before.buffer, root), HashesOf(r[..n]), before, after)
    && ConnectRun(rules, target, r[..n], before.ledger, after.ledger)
  }

  /** The pool is handled, each block after its parent, up to one that faults. */
  ghost predicate FamilyFaulted(w: World, rules: Rules, target: Option<Hash>, root: Hash, before: View, after: View) {
    var pool := PoolOf(before.buffer, root);
    exists r: seq<Buffered>, n: nat ::
      && HandledUpTo(w, rules, target, root, r, n, before, after)
      && n < |r| && Judged(w, rules, before.ledger.blocks, pool, r[n].block.hash, Fault)
  }

  lemma ExtractsLists(r: seq<Buffered>, c: Contents, root: Hash)
    requires Extracts(r, c, Family(c, {root}) * c.proofs.Keys) && ParentFirst(r)
    ensures Lists(r, PoolOf(c, root))
  {
    var pool := PoolOf(c, root);
    assert pool.Keys == Family(c, {root}) * c.proofs.Keys;
    forall h | h in pool ensures h in HashesOf(r) {
      var i :| 0 <= i < |r| && r[i].block.hash == h;
    }
  }

  lemma PoolIsReal(w: World, c: Contents, root: Hash)
    requires Known(w, c.blocks)
    ensures RealPool(w, PoolOf(c, root))
    ensures PoolOf(c, root).Keys == Family(c, {root}) * c.proofs.Keys
  {
  }

  /** Before any block is handled, the pool is just taken out. */
  lemma ConnectedNone(w: World, rules: Rules, root: Hash, r: seq<Buffered>, before: View, after: View)
    requires after == before.(buffer := FamilyTaken(before.buffer, root))
    ensures PoolHandled(w, rules, PoolOf(before.buffer, root), HashesOf(r[..0]), before, after)
  {
    var pool := PoolOf(before.buffer, root);
    var stored := before.ledger.blocks;
    assert HashesOf(r[..0]) == {};
    assert Waiting(w, rules, stored, pool, {}) == {} && RefusedOf(w, rules, stored, pool, {}) == {};
    assert pool.Keys - {} == Family(before.buffer, {root}) * before.buffer.proofs.Keys;
  }

  /** The parent of the next listed block is stored by now exactly when it connects. */
  lemma ParentByNow(w: World, rules: Rules, pool: Pool, r: seq<Buffered>, i: nat, before: View, mid: View)
    requires Proper(w) && RealPool(w, pool) && Lists(r, pool) && i < |r|
    requires PoolHandled(w, rules, pool, HashesOf(r[..i]), before, mid)
    ensures r[i].block.parent in mid.ledger.blocks <==>
      Connects(w, rules, before.ledger.blocks, pool, r[i].block.parent)
    ensures r[i].block.hash in mid.ledger.blocks <==> r[i].block.hash in before.ledger.blocks
    ensures r[i].block.hash !in HashesOf(r[..i])
  {
    var h, p := r[i].block.hash, r[i].block.parent;
    var stored := before.ledger.blocks;
    if p in stored {
      ConnectsStored(w, rules, stored, pool, p);
    } else {
      ConnectsAbove(w, rules, stored, pool, p);
      if p in pool {
        assert p in HashesOf(r);
        var j :| 0 <= j < |r| && r[j].block.hash == p;
        assert w.rank(p) < w.rank(h);
        assert j < i && r[..i][j] == r[j];
        assert p in HashesOf(r[..i]);
      }
    }
  }

  /** What inserting one block taken from the buffer does; only a fault is not ok. */
  ghost predicate BlockConnected(rules: Rules, target: Option<Hash>, limit: nat, b: Buffered, mid: View, after: View,
                                 ok: bool)
  {
    match FateOf(rules, mid.ledger.blocks, b.block, Some(b.proof))
    case Refuted => ok && after == mid.(rejected := mid.rejected + {b.block.hash})
    case Orphaned => ok && after == WithBuffered(mid, limit, b.block, Some(b.proof))
    case Passing =>
      && ok && after == mid.(ledger := after.ledger)
      && TargetFollowed(target, b.block.hash, Stored(mid.ledger, b.block, b.proof), after.ledger)
    case Faulty => !ok && after == mid
    case _ => ok && after == mid
  }

  /** The fate of a block of the pool whose parent is stored by now exactly if it connects. */
  lemma FateByNow(w: World, rules: Rules, pool: Pool, b: Buffered, stored: Blocks, now: Blocks)
    requires Known(w, now) && b.block.hash in pool && pool[b.block.hash] == b
    requires b.block.parent in now <==> Connects(w, rules, stored, pool, b.block.parent)
    requires b.block.hash in now <==> b.block.hash in stored
    ensures
      var h := b.block.hash;
      match FateOf(rules, now, b.block, Some(b.proof))
      case Seen => h in stored
      case Refuted => Refuses(w, rules, stored, pool, h)
      case Orphaned => Waits(w, rules, stored, pool, h)
      case Faulty => Judged(w, rules, stored, pool, h, Fault)
      case Passing => Judged(w, rules, stored, pool, h, Accept)
      case Unproven => false
  {
  }

  /** The fates exclude each other. */
  lemma OneFate(w: World, rules: Rules, stored: Blocks, pool: Pool, h: Hash)
    requires h in pool
    ensures
      var refuses, waits, accepted, faults, connects :=
        Refuses(w, rules, stored, pool, h), Waits(w, rules, stored, pool, h),
        Judged(w, rules, stored, pool, h, Accept), Judged(w, rules, stored, pool, h, Fault),
        Connects(w, rules, stored, pool, h);
      && (h in stored ==> connects && !refuses && !waits && !accepted && !faults)
      && (refuses ==> !connects && !waits && !faults)
      && (waits ==> !connects && !faults)
      && (faults ==> !connects)
      && (accepted ==> connects && !refuses && !waits && !faults)
  {
    if h in stored {
      ConnectsStored(w, rules, stored, pool, h);
    } else {
      ConnectsAbove(w, rules, stored, pool, h);
    }
  }

  lemma RefusedMore(w: World, rules: Rules, stored: Blocks, pool: Pool, handled: set<Hash>, h: Hash)
    ensures RefusedOf(w, rules, stored, pool, handled + {h})
         == RefusedOf(w, rules, stored, pool, handled) + if Refuses(w, rules, stored, pool, h) then {h} else {}
  {
  }

  /** Handling one more block of the pool. */
  lemma ConnectedMore(w: World, rules: Rules, pool: Pool, handled: set<Hash>, h: Hash, before: View, mid: View,
                      after: View)
    requires PoolHandled(w, rules, pool, handled, before, mid) && handled <= pool.Keys
    requires h in pool && h !in handled && pool[h].block.hash == h
    requires h in before.buffer.blocks && before.buffer.blocks[h] == pool[h].block
    requires h in before.buffer.proofs && before.buffer.proofs[h] == pool[h].proof
    requires !Judged(w, rules, before.ledger.blocks, pool, h, Fault)
    requires after.ledger.blocks.Keys ==
      mid.ledger.blocks.Keys + if Connects(w, rules, before.ledger.blocks, pool, h) then {h} else {}
    requires after.rejected == mid.rejected + if Refuses(w, rules, before.ledger.blocks, pool, h) then {h} else {}
    requires
      if Waits(w, rules, before.ledger.blocks, pool, h) then
        && after.buffer.blocks == mid.buffer.blocks[h := pool[h].block]
        && after.buffer.proofs == mid.buffer.proofs[h := pool[h].proof]
      else after.buffer == mid.buffer
    ensures PoolHandled(w, rules, pool, handled + {h}, before, after)
  {
    var stored := before.ledger.blocks;
    var more := handled + {h};
    var waiting, waiting' := Waiting(w, rules, stored, pool, handled), Waiting(w, rules, stored, pool, more);
    assert waiting' == waiting + if Waits(w, rules, stored, pool, h) then {h} else {};
    RefusedMore(w, rules, stored, pool, handled, h);
    forall x ensures x in after.ledger.blocks <==> x in stored || (x in more && Connects(w, rules, stored, pool, x)) {
      assert x in after.ledger.blocks <==> x in after.ledger.blocks.Keys;
    }
  }

  lemma HashesPush(r: seq<Buffered>, i: nat)
    requires i < |r|
    ensures HashesOf(r[..i + 1]) == HashesOf(r[..i]) + {r[i].block.hash}
  {
    var more := r[..i + 1];
    forall h ensures h in HashesOf(more) <==> h in HashesOf(r[..i]) || h == r[i].block.hash {
      if h in HashesOf(more) {
        var j :| 0 <= j < |more| && more[j].block.hash == h;
        assert j < i ==> r[..i][j] == more[j];
      }
      if h in HashesOf(r[..i]) {
        var j :| 0 <= j < i && r[..i][j].block.hash == h;
        assert more[j].block.hash == h;
      }
      assert more[i].block.hash == r[i].block.hash;
    }
  }

  lemma FollowedKeepsBlocks(target: Option<Hash>, h: Hash, s: Ledger, s': Ledger)
    requires TargetFollowed(target, h, s, s')
    ensures s'.blocks == s.blocks && s'.proofs == s.proofs
  {
  }

  /** Inserting the next listed block: one more block is handled, unless it faults. */
  lemma OneMoreConnected(w: World, rules: Rules, target: Option<Hash>, limit: nat, root: Hash, r: seq<Buffered>, i: nat,
                         before: View, mid: View, after: View, ok: bool)
    requires Proper(w) && Known(w, before.buffer.blocks) && Known(w, mid.ledger.blocks)
    requires NoDuplicates(mid.buffer.lru) && |mid.buffer.lru| < limit
    requires Lists(r, PoolOf(before.buffer, root)) && i < |r|
    requires PoolHandled(w, rules, PoolOf(before.buffer, root), HashesOf(r[..i]), before, mid)
    requires BlockConnected(rules, target, limit, r[i], mid, after, ok)
    ensures ok ==> PoolHandled(w, rules, PoolOf(before.buffer, root), HashesOf(r[..i + 1]), before, after)
    ensures |after.buffer.lru| <= |mid.buffer.lru| + 1
    ensures !ok ==>
      after == mid && Judged(w, rules, before.ledger.blocks, PoolOf(before.buffer, root), r[i].block.hash, Fault)
  {
    var pool, b, stored := PoolOf(before.buffer, root), r[i], before.ledger.blocks;
    PoolIsReal(w, before.buffer, root);
    ParentByNow(w, rules, pool, r, i, before, mid);
    FateByNow(w, rules, pool, b, stored, mid.ledger.blocks);
    OneFate(w, rules, stored, pool, b.block.hash);
    HashesPush(r, i);
    if ok {
      StepEffect(rules, target, limit, b, mid, after);
      HashesListed(r, i, pool);
      ConnectedMore(w, rules, pool, HashesOf(r[..i]), b.block.hash, before, mid, after);
    }
  }

  /** The effect of inserting one block with its proof, part by part, while the buffer has room. */
  lemma StepEffect(rules: Rules, target: Option<Hash>, limit: nat, b: Buffered, mid: View, after: View)
    requires BlockConnected(rules, target, limit, b, mid, after, true)
    requires NoDuplicates(mid.buffer.lru) && |mid.buffer.lru| < limit
    ensures
      var fate := FateOf(rules, mid.ledger.blocks, b.block, Some(b.proof));
      && after.ledger.blocks.Keys == mid.ledger.blocks.Keys + (if fate.Passing? then {b.block.hash} else {})
      && after.rejected == mid.rejected + (if fate.Refuted? then {b.block.hash} else {})
      && |after.buffer.lru| <= |mid.buffer.lru| + 1
      && if fate.Orphaned? then
           && after.buffer.blocks == mid.buffer.blocks[b.block.hash := b.block]
           && after.buffer.proofs == mid.buffer.proofs[b.block.hash := b.proof]
         else after.buffer == mid.buffer
  {
    InsertionGrows(mid.buffer, limit, b.block, Some(b.proof));
    if FateOf(rules, mid.ledger.blocks, b.block, Some(b.proof)).Passing? {
      FollowedKeepsBlocks(target, b.block.hash, Stored(mid.ledger, b.block, b.proof), after.ledger);
    }
  }

  lemma HashesListed(r: seq<Buffered>, i: nat, pool: Pool)
    requires Lists(r, pool) && i <= |r|
    ensures HashesOf(r[..i]) <= pool.Keys
  {
    forall h | h in HashesOf(r[..i]) ensures h in pool {
      var j :| 0 <= j < i && r[..i][j].block.hash == h;
      assert r[j].block.hash in pool;
    }
  }

  /** One more step of the ledger. */
  lemma RunMore(rules: Rules, target: Option<Hash>, limit: nat, r: seq<Buffered>, i: nat, s: Ledger, mid: View,
                after: View)
    requires i < |r| && ConnectRun(rules, target, r[..i], s, mid.ledger)
    requires BlockConnected(rules, target, limit, r[i], mid, after, true)
    ensures ConnectRun(rules, target, r[..i + 1], s, after.ledger)
  {
    var more := r[..i + 1];
    assert more[..|more| - 1] == r[..i] && more[|more| - 1] == r[i];
    assert ConnectStep(rules, target, r[i], mid.ledger, after.ledger);
  }

  /** Inserting the next listed block with its proof: one more is handled, unless it faults. */
  lemma OneMoreHandled(w: World, rules: Rules, target: Option<Hash>, limit: nat, root: Hash, r: seq<Buffered>, i: nat,
                       before: View, mid: View, after: View, ok: bool)
    requires Proper(w) && Known(w, before.buffer.blocks) && Known(w, mid.ledger.blocks)
    requires NoDuplicates(mid.buffer.lru) && |mid.buffer.lru| < limit && i < |r|
    requires HandledUpTo(w, rules, target, root, r, i, before, mid)
    requires BlockConnected(rules, target, limit, r[i], mid, after, ok)
    ensures |after.buffer.lru| <= |mid.buffer.lru| + 1
    ensures
      if ok then HandledUpTo(w, rules, target, root, r, i + 1, before, after)
      else
        && HandledUpTo(w, rules, target, root, r, i, before, after)
        && Judged(w, rules, before.ledger.blocks, PoolOf(before.buffer, root), r[i].block.hash, Fault)
  {
    OneMoreConnected(w, rules, target, limit, root, r, i, before, mid, after, ok);
    if ok {
      RunMore(rules, target, limit, r, i, before.ledger, mid, after);
    }
  }

  /** The refuted ones among the first n. */
  ghost function RefusedUpTo(w: World, rules: Rules, root: Hash, r: seq<Buffered>, n: nat, before: View): set<Hash>
    requires n <= |r|
  {
    RefusedOf(w, rules, before.ledger.blocks, PoolOf(before.buffer, root), HashesOf(r[..n]))
  }

  lemma OneMoreRefused(w: World, rules: Rules, target: Option<Hash>, root: Hash, r: seq<Buffered>, i: nat,
                       before: View, mid: View)
    requires Proper(w) && Known(w, before.buffer.blocks) && Known(w, mid.ledger.blocks) && i < |r|
    requires HandledUpTo(w, rules, target, root, r, i, before, mid)
    ensures
      RefusedUpTo(w, rules, root, r, i + 1, before) ==
        RefusedUpTo(w, rules, root, r, i, before)
        + if FateOf(rules, mid.ledger.blocks, r[i].block, Some(r[i].proof)).Refuted? then {r[i].block.hash} else {}
  {
    var pool, b, stored := PoolOf(before.buffer, root), r[i], before.ledger.blocks;
    PoolIsReal(w, before.buffer, root);
    ParentByNow(w, rules, pool, r, i, before, mid);
    FateByNow(w, rules, pool, b, stored, mid.ledger.blocks);
    OneFate(w, rules, stored, pool, b.block.hash);
    HashesPush(r, i);
    RefusedMore(w, rules, stored, pool, HashesOf(r[..i]), b.block.hash);
  }

  lemma NoneHandled(w: World, rules: Rules, target: Option<Hash>, root: Hash, r: seq<Buffered>, before: View,
                    after: View)
    requires Lists(r, PoolOf(before.buffer, root)) && after == before.(buffer := FamilyTaken(before.buffer, root))
    ensures HandledUpTo(w, rules, target, root, r, 0, before, after)
    ensures RefusedUpTo(w, rules, root, r, 0, before) == {}
  {
    ConnectedNone(w, rules, root, r, before, after);
    assert HashesOf(r[..0]) == {};
  }

  lemma AllHandled(w: World, rules: Rules, target: Option<Hash>, root: Hash, r: seq<Buffered>, before: View,
                   after: View)
    requires HandledUpTo(w, rules, target, root, r, |r|, before, after)
    ensures FamilyConnected(w, rules, target, root, before, after)
    ensures RefusedUpTo(w, rules, root, r, |r|, before) == RefusedFamily(w, rules, before, root)
  {
    assert r[..|r|] == r;
  }

  /** The blocks linked to a root that are refuted. */
  ghost function RefusedFamily(w: World, rules: Rules, before: View, root: Hash): set<Hash> {
    var pool := PoolOf(before.buffer, root);
    RefusedOf(w, rules, before.ledger.blocks, pool, pool.Keys)
  }

  /** A step leaves the head where it is, unless it stores the target. */
  lemma StepKeepsHead(rules: Rules, target: Option<Hash>, b: Buffered, s: Ledger, s': Ledger)
    requires ConnectStep(rules, target, b, s, s')
    requires target.Some? ==> target.value in s.blocks || target.value != b.block.hash
    ensures s.blocks.Keys <= s'.blocks.Keys && s' == s.(blocks := s'.blocks, proofs := s'.proofs)
  {
  }

  /** A target that is stored already, or is not listed, does not become canonical. */
  lemma {:induction false} RunKeepsHead(rules: Rules, target: Option<Hash>, r: seq<Buffered>, s: Ledger, s': Ledger)
    requires ConnectRun(rules, target, r, s, s')
    requires target.Some? ==> target.value in s.blocks || target.value !in HashesOf(r)
    ensures s.blocks.Keys <= s'.blocks.Keys && s' == s.(blocks := s'.blocks, proofs := s'.proofs)
    decreases |r|
  {
    if r != [] {
      var init, last := r[..|r| - 1], r[|r| - 1];
      var mid :| ConnectRun(rules, target, init, s, mid) && ConnectStep(rules, target, last, mid, s');
      assert r[..|r| - 1 + 1] == r;
      HashesPush(r, |r| - 1);
      RunKeepsHead(rules, target, init, s, mid);
      StepKeepsHead(rules, target, last, mid, s');
    }
  }

  /** A target among the blocks stored on the way is made canonical when it is stored, if an update leads to it then. */
  lemma {:induction false} RunFollowsTarget(rules: Rules, t: Hash, r: seq<Buffered>, s: Ledger, s': Ledger)
      returns (b: Buffered, mid: Ledger, followed: Ledger)
    requires ConnectRun(rules, Some(t), r, s, s') && t !in s.blocks && t in s'.blocks
    ensures b in r && b.block.hash == t
    ensures s.blocks.Keys <= mid.blocks.Keys && mid == s.(blocks := mid.blocks, proofs := mid.proofs)
    ensures Canonicalized(Stored(mid, b.block, b.proof), followed, t)
    ensures followed.blocks.Keys <= s'.blocks.Keys && s' == followed.(blocks := s'.blocks, proofs := s'.proofs)
    decreases |r|
  {
    var init, last := r[..|r| - 1], r[|r| - 1];
    mid :| ConnectRun(rules, Some(t), init, s, mid) && ConnectStep(rules, Some(t), last, mid, s');
    if t in mid.blocks {
      var before;
      b, before, followed := RunFollowsTarget(rules, t, init, s, mid);
      StepKeepsHead(rules, Some(t), last, mid, s');
      mid := before;
    } else {
      FreshTarget(rules, t, r, last, mid, s');
      b, followed := last, s';
      StillFresh(rules, t, init, s, mid);
    }
  }

  lemma FreshTarget(rules: Rules, t: Hash, r: seq<Buffered>, last: Buffered, mid: Ledger, s': Ledger)
    requires r != [] && last == r[|r| - 1]
    requires ConnectStep(rules, Some(t), last, mid, s') && t !in mid.blocks && t in s'.blocks
    ensures last in r && last.block.hash == t && Canonicalized(Stored(mid, last.block, last.proof), s', t)
  {
    var stored := Stored(mid, last.block, last.proof);
    if FateOf(rules, mid.blocks, last.block, Some(last.proof)).Passing? {
      FollowedKeepsBlocks(Some(t), last.block.hash, stored, s');
    }
  }

  /** As long as the target is not stored, the head stays. */
  lemma {:induction false} StillFresh(rules: Rules, t: Hash, r: seq<Buffered>, s: Ledger, s': Ledger)
    requires ConnectRun(rules, Some(t), r, s, s') && t !in s'.blocks
    ensures s.blocks.Keys <= s'.blocks.Keys && s' == s.(blocks := s'.blocks, proofs := s'.proofs)
    decreases |r|
  {
    if r != [] {
      var init, last := r[..|r| - 1], r[|r| - 1];
      var mid :| ConnectRun(rules, Some(t), init, s, mid) && ConnectStep(rules, Some(t), last, mid, s');
      if FateOf(rules, mid.blocks, last.block, Some(last.proof)).Passing? {
        FollowedKeepsBlocks(Some(t), last.block.hash, Stored(mid, last.block, last.proof), s');
      }
      StillFresh(rules, t, init, s, mid);
    }
  }

  /** Every linked descendant of the root carries a proof that verifies. */
  ghost predicate FamilyPasses(w: World, rules: Rules, c: Contents, root: Hash) {
    forall h | h in Family(c, {root}) && h != root :: h in c.proofs && Passes(w, rules, c.blocks[h], c.proofs[h])
  }

  /**
   * Below a stored root, a descendant connects if its proof and those of its linked ancestors below the root
   * verify, whatever the others carry.
   */
  lemma {:induction false} DescendantConnects(w: World, rules: Rules, stored: Blocks, c: Contents, root: Hash, h: Hash,
                                              k: nat)
    requires root in stored && Walk(Linked(c.blocks, c.unlinked), h, k) == Some(root)
    requires forall i: nat | i < k ::
      var x := Walk(Linked(c.blocks, c.unlinked), h, i);
      x.Some? && x.value in c.blocks && x.value in c.proofs && Passes(w, rules, c.blocks[x.value], c.proofs[x.value])
    ensures Connects(w, rules, stored, PoolOf(c, root), h)
    decreases k
  {
    var linked, pool := Linked(c.blocks, c.unlinked), PoolOf(c, root);
    if k == 0 || h in stored {
      ConnectsStored(w, rules, stored, pool, h);
    } else {
      assert Walk(linked, h, 0) == Some(h);
      var p := linked[h].parent;
      forall i: nat | i < k - 1
        ensures
          var x := Walk(linked, p, i);
          && x.Some? && x.value in c.blocks && x.value in c.proofs
          && Passes(w, rules, c.blocks[x.value], c.proofs[x.value])
      {
        assert Walk(linked, h, i + 1) == Walk(linked, p, i);
      }
      DescendantConnects(w, rules, stored, c, root, p, k - 1);
      assert Under(linked, {root}, h) by {
        assert root in {root} && Reaches(linked, h, root);
      }
      assert h in Family(c, {root});
      ConnectsAbove(w, rules, stored, pool, h);
    }
  }

  /** If all of them verify, the whole family connects. */
  lemma FamilyConnects(w: World, rules: Rules, stored: Blocks, c: Contents, root: Hash, h: Hash)
    requires root in stored && FamilyPasses(w, rules, c, root) && h in Family(c, {root})
    ensures Connects(w, rules, stored, PoolOf(c, root), h)
  {
    var linked := Linked(c.blocks, c.unlinked);
    var r :| r in {root} && Reaches(linked, h, r);
    var n: nat :| Walk(linked, h, n) == Some(root);
    var k := FirstVisit(linked, h, root, n);
    forall i: nat | i < k
      ensures
        var x := Walk(linked, h, i);
        x.Some? && x.value in c.blocks && x.value in c.proofs && Passes(w, rules, c.blocks[x.value], c.proofs[x.value])
    {
      WalkPrefix(linked, h, i, k);
      var x := Walk(linked, h, i).value;
      WalkAdd(linked, h, i, k - i);
      assert Under(linked, {root}, x) by {
        assert Walk(linked, x, k - i) == Some(root);
      }
      assert x in Family(c, {root});
    }
    DescendantConnects(w, rules, stored, c, root, h, k);
  }

  /** The first time that the walk comes to a. */
  lemma FirstVisit(m: Blocks, h: Hash, a: Hash, n: nat) returns (k: nat)
    requires Walk(m, h, n) == Some(a)
    ensures k <= n && Walk(m, h, k) == Some(a) && forall i: nat | i < k :: Walk(m, h, i) != Some(a)
  {
    k := 0;
    while Walk(m, h, k) != Some(a)
      invariant k <= n && forall i: nat | i < k :: Walk(m, h, i) != Some(a)
      decreases n - k
    {
      k := k + 1;
    }
  }

  // ----- What connecting a family means

  /** The block is stored, was rejected, or is still buffered. */
  ghost predicate Settled(stored: Blocks, rejected: set<Hash>, buffered: Blocks, h: Hash) {
    h in stored || h in rejected || h in buffered
  }

  ghost predicate AllSettled(before: View, after: View) {
    && before.ledger.blocks.Keys <= after.ledger.blocks.Keys && before.rejected <= after.rejected
    && forall h | h in before.buffer.blocks ::
         Settled(after.ledger.blocks, after.rejected, after.buffer.blocks, h)
  }

  /** A block of the pool that is handled connects, is refuted or waits. */
  lemma HandledSettles(w: World, rules: Rules, pool: Pool, handled: set<Hash>, before: View, after: View, h: Hash)
    requires PoolHandled(w, rules, pool, handled, before, after) && h in handled && h in pool
    requires h in before.buffer.blocks && RealPool(w, pool) && Known(w, before.ledger.blocks)
    ensures Settled(after.ledger.blocks, after.rejected, after.buffer.blocks, h)
  {
    var stored := before.ledger.blocks;
    if h in stored || Connects(w, rules, stored, pool, h) {
      OneFate(w, rules, stored, pool, h);
    } else {
      ConnectsAbove(w, rules, stored, pool, h);
      assert !Judged(w, rules, stored, pool, h, Fault);
      var p := pool[h].block.parent;
      if Connects(w, rules, stored, pool, p) {
        ConnectingIsReal(w, rules, stored, pool, p);
        assert h in RefusedOf(w, rules, stored, pool, handled);
      } else if rules.preValid(pool[h].block) {
        assert h in Waiting(w, rules, stored, pool, handled);
      } else {
        assert h in RefusedOf(w, rules, stored, pool, handled);
      }
    }
  }

  lemma ConnectingIsReal(w: World, rules: Rules, stored: Blocks, pool: Pool, h: Hash)
    requires RealPool(w, pool) && Known(w, stored) && Connects(w, rules, stored, pool, h)
    ensures h in w.headers
  {
    if h !in stored {
      ConnectsAbove(w, rules, stored, pool, h);
    }
  }

  /** Without a fault every block buffered before is stored, rejected or still buffered. */
  lemma FamilySettles(w: World, rules: Rules, target: Option<Hash>, root: Hash, before: View, after: View)
    requires FamilyConnected(w, rules, target, root, before, after)
    requires Known(w, before.buffer.blocks) && Known(w, before.ledger.blocks)
    ensures AllSettled(before, after)
  {
    var pool := PoolOf(before.buffer, root);
    PoolIsReal(w, before.buffer, root);
    forall h | h in before.buffer.blocks
      ensures Settled(after.ledger.blocks, after.rejected, after.buffer.blocks, h)
    {
      if h in pool {
        HandledSettles(w, rules, pool, pool.Keys, before, after, h);
      }
    }
  }

  /** With its root stored, a family whose proofs all verify is stored as a whole, and nothing faults. */
  lemma PassingFamily(w: World, rules: Rules, target: Option<Hash>, root: Hash, before: View, after: View)
    requires root in before.ledger.blocks && FamilyPasses(w, rules, before.buffer, root)
    requires Known(w, before.buffer.blocks)
    ensures !FamilyFaulted(w, rules, target, root, before, after)
    ensures FamilyConnected(w, rules, target, root, before, after) ==>
      Family(before.buffer, {root}) <= after.ledger.blocks.Keys
  {
    var pool, stored := PoolOf(before.buffer, root), before.ledger.blocks;
    forall h | h in Family(before.buffer, {root})
      ensures Connects(w, rules, stored, pool, h) && !Judged(w, rules, stored, pool, h, Fault)
      ensures h == root || h in pool
    {
      FamilyConnects(w, rules, stored, before.buffer, root, h);
      if h in pool {
        OneFate(w, rules, stored, pool, h);
      }
    }
  }

  /** Nothing but blocks and proofs changes in the ledger, when the target is stored already or not in the pool. */
  lemma FamilyKeepsHead(w: World, rules: Rules, target: Option<Hash>, root: Hash, before: View, after: View)
    requires
      || FamilyConnected(w, rules, target, root, before, after)
      || FamilyFaulted(w, rules, target, root, before, after)
    requires target.Some? ==> target.value in before.ledger.blocks || target.value !in PoolOf(before.buffer, root)
    ensures before.ledger.blocks.Keys <= after.ledger.blocks.Keys
    ensures after.ledger == before.ledger.(blocks := after.ledger.blocks, proofs := after.ledger.proofs)
  {
    var pool := PoolOf(before.buffer, root);
    if FamilyConnected(w, rules, target, root, before, after) {
      var r: seq<Buffered> :| Lists(r, pool) && ConnectRun(rules, target, r, before.ledger, after.ledger);
      RunKeepsHead(rules, target, r, before.ledger, after.ledger);
    } else {
      var r: seq<Buffered>, n: nat :|
        && HandledUpTo(w, rules, target, root, r, n, before, after)
        && n < |r| && Judged(w, rules, before.ledger.blocks, pool, r[n].block.hash, Fault);
      HashesListed(r, n, pool);
      RunKeepsHead(rules, target, r[..n], before.ledger, after.ledger);
    }
  }
}
