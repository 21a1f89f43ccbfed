/** Runs of the ledger together with the cache of invalid headers: when a recorded hash can be a stored block. */
module Refutations {
  import opened Chain
  import opened Ledgers
  import opened InvalidHeaders

  /** The ledger, the cache's entries, and every block rejected so far. */
  datatype Memory = Memory(ledger: Ledger, entries: Entries, rejected: set<Hash>)

  datatype Step =
    | Move(event: Event)
    | Refute(block: Header, proof: Proof)
    | Inherit(hash: Hash, check: Hash)
    | Forget(lost: set<Hash>)

  /** The block is not stored, and fails its own checks or is rejected with this proof against its stored parent. */
  ghost predicate RefutedBy(w: World, rules: Rules, s: Ledger, b: Header, proof: Proof) {
    && b.hash in w.headers && w.headers[b.hash] == b && b.hash !in s.blocks
    && (!rules.preValid(b) || (b.parent in s.blocks && rules.verify(b, s.blocks[b.parent], proof) == Reject))
  }

  ghost predicate CanRefute(w: World, rules: Rules, s: Ledger, b: Header) {
    exists proof :: RefutedBy(w, rules, s, b, proof)
  }

  ghost predicate Possible(w: World, rules: Rules, m: Memory, step: Step) {
    match step
    case Move(e) => Enabled(w, rules, m.ledger, e)
    case Refute(b, proof) => RefutedBy(w, rules, m.ledger, b, proof)
    case Inherit(h, check) => check in m.entries && Reaches(w.headers, h, check)
    case Forget(_) => true
  }

  ghost function After(w: World, rules: Rules, m: Memory, step: Step): Memory
    requires Possible(w, rules, m, step)
  {
    match step
    case Move(e) => m.(ledger := Apply(w, rules, m.ledger, e))
    case Refute(b, _) =>
      m.(entries := if b.hash in m.entries then m.entries else m.entries[b.hash := WithParent(b)],
         rejected := m.rejected + {b.hash})
    case Inherit(h, check) => m.(entries := if h in m.entries then m.entries else m.entries[h := m.entries[check]])
    case Forget(lost) => m.(entries := m.entries - lost)
  }

  function Start(g: Header): Memory {
    Memory(Genesis(g), map[], {})
  }

  /** Where the steps lead from genesis, if each is possible. */
  ghost function Remember(w: World, rules: Rules, g: Header, steps: seq<Step>): Option<Memory>
    decreases |steps|
  {
    if steps == [] then Some(Start(g))
    else
      var last := steps[|steps| - 1];
      match Remember(w, rules, g, steps[..|steps| - 1])
      case None => None
      case Some(m) => if Possible(w, rules, m, last) then Some(After(w, rules, m, last)) else None
  }

  ghost predicate Reachable(w: World, rules: Rules, g: Header, m: Memory) {
    exists steps :: Remember(w, rules, g, steps) == Some(m)
  }

  lemma StartReachable(w: World, rules: Rules, g: Header)
    ensures Reachable(w, rules, g, Start(g))
  {
    assert Remember(w, rules, g, []) == Some(Start(g));
  }

  lemma Reach(w: World, rules: Rules, g: Header, m: Memory, step: Step)
    requires Reachable(w, rules, g, m) && Possible(w, rules, m, step)
    ensures Reachable(w, rules, g, After(w, rules, m, step))
  {
    var steps :| Remember(w, rules, g, steps) == Some(m);
    assert (steps + [step])[..|steps|] == steps;
    assert Remember(w, rules, g, steps + [step]) == Some(After(w, rules, m, step));
  }

  /** Dropping entries. */
  lemma ReachFewer(w: World, rules: Rules, g: Header, m: Memory, entries: Entries)
    requires Reachable(w, rules, g, m)
    requires forall k | k in entries :: k in m.entries && m.entries[k] == entries[k]
    ensures Reachable(w, rules, g, m.(entries := entries))
  {
    var lost := m.entries.Keys - entries.Keys;
    assert m.entries - lost == entries;
    Reach(w, rules, g, m, Forget(lost));
  }

  /** Recording one more block below one that is recorded, unless it is recorded already, and dropping entries. */
  lemma ReachInherited(w: World, rules: Rules, g: Header, m: Memory, h: Hash, check: Hash, entries: Entries)
    requires Reachable(w, rules, g, m) && check in m.entries && Reaches(w.headers, h, check)
    requires OneMore(m.entries, entries, h, m.entries[check])
    ensures Reachable(w, rules, g, m.(entries := entries))
  {
    if h in entries && !(h in m.entries && entries[h] == m.entries[h]) {
      InheritAnew(w, rules, g, m, h, check, entries);
    } else {
      ReachFewer(w, rules, g, m, entries);
    }
  }

  lemma InheritAnew(w: World, rules: Rules, g: Header, m: Memory, h: Hash, check: Hash, entries: Entries)
    requires Reachable(w, rules, g, m) && check in m.entries && check != h && Reaches(w.headers, h, check)
    requires OneMore(m.entries, entries, h, m.entries[check]) && h in entries && entries[h] == m.entries[check]
    ensures Reachable(w, rules, g, m.(entries := entries))
  {
    var others := m.entries - {h};
    ReachFewer(w, rules, g, m, others);
    var before := m.(entries := others);
    Reach(w, rules, g, before, Inherit(h, check));
    ReachFewer(w, rules, g, After(w, rules, before, Inherit(h, check)), entries);
  }

  /** Recording a rejected block, unless it is recorded already, and dropping entries. */
  lemma ReachRefuted(w: World, rules: Rules, g: Header, m: Memory, b: Header, entries: Entries)
    requires Reachable(w, rules, g, m) && CanRefute(w, rules, m.ledger, b)
    requires OneMore(m.entries, entries, b.hash, WithParent(b))
    ensures Reachable(w, rules, g, Memory(m.ledger, entries, m.rejected + {b.hash}))
  {
    var kept := if b.hash in entries && !(b.hash in m.entries && entries[b.hash] == m.entries[b.hash])
                then m.entries - {b.hash} else m.entries;
    ReachFewer(w, rules, g, m, kept);
    var before := m.(entries := kept);
    var proof :| RefutedBy(w, rules, m.ledger, b, proof);
    Reach(w, rules, g, before, Refute(b, proof));
    ReachFewer(w, rules, g, After(w, rules, before, Refute(b, proof)), entries);
  }

  // ----- What every run keeps

  lemma StepKeepsEntries(w: World, rules: Rules, m: Memory, step: Step)
    requires EntriesOk(w, m.entries, m.rejected) && Possible(w, rules, m, step)
    ensures EntriesOk(w, After(w, rules, m, step).entries, After(w, rules, m, step).rejected)
  {
    var m' := After(w, rules, m, step);
    if step.Refute? {
      ReachesSelf(w.headers, step.block.hash);
    }
    if step.Inherit? {
      assert EntryNames(w, step.check, m.entries[step.check], m.rejected);
      ReachesTrans(w.headers, step.hash, step.check, m.entries[step.check].block.hash);
    }
    forall k | k in m'.entries ensures EntryNames(w, k, m'.entries[k], m'.rejected) {
      assert k in m.entries ==> EntryNames(w, k, m.entries[k], m.rejected);
    }
  }

  lemma {:induction false} RunKeepsEntries(w: World, rules: Rules, g: Header, steps: seq<Step>)
    requires Remember(w, rules, g, steps).Some?
    ensures
      var m := Remember(w, rules, g, steps).value;
      EntriesOk(w, m.entries, m.rejected)
    decreases |steps|
  {
    if steps != [] {
      RunKeepsEntries(w, rules, g, steps[..|steps| - 1]);
      StepKeepsEntries(w, rules, Remember(w, rules, g, steps[..|steps| - 1]).value, steps[|steps| - 1]);
    }
  }

  /** In every reachable state, each entry names a rejected ancestor-or-self of its key, with that block's parent. */
  lemma ReachableEntries(w: World, rules: Rules, g: Header, m: Memory)
    requires Reachable(w, rules, g, m)
    ensures EntriesOk(w, m.entries, m.rejected)
  {
    var steps :| Remember(w, rules, g, steps) == Some(m);
    RunKeepsEntries(w, rules, g, steps);
  }

  /** The block passes its own checks, and some proof of it is accepted against its real parent. */
  ghost predicate Acceptable(w: World, rules: Rules, h: Hash) {
    && h in w.headers && rules.preValid(w.headers[h]) && w.headers[h].parent in w.headers
    && exists proof :: rules.verify(w.headers[h], w.headers[w.headers[h].parent], proof) == Accept
  }

  /** h is a root, or an ancestor of one. */
  ghost predicate BelowRoot(w: World, roots: set<Hash>, h: Hash) {
    exists root :: root in roots && Reaches(w.headers, root, h)
  }

  /** Every real ancestor-or-self of a stored block is acceptable, unless it is an ancestor-or-self of a root. */
  ghost predicate Vouched(w: World, rules: Rules, s: Ledger) {
    forall h, r | h in s.blocks && Reaches(w.headers, h, r) && r in w.headers ::
      Acceptable(w, rules, r) || BelowRoot(w, s.roots, r)
  }

  /** An accepted child of a vouched block is vouched. */
  lemma AcceptedIsVouched(w: World, rules: Rules, s: Ledger, b: Header, proof: Proof)
    requires Vouched(w, rules, s) && Numbered(w, s.blocks) && Enabled(w, rules, s, Store(b, proof))
    ensures Vouched(w, rules, Stored(s, b, proof))
  {
    forall r | Reaches(w.headers, b.hash, r) && r in w.headers
      ensures Acceptable(w, rules, r) || BelowRoot(w, s.roots, r)
    {
      var k: nat :| Walk(w.headers, b.hash, k) == Some(r);
      if k == 0 {
        assert rules.verify(b, w.headers[b.parent], proof) == Accept;
      } else {
        assert Walk(w.headers, b.parent, k - 1) == Some(r);
        assert Reaches(w.headers, b.parent, r);
      }
    }
  }

  lemma MoveKeepsVouched(w: World, rules: Rules, s: Ledger, e: Event)
    requires Vouched(w, rules, s) && Numbered(w, s.blocks) && Enabled(w, rules, s, e)
    ensures Vouched(w, rules, Apply(w, rules, s, e))
  {
    var s' := Apply(w, rules, s, e);
    assert s.roots <= s'.roots;
    forall r | BelowRoot(w, s.roots, r) ensures BelowRoot(w, s'.roots, r) {
    }
    if e.Store? {
      AcceptedIsVouched(w, rules, s, e.block, e.proof);
    } else {
      forall h, r | h in s'.blocks && Reaches(w.headers, h, r) && r in w.headers
        ensures Acceptable(w, rules, r) || BelowRoot(w, s'.roots, r)
      {
        assert h !in s.blocks ==> h in s'.roots;
      }
    }
  }

  lemma {:induction false} RunKeepsVouched(w: World, rules: Rules, g: Header, steps: seq<Step>)
    requires Proper(w) && ChecksNumber(rules)
    requires g.hash in w.headers && w.headers[g.hash] == g && g.number == 0 && g.parent == ZERO
    requires Remember(w, rules, g, steps).Some?
    ensures
      var s := Remember(w, rules, g, steps).value.ledger;
      Inv(w, rules, s) && Vouched(w, rules, s)
    decreases |steps|
  {
    if steps == [] {
      GenesisInv(w, rules, g);
    } else {
      RunKeepsVouched(w, rules, g, steps[..|steps| - 1]);
      var m, step := Remember(w, rules, g, steps[..|steps| - 1]).value, steps[|steps| - 1];
      if step.Move? {
        StepKeepsInv(w, rules, m.ledger, step.event);
        MoveKeepsVouched(w, rules, m.ledger, step.event);
      }
    }
  }

  /** Every root is genesis, or a checkpoint that could be downloaded. */
  ghost predicate RootsAre(w: World, g: Header, roots: set<Hash>) {
    forall root | root in roots ::
      root == g.hash || (root in w.headers && exists ancestors :: CheckpointOk(w, w.headers[root], ancestors))
  }

  lemma {:induction false} RunKeepsRoots(w: World, rules: Rules, g: Header, steps: seq<Step>)
    requires Remember(w, rules, g, steps).Some?
    ensures RootsAre(w, g, Remember(w, rules, g, steps).value.ledger.roots)
    decreases |steps|
  {
    if steps != [] {
      RunKeepsRoots(w, rules, g, steps[..|steps| - 1]);
      var step := steps[|steps| - 1];
      if step.Move? && step.event.Jump? {
        assert CheckpointOk(w, w.headers[step.event.checkpoint.hash], step.event.ancestors);
      }
    }
  }

  // ----- When a recorded hash is stored

  /** Genesis is a real header numbered zero, hangs off the zero hash, and passes its own checks. */
  ghost predicate SoundGenesis(w: World, rules: Rules, g: Header) {
    && Proper(w) && ChecksNumber(rules)
    && g.hash in w.headers && w.headers[g.hash] == g && g.number == 0 && g.parent == ZERO && rules.preValid(g)
  }

  /** One proof gets the block stored now, and another gets it rejected. */
  ghost predicate Disputed(w: World, rules: Rules, m: Memory, b: Header, good: Proof, bad: Proof) {
    Enabled(w, rules, m.ledger, Store(b, good)) && RefutedBy(w, rules, m.ledger, b, bad)
  }

  /** Some run leads to a disputed block. */
  ghost predicate SomeDispute(w: World, rules: Rules, g: Header) {
    exists m, b, good, bad :: Reachable(w, rules, g, m) && Disputed(w, rules, m, b, good, bad)
  }

  /** The downloaded checkpoint is, or descends from, a block that was rejected. */
  ghost predicate AboveRejected(w: World, m: Memory, c: Header, ancestors: seq<Header>) {
    CheckpointOk(w, c, ancestors) && Blamed(w, c.hash, m.rejected)
  }

  /** Some run leads to the download of such a checkpoint. */
  ghost predicate SomeBadCheckpoint(w: World, rules: Rules, g: Header) {
    exists m, c, ancestors :: Reachable(w, rules, g, m) && AboveRejected(w, m, c, ancestors)
  }

  ghost predicate StoredKey(m: Memory) {
    exists k :: k in m.entries && k in m.ledger.blocks
  }

  /** Some run leads to a recorded hash whose block is stored. */
  ghost predicate SomeStoredKey(w: World, rules: Rules, g: Header) {
    exists m :: Reachable(w, rules, g, m) && StoredKey(m)
  }

  /** Where in a run a block was rejected: the first i steps lead to m, and the next one refutes it. */
  lemma {:induction false} WhenRejected(w: World, rules: Rules, g: Header, steps: seq<Step>, r: Hash)
    returns (i: nat, m: Memory)
    requires Remember(w, rules, g, steps).Some? && r in Remember(w, rules, g, steps).value.rejected
    ensures i < |steps| && Remember(w, rules, g, steps[..i]) == Some(m)
    ensures steps[i].Refute? && steps[i].block.hash == r && Possible(w, rules, m, steps[i])
    ensures m.rejected <= Remember(w, rules, g, steps).value.rejected
    ensures m.ledger.roots <= Remember(w, rules, g, steps).value.ledger.roots
    decreases |steps|
  {
    i := |steps| - 1;
    m := Remember(w, rules, g, steps[..i]).value;
    if r in m.rejected {
      var before := steps[..i];
      i, m := WhenRejected(w, rules, g, before, r);
      assert before[..i] == steps[..i];
    }
  }

  /** A rejected block that some proof gets accepted was disputed when it was rejected. */
  lemma AcceptableMeansDispute(w: World, rules: Rules, g: Header, m: Memory, r: Hash)
    returns (there: Memory, b: Header, good: Proof, bad: Proof)
    requires SoundGenesis(w, rules, g) && Reachable(w, rules, g, m)
    requires r in m.rejected && Acceptable(w, rules, r)
    ensures Reachable(w, rules, g, there) && Disputed(w, rules, there, b, good, bad)
    ensures there.rejected <= m.rejected && there.ledger.roots <= m.ledger.roots
  {
    var steps: seq<Step> :| Remember(w, rules, g, steps) == Some(m);
    var i: nat;
    i, there := WhenRejected(w, rules, g, steps, r);
    b, bad := steps[i].block, steps[i].proof;
    RunKeepsVouched(w, rules, g, steps[..i]);
    good :| rules.verify(b, w.headers[b.parent], good) == Accept;
  }

  lemma RejectedIsReal(w: World, rules: Rules, g: Header, m: Memory, r: Hash)
    requires SoundGenesis(w, rules, g) && Reachable(w, rules, g, m) && r in m.rejected
    ensures r in w.headers && r != g.hash
  {
    var steps :| Remember(w, rules, g, steps) == Some(m);
    var i, there := WhenRejected(w, rules, g, steps, r);
    RunKeepsVouched(w, rules, g, steps[..i]);
  }

  lemma GenesisHasNoAncestor(w: World, rules: Rules, g: Header, r: Hash)
    requires SoundGenesis(w, rules, g) && r in w.headers
    ensures Reaches(w.headers, g.hash, r) ==> r == g.hash
  {
    if k: nat :| Walk(w.headers, g.hash, k) == Some(r) {
      assert k > 0 ==> Walk(w.headers, g.hash, k) == Walk(w.headers, g.parent, k - 1);
      assert Walk(w.headers, ZERO, 0) == Some(ZERO);
    }
  }

  /** No ancestor-or-self of a root was rejected, unless it is acceptable all the same. */
  ghost predicate RootsHold(w: World, rules: Rules, m: Memory) {
    forall r | r in m.rejected && BelowRoot(w, m.ledger.roots, r) :: Acceptable(w, rules, r)
  }

  /** If a stored block, or an ancestor of it, was rejected, then a run leads to a dispute, or a root lies above it. */
  lemma StoredBlameMeansDispute(w: World, rules: Rules, g: Header, m: Memory, h: Hash)
    requires SoundGenesis(w, rules, g) && Reachable(w, rules, g, m)
    requires h in m.ledger.blocks && Blamed(w, h, m.rejected)
    ensures SomeDispute(w, rules, g) || !RootsHold(w, rules, m)
  {
    var steps :| Remember(w, rules, g, steps) == Some(m);
    RunKeepsVouched(w, rules, g, steps);
    var r :| r in m.rejected && Reaches(w.headers, h, r);
    RejectedIsReal(w, rules, g, m, r);
    if Acceptable(w, rules, r) {
      var there, b, good, bad := AcceptableMeansDispute(w, rules, g, m, r);
    } else {
      assert BelowRoot(w, m.ledger.roots, r);
    }
  }

  /** A rejected block below a root lies below a checkpoint, which could be downloaded again now. */
  lemma BelowRootMeansBadCheckpoint(w: World, rules: Rules, g: Header, m: Memory)
    requires SoundGenesis(w, rules, g) && Reachable(w, rules, g, m) && !RootsHold(w, rules, m)
    ensures SomeBadCheckpoint(w, rules, g)
  {
    var steps :| Remember(w, rules, g, steps) == Some(m);
    RunKeepsRoots(w, rules, g, steps);
    var r :| r in m.rejected && BelowRoot(w, m.ledger.roots, r) && !Acceptable(w, rules, r);
    RejectedIsReal(w, rules, g, m, r);
    var root :| root in m.ledger.roots && Reaches(w.headers, root, r);
    GenesisHasNoAncestor(w, rules, g, r);
    var ancestors :| CheckpointOk(w, w.headers[root], ancestors);
    assert AboveRejected(w, m, w.headers[root], ancestors);
  }

  /** A disputed block that is rejected first and accepted next. */
  ghost function RejectedThenStored(w: World, rules: Rules, m: Memory, b: Header, good: Proof, bad: Proof): Memory
    requires Disputed(w, rules, m, b, good, bad)
  {
    After(w, rules, After(w, rules, m, Refute(b, bad)), Move(Store(b, good)))
  }

  /** Its hash is then recorded and stored, and the roots hold as before. */
  lemma DisputeMeansStoredKey(w: World, rules: Rules, g: Header, m: Memory, b: Header, good: Proof, bad: Proof)
    requires SoundGenesis(w, rules, g) && Reachable(w, rules, g, m) && Disputed(w, rules, m, b, good, bad)
    ensures
      var stored := RejectedThenStored(w, rules, m, b, good, bad);
      && Reachable(w, rules, g, stored) && StoredKey(stored)
      && (RootsHold(w, rules, m) ==> RootsHold(w, rules, stored))
  {
    Reach(w, rules, g, m, Refute(b, bad));
    var refuted := After(w, rules, m, Refute(b, bad));
    Reach(w, rules, g, refuted, Move(Store(b, good)));
    var stored := After(w, rules, refuted, Move(Store(b, good)));
    assert b.hash in stored.entries && b.hash in stored.ledger.blocks;
    var steps :| Remember(w, rules, g, steps) == Some(m);
    RunKeepsVouched(w, rules, g, steps);
    assert Acceptable(w, rules, b.hash) by {
      assert rules.verify(b, w.headers[b.parent], good) == Accept;
    }
  }

  /**
   * Recording a checkpoint as below a rejected block when that is rejected, and downloading it next, leaves its
   * hash recorded and stored.
   */
  lemma BadCheckpointMeansStoredKey(w: World, rules: Rules, g: Header, m: Memory, c: Header, ancestors: seq<Header>)
    requires Reachable(w, rules, g, m) && AboveRejected(w, m, c, ancestors)
    ensures SomeStoredKey(w, rules, g)
  {
    var r :| r in m.rejected && Reaches(w.headers, c.hash, r);
    var steps :| Remember(w, rules, g, steps) == Some(m);
    var i, there := WhenRejected(w, rules, g, steps, r);
    assert Reachable(w, rules, g, there);
    Reach(w, rules, g, there, steps[i]);
    var refuted := After(w, rules, there, steps[i]);
    Reach(w, rules, g, refuted, Inherit(c.hash, r));
    var recorded := After(w, rules, refuted, Inherit(c.hash, r));
    Reach(w, rules, g, recorded, Move(Jump(c, ancestors)));
    var stored := After(w, rules, recorded, Move(Jump(c, ancestors)));
    assert c.hash in stored.entries && c.hash in stored.ledger.blocks;
  }

  /**
   * The cache can come to name a stored block exactly when a run leads to a dispute, where one proof gets a
   * block stored and another gets it rejected, or to the download of a checkpoint above a rejected block.
   */
  lemma StoredKeyExactly(w: World, rules: Rules, g: Header)
    requires SoundGenesis(w, rules, g)
    ensures SomeStoredKey(w, rules, g) <==> SomeDispute(w, rules, g) || SomeBadCheckpoint(w, rules, g)
  {
    if SomeStoredKey(w, rules, g) {
      var m :| Reachable(w, rules, g, m) && StoredKey(m);
      var k :| k in m.entries && k in m.ledger.blocks;
      ReachableEntries(w, rules, g, m);
      assert EntryNames(w, k, m.entries[k], m.rejected);
      StoredBlameMeansDispute(w, rules, g, m, k);
      if !RootsHold(w, rules, m) {
        BelowRootMeansBadCheckpoint(w, rules, g, m);
      }
    }
    if SomeDispute(w, rules, g) {
      var m, b, good, bad :| Reachable(w, rules, g, m) && Disputed(w, rules, m, b, good, bad);
      DisputeMeansStoredKey(w, rules, g, m, b, good, bad);
    }
    if SomeBadCheckpoint(w, rules, g) {
      var m, c, ancestors :| Reachable(w, rules, g, m) && AboveRejected(w, m, c, ancestors);
      BadCheckpointMeansStoredKey(w, rules, g, m, c, ancestors);
    }
  }

  /** Some run without rejected ancestors of roots leads to a recorded hash whose block is stored. */
  ghost predicate SomeStoredKeyApart(w: World, rules: Rules, g: Header) {
    exists m :: Reachable(w, rules, g, m) && RootsHold(w, rules, m) && StoredKey(m)
  }

  /** Some run without rejected ancestors of roots leads to a disputed block. */
  ghost predicate SomeDisputeApart(w: World, rules: Rules, g: Header) {
    exists m, b, good, bad ::
      Reachable(w, rules, g, m) && RootsHold(w, rules, m) && Disputed(w, rules, m, b, good, bad)
  }

  /** Checkpoints apart, the cache can come to name a stored block exactly when a run leads to a dispute. */
  lemma StoredKeyMeansDisputeExactly(w: World, rules: Rules, g: Header)
    requires SoundGenesis(w, rules, g)
    ensures SomeStoredKeyApart(w, rules, g) <==> SomeDisputeApart(w, rules, g)
  {
    if SomeStoredKeyApart(w, rules, g) {
      var m :| Reachable(w, rules, g, m) && RootsHold(w, rules, m) && StoredKey(m);
      HeldKeyMeansDispute(w, rules, g, m);
    }
    if SomeDisputeApart(w, rules, g) {
      var m, b, good, bad :|
        Reachable(w, rules, g, m) && RootsHold(w, rules, m) && Disputed(w, rules, m, b, good, bad);
      DisputeMeansStoredKey(w, rules, g, m, b, good, bad);
    }
  }

  lemma HeldKeyMeansDispute(w: World, rules: Rules, g: Header, m: Memory)
    requires SoundGenesis(w, rules, g) && Reachable(w, rules, g, m) && RootsHold(w, rules, m) && StoredKey(m)
    ensures SomeDisputeApart(w, rules, g)
  {
    var k :| k in m.entries && k in m.ledger.blocks;
    ReachableEntries(w, rules, g, m);
    assert EntryNames(w, k, m.entries[k], m.rejected);
    var r := m.entries[k].block.hash;
    var steps :| Remember(w, rules, g, steps) == Some(m);
    RunKeepsVouched(w, rules, g, steps);
    assert Acceptable(w, rules, r);
    var there, b, good, bad := AcceptableMeansDispute(w, rules, g, m, r);
    assert RootsHold(w, rules, there) by {
      forall x | x in there.rejected && BelowRoot(w, there.ledger.roots, x) ensures Acceptable(w, rules, x) {
        assert BelowRoot(w, m.ledger.roots, x);
      }
    }
  }

  /** No block that some proof gets accepted is rejected with another; faults may depend on the proof. */
  ghost predicate OneVerdict(w: World, rules: Rules) {
    forall h, p, q | h in w.headers && w.headers[h].parent in w.headers ::
      !(rules.verify(w.headers[h], w.headers[w.headers[h].parent], p) == Accept
        && rules.verify(w.headers[h], w.headers[w.headers[h].parent], q) == Reject)
  }

  lemma OneVerdictMeansNoDispute(w: World, rules: Rules, g: Header)
    requires SoundGenesis(w, rules, g) && OneVerdict(w, rules)
    ensures !SomeDispute(w, rules, g)
  {
    forall m, b, good, bad | Reachable(w, rules, g, m)
      ensures !Disputed(w, rules, m, b, good, bad)
    {
      var steps :| Remember(w, rules, g, steps) == Some(m);
      RunKeepsVouched(w, rules, g, steps);
    }
  }

  /** In a state whose roots hold, as long as no run leads to a dispute, no stored block is recorded or blamed. */
  lemma CacheNeverNamesStored(w: World, rules: Rules, g: Header, m: Memory, h: Hash)
    requires SoundGenesis(w, rules, g) && !SomeDispute(w, rules, g)
    requires Reachable(w, rules, g, m) && RootsHold(w, rules, m) && h in m.ledger.blocks
    ensures h !in m.entries && !Blamed(w, h, m.rejected)
  {
    ReachableEntries(w, rules, g, m);
    if Blamed(w, h, m.rejected) {
      StoredBlameMeansDispute(w, rules, g, m, h);
    }
    assert h in m.entries ==> EntryNames(w, h, m.entries[h], m.rejected);
  }
}
