/** Runs from genesis that show where the conditions of the main results are needed. */
module Counterexamples {
  import opened Chain
  import opened ChainStates
  import opened ForkChoice
  import opened Ledgers
  import opened InvalidHeaders
  import opened Refutations
  import opened Insertions
  import opened Answers
  import opened EngineTrees

  /** Hashes 1 to n are a chain of the numbers from 0; hash n + 1 is another block numbered 2, above hash 2. */
  ghost function Block(n: nat, h: Hash): Header
    requires h > 0
  {
    if h == n + 1 then Header(h, 2, 2, 0) else Header(h, h - 1, h - 1, 0)
  }

  ghost function BlocksTo(n: nat, top: Hash): Blocks {
    map h: Hash | 1 <= h <= top :: Block(n, h)
  }

  ghost function Line(n: nat): World {
    World(BlocksTo(n, n + 1), (h: Hash) => h)
  }

  ghost function NumberRules(): Rules {
    Rules((b: Header) => true,
          (b: Header, p: Header, proof: Proof) => if b.number == p.number + 1 then Accept else Reject)
  }

  /** The blocks with the hashes from low up to high. */
  ghost function Rise(n: nat, low: Hash, high: Hash): seq<Header>
    requires 0 < low <= high + 1
  {
    seq(high + 1 - low, i requires 0 <= i < high + 1 - low => Block(n, low + i))
  }

  /** The 256 blocks with the hashes from high downwards. */
  ghost function Fall(n: nat, high: Hash): seq<Header>
    requires high >= BLOCK_HASH_WINDOW
  {
    seq(BLOCK_HASH_WINDOW, i requires 0 <= i < BLOCK_HASH_WINDOW => Block(n, high - i))
  }

  /** Blocks of the line, all of them up to the top. */
  ghost predicate OnLine(n: nat, m: Blocks, top: Hash) {
    && top <= n
    && (forall h | h in m :: 1 <= h <= n + 1 && m[h] == Block(n, h))
    && (forall h | 1 <= h <= top :: h in m)
  }

  lemma LineOk(n: nat)
    requires n >= 2
    ensures Proper(Line(n)) && ChecksNumber(NumberRules())
  {
    var w := Line(n);
    forall h | h in w.headers ensures w.headers[h].hash == h && w.rank(w.headers[h].parent) < w.rank(h) {
      assert w.headers[h] == Block(n, h);
    }
  }

  lemma LineNumbered(n: nat, m: Blocks, top: Hash)
    requires n >= 2 && OnLine(n, m, top)
    ensures Numbered(Line(n), m)
  {
    var w := Line(n);
    forall h | h in m
      ensures h in w.headers && w.headers[h] == m[h]
      ensures if m[h].number == 0 then m[h].parent == ZERO
              else m[h].parent in w.headers && w.headers[m[h].parent].number + 1 == m[h].number
    {
      assert m[h] == Block(n, h) && (h != 1 ==> w.headers[Block(n, h).parent] == Block(n, Block(n, h).parent));
    }
  }

  lemma {:induction false} WalkLine(n: nat, m: Blocks, h: Hash, k: nat)
    requires OnLine(n, m, h) && k <= h
    ensures Walk(m, h, k) == Some(h - k)
    decreases k
  {
    if k > 0 {
      if h > 1 {
        WalkLine(n, m, h - 1, k - 1);
      } else {
        assert Walk(m, ZERO, 0) == Some(ZERO);
      }
    }
  }

  lemma RiseIsChain(n: nat, m: Blocks, low: Hash, high: Hash)
    requires OnLine(n, m, high) && 2 <= low <= high
    ensures IsChain(m, low - 1, Rise(n, low, high), high)
  {
  }

  lemma FallIsCheckpoint(n: nat, h: Hash)
    requires BLOCK_HASH_WINDOW < h <= n
    ensures CheckpointOk(Line(n), Block(n, h), Fall(n, h - 1))
  {
    var w, ancestors := Line(n), Fall(n, h - 1);
    assert w.headers[h] == Block(n, h);
    forall i | 0 <= i < |ancestors|
      ensures ancestors[i].hash in w.headers && w.headers[ancestors[i].hash] == ancestors[i]
    {
      assert ancestors[i] == Block(n, h - 1 - i);
    }
  }

  // ----- Updates along the line

  /** The chain's blocks up to the top lead from genesis to it. */
  lemma CommitLine(n: nat, m: Blocks, top: Hash)
    requires OnLine(n, m, top) && 2 <= top
    ensures IsUpdate(m, 1, top, Commit(Rise(n, 2, top)))
  {
    TopMeetsGenesis(n, m, top);
    RiseIsChain(n, m, 2, top);
  }

  /** The walk from the top first meets genesis at genesis. */
  lemma TopMeetsGenesis(n: nat, m: Blocks, top: Hash)
    requires OnLine(n, m, top) && 2 <= top
    ensures Meets(m, top, top - 1, 1, 0) && Walk(m, top, top - 1) == Some(1)
    ensures forall i: nat, j: nat | Meets(m, top, i, 1, j) :: top - 1 <= i
  {
    LineOk(n);
    LineNumbered(n, m, top);
    TopReachesGenesis(n, m, top);
    FirstMeeting(Line(n), m, top, top - 1, 1, 0);
  }

  lemma TopReachesGenesis(n: nat, m: Blocks, top: Hash)
    requires OnLine(n, m, top) && 2 <= top
    ensures Meets(m, top, top - 1, 1, 0) && Walk(m, top, top - 1) == Some(1)
    ensures top in Line(n).headers && 1 in Line(n).headers
  {
    WalkLine(n, m, top, top - 1);
    assert Walk(m, 1, 0) == Some(1);
    assert Line(n).headers[1] == Block(n, 1) && Line(n).headers[top] == Block(n, top);
  }

  /** The other block numbered 2 is reached from genesis over hash 2. */
  lemma CommitFork(n: nat, m: Blocks)
    requires OnLine(n, m, 2) && n + 1 in m
    ensures IsUpdate(m, 1, n + 1, Commit([Block(n, 2), Block(n, n + 1)]))
  {
    var w := Line(n);
    LineOk(n);
    LineNumbered(n, m, 2);
    WalkLine(n, m, 2, 1);
    assert Walk(m, n + 1, 2) == Walk(m, 2, 1) && Walk(m, 1, 0) == Some(1);
    assert Meets(m, n + 1, 2, 1, 0);
    assert w.headers[1] == Block(n, 1) && w.headers[n + 1] == Block(n, n + 1);
    FirstMeeting(w, m, n + 1, 2, 1, 0);
  }

  /** From the top of the line back to number 1. */
  ghost function Rewind(n: nat): NewCanonicalChain
    requires n >= 2
  {
    Reorg([Block(n, 2)], Rise(n, 2, n))
  }

  lemma RewindLine(n: nat, m: Blocks)
    requires OnLine(n, m, n) && n > 2
    ensures IsUpdate(m, n, 2, Rewind(n))
  {
    var w := Line(n);
    LineOk(n);
    LineNumbered(n, m, n);
    WalkLine(n, m, 2, 1);
    WalkLine(n, m, n, n - 1);
    assert Meets(m, 2, 1, n, n - 1);
    assert w.headers[2] == Block(n, 2) && w.headers[n] == Block(n, n);
    FirstMeeting(w, m, 2, 1, n, n - 1);
    RiseIsChain(n, m, 2, n);
  }

  // ----- Filling the store

  ghost function Stores(n: nat, k: nat): seq<Event> {
    if k == 0 then [] else Stores(n, k - 1) + [Store(Block(n, k + 1), 0)]
  }

  /** Genesis, with the next k blocks of the line stored. */
  ghost function Filled(n: nat, k: nat): Ledger {
    Genesis(Block(n, 1)).(blocks := BlocksTo(n, k + 1),
                          proofs := map h: Hash | 2 <= h <= k + 1 && Block(n, h).hash == h :: 0)
  }

  /** The run is possible, and this is where it leads. */
  ghost predicate Leads(n: nat, es: seq<Event>, s: Ledger) {
    Replay(Line(n), NumberRules(), Block(n, 1), es) == Some(s)
  }

  lemma LeadsFurther(n: nat, es: seq<Event>, s: Ledger, e: Event)
    requires Leads(n, es, s) && Enabled(Line(n), NumberRules(), s, e)
    ensures Leads(n, es + [e], Apply(Line(n), NumberRules(), s, e))
  {
    ReplayAppend(Line(n), NumberRules(), Block(n, 1), es, s, e);
  }

  lemma NoneFilled(n: nat)
    ensures Filled(n, 0) == Genesis(Block(n, 1))
  {
    assert BlocksTo(n, 1) == map[1 := Block(n, 1)] && Filled(n, 0).proofs == map[];
  }

  lemma FilledMore(n: nat, k: nat)
    requires 0 < k < n
    ensures Enabled(Line(n), NumberRules(), Filled(n, k - 1), Store(Block(n, k + 1), 0))
    ensures Stored(Filled(n, k - 1), Block(n, k + 1), 0) == Filled(n, k)
  {
    var b := Block(n, k + 1);
    assert Line(n).headers[k + 1] == b && BlocksTo(n, k)[k] == Block(n, k);
    assert BlocksTo(n, k)[k + 1 := b] == BlocksTo(n, k + 1);
    assert Filled(n, k - 1).proofs[k + 1 := 0] == Filled(n, k).proofs;
  }

  lemma {:induction false} StoresLead(n: nat, k: nat)
    requires k < n
    ensures Leads(n, Stores(n, k), Filled(n, k))
    decreases k
  {
    if k == 0 {
      NoneFilled(n);
    } else {
      StoresLead(n, k - 1);
      FilledMore(n, k);
      LeadsFurther(n, Stores(n, k - 1), Filled(n, k - 1), Store(Block(n, k + 1), 0));
    }
  }

  lemma InvOf(n: nat, es: seq<Event>, s: Ledger)
    requires n >= 2 && Leads(n, es, s)
    ensures Inv(Line(n), NumberRules(), s)
  {
    LineOk(n);
    assert Line(n).headers[1] == Block(n, 1);
    RunFromGenesis(Line(n), NumberRules(), Block(n, 1), es);
  }

  // ----- A checkpoint below the head

  /** The whole line is stored and canonical. */
  ghost function OnTop(n: nat): seq<Event>
    requires n > 1
  {
    Stores(n, n - 1) + [Update(n, Commit(Rise(n, 2, n)))]
  }

  lemma OnTopLeads(n: nat) returns (s: Ledger)
    requires n > 1
    ensures Leads(n, OnTop(n), s) && IndexOk(Line(n), s) && s.head == NumHash(n - 1, n)
  {
    StoresLead(n, n - 1);
    var filled := Filled(n, n - 1);
    CommitLine(n, filled.blocks, n);
    LeadsFurther(n, Stores(n, n - 1), filled, Update(n, Commit(Rise(n, 2, n))));
    s := Updated(filled, Commit(Rise(n, 2, n)));
    InvOf(n, OnTop(n), s);
  }

  /** The block below the top is downloaded with its 256 ancestors. */
  ghost function DownloadBelow(n: nat): Event
    requires n > BLOCK_HASH_WINDOW + 1
  {
    Jump(Block(n, n - 1), Fall(n, n - 2))
  }

  /** From a sound index whose head is the top, that leaves the old head's entry above the new head. */
  lemma JumpLeavesHead(n: nat, s: Ledger)
    requires n > BLOCK_HASH_WINDOW + 1 && Inv(Line(n), NumberRules(), s) && IndexOk(Line(n), s)
    requires s.head == NumHash(n - 1, n)
    ensures Enabled(Line(n), NumberRules(), s, DownloadBelow(n))
    ensures !IndexOk(Line(n), Apply(Line(n), NumberRules(), s, DownloadBelow(n)))
  {
    FallIsCheckpoint(n, n - 1);
    JumpSpoils(Line(n), NumberRules(), s, DownloadBelow(n));
  }

  lemma JumpSpoils(w: World, rules: Rules, s: Ledger, e: Event)
    requires StoreOk(w, rules, s) && IndexOk(w, s) && Enabled(w, rules, s, e)
    requires e.Jump? && e.checkpoint.number < s.head.number
    ensures !IndexOk(w, Apply(w, rules, s, e))
  {
    JumpKeepsIndexExactly(w, rules, s, e.checkpoint, e.ancestors);
  }

  /** With the chain canonical, downloading the block below the head spoils the index. */
  lemma JumpBelowHead(n: nat) returns (before: Ledger, after: Ledger)
    requires n > BLOCK_HASH_WINDOW + 1
    ensures Leads(n, OnTop(n), before) && IndexOk(Line(n), before)
    ensures Leads(n, OnTop(n) + [DownloadBelow(n)], after) && !IndexOk(Line(n), after)
  {
    before := OnTopLeads(n);
    InvOf(n, OnTop(n), before);
    JumpLeavesHead(n, before);
    LeadsFurther(n, OnTop(n), before, DownloadBelow(n));
    after := Apply(Line(n), NumberRules(), before, DownloadBelow(n));
  }

  // ----- A rewind below a checkpoint's ancestors

  /** All but the line's top is stored; the other block numbered 2 is stored and canonical. */
  ghost function OnFork(n: nat): seq<Event>
    requires n >= 2
  {
    Stores(n, n - 2) + [Store(Block(n, n + 1), 0)] + [Update(n + 1, Commit([Block(n, 2), Block(n, n + 1)]))]
  }

  lemma OnForkLeads(n: nat) returns (s: Ledger)
    requires n > 3
    ensures Leads(n, OnFork(n), s) && s.tidy && s.head.number == 2 && Get(s.canon, 2) == Some(n + 1)
    ensures s.blocks == BlocksTo(n, n - 1)[n + 1 := Block(n, n + 1)]
  {
    var fork := [Block(n, 2), Block(n, n + 1)];
    var stored := Stored(Filled(n, n - 2), Block(n, n + 1), 0);
    StoresLead(n, n - 2);
    assert Line(n).headers[n + 1] == Block(n, n + 1);
    LeadsFurther(n, Stores(n, n - 2), Filled(n, n - 2), Store(Block(n, n + 1), 0));
    CommitFork(n, stored.blocks);
    LeadsFurther(n, Stores(n, n - 2) + [Store(Block(n, n + 1), 0)], stored, Update(n + 1, Commit(fork)));
    InsertAllAt(stored.canon, fork, 2);
    s := Updated(stored, Commit(fork));
  }

  /** Then the line's top is downloaded with 256 ancestors. */
  ghost function Download(n: nat): Event
    requires n > BLOCK_HASH_WINDOW
  {
    Jump(Block(n, n), Fall(n, n - 1))
  }

  lemma DownloadLeads(n: nat, es: seq<Event>, s: Ledger)
    requires n > BLOCK_HASH_WINDOW && Leads(n, es, s)
    ensures Leads(n, es + [Download(n)], Jumped(s, Block(n, n), Fall(n, n - 1)))
  {
    FallIsCheckpoint(n, n);
    LeadsFurther(n, es, s, Download(n));
  }

  lemma JumpOntoFork(n: nat, s: Ledger)
    requires n > BLOCK_HASH_WINDOW + 3 && s.tidy && s.head.number == 2 && Get(s.canon, 2) == Some(n + 1)
    requires s.blocks == BlocksTo(n, n - 1)[n + 1 := Block(n, n + 1)]
    ensures
      var s' := Jumped(s, Block(n, n), Fall(n, n - 1));
      && s'.tidy && s'.lo == n - 1 - BLOCK_HASH_WINDOW && s'.head == NumHash(n - 1, n)
      && Get(s'.canon, 2) == Some(n + 1) && OnLine(n, s'.blocks, n)
  {
    FallIsCheckpoint(n, n);
    JumpedAt(Line(n), s, Block(n, n), Fall(n, n - 1), 2);
    assert s.blocks[n := Block(n, n)] == BlocksTo(n, n + 1);
  }

  lemma AfterJumpIs(n: nat) returns (s: Ledger)
    requires n > BLOCK_HASH_WINDOW + 3
    ensures Leads(n, OnFork(n) + [Download(n)], s) && s.tidy
    ensures s.lo == n - 1 - BLOCK_HASH_WINDOW && s.head == NumHash(n - 1, n)
    ensures Get(s.canon, 2) == Some(n + 1) && OnLine(n, s.blocks, n)
  {
    var forked := OnForkLeads(n);
    DownloadLeads(n, OnFork(n), forked);
    JumpOntoFork(n, forked);
    s := Jumped(forked, Block(n, n), Fall(n, n - 1));
  }

  lemma HeadAboveTwo(n: nat, s: Ledger)
    requires n > 3 && s.head == NumHash(n - 1, n) && OnLine(n, s.blocks, n)
    ensures Walk(s.blocks, s.head.hash, s.head.number - 2) == Some(3)
  {
    WalkLine(n, s.blocks, n, n - 3);
  }

  /** Rewinding to number 1 leaves a foreign entry numbered 2, where the contiguous part starts above it. */
  lemma RewindLeavesStale(n: nat, s: Ledger)
    requires n > 3 && Inv(Line(n), NumberRules(), s) && s.tidy
    requires s.head == NumHash(n - 1, n) && OnLine(n, s.blocks, n)
    requires s.lo > 2 && Get(s.canon, 2) == Some(n + 1)
    ensures IsUpdate(s.blocks, s.head.hash, 2, Rewind(n)) && !IndexOk(Line(n), Updated(s, Rewind(n)))
  {
    RewindLine(n, s.blocks);
    HeadAboveTwo(n, s);
    StaleEntryStays(Line(n), NumberRules(), s, 2, Rewind(n), 2);
  }

  /** Making number 1 canonical again leaves an entry of the other branch above the head. */
  lemma RewindBelowJump(n: nat) returns (before: Ledger, after: Ledger)
    requires n > BLOCK_HASH_WINDOW + 3
    ensures Leads(n, OnFork(n) + [Download(n)], before) && IndexOk(Line(n), before)
    ensures Leads(n, OnFork(n) + [Download(n)] + [Update(2, Rewind(n))], after) && !IndexOk(Line(n), after)
  {
    before := AfterJumpIs(n);
    InvOf(n, OnFork(n) + [Download(n)], before);
    RewindLeavesStale(n, before);
    LeadsFurther(n, OnFork(n) + [Download(n)], before, Update(2, Rewind(n)));
    after := Updated(before, Rewind(n));
  }

  // ----- A disputed block

  /** Only one proof is accepted. */
  ghost function ProofRules(): Rules {
    Rules((b: Header) => true,
          (b: Header, p: Header, proof: Proof) =>
            if b.number == p.number + 1 && proof == 1 then Accept else Reject)
  }

  ghost function BadThenGood(): seq<Step> {
    [Refute(Block(2, 2), 0), Move(Store(Block(2, 2), 1))]
  }

  /** A bad proof gets the block after genesis rejected, and a good one gets it stored all the same. */
  lemma BadProofBlamesGoodBlock() returns (m: Memory)
    ensures SoundGenesis(Line(2), ProofRules(), Block(2, 1))
    ensures Remember(Line(2), ProofRules(), Block(2, 1), BadThenGood()) == Some(m)
    ensures 2 in m.entries && 2 in m.ledger.blocks && SomeDispute(Line(2), ProofRules(), Block(2, 1))
  {
    LineOk(2);
    var w, rules, start := Line(2), ProofRules(), Start(Block(2, 1));
    assert w.headers[1] == Block(2, 1) && w.headers[2] == Block(2, 2);
    assert Possible(w, rules, start, Refute(Block(2, 2), 0));
    var refuted := After(w, rules, start, Refute(Block(2, 2), 0));
    assert Remember(w, rules, Block(2, 1), []) == Some(start);
    assert [Refute(Block(2, 2), 0)][..0] == [];
    assert Remember(w, rules, Block(2, 1), [Refute(Block(2, 2), 0)]) == Some(refuted);
    m := After(w, rules, refuted, Move(Store(Block(2, 2), 1)));
    assert BadThenGood()[..1] == [Refute(Block(2, 2), 0)];
    StartReachable(w, rules, Block(2, 1));
    assert Disputed(w, rules, start, Block(2, 2), 1, 0);
  }

  /**
   * From any state of the tree with a disputed block that is not buffered: sending the block with the bad proof
   * and again with the good one leads to a recorded hash whose block is stored, in a cache that has room.
   */
  method RejectThenAccept(tree: EngineTree, b: Header, bad: Proof, good: Proof)
    requires tree.Valid() && !tree.invalidHeaders.forgetful && b.hash !in tree.buffer.blocks
    requires
      Disputed(tree.world, tree.rules, Memory(tree.ledger, tree.invalidHeaders.entries, tree.rejected), b, good, bad)
    modifies tree, tree.state, tree.buffer, tree.invalidHeaders
    ensures tree.Valid() && StoredKey(Memory(tree.ledger, tree.invalidHeaders.entries, tree.rejected))
  {
    tree.LedgerInv();
    assert Passes(tree.world, tree.rules, b, good);
    var first := tree.OnNewPayload(WellFormed(b), Some(bad));
    var second := tree.OnNewPayload(WellFormed(b), Some(good));
    ghost var key := if Refused(first) || Refused(second) then b.parent else b.hash;
    assert key in tree.invalidHeaders.entries && key in tree.ledger.blocks;
  }

  // ----- A checkpoint above a rejected block

  /** The block after genesis fails its own checks. */
  ghost function CheckRules(): Rules {
    NumberRules().(preValid := (b: Header) => b.hash != 2)
  }

  /** That block is rejected, the top of the line is recorded as below it, and then downloaded. */
  ghost function RecordedThenDownloaded(n: nat): seq<Step>
    requires n > BLOCK_HASH_WINDOW
  {
    [Refute(Block(n, 2), 0)] + [Inherit(n, 2)] + [Move(Download(n))]
  }

  /** Without any dispute, a checkpoint above a rejected block is then both recorded and stored. */
  lemma CheckpointAboveRejected(n: nat) returns (m: Memory)
    requires n > BLOCK_HASH_WINDOW
    ensures SoundGenesis(Line(n), CheckRules(), Block(n, 1)) && !SomeDispute(Line(n), CheckRules(), Block(n, 1))
    ensures Remember(Line(n), CheckRules(), Block(n, 1), RecordedThenDownloaded(n)) == Some(m)
    ensures n in m.entries && n in m.ledger.blocks
  {
    LineOk(n);
    var w, rules, start := Line(n), CheckRules(), Start(Block(n, 1));
    assert w.headers[1] == Block(n, 1) && w.headers[2] == Block(n, 2);
    OneVerdictMeansNoDispute(w, rules, Block(n, 1));
    assert Remember(w, rules, Block(n, 1), []) == Some(start);
    OneMoreStep(n, [], start, Refute(Block(n, 2), 0));
    var refuted := After(w, rules, start, Refute(Block(n, 2), 0));
    assert [] + [Refute(Block(n, 2), 0)] == [Refute(Block(n, 2), 0)];
    WalkLine(n, w.headers, n, n - 2);
    OneMoreStep(n, [Refute(Block(n, 2), 0)], refuted, Inherit(n, 2));
    var recorded := After(w, rules, refuted, Inherit(n, 2));
    FallIsCheckpoint(n, n);
    OneMoreStep(n, [Refute(Block(n, 2), 0)] + [Inherit(n, 2)], recorded, Move(Download(n)));
    m := After(w, rules, recorded, Move(Download(n)));
  }

  lemma OneMoreStep(n: nat, steps: seq<Step>, m: Memory, step: Step)
    requires Remember(Line(n), CheckRules(), Block(n, 1), steps) == Some(m)
    requires Possible(Line(n), CheckRules(), m, step)
    ensures Remember(Line(n), CheckRules(), Block(n, 1), steps + [step]) == Some(After(Line(n), CheckRules(), m, step))
  {
    assert (steps + [step])[..|steps|] == steps;
  }

  /**
   * From any state of the tree in whose cache the parent of a block is recorded: sending that block as a payload
   * records it too, and downloading it as a checkpoint next leaves its hash both recorded and stored.
   */
  method RecordThenDownload(tree: EngineTree, checkpoint: Header, ancestors: seq<Header>, proof: Option<Proof>)
    requires tree.Valid() && !tree.invalidHeaders.forgetful && CheckpointOk(tree.world, checkpoint, ancestors)
    requires checkpoint.parent in tree.invalidHeaders.entries && checkpoint.hash !in tree.buffer.blocks
    modifies tree, tree.state, tree.buffer, tree.invalidHeaders
    ensures tree.Valid() && checkpoint.hash in tree.invalidHeaders.entries && checkpoint.hash in tree.ledger.blocks
  {
    var refused := tree.OnNewPayload(WellFormed(checkpoint), proof);
    tree.AcceptCheckpoint(checkpoint, ancestors);
  }
}
