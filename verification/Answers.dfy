/** Payloads, fork-choice states and the answers to them: what an answer means, and when it is given. */
module Answers {
  import opened Chain
  import opened ForkChoice
  import opened Ledgers
  import opened BufferContents
  import opened InvalidHeaders
  import opened Refutations
  import opened Insertions

  datatype BlockStatus =
    | Connected
    | Disconnected(head: NumHash, missingAncestor: NumHash)
    | NoProof

  datatype InsertResult =
    | AlreadySeen
    | Inserted(status: BlockStatus)
    | Failed(fatal: bool)

  datatype PayloadStatus =
    | ValidPayload(hash: Hash)
    | InvalidPayload(latestValid: Option<Hash>)
    | LinksToInvalid(lastValid: Hash)
    | Syncing

  /** What the tree asks its caller to do. */
  datatype TreeEvent =
    | CanonicalizeTarget(target: Hash)
    | DownloadBlock(hash: Hash)
    | DownloadProof(hash: Hash)
    | DownloadFinalized(hash: Hash)

  datatype PayloadOutcome = PayloadOutcome(status: PayloadStatus, event: Option<TreeEvent>)

  /** A payload that gives a block, or one that violates the rules for payloads. */
  datatype Payload =
    | WellFormed(block: Header)
    | Malformed(hash: Hash, parent: Hash, hashMismatch: bool)
  {
    function BlockHash(): Hash {
      if WellFormed? then block.hash else hash
    }
  }

  datatype ForkchoiceState = ForkchoiceState(head: Hash, safe: Hash, finalized: Hash)

  datatype ForkchoiceStatus =
    | ValidHead
    | InvalidState
    | InvalidHead(latest: Hash)
    | InvalidAttributes
    | SyncingHead
    | MissingHeader

  /** Some verification fails through no fault of its block. */
  ghost predicate CanFault(rules: Rules) {
    exists b, p, proof :: rules.verify(b, p, proof) == Fault
  }

  // ----- What an answer means

  /** The answer to a block below a rejected one says how far down the chain is blamed. */
  ghost predicate LinksToRejected(w: World, stored: Blocks, rejected: set<Hash>, hash: Hash, status: PayloadStatus) {
    && status.LinksToInvalid? && Blamed(w, hash, rejected)
    && (status.lastValid != ZERO ==>
          status.lastValid in stored && exists k: nat :: BlamedDownTo(w, hash, k, status.lastValid, rejected))
  }

  /** What the answer to a block says about it. */
  ghost predicate AnswerJustified(w: World, stored: Blocks, rejected: set<Hash>, buffered: Blocks,
                                  block: Header, status: PayloadStatus)
  {
    match status
    case ValidPayload(hash) => hash == block.hash && hash in stored
    case LinksToInvalid(_) => LinksToRejected(w, stored, rejected, block.hash, status)
    case InvalidPayload(latestValid) =>
      && block.hash in rejected
      && (latestValid.Some? ==>
            && latestValid.value in stored
            && exists k: nat :: BlamedDownTo(w, block.parent, k, latestValid.value, rejected))
    case Syncing => block.hash in buffered && block.hash !in stored
  }

  // ----- When a block gets which answer

  /** The hash looked up for a block: where its buffered ancestors end, or its parent for a payload not buffered. */
  ghost predicate CheckedAt(buffered: Blocks, b: Header, payload: bool, check: Hash) {
    if payload && b.hash !in buffered then check == b.parent else EndsAt(buffered, b.hash, check)
  }

  ghost predicate BelowRecorded(buffered: Blocks, entries: Entries, b: Header, payload: bool) {
    exists check :: CheckedAt(buffered, b, payload, check) && check in entries
  }

  lemma CheckedOnce(buffered: Blocks, entries: Entries, b: Header, payload: bool, check: Hash)
    requires CheckedAt(buffered, b, payload, check)
    ensures BelowRecorded(buffered, entries, b, payload) <==> check in entries
  {
    if other :| CheckedAt(buffered, b, payload, other) && other in entries {
      if !(payload && b.hash !in buffered) {
        EndsAtOnce(buffered, b.hash, check, other);
      }
    }
  }

  /** Where the buffered ancestors of the hash end, there is a recorded hash. */
  ghost predicate RecordedBelow(buffered: Blocks, entries: Entries, h: Hash) {
    exists check :: EndsAt(buffered, h, check) && check in entries
  }

  lemma RecordedOnce(buffered: Blocks, entries: Entries, h: Hash, check: Hash)
    requires EndsAt(buffered, h, check)
    ensures RecordedBelow(buffered, entries, h) <==> check in entries
  {
    if other :| EndsAt(buffered, h, other) && other in entries {
      EndsAtOnce(buffered, h, check, other);
    }
  }

  /** The hash reported below a recorded one, where the cache keeps its entries. */
  ghost predicate RefusalIs(stored: Blocks, entries: Entries, check: Hash, lastValid: Hash) {
    check in entries && LastValidIs(stored, entries, entries[check].parent, lastValid)
  }

  /** The answer is that the block links to an invalid one. */
  predicate Refused(r: Option<PayloadOutcome>) {
    r.Some? && r.value.status.LinksToInvalid?
  }

  /** The answer for a stored block, which asks to make it canonical if it is the target. */
  function StoredAnswer(target: Option<Hash>, h: Hash): Option<PayloadOutcome> {
    Some(PayloadOutcome(ValidPayload(h), if target == Some(h) then Some(CanonicalizeTarget(h)) else None))
  }

  /** What waited for a stored block is connected, which makes it a valid payload, or some of it faults. */
  ghost predicate AnsweredStored(w: World, rules: Rules, target: Option<Hash>, h: Hash, before: View, after: View,
                                 outcome: Option<PayloadOutcome>)
  {
    if outcome.Some? then FamilyConnected(w, rules, target, h, before, after) && outcome == StoredAnswer(target, h)
    else FamilyFaulted(w, rules, target, h, before, after)
  }

  /** The answer that asks for the block where the buffered ancestors of a buffered block's parent end. */
  ghost predicate AsksForAncestor(buffered: Blocks, parent: Hash, outcome: Option<PayloadOutcome>) {
    && outcome.Some? && outcome.value.status.Syncing?
    && outcome.value.event.Some? && outcome.value.event.value.DownloadBlock?
    && EndsAt(buffered, parent, outcome.value.event.value.hash)
  }

  /**
   * What a block that is not refused changes, and the answer to it. For a stored block a payload connects what
   * waits for it once more, and a download does nothing.
   */
  ghost predicate Handled(w: World, rules: Rules, target: Option<Hash>, limit: nat, payload: bool, before: View,
                          after: View, block: Header, maybeProof: Option<Proof>, outcome: Option<PayloadOutcome>)
  {
    match FateOf(rules, before.ledger.blocks, block, maybeProof)
    case Seen =>
      if payload then AnsweredStored(w, rules, target, block.hash, before, after, outcome)
      else after == before && outcome == Some(PayloadOutcome(ValidPayload(block.hash), None))
    case Passing =>
      var stored := before.(ledger := Stored(before.ledger, block, maybeProof.value));
      AnsweredStored(w, rules, target, block.hash, stored, after, outcome)
    case Orphaned =>
      && after == WithBuffered(before, limit, block, maybeProof)
      && AsksForAncestor(before.buffer.blocks, block.parent, outcome)
    case Unproven =>
      && after == WithBuffered(before, limit, block, None)
      && outcome == Some(PayloadOutcome(Syncing, Some(DownloadProof(block.hash))))
    case Refuted =>
      && after == before.(rejected := before.rejected + {block.hash})
      && outcome.Some? && outcome.value.status.InvalidPayload? && outcome.value.event.None?
      && (block.parent in before.ledger.blocks ==> outcome.value.status.latestValid == Some(block.parent))
    case Faulty => after == before && outcome == None
  }

  /** The result of inserting a block with this fate. */
  predicate ResultIs(fate: Fate, r: InsertResult) {
    match fate
    case Seen => r.AlreadySeen?
    case Refuted => r == Failed(false)
    case Orphaned => r.Inserted? && r.status.Disconnected?
    case Unproven => r == Inserted(NoProof)
    case Faulty => r == Failed(true)
    case Passing => r == Inserted(Connected)
  }

  /** The state after inserting a block with this result. */
  ghost function Inserting(v: View, limit: nat, b: Header, maybeProof: Option<Proof>, result: InsertResult): View {
    if result == Inserted(Connected) && maybeProof.Some? then v.(ledger := Stored(v.ledger, b, maybeProof.value))
    else if result.Inserted? then WithBuffered(v, limit, b, maybeProof)
    else v
  }

  /** The state once a block that failed is rejected. */
  ghost function Settling(v: View, b: Header, result: InsertResult): View {
    if result == Failed(false) then v.(rejected := v.rejected + {b.hash}) else v
  }

  /** The answer to a block that is not stored: what is missing is asked for, or the block is invalid. */
  ghost predicate AnsweredNotStored(stored: Blocks, buffered: Blocks, b: Header, result: InsertResult,
                                    outcome: Option<PayloadOutcome>)
  {
    match result
    case Inserted(NoProof) => outcome == Some(PayloadOutcome(Syncing, Some(DownloadProof(b.hash))))
    case Inserted(_) => AsksForAncestor(buffered, b.parent, outcome)
    case Failed(fatal) =>
      if fatal then outcome == None
      else
        && outcome.Some? && outcome.value.status.InvalidPayload? && outcome.value.event.None?
        && (b.parent in stored ==> outcome.value.status.latestValid == Some(b.parent))
    case AlreadySeen => false
  }

  lemma NotStoredHandled(w: World, rules: Rules, target: Option<Hash>, limit: nat, payload: bool, before: View,
                         after: View, b: Header, maybeProof: Option<Proof>, result: InsertResult,
                         outcome: Option<PayloadOutcome>)
    requires ResultIs(FateOf(rules, before.ledger.blocks, b, maybeProof), result)
    requires result != AlreadySeen && result != Inserted(Connected)
    requires AnsweredNotStored(before.ledger.blocks, before.buffer.blocks, b, result, outcome)
    requires after == Settling(Inserting(before, limit, b, maybeProof, result), b, result)
    ensures Handled(w, rules, target, limit, payload, before, after, b, maybeProof, outcome)
  {
  }

  /** A stored block, or one that passes over its stored parent: its family is connected. */
  ghost predicate OnceStored(rules: Rules, payload: bool, stored: Blocks, b: Header, maybeProof: Option<Proof>) {
    var fate := FateOf(rules, stored, b, maybeProof);
    fate.Passing? || (payload && fate.Seen?)
  }

  /** The state in which the family of such a block is connected. */
  ghost function AsStored(rules: Rules, before: View, b: Header, maybeProof: Option<Proof>): View {
    if FateOf(rules, before.ledger.blocks, b, maybeProof).Passing? then
      before.(ledger := Stored(before.ledger, b, maybeProof.value))
    else before
  }

  lemma InsertingStored(rules: Rules, limit: nat, payload: bool, before: View, b: Header, maybeProof: Option<Proof>,
                        result: InsertResult)
    requires ResultIs(FateOf(rules, before.ledger.blocks, b, maybeProof), result)
    requires result == Inserted(Connected) || (payload && result == AlreadySeen)
    ensures OnceStored(rules, payload, before.ledger.blocks, b, maybeProof)
    ensures Inserting(before, limit, b, maybeProof, result) == AsStored(rules, before, b, maybeProof)
  {
  }

  lemma StoredHandled(w: World, rules: Rules, target: Option<Hash>, limit: nat, payload: bool, before: View,
                      after: View, b: Header, maybeProof: Option<Proof>, outcome: Option<PayloadOutcome>)
    requires OnceStored(rules, payload, before.ledger.blocks, b, maybeProof)
    ensures
      Handled(w, rules, target, limit, payload, before, after, b, maybeProof, outcome) <==>
      AnsweredStored(w, rules, target, b.hash, AsStored(rules, before, b, maybeProof), after, outcome)
  {
  }

  /** Whatever the answer, stored blocks and rejected ones stay so. */
  lemma HandledGrows(w: World, rules: Rules, target: Option<Hash>, limit: nat, payload: bool, before: View, after: View,
                     b: Header, maybeProof: Option<Proof>, outcome: Option<PayloadOutcome>)
    requires Handled(w, rules, target, limit, payload, before, after, b, maybeProof, outcome)
    ensures before.ledger.blocks.Keys <= after.ledger.blocks.Keys && before.rejected <= after.rejected
    ensures FateOf(rules, before.ledger.blocks, b, maybeProof).Passing? ==> b.hash in after.ledger.blocks
  {
    if OnceStored(rules, payload, before.ledger.blocks, b, maybeProof) {
      StoredHandled(w, rules, target, limit, payload, before, after, b, maybeProof, outcome);
      var stored := AsStored(rules, before, b, maybeProof);
      AnsweredGrows(w, rules, target, b.hash, stored, after, outcome);
      assert before.ledger.blocks.Keys <= stored.ledger.blocks.Keys;
    }
  }

  lemma AnsweredGrows(w: World, rules: Rules, target: Option<Hash>, h: Hash, before: View, after: View,
                      outcome: Option<PayloadOutcome>)
    requires AnsweredStored(w, rules, target, h, before, after, outcome)
    ensures before.ledger.blocks.Keys <= after.ledger.blocks.Keys && before.rejected <= after.rejected
  {
    if outcome.None? {
      var pool := PoolOf(before.buffer, h);
      var r: seq<Buffered>, n: nat :|
        && HandledUpTo(w, rules, target, h, r, n, before, after)
        && n < |r| && Judged(w, rules, before.ledger.blocks, pool, r[n].block.hash, Fault);
    }
  }

  /** What a valid answer means: the block is stored, and so is its family if all its proofs verify. */
  ghost predicate ValidMeans(w: World, rules: Rules, target: Option<Hash>, before: View, after: View, b: Header,
                             maybeProof: Option<Proof>, outcome: PayloadOutcome)
  {
    && outcome == StoredAnswer(target, b.hash).value && b.hash in after.ledger.blocks
    && (|| b.hash in before.ledger.blocks
        || (maybeProof.Some? && b.parent in before.ledger.blocks && Passes(w, rules, b, maybeProof.value)))
    && (FamilyPasses(w, rules, before.buffer, b.hash) ==>
          Family(before.buffer, {b.hash}) <= after.ledger.blocks.Keys)
  }

  lemma HandledValid(w: World, rules: Rules, target: Option<Hash>, limit: nat, payload: bool, before: View, after: View,
                     b: Header, maybeProof: Option<Proof>, outcome: Option<PayloadOutcome>)
    requires Handled(w, rules, target, limit, payload, before, after, b, maybeProof, outcome)
    requires Known(w, before.ledger.blocks) && Known(w, before.buffer.blocks)
    requires OnceStored(rules, payload, before.ledger.blocks, b, maybeProof)
    ensures outcome.Some? ==> ValidMeans(w, rules, target, before, after, b, maybeProof, outcome.value)
    ensures FamilyPasses(w, rules, before.buffer, b.hash) ==> outcome.Some?
  {
    StoredHandled(w, rules, target, limit, payload, before, after, b, maybeProof, outcome);
    HandledGrows(w, rules, target, limit, payload, before, after, b, maybeProof, outcome);
    if FamilyPasses(w, rules, before.buffer, b.hash) {
      PassingFamily(w, rules, target, b.hash, AsStored(rules, before, b, maybeProof), after);
    }
  }

  /** A block refuted with its proof is answered invalid, and a valid answer says that it is not. */
  lemma HandledRefuted(w: World, rules: Rules, target: Option<Hash>, limit: nat, payload: bool, before: View,
                       after: View, b: Header, maybeProof: Option<Proof>, outcome: Option<PayloadOutcome>)
    requires Handled(w, rules, target, limit, payload, before, after, b, maybeProof, outcome)
    ensures
      outcome.Some? && outcome.value.status.InvalidPayload? <==>
      FateOf(rules, before.ledger.blocks, b, maybeProof).Refuted?
    ensures outcome.Some? && outcome.value.status.InvalidPayload? ==>
      after.ledger == before.ledger && after.buffer == before.buffer && b.hash in after.rejected
    ensures maybeProof.Some? && RefutedBy(w, rules, before.ledger, b, maybeProof.value) ==>
      outcome.Some? && outcome.value.status.InvalidPayload?
  {
  }

  /** What the caller is asked to do fits the answer. */
  ghost predicate EventFits(w: World, target: Option<Hash>, b: Header, outcome: PayloadOutcome) {
    match outcome.status
    case ValidPayload(_) =>
      outcome.event == None || (target == Some(b.hash) && outcome.event == Some(CanonicalizeTarget(b.hash)))
    case Syncing =>
      && outcome.event.Some?
      && (outcome.event.value == DownloadProof(b.hash)
          || (outcome.event.value.DownloadBlock? && Reaches(w.headers, b.hash, outcome.event.value.hash)))
    case _ => outcome.event == None
  }

  lemma HandledFits(w: World, rules: Rules, target: Option<Hash>, limit: nat, payload: bool, before: View, after: View,
                    b: Header, maybeProof: Option<Proof>, outcome: Option<PayloadOutcome>)
    requires Handled(w, rules, target, limit, payload, before, after, b, maybeProof, outcome)
    requires b.hash in w.headers && w.headers[b.hash] == b && Known(w, before.buffer.blocks)
    ensures outcome.Some? ==> EventFits(w, target, b, outcome.value)
  {
    if AsksForAncestor(before.buffer.blocks, b.parent, outcome) {
      var missing := outcome.value.event.value.hash;
      ReachesMonotone(before.buffer.blocks, w.headers, b.parent, missing);
      ReachesParent(w.headers, b.hash);
      ReachesTrans(w.headers, b.hash, b.parent, missing);
    }
  }

  /** A block is refused only below a recorded one, and then changes nothing; else it is handled. */
  ghost predicate BlockAnswered(w: World, rules: Rules, target: Option<Hash>, limit: nat, payload: bool,
                                entries: Entries, before: View, after: View, b: Header, maybeProof: Option<Proof>,
                                outcome: Option<PayloadOutcome>)
  {
    if Refused(outcome) then
      && after == before && outcome.value.event.None?
      && BelowRecorded(before.buffer.blocks, entries, b, payload)
    else Handled(w, rules, target, limit, payload, before, after, b, maybeProof, outcome)
  }

  /** A cache that keeps its entries determines which blocks are refused, and the latest valid hashes. */
  ghost predicate ExactlyAnswered(entries: Entries, before: View, b: Header, payload: bool,
                                  outcome: Option<PayloadOutcome>)
  {
    && (Refused(outcome) <==> BelowRecorded(before.buffer.blocks, entries, b, payload))
    && (Refused(outcome) ==>
          exists check ::
            && CheckedAt(before.buffer.blocks, b, payload, check)
            && RefusalIs(before.ledger.blocks, entries, check, outcome.value.status.lastValid))
    && (outcome.Some? && outcome.value.status.InvalidPayload? ==>
          LatestIs(before.ledger.blocks, entries, b.parent, outcome.value.status.latestValid))
  }

  /** A block above no recorded one, and with the latest valid hash determined, is answered exactly so. */
  lemma HandledExactly(entries: Entries, before: View, b: Header, payload: bool, outcome: Option<PayloadOutcome>)
    requires !BelowRecorded(before.buffer.blocks, entries, b, payload) && !Refused(outcome)
    requires outcome.Some? && outcome.value.status.InvalidPayload? ==>
      LatestIs(before.ledger.blocks, entries, b.parent, outcome.value.status.latestValid)
    ensures ExactlyAnswered(entries, before, b, payload, outcome)
  {
  }

  /** A block above a recorded one, refused with the hash determined. */
  lemma RefusedExactly(entries: Entries, before: View, b: Header, payload: bool, check: Hash, lastValid: Hash)
    requires CheckedAt(before.buffer.blocks, b, payload, check)
    requires RefusalIs(before.ledger.blocks, entries, check, lastValid)
    ensures ExactlyAnswered(entries, before, b, payload, Some(PayloadOutcome(LinksToInvalid(lastValid), None)))
  {
  }

  // ----- When a fork-choice state gets which answer

  /** The non-zero safe and finalized hashes are on the canonical index. */
  ghost predicate Consistent(fc: ForkchoiceState, s: Ledger) {
    forall h | h in {fc.finalized, fc.safe} && h != ZERO :: h in s.canon.Values
  }

  /** The ledger once a finalized block's pruning is done, if that block is stored. */
  ghost function CleanedUp(s: Ledger, finalized: Hash): Ledger {
    if finalized in s.blocks then Pruned(s, s.blocks[finalized].number) else s
  }

  /** The buffer once blocks numbered at most a finalized block, and what is linked under them, are evicted. */
  ghost function Swept(c: Contents, stored: Blocks, finalized: Hash): Contents {
    if finalized in stored then Drop(c, Family(c, Old(c.blocks, stored[finalized].number))) else c
  }

  /** The answer once the head is canonical and the state consistent. */
  function Accepted(attributesOk: Option<bool>): ForkchoiceStatus {
    if attributesOk == Some(false) then InvalidAttributes else ValidHead
  }

  /** The head moves; the state is cleaned up if the safe and finalized blocks are canonical then. */
  ghost predicate HeadMoved(fc: ForkchoiceState, attributesOk: Option<bool>, moved: Ledger, before: View, after: View,
                            r: ForkchoiceStatus)
  {
    if Consistent(fc, moved) then
      && after == View(CleanedUp(moved, fc.finalized), before.rejected,
                       Swept(before.buffer, moved.blocks, fc.finalized))
      && r == Accepted(attributesOk)
    else after == before.(ledger := moved) && r == InvalidState
  }

  /** What a fork-choice state that is not turned down at once changes, and the answer to it. */
  ghost predicate Decided(fc: ForkchoiceState, attributesOk: Option<bool>, before: View, after: View,
                          r: ForkchoiceStatus)
  {
    var s := before.ledger;
    if fc.head == s.head.hash then
      && after == before
      && r == if !Consistent(fc, s) then InvalidState
              else if attributesOk.Some? && fc.head !in s.blocks then MissingHeader
              else Accepted(attributesOk)
    else if CanAdvance(s.blocks, s.head.hash, fc.head) then
      exists u ::
        IsUpdate(s.blocks, s.head.hash, fc.head, u) && HeadMoved(fc, attributesOk, Updated(s, u), before, after, r)
    else after == before && r == if fc.head in s.blocks then ValidHead else SyncingHead
  }

  function IsKnown(stored: Blocks, buffered: Blocks, h: Hash): bool {
    h in stored || h in buffered
  }

  function IsMissing(stored: Blocks, buffered: Blocks, h: Hash): bool {
    h != ZERO && !IsKnown(stored, buffered, h)
  }

  /**
   * The download that leads to the requested head: the finalized block if that is missing, else the hash where
   * the buffered ancestors of a missing safe block or of the head end; none if that is finalized or stored.
   */
  ghost predicate SyncsTo(stored: Blocks, buffered: Blocks, fc: ForkchoiceState, event: Option<TreeEvent>) {
    var target := if IsMissing(stored, buffered, fc.safe) then fc.safe else fc.head;
    match event
    case Some(DownloadFinalized(h)) => h == fc.finalized && IsMissing(stored, buffered, h)
    case Some(DownloadBlock(h)) =>
      && !IsMissing(stored, buffered, fc.finalized) && h != fc.finalized
      && EndsAt(buffered, target, h) && !IsKnown(stored, buffered, h)
    case None => !IsMissing(stored, buffered, fc.finalized) && LeadsTo(stored, buffered, target, fc.finalized)
    case _ => false
  }

  /** The buffered ancestors of the start end at the finalized block or at a stored one. */
  ghost predicate LeadsTo(stored: Blocks, buffered: Blocks, start: Hash, finalized: Hash) {
    exists h :: EndsAt(buffered, start, h) && (h == finalized || IsKnown(stored, buffered, h))
  }

  /** The head to sync to after a fork-choice update; invalid payload attributes do not make the head invalid. */
  function Tracked(target: Option<Hash>, head: Hash, status: ForkchoiceStatus): Option<Hash> {
    match status
    case ValidHead => None
    case InvalidAttributes => None
    case SyncingHead => Some(head)
    case _ => target
  }

  /** A fork-choice state is turned down at once for the zero hash or below a recorded block, or decided. */
  ghost predicate ForkchoiceHandled(fc: ForkchoiceState, attributesOk: Option<bool>, entries: Entries, before: View,
                                    after: View, r: ForkchoiceStatus)
  {
    if fc.head == ZERO then r == InvalidState && after == before
    else if r.InvalidHead? then RecordedBelow(before.buffer.blocks, entries, fc.head) && after == before
    else Decided(fc, attributesOk, before, after, r)
  }

  /** A cache that keeps its entries determines which heads are turned down, and the latest valid hash. */
  ghost predicate HeadExactly(fc: ForkchoiceState, entries: Entries, before: View, r: ForkchoiceStatus) {
    && (r.InvalidHead? <==> fc.head != ZERO && RecordedBelow(before.buffer.blocks, entries, fc.head))
    && (r.InvalidHead? ==>
          exists check ::
            EndsAt(before.buffer.blocks, fc.head, check) && RefusalIs(before.ledger.blocks, entries, check, r.latest))
  }

  lemma HeadRefusedExactly(fc: ForkchoiceState, entries: Entries, before: View, check: Hash, latest: Hash)
    requires fc.head != ZERO && EndsAt(before.buffer.blocks, fc.head, check)
    requires RefusalIs(before.ledger.blocks, entries, check, latest)
    ensures HeadExactly(fc, entries, before, InvalidHead(latest))
  {
  }

  /** The head is canonical or becomes so, and the safe or the finalized hash is not canonical then. */
  ghost predicate Inconsistent(fc: ForkchoiceState, s: Ledger) {
    if fc.head == s.head.hash then !Consistent(fc, s)
    else
      && CanAdvance(s.blocks, s.head.hash, fc.head)
      && exists u :: IsUpdate(s.blocks, s.head.hash, fc.head, u) && !Consistent(fc, Updated(s, u))
  }

  /** When exactly a decided state is answered syncing or invalid; all other answers hold a canonical or stored head. */
  lemma DecidedStatus(fc: ForkchoiceState, attributesOk: Option<bool>, before: View, after: View, r: ForkchoiceStatus)
    requires Decided(fc, attributesOk, before, after, r)
    ensures
      r.SyncingHead? <==>
        && fc.head != before.ledger.head.hash && fc.head !in before.ledger.blocks
        && !CanAdvance(before.ledger.blocks, before.ledger.head.hash, fc.head)
    ensures r.InvalidState? <==> Inconsistent(fc, before.ledger)
    ensures
      fc.head in before.ledger.blocks && fc.head != before.ledger.head.hash
      && !CanAdvance(before.ledger.blocks, before.ledger.head.hash, fc.head) ==>
        r.ValidHead?
    ensures r.InvalidAttributes? ==> attributesOk == Some(false)
  {
    var s := before.ledger;
    if fc.head != s.head.hash {
      if u :| IsUpdate(s.blocks, s.head.hash, fc.head, u) {
        forall v | IsUpdate(s.blocks, s.head.hash, fc.head, v) ensures u == v {
          UpdateOnce(s.blocks, s.head.hash, fc.head, u, v);
        }
      }
    }
  }

  /** The ledger is the same, or the head moved to the requested one, and all is cleaned up if that is consistent. */
  ghost predicate OnlyMovedTo(fc: ForkchoiceState, s: Ledger, s': Ledger, r: ForkchoiceStatus) {
    || s' == s
    || exists u ::
         && IsUpdate(s.blocks, s.head.hash, fc.head, u) && s'.head.hash == fc.head
         && s' == if r.InvalidState? then Updated(s, u) else CleanedUp(Updated(s, u), fc.finalized)
  }

  lemma MovedHead(fc: ForkchoiceState, attributesOk: Option<bool>, u: NewCanonicalChain, before: View, after: View,
                  r: ForkchoiceStatus)
    requires IsUpdate(before.ledger.blocks, before.ledger.head.hash, fc.head, u)
    requires HeadMoved(fc, attributesOk, Updated(before.ledger, u), before, after, r)
    ensures after.ledger.head.hash == fc.head
    ensures after.ledger ==
      if r.InvalidState? then Updated(before.ledger, u) else CleanedUp(Updated(before.ledger, u), fc.finalized)
    ensures r == Accepted(attributesOk) || (r.InvalidState? && !Consistent(fc, after.ledger))
  {
    assert Updated(before.ledger, u).head == NumHashOf(u.Tip()) && u.Tip().hash == fc.head;
  }

  lemma DecidedHead(w: World, fc: ForkchoiceState, attributesOk: Option<bool>, before: View, after: View,
                    r: ForkchoiceStatus)
    requires Decided(fc, attributesOk, before, after, r)
    ensures OnlyMovedTo(fc, before.ledger, after.ledger, r)
    ensures r.ValidHead? && CanAdvance(before.ledger.blocks, before.ledger.head.hash, fc.head) ==>
      after.ledger.head.hash == fc.head
    ensures r.ValidHead? && IndexOk(w, after.ledger) ==> fc.head in after.ledger.blocks
    ensures r.SyncingHead? ==> fc.head !in after.ledger.blocks && after.ledger == before.ledger
    ensures r.InvalidState? ==> !Consistent(fc, after.ledger)
    ensures r.MissingHeader? ==> fc.head == after.ledger.head.hash && fc.head !in after.ledger.blocks
    ensures IndexOk(w, before.ledger) ==> !r.MissingHeader?
    ensures attributesOk == Some(false) && after.ledger.head.hash == fc.head ==> !r.ValidHead?
  {
    var s := before.ledger;
    if fc.head != s.head.hash && CanAdvance(s.blocks, s.head.hash, fc.head) {
      var u :|
        IsUpdate(s.blocks, s.head.hash, fc.head, u) && HeadMoved(fc, attributesOk, Updated(s, u), before, after, r);
      MovedHead(fc, attributesOk, u, before, after, r);
    }
  }
}
