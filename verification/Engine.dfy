/** The event loop: downloads, the parked payload and the messages of the consensus client. */
module Engines {
  import opened Chain
  import opened ForkChoice
  import opened Ledgers
  import opened BufferContents
  import opened InvalidHeaders
  import opened Insertions
  import opened Answers
  import opened EngineTrees
  import opened Downloads

  /** A message; the number identifies the channel its one response goes to. */
  datatype Message =
    | NewPayload(id: nat, payload: Payload)
    | ForkchoiceUpdated(id: nat, fc: ForkchoiceState, attributesOk: Option<bool>)

  datatype Answer =
    | PayloadAnswer(status: Option<PayloadStatus>)
    | ForkchoiceAnswer(outcome: ForkchoiceStatus)

  datatype Response = Response(id: nat, answer: Answer)

  /** How a round of the poll loop ends. */
  datatype Round = Again | Pending | Fatal

  /** A payload whose response waits for a proof. */
  datatype Parked = Parked(hash: Hash, id: nat)

  function MessageIds(messages: seq<Message>): seq<nat> {
    seq(|messages|, i requires 0 <= i < |messages| => messages[i].id)
  }

  function ResponseIds(responses: seq<Response>): seq<nat> {
    seq(|responses|, i requires 0 <= i < |responses| => responses[i].id)
  }

  function ParkedIds(parked: Option<Parked>): seq<nat> {
    if parked.Some? then [parked.value.id] else []
  }

  /** The messages that arrived are those answered, then the parked one, then those waiting, in order. */
  ghost predicate Accounts(arrived: seq<nat>, responses: seq<Response>, parked: Option<Parked>, inbox: seq<Message>) {
    arrived == ResponseIds(responses) + ParkedIds(parked) + MessageIds(inbox)
  }

  lemma AnswerParked(arrived: seq<nat>, responses: seq<Response>, parked: Parked, inbox: seq<Message>, answer: Answer)
    requires Accounts(arrived, responses, Some(parked), inbox)
    ensures Accounts(arrived, responses + [Response(parked.id, answer)], None, inbox)
  {
    assert ResponseIds(responses + [Response(parked.id, answer)]) == ResponseIds(responses) + [parked.id];
  }

  lemma AnswerNext(arrived: seq<nat>, responses: seq<Response>, inbox: seq<Message>, answer: Answer)
    requires Accounts(arrived, responses, None, inbox) && inbox != []
    ensures Accounts(arrived, responses + [Response(inbox[0].id, answer)], None, inbox[1..])
  {
    assert ResponseIds(responses + [Response(inbox[0].id, answer)]) == ResponseIds(responses) + [inbox[0].id];
    assert MessageIds(inbox) == [inbox[0].id] + MessageIds(inbox[1..]);
  }

  lemma ParkNext(arrived: seq<nat>, responses: seq<Response>, inbox: seq<Message>, hash: Hash)
    requires Accounts(arrived, responses, None, inbox) && inbox != []
    ensures Accounts(arrived, responses, Some(Parked(hash, inbox[0].id)), inbox[1..])
  {
    assert MessageIds(inbox) == [inbox[0].id] + MessageIds(inbox[1..]);
  }

  lemma MoreArrive(arrived: seq<nat>, responses: seq<Response>, parked: Option<Parked>, inbox: seq<Message>,
                   more: seq<Message>)
    requires Accounts(arrived, responses, parked, inbox)
    ensures Accounts(arrived + MessageIds(more), responses, parked, inbox + more)
  {
    assert MessageIds(inbox + more) == MessageIds(inbox) + MessageIds(more);
  }

  /**
   * Responses come in arrival order, one for each message: message i has exactly one response, the i-th, or
   * it is the parked one or still waiting and has none.
   */
  lemma ExactlyOneResponse(arrived: seq<nat>, responses: seq<Response>, parked: Option<Parked>, inbox: seq<Message>,
                           i: nat)
    requires Accounts(arrived, responses, parked, inbox) && i < |arrived|
    requires forall a, b | 0 <= a < b < |arrived| :: arrived[a] != arrived[b]
    ensures |responses| <= |arrived| <= |responses| + |inbox| + 1
    ensures i < |responses| ==> responses[i].id == arrived[i]
    ensures forall j | 0 <= j < |responses| && responses[j].id == arrived[i] :: j == i
    ensures i == |responses| && parked.Some? ==> arrived[i] == parked.value.id
  {
    forall j | 0 <= j < |responses| ensures responses[j].id == arrived[j] {
      assert ResponseIds(responses)[j] == responses[j].id;
    }
  }

  /** What the network may deliver: real blocks, under the hashes that were asked for. */
  ghost predicate Deliverable(w: World, r: Readiness) {
    && Honest(r)
    && (forall h | h in r.blocks :: h in w.headers && w.headers[h] == r.blocks[h])
    && (forall h | h in r.finalized :: CheckpointOk(w, r.finalized[h].0, r.finalized[h].1))
  }

  ghost predicate Genuine(w: World, d: DownloadData) {
    match d
    case FullBlock(b) => b.hash in w.headers && w.headers[b.hash] == b
    case ProofOf(_, _) => true
    case FinalizedBlock(b, ancestors) =>
      CheckpointOk(w, b, ancestors)
  }

  ghost predicate AllGenuine(w: World, data: seq<DownloadData>) {
    forall i | 0 <= i < |data| :: Genuine(w, data[i])
  }

  lemma {:induction false} ResolvedGenuine(w: World, r: Readiness, kind: Kind, requests: seq<Request>)
    requires Deliverable(w, r)
    ensures AllGenuine(w, Resolved(r, kind, requests))
    decreases |requests|
  {
    if requests != [] {
      ResolvedGenuine(w, r, kind, requests[1..]);
    }
  }

  lemma AllResolvedGenuine(w: World, r: Readiness, finalized: seq<Request>, fullBlocks: seq<Request>,
                           proofs: seq<Request>)
    requires Deliverable(w, r)
    ensures AllGenuine(w, AllResolved(r, finalized, fullBlocks, proofs))
  {
    ResolvedGenuine(w, r, FinalizedKind, finalized);
    ResolvedGenuine(w, r, FullBlockKind, fullBlocks);
    ResolvedGenuine(w, r, ProofKind, proofs);
  }

  /** The network has nothing. */
  function NotReady(): Readiness {
    Readiness(map[], map[], map[])
  }

  lemma {:induction false} NoneResolved(kind: Kind, requests: seq<Request>)
    ensures Resolved(NotReady(), kind, requests) == []
    decreases |requests|
  {
    if requests != [] {
      NoneResolved(kind, requests[1..]);
    }
  }

  lemma NothingResolves(r: Readiness, finalized: seq<Request>, fullBlocks: seq<Request>, proofs: seq<Request>)
    requires r == NotReady()
    ensures AllResolved(r, finalized, fullBlocks, proofs) == []
  {
    NoneResolved(FinalizedKind, finalized);
    NoneResolved(FullBlockKind, fullBlocks);
    NoneResolved(ProofKind, proofs);
  }

  lemma GenuineParts(w: World, d: DownloadData, rest: seq<DownloadData>, all: seq<DownloadData>)
    requires all == [d] + rest && AllGenuine(w, all)
    ensures Genuine(w, d) && AllGenuine(w, rest)
  {
    assert all[0] == d && forall i | 0 <= i < |rest| :: all[i + 1] == rest[i];
  }

  /** A well-formed payload gives a real block. */
  ghost predicate RealPayload(w: World, m: Message) {
    m.NewPayload? && m.payload.WellFormed? ==>
      m.payload.block.hash in w.headers && w.headers[m.payload.block.hash] == m.payload.block
  }

  ghost predicate RealPayloads(w: World, inbox: seq<Message>) {
    forall i | 0 <= i < |inbox| :: RealPayload(w, inbox[i])
  }

  lemma RealTail(w: World, inbox: seq<Message>, inbox': seq<Message>)
    requires RealPayloads(w, inbox) && (inbox' == inbox || (inbox != [] && inbox' == inbox[1..]))
    ensures RealPayloads(w, inbox')
  {
  }

  /**
   * What happens before a round of the poll loop: messages arrive, the network is ready with downloads, and the
   * parked payload's time may be up.
   */
  datatype Turn = Turn(ready: Readiness, arrivals: seq<Message>, timedOut: bool)

  function QuietTurn(): Turn {
    Turn(NotReady(), [], false)
  }

  ghost predicate RealTurn(w: World, turn: Turn) {
    Deliverable(w, turn.ready) && RealPayloads(w, turn.arrivals)
  }

  /** The numbers of the messages that arrive in these turns. */
  ghost function ArrivedIn(turns: seq<Turn>): seq<nat>
    decreases |turns|
  {
    if turns == [] then [] else ArrivedIn(turns[..|turns| - 1]) + MessageIds(turns[|turns| - 1].arrivals)
  }

  ghost predicate RealTurns(w: World, turns: seq<Turn>) {
    forall i | 0 <= i < |turns| :: RealTurn(w, turns[i])
  }

  /** The script has been played up to the rest, and its messages have arrived after the earlier ones. */
  ghost predicate Played(script: seq<Turn>, rest: seq<Turn>, earlier: seq<nat>, arrived: seq<nat>) {
    && |rest| <= |script| && rest == script[|script| - |rest|..]
    && arrived == earlier + ArrivedIn(script[..|script| - |rest|])
  }

  lemma NonePlayed(script: seq<Turn>, arrived: seq<nat>)
    ensures Played(script, script, arrived, arrived)
  {
  }

  /** Playing the next turn of the rest, or a quiet one after its end. */
  lemma OneMorePlayed(w: World, script: seq<Turn>, rest: seq<Turn>, earlier: seq<nat>, arrived: seq<nat>)
    requires Played(script, rest, earlier, arrived) && RealTurns(w, rest)
    ensures Played(script, Later(rest), earlier, arrived + MessageIds(TurnAt(rest, 0).arrivals))
    ensures RealTurn(w, TurnAt(rest, 0)) && RealTurns(w, Later(rest))
  {
    if rest == [] {
      assert MessageIds(QuietTurn().arrivals) == [];
    } else {
      var n := |script| - |rest|;
      assert script[..n + 1][..n] == script[..n] && script[n] == rest[0];
    }
  }

  function TurnAt(script: seq<Turn>, i: nat): Turn {
    if i < |script| then script[i] else QuietTurn()
  }

  function Later(turns: seq<Turn>): seq<Turn> {
    if turns == [] then [] else turns[1..]
  }

  // ----- What a message or a download changes

  /** What the tree answers by, besides what it holds. */
  datatype Setting = Setting(
    w: World, rules: Rules, target: Option<Hash>, limit: nat, forgetful: bool, entries: Entries)

  /** The downloads that lead to a block: its proof too, unless that is there. */
  ghost function BlockWants(h: Hash, hasProof: bool): set<Ticket> {
    if hasProof then {Ticket(FullBlockKind, h)} else {Ticket(FullBlockKind, h)} + {Ticket(ProofKind, h)}
  }

  /** The downloads that an event asks for. */
  ghost function Wants(event: Option<TreeEvent>, proofs: map<Hash, Proof>): set<Ticket> {
    match event
    case Some(DownloadBlock(h)) => BlockWants(h, h in proofs)
    case Some(DownloadProof(h)) => {Ticket(ProofKind, h)}
    case Some(DownloadFinalized(h)) => {Ticket(FinalizedKind, h)}
    case _ => {}
  }

  lemma WantsOf(event: TreeEvent, proofs: map<Hash, Proof>)
    ensures event.DownloadBlock? ==> Wants(Some(event), proofs) == BlockWants(event.hash, event.hash in proofs)
    ensures event.DownloadProof? ==> Wants(Some(event), proofs) == {Ticket(ProofKind, event.hash)}
    ensures event.DownloadFinalized? ==> Wants(Some(event), proofs) == {Ticket(FinalizedKind, event.hash)}
    ensures event.CanonicalizeTarget? ==> Wants(Some(event), proofs) == {}
  {
  }

  /** An event changes the tree only if it asks for a new head. */
  ghost predicate EventFollowed(event: Option<TreeEvent>, before: View, after: View) {
    if event.Some? && event.value.CanonicalizeTarget? then
      && after == before.(ledger := after.ledger)
      && Canonicalized(before.ledger, after.ledger, event.value.target)
    else after == before
  }

  lemma TargetSought(before: View, after: View, target: Hash)
    requires after == before.(ledger := after.ledger) && Canonicalized(before.ledger, after.ledger, target)
    ensures EventFollowed(Some(CanonicalizeTarget(target)), before, after)
    ensures after.ledger.blocks == before.ledger.blocks
    ensures CanAdvance(after.ledger.blocks, before.ledger.head.hash, target) ==> after.ledger.head.hash == target
  {
    if CanAdvance(before.ledger.blocks, before.ledger.head.hash, target) {
      var u :|
        IsUpdate(before.ledger.blocks, before.ledger.head.hash, target, u) && after.ledger == Updated(before.ledger, u);
      assert after.ledger.head == NumHashOf(u.Tip()) && u.Tip().hash == target;
    }
  }

  function EventOf(outcome: Option<PayloadOutcome>): Option<TreeEvent> {
    if outcome.Some? then outcome.value.event else None
  }

  /** The payload waits for its proof. */
  predicate Parks(outcome: Option<PayloadOutcome>) {
    && outcome.Some? && outcome.value.status.Syncing?
    && outcome.value.event.Some? && outcome.value.event.value.DownloadProof?
  }

  /** The answer to a payload: none when it is parked, and an internal error for a fault. */
  function AnswerOf(outcome: Option<PayloadOutcome>): Option<Option<PayloadStatus>> {
    if outcome.None? then Some(None) else if Parks(outcome) then None else Some(Some(outcome.value.status))
  }

  /** The downloads asked for after a payload: its proof too, if it came without and the tree asks for anything. */
  ghost function PayloadWants(outcome: Option<PayloadOutcome>, proofs: map<Hash, Proof>, h: Hash, hasProof: bool)
    : set<Ticket>
  {
    var wanted := Wants(EventOf(outcome), proofs);
    if EventOf(outcome).Some? && !Parks(outcome) && !hasProof then wanted + {Ticket(ProofKind, h)} else wanted
  }

  lemma PayloadWantsIs(outcome: Option<PayloadOutcome>, proofs: map<Hash, Proof>, h: Hash, hasProof: bool,
                       wanted: set<Ticket>)
    requires wanted == Wants(EventOf(outcome), proofs)
    ensures
      PayloadWants(outcome, proofs, h, hasProof) ==
      if EventOf(outcome).None? || Parks(outcome) || hasProof then wanted else wanted + {Ticket(ProofKind, h)}
  {
  }

  lemma PayloadAsks(outcome: Option<PayloadOutcome>, proofs: map<Hash, Proof>, h: Hash, hasProof: bool,
                    asked: multiset<Ticket>, asked': multiset<Ticket>)
    requires Added(asked, asked', PayloadWants(outcome, proofs, h, hasProof))
    ensures forall a: Hash :: EventOf(outcome) == Some(DownloadProof(a)) ==> Ticket(ProofKind, a) in asked'
    ensures forall a: Hash :: EventOf(outcome) == Some(DownloadBlock(a)) ==> Ticket(FullBlockKind, a) in asked'
  {
    var event := EventOf(outcome);
    var extra :| AddedBy(asked, asked', PayloadWants(outcome, proofs, h, hasProof), extra);
    assert forall t | t in Wants(event, proofs) :: t in PayloadWants(outcome, proofs, h, hasProof);
    forall a: Hash | event == Some(DownloadProof(a)) ensures Ticket(ProofKind, a) in asked' {
      assert Ticket(ProofKind, a) in Wants(event, proofs);
    }
    forall a: Hash | event == Some(DownloadBlock(a)) ensures Ticket(FullBlockKind, a) in asked' {
      assert Ticket(FullBlockKind, a) in Wants(event, proofs);
    }
  }

  ghost predicate BlockGiven(s: Setting, payload: bool, before: View, after: View, block: Header,
                             maybeProof: Option<Proof>, outcome: Option<PayloadOutcome>)
  {
    && BlockAnswered(s.w, s.rules, s.target, s.limit, payload, s.entries, before, after, block, maybeProof, outcome)
    && (!s.forgetful ==> ExactlyAnswered(s.entries, before, block, payload, outcome))
  }

  /** What the tree makes of a payload. */
  ghost predicate PayloadGiven(s: Setting, before: View, after: View, payload: Payload, maybeProof: Option<Proof>,
                               outcome: Option<PayloadOutcome>)
  {
    match payload
    case WellFormed(block) => BlockGiven(s, true, before, after, block, maybeProof, outcome)
    case Malformed(_, parent, hashMismatch) =>
      && after == before
      && outcome.Some? && outcome.value.status.InvalidPayload? && outcome.value.event.None?
      && (hashMismatch ==> outcome.value.status.latestValid.None?)
      && (!hashMismatch && !s.forgetful ==>
            LatestIs(before.ledger.blocks, s.entries, parent, outcome.value.status.latestValid))
  }

  /** Without the proof, which goes with the payload. */
  ghost function ProofTaken(v: View, h: Hash): View {
    v.(buffer := v.buffer.(proofs := v.buffer.proofs - {h}))
  }

  /** The payload and its buffered proof come to this outcome in the tree, and its event is followed. */
  ghost predicate PayloadStep(s: Setting, before: View, mid: View, after: View, asked: multiset<Ticket>,
                              asked': multiset<Ticket>, payload: Payload, outcome: Option<PayloadOutcome>)
  {
    var h := payload.BlockHash();
    && PayloadGiven(s, ProofTaken(before, h), mid, payload, Get(before.buffer.proofs, h), outcome)
    && EventFollowed(EventOf(outcome), mid, after)
    && Added(asked, asked', PayloadWants(outcome, mid.buffer.proofs, h, h in before.buffer.proofs))
  }

  /** A payload and its buffered proof go to the tree, and what the tree asks for is done. */
  ghost predicate PayloadProcessed(s: Setting, before: View, after: View, asked: multiset<Ticket>,
                                   asked': multiset<Ticket>, payload: Payload, answer: Option<Option<PayloadStatus>>)
  {
    exists outcome, mid ::
      PayloadStep(s, before, mid, after, asked, asked', payload, outcome) && answer == AnswerOf(outcome)
  }

  lemma PayloadDone(s: Setting, before: View, mid: View, after: View, asked: multiset<Ticket>,
                    asked': multiset<Ticket>, payload: Payload, outcome: Option<PayloadOutcome>)
    requires PayloadGiven(s, ProofTaken(before, payload.BlockHash()), mid, payload,
                          Get(before.buffer.proofs, payload.BlockHash()), outcome)
    requires EventFollowed(EventOf(outcome), mid, after)
    requires Added(asked, asked', PayloadWants(outcome, mid.buffer.proofs, payload.BlockHash(),
                                               payload.BlockHash() in before.buffer.proofs))
    ensures PayloadProcessed(s, before, after, asked, asked', payload, AnswerOf(outcome))
  {
    assert PayloadStep(s, before, mid, after, asked, asked', payload, outcome);
  }

  /** The downloaded block comes to this outcome in the tree, and its event is followed. */
  ghost predicate DownloadStep(s: Setting, before: View, mid: View, after: View, asked: multiset<Ticket>,
                               asked': multiset<Ticket>, block: Header, proof: Proof, outcome: Option<PayloadOutcome>)
  {
    && BlockGiven(s, false, before, mid, block, Some(proof), outcome)
    && EventFollowed(EventOf(outcome), mid, after)
    && Added(asked, asked', Wants(EventOf(outcome), mid.buffer.proofs))
  }

  function StatusOf(outcome: Option<PayloadOutcome>): Option<PayloadStatus> {
    if outcome.Some? then Some(outcome.value.status) else None
  }

  /** A complete downloaded block goes to the tree, and what the tree asks for is done. */
  ghost predicate DownloadProcessed(s: Setting, before: View, after: View, asked: multiset<Ticket>,
                                    asked': multiset<Ticket>, block: Header, proof: Proof,
                                    status: Option<PayloadStatus>)
  {
    exists outcome, mid ::
      DownloadStep(s, before, mid, after, asked, asked', block, proof, outcome) && status == StatusOf(outcome)
  }

  lemma DownloadDone(s: Setting, before: View, mid: View, after: View, asked: multiset<Ticket>,
                     asked': multiset<Ticket>, block: Header, proof: Proof, outcome: Option<PayloadOutcome>)
    requires BlockGiven(s, false, before, mid, block, Some(proof), outcome)
    requires EventFollowed(EventOf(outcome), mid, after)
    requires Added(asked, asked', Wants(EventOf(outcome), mid.buffer.proofs))
    ensures DownloadProcessed(s, before, after, asked, asked', block, proof, StatusOf(outcome))
  {
    assert DownloadStep(s, before, mid, after, asked, asked', block, proof, outcome);
  }

  /** A fork-choice state goes to the tree, and the download that it needs is asked for. */
  ghost predicate ForkchoiceProcessed(s: Setting, before: View, after: View, asked: multiset<Ticket>,
                                      asked': multiset<Ticket>, fc: ForkchoiceState, attributesOk: Option<bool>,
                                      status: ForkchoiceStatus)
  {
    && ForkchoiceHandled(fc, attributesOk, s.entries, before, after, status)
    && (!s.forgetful ==> HeadExactly(fc, s.entries, before, status))
    && exists event :: SyncDone(after, asked, asked', fc, status, event)
  }

  /** The download that a syncing head needs is asked for, and nothing else. */
  ghost predicate SyncDone(after: View, asked: multiset<Ticket>, asked': multiset<Ticket>, fc: ForkchoiceState,
                           status: ForkchoiceStatus, event: Option<TreeEvent>)
  {
    && (if status.SyncingHead? then SyncsTo(after.ledger.blocks, after.buffer.blocks, fc, event) else event.None?)
    && Added(asked, asked', Wants(event, after.buffer.proofs))
  }

  lemma ForkchoiceDone(s: Setting, before: View, after: View, asked: multiset<Ticket>, asked': multiset<Ticket>,
                       fc: ForkchoiceState, attributesOk: Option<bool>, status: ForkchoiceStatus,
                       event: Option<TreeEvent>)
    requires ForkchoiceHandled(fc, attributesOk, s.entries, before, after, status)
    requires !s.forgetful ==> HeadExactly(fc, s.entries, before, status)
    requires
      if status.SyncingHead? then SyncsTo(after.ledger.blocks, after.buffer.blocks, fc, event) else event.None?
    requires Added(asked, asked', Wants(event, after.buffer.proofs))
    ensures ForkchoiceProcessed(s, before, after, asked, asked', fc, attributesOk, status)
  {
    assert SyncDone(after, asked, asked', fc, status, event);
  }

  /** A message is processed and answered, or parked without an answer; the target is the head to sync to after it. */
  ghost predicate Processed(s: Setting, before: View, after: View, asked: multiset<Ticket>, asked': multiset<Ticket>,
                            target: Option<Hash>, message: Message, reply: Option<Answer>)
  {
    match message
    case NewPayload(_, payload) =>
      && target == s.target
      && (reply.Some? ==> reply.value.PayloadAnswer?)
      && PayloadProcessed(s, before, after, asked, asked', payload,
                          if reply.Some? then Some(reply.value.status) else None)
    case ForkchoiceUpdated(_, fc, attributesOk) =>
      && reply.Some? && reply.value.ForkchoiceAnswer?
      && target == Tracked(s.target, fc.head, reply.value.outcome)
      && ForkchoiceProcessed(s, before, after, asked, asked', fc, attributesOk, reply.value.outcome)
  }

  /** What a round of the poll loop works on. */
  datatype EngineState = EngineState(
    setting: Setting, view: View, asked: multiset<Ticket>, parked: Option<Parked>, inbox: seq<Message>,
    responses: seq<Response>)

  /** The next message is processed; this reply is sent after all earlier responses, or it is parked for want of one. */
  ghost predicate ReplySent(before: EngineState, after: EngineState, reply: Option<Answer>) {
    && before.inbox != [] && after.inbox == before.inbox[1..]
    && Processed(before.setting, before.view, after.view, before.asked, after.asked, after.setting.target,
                 before.inbox[0], reply)
    && match reply
       case Some(answer) =>
         after.parked.None? && after.responses == before.responses + [Response(before.inbox[0].id, answer)]
       case None =>
         && after.responses == before.responses && before.inbox[0].NewPayload?
         && after.parked == Some(Parked(before.inbox[0].payload.BlockHash(), before.inbox[0].id))
  }

  /** The next message is processed, and answered after all earlier responses or parked. */
  ghost predicate Replied(before: EngineState, after: EngineState) {
    exists reply :: ReplySent(before, after, reply)
  }

  /** The payload's response is sent, or it is parked. */
  ghost predicate SentOrParked(message: Message, answer: Option<Option<PayloadStatus>>, parked: Option<Parked>,
                               earlier: seq<Response>, later: seq<Response>)
    requires message.NewPayload?
  {
    if answer.None? then parked == Some(Parked(message.payload.BlockHash(), message.id)) && later == earlier
    else parked.None? && later == earlier + [Response(message.id, PayloadAnswer(answer.value))]
  }

  lemma PayloadReplied(before: EngineState, after: EngineState, answer: Option<Option<PayloadStatus>>)
    requires before.inbox != [] && after.inbox == before.inbox[1..] && before.inbox[0].NewPayload?
    requires after.setting.target == before.setting.target
    requires PayloadProcessed(before.setting, before.view, after.view, before.asked, after.asked,
                              before.inbox[0].payload, answer)
    requires SentOrParked(before.inbox[0], answer, after.parked, before.responses, after.responses)
    ensures Replied(before, after)
  {
    assert ReplySent(before, after, if answer.None? then None else Some(PayloadAnswer(answer.value)));
  }

  lemma ForkchoiceReplied(before: EngineState, after: EngineState, status: ForkchoiceStatus)
    requires before.inbox != [] && after.inbox == before.inbox[1..] && before.inbox[0].ForkchoiceUpdated?
    requires after.setting.target == Tracked(before.setting.target, before.inbox[0].fc.head, status)
    requires ForkchoiceProcessed(before.setting, before.view, after.view, before.asked, after.asked,
                                 before.inbox[0].fc, before.inbox[0].attributesOk, status)
    requires after.parked.None?
    requires after.responses == before.responses + [Response(before.inbox[0].id, ForkchoiceAnswer(status))]
    ensures Replied(before, after)
  {
    assert ReplySent(before, after, Some(ForkchoiceAnswer(status)));
  }

  /** The parked payload is answered, if it is the one answered now. */
  ghost predicate ParkedAnswered(before: EngineState, after: EngineState, h: Hash,
                                 answer: Option<Option<PayloadStatus>>)
  {
    if answer.Some? && before.parked.Some? && before.parked.value.hash == h then
      && after.parked.None?
      && after.responses == before.responses + [Response(before.parked.value.id, PayloadAnswer(answer.value))]
    else after.parked == before.parked && after.responses == before.responses
  }

  /** From a state with a download stored, its block is inserted if complete; none is without its senders. */
  ghost predicate InsertedFrom(s: Setting, stored: View, after: View, asked: multiset<Ticket>, asked': multiset<Ticket>,
                               recovered: bool, h: Hash, answer: Option<Option<PayloadStatus>>)
  {
    if recovered then UnlockProcessed(s, stored, after, asked, asked', h, answer)
    else answer.None? && after == stored && asked' == asked
  }

  /** From a state with the download stored, its block is inserted if complete, and the parked payload answered. */
  ghost predicate OutcomeFrom(before: EngineState, stored: View, after: EngineState, recovered: bool,
                              data: DownloadData, answer: Option<Option<PayloadStatus>>)
  {
    && stored == Downloaded(before.view, before.setting.limit, recovered, data)
    && InsertedFrom(before.setting, stored, after.view, before.asked, after.asked, recovered, TicketOf(data).hash,
                    answer)
    && after.inbox == before.inbox && after.setting.target == before.setting.target
    && ParkedAnswered(before, after, TicketOf(data).hash, answer)
  }

  /** A finished download is put into the tree, and the parked payload is answered if it became complete. */
  ghost predicate OutcomeHandled(before: EngineState, after: EngineState, recovered: bool, data: DownloadData,
                                 answer: Option<Option<PayloadStatus>>)
  {
    exists stored :: OutcomeFrom(before, stored, after, recovered, data, answer)
  }

  lemma OutcomeDone(before: EngineState, stored: View, mid: EngineState, after: EngineState, recovered: bool,
                    data: DownloadData, answer: Option<Option<PayloadStatus>>)
    requires stored == Downloaded(before.view, before.setting.limit, recovered, data)
    requires InsertedFrom(before.setting, stored, mid.view, before.asked, mid.asked, recovered, TicketOf(data).hash,
                          answer)
    requires mid.setting.target == before.setting.target && mid.inbox == before.inbox
    requires mid.parked == before.parked && mid.responses == before.responses
    requires after == mid.(parked := after.parked, responses := after.responses)
    requires ParkedAnswered(mid, after, TicketOf(data).hash, answer)
    ensures OutcomeHandled(before, after, recovered, data, answer)
  {
    assert OutcomeFrom(before, stored, after, recovered, data, answer);
  }

  /** A parked payload whose time is up is answered syncing. */
  ghost function TimeUp(s: EngineState): EngineState {
    if s.parked.None? then s
    else s.(parked := None,
            responses := s.responses + [Response(s.parked.value.id, PayloadAnswer(Some(Syncing)))])
  }

  /** When the parked payload's time is up, the next message is handled. */
  ghost predicate QueueStep(before: EngineState, up: EngineState, after: EngineState, timedOut: bool, round: Round) {
    if before.parked.Some? && !timedOut then round == Pending && after == before
    else
      && up == TimeUp(before)
      && if up.inbox == [] then round == Pending && after == up else round == Again && Replied(up, after)
  }

  /** Without a download: a parked payload waits for its time to be up, and then the next message is handled. */
  ghost predicate QueueHandled(before: EngineState, after: EngineState, timedOut: bool, round: Round) {
    exists up :: QueueStep(before, up, after, timedOut, round)
  }

  /** The next response after the earlier ones tells the parked payload that the block is still syncing. */
  ghost predicate TimedOut(payload: Parked, earlier: seq<Response>, later: seq<Response>) {
    |earlier| < |later| && later[|earlier|] == Response(payload.id, PayloadAnswer(Some(Syncing)))
  }

  predicate IsRecovered(recovers: Header -> bool, data: DownloadData) {
    data.ProofOf? || recovers(data.block)
  }

  /** The download that was handed out is handled; it is fatal if a finalized block's senders cannot be recovered. */
  ghost predicate DownloadRound(before: EngineState, after: EngineState, data: DownloadData, recovered: bool,
                                round: Round)
  {
    exists answer ::
      && OutcomeHandled(before.(asked := before.asked - multiset{TicketOf(data)}), after, recovered, data, answer)
      && round == if data.FinalizedBlock? && !recovered then Fatal else Again
  }

  /** What one round does: it handles the download that is handed out, if there is one, and else the queue. */
  ghost predicate RoundDone(before: EngineState, after: EngineState, data: Option<DownloadData>,
                            recovers: Header -> bool, timedOut: bool, round: Round)
  {
    if data.Some? then DownloadRound(before, after, data.value, IsRecovered(recovers, data.value), round)
    else QueueHandled(before, after, timedOut, round)
  }

  /** The senders of some block cannot be recovered. */
  ghost predicate SomeLost(recovers: Header -> bool) {
    exists block :: !recovers(block)
  }

  /** What follows for the messages and the responses. */
  lemma RoundMeans(before: EngineState, after: EngineState, data: Option<DownloadData>, recovers: Header -> bool,
                   timedOut: bool, round: Round)
    requires RoundDone(before, after, data, recovers, timedOut, round)
    ensures before.responses <= after.responses
    ensures before.parked.Some? && data.None? ==>
      after.responses == before.responses || TimedOut(before.parked.value, before.responses, after.responses)
    ensures after.inbox == before.inbox || (before.inbox != [] && after.inbox == before.inbox[1..])
    ensures data.None? && round == Again ==> before.inbox != [] && after.inbox == before.inbox[1..]
    ensures data.Some? ==> after.inbox == before.inbox
    ensures round == Pending ==> data.None? && (after.parked.Some? || after.inbox == [])
    ensures round == Fatal ==>
      && after.responses == before.responses && after.parked == before.parked && after.inbox == before.inbox
      && SomeLost(recovers)
  {
    if data.Some? {
      DownloadMeans(before, after, data.value, recovers, round);
    } else {
      QueueMeans(before, after, timedOut, round);
    }
  }

  lemma DownloadMeans(before: EngineState, after: EngineState, data: DownloadData, recovers: Header -> bool,
                      round: Round)
    requires DownloadRound(before, after, data, IsRecovered(recovers, data), round)
    ensures before.responses <= after.responses && after.inbox == before.inbox && round != Pending
    ensures round == Fatal ==>
      after.responses == before.responses && after.parked == before.parked && !recovers(data.block)
  {
    var answer :|
      && OutcomeHandled(before.(asked := before.asked - multiset{TicketOf(data)}), after, IsRecovered(recovers, data),
                        data, answer)
      && round == if data.FinalizedBlock? && !IsRecovered(recovers, data) then Fatal else Again;
  }

  lemma QueueMeans(before: EngineState, after: EngineState, timedOut: bool, round: Round)
    requires QueueHandled(before, after, timedOut, round)
    ensures before.responses <= after.responses && round != Fatal
    ensures before.parked.Some? ==>
      after.responses == before.responses || TimedOut(before.parked.value, before.responses, after.responses)
    ensures
      if round == Again then before.inbox != [] && after.inbox == before.inbox[1..]
      else after.inbox == before.inbox
    ensures round == Pending ==> after.parked.Some? || after.inbox == []
  {
    var up :| QueueStep(before, up, after, timedOut, round);
    if round == Again {
      var reply :| ReplySent(up, after, reply);
    }
  }

  /** The requests in flight, and the outcomes queued. */
  datatype Flight = Flight(
    finalized: seq<Request>, fullBlocks: seq<Request>, proofs: seq<Request>, outcomes: seq<DownloadData>)

  /** The download handed out next: the first queued outcome, or else the first one that a scan resolves. */
  ghost function NextOf(f: Flight, ready: Readiness): Option<DownloadData> {
    var queue := if f.outcomes != [] then f.outcomes
                 else AllResolved(ready, f.finalized, f.fullBlocks, f.proofs);
    if queue == [] then None else Some(queue[0])
  }

  /** One round that was played: from a state with these downloads in flight to another, in this turn. */
  datatype PlayedRound = PlayedRound(before: EngineState, flight: Flight, turn: Turn, round: Round, after: EngineState)

  /** The turn's messages arrive, and then one round is done with what the network is ready with. */
  ghost predicate RoundFrom(recovers: Header -> bool, p: PlayedRound, received: EngineState) {
    && p.before.asked == Downloads.Asked(p.flight.finalized, p.flight.fullBlocks, p.flight.proofs, p.flight.outcomes)
    && received == p.before.(inbox := p.before.inbox + p.turn.arrivals)
    && RoundDone(received, p.after, NextOf(p.flight, p.turn.ready), recovers, p.turn.timedOut, p.round)
  }

  ghost predicate RoundOk(recovers: Header -> bool, p: PlayedRound) {
    exists received :: RoundFrom(recovers, p, received)
  }

  /** One round was played with each turn of the script, and then some with quiet ones. */
  ghost predicate AllPlayed(recovers: Header -> bool, script: seq<Turn>, rounds: seq<PlayedRound>) {
    forall i | 0 <= i < |rounds| :: RoundOk(recovers, rounds[i]) && rounds[i].turn == TurnAt(script, i)
  }

  /** The rounds follow each other, and all but the last go on. */
  ghost predicate InARow(rounds: seq<PlayedRound>, before: EngineState, after: EngineState) {
    && (forall i | 0 <= i < |rounds| - 1 :: rounds[i].round == Again && rounds[i].after == rounds[i + 1].before)
    && if rounds == [] then after == before else rounds[0].before == before && rounds[|rounds| - 1].after == after
  }

  lemma PlayedMore(recovers: Header -> bool, script: seq<Turn>, rounds: seq<PlayedRound>, p: PlayedRound)
    requires AllPlayed(recovers, script, rounds)
    requires RoundOk(recovers, p) && p.turn == TurnAt(script, |rounds|)
    ensures AllPlayed(recovers, script, rounds + [p])
  {
  }

  ghost predicate EndsWith(rounds: seq<PlayedRound>, round: Round) {
    rounds != [] && rounds[|rounds| - 1].round == round
  }

  /** The last round goes on, if there is one. */
  ghost predicate GoesOn(rounds: seq<PlayedRound>) {
    rounds == [] || EndsWith(rounds, Again)
  }

  lemma InARowMore(rounds: seq<PlayedRound>, before: EngineState, p: PlayedRound)
    requires InARow(rounds, before, p.before) && GoesOn(rounds)
    ensures InARow(rounds + [p], before, p.after)
  {
    var more := rounds + [p];
    forall i | 0 <= i < |more| - 1
      ensures more[i].round == Again && more[i].after == more[i + 1].before
    {
      assert more[i] == rounds[i];
    }
  }

  /** How much of the script is left after the rounds. */
  ghost predicate Left(script: seq<Turn>, rest: seq<Turn>, rounds: seq<PlayedRound>) {
    rest == if |rounds| < |script| then script[|rounds|..] else []
  }

  lemma LeftMore(script: seq<Turn>, rest: seq<Turn>, rounds: seq<PlayedRound>, p: PlayedRound)
    requires Left(script, rest, rounds)
    ensures TurnAt(rest, 0) == TurnAt(script, |rounds|)
    ensures Left(script, Later(rest), rounds + [p])
  {
  }

  lemma PlayedOk(recovers: Header -> bool, before: EngineState, flight: Flight, turn: Turn, received: EngineState,
                 round: Round, after: EngineState)
    requires before.asked == Downloads.Asked(flight.finalized, flight.fullBlocks, flight.proofs, flight.outcomes)
    requires received == before.(inbox := before.inbox + turn.arrivals)
    requires RoundDone(received, after, NextOf(flight, turn.ready), recovers, turn.timedOut, round)
    ensures RoundOk(recovers, PlayedRound(before, flight, turn, round, after))
  {
    assert RoundFrom(recovers, PlayedRound(before, flight, turn, round, after), received);
  }

  /** The script is played up to the rest, in n rounds that led from the start to this state. */
  ghost predicate PlayedIn(w: World, recovers: Header -> bool, script: seq<Turn>, rest: seq<Turn>,
                           rounds: seq<PlayedRound>, start: EngineState, now: EngineState, earlier: seq<nat>,
                           arrived: seq<nat>, n: nat)
  {
    && n == |rounds| && RealTurns(w, rest) && Played(script, rest, earlier, arrived) && Left(script, rest, rounds)
    && AllPlayed(recovers, script, rounds) && InARow(rounds, start, now)
  }

  ghost predicate PlayedTo(w: World, recovers: Header -> bool, script: seq<Turn>, rest: seq<Turn>,
                           rounds: seq<PlayedRound>, start: EngineState, now: EngineState, earlier: seq<nat>,
                           arrived: seq<nat>)
  {
    exists n: nat :: PlayedIn(w, recovers, script, rest, rounds, start, now, earlier, arrived, n)
  }

  lemma PlayedNone(w: World, recovers: Header -> bool, script: seq<Turn>, start: EngineState, arrived: seq<nat>)
    requires RealTurns(w, script)
    ensures PlayedTo(w, recovers, script, script, [], start, start, arrived, arrived)
  {
    NonePlayed(script, arrived);
    assert PlayedIn(w, recovers, script, script, [], start, start, arrived, arrived, 0);
  }

  lemma PlayedOneMore(w: World, recovers: Header -> bool, script: seq<Turn>, rest: seq<Turn>,
                      rounds: seq<PlayedRound>, start: EngineState, earlier: seq<nat>, arrived: seq<nat>,
                      p: PlayedRound)
    requires PlayedTo(w, recovers, script, rest, rounds, start, p.before, earlier, arrived) && GoesOn(rounds)
    requires RoundOk(recovers, p) && p.turn == TurnAt(rest, 0)
    ensures PlayedTo(w, recovers, script, Later(rest), rounds + [p], start, p.after, earlier,
                     arrived + MessageIds(p.turn.arrivals))
  {
    OneMorePlayed(w, script, rest, earlier, arrived);
    LeftMore(script, rest, rounds, p);
    PlayedMore(recovers, script, rounds, p);
    InARowMore(rounds, start, p);
    assert PlayedIn(w, recovers, script, Later(rest), rounds + [p], start, p.after, earlier,
                    arrived + MessageIds(p.turn.arrivals), |rounds| + 1);
  }

  lemma PlayedMeans(w: World, recovers: Header -> bool, script: seq<Turn>, rest: seq<Turn>,
                    rounds: seq<PlayedRound>, start: EngineState, now: EngineState, earlier: seq<nat>,
                    arrived: seq<nat>)
    requires PlayedTo(w, recovers, script, rest, rounds, start, now, earlier, arrived)
    ensures RealTurn(w, TurnAt(rest, 0)) && Played(script, rest, earlier, arrived) && Left(script, rest, rounds)
    ensures AllPlayed(recovers, script, rounds) && InARow(rounds, start, now)
  {
    OneMorePlayed(w, script, rest, earlier, arrived);
  }

  /** What a download leaves in the tree before any block is inserted. */
  ghost function Downloaded(v: View, limit: nat, recovered: bool, data: DownloadData): View {
    match data
    case FullBlock(block) => if recovered then WithBuffered(v, limit, block, None) else v
    case ProofOf(h, proof) => v.(buffer := WithProof(v.buffer, h, Some(proof)))
    case FinalizedBlock(block, ancestors) =>
      if recovered then v.(ledger := Jumped(v.ledger, block, ancestors)) else v
  }

  /** Both the block and its proof are buffered. */
  ghost predicate IsComplete(c: Contents, h: Hash) {
    h in c.blocks && h in c.proofs
  }

  /** Without a block that is taken out together with its proof. */
  ghost function TakenOut(v: View, h: Hash): View {
    v.(buffer := Drop(v.buffer, {h}))
  }

  /** A block is inserted if it is complete, and otherwise nothing happens. */
  ghost predicate UnlockProcessed(s: Setting, before: View, after: View, asked: multiset<Ticket>,
                                  asked': multiset<Ticket>, h: Hash, answer: Option<Option<PayloadStatus>>)
  {
    if IsComplete(before.buffer, h) then
      && answer.Some?
      && DownloadProcessed(s, TakenOut(before, h), after, asked, asked', before.buffer.blocks[h],
                           before.buffer.proofs[h], answer.value)
    else answer.None? && after == before && asked' == asked
  }

  /** What is asked for when a block that was not buffered is buffered now and not stored. */
  lemma OrphanAsks(s: Setting, before: View, after: View, asked: multiset<Ticket>, asked': multiset<Ticket>,
                   block: Header, proof: Proof, status: Option<PayloadStatus>)
    requires DownloadProcessed(s, before, after, asked, asked', block, proof, status)
    requires block.hash !in before.buffer.blocks
    requires block.hash in after.buffer.blocks && block.hash !in after.ledger.blocks
    ensures block.parent !in before.ledger.blocks && status == Some(Syncing)
    ensures after == WithBuffered(before, s.limit, block, Some(proof))
    ensures exists a: Hash :: EndsAt(before.buffer.blocks, block.parent, a) && Ticket(FullBlockKind, a) in asked'
  {
    var outcome, mid :|
      DownloadStep(s, before, mid, after, asked, asked', block, proof, outcome) && status == StatusOf(outcome);
    FollowedKeeps(EventOf(outcome), mid, after);
    OrphanedOnly(s, before, mid, block, proof, outcome);
    AncestorWanted(before.buffer.blocks, block.parent, outcome, mid.buffer.proofs, asked, asked');
  }

  lemma AncestorWanted(buffered: Blocks, parent: Hash, outcome: Option<PayloadOutcome>, proofs: map<Hash, Proof>,
                       asked: multiset<Ticket>, asked': multiset<Ticket>)
    requires AsksForAncestor(buffered, parent, outcome) && Added(asked, asked', Wants(EventOf(outcome), proofs))
    ensures exists a: Hash :: EndsAt(buffered, parent, a) && Ticket(FullBlockKind, a) in asked'
  {
    var a := outcome.value.event.value.hash;
    assert EventOf(outcome) == Some(DownloadBlock(a));
    AddedHas(asked, asked', Wants(EventOf(outcome), proofs), Ticket(FullBlockKind, a));
  }

  /** The hash where the buffered ancestors of a block end is not buffered after the block is. */
  lemma EndsBelow(w: World, c: Contents, limit: nat, block: Header, proof: Proof, a: Hash)
    requires Proper(w) && Known(w, c.blocks) && block.hash in w.headers && w.headers[block.hash] == block
    requires EndsAt(c.blocks, block.parent, a)
    ensures Reaches(w.headers, block.hash, a)
    ensures a !in WithBlock(WithProof(c, block.hash, Some(proof)), limit, block).blocks
  {
    var k: nat :| Walk(c.blocks, block.parent, k) == Some(a);
    WalkRank(w, c.blocks, block.parent, k);
    ReachesMonotone(c.blocks, w.headers, block.parent, a);
    ReachesParent(w.headers, block.hash);
    ReachesTrans(w.headers, block.hash, block.parent, a);
  }

  lemma FollowedKeeps(event: Option<TreeEvent>, before: View, after: View)
    requires EventFollowed(event, before, after)
    ensures after.ledger.blocks == before.ledger.blocks && after.buffer == before.buffer
  {
  }

  lemma OrphanedOnly(s: Setting, before: View, mid: View, block: Header, proof: Proof, outcome: Option<PayloadOutcome>)
    requires BlockGiven(s, false, before, mid, block, Some(proof), outcome)
    requires block.hash !in before.buffer.blocks
    requires block.hash in mid.buffer.blocks && block.hash !in mid.ledger.blocks
    ensures FateOf(s.rules, before.ledger.blocks, block, Some(proof)).Orphaned? && !Refused(outcome)
    ensures AsksForAncestor(before.buffer.blocks, block.parent, outcome)
    ensures mid == WithBuffered(before, s.limit, block, Some(proof))
  {
    if !Refused(outcome) {
      HandledGrows(s.w, s.rules, s.target, s.limit, false, before, mid, block, Some(proof), outcome);
    }
  }

  /** A target that is new, and inserted without a fault, becomes the head if it can. */
  lemma NewTargetAdvances(s: Setting, before: View, after: View, asked: multiset<Ticket>, asked': multiset<Ticket>,
                          block: Header, proof: Proof, status: Option<PayloadStatus>)
    requires DownloadProcessed(s, before, after, asked, asked', block, proof, status)
    requires s.target == Some(block.hash) && status.Some?
    requires block.hash !in before.ledger.blocks && block.hash in after.ledger.blocks
    requires CanAdvance(after.ledger.blocks, before.ledger.head.hash, block.hash)
    ensures after.ledger.head.hash == block.hash
  {
    var outcome, mid :|
      DownloadStep(s, before, mid, after, asked, asked', block, proof, outcome) && status == StatusOf(outcome);
    FollowedKeeps(EventOf(outcome), mid, after);
    PassingOnly(s, before, mid, block, proof, outcome);
    assert EventOf(outcome) == Some(CanonicalizeTarget(block.hash));
    var u :| IsUpdate(mid.ledger.blocks, mid.ledger.head.hash, block.hash, u) && after.ledger == Updated(mid.ledger, u);
    assert after.ledger.head == NumHashOf(u.Tip()) && u.Tip().hash == block.hash;
  }

  lemma PassingOnly(s: Setting, before: View, mid: View, block: Header, proof: Proof, outcome: Option<PayloadOutcome>)
    requires BlockGiven(s, false, before, mid, block, Some(proof), outcome) && outcome.Some?
    requires block.hash !in before.ledger.blocks && block.hash in mid.ledger.blocks
    ensures FateOf(s.rules, before.ledger.blocks, block, Some(proof)).Passing?
    ensures outcome == StoredAnswer(s.target, block.hash)
    ensures s.target == Some(block.hash) ==> mid.ledger.head == before.ledger.head
  {
    if FateOf(s.rules, before.ledger.blocks, block, Some(proof)).Passing? {
      var stored := AsStored(s.rules, before, block, Some(proof));
      StoredHandled(s.w, s.rules, s.target, s.limit, false, before, mid, block, Some(proof), outcome);
      if s.target == Some(block.hash) {
        FamilyKeepsHead(s.w, s.rules, s.target, block.hash, stored, mid);
      }
    }
  }

  /** Inserting a stored block again changes nothing. */
  lemma SeenStays(s: Setting, before: View, after: View, asked: multiset<Ticket>, asked': multiset<Ticket>,
                  block: Header, proof: Proof, status: Option<PayloadStatus>)
    requires DownloadProcessed(s, before, after, asked, asked', block, proof, status)
    requires block.hash in before.ledger.blocks
    ensures after == before
  {
    var outcome, mid :|
      DownloadStep(s, before, mid, after, asked, asked', block, proof, outcome) && status == StatusOf(outcome);
    assert mid == before && EventOf(outcome).None?;
  }

  class ConsensusEngine {
    const tree: EngineTree
    const downloader: EngineDownloader
    /** Whether the senders of a block's transactions can be recovered. */
    const recovers: Header -> bool
    var parked: Option<Parked>
    var inbox: seq<Message>
    var responses: seq<Response>
    /** The numbers of all messages that arrived. */
    ghost var arrived: seq<nat>

    ghost predicate Accounted()
      reads this`arrived, this`responses, this`parked, this`inbox
    {
      Accounts(arrived, responses, parked, inbox)
    }

    ghost predicate Downloading()
      reads downloader
    {
      downloader.Valid() && AllGenuine(tree.world, downloader.outcomes)
    }

    ghost predicate Valid()
      reads this, tree, tree.state, tree.buffer, tree.invalidHeaders, downloader
    {
      tree.Valid() && Downloading() && Accounted()
    }

    constructor (tree: EngineTree, recovers: Header -> bool)
      requires tree.Valid()
      ensures Valid() && fresh(downloader) && this.tree == tree && responses == [] && arrived == []
      ensures this.recovers == recovers && inbox == [] && parked == None && downloader.Unanswered() == multiset{}
    {
      this.tree, this.recovers := tree, recovers;
      downloader := new EngineDownloader();
      parked, inbox, responses, arrived := None, [], [], [];
    }

    /** A message from the consensus client arrives. */
    method Receive(message: Message)
      requires Valid()
      modifies this`inbox, this`arrived
      ensures Valid() && arrived == old(arrived) + [message.id] && inbox == old(inbox) + [message]
    {
      MoreArrive(arrived, responses, parked, inbox, [message]);
      inbox := inbox + [message];
      arrived := arrived + [message.id];
    }

    /** What the tree answers by. */
    ghost function Settings(): Setting
      reads tree`syncTarget, tree.invalidHeaders
    {
      Setting(tree.world, tree.rules, tree.syncTarget, tree.buffer.limit,
              tree.invalidHeaders.forgetful, tree.invalidHeaders.entries)
    }

    ghost function State(): EngineState
      reads this`parked, this`inbox, this`responses, tree`ledger, tree`rejected, tree`syncTarget
      reads tree.buffer, tree.invalidHeaders, downloader
    {
      EngineState(Settings(), tree.Now(), downloader.Unanswered(), parked, inbox, responses)
    }

    /** Asks for a block, and for its proof unless that is there. */
    method RequestBlock(hash: Hash, hasProof: bool)
      requires Downloading()
      modifies downloader
      ensures Downloading() && downloader.outcomes == old(downloader.outcomes)
      ensures Added(old(downloader.Unanswered()), downloader.Unanswered(), BlockWants(hash, hasProof))
    {
      ghost var before := downloader.Unanswered();
      downloader.DownloadFullBlock(hash);
      if hasProof {
        return;
      }
      ghost var mid := downloader.Unanswered();
      downloader.DownloadProof(hash);
      AddedBoth(before, mid, downloader.Unanswered(), {Ticket(FullBlockKind, hash)}, {Ticket(ProofKind, hash)});
    }

    /** The downloads that the event asks for are on their way. */
    ghost predicate Asked(event: TreeEvent)
      reads tree.buffer, downloader
    {
      forall t | t in Wants(Some(event), tree.buffer.proofs) :: t in downloader.Unanswered()
    }

    /** The downloads asked for are on their way, or the target is canonical if that is possible. */
    ghost predicate Done(event: TreeEvent, head: Hash)
      reads tree`ledger, tree.buffer, downloader
    {
      && Asked(event)
      && (event.CanonicalizeTarget? && CanAdvance(tree.ledger.blocks, head, event.target) ==>
            tree.ledger.head.hash == event.target)
    }

    /** Starts a download that the tree asks for. */
    method StartDownload(event: TreeEvent)
      requires tree.Valid() && Downloading() && !event.CanonicalizeTarget?
      modifies downloader
      ensures tree.Valid() && Downloading() && downloader.outcomes == old(downloader.outcomes)
      ensures Added(old(downloader.Unanswered()), downloader.Unanswered(), Wants(Some(event), tree.buffer.proofs))
    {
      WantsOf(event, tree.buffer.proofs);
      match event
      case DownloadBlock(hash) => RequestBlock(hash, hash in tree.buffer.proofs);
      case DownloadProof(hash) => RequestProof(hash);
      case DownloadFinalized(hash) => downloader.DownloadFinalizedWithAncestors(hash);
    }

    /** Makes the target canonical, if an update leads to it. */
    method Canonicalize(target: Hash)
      requires tree.Valid() && Downloading()
      modifies tree`canonicalHead, tree`events, tree`ledger, tree.state
      ensures tree.Valid() && Downloading() && tree.syncTarget == old(tree.syncTarget)
      ensures EventFollowed(Some(CanonicalizeTarget(target)), old(tree.Now()), tree.Now())
      ensures Added(old(downloader.Unanswered()), downloader.Unanswered(), {})
      ensures tree.ledger.blocks == old(tree.ledger.blocks)
      ensures CanAdvance(tree.ledger.blocks, old(tree.ledger.head.hash), target) ==> tree.ledger.head.hash == target
    {
      ghost var before := tree.Now();
      tree.MakeCanonical(target);
      TargetSought(before, tree.Now(), target);
      AddedNone(downloader.Unanswered());
    }

    method OnTreeEvent(event: TreeEvent)
      requires tree.Valid() && Downloading()
      modifies tree`canonicalHead, tree`events, tree`ledger, tree.state, downloader
      ensures tree.Valid() && Downloading() && downloader.outcomes == old(downloader.outcomes)
      ensures tree.syncTarget == old(tree.syncTarget)
      ensures EventFollowed(Some(event), old(tree.Now()), tree.Now())
      ensures Added(old(downloader.Unanswered()), downloader.Unanswered(), Wants(Some(event), tree.buffer.proofs))
      ensures tree.ledger.blocks == old(tree.ledger.blocks)
      ensures !event.CanonicalizeTarget? ==> tree.ledger == old(tree.ledger)
      ensures Done(event, old(tree.ledger.head.hash))
    {
      match event
      case CanonicalizeTarget(target) => Canonicalize(target);
      case _ => StartDownload(event);
    }

    method OnMaybeTreeEvent(event: Option<TreeEvent>)
      requires tree.Valid() && Downloading()
      modifies tree`canonicalHead, tree`events, tree`ledger, tree.state, downloader
      ensures tree.Valid() && Downloading() && downloader.outcomes == old(downloader.outcomes)
      ensures tree.syncTarget == old(tree.syncTarget)
      ensures EventFollowed(event, old(tree.Now()), tree.Now())
      ensures Added(old(downloader.Unanswered()), downloader.Unanswered(), Wants(event, tree.buffer.proofs))
      ensures tree.ledger.blocks == old(tree.ledger.blocks)
      ensures !(event.Some? && event.value.CanonicalizeTarget?) ==> tree.ledger == old(tree.ledger)
      ensures event.Some? ==> Done(event.value, old(tree.ledger.head.hash))
    {
      if event.Some? {
        OnTreeEvent(event.value);
      } else {
        AddedNone(downloader.Unanswered());
      }
    }

    /** Both the block and its proof are buffered. */
    ghost predicate Complete(hash: Hash)
      reads tree.buffer
    {
      hash in tree.buffer.blocks && hash in tree.buffer.proofs
    }

    /** With this download both the block and its proof are buffered. */
    ghost predicate Completes(data: DownloadData)
      reads tree.buffer
    {
      match data
      case FullBlock(block) => recovers(block) && block.hash in tree.buffer.proofs
      case ProofOf(hash, _) => hash in tree.buffer.blocks
      case FinalizedBlock(block, _) => recovers(block) && Complete(block.hash)
    }

    /** Puts what was downloaded into the tree; the hash to try to insert, or whether the failure is fatal. */
    method StoreDownload(data: DownloadData) returns (unlocked: Option<Hash>, fatal: bool)
      requires tree.Valid() && Genuine(tree.world, data)
      modifies tree`canonicalHead, tree`events, tree`ledger, tree.state, tree.buffer
      ensures tree.Valid()
      ensures fatal <==> data.FinalizedBlock? && !recovers(data.block)
      ensures unlocked.Some? <==> data.ProofOf? || recovers(data.block)
      ensures unlocked.Some? ==> unlocked.value == TicketOf(data).hash
      ensures data.FinalizedBlock? && recovers(data.block) ==>
        tree.ledger == Jumped(old(tree.ledger), data.block, data.ancestors)
      ensures !data.FinalizedBlock? ==> tree.ledger == old(tree.ledger)
      ensures unlocked.Some? ==> (Complete(unlocked.value) <==> old(Completes(data)))
      ensures tree.Now() == AfterDownload(old(tree.Now()), data)
      ensures data.FullBlock? && recovers(data.block) ==> data.block.hash in tree.buffer.blocks
      ensures data.ProofOf? ==> tree.buffer.proofs == old(tree.buffer.proofs)[data.hash := data.proof]
    {
      match data
      case FinalizedBlock(block, ancestors) =>
        if !recovers(block) {
          return None, true;
        }
        tree.AcceptCheckpoint(block, ancestors);
        return Some(block.hash), false;
      case FullBlock(block) =>
        if !recovers(block) {
          return None, false;
        }
        tree.BufferDownloaded(block);
        return Some(block.hash), false;
      case ProofOf(hash, proof) =>
        tree.BufferProof(hash, proof);
        return Some(hash), false;
    }

    /** What the answer says about the block holds, or some verification faulted. */
    ghost predicate GoodAnswer(block: Header, status: Option<PayloadStatus>)
      reads tree`ledger, tree`rejected, tree.buffer
    {
      if status.Some? then tree.Justified(block, status.value) else CanFault(tree.rules)
    }

    /** Inserts a complete downloaded block, and does what the tree asks for; None for a fatal error. */
    method InsertDownloaded(block: Header, proof: Proof) returns (status: Option<PayloadStatus>)
      requires tree.Valid() && Downloading()
      requires block.hash in tree.world.headers && tree.world.headers[block.hash] == block
      modifies tree, tree.state, tree.buffer, tree.invalidHeaders, downloader
      ensures tree.Valid() && Downloading() && downloader.outcomes == old(downloader.outcomes)
      ensures tree.syncTarget == old(tree.syncTarget)
      ensures DownloadProcessed(old(Settings()), old(tree.Now()), tree.Now(), old(downloader.Unanswered()),
                                downloader.Unanswered(), block, proof, status)
      ensures GoodAnswer(block, status)
    {
      ghost var settings, before, asked := Settings(), tree.Now(), downloader.Unanswered();
      var outcome := tree.OnDownloadedBlock(block, proof);
      ghost var mid := tree.Now();
      assert BlockGiven(settings, false, before, mid, block, Some(proof), outcome);
      OnMaybeTreeEvent(EventOf(outcome));
      DownloadDone(settings, before, mid, tree.Now(), asked, downloader.Unanswered(), block, proof, outcome);
      status := StatusOf(outcome);
    }

    /**
     * Inserts a buffered block that has become complete; the answer for it, if there was one. If the block is
     * buffered again for want of its parent, an ancestor that is not buffered is asked for; if it is the sync
     * target and stored without a fault, it is the head if it can be.
     */
    method InsertUnlocked(hash: Hash) returns (answer: Option<Option<PayloadStatus>>)
      requires tree.Valid() && Downloading()
      modifies tree, tree.state, tree.buffer, tree.invalidHeaders, downloader
      ensures tree.Valid() && Downloading() && downloader.outcomes == old(downloader.outcomes)
      ensures tree.syncTarget == old(tree.syncTarget)
      ensures UnlockProcessed(old(Settings()), old(tree.Now()), tree.Now(), old(downloader.Unanswered()),
                              downloader.Unanswered(), hash, answer)
      ensures answer.Some? <==> old(Complete(hash))
      ensures answer.Some? ==> hash in tree.world.headers && GoodAnswer(tree.world.headers[hash], answer.value)
      ensures answer.Some? && Waiting(hash) ==> answer.value == Some(Syncing) && MissingAsked(hash)
      ensures Advanced(old(tree.Now()), hash, answer)
      ensures hash in old(tree.ledger.blocks) ==> tree.ledger == old(tree.ledger)
    {
      ghost var settings, before, asked := Settings(), tree.Now(), downloader.Unanswered();
      var buffered := tree.TakeBuffered(hash);
      if buffered.None? {
        return None;
      }
      var block, proof := buffered.value.block, buffered.value.proof;
      var status := InsertDownloaded(block, proof);
      if hash in tree.buffer.blocks && hash !in tree.ledger.blocks {
        OrphanAsked(settings, TakenOut(before, hash), asked, block, proof, status);
      }
      UnlockAdvances(settings, before, asked, block, proof, status);
      if hash in before.ledger.blocks {
        SeenStays(settings, TakenOut(before, hash), tree.Now(), asked, downloader.Unanswered(), block, proof, status);
      }
      return Some(status);
    }

    /** A block that is the sync target and was inserted without a fault is the head if it is new and can be. */
    ghost predicate Advanced(before: View, hash: Hash, answer: Option<Option<PayloadStatus>>)
      reads tree`ledger, tree`syncTarget
    {
      (&& answer.Some? && answer.value.Some? && tree.syncTarget == Some(hash)
       && hash !in before.ledger.blocks && hash in tree.ledger.blocks
       && CanAdvance(tree.ledger.blocks, before.ledger.head.hash, hash)) ==> tree.ledger.head.hash == hash
    }

    lemma UnlockAdvances(s: Setting, before: View, asked: multiset<Ticket>, block: Header, proof: Proof,
                         status: Option<PayloadStatus>)
      requires DownloadProcessed(s, TakenOut(before, block.hash), tree.Now(), asked, downloader.Unanswered(), block,
                                 proof, status)
      requires s.target == tree.syncTarget
      ensures Advanced(before, block.hash, Some(status))
    {
      if && status.Some? && s.target == Some(block.hash)
         && block.hash !in before.ledger.blocks && block.hash in tree.ledger.blocks
         && CanAdvance(tree.ledger.blocks, before.ledger.head.hash, block.hash) {
        NewTargetAdvances(s, TakenOut(before, block.hash), tree.Now(), asked, downloader.Unanswered(), block, proof,
                          status);
      }
    }

    lemma OrphanAsked(s: Setting, before: View, asked: multiset<Ticket>, block: Header, proof: Proof,
                      status: Option<PayloadStatus>)
      requires DownloadProcessed(s, before, tree.Now(), asked, downloader.Unanswered(), block, proof, status)
      requires Proper(tree.world) && Known(tree.world, before.buffer.blocks)
      requires block.hash in tree.world.headers && tree.world.headers[block.hash] == block
      requires block.hash !in before.buffer.blocks
      requires block.hash in tree.buffer.blocks && block.hash !in tree.ledger.blocks
      ensures status == Some(Syncing) && MissingAsked(block.hash)
    {
      OrphanAsks(s, before, tree.Now(), asked, downloader.Unanswered(), block, proof, status);
      var a: Hash :|
        EndsAt(before.buffer.blocks, block.parent, a) && Ticket(FullBlockKind, a) in downloader.Unanswered();
      EndsBelow(tree.world, before.buffer, s.limit, block, proof, a);
    }

    /** The block is buffered and not stored. */
    ghost predicate Waiting(hash: Hash)
      reads tree`ledger, tree.buffer
    {
      hash in tree.buffer.blocks && hash !in tree.ledger.blocks
    }

    /** An ancestor-or-self of the hash that is not buffered is asked for. */
    ghost predicate MissingAsked(hash: Hash)
      reads tree.buffer, downloader
    {
      exists a: Hash ::
        && Reaches(tree.world.headers, hash, a) && a !in tree.buffer.blocks
        && Ticket(FullBlockKind, a) in downloader.Unanswered()
    }

    /** The senders of a downloaded block can be recovered. */
    predicate Recovered(data: DownloadData) {
      IsRecovered(recovers, data)
    }

    /** What a download leaves in the tree before any block is inserted. */
    ghost function AfterDownload(before: View, data: DownloadData): View {
      Downloaded(before, tree.buffer.limit, Recovered(data), data)
    }

    /** Puts a finished download into the tree, and inserts the block that became complete, if one did. */
    method InsertDownload(data: DownloadData) returns (fatal: bool, answer: Option<Option<PayloadStatus>>)
      requires tree.Valid() && Downloading() && Genuine(tree.world, data)
      modifies tree, tree.state, tree.buffer, tree.invalidHeaders, downloader
      ensures tree.Valid() && Downloading() && downloader.outcomes == old(downloader.outcomes)
      ensures tree.syncTarget == old(tree.syncTarget)
      ensures fatal <==> data.FinalizedBlock? && !recovers(data.block)
      ensures answer.Some? <==> old(Completes(data))
      ensures InsertedFrom(old(Settings()), AfterDownload(old(tree.Now()), data), tree.Now(),
                           old(downloader.Unanswered()), downloader.Unanswered(), Recovered(data), TicketOf(data).hash,
                           answer)
      ensures answer.Some? ==>
        TicketOf(data).hash in tree.world.headers && GoodAnswer(tree.world.headers[TicketOf(data).hash], answer.value)
      ensures answer.Some? && Waiting(TicketOf(data).hash) ==>
        answer.value == Some(Syncing) && MissingAsked(TicketOf(data).hash)
      ensures Recovered(data) ==> Advanced(AfterDownload(old(tree.Now()), data), TicketOf(data).hash, answer)
      ensures data.FinalizedBlock? && recovers(data.block) ==> tree.canonicalHead == NumHashOf(data.block)
    {
      answer := None;
      var unlocked;
      unlocked, fatal := StoreDownload(data);
      if unlocked.Some? {
        answer := InsertUnlocked(unlocked.value);
      }
    }

    /**
     * Handles a finished download, and answers the parked payload if it is the one that became complete. A block
     * that became complete and is buffered again has an ancestor that is not buffered asked for; a sync target
     * that became complete and was stored without a fault is the head if it can be.
     */
    method OnDownloadOutcome(data: DownloadData) returns (fatal: bool, answer: Option<Option<PayloadStatus>>)
      requires Valid() && Genuine(tree.world, data)
      modifies this`parked, this`responses, tree, tree.state, tree.buffer, tree.invalidHeaders, downloader
      ensures Valid() && downloader.outcomes == old(downloader.outcomes) && tree.syncTarget == old(tree.syncTarget)
      ensures fatal <==> data.FinalizedBlock? && !recovers(data.block)
      ensures OutcomeHandled(old(State()), State(), Recovered(data), data, answer)
      ensures Recovered(data) ==> Advanced(AfterDownload(old(tree.Now()), data), TicketOf(data).hash, answer)
      ensures answer.Some? && Waiting(TicketOf(data).hash) ==>
        answer.value == Some(Syncing) && MissingAsked(TicketOf(data).hash)
      ensures answer.Some? <==> old(Completes(data))
      ensures data.FinalizedBlock? && recovers(data.block) ==> tree.canonicalHead == NumHashOf(data.block)
      ensures ParkedAnswered(old(State()), State(), TicketOf(data).hash, answer)
      ensures answer.Some? ==>
        TicketOf(data).hash in tree.world.headers && GoodAnswer(tree.world.headers[TicketOf(data).hash], answer.value)
    {
      ghost var before, stored := State(), AfterDownload(tree.Now(), data);
      fatal, answer := InsertDownload(data);
      ghost var mid := State();
      AnswerIfParked(TicketOf(data).hash, answer);
      OutcomeDone(before, stored, mid, State(), Recovered(data), data, answer);
    }

    /** Answers the parked payload, if this is the answer for it. */
    method AnswerIfParked(hash: Hash, answer: Option<Option<PayloadStatus>>)
      requires Valid()
      modifies this`parked, this`responses
      ensures Valid() && downloader.outcomes == old(downloader.outcomes)
      ensures State() == old(State()).(parked := parked, responses := responses)
      ensures ParkedAnswered(old(State()), State(), hash, answer)
    {
      if answer.Some? && parked.Some? && parked.value.hash == hash {
        AnswerParkedPayload(answer.value);
      }
    }

    /** Sends the response of the parked payload. */
    method AnswerParkedPayload(answer: Option<PayloadStatus>)
      requires Accounted() && parked.Some?
      modifies this`parked, this`responses
      ensures Accounted() && parked.None?
      ensures responses == old(responses) + [Response(old(parked).value.id, PayloadAnswer(answer))]
    {
      AnswerParked(arrived, responses, parked.value, inbox, PayloadAnswer(answer));
      responses := responses + [Response(parked.value.id, PayloadAnswer(answer))];
      parked := None;
    }

    /** An ancestor-or-self of the block is being downloaded. */
    ghost predicate AncestorAsked(hash: Hash)
      reads downloader
    {
      exists a: Hash :: Reaches(tree.world.headers, hash, a) && Ticket(FullBlockKind, a) in downloader.Unanswered()
    }

    /** The answer to a payload is justified; a malformed one is invalid. */
    ghost predicate PayloadAnswered(payload: Payload, status: Option<PayloadStatus>)
      reads tree`ledger, tree`rejected, tree.buffer
    {
      match payload
      case WellFormed(block) => GoodAnswer(block, status)
      case Malformed(_, parent, _) =>
        status.Some? && status.value.InvalidPayload? && tree.LatestJustified(parent, status.value.latestValid)
    }

    /** The answer to a fork-choice update fits the state it leads to, and the sync it starts is on its way. */
    ghost predicate ForkchoiceAnswered(fc: ForkchoiceState, attributesOk: Option<bool>, status: ForkchoiceStatus)
      reads tree`ledger, tree`canonicalHead, tree`rejected, tree`syncTarget, tree.buffer, downloader
    {
      && tree.HeadAnswered(fc, attributesOk, status)
      && (status.ValidHead? || status.InvalidAttributes? ==> tree.syncTarget == None)
      && (status.SyncingHead? ==> tree.IsSyncTargetHead(fc.head) && SyncStarted(fc))
    }

    /** Asks for a proof. */
    method RequestProof(hash: Hash)
      requires tree.Valid() && Downloading()
      modifies downloader
      ensures tree.Valid() && Downloading() && downloader.outcomes == old(downloader.outcomes)
      ensures Added(old(downloader.Unanswered()), downloader.Unanswered(), {Ticket(ProofKind, hash)})
    {
      downloader.DownloadProof(hash);
    }

    /** Does what the tree asks for after a payload; whether the payload is to be parked. */
    method FollowPayload(payload: Payload, outcome: Option<PayloadOutcome>, hasProof: bool) returns (park: bool)
      requires tree.Valid() && Downloading()
      modifies tree`canonicalHead, tree`events, tree`ledger, tree.state, downloader
      ensures tree.Valid() && Downloading() && downloader.outcomes == old(downloader.outcomes)
      ensures tree.syncTarget == old(tree.syncTarget)
      ensures EventFollowed(EventOf(outcome), old(tree.Now()), tree.Now())
      ensures Added(old(downloader.Unanswered()), downloader.Unanswered(),
                    PayloadWants(outcome, tree.buffer.proofs, payload.BlockHash(), hasProof))
      ensures tree.ledger.blocks == old(tree.ledger.blocks)
      ensures park <==> Parks(outcome)
    {
      park := false;
      ghost var asked, wanted := downloader.Unanswered(), Wants(EventOf(outcome), tree.buffer.proofs);
      PayloadWantsIs(outcome, tree.buffer.proofs, payload.BlockHash(), hasProof, wanted);
      OnMaybeTreeEvent(EventOf(outcome));
      if outcome.None? || outcome.value.event.None? {
        return;
      }
      park := outcome.value.event.value.DownloadProof? && outcome.value.status.Syncing?;
      if !park && !hasProof {
        RequestMore(payload.BlockHash(), asked, wanted);
      }
    }

    /** Asks for a proof besides what was asked for. */
    method RequestMore(hash: Hash, ghost asked: multiset<Ticket>, ghost wanted: set<Ticket>)
      requires tree.Valid() && Downloading() && Added(asked, downloader.Unanswered(), wanted)
      modifies downloader
      ensures tree.Valid() && Downloading() && downloader.outcomes == old(downloader.outcomes)
      ensures Added(asked, downloader.Unanswered(), wanted + {Ticket(ProofKind, hash)})
    {
      ghost var mid := downloader.Unanswered();
      RequestProof(hash);
      AddedBoth(asked, mid, downloader.Unanswered(), wanted, {Ticket(ProofKind, hash)});
    }

    /** What the tree asks for after a payload fits it. */
    ghost predicate EventFitsPayload(payload: Payload, outcome: Option<PayloadOutcome>)
      reads tree`syncTarget
    {
      outcome.Some? ==>
        if payload.WellFormed? then EventFits(tree.world, tree.syncTarget, payload.block, outcome.value)
        else outcome.value.event == None
    }

    /** Hands a payload and its proof to the tree. */
    method GiveToTree(payload: Payload, maybeProof: Option<Proof>) returns (outcome: Option<PayloadOutcome>)
      requires tree.Valid() && Downloading()
      requires payload.WellFormed? ==>
        payload.block.hash in tree.world.headers && tree.world.headers[payload.block.hash] == payload.block
      modifies tree, tree.state, tree.buffer, tree.invalidHeaders
      ensures tree.Valid() && Downloading() && tree.syncTarget == old(tree.syncTarget)
      ensures PayloadGiven(old(Settings()), old(tree.Now()), tree.Now(), payload, maybeProof, outcome)
      ensures PayloadAnswered(payload, StatusOf(outcome)) && EventFitsPayload(payload, outcome)
    {
      outcome := tree.OnNewPayload(payload, maybeProof);
    }

    /** Takes a payload's proof out of the buffer, and hands both to the tree. */
    method InsertPayload(payload: Payload) returns (outcome: Option<PayloadOutcome>, hasProof: bool)
      requires tree.Valid() && Downloading()
      requires payload.WellFormed? ==>
        payload.block.hash in tree.world.headers && tree.world.headers[payload.block.hash] == payload.block
      modifies tree, tree.state, tree.buffer, tree.invalidHeaders
      ensures tree.Valid() && Downloading() && tree.syncTarget == old(tree.syncTarget)
      ensures hasProof <==> payload.BlockHash() in old(tree.buffer.proofs)
      ensures PayloadGiven(old(Settings()), ProofTaken(old(tree.Now()), payload.BlockHash()), tree.Now(), payload,
                           Get(old(tree.buffer.proofs), payload.BlockHash()), outcome)
      ensures PayloadAnswered(payload, StatusOf(outcome)) && EventFitsPayload(payload, outcome)
    {
      var maybeProof := tree.UnbufferProof(payload.BlockHash());
      hasProof := maybeProof.Some?;
      outcome := GiveToTree(payload, maybeProof);
    }

    /** Hands a payload to the tree, and does what the tree asks for. */
    method GivePayload(payload: Payload) returns (outcome: Option<PayloadOutcome>, park: bool)
      requires tree.Valid() && Downloading()
      requires payload.WellFormed? ==>
        payload.block.hash in tree.world.headers && tree.world.headers[payload.block.hash] == payload.block
      modifies tree, tree.state, tree.buffer, tree.invalidHeaders, downloader
      ensures tree.Valid() && Downloading() && downloader.outcomes == old(downloader.outcomes)
      ensures tree.syncTarget == old(tree.syncTarget)
      ensures PayloadProcessed(old(Settings()), old(tree.Now()), tree.Now(), old(downloader.Unanswered()),
                               downloader.Unanswered(), payload, AnswerOf(outcome))
      ensures PayloadAnswered(payload, StatusOf(outcome))
      ensures park <==> Parks(outcome)
      ensures SyncingIsAsked(payload, outcome)
    {
      ghost var settings, before, asked := Settings(), tree.Now(), downloader.Unanswered();
      var hasProof;
      outcome, hasProof := InsertPayload(payload);
      ghost var mid := tree.Now();
      park := FollowPayload(payload, outcome, hasProof);
      PayloadAsks(outcome, mid.buffer.proofs, payload.BlockHash(), hasProof, asked, downloader.Unanswered());
      PayloadDone(settings, before, mid, tree.Now(), asked, downloader.Unanswered(), payload, outcome);
      AskedMeans(payload, outcome);
    }

    /** Syncing right away means that an ancestor is asked for, and parking that the proof is. */
    ghost predicate SyncingIsAsked(payload: Payload, outcome: Option<PayloadOutcome>)
      reads downloader
    {
      if Parks(outcome) then payload.WellFormed? && Ticket(ProofKind, payload.BlockHash()) in downloader.Unanswered()
      else
        payload.WellFormed? && outcome.Some? && outcome.value.status.Syncing? ==> AncestorAsked(payload.block.hash)
    }

    lemma AskedMeans(payload: Payload, outcome: Option<PayloadOutcome>)
      requires EventFitsPayload(payload, outcome)
      requires forall a: Hash :: EventOf(outcome) == Some(DownloadProof(a)) ==>
        Ticket(ProofKind, a) in downloader.Unanswered()
      requires forall a: Hash :: EventOf(outcome) == Some(DownloadBlock(a)) ==>
        Ticket(FullBlockKind, a) in downloader.Unanswered()
      ensures SyncingIsAsked(payload, outcome)
    {
      if payload.WellFormed? && outcome.Some? && outcome.value.status.Syncing? {
        var event := outcome.value.event.value;
        assert event == DownloadProof(event.hash) || event == DownloadBlock(event.hash);
      }
    }

    /** Handles a new payload: the answer, or None when the payload is parked until its proof arrives. */
    method OnNewPayload(payload: Payload) returns (answer: Option<Option<PayloadStatus>>)
      requires tree.Valid() && Downloading()
      requires payload.WellFormed? ==>
        payload.block.hash in tree.world.headers && tree.world.headers[payload.block.hash] == payload.block
      modifies tree, tree.state, tree.buffer, tree.invalidHeaders, downloader
      ensures tree.Valid() && Downloading() && downloader.outcomes == old(downloader.outcomes)
      ensures tree.syncTarget == old(tree.syncTarget)
      ensures PayloadProcessed(old(Settings()), old(tree.Now()), tree.Now(), old(downloader.Unanswered()),
                               downloader.Unanswered(), payload, answer)
      ensures answer.Some? ==> PayloadAnswered(payload, answer.value)
      ensures payload.WellFormed? && answer == Some(Some(Syncing)) ==> AncestorAsked(payload.block.hash)
      ensures answer.None? ==> payload.WellFormed? && Ticket(ProofKind, payload.BlockHash()) in downloader.Unanswered()
    {
      var outcome, park := GivePayload(payload);
      if outcome.None? {
        return Some(None);
      }
      return if park then None else Some(Some(outcome.value.status));
    }

    /** Remembers the sync target, and starts the download that a fork-choice update asks for. */
    method FollowForkchoice(fc: ForkchoiceState, attributesOk: Option<bool>, status: ForkchoiceStatus,
                            event: Option<TreeEvent>)
      requires tree.Valid() && Downloading() && tree.HeadAnswered(fc, attributesOk, status)
      requires if status.SyncingHead? then SyncsTo(tree.ledger.blocks, tree.buffer.blocks, fc, event) else event == None
      modifies tree`syncTarget, downloader
      ensures tree.Valid() && Downloading() && downloader.outcomes == old(downloader.outcomes)
      ensures tree.Now() == old(tree.Now()) && tree.syncTarget == Tracked(old(tree.syncTarget), fc.head, status)
      ensures Added(old(downloader.Unanswered()), downloader.Unanswered(), Wants(event, tree.buffer.proofs))
      ensures ForkchoiceAnswered(fc, attributesOk, status)
    {
      tree.TrackForkchoice(fc.head, status);
      if event.Some? {
        StartDownload(event.value);
        WantedAsked(event.value, old(downloader.Unanswered()));
      } else {
        AddedNone(downloader.Unanswered());
      }
      assert status.SyncingHead? ==> SyncsTo(tree.ledger.blocks, tree.buffer.blocks, fc, event);
    }

    lemma WantedAsked(event: TreeEvent, asked: multiset<Ticket>)
      requires Added(asked, downloader.Unanswered(), Wants(Some(event), tree.buffer.proofs))
      ensures Asked(event)
    {
      var extra :| AddedBy(asked, downloader.Unanswered(), Wants(Some(event), tree.buffer.proofs), extra);
    }

    /** The download that leads to the requested head is on its way, if one is needed. */
    ghost predicate SyncStarted(fc: ForkchoiceState)
      reads tree`ledger, tree.buffer, downloader
    {
      exists event ::
        SyncsTo(tree.ledger.blocks, tree.buffer.blocks, fc, event) && (event.Some? ==> Asked(event.value))
    }

    /** Handles a fork-choice update. */
    method OnForkchoiceUpdated(fc: ForkchoiceState, attributesOk: Option<bool>) returns (status: ForkchoiceStatus)
      requires tree.Valid() && Downloading()
      modifies tree, tree.state, tree.buffer, tree.invalidHeaders, downloader
      ensures tree.Valid() && Downloading() && downloader.outcomes == old(downloader.outcomes)
      ensures tree.syncTarget == Tracked(old(tree.syncTarget), fc.head, status)
      ensures ForkchoiceProcessed(old(Settings()), old(tree.Now()), tree.Now(), old(downloader.Unanswered()),
                                  downloader.Unanswered(), fc, attributesOk, status)
      ensures ForkchoiceAnswered(fc, attributesOk, status)
    {
      ghost var settings, before, asked := Settings(), tree.Now(), downloader.Unanswered();
      var event;
      status, event := tree.OnForkchoiceUpdated(fc, attributesOk);
      FollowForkchoice(fc, attributesOk, status, event);
      ForkchoiceDone(settings, before, tree.Now(), asked, downloader.Unanswered(), fc, attributesOk, status, event);
    }

    /** Sends the response to the next message. */
    method Respond(answer: Answer)
      requires Valid() && parked.None? && inbox != []
      modifies this`inbox, this`responses
      ensures Valid() && inbox == old(inbox)[1..] && downloader.outcomes == old(downloader.outcomes)
      ensures State() == old(State()).(inbox := inbox, responses := responses)
      ensures responses == old(responses) + [Response(old(inbox)[0].id, answer)]
    {
      AnswerNext(arrived, responses, inbox, answer);
      responses := responses + [Response(inbox[0].id, answer)];
      inbox := inbox[1..];
    }

    /** Parks the next message, whose response then waits for a proof. */
    method Park(hash: Hash)
      requires Valid() && parked.None? && inbox != []
      modifies this`inbox, this`parked
      ensures Valid() && inbox == old(inbox)[1..] && downloader.outcomes == old(downloader.outcomes)
      ensures State() == old(State()).(inbox := inbox, parked := parked)
      ensures parked == Some(Parked(hash, old(inbox)[0].id))
    {
      ParkNext(arrived, responses, inbox, hash);
      parked := Some(Parked(hash, inbox[0].id));
      inbox := inbox[1..];
    }

    ghost predicate Answered(message: Message, answer: Answer)
      reads tree`ledger, tree`canonicalHead, tree`rejected, tree`syncTarget, tree.buffer, downloader
    {
      match message
      case NewPayload(_, payload) => answer.PayloadAnswer? && PayloadAnswered(payload, answer.status)
      case ForkchoiceUpdated(_, fc, attributesOk) =>
        answer.ForkchoiceAnswer? && ForkchoiceAnswered(fc, attributesOk, answer.outcome)
    }

    /** Sends the response to the next message, a payload, or parks it. */
    method SendOrPark(payload: Payload, answer: Option<Option<PayloadStatus>>)
      requires Valid() && parked.None? && inbox != [] && inbox[0].NewPayload? && inbox[0].payload == payload
      modifies this`parked, this`inbox, this`responses
      ensures Valid() && inbox == old(inbox)[1..] && downloader.outcomes == old(downloader.outcomes)
      ensures State() == old(State()).(parked := parked, inbox := inbox, responses := responses)
      ensures SentOrParked(old(inbox)[0], answer, parked, old(responses), responses)
    {
      if answer.None? {
        Park(payload.BlockHash());
      } else {
        Respond(PayloadAnswer(answer.value));
      }
    }

    /** Handles the next message, a payload: it is parked or answered. */
    method HandlePayload(payload: Payload) returns (answer: Option<Option<PayloadStatus>>)
      requires Valid() && parked.None? && inbox != [] && RealPayload(tree.world, inbox[0])
      requires inbox[0].NewPayload? && inbox[0].payload == payload
      modifies this`parked, this`inbox, this`responses, tree, tree.state, tree.buffer, tree.invalidHeaders, downloader
      ensures Valid() && inbox == old(inbox)[1..] && downloader.outcomes == old(downloader.outcomes)
      ensures Replied(old(State()), State())
      ensures answer.Some? ==> PayloadAnswered(payload, answer.value)
      ensures SentOrParked(old(inbox)[0], answer, parked, old(responses), responses)
    {
      ghost var before := State();
      answer := OnNewPayload(payload);
      SendOrPark(payload, answer);
      PayloadReplied(before, State(), answer);
    }

    /** Handles the next message, a fork-choice update. */
    method HandleForkchoice(fc: ForkchoiceState, attributesOk: Option<bool>) returns (status: ForkchoiceStatus)
      requires Valid() && parked.None? && inbox != []
      requires inbox[0].ForkchoiceUpdated? && inbox[0].fc == fc && inbox[0].attributesOk == attributesOk
      modifies this`inbox, this`responses, tree, tree.state, tree.buffer, tree.invalidHeaders, downloader
      ensures Valid() && inbox == old(inbox)[1..] && downloader.outcomes == old(downloader.outcomes)
      ensures Replied(old(State()), State())
      ensures ForkchoiceAnswered(fc, attributesOk, status)
      ensures parked.None? && responses == old(responses) + [Response(old(inbox)[0].id, ForkchoiceAnswer(status))]
    {
      ghost var before := State();
      status := OnForkchoiceUpdated(fc, attributesOk);
      Respond(ForkchoiceAnswer(status));
      ForkchoiceReplied(before, State(), status);
    }

    /** Handles the next message; nothing may be parked. The reply is the response sent, if there is one. */
    method OnEngineMessage() returns (reply: Option<Answer>)
      requires Valid() && parked.None? && inbox != [] && RealPayload(tree.world, inbox[0])
      modifies this`parked, this`inbox, this`responses, tree, tree.state, tree.buffer, tree.invalidHeaders, downloader
      ensures Valid() && inbox == old(inbox)[1..] && downloader.outcomes == old(downloader.outcomes)
      ensures Replied(old(State()), State())
      ensures reply.Some? ==>
        && parked.None? && responses == old(responses) + [Response(old(inbox)[0].id, reply.value)]
        && Answered(old(inbox)[0], reply.value)
      ensures reply.None? ==> parked.Some? && responses == old(responses) && parked.value.id == old(inbox)[0].id
    {
      if inbox[0].NewPayload? {
        var answer := HandlePayload(inbox[0].payload);
        reply := if answer.None? then None else Some(PayloadAnswer(answer.value));
      } else {
        var status := HandleForkchoice(inbox[0].fc, inbox[0].attributesOk);
        reply := Some(ForkchoiceAnswer(status));
      }
    }

    /** No outcome is queued, and no request in flight would resolve. */
    ghost predicate NothingReady(ready: Readiness)
      reads downloader
    {
      && downloader.outcomes == []
      && AllResolved(ready, downloader.inflightFinalized, downloader.inflightFullBlock, downloader.inflightProof) == []
    }

    ghost function InFlight(): Flight
      reads downloader
    {
      Flight(downloader.inflightFinalized, downloader.inflightFullBlock, downloader.inflightProof, downloader.outcomes)
    }

    /** The download handed out next. */
    ghost function Next(ready: Readiness): Option<DownloadData>
      reads downloader
    {
      NextOf(InFlight(), ready)
    }

    /** Hands out the next finished download. */
    method NextDownload(ready: Readiness) returns (r: Option<DownloadData>)
      requires Downloading() && Deliverable(tree.world, ready)
      modifies downloader
      ensures Downloading()
      ensures r.Some? ==> Genuine(tree.world, r.value)
      ensures r.None? <==> old(NothingReady(ready))
      ensures r == old(Next(ready))
      ensures r.Some? ==> downloader.Unanswered() == old(downloader.Unanswered()) - multiset{TicketOf(r.value)}
      ensures r.None? ==> downloader.outcomes == [] && downloader.Unanswered() == old(downloader.Unanswered())
      ensures r.Some? && old(downloader.outcomes) != [] ==> |downloader.outcomes| < |old(downloader.outcomes)|
      ensures r.Some? && old(downloader.outcomes) == [] ==> ready != NotReady()
    {
      AllResolvedGenuine(tree.world, ready, downloader.inflightFinalized,
                         downloader.inflightFullBlock, downloader.inflightProof);
      ghost var queue := if downloader.outcomes != [] then downloader.outcomes else
        AllResolved(ready, downloader.inflightFinalized, downloader.inflightFullBlock, downloader.inflightProof);
      if ready == NotReady() {
        NothingResolves(ready, downloader.inflightFinalized, downloader.inflightFullBlock, downloader.inflightProof);
      }
      r := downloader.Poll(ready);
      if r.Some? {
        GenuineParts(tree.world, r.value, downloader.outcomes, queue);
      }
    }

    /** What is left to do without the network's help. */
    ghost function Backlog(): nat
      reads this, downloader
    {
      |inbox| + |downloader.outcomes|
    }

    /** Handles the next message, if there is one; nothing may be parked any more. */
    method HandleNext(timedOut: bool, ghost before: EngineState) returns (round: Round)
      requires Valid() && RealPayloads(tree.world, inbox) && parked.None?
      requires State() == TimeUp(before) && (before.parked.Some? ==> timedOut)
      modifies this`parked, this`inbox, this`responses, tree, tree.state, tree.buffer, tree.invalidHeaders, downloader
      ensures Valid() && downloader.outcomes == old(downloader.outcomes)
      ensures QueueHandled(before, State(), timedOut, round)
    {
      ghost var up := State();
      if inbox == [] {
        assert QueueStep(before, up, State(), timedOut, Pending);
        return Pending;
      }
      var _ := OnEngineMessage();
      assert QueueStep(before, up, State(), timedOut, Again);
      return Again;
    }

    /** What is left of a round without a download: the parked payload's timeout, then a message. */
    method HandleQueue(timedOut: bool) returns (round: Round)
      requires Valid() && RealPayloads(tree.world, inbox)
      modifies this`parked, this`inbox, this`responses, tree, tree.state, tree.buffer, tree.invalidHeaders, downloader
      ensures Valid() && downloader.outcomes == old(downloader.outcomes)
      ensures RoundDone(old(State()), State(), None, recovers, timedOut, round)
    {
      ghost var before := State();
      if parked.Some? {
        if !timedOut {
          assert QueueStep(before, before, State(), timedOut, Pending);
          return Pending;
        }
        AnswerParkedPayload(Some(Syncing));
      }
      round := HandleNext(timedOut, before);
    }

    /** Handles the download that was handed out. */
    method HandleDownload(data: DownloadData, ghost before: EngineState, ghost timedOut: bool)
      returns (round: Round)
      requires Valid() && Genuine(tree.world, data) && RealPayloads(tree.world, inbox)
      requires State() == before.(asked := before.asked - multiset{TicketOf(data)})
      modifies this`parked, this`responses, tree, tree.state, tree.buffer, tree.invalidHeaders, downloader
      ensures Valid() && downloader.outcomes == old(downloader.outcomes)
      ensures RoundDone(before, State(), Some(data), recovers, timedOut, round)
    {
      var fatal, answer := OnDownloadOutcome(data);
      assert OutcomeHandled(old(State()), State(), Recovered(data), data, answer);
      return if fatal then Fatal else Again;
    }

    /** Handles the next download, or else the queue. */
    method HandleReady(ready: Readiness, timedOut: bool) returns (round: Round)
      requires Valid() && Deliverable(tree.world, ready) && RealPayloads(tree.world, inbox)
      modifies this`parked, this`inbox, this`responses, tree, tree.state, tree.buffer, tree.invalidHeaders, downloader
      ensures Valid()
      ensures RoundDone(old(State()), State(), old(Next(ready)), recovers, timedOut, round)
      ensures old(Next(ready)).None? ==> old(NothingReady(ready)) && downloader.outcomes == []
      ensures old(Next(ready)).Some? && ready == NotReady() ==> |downloader.outcomes| < |old(downloader.outcomes)|
    {
      ghost var before := State();
      var data := NextDownload(ready);
      if data.Some? {
        round := HandleDownload(data.value, before, timedOut);
      } else {
        round := HandleQueue(timedOut);
      }
    }

    /** Why the loop ends: some senders cannot be recovered, or no outcome is left and it waits for the network. */
    ghost predicate Stopped(fatal: bool)
      reads this`parked, this`inbox, downloader
    {
      if fatal then SomeLost(recovers)
      else downloader.outcomes == [] && (parked.Some? || inbox == [])
    }

    /** One round of the poll loop: a download, else the parked payload's timeout, else a message. */
    method PollOnce(ready: Readiness, timedOut: bool) returns (round: Round)
      requires Valid() && Deliverable(tree.world, ready) && RealPayloads(tree.world, inbox)
      modifies this`parked, this`inbox, this`responses, tree, tree.state, tree.buffer, tree.invalidHeaders, downloader
      ensures Valid() && RealPayloads(tree.world, inbox) && old(responses) <= responses && arrived == old(arrived)
      ensures RoundDone(old(State()), State(), old(Next(ready)), recovers, timedOut, round)
      ensures round == Again && ready == NotReady() ==> Backlog() < old(Backlog())
      ensures round == Pending ==> old(NothingReady(ready))
      ensures round != Again ==> Stopped(round == Fatal)
    {
      round := HandleReady(ready, timedOut);
      RoundMeans(old(State()), State(), old(Next(ready)), recovers, timedOut, round);
      RealTail(tree.world, old(inbox), inbox);
    }

    /** Messages from the consensus client arrive. */
    method ReceiveAll(messages: seq<Message>)
      requires Valid() && RealPayloads(tree.world, inbox) && RealPayloads(tree.world, messages)
      modifies this`inbox, this`arrived
      ensures Valid() && RealPayloads(tree.world, inbox) && InFlight() == old(InFlight())
      ensures State() == old(State()).(inbox := old(inbox) + messages)
      ensures arrived == old(arrived) + MessageIds(messages)
    {
      MoreArrive(arrived, responses, parked, inbox, messages);
      inbox := inbox + messages;
      arrived := arrived + MessageIds(messages);
    }

    /** One round, before which messages may arrive. */
    method PollTurn(turn: Turn) returns (round: Round)
      requires Valid() && RealTurn(tree.world, turn) && RealPayloads(tree.world, inbox)
      modifies this`parked, this`inbox, this`responses, this`arrived
      modifies tree, tree.state, tree.buffer, tree.invalidHeaders, downloader
      ensures Valid() && RealPayloads(tree.world, inbox) && old(responses) <= responses
      ensures RoundOk(recovers, PlayedRound(old(State()), old(InFlight()), turn, round, State()))
      ensures arrived == old(arrived) + MessageIds(turn.arrivals)
      ensures round == Again && turn == QuietTurn() ==> Backlog() < old(Backlog())
      ensures round != Again ==> Stopped(round == Fatal)
    {
      ghost var before, flight := State(), InFlight();
      ReceiveAll(turn.arrivals);
      ghost var received := State();
      round := PollOnce(turn.ready, turn.timedOut);
      PlayedOk(recovers, before, flight, turn, received, round, State());
    }

    /** Plays one more round, with the next turn of the script or with a quiet one after its end. */
    method PlayNext(turns: seq<Turn>, ghost script: seq<Turn>, ghost rounds: seq<PlayedRound>, ghost start: EngineState,
                    ghost earlier: seq<nat>)
      returns (round: Round, rest: seq<Turn>, ghost more: seq<PlayedRound>)
      requires Valid() && RealPayloads(tree.world, inbox) && GoesOn(rounds)
      requires PlayedTo(tree.world, recovers, script, turns, rounds, start, State(), earlier, arrived)
      modifies this`parked, this`inbox, this`responses, this`arrived
      modifies tree, tree.state, tree.buffer, tree.invalidHeaders, downloader
      ensures Valid() && RealPayloads(tree.world, inbox) && old(responses) <= responses
      ensures PlayedTo(tree.world, recovers, script, rest, more, start, State(), earlier, arrived)
      ensures EndsWith(more, round)
      ensures round == Again ==> |rest| < |turns| || (rest == turns && Backlog() < old(Backlog()))
      ensures round != Again ==> Stopped(round == Fatal)
    {
      ghost var before, flight, ids := State(), InFlight(), arrived;
      PlayedMeans(tree.world, recovers, script, turns, rounds, start, before, earlier, ids);
      rest := Later(turns);
      round := PollTurn(TurnAt(turns, 0));
      ghost var played := PlayedRound(before, flight, TurnAt(turns, 0), round, State());
      PlayedOneMore(tree.world, recovers, script, turns, rounds, start, earlier, ids, played);
      more := rounds + [played];
    }

    /**
     * Polls the engine: downloads first, then the parked payload's timeout, then messages. The script says, round
     * by round, which messages have arrived by then, what the network is ready with, and whether the parked
     * payload's time is up; after its end nothing more comes. Every round does what one round does. The loop ends
     * when nothing is left to do, when a payload is parked, or on a fatal failure, and then all messages that have
     * arrived are accounted for; the rest of the script is left for later.
     */
    method Poll(script: seq<Turn>) returns (fatal: bool, rest: seq<Turn>, ghost rounds: seq<PlayedRound>)
      requires Valid() && RealPayloads(tree.world, inbox)
      requires RealTurns(tree.world, script)
      modifies this`parked, this`inbox, this`responses, this`arrived
      modifies tree, tree.state, tree.buffer, tree.invalidHeaders, downloader
      ensures Valid() && old(responses) <= responses
      ensures PlayedTo(tree.world, recovers, script, rest, rounds, old(State()), State(), old(arrived), arrived)
      ensures EndsWith(rounds, if fatal then Fatal else Pending) && Stopped(fatal)
    {
      rest, rounds := script, [];
      ghost var start, earlier := State(), arrived;
      PlayedNone(tree.world, recovers, script, start, earlier);
      var round := Again;
      while round == Again
        invariant Valid() && RealPayloads(tree.world, inbox) && old(responses) <= responses
        invariant PlayedTo(tree.world, recovers, script, rest, rounds, start, State(), earlier, arrived)
        invariant if round == Again then GoesOn(rounds) else EndsWith(rounds, round) && Stopped(round == Fatal)
        decreases round == Again, |rest|, Backlog()
      {
        round, rest, rounds := PlayNext(rest, script, rounds, start, earlier);
      }
      fatal := round == Fatal;
    }
  }
}
