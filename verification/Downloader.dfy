/** The engine's downloads in flight: every scan polls each request exactly once, and nothing is lost. */
module Downloads {
  import opened Chain

  /** A request in flight for a hash, and how often it was polled. */
  datatype Request = Request(hash: Hash, polls: nat)

  datatype DownloadData =
    | FullBlock(block: Header)
    | ProofOf(hash: Hash, proof: Proof)
    | FinalizedBlock(block: Header, ancestors: seq<Header>)

  datatype Kind = FullBlockKind | ProofKind | FinalizedKind

  /** One download: what was asked for, in flight or completed. */
  datatype Ticket = Ticket(kind: Kind, hash: Hash)

  function TicketOf(d: DownloadData): Ticket {
    match d
    case FullBlock(b) => Ticket(FullBlockKind, b.hash)
    case ProofOf(h, _) => Ticket(ProofKind, h)
    case FinalizedBlock(b, _) => Ticket(FinalizedKind, b.hash)
  }

  /** What each request resolves to when polled now; a request for any other hash stays pending. */
  datatype Readiness = Readiness(
    finalized: map<Hash, (Header, seq<Header>)>, blocks: map<Hash, Header>, proofs: map<Hash, Proof>)

  /** A resolved block has the requested hash. */
  ghost predicate Honest(r: Readiness) {
    && (forall h | h in r.finalized :: r.finalized[h].0.hash == h)
    && (forall h | h in r.blocks :: r.blocks[h].hash == h)
  }

  function Resolve(r: Readiness, t: Ticket): Option<DownloadData> {
    match t.kind
    case FullBlockKind => if t.hash in r.blocks then Some(FullBlock(r.blocks[t.hash])) else None
    case ProofKind => if t.hash in r.proofs then Some(ProofOf(t.hash, r.proofs[t.hash])) else None
    case FinalizedKind =>
      if t.hash in r.finalized then Some(FinalizedBlock(r.finalized[t.hash].0, r.finalized[t.hash].1)) else None
  }

  ghost function Tickets(kind: Kind, requests: seq<Request>): multiset<Ticket> {
    multiset(seq(|requests|, i requires 0 <= i < |requests| => Ticket(kind, requests[i].hash)))
  }

  ghost function OutcomeTickets(outcomes: seq<DownloadData>): multiset<Ticket> {
    multiset(seq(|outcomes|, i requires 0 <= i < |outcomes| => TicketOf(outcomes[i])))
  }

  lemma TicketsPush(kind: Kind, requests: seq<Request>, r: Request)
    ensures Tickets(kind, requests + [r]) == Tickets(kind, requests) + multiset{Ticket(kind, r.hash)}
  {
    var s := seq(|requests|, i requires 0 <= i < |requests| => Ticket(kind, requests[i].hash));
    var all := requests + [r];
    assert seq(|all|, i requires 0 <= i < |all| => Ticket(kind, all[i].hash)) == s + [Ticket(kind, r.hash)];
  }

  lemma OutcomeTicketsPush(outcomes: seq<DownloadData>, d: DownloadData)
    ensures OutcomeTickets(outcomes + [d]) == OutcomeTickets(outcomes) + multiset{TicketOf(d)}
  {
    var s := seq(|outcomes|, i requires 0 <= i < |outcomes| => TicketOf(outcomes[i]));
    var all := outcomes + [d];
    assert seq(|all|, i requires 0 <= i < |all| => TicketOf(all[i])) == s + [TicketOf(d)];
  }

  lemma OutcomeTicketsPop(outcomes: seq<DownloadData>)
    requires outcomes != []
    ensures OutcomeTickets(outcomes) == multiset{TicketOf(outcomes[0])} + OutcomeTickets(outcomes[1..])
  {
    var s := seq(|outcomes|, i requires 0 <= i < |outcomes| => TicketOf(outcomes[i]));
    var rest := outcomes[1..];
    assert s == [TicketOf(outcomes[0])] + seq(|rest|, i requires 0 <= i < |rest| => TicketOf(rest[i]));
  }

  lemma {:induction false} OutcomeTicketsAppend(a: seq<DownloadData>, b: seq<DownloadData>)
    ensures OutcomeTickets(a + b) == OutcomeTickets(a) + OutcomeTickets(b)
    decreases |b|
  {
    if b == [] {
      assert a + b == a;
    } else {
      var init, last := b[..|b| - 1], b[|b| - 1];
      OutcomeTicketsAppend(a, init);
      OutcomeTicketsPush(a + init, last);
      OutcomeTicketsPush(init, last);
      assert a + b == (a + init) + [last] && b == init + [last];
    }
  }

  /** `swap_remove(idx)`: the last element takes the removed one's place. */
  function SwapRemove<T>(s: seq<T>, idx: nat): seq<T>
    requires idx < |s|
  {
    if idx == |s| - 1 then s[..idx] else s[..|s| - 1][idx := s[|s| - 1]]
  }

  /** The last element moved to the front. */
  function Rotated<T>(s: seq<T>): seq<T> {
    if s == [] then [] else [s[|s| - 1]] + s[..|s| - 1]
  }

  lemma SwapRemoveRotates<T>(s: seq<T>, idx: nat, tail: seq<T>, rest: seq<T>)
    requires idx < |s| && rest == s[..idx + 1] + tail
    ensures rest[idx] == s[idx]
    ensures forall again: seq<T> :: SwapRemove(rest, idx) + again == s[..idx] + (Rotated(tail) + again)
  {
    var removed := SwapRemove(rest, idx);
    assert removed == s[..idx] + Rotated(tail);
    forall again: seq<T>
      ensures removed + again == s[..idx] + (Rotated(tail) + again)
    {
    }
  }

  /** The requests that stay pending in a scan, each polled once more. */
  ghost function StillPending(r: Readiness, kind: Kind, requests: seq<Request>): seq<Request> {
    if requests == [] then []
    else
      var first := requests[0];
      (if Resolve(r, Ticket(kind, first.hash)).Some? then [] else [Request(first.hash, first.polls + 1)])
      + StillPending(r, kind, requests[1..])
  }

  /** The data of the requests that resolve in a scan, in reverse order of the requests. */
  ghost function Resolved(r: Readiness, kind: Kind, requests: seq<Request>): seq<DownloadData> {
    if requests == [] then []
    else
      var data := Resolve(r, Ticket(kind, requests[0].hash));
      Resolved(r, kind, requests[1..]) + (if data.Some? then [data.value] else [])
  }

  /** A scan turns each request either into one outcome or into one pending request. */
  lemma {:induction false} ScanConserves(r: Readiness, kind: Kind, requests: seq<Request>)
    requires Honest(r)
    ensures Tickets(kind, requests)
         == Tickets(kind, StillPending(r, kind, requests)) + OutcomeTickets(Resolved(r, kind, requests))
    decreases |requests|
  {
    if requests != [] {
      var first, rest := requests[0], requests[1..];
      ScanConserves(r, kind, rest);
      TicketsFirst(kind, requests);
      if Resolve(r, Ticket(kind, first.hash)).Some? {
        OneMoreResolved(r, kind, requests);
      } else {
        OneMorePending(r, kind, requests);
      }
    }
  }

  lemma OneMoreResolved(r: Readiness, kind: Kind, requests: seq<Request>)
    requires Honest(r) && requests != [] && Resolve(r, Ticket(kind, requests[0].hash)).Some?
    ensures StillPending(r, kind, requests) == StillPending(r, kind, requests[1..])
    ensures OutcomeTickets(Resolved(r, kind, requests))
         == OutcomeTickets(Resolved(r, kind, requests[1..])) + multiset{Ticket(kind, requests[0].hash)}
  {
    var data := Resolve(r, Ticket(kind, requests[0].hash)).value;
    OutcomeTicketsPush(Resolved(r, kind, requests[1..]), data);
    assert TicketOf(data) == Ticket(kind, requests[0].hash);
  }

  lemma OneMorePending(r: Readiness, kind: Kind, requests: seq<Request>)
    requires requests != [] && Resolve(r, Ticket(kind, requests[0].hash)).None?
    ensures Resolved(r, kind, requests) == Resolved(r, kind, requests[1..])
    ensures Tickets(kind, StillPending(r, kind, requests))
         == multiset{Ticket(kind, requests[0].hash)} + Tickets(kind, StillPending(r, kind, requests[1..]))
  {
    var again := [Request(requests[0].hash, requests[0].polls + 1)] + StillPending(r, kind, requests[1..]);
    TicketsFirst(kind, again);
    assert again[1..] == StillPending(r, kind, requests[1..]);
  }

  lemma TicketsFirst(kind: Kind, requests: seq<Request>)
    requires requests != []
    ensures Tickets(kind, requests) == multiset{Ticket(kind, requests[0].hash)} + Tickets(kind, requests[1..])
  {
    var s := seq(|requests|, i requires 0 <= i < |requests| => Ticket(kind, requests[i].hash));
    var rest := requests[1..];
    assert s == [Ticket(kind, requests[0].hash)]
             + seq(|rest|, i requires 0 <= i < |rest| => Ticket(kind, rest[i].hash));
  }

  lemma TicketIn(kind: Kind, requests: seq<Request>, h: Hash)
    ensures Ticket(kind, h) in Tickets(kind, requests) <==> exists i :: 0 <= i < |requests| && requests[i].hash == h
  {
    var s := seq(|requests|, i requires 0 <= i < |requests| => Ticket(kind, requests[i].hash));
    if Ticket(kind, h) in Tickets(kind, requests) {
      assert Ticket(kind, h) in s;
    }
    if i :| 0 <= i < |requests| && requests[i].hash == h {
      assert s[i] == Ticket(kind, h);
    }
  }

  /** No hash is in flight twice. */
  ghost predicate NoneTwice(kind: Kind, requests: seq<Request>) {
    forall t :: Tickets(kind, requests)[t] <= 1
  }

  /** The same requests, in any order. */
  ghost predicate SameRequests(kind: Kind, a: seq<Request>, b: seq<Request>) {
    multiset(a) == multiset(b) && Tickets(kind, a) == Tickets(kind, b)
  }

  lemma RotatedSame(kind: Kind, s: seq<Request>)
    ensures SameRequests(kind, Rotated(s), s)
  {
    if s != [] {
      var last, init := s[|s| - 1], s[..|s| - 1];
      assert s == init + [last];
      TicketsPush(kind, init, last);
      TicketsFirst(kind, [last] + init);
      assert ([last] + init)[1..] == init;
    }
  }

  /** Rotating, and putting a request that was first to the end, keeps the requests. */
  lemma RequeueSame(kind: Kind, tail: seq<Request>, pending: seq<Request>, again: seq<Request>)
    requires SameRequests(kind, tail, pending) && |again| <= 1
    ensures SameRequests(kind, Rotated(tail) + again, again + pending)
  {
    RotatedSame(kind, tail);
    if again == [] {
      assert Rotated(tail) + again == Rotated(tail) && again + pending == pending;
    } else {
      assert again == [again[0]];
      TicketsPush(kind, Rotated(tail), again[0]);
      TicketsFirst(kind, again + pending);
      assert (again + pending)[1..] == pending;
    }
  }

  lemma StillNoneTwice(kind: Kind, requests: seq<Request>, rest: seq<Request>, resolved: multiset<Ticket>)
    requires NoneTwice(kind, requests) && Tickets(kind, requests) == Tickets(kind, rest) + resolved
    ensures NoneTwice(kind, rest)
  {
    forall t ensures Tickets(kind, rest)[t] <= 1 {
      assert Tickets(kind, requests)[t] == Tickets(kind, rest)[t] + resolved[t];
    }
  }

  /** The part left in flight by polling one more request, in front of those polled already. */
  ghost function Requeued(r: Readiness, kind: Kind, request: Request, tail: seq<Request>): seq<Request> {
    Rotated(tail)
    + if Resolve(r, Ticket(kind, request.hash)).Some? then [] else [Request(request.hash, request.polls + 1)]
  }

  /** The requests left in flight by a scan, in the order they are left in. */
  ghost function Rescanned(r: Readiness, kind: Kind, requests: seq<Request>): seq<Request> {
    if requests == [] then [] else Requeued(r, kind, requests[0], Rescanned(r, kind, requests[1..]))
  }

  lemma SameSubst(kind: Kind, a: seq<Request>, b: seq<Request>, a': seq<Request>, b': seq<Request>)
    requires SameRequests(kind, a, b) && a == a' && b == b'
    ensures SameRequests(kind, a', b')
  {
  }

  /** A scan leaves exactly the requests in flight that stay pending. */
  lemma {:induction false} RescannedSame(r: Readiness, kind: Kind, requests: seq<Request>)
    ensures SameRequests(kind, Rescanned(r, kind, requests), StillPending(r, kind, requests))
    decreases |requests|
  {
    if requests != [] {
      var request, polled := requests[0], requests[1..];
      RescannedSame(r, kind, polled);
      var tail, pending := Rescanned(r, kind, polled), StillPending(r, kind, polled);
      var again := if Resolve(r, Ticket(kind, request.hash)).Some? then []
                   else [Request(request.hash, request.polls + 1)];
      RequeueSame(kind, tail, pending, again);
      SameSubst(kind, Rotated(tail) + again, again + pending,
                Rescanned(r, kind, requests), StillPending(r, kind, requests));
    }
  }

  ghost function PendingBag(r: Readiness, kind: Kind, requests: seq<Request>): multiset<Request> {
    multiset(StillPending(r, kind, requests))
  }

  ghost function Yield(r: Readiness, kind: Kind, requests: seq<Request>): seq<DownloadData> {
    Resolved(r, kind, requests)
  }

  /** The requests in flight after a scan: those that stay pending, each polled once more. */
  ghost predicate PolledOnce(r: Readiness, kind: Kind, before: seq<Request>, after: seq<Request>) {
    multiset(after) == PendingBag(r, kind, before)
  }

  /** All downloads that were asked for and not handed out yet. */
  ghost function Asked(finalized: seq<Request>, fullBlocks: seq<Request>, proofs: seq<Request>,
                       outcomes: seq<DownloadData>): multiset<Ticket>
  {
    Tickets(FullBlockKind, fullBlocks) + Tickets(ProofKind, proofs) + Tickets(FinalizedKind, finalized)
    + OutcomeTickets(outcomes)
  }

  lemma AskedMore(finalized: seq<Request>, fullBlocks: seq<Request>, proofs: seq<Request>, outcomes: seq<DownloadData>,
                  kind: Kind, more: seq<Request>, extra: multiset<Ticket>)
    requires
      var before :=
        match kind
        case FinalizedKind => finalized
        case FullBlockKind => fullBlocks
        case ProofKind => proofs;
      Tickets(kind, more) == Tickets(kind, before) + extra
    ensures
      Asked(if kind.FinalizedKind? then more else finalized, if kind.FullBlockKind? then more else fullBlocks,
            if kind.ProofKind? then more else proofs, outcomes)
      == Asked(finalized, fullBlocks, proofs, outcomes) + extra
  {
    var b, p, f, o :=
      Tickets(FullBlockKind, fullBlocks), Tickets(ProofKind, proofs), Tickets(FinalizedKind, finalized),
      OutcomeTickets(outcomes);
    match kind
    case FinalizedKind => assert b + p + (f + extra) + o == b + p + f + o + extra;
    case FullBlockKind => assert (b + extra) + p + f + o == b + p + f + o + extra;
    case ProofKind => assert b + (p + extra) + f + o == b + p + f + o + extra;
  }

  lemma ThreeScansConserve(f: seq<Request>, b: seq<Request>, p: seq<Request>, q0: seq<DownloadData>,
                           f': seq<Request>, b': seq<Request>, p': seq<Request>,
                           q1: seq<DownloadData>, q2: seq<DownloadData>, q3: seq<DownloadData>)
    requires Tickets(FinalizedKind, f) + OutcomeTickets(q0) == Tickets(FinalizedKind, f') + OutcomeTickets(q1)
    requires Tickets(FullBlockKind, b) + OutcomeTickets(q1) == Tickets(FullBlockKind, b') + OutcomeTickets(q2)
    requires Tickets(ProofKind, p) + OutcomeTickets(q2) == Tickets(ProofKind, p') + OutcomeTickets(q3)
    ensures Asked(f, b, p, q0) == Asked(f', b', p', q3)
  {
    var x, y, z := Tickets(FinalizedKind, f), Tickets(FullBlockKind, b), Tickets(ProofKind, p);
    var x', y', z' := Tickets(FinalizedKind, f'), Tickets(FullBlockKind, b'), Tickets(ProofKind, p');
    assert y + z + x + OutcomeTickets(q0) == y + z + (x' + OutcomeTickets(q1));
    assert y + z + (x' + OutcomeTickets(q1)) == (y' + OutcomeTickets(q2)) + z + x';
    assert (y' + OutcomeTickets(q2)) + z + x' == y' + x' + (z' + OutcomeTickets(q3));
  }

  /** After the last requests down to idx are polled: what is in flight, and what has resolved. */
  ghost predicate Scanned(r: Readiness, kind: Kind, requests: seq<Request>, idx: nat, rest: seq<Request>,
                          done: seq<DownloadData>)
    requires idx <= |requests|
  {
    && rest == requests[..idx] + Rescanned(r, kind, requests[idx..])
    && done == Resolved(r, kind, requests[idx..])
  }

  lemma ScanStart(r: Readiness, kind: Kind, requests: seq<Request>)
    ensures Scanned(r, kind, requests, |requests|, requests, []) && PolledDown(requests, |requests|, [])
  {
    assert requests[..|requests|] + [] == requests && requests[|requests|..] == [];
  }

  /** The hashes polled are those of the last requests down to idx, in this order. */
  ghost predicate PolledDown(requests: seq<Request>, idx: nat, polled: seq<Hash>)
    requires idx <= |requests|
  {
    |polled| == |requests| - idx && forall i | 0 <= i < |polled| :: polled[i] == requests[|requests| - 1 - i].hash
  }

  lemma PolledOneMore(requests: seq<Request>, idx: nat, polled: seq<Hash>)
    requires idx < |requests| && PolledDown(requests, idx + 1, polled)
    ensures PolledDown(requests, idx, polled + [requests[idx].hash])
  {
  }

  /** Polling the request at idx, swap-removed and pushed back if it stays pending, continues the scan. */
  lemma ScanStep(r: Readiness, kind: Kind, requests: seq<Request>, idx: nat, rest: seq<Request>,
                 done: seq<DownloadData>)
    requires idx < |requests| && Scanned(r, kind, requests, idx + 1, rest, done)
    ensures idx < |rest| && rest[idx] == requests[idx]
    ensures
      var data := Resolve(r, Ticket(kind, rest[idx].hash));
      if data.Some? then Scanned(r, kind, requests, idx, SwapRemove(rest, idx), done + [data.value])
      else Scanned(r, kind, requests, idx, SwapRemove(rest, idx) + [Request(rest[idx].hash, rest[idx].polls + 1)], done)
  {
    var request, tail := requests[idx], Rescanned(r, kind, requests[idx + 1..]);
    assert requests[idx..][0] == request && requests[idx..][1..] == requests[idx + 1..];
    SwapRemoveRotates(requests, idx, tail, rest);
    if Resolve(r, Ticket(kind, request.hash)).Some? {
      RescannedResolved(r, kind, requests[idx..]);
      assert SwapRemove(rest, idx) + [] == requests[..idx] + (Rotated(tail) + []);
    } else {
      RescannedPending(r, kind, requests[idx..]);
    }
  }

  lemma RescannedResolved(r: Readiness, kind: Kind, requests: seq<Request>)
    requires requests != [] && Resolve(r, Ticket(kind, requests[0].hash)).Some?
    ensures Rescanned(r, kind, requests) == Rotated(Rescanned(r, kind, requests[1..])) + []
    ensures Resolved(r, kind, requests)
         == Resolved(r, kind, requests[1..]) + [Resolve(r, Ticket(kind, requests[0].hash)).value]
  {
  }

  lemma RescannedPending(r: Readiness, kind: Kind, requests: seq<Request>)
    requires requests != [] && Resolve(r, Ticket(kind, requests[0].hash)).None?
    ensures Rescanned(r, kind, requests)
         == Rotated(Rescanned(r, kind, requests[1..])) + [Request(requests[0].hash, requests[0].polls + 1)]
    ensures Resolved(r, kind, requests) == Resolved(r, kind, requests[1..])
  {
  }

  lemma ScanDone(r: Readiness, kind: Kind, requests: seq<Request>, rest: seq<Request>, done: seq<DownloadData>)
    requires Honest(r) && Scanned(r, kind, requests, 0, rest, done)
    ensures PolledOnce(r, kind, requests, rest) && done == Yield(r, kind, requests)
    ensures Tickets(kind, requests) == Tickets(kind, rest) + OutcomeTickets(done)
  {
    assert requests[0..] == requests && rest == Rescanned(r, kind, requests);
    RescannedSame(r, kind, requests);
    ScanConserves(r, kind, requests);
  }

  /** Every request of every kind was polled exactly once. */
  ghost predicate AllPolledOnce(r: Readiness, finalized: seq<Request>, fullBlocks: seq<Request>, proofs: seq<Request>,
                                finalized': seq<Request>, fullBlocks': seq<Request>, proofs': seq<Request>)
  {
    && PolledOnce(r, FinalizedKind, finalized, finalized')
    && PolledOnce(r, FullBlockKind, fullBlocks, fullBlocks')
    && PolledOnce(r, ProofKind, proofs, proofs')
  }

  /** Everything that resolves in one scan, in the order it is queued. */
  ghost function AllResolved(r: Readiness, finalized: seq<Request>, fullBlocks: seq<Request>, proofs: seq<Request>)
    : seq<DownloadData>
  {
    Yield(r, FinalizedKind, finalized) + Yield(r, FullBlockKind, fullBlocks) + Yield(r, ProofKind, proofs)
  }

  lemma QueuedInOrder(r: Readiness, finalized: seq<Request>, fullBlocks: seq<Request>, proofs: seq<Request>)
    ensures
      [] + Yield(r, FinalizedKind, finalized) + Yield(r, FullBlockKind, fullBlocks) + Yield(r, ProofKind, proofs)
      == AllResolved(r, finalized, fullBlocks, proofs)
  {
    assert [] + Yield(r, FinalizedKind, finalized) == Yield(r, FinalizedKind, finalized);
  }

  /** The extra downloads were added: only wanted ones, and all wanted ones are asked for by now. */
  ghost predicate AddedBy(before: multiset<Ticket>, after: multiset<Ticket>, wanted: set<Ticket>,
                          extra: multiset<Ticket>)
  {
    && after == before + extra
    && (forall t | t in extra :: t in wanted) && (forall t | t in wanted :: t in after)
  }

  /** The wanted downloads are asked for by now, and no others were added. */
  ghost predicate Added(before: multiset<Ticket>, after: multiset<Ticket>, wanted: set<Ticket>) {
    exists extra :: AddedBy(before, after, wanted, extra)
  }

  lemma AddedOne(before: multiset<Ticket>, after: multiset<Ticket>, t: Ticket, extra: multiset<Ticket>)
    requires after == before + extra && t in after && (extra == multiset{} || extra == multiset{t})
    ensures Added(before, after, {t})
  {
    assert AddedBy(before, after, {t}, extra);
  }

  lemma AddedBoth(a: multiset<Ticket>, b: multiset<Ticket>, c: multiset<Ticket>, x: set<Ticket>, y: set<Ticket>)
    requires Added(a, b, x) && Added(b, c, y)
    ensures Added(a, c, x + y)
  {
    var e :| AddedBy(a, b, x, e);
    var f :| AddedBy(b, c, y, f);
    assert AddedBy(a, c, x + y, e + f);
  }

  lemma AddedHas(before: multiset<Ticket>, after: multiset<Ticket>, wanted: set<Ticket>, t: Ticket)
    requires Added(before, after, wanted) && t in wanted
    ensures t in after
  {
    var extra :| AddedBy(before, after, wanted, extra);
  }

  lemma AddedNone(a: multiset<Ticket>)
    ensures Added(a, a, {})
  {
    assert AddedBy(a, a, {}, multiset{});
  }

  class EngineDownloader {
    var inflightFullBlock: seq<Request>
    var inflightProof: seq<Request>
    var inflightFinalized: seq<Request>
    var outcomes: seq<DownloadData>

    /** No hash is in flight twice within a kind. */
    ghost predicate Valid()
      reads this
    {
      && NoneTwice(FullBlockKind, inflightFullBlock)
      && NoneTwice(ProofKind, inflightProof)
      && NoneTwice(FinalizedKind, inflightFinalized)
    }

    /** All downloads that were asked for and not handed out yet. */
    ghost function Unanswered(): multiset<Ticket>
      reads this
    {
      Asked(inflightFinalized, inflightFullBlock, inflightProof, outcomes)
    }

    constructor ()
      ensures Valid() && Unanswered() == multiset{} && outcomes == []
    {
      inflightFullBlock, inflightProof, inflightFinalized, outcomes := [], [], [], [];
    }

    /** Puts a request in flight unless there is one for the hash already. */
    static method Add(kind: Kind, requests: seq<Request>, hash: Hash)
      returns (r: seq<Request>, ghost extra: multiset<Ticket>)
      requires NoneTwice(kind, requests)
      ensures NoneTwice(kind, r) && Ticket(kind, hash) in Tickets(kind, r)
      ensures r == if Ticket(kind, hash) in Tickets(kind, requests) then requests else requests + [Request(hash, 0)]
      ensures Tickets(kind, r) == Tickets(kind, requests) + extra
      ensures extra ==
        if Ticket(kind, hash) in Tickets(kind, requests) then multiset{} else multiset{Ticket(kind, hash)}
    {
      TicketIn(kind, requests, hash);
      if exists i :: 0 <= i < |requests| && requests[i].hash == hash {
        return requests, multiset{};
      }
      TicketsPush(kind, requests, Request(hash, 0));
      return requests + [Request(hash, 0)], multiset{Ticket(kind, hash)};
    }

    method DownloadFullBlock(hash: Hash)
      requires Valid()
      modifies this`inflightFullBlock
      ensures Valid() && outcomes == old(outcomes)
      ensures Unanswered() ==
        if Ticket(FullBlockKind, hash) in Tickets(FullBlockKind, old(inflightFullBlock)) then old(Unanswered())
        else old(Unanswered()) + multiset{Ticket(FullBlockKind, hash)}
      ensures Ticket(FullBlockKind, hash) in Unanswered()
      ensures old(Unanswered()) <= Unanswered()
      ensures Added(old(Unanswered()), Unanswered(), {Ticket(FullBlockKind, hash)})
    {
      var more, extra := Add(FullBlockKind, inflightFullBlock, hash);
      AskedMore(inflightFinalized, inflightFullBlock, inflightProof, outcomes, FullBlockKind, more, extra);
      inflightFullBlock := more;
      AddedOne(old(Unanswered()), Unanswered(), Ticket(FullBlockKind, hash), extra);
    }

    method DownloadProof(hash: Hash)
      requires Valid()
      modifies this`inflightProof
      ensures Valid() && outcomes == old(outcomes)
      ensures Unanswered() ==
        if Ticket(ProofKind, hash) in Tickets(ProofKind, old(inflightProof)) then old(Unanswered())
        else old(Unanswered()) + multiset{Ticket(ProofKind, hash)}
      ensures Ticket(ProofKind, hash) in Unanswered()
      ensures old(Unanswered()) <= Unanswered()
      ensures Added(old(Unanswered()), Unanswered(), {Ticket(ProofKind, hash)})
    {
      var more, extra := Add(ProofKind, inflightProof, hash);
      AskedMore(inflightFinalized, inflightFullBlock, inflightProof, outcomes, ProofKind, more, extra);
      inflightProof := more;
      AddedOne(old(Unanswered()), Unanswered(), Ticket(ProofKind, hash), extra);
    }

    method DownloadFinalizedWithAncestors(hash: Hash)
      requires Valid()
      modifies this`inflightFinalized
      ensures Valid() && outcomes == old(outcomes)
      ensures Unanswered() ==
        if Ticket(FinalizedKind, hash) in Tickets(FinalizedKind, old(inflightFinalized)) then old(Unanswered())
        else old(Unanswered()) + multiset{Ticket(FinalizedKind, hash)}
      ensures Ticket(FinalizedKind, hash) in Unanswered()
      ensures old(Unanswered()) <= Unanswered()
      ensures Added(old(Unanswered()), Unanswered(), {Ticket(FinalizedKind, hash)})
    {
      var more, extra := Add(FinalizedKind, inflightFinalized, hash);
      AskedMore(inflightFinalized, inflightFullBlock, inflightProof, outcomes, FinalizedKind, more, extra);
      inflightFinalized := more;
      AddedOne(old(Unanswered()), Unanswered(), Ticket(FinalizedKind, hash), extra);
    }

    /**
     * Polls every request once, from the last to the first: a request is swap-removed, and pushed back if it
     * stays pending.
     */
    static method PollEach(kind: Kind, requests: seq<Request>, ready: Readiness)
      returns (rest: seq<Request>, done: seq<DownloadData>, ghost polled: seq<Hash>)
      ensures Scanned(ready, kind, requests, 0, rest, done)
      ensures PolledDown(requests, 0, polled)
    {
      rest, done, polled := requests, [], [];
      ScanStart(ready, kind, requests);
      for idx := |requests| downto 0
        invariant Scanned(ready, kind, requests, idx, rest, done)
        invariant PolledDown(requests, idx, polled)
      {
        PolledOneMore(requests, idx, polled);
        ScanStep(ready, kind, requests, idx, rest, done);
        polled := polled + [rest[idx].hash];
        rest, done := PollAt(kind, rest, idx, done, ready);
      }
    }

    /** Swap-removes one request and polls it: its data is queued, or it is pushed back. */
    static method PollAt(kind: Kind, requests: seq<Request>, idx: nat, queue: seq<DownloadData>, ready: Readiness)
      returns (rest: seq<Request>, done: seq<DownloadData>)
      requires idx < |requests|
      ensures
        var data := Resolve(ready, Ticket(kind, requests[idx].hash));
        if data.Some? then rest == SwapRemove(requests, idx) && done == queue + [data.value]
        else rest == SwapRemove(requests, idx) + [Request(requests[idx].hash, requests[idx].polls + 1)] && done == queue
    {
      var request := requests[idx];
      rest, done := SwapRemove(requests, idx), queue;
      var data := Resolve(ready, Ticket(kind, request.hash));
      if data.Some? {
        done := done + [data.value];
      } else {
        rest := rest + [Request(request.hash, request.polls + 1)];
      }
    }

    /** Scans the requests of one kind: each either resolves or stays in flight, polled once more. */
    static method Scan(kind: Kind, requests: seq<Request>, ready: Readiness)
      returns (rest: seq<Request>, done: seq<DownloadData>, ghost polled: seq<Hash>)
      requires Honest(ready)
      ensures PolledOnce(ready, kind, requests, rest)
      ensures done == Yield(ready, kind, requests)
      ensures PolledDown(requests, 0, polled)
      ensures Tickets(kind, requests) == Tickets(kind, rest) + OutcomeTickets(done)
    {
      rest, done, polled := PollEach(kind, requests, ready);
      ScanDone(ready, kind, requests, rest, done);
    }

    /** Scans the requests of one kind, and adds the resolved data to the outcomes. */
    static method Advance(kind: Kind, requests: seq<Request>, queue: seq<DownloadData>, ready: Readiness)
      returns (rest: seq<Request>, queue': seq<DownloadData>)
      requires Honest(ready) && NoneTwice(kind, requests)
      ensures NoneTwice(kind, rest) && PolledOnce(ready, kind, requests, rest)
      ensures queue' == queue + Yield(ready, kind, requests)
      ensures Tickets(kind, requests) + OutcomeTickets(queue) == Tickets(kind, rest) + OutcomeTickets(queue')
    {
      var done; ghost var polled;
      rest, done, polled := Scan(kind, requests, ready);
      OutcomeTicketsAppend(queue, done);
      StillNoneTwice(kind, requests, rest, OutcomeTickets(done));
      queue' := queue + done;
    }

    /** Polls all requests in flight: the finalized ones first, then full blocks, then proofs. */
    method ScanAll(ready: Readiness)
      requires Valid() && Honest(ready) && outcomes == []
      modifies this
      ensures Valid() && Unanswered() == old(Unanswered())
      ensures AllPolledOnce(ready, old(inflightFinalized), old(inflightFullBlock), old(inflightProof),
                            inflightFinalized, inflightFullBlock, inflightProof)
      ensures outcomes == AllResolved(ready, old(inflightFinalized), old(inflightFullBlock), old(inflightProof))
    {
      var finalized, queue1 := Advance(FinalizedKind, inflightFinalized, outcomes, ready);
      var fullBlocks, queue2 := Advance(FullBlockKind, inflightFullBlock, queue1, ready);
      var proofs, queue3 := Advance(ProofKind, inflightProof, queue2, ready);
      ThreeScansConserve(inflightFinalized, inflightFullBlock, inflightProof, outcomes,
                         finalized, fullBlocks, proofs, queue1, queue2, queue3);
      QueuedInOrder(ready, inflightFinalized, inflightFullBlock, inflightProof);
      inflightFinalized, inflightFullBlock, inflightProof, outcomes := finalized, fullBlocks, proofs, queue3;
    }

    /** Takes the first queued outcome, if there is one. */
    method TakeQueued() returns (r: Option<DownloadData>)
      modifies this`outcomes
      ensures r.None? <==> old(outcomes) == []
      ensures r.None? ==> outcomes == [] && Unanswered() == old(Unanswered())
      ensures r.Some? ==>
        [r.value] + outcomes == old(outcomes) && old(Unanswered()) == Unanswered() + multiset{TicketOf(r.value)}
    {
      if outcomes == [] {
        return None;
      }
      OutcomeTicketsPop(outcomes);
      r := Some(outcomes[0]);
      outcomes := outcomes[1..];
    }

    /** Hands out the next outcome, scanning all requests in flight first if none is queued. */
    method Poll(ready: Readiness) returns (r: Option<DownloadData>)
      requires Valid() && Honest(ready)
      modifies this
      ensures Valid()
      ensures r.Some? ==> old(Unanswered()) == Unanswered() + multiset{TicketOf(r.value)}
      ensures r.None? ==> old(Unanswered()) == Unanswered() && outcomes == []
      ensures r.Some? ==>
        [r.value] + outcomes ==
        if old(outcomes) != [] then old(outcomes)
        else AllResolved(ready, old(inflightFinalized), old(inflightFullBlock), old(inflightProof))
      ensures old(outcomes) != [] ==>
        && r.Some? && inflightFullBlock == old(inflightFullBlock)
        && inflightProof == old(inflightProof) && inflightFinalized == old(inflightFinalized)
      ensures old(outcomes) == [] ==>
        && AllPolledOnce(ready, old(inflightFinalized), old(inflightFullBlock), old(inflightProof),
                         inflightFinalized, inflightFullBlock, inflightProof)
        && (r.None? ==> AllResolved(ready, old(inflightFinalized), old(inflightFullBlock), old(inflightProof)) == [])
    {
      if outcomes == [] {
        ScanAll(ready);
      }
      r := TakeQueued();
    }
  }
}
