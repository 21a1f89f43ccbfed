/** Downloads as response-driven state machines that retry until the peers' answers check out. */
module Fetching {
  import opened Chain
  import opened ChainStates
  import opened Ledgers

  type Body = nat

  datatype SealedBlock = SealedBlock(header: Header, body: Body)

  /** What a peer answers: an error, nothing, or something. */
  datatype Reply<T> = Error | Nothing | Got(value: T)

  /** A request slot: empty, or one request in flight that was polled or not since it was made. */
  datatype Slot = Idle | InFlight(polled: bool)

  /** The consensus checks on headers and bodies. */
  datatype Checks = Checks(
    headerOk: Header -> bool, childOk: (Header, Header) -> bool, bodyOk: (Body, Header) -> bool)

  /** The check of a header against its parent includes the hash link and the number. */
  predicate LinkOk(checks: Checks, child: Header, parent: Header) {
    child.parent == parent.hash && child.number == parent.number + 1 && checks.childOk(child, parent)
  }

  /** Every header passes, and links to the one after it. */
  ghost predicate FallingChain(checks: Checks, headers: seq<Header>) {
    && (forall i | 0 <= i < |headers| :: checks.headerOk(headers[i]))
    && (forall i | 0 < i < |headers| :: LinkOk(checks, headers[i - 1], headers[i]))
  }

  class FetchFullBlockFuture {
    const blockHash: Hash
    const checks: Checks
    var pendingHeader: Slot
    var pendingBody: Slot
    var header: Option<Header>
    var body: Option<Body>

    /** Each missing part has exactly one request in flight, and a part that is there has none. */
    ghost predicate SlotsOk()
      reads this
    {
      && (header.Some? ==> header.value.hash == blockHash)
      && (pendingHeader.InFlight? <==> header.None?)
      && (pendingBody.InFlight? <==> body.None?)
    }

    /** And some part is missing. */
    ghost predicate Valid()
      reads this
    {
      SlotsOk() && (header.None? || body.None?)
    }

    /** The request for each missing part was polled since it was made. */
    ghost predicate Waiting()
      reads this
    {
      (pendingHeader.InFlight? ==> pendingHeader.polled) && (pendingBody.InFlight? ==> pendingBody.polled)
    }

    constructor (checks: Checks, blockHash: Hash)
      ensures Valid() && this.checks == checks && this.blockHash == blockHash
    {
      this.checks, this.blockHash := checks, blockHash;
      pendingHeader, pendingBody, header, body := InFlight(false), InFlight(false), None, None;
    }

    method OnHeaderResponse(response: Reply<Header>)
      modifies this`header
      ensures header ==
        if response.Got? && response.value.hash == blockHash then Some(response.value) else old(header)
    {
      if response.Got? && response.value.hash == blockHash {
        header := Some(response.value);
      }
    }

    method OnBodyResponse(response: Reply<Body>)
      modifies this`body
      ensures body == if response.Got? then Some(response.value) else old(body)
    {
      if response.Got? {
        body := Some(response.value);
      }
    }

    ghost predicate RightHeader(reply: Reply<Header>) {
      reply.Got? && reply.value.hash == blockHash
    }

    ghost predicate RightBody(reply: Reply<Body>, header: Header) {
      reply.Got? && checks.bodyOk(reply.value, header)
    }

    /** The header is the first right one among the replies. */
    ghost predicate FirstRight(replies: seq<Reply<Header>>, header: Header) {
      exists n :: 0 <= n < |replies| && replies[n] == Got(header) && header.hash == blockHash
        && forall i | 0 <= i < n :: !RightHeader(replies[i])
    }

    /** The header was there before, or is the first right one among the replies. */
    ghost predicate HeaderFrom(before: Option<Header>, replies: seq<Reply<Header>>, header: Header) {
      if before.Some? then before == Some(header) else FirstRight(replies, header)
    }

    ghost predicate BodyFrom(before: Option<Body>, replies: seq<Reply<Body>>, body: Body) {
      before == Some(body) || Got(body) in replies
    }

    /** Polls the header request, if there is one; a reply without the header makes for a new request. */
    method PollHeader(replies: seq<Reply<Header>>) returns (left: seq<Reply<Header>>, retry: bool)
      requires SlotsOk()
      modifies this`header, this`pendingHeader
      ensures SlotsOk()
      ensures pendingHeader.InFlight? && !retry ==> pendingHeader.polled
      ensures old(header).Some? ==> header == old(header) && left == replies && !retry
      ensures old(header).None? && replies == [] ==> header.None? && left == [] && !retry
      ensures old(header).None? && replies != [] ==>
        && left == replies[1..] && (retry <==> header.None?)
        && header == if RightHeader(replies[0]) then Some(replies[0].value) else None
    {
      left, retry := replies, false;
      if pendingHeader.InFlight? {
        pendingHeader := InFlight(true);
        if left != [] {
          pendingHeader := Idle;
          OnHeaderResponse(left[0]);
          left := left[1..];
          if header.None? {
            pendingHeader := InFlight(false);
            retry := true;
          }
        }
      }
    }

    /** Polls the body request, if there is one; a reply without a body makes for a new request. */
    method PollBody(replies: seq<Reply<Body>>) returns (left: seq<Reply<Body>>, retry: bool)
      requires SlotsOk()
      modifies this`body, this`pendingBody
      ensures SlotsOk()
      ensures pendingBody.InFlight? && !retry ==> pendingBody.polled
      ensures old(body).Some? ==> body == old(body) && left == replies && !retry
      ensures old(body).None? && replies == [] ==> body.None? && left == [] && !retry
      ensures old(body).None? && replies != [] ==>
        && left == replies[1..] && (retry <==> body.None?)
        && body == if replies[0].Got? then Some(replies[0].value) else None
    {
      left, retry := replies, false;
      if pendingBody.InFlight? {
        pendingBody := InFlight(true);
        if left != [] {
          pendingBody := Idle;
          OnBodyResponse(left[0]);
          left := left[1..];
          if body.None? {
            pendingBody := InFlight(false);
            retry := true;
          }
        }
      }
    }

    /** Puts header and body together, if both are there; a body that does not check out makes for a new request. */
    method Join() returns (r: Option<SealedBlock>, retry: bool)
      requires SlotsOk()
      modifies this
      ensures r.Some? ==> !retry && r.value.header.hash == blockHash && checks.bodyOk(r.value.body, r.value.header)
      ensures r.Some? ==> old(header) == Some(r.value.header) && old(body) == Some(r.value.body)
      ensures r.None? ==> Valid() && header == old(header) && pendingHeader == old(pendingHeader)
      ensures r.None? && !retry ==> body == old(body) && pendingBody == old(pendingBody)
      ensures retry ==> header.Some? && body.None? && old(body).Some? && !checks.bodyOk(old(body).value, header.value)
    {
      if header.Some? && body.Some? {
        var taken := SealedBlock(header.value, body.value);
        header, body := None, None;
        if !checks.bodyOk(taken.body, taken.header) {
          header := Some(taken.header);
          pendingBody := InFlight(false);
          return None, true;
        }
        return Some(taken), false;
      }
      return None, false;
    }

    /**
     * Polls with the replies that have arrived: resolves to a block with the requested hash and a body that
     * checks out against it, or waits with every missing part's request polled, no reply left for it, and no
     * right header, or no body for the header, among the replies. Header and body were there before or are among
     * the replies, and the header is the first right one.
     */
    method Poll(headerReplies: seq<Reply<Header>>, bodyReplies: seq<Reply<Body>>)
      returns (r: Option<SealedBlock>, headersLeft: seq<Reply<Header>>, bodiesLeft: seq<Reply<Body>>)
      requires Valid()
      modifies this
      ensures r.Some? ==> r.value.header.hash == blockHash && checks.bodyOk(r.value.body, r.value.header)
      ensures r.Some? ==>
        && HeaderFrom(old(header), headerReplies, r.value.header) && BodyFrom(old(body), bodyReplies, r.value.body)
      ensures r.None? && header.Some? ==> HeaderFrom(old(header), headerReplies, header.value)
      ensures r.None? && body.Some? ==> BodyFrom(old(body), bodyReplies, body.value)
      ensures r.None? ==>
        && Valid() && Waiting()
        && (header.None? ==> headersLeft == []) && (body.None? ==> bodiesLeft == [])
        && (header.None? ==> forall i | 0 <= i < |headerReplies| :: !RightHeader(headerReplies[i]))
        && (header.Some? ==> forall i | 0 <= i < |bodyReplies| :: !RightBody(bodyReplies[i], header.value))
      ensures |headersLeft| <= |headerReplies| && |bodiesLeft| <= |bodyReplies|
    {
      headersLeft, bodiesLeft := headerReplies, bodyReplies;
      ghost var h, b := 0, 0;
      while true
        invariant Valid()
        invariant 0 <= h <= |headerReplies| && headersLeft == headerReplies[h..]
        invariant 0 <= b <= |bodyReplies| && bodiesLeft == bodyReplies[b..]
        invariant header.None? ==> old(header).None? && forall i | 0 <= i < h :: !RightHeader(headerReplies[i])
        invariant header.Some? ==> HeaderFrom(old(header), headerReplies, header.value)
        invariant body.Some? ==> BodyFrom(old(body), bodyReplies, body.value)
        invariant header.Some? ==> forall i | 0 <= i < b :: !RightBody(bodyReplies[i], header.value)
        invariant header.None? ==> forall i | 0 <= i < b && bodyReplies[i].Got? :: body == Some(bodyReplies[i].value)
        invariant |headersLeft| <= |headerReplies| && |bodiesLeft| <= |bodyReplies|
        decreases |headersLeft| + |bodiesLeft|
      {
        var retry;
        headersLeft, retry := PollHeader(headersLeft);
        h := |headerReplies| - |headersLeft|;
        if retry {
          continue;
        }
        bodiesLeft, retry := PollBody(bodiesLeft);
        b := |bodyReplies| - |bodiesLeft|;
        if retry {
          continue;
        }
        r, retry := Join();
        if !retry {
          return r, headersLeft, bodiesLeft;
        }
      }
    }
  }

  class FetchHeadersRangeFuture {
    const startHash: Hash
    const limit: nat
    const checks: Checks
    var pending: Slot

    ghost predicate Valid()
      reads this
    {
      limit > 0 && pending.InFlight?
    }

    constructor (checks: Checks, startHash: Hash, limit: nat)
      requires limit > 0
      ensures Valid() && this.checks == checks && this.startHash == startHash && this.limit == limit
    {
      this.checks, this.startHash, this.limit := checks, startHash, limit;
      pending := InFlight(false);
    }

    /** The headers of a response that is long enough, starts at the requested hash and is linked downwards. */
    method OnResponse(response: Reply<seq<Header>>) returns (r: Option<seq<Header>>)
      requires limit > 0
      ensures r.Some? <==>
        && response.Got? && |response.value| >= limit && response.value[0].hash == startHash
        && FallingChain(checks, response.value)
      ensures r.Some? ==> r.value == response.value
    {
      if !response.Got? || |response.value| < limit || response.value[0].hash != startHash {
        return None;
      }
      var falling := response.value;
      // Validates from the lowest header upwards.
      var i := |falling| - 1;
      if !checks.headerOk(falling[i]) {
        return None;
      }
      while i > 0
        invariant 0 <= i < |falling|
        invariant forall j | i <= j < |falling| :: checks.headerOk(falling[j])
        invariant forall j | i < j < |falling| :: LinkOk(checks, falling[j - 1], falling[j])
      {
        if !checks.headerOk(falling[i - 1]) || !LinkOk(checks, falling[i - 1], falling[i]) {
          return None;
        }
        i := i - 1;
      }
      return Some(falling);
    }

    /** Long enough, starts at the requested hash, and is linked downwards. */
    ghost predicate Acceptable(reply: Reply<seq<Header>>)
      requires limit > 0
    {
      && reply.Got? && |reply.value| >= limit && reply.value[0].hash == startHash
      && FallingChain(checks, reply.value)
    }

    /** The first n replies are not acceptable. */
    ghost predicate NoneAcceptable(replies: seq<Reply<seq<Header>>>, n: nat)
      requires limit > 0 && n <= |replies|
    {
      forall i | 0 <= i < n :: !Acceptable(replies[i])
    }

    /** Polls with the replies that have arrived; resolves to the first acceptable one. */
    method Poll(replies: seq<Reply<seq<Header>>>) returns (r: Option<seq<Header>>)
      requires Valid()
      modifies this
      ensures r.Some? ==>
        |r.value| >= limit && r.value[0].hash == startHash && FallingChain(checks, r.value) && Got(r.value) in replies
      ensures r.Some? ==>
        exists n :: 0 <= n < |replies| && replies[n] == Got(r.value) && NoneAcceptable(replies, n)
      ensures r.None? ==> Valid() && pending.polled && NoneAcceptable(replies, |replies|)
    {
      var left := replies;
      ghost var used := 0;
      while true
        invariant Valid() && used <= |replies| && left == replies[used..]
        invariant NoneAcceptable(replies, used)
        decreases |left|
      {
        pending := InFlight(true);
        if left == [] {
          return None;
        }
        r := OnResponse(left[0]);
        if r.Some? {
          assert replies[used] == left[0] && left[0] == Got(r.value);
          return;
        }
        pending := InFlight(false);
        left := left[1..];
        used := used + 1;
      }
    }
  }

  class FetchFullBlockWithAncestorsFuture {
    const blockHash: Hash
    const ancestorCount: nat
    const checks: Checks
    const fullBlock: FetchFullBlockFuture
    /** The downloaded block and the download of its ancestors, once the block is there. */
    var block: Option<SealedBlock>
    var ancestors: FetchHeadersRangeFuture?

    ghost predicate Valid()
      reads this, fullBlock, ancestors
    {
      && ancestorCount > 0 && fullBlock.blockHash == blockHash && fullBlock.checks == checks
      && (block.Some? <==> ancestors != null)
      && (block.None? ==> fullBlock.Valid())
      && (block.Some? ==>
            && block.value.header.hash == blockHash && checks.bodyOk(block.value.body, block.value.header)
            && ancestors.Valid() && ancestors.startHash == block.value.header.parent
            && ancestors.limit == ancestorCount && ancestors.checks == checks)
    }

    /** Exactly the request for what is missing now is in flight, and it was polled. */
    ghost predicate Waiting()
      reads this, fullBlock, ancestors
    {
      if ancestors == null then fullBlock.Waiting() else ancestors.pending == InFlight(true)
    }

    constructor (checks: Checks, blockHash: Hash, ancestorCount: nat)
      requires ancestorCount > 0
      ensures Valid() && fresh(fullBlock) && ancestors == null
      ensures this.checks == checks && this.blockHash == blockHash && this.ancestorCount == ancestorCount
    {
      this.checks, this.blockHash, this.ancestorCount := checks, blockHash, ancestorCount;
      fullBlock := new FetchFullBlockFuture(checks, blockHash);
      block, ancestors := None, null;
    }

    /**
     * Resolves to a block with the requested hash and a matching body, and at least the requested number of
     * ancestors, linked downwards from the block's parent hash.
     */
    method Poll(headerReplies: seq<Reply<Header>>, bodyReplies: seq<Reply<Body>>, rangeReplies: seq<Reply<seq<Header>>>)
      returns (r: Option<(SealedBlock, seq<Header>)>)
      requires Valid()
      modifies this, fullBlock, ancestors
      ensures r.Some? ==>
        && r.value.0.header.hash == blockHash && checks.bodyOk(r.value.0.body, r.value.0.header)
        && |r.value.1| >= ancestorCount && r.value.1[0].hash == r.value.0.header.parent
        && FallingChain(checks, r.value.1)
      ensures r.Some? ==> Got(r.value.1) in rangeReplies
      ensures r.Some? ==>
        if old(block).Some? then r.value.0 == old(block).value
        else
          && fullBlock.HeaderFrom(old(fullBlock.header), headerReplies, r.value.0.header)
          && fullBlock.BodyFrom(old(fullBlock.body), bodyReplies, r.value.0.body)
      ensures r.None? ==> Valid() && Waiting()
      ensures r.None? && old(block).Some? ==> block == old(block)
      ensures r.None? && ancestors != null ==> ancestors.NoneAcceptable(rangeReplies, |rangeReplies|)
      ensures r.None? && ancestors == null ==>
        && (fullBlock.header.None? ==> forall i | 0 <= i < |headerReplies| :: !fullBlock.RightHeader(headerReplies[i]))
        && (fullBlock.header.Some? ==>
              forall i | 0 <= i < |bodyReplies| :: !fullBlock.RightBody(bodyReplies[i], fullBlock.header.value))
    {
      if ancestors == null {
        var fetched, headersLeft, bodiesLeft := fullBlock.Poll(headerReplies, bodyReplies);
        if fetched.None? {
          return None;
        }
        block := fetched;
        ancestors := new FetchHeadersRangeFuture(checks, fetched.value.header.parent, ancestorCount);
      }
      var headers := ancestors.Poll(rangeReplies);
      if headers.None? {
        return None;
      }
      return Some((block.value, headers.value));
    }
  }

  /**
   * What the download resolves to is the lineage of a checkpoint exactly when the block is numbered one above
   * its first ancestor: the download checks the numbers among the ancestors, but not the block's own.
   */
  lemma DownloadedLineage(w: World, checks: Checks, block: Header, ancestors: seq<Header>)
    requires Known(w, map[block.hash := block])
    requires forall i | 0 <= i < |ancestors| ::
      ancestors[i].hash in w.headers && w.headers[ancestors[i].hash] == ancestors[i]
    requires ancestors != [] && ancestors[0].hash == block.parent && FallingChain(checks, ancestors)
    ensures Lineage(w, block, ancestors) <==> block.number == ancestors[0].number + 1
    ensures |ancestors| >= BLOCK_HASH_WINDOW ==>
      (CheckpointOk(w, block, ancestors) <==> block.number == ancestors[0].number + 1)
  {
    assert block.hash in map[block.hash := block];
    forall i | 0 < i < |ancestors|
      ensures ancestors[i - 1].parent == ancestors[i].hash && ancestors[i - 1].number == ancestors[i].number + 1
    {
      assert LinkOk(checks, ancestors[i - 1], ancestors[i]);
    }
  }
}
