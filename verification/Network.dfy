/** The network manager: every request goes to one open connection, in rotation, or waits. */
module Network {

  type PeerId = nat
  type RequestId = nat

  /** A handle: a peer may have several, each with a channel of its own. */
  datatype Connection = Connection(peer: PeerId, channel: nat)

  datatype Delivery = Delivery(request: RequestId, to: Connection)

  /** What arrives while the manager is polled. */
  datatype Arrival = Established(connection: Connection) | Requested(request: RequestId)

  ghost function Delivered(log: seq<Delivery>): multiset<RequestId> {
    multiset(seq(|log|, i requires 0 <= i < |log| => log[i].request))
  }

  lemma DeliveredPush(log: seq<Delivery>, d: Delivery)
    ensures Delivered(log + [d]) == Delivered(log) + multiset{d.request}
  {
    var s := seq(|log|, i requires 0 <= i < |log| => log[i].request);
    var all := log + [d];
    assert seq(|all|, i requires 0 <= i < |all| => all[i].request) == s + [d.request];
  }

  /** The connections from the first open one on. */
  ghost function FirstOpen(connections: seq<Connection>, closed: set<Connection>): seq<Connection>
  {
    if connections == [] || connections[0] !in closed then connections else FirstOpen(connections[1..], closed)
  }

  /** Where one request ends up: the connections left, and who got it. */
  ghost function Route(connections: seq<Connection>, closed: set<Connection>): (seq<Connection>, seq<Connection>) {
    var open := FirstOpen(connections, closed);
    if open == [] then ([], []) else (open[1..] + [open[0]], [open[0]])
  }

  /** The connections after n requests. */
  ghost function After(connections: seq<Connection>, closed: set<Connection>, n: nat): seq<Connection>
    decreases n
  {
    if n == 0 then connections else After(Route(connections, closed).0, closed, n - 1)
  }

  ghost predicate AllOpen(connections: seq<Connection>, closed: set<Connection>) {
    && connections != []
    && (forall i | 0 <= i < |connections| :: connections[i] !in closed)
    && (forall i, j | 0 <= i < j < |connections| :: connections[i] != connections[j])
  }

  lemma {:induction false} AfterKeepsOpen(connections: seq<Connection>, closed: set<Connection>, n: nat)
    requires AllOpen(connections, closed)
    ensures AllOpen(After(connections, closed, n), closed) && |After(connections, closed, n)| == |connections|
    decreases n
  {
    if n > 0 {
      var next := connections[1..] + [connections[0]];
      AfterKeepsOpen(next, closed, n - 1);
    }
  }

  lemma {:induction false} AfterFewRequests(connections: seq<Connection>, closed: set<Connection>, n: nat)
    requires AllOpen(connections, closed) && n <= |connections|
    ensures After(connections, closed, n) == connections[n..] + connections[..n]
    decreases n
  {
    if n > 0 {
      var next := connections[1..] + [connections[0]];
      AfterKeepsOpen(connections, closed, 1);
      AfterFewRequests(next, closed, n - 1);
      assert next[n - 1..] + next[..n - 1] == connections[n..] + connections[..n];
    } else {
      assert connections[0..] + connections[..0] == connections;
    }
  }

  lemma {:induction false} AfterAdds(connections: seq<Connection>, closed: set<Connection>, m: nat, n: nat)
    ensures After(connections, closed, m + n) == After(After(connections, closed, m), closed, n)
    decreases m
  {
    if m > 0 {
      AfterAdds(Route(connections, closed).0, closed, m - 1, n);
    }
  }

  /** While none of n connections closes, any n consecutive requests go to n different connections. */
  lemma ConsecutiveRequestsSpread(connections: seq<Connection>, closed: set<Connection>, start: nat, i: nat, j: nat)
    requires AllOpen(connections, closed) && i < j < |connections|
    ensures
      var first := Route(After(connections, closed, start + i), closed).1;
      var second := Route(After(connections, closed, start + j), closed).1;
      first != [] && second != [] && first[0] != second[0]
  {
    var s := After(connections, closed, start);
    AfterKeepsOpen(connections, closed, start);
    AfterAdds(connections, closed, start, i);
    AfterAdds(connections, closed, start, j);
    AfterFewRequests(s, closed, i);
    AfterFewRequests(s, closed, j);
    AfterKeepsOpen(s, closed, i);
    AfterKeepsOpen(s, closed, j);
  }

  /** The requests among what arrived. */
  ghost function Requests(arrivals: seq<Arrival>): multiset<RequestId> {
    if arrivals == [] then multiset{}
    else RequestOf(arrivals[0]) + Requests(arrivals[1..])
  }

  ghost function RequestOf(arrival: Arrival): multiset<RequestId> {
    if arrival.Requested? then multiset{arrival.request} else multiset{}
  }

  lemma {:induction false} FirstOpenShrinks(connections: seq<Connection>, closed: set<Connection>)
    ensures |FirstOpen(connections, closed)| <= |connections|
    decreases |connections|
  {
    if connections != [] && connections[0] in closed {
      FirstOpenShrinks(connections[1..], closed);
    }
  }

  ghost predicate StaysOpen(c: Connection, closed: nat -> set<Connection>) {
    forall t: nat :: c !in closed(t)
  }

  /** No open connection is dropped. */
  lemma {:induction false} OpenStay(connections: seq<Connection>, closed: set<Connection>)
    ensures forall p | p in connections && p !in closed :: p in FirstOpen(connections, closed)
    ensures forall p | p in connections && p !in closed :: p in Route(connections, closed).0
    decreases |connections|
  {
    if connections != [] && connections[0] in closed {
      OpenStay(connections[1..], closed);
    }
  }

  /** What the manager holds, and what was accepted so far. */
  datatype Managed = Managed(connections: seq<Connection>, pending: seq<RequestId>, accepted: seq<Delivery>)

  /** One request is sent to the first open connection, or waits after those that wait already. */
  ghost function Sent(m: Managed, request: RequestId, closed: set<Connection>): Managed {
    var (connections, to) := Route(m.connections, closed);
    if to == [] then Managed(connections, m.pending + [request], m.accepted)
    else Managed(connections, m.pending, m.accepted + [Delivery(request, to[0])])
  }

  /** The first pending request is sent. */
  ghost function FirstSent(m: Managed, closed: set<Connection>): (r: Managed)
    requires m.connections != [] && m.pending != []
    ensures |r.pending| + |r.connections| < |m.pending| + |m.connections|
  {
    FirstOpenShrinks(m.connections, closed);
    Sent(m.(pending := m.pending[1..]), m.pending[0], closed)
  }

  ghost function Arrived(m: Managed, arrival: Arrival, closed: set<Connection>): Managed {
    match arrival
    case Established(connection) => m.(connections := m.connections + [connection])
    case Requested(request) => Sent(m, request, closed)
  }

  /** What a poll leads to: pending requests go out while there are connections, else the next arrival is handled. */
  ghost function Polled(m: Managed, arrivals: seq<Arrival>, closed: nat -> set<Connection>, t: nat): Managed
    decreases |arrivals|, |m.pending| + |m.connections|
  {
    if m.connections != [] && m.pending != [] then Polled(FirstSent(m, closed(t)), arrivals, closed, t + 1)
    else if arrivals != [] then Polled(Arrived(m, arrivals[0], closed(t)), arrivals[1..], closed, t + 1)
    else m
  }

  class RessNetworkManager {
    var connections: seq<Connection>
    var pendingRequests: seq<RequestId>
    /** Which request each connection accepted, in order. */
    var accepted: seq<Delivery>

    constructor ()
      ensures connections == [] && pendingRequests == [] && accepted == []
    {
      connections, pendingRequests, accepted := [], [], [];
    }

    /** All requests received: each is pending, or was accepted by one connection. */
    ghost function Received(): multiset<RequestId>
      reads this
    {
      multiset(pendingRequests) + Delivered(accepted)
    }

    ghost function Now(): Managed
      reads this
    {
      Managed(connections, pendingRequests, accepted)
    }

    /**
     * Sends a request to the first open connection, which goes to the back; closed ones are dropped. Without
     * an open connection the request waits.
     */
    method OnPeerRequest(request: RequestId, closed: set<Connection>)
      modifies this
      ensures Received() == old(Received()) + multiset{request}
      ensures connections == Route(old(connections), closed).0
      ensures var to := Route(old(connections), closed).1;
        && accepted == old(accepted) + (if to == [] then [] else [Delivery(request, to[0])])
        && pendingRequests == old(pendingRequests) + (if to == [] then [request] else [])
      ensures Now() == Sent(old(Now()), request, closed)
      ensures |connections| <= |old(connections)| && |pendingRequests| <= |old(pendingRequests)| + 1
      ensures |pendingRequests| > |old(pendingRequests)| ==> connections == []
      ensures forall p | p in old(connections) && p !in closed :: p in connections
    {
      FirstOpenShrinks(connections, closed);
      OpenStay(connections, closed);
      while connections != []
        invariant FirstOpen(connections, closed) == FirstOpen(old(connections), closed)
        invariant pendingRequests == old(pendingRequests) && accepted == old(accepted)
        decreases |connections|
      {
        var connection := connections[0];
        connections := connections[1..];
        if connection !in closed {
          DeliveredPush(accepted, Delivery(request, connection));
          accepted := accepted + [Delivery(request, connection)];
          connections := connections + [connection];
          return;
        }
      }
      pendingRequests := pendingRequests + [request];
    }

    /** Takes the first pending request and sends it. */
    method SendPending(closed: set<Connection>)
      requires connections != [] && pendingRequests != []
      modifies this
      ensures Received() == old(Received()) && Now() == FirstSent(old(Now()), closed)
      ensures |pendingRequests| + |connections| < |old(pendingRequests)| + |old(connections)|
      ensures forall p | p in old(connections) && p !in closed :: p in connections
    {
      var request := pendingRequests[0];
      assert pendingRequests == [request] + pendingRequests[1..];
      pendingRequests := pendingRequests[1..];
      assert old(Received()) == Received() + multiset{request};
      OnPeerRequest(request, closed);
    }

    /** Handles one arrival. */
    method OnArrival(arrival: Arrival, closed: set<Connection>)
      modifies this
      ensures Received() == old(Received()) + RequestOf(arrival) && Now() == Arrived(old(Now()), arrival, closed)
      ensures forall p | p in old(connections) && p !in closed :: p in connections
      ensures arrival.Established? ==> connections == old(connections) + [arrival.connection]
    {
      match arrival
      case Established(connection) => connections := connections + [connection];
      case Requested(request) => OnPeerRequest(request, closed);
    }

    /**
     * Polls with what has arrived: pending requests go out first while there are connections. Afterwards
     * there are no connections or no pending requests, no request got lost or was duplicated, and no connection
     * was dropped that stayed open. Connections may close at any time: closed(t) are those found closed when
     * the t-th request of the poll is sent.
     */
    method Poll(arrivals: seq<Arrival>, closed: nat -> set<Connection>)
      modifies this
      ensures Now() == Polled(old(Now()), arrivals, closed, 0)
      ensures Received() == old(Received()) + Requests(arrivals)
      ensures connections == [] || pendingRequests == []
      ensures forall c | (c in old(connections) || Established(c) in arrivals) && StaysOpen(c, closed) ::
        c in connections
    {
      var left, t: nat := arrivals, 0;
      while true
        invariant forall c | (c in old(connections) || Established(c) in arrivals) && StaysOpen(c, closed) ::
          c in connections || Established(c) in left
        invariant Received() + Requests(left) == old(Received()) + Requests(arrivals)
        invariant Polled(Now(), left, closed, t) == Polled(old(Now()), arrivals, closed, 0)
        decreases |left|, |pendingRequests| + |connections|
      {
        if connections != [] && pendingRequests != [] {
          SendPending(closed(t));
        } else if left != [] {
          OnArrival(left[0], closed(t));
          left := left[1..];
        } else {
          return;
        }
        t := t + 1;
      }
    }
  }
}
