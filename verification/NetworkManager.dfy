/**
 Forwarding requests to peer connections in rotation.
 */
module NetworkManagers {
  type Connection = nat
  type Request = nat

  /** A request handed to a connection, and the moment of it. */
  datatype Delivery = Delivery(connection: Connection, request: Request, moment: nat)

  /** The connections from the first open one on. */
  function SkipClosed(connections: seq<Connection>, open: Connection -> bool): seq<Connection>
  {
    if connections == [] || open(connections[0]) then connections else SkipClosed(connections[1..], open)
  }

  lemma {:induction false} SkipClosedShrinks(connections: seq<Connection>, open: Connection -> bool)
    ensures |SkipClosed(connections, open)| <= |connections|
    ensures SkipClosed(connections, open) != [] ==> open(SkipClosed(connections, open)[0])
    ensures forall c :: c in SkipClosed(connections, open) ==> c in connections
    ensures SkipClosed(connections, open) == [] <==> forall c :: c in connections ==> !open(c)
    ensures forall c :: c in connections && open(c) ==> c in SkipClosed(connections, open)
    decreases |connections|
  {
    if connections != [] {
      assert connections == [connections[0]] + connections[1..];
      SkipClosedShrinks(connections[1..], open);
    }
  }

  /** The manager's queues, and everything delivered so far. */
  datatype Queues = Queues(connections: seq<Connection>, pending: seq<Request>, delivered: seq<Delivery>)

  /** Delivers to the first open connection, which goes to the back; closed ones are dropped on the way. */
  function Deliver(q: Queues, request: Request, open: Connection -> bool, now: nat): Queues
  {
    var live := SkipClosed(q.connections, open);
    if live == [] then Queues([], q.pending + [request], q.delivered)
    else Queues(live[1..] + [live[0]], q.pending, q.delivered + [Delivery(live[0], request, now)])
  }

  /** The requests of a delivery log. */
  function Requests(delivered: seq<Delivery>): seq<Request>
  {
    seq(|delivered|, i requires 0 <= i < |delivered| => delivered[i].request)
  }

  /** Everything ever handed in: delivered or still pending. */
  function Accounted(q: Queues): multiset<Request>
  {
    multiset(Requests(q.delivered)) + multiset(q.pending)
  }

  /** Which connections are open at a given moment. */
  function At(open: (nat, Connection) -> bool, now: nat): Connection -> bool
  {
    (c: Connection) => open(now, c)
  }

  /** Each delivery since `start` went to a known connection that was open at that moment. */
  ghost predicate Served(start: nat, q: Queues, known: seq<Connection>, open: (nat, Connection) -> bool)
  {
    && start <= |q.delivered| && (forall c :: c in q.connections ==> c in known)
    && forall i :: start <= i < |q.delivered| ==>
                     q.delivered[i].connection in known && open(q.delivered[i].moment, q.delivered[i].connection)
  }

  /**
   A request is delivered to one open connection, or kept pending once every connection turned out
   closed. Connections are only dropped when they are closed.
   */
  lemma DeliverConserves(q: Queues, request: Request, open: Connection -> bool, now: nat)
    ensures var w := Deliver(q, request, open, now);
            && Accounted(w) == Accounted(q) + multiset{request} && q.delivered <= w.delivered
            && (forall c :: c in w.connections ==> c in q.connections) && |w.connections| <= |q.connections|
            && (forall c :: c in q.connections && open(c) ==> c in w.connections)
            && if exists c :: c in q.connections && open(c)
               then exists c :: c in q.connections && open(c) &&
                                w.delivered == q.delivered + [Delivery(c, request, now)]
               else w == Queues([], q.pending + [request], q.delivered)
  {
    SkipClosedShrinks(q.connections, open);
    var live := SkipClosed(q.connections, open);
    if live != [] {
      assert live == [live[0]] + live[1..];
      assert Requests(q.delivered + [Delivery(live[0], request, now)]) == Requests(q.delivered) + [request];
    }
  }

  /** Every known connection that is open all the time is kept. */
  ghost predicate Keeps(q: Queues, known: seq<Connection>, open: (nat, Connection) -> bool)
  {
    forall c :: c in known && (forall m: nat :: open(m, c)) ==> c in q.connections
  }

  lemma DeliverKeeps(q: Queues, request: Request, known: seq<Connection>, open: (nat, Connection) -> bool, now: nat)
    requires Keeps(q, known, open)
    ensures Keeps(Deliver(q, request, At(open, now), now), known, open)
  {
    DeliverConserves(q, request, At(open, now), now);
  }

  lemma DeliverKeepsAll(q: Queues, request: Request, open: (nat, Connection) -> bool, now: nat)
    ensures forall s :: Keeps(q, s, open) ==> Keeps(Deliver(q, request, At(open, now), now), s, open)
  {
    forall s | Keeps(q, s, open)
      ensures Keeps(Deliver(q, request, At(open, now), now), s, open)
    {
      DeliverKeeps(q, request, s, open, now);
    }
  }

  lemma DeliverServed(start: nat, q: Queues, request: Request, known: seq<Connection>, open: (nat, Connection) -> bool,
                      now: nat)
    requires Served(start, q, known, open)
    ensures Served(start, Deliver(q, request, At(open, now), now), known, open)
  {
    DeliverConserves(q, request, At(open, now), now);
    var d := Deliver(q, request, At(open, now), now).delivered;
    forall i | |q.delivered| <= i < |d|
      ensures d[i].connection in known && open(d[i].moment, d[i].connection)
    {
      assert At(open, now)(d[i].connection) && d[i].moment == now;
    }
  }

  /** Consecutive requests while the same connections stay open. */
  function DeliverAll(q: Queues, requests: seq<Request>, open: Connection -> bool, now: nat): Queues
    decreases |requests|
  {
    if requests == [] then q else DeliverAll(Deliver(q, requests[0], open, now), requests[1..], open, now + 1)
  }

  function Paired(connections: seq<Connection>, requests: seq<Request>, now: nat): seq<Delivery>
    requires |connections| == |requests|
  {
    seq(|requests|, i requires 0 <= i < |requests| => Delivery(connections[i], requests[i], now + i))
  }

  /** While every connection stays open, k requests go to the k connections at the front, one each. */
  lemma {:induction false} RotationIsFair(q: Queues, front: seq<Connection>, back: seq<Connection>,
                                          requests: seq<Request>,
                                          open: Connection -> bool, now: nat)
    requires q.connections == front + back && |requests| == |front| && forall c :: c in q.connections ==> open(c)
    ensures DeliverAll(q, requests, open, now) ==
            Queues(back + front, q.pending, q.delivered + Paired(front, requests, now))
    decreases |requests|
  {
    if requests == [] {
      assert front == [] && back + front == q.connections && q.delivered + Paired(front, requests, now) == q.delivered;
    } else {
      var first, rest := front[0], front[1..];
      assert q.connections[0] == first && first in q.connections;
      var next := Deliver(q, requests[0], open, now);
      assert next.connections == rest + (back + [first]);
      RotationIsFair(next, rest, back + [first], requests[1..], open, now + 1);
      assert back + [first] + rest == back + front;
      assert [Delivery(first, requests[0], now)] + Paired(rest, requests[1..], now + 1) == Paired(front, requests, now);
      assert q.delivered + [Delivery(first, requests[0], now)] + Paired(rest, requests[1..], now + 1) ==
             q.delivered + Paired(front, requests, now);
    }
  }

  /** Since `start`, exactly the first `count` new requests came in, and every delivery was in order. */
  ghost predicate Serving(start: Queues, requests: seq<Request>, count: nat, q: Queues, known: seq<Connection>,
                          open: (nat, Connection) -> bool)
    requires count <= |requests|
  {
    && Accounted(q) == Accounted(start) + multiset(requests[..count])
    && start.delivered <= q.delivered && Served(|start.delivered|, q, known, open)
  }

  lemma CountNext(requests: seq<Request>, i: nat)
    requires i < |requests|
    ensures multiset(requests[..i + 1]) == multiset(requests[..i]) + multiset{requests[i]}
  {
    assert requests[..i + 1] == requests[..i] + [requests[i]];
  }

  class NetworkManager {
    var connections: seq<Connection>
    var pending: seq<Request>
    var delivered: seq<Delivery>

    ghost function View(): Queues
      reads this
    {
      Queues(connections, pending, delivered)
    }

    constructor ()
      ensures View() == Queues([], [], [])
    {
      connections, pending, delivered := [], [], [];
    }

    method OnPeerRequest(request: Request, open: Connection -> bool, now: nat)
      modifies this
      ensures View() == Deliver(old(View()), request, open, now)
    {
      while connections != []
        invariant SkipClosed(connections, open) == SkipClosed(old(connections), open)
        invariant pending == old(pending) && delivered == old(delivered)
        decreases |connections|
      {
        var connection := connections[0];
        connections := connections[1..];
        if open(connection) {
          delivered := delivered + [Delivery(connection, request, now)];
          connections := connections + [connection];
          return;
        }
      }
      pending := pending + [request];
    }

    /** Hands the oldest pending request out again; either it is delivered or no connection is left. */
    method RetryPending(open: Connection -> bool, now: nat)
      requires connections != [] && pending != []
      modifies this
      ensures View() == Deliver(old(View()).(pending := old(pending)[1..]), old(pending)[0], open, now)
      ensures Accounted(View()) == Accounted(old(View())) && old(delivered) <= delivered
      ensures |connections| + |pending| < |old(connections)| + |old(pending)|
    {
      var request := pending[0];
      assert pending == [request] + pending[1..];
      pending := pending[1..];
      DeliverConserves(View(), request, open, now);
      OnPeerRequest(request, open, now);
    }

    method Establish(connection: Connection)
      modifies this`connections
      ensures View() == old(View()).(connections := old(connections) + [connection])
    {
      connections := connections + [connection];
    }

    /** Serves one request: the oldest pending one, or else the next new one. */
    method ServeOne(requests: seq<Request>, count: nat, open: (nat, Connection) -> bool, now: nat,
                    ghost start: Queues, ghost known: seq<Connection>) returns (next: nat)
      requires count <= |requests| && Serving(start, requests, count, View(), known, open)
      requires (connections != [] && pending != []) || count < |requests|
      modifies this
      ensures next == if old(connections) != [] && old(pending) != [] then count else count + 1
      ensures Serving(start, requests, next, View(), known, open)
      ensures forall s :: Keeps(old(View()), s, open) ==> Keeps(View(), s, open)
      ensures next == count ==> |connections| + |pending| < |old(connections)| + |old(pending)|
    {
      if connections != [] && pending != [] {
        DeliverServed(|start.delivered|, View().(pending := pending[1..]), pending[0], known, open, now);
        DeliverKeepsAll(View().(pending := pending[1..]), pending[0], open, now);
        RetryPending(At(open, now), now);
        next := count;
      } else {
        CountNext(requests, count);
        DeliverServed(|start.delivered|, View(), requests[count], known, open, now);
        DeliverKeepsAll(View(), requests[count], open, now);
        DeliverConserves(View(), requests[count], At(open, now), now);
        OnPeerRequest(requests[count], At(open, now), now);
        next := count + 1;
      }
    }

    /**
     One poll: serves everything the two channels hold. Whether a connection is open may change
     from one request to the next. It never goes idle with both a connection and a pending request.
     */
    method Poll(established: seq<Connection>, requests: seq<Request>, open: (nat, Connection) -> bool)
      modifies this
      ensures connections == [] || pending == []
      ensures Accounted(View()) == Accounted(old(View())) + multiset(requests)
      ensures old(delivered) <= delivered
      ensures Served(|old(delivered)|, View(), old(connections) + established, open)
      ensures Keeps(View(), old(connections) + established, open)
    {
      var event, next, clock := 0, 0, 0;
      ghost var known, start := connections + established, View();
      while (connections != [] && pending != []) || event < |established| || next < |requests|
        invariant event <= |established| && next <= |requests|
        invariant Serving(start, requests, next, View(), known, open)
        invariant Keeps(View(), old(connections) + established[..event], open)
        decreases |established| - event + |requests| - next, |connections| + |pending|
      {
        if !(connections != [] && pending != []) && event < |established| {
          assert established[..event + 1] == established[..event] + [established[event]];
          Establish(established[event]);
          event := event + 1;
        } else {
          next := ServeOne(requests, next, open, clock, start, known);
          clock := clock + 1;
        }
      }
      assert requests[..|requests|] == requests && established[..|established|] == established;
    }
  }
}
