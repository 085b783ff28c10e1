/** The single-writer rule behind a Netcode `NetworkVariable` that only the server
    may write, as NetworkMeshChanger.cs and NetworkColorChanger.cs use it: the
    server's copy is authoritative, a client's write becomes a request the server
    serves later, and every change the server makes is queued for every client,
    which copies it into its mirror on delivery. Peer 0 is the server (the host). */
module Replication {

  /** One replicated variable across a session of `|values|` peers. */
  datatype Channel<T> = Channel(
    values: seq<T>,          // each peer's copy; values[0] is the server's
    requests: seq<T>,        // server RPCs sent by clients, not yet run
    inbox: seq<seq<T>>)      // per peer, changes sent by the server, not yet delivered

  /** The newest value a peer will hold once `pending` is delivered. */
  function Latest<T>(v: T, pending: seq<T>): T {
    if pending == [] then v else pending[|pending| - 1]
  }

  /** A session: at least the server, one inbox per peer, none for the server. */
  ghost predicate Session<T>(c: Channel<T>) {
    |c.values| >= 1 && |c.inbox| == |c.values| && c.inbox[0] == []
  }

  /** Every peer is on its way to the server's value: delivering what is queued for
      it would leave it holding exactly that value. */
  ghost predicate Converging<T>(c: Channel<T>) {
    Session(c) && forall p :: 0 <= p < |c.values| ==> Latest(c.values[p], c.inbox[p]) == c.values[0]
  }

  /** A fresh session: every peer holds the variable's initial value. */
  function Start<T>(peers: nat, initial: T): (c: Channel<T>)
    requires peers >= 1
    ensures Converging(c) && |c.values| == peers && c.requests == []
  {
    Channel(seq(peers, _ => initial), [], seq(peers, _ => []))
  }

  /** The server assigns `Value`: an equal value is ignored; a different one becomes
      the server's copy and is queued for every client. */
  function ServerSet<T(==)>(c: Channel<T>, v: T): Channel<T>
    requires Session(c)
  {
    if v == c.values[0] then c
    else Channel(c.values[0 := v], c.requests,
                 seq(|c.inbox|, p requires 0 <= p < |c.inbox| => if p == 0 then [] else c.inbox[p] + [v]))
  }

  /** A client calls a server RPC: the request is sent; no copy changes. */
  function Request<T>(c: Channel<T>, v: T): Channel<T> {
    c.(requests := c.requests + [v])
  }

  /** The server runs the oldest pending request: it assigns the requested value,
      whoever sent it. */
  function Serve<T(==)>(c: Channel<T>): Channel<T>
    requires Session(c) && c.requests != []
  {
    ServerSet(c.(requests := c.requests[1..]), c.requests[0])
  }

  /** Client `p` receives the oldest change queued for it. */
  function Deliver<T>(c: Channel<T>, p: nat): Channel<T>
    requires Session(c) && 1 <= p < |c.values| && c.inbox[p] != []
  {
    Channel(c.values[p := c.inbox[p][0]], c.requests, c.inbox[p := c.inbox[p][1..]])
  }

  /** The server's write takes effect at once, and every peer converges on it. */
  lemma ServerSetConverges<T>(c: Channel<T>, v: T)
    requires Converging(c)
    ensures Converging(ServerSet(c, v))
    ensures ServerSet(c, v).values[0] == v && ServerSet(c, v).requests == c.requests
    ensures forall p :: 1 <= p < |c.values| ==> ServerSet(c, v).values[p] == c.values[p]
  {
    if v != c.values[0] {
      var c' := ServerSet(c, v);
      forall p | 0 <= p < |c'.values| ensures Latest(c'.values[p], c'.inbox[p]) == v {
        if p != 0 {
          assert c'.inbox[p] == c.inbox[p] + [v];
        }
      }
    }
  }

  /** A client's write changes no copy, not even its own. */
  lemma RequestChangesNoCopy<T>(c: Channel<T>, v: T)
    requires Converging(c)
    ensures Converging(Request(c, v))
    ensures Request(c, v).values == c.values && Request(c, v).inbox == c.inbox
    ensures Request(c, v).requests == c.requests + [v]
  {
  }

  /** Serving a request makes it the server's value. */
  lemma ServeConverges<T>(c: Channel<T>)
    requires Converging(c) && c.requests != []
    ensures Converging(Serve(c))
    ensures Serve(c).values[0] == c.requests[0] && Serve(c).requests == c.requests[1..]
  {
    ServerSetConverges(c.(requests := c.requests[1..]), c.requests[0]);
  }

  /** Delivering one change keeps every peer converging and leaves the server alone. */
  lemma DeliverConverges<T>(c: Channel<T>, p: nat)
    requires Converging(c) && 1 <= p < |c.values| && c.inbox[p] != []
    ensures Converging(Deliver(c, p))
    ensures Deliver(c, p).values[0] == c.values[0]
    ensures |Deliver(c, p).inbox[p]| < |c.inbox[p]|
  {
    var c' := Deliver(c, p);
    assert Latest(c'.values[p], c'.inbox[p]) == Latest(c.values[p], c.inbox[p]);
  }

  /** Delivering everything queued for client `p`. */
  function DeliverAll<T>(c: Channel<T>, p: nat): (r: Channel<T>)
    requires Session(c) && 1 <= p < |c.values|
    ensures Session(r) && |r.values| == |c.values|
    decreases |c.inbox[p]|
  {
    if c.inbox[p] == [] then c else DeliverAll(Deliver(c, p), p)
  }

  /** Convergence: once everything queued for a client is delivered, its copy equals
      the server's, and the server's copy has not moved. */
  lemma {:induction false} DeliverAllConverges<T>(c: Channel<T>, p: nat)
    requires Converging(c) && 1 <= p < |c.values|
    ensures Converging(DeliverAll(c, p))
    ensures DeliverAll(c, p).values[p] == c.values[0] == DeliverAll(c, p).values[0]
    ensures DeliverAll(c, p).inbox[p] == []
    decreases |c.inbox[p]|
  {
    if c.inbox[p] != [] {
      DeliverConverges(c, p);
      DeliverAllConverges(Deliver(c, p), p);
    }
  }

  /** Serving every pending request, oldest first. */
  function ServeAll<T(==)>(c: Channel<T>): Channel<T>
    requires Session(c)
    decreases |c.requests|
  {
    if c.requests == [] then c else ServeAll(Serve(c))
  }

  /** Last writer wins: after the server has run all pending requests, its value is
      the newest request (or unchanged if there were none), and every peer is still
      converging on it. */
  lemma {:induction false} ServeAllLastWins<T>(c: Channel<T>)
    requires Converging(c)
    ensures Converging(ServeAll(c)) && ServeAll(c).requests == []
    ensures ServeAll(c).values[0] == Latest(c.values[0], c.requests)
    decreases |c.requests|
  {
    if c.requests != [] {
      ServeConverges(c);
      ServeAllLastWins(Serve(c));
      if |c.requests| > 1 {
        assert c.requests[1..][|c.requests| - 2] == c.requests[|c.requests| - 1];
      }
    }
  }
}
