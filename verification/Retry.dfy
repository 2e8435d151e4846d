/** Proxying with retries on other hosts of the cluster. */
module Retry {
  import opened Words
  import opened Balancer

  const BAD_GATEWAY: int := 502

  /** What one proxied attempt comes to: the status, and whether the context ended meanwhile. */
  datatype Reply = Reply(status: int, contextDone: bool)

  datatype Outcome = Unreadable | ContextDone | Responded(status: int) | GaveUp

  datatype Attempt = Attempt(host: Node, body: bytes)

  class Request {
    var body: bytes
    var target: Node

    constructor (b: bytes, t: Node)
      ensures body == b && target == t
    {
      body, target := b, t;
    }
  }

  class Scope {
    const cluster: Cluster
    const sticky: bool
    var host: Node

    constructor (c: Cluster, s: bool, h: Node)
      ensures cluster == c && sticky == s && host == h
    {
      cluster, sticky, host := c, s, h;
    }
  }

  /** No load in the cluster can reach 2^32 - 1: every node stays at or below `cap`. */
  predicate Roomy(c: Cluster, cap: nat) {
    c.Valid() && forall i :: 0 <= i < |c.replicas| ==> |c.replicas[i].hosts| * cap < MAX32
  }

  /** Node `n` can take one more connection and one more penalty within `cap`. */
  predicate Calm(n: Node, cap: nat)
    reads n
  {
    n.connections + n.penalty + n.penaltySize + 1 <= cap
  }

  lemma {:induction false} LoadsBounded(v: seq<HostView>, cap: nat)
    requires |v| * cap < MAX32 && forall i :: 0 <= i < |v| ==> v[i].load <= cap
    ensures ReplicaLoad(v) <= |v| * cap
  {
    if v != [] {
      var u := v[..|v| - 1];
      assert |v| * cap == |u| * cap + cap;
      LoadsBounded(u, cap);
    }
  }

  /** Within the cap nothing is saturated. */
  lemma RoomyIsUnsaturated(c: Cluster, cap: nat)
    requires Roomy(c, cap)
    requires forall n :: n in c.Nodes() ==> n.connections + n.penalty <= cap
    ensures Unsaturated(c.View())
  {
    forall i | 0 <= i < |c.replicas|
      ensures ReplicaLoad(c.View()[i]) < MAX32
      ensures forall j :: 0 <= j < |c.View()[i]| ==> c.View()[i][j].load < MAX32
    {
      var v := c.View()[i];
      var hosts := c.replicas[i].hosts;
      assert cap <= |v| * cap by {
        MulAtLeast(|v|, cap);
      }
      forall j | 0 <= j < |v| ensures v[j].load <= cap {
        assert hosts[j] in c.Nodes();
      }
      LoadsBounded(v, cap);
    }
  }

  /** The balancer returns an active host exactly when there is one. */
  lemma NextHostActive(c: Cluster, cap: nat, h: Node, i: nat, j: nat, rs: nat, hs: nat)
    requires Roomy(c, cap)
    requires forall n :: n in c.Nodes() ==> n.connections + n.penalty <= cap
    requires i < |c.replicas| && j < |c.replicas[i].hosts| && h == c.replicas[i].hosts[j]
    requires FirstLeast(ReplicaWeights(c.View()), rs, i) && FirstLeast(HostWeights(c.View()[i]), hs, j)
    ensures h.active <==> exists n :: n in c.Nodes() && n.active
  {
    RoomyIsUnsaturated(c, cap);
    PicksActive(c.View(), rs, i, hs, j);
    if n :| n in c.Nodes() && n.active {
      var x, y :| 0 <= x < |c.replicas| && 0 <= y < |c.replicas[x].hosts| && n == c.replicas[x].hosts[y];
      assert c.View()[x][y].active;
    }
    if h.active {
      assert h in c.Nodes();
    }
  }

  method PickNext(c: Cluster, ghost cap: nat) returns (next: Node)
    requires Roomy(c, cap)
    requires forall n :: n in c.Nodes() ==> n.connections + n.penalty <= cap
    modifies c`nextReplicaIdx, c.replicas`nextHostIdx
    ensures next in c.Nodes()
    ensures next.active <==> exists n :: n in c.Nodes() && n.active
  {
    var i, j;
    next, i, j := c.GetHost();
    NextHostActive(c, cap, next, i, j, c.nextReplicaIdx % |c.replicas|,
                   c.replicas[i].nextHostIdx % |c.replicas[i].hosts|);
  }

  /** The state of the cluster while the hosts in `tried` have been tried: all of them but the
      current one are inactive, and the others are as they were. */
  predicate InTrial(s: Scope, cap: nat, tried: set<Node>)
    reads s, s.cluster.Nodes()
  {
    && Roomy(s.cluster, cap)
    && s.host in tried && tried <= s.cluster.Nodes()
    && (forall n :: n in tried && n != s.host ==> !n.active)
    && (forall n :: n in s.cluster.Nodes() && n !in tried ==> Calm(n, cap))
    && (forall n :: n in tried ==> n.connections + n.penalty <= cap)
    && s.host.connections + s.host.penalty + s.host.penaltySize <= cap
    && s.host.connections > 0
  }

  lemma CapSmall(c: Cluster, cap: nat)
    requires Roomy(c, cap)
    ensures cap < MAX32
  {
    MulAtLeast(|c.replicas[0].hosts|, cap);
  }

  /** A penalty after one more: the size is added unless the maximum is reached. */
  function Raised(penalty: int, n: Node): int {
    if penalty < n.penaltyMaxSize then penalty + n.penaltySize else penalty
  }

  /** What a node was like before the request. */
  datatype Was = Was(penalty: int, active: bool)

  /** Penalises a failed node and takes it out of rotation. */
  method TakeOut(n: Node, ghost cap: nat)
    requires n.connections + n.penalty + n.penaltySize <= cap < MAX32
    modifies n`active, n`penalty
    ensures !n.active && n.penalty == Raised(old(n.penalty), n)
  {
    if n.penalty < n.penaltyMaxSize {
      WordFollows(n.penalty, Add32(n.penalty, n.penaltySize), n.penaltySize);
    }
    var armed := n.Penalize();
    n.SetIsActive(false);
  }

  /** Moves one connection unit. */
  method MoveConnection(from: Node, to: Node)
    requires from.connections > 0 && to.connections < MAX32 && from != to
    modifies from`connections, to`connections
    ensures from.connections == old(from.connections) - 1
    ensures to.connections == old(to.connections) + 1
  {
    from.DecrementConnections();
    to.IncrementConnections();
  }

  /** The reaction to a 502: penalise the host, take it out of rotation, and move the request
      with its connection to another active host if it may be retried. */
  method FailOver(s: Scope, req: Request, mayRetry: bool, ghost cap: nat, ghost tried: set<Node>) returns (retry: bool)
    requires InTrial(s, cap, tried)
    modifies s`host, req`target, s.cluster`nextReplicaIdx, s.cluster.replicas`nextHostIdx, s.cluster.Nodes()
    ensures !old(s.host).active && old(s.host).penalty == Raised(old(s.host.penalty), old(s.host))
    ensures retry ==> mayRetry && !s.sticky && s.host !in tried && req.target == s.host
    ensures retry ==> s.host in s.cluster.Nodes() && s.host.active
    ensures !retry ==> s.host == old(s.host) && (!mayRetry || s.sticky || forall n :: n in s.cluster.Nodes() ==> !n.active)
    ensures forall n :: n in s.cluster.Nodes() && n != old(s.host) ==> n.active == old(n.active) && n.penalty == old(n.penalty)
    ensures forall n :: n in s.cluster.Nodes() ==>
              n.connections == old(n.connections) +
                (if retry && n == s.host then 1 else 0) - (if retry && n == old(s.host) then 1 else 0)
    ensures old(s.host).connections + old(s.host).penalty <= cap
  {
    CapSmall(s.cluster, cap);
    var current := s.host;
    TakeOut(current, cap);
    var next := PickNext(s.cluster, cap);
    retry := mayRetry && next.active && !s.sticky;
    if retry {
      if current != next {
        MoveConnection(current, next);
      }
      s.host := next;
      req.target := next;
    }
  }

  /** What the nodes were like before the request, the unit it holds apart, and which of them have
      failed since. */
  datatype Book = Book(base: map<Node, int>, was: map<Node, Was>, failed: set<Node>)

  /** Apart from the unit the request holds on its host, each node has the connections it had.  The
      nodes that failed have been penalised once and are inactive; the others are as before. */
  predicate Ledger(s: Scope, book: Book)
    reads s, s.cluster.Nodes()
  {
    forall n :: n in s.cluster.Nodes() ==>
      && n in book.base && n.connections == book.base[n] + (if n == s.host then 1 else 0)
      && n in book.was
      && n.penalty == (if n in book.failed then Raised(book.was[n].penalty, n) else book.was[n].penalty)
      && n.active == (book.was[n].active && n !in book.failed)
  }

  function Fails(book: Book, n: Node): Book {
    book.(failed := book.failed + {n})
  }

  /** `FailOver` keeps the trial going and the connection ledger exact. */
  method FailOverInTrial(s: Scope, req: Request, mayRetry: bool, ghost cap: nat, ghost tried: set<Node>,
                         ghost book: Book)
    returns (retry: bool)
    requires InTrial(s, cap, tried) && Ledger(s, book) && book.failed <= tried - {s.host}
    modifies s`host, req`target, s.cluster`nextReplicaIdx, s.cluster.replicas`nextHostIdx, s.cluster.Nodes()
    ensures Ledger(s, Fails(book, old(s.host)))
    ensures retry ==> mayRetry && s.host !in tried && req.target == s.host && InTrial(s, cap, tried + {s.host})
    ensures !retry ==> s.host == old(s.host) && (!mayRetry || s.sticky || forall n :: n in s.cluster.Nodes() ==> !n.active)
  {
    retry := FailOver(s, req, mayRetry, cap, tried);
  }

  /** Attempts on different hosts that all carried the same body, the first of them to `first`. */
  predicate CleanLog(log: seq<Attempt>, body: bytes, first: Node) {
    && (|log| > 0 ==> log[0].host == first)
    && (forall i :: 0 <= i < |log| ==> log[i].body == body)
    && (forall i, j :: 0 <= i < j < |log| ==> log[i].host != log[j].host)
  }

  lemma ExtendLog(log: seq<Attempt>, body: bytes, first: Node, host: Node, tried: set<Node>)
    requires CleanLog(log, body, first) && (log == [] ==> host == first)
    requires forall i :: 0 <= i < |log| ==> log[i].host in tried && log[i].host != host
    requires host in tried
    ensures CleanLog(log + [Attempt(host, body)], body, first)
    ensures forall i :: 0 <= i < |log| + 1 ==> (log + [Attempt(host, body)])[i].host in tried
  {
  }

  /** The request is ready to be sent to a host not tried before. */
  predicate Ready(s: Scope, req: Request, body: bytes, log: seq<Attempt>, first: Node, cap: nat, tried: set<Node>)
    reads s, req, s.cluster.Nodes()
  {
    && InTrial(s, cap, tried)
    && req.body == body && req.target == s.host
    && CleanLog(log, body, first) && (log == [] ==> s.host == first)
    && forall i :: 0 <= i < |log| ==> log[i].host in tried && log[i].host != s.host
  }

  datatype Option<T> = None | Some(value: T)

  /** The reaction to a 502 after the attempt was logged. */
  method AfterBadGateway(s: Scope, req: Request, mayRetry: bool,
                         ghost log: seq<Attempt>, ghost first: Node, ghost cap: nat, ghost tried: set<Node>,
                         ghost book: Book)
    returns (outcome: Option<Outcome>, ghost tried': set<Node>)
    requires InTrial(s, cap, tried) && Ledger(s, book) && book.failed <= tried - {s.host}
    requires CleanLog(log, req.body, first) && log != [] && forall i :: 0 <= i < |log| ==> log[i].host in tried
    modifies s`host, req`target, s.cluster`nextReplicaIdx, s.cluster.replicas`nextHostIdx, s.cluster.Nodes()
    ensures Ledger(s, Fails(book, old(s.host)))
    ensures outcome.None? ==> mayRetry && Ready(s, req, req.body, log, first, cap, tried')
    ensures outcome.None? ==> book.failed + {old(s.host)} <= tried' - {s.host}
    ensures outcome.Some? ==>
              && outcome.value == GaveUp && s.host == old(s.host)
              && (!mayRetry || s.sticky || forall n :: n in s.cluster.Nodes() ==> !n.active)
  {
    var retry := FailOverInTrial(s, req, mayRetry, cap, tried, book);
    if retry {
      outcome, tried' := None, tried + {s.host};
    } else {
      outcome, tried' := Some(GaveUp), tried;
    }
  }

  /** One attempt: send, restore the body, and decide how to go on. */
  method AttemptOnce(s: Scope, req: Request, body: bytes, reply: Reply, leftover: bytes, mayRetry: bool,
                     ghost log: seq<Attempt>, ghost first: Node, ghost cap: nat, ghost tried: set<Node>,
                     ghost book: Book)
    returns (outcome: Option<Outcome>, ghost log': seq<Attempt>, ghost tried': set<Node>, ghost book': Book)
    requires Ready(s, req, body, log, first, cap, tried) && Ledger(s, book) && book.failed <= tried - {s.host}
    modifies s`host, req, s.cluster`nextReplicaIdx, s.cluster.replicas`nextHostIdx, s.cluster.Nodes()
    ensures Ledger(s, book') && req.body == body
    ensures outcome.None? ==> book'.failed <= tried' - {s.host}
    ensures book' == if outcome == None || outcome == Some(GaveUp) then Fails(book, old(s.host)) else book
    ensures log' == log + [Attempt(old(s.host), body)] && CleanLog(log', body, first)
    ensures outcome.None? ==> mayRetry && reply == Reply(502, false) && Ready(s, req, body, log', first, cap, tried')
    ensures outcome.Some? ==>
              && s.host == old(s.host)
              && match outcome.value
                 case ContextDone => reply.contextDone
                 case Responded(status) => status == reply.status != 502
                 case GaveUp =>
                   && reply == Reply(502, false)
                   && (!mayRetry || s.sticky || forall n :: n in s.cluster.Nodes() ==> !n.active)
                 case Unreadable => false
  {
    ExtendLog(log, body, first, s.host, tried);
    log', tried', book' := log + [Attempt(req.target, req.body)], tried, book;
    req.body := leftover;
    req.body := body;
    if reply.contextDone {
      outcome := Some(ContextDone);
    } else if reply.status != BAD_GATEWAY {
      outcome := Some(Responded(reply.status));
    } else {
      book' := Fails(book, s.host);
      outcome, tried' := AfterBadGateway(s, req, mayRetry, log', first, cap, tried, book);
    }
  }

  /** The hosts of the attempts. */
  function Hosts(log: seq<Attempt>): set<Node> {
    if log == [] then {} else Hosts(log[..|log| - 1]) + {log[|log| - 1].host}
  }

  lemma HostsGrow(log: seq<Attempt>, a: Attempt)
    ensures Hosts(log + [a]) == Hosts(log) + {a.host}
    ensures (log + [a])[..|log|] == log
  {
  }

  /** The attempts in `log` have all ended in a 502, and the request is ready for another one. */
  predicate Going(s: Scope, req: Request, body: bytes, replies: nat -> Reply, log: seq<Attempt>, first: Node, cap: nat,
                  tried: set<Node>, book: Book)
    reads s, req, s.cluster.Nodes()
  {
    && Ready(s, req, body, log, first, cap, tried) && Ledger(s, book)
    && book.failed == Hosts(log) && book.failed <= tried - {s.host}
    && forall i :: 0 <= i < |log| ==> replies(i) == Reply(502, false)
  }

  /** The request is over.  All attempts but the last one have ended in a 502, and the last one as
      the outcome says. */
  predicate Finished(s: Scope, maxRetry: int, outcome: Outcome, replies: nat -> Reply, log: seq<Attempt>, body: bytes,
                     first: Node, book: Book)
    reads s, s.cluster.Nodes()
  {
    && |log| >= 1 && log[|log| - 1].host == s.host && CleanLog(log, body, first) && Ledger(s, book)
    && book.failed == Hosts(if outcome == GaveUp then log else log[..|log| - 1]) <= s.cluster.Nodes()
    && (forall i :: 0 <= i < |log| - 1 ==> replies(i) == Reply(502, false))
    && match outcome
       case ContextDone => replies(|log| - 1).contextDone
       case Responded(status) => status == replies(|log| - 1).status != 502
       case GaveUp =>
         && replies(|log| - 1) == Reply(502, false)
         && (|log| - 1 >= maxRetry || s.sticky || forall n :: n in s.cluster.Nodes() ==> !n.active)
       case Unreadable => false
  }

  /** One turn of the loop. */
  method Turn(s: Scope, req: Request, body: bytes, maxRetry: int, replies: nat -> Reply, leftovers: nat -> bytes,
              numRetry: nat, ghost log: seq<Attempt>, ghost first: Node, ghost cap: nat, ghost tried: set<Node>,
              ghost book: Book)
    returns (outcome: Option<Outcome>, ghost log': seq<Attempt>, ghost tried': set<Node>, ghost book': Book)
    requires Going(s, req, body, replies, log, first, cap, tried, book) && numRetry == |log|
    modifies s`host, req, s.cluster`nextReplicaIdx, s.cluster.replicas`nextHostIdx, s.cluster.Nodes()
    ensures |log'| == |log| + 1 && req.body == body && book' == book.(failed := book'.failed)
    ensures outcome.None? ==> numRetry < maxRetry && Going(s, req, body, replies, log', first, cap, tried', book')
    ensures outcome.Some? ==> Finished(s, maxRetry, outcome.value, replies, log', body, first, book')
  {
    HostsGrow(log, Attempt(s.host, body));
    outcome, log', tried', book' := AttemptOnce(s, req, body, replies(numRetry), leftovers(numRetry),
                                                numRetry < maxRetry, log, first, cap, tried, book);
    if outcome.None? {
      RepliesOn(replies, |log|, |log'|);
    }
  }

  lemma RepliesOn(replies: nat -> Reply, n: nat, m: nat)
    requires m == n + 1 && replies(n) == Reply(502, false)
    requires forall i :: 0 <= i < n ==> replies(i) == Reply(502, false)
    ensures forall i :: 0 <= i < m ==> replies(i) == Reply(502, false)
  {
  }

  lemma {:induction false} HostsContain(log: seq<Attempt>, i: nat)
    requires i < |log|
    ensures log[i].host in Hosts(log)
  {
    if i < |log| - 1 {
      HostsContain(log[..|log| - 1], i);
    }
  }

  /** The hosts of all attempts but the last one are inactive. */
  lemma FailedAreInactive(s: Scope, maxRetry: int, outcome: Outcome, replies: nat -> Reply, log: seq<Attempt>, body: bytes,
                          first: Node, book: Book)
    requires Finished(s, maxRetry, outcome, replies, log, body, first, book)
    ensures forall i :: 0 <= i < |log| - 1 ==> !log[i].host.active
  {
    forall i | 0 <= i < |log| - 1 ensures !log[i].host.active {
      HostsContain(log, i);
      HostsContain(log[..|log| - 1], i);
    }
  }

  lemma Begins(s: Scope, req: Request, replies: nat -> Reply, cap: nat, book: Book)
    requires Roomy(s.cluster, cap) && s.host in s.cluster.Nodes() && req.target == s.host
    requires s.host.connections > 0 && forall n :: n in s.cluster.Nodes() ==> Calm(n, cap)
    requires Ledger(s, book) && book.failed == {}
    ensures Going(s, req, req.body, replies, [], s.host, cap, {s.host}, book)
  {
  }

  /** The loop over the attempts, once the body is saved. */
  method Attempts(s: Scope, req: Request, maxRetry: int, replies: nat -> Reply, leftovers: nat -> bytes,
                  ghost cap: nat, ghost book: Book)
    returns (outcome: Outcome, ghost log: seq<Attempt>, ghost book': Book)
    requires Going(s, req, req.body, replies, [], s.host, cap, {s.host}, book)
    modifies s`host, req, s.cluster`nextReplicaIdx, s.cluster.replicas`nextHostIdx, s.cluster.Nodes()
    ensures req.body == old(req.body) && book' == book.(failed := book'.failed)
    ensures Finished(s, maxRetry, outcome, replies, log, req.body, old(s.host), book')
    ensures |log| <= (if maxRetry > 0 then maxRetry else 0) + 1
  {
    log, book' := [], book;
    var body := req.body;
    var numRetry := 0;
    ghost var first, tried := s.host, {s.host};
    while true
      invariant 0 <= numRetry == |log| && (numRetry > 0 ==> numRetry <= maxRetry)
      invariant Going(s, req, body, replies, log, first, cap, tried, book')
      invariant book' == book.(failed := book'.failed)
      decreases maxRetry - numRetry
    {
      var result;
      result, log, tried, book' := Turn(s, req, body, maxRetry, replies, leftovers, numRetry, log, first, cap, tried, book');
      if result.Some? {
        return result.value, log, book';
      }
      numRetry := numRetry + 1;
    }
  }

  /** Sends the request, and sends it again elsewhere after a 502 while that is allowed.
      `replies` is what the attempts come to, `leftovers` what each leaves of the body it reads;
      `log` are the attempts made. */
  method ExecuteWithRetry(s: Scope, req: Request, maxRetry: int, readable: bool, replies: nat -> Reply,
                          leftovers: nat -> bytes, ghost cap: nat, ghost book: Book)
    returns (outcome: Outcome, ghost log: seq<Attempt>, ghost book': Book)
    requires Roomy(s.cluster, cap) && s.host in s.cluster.Nodes() && req.target == s.host
    requires s.host.connections > 0 && forall n :: n in s.cluster.Nodes() ==> Calm(n, cap)
    requires Ledger(s, book) && book.failed == {}
    modifies s`host, req, s.cluster`nextReplicaIdx, s.cluster.replicas`nextHostIdx, s.cluster.Nodes()
    ensures outcome == Unreadable <==> !readable
    ensures req.body == old(req.body) && book' == book.(failed := book'.failed)
    ensures !readable ==> log == [] && book' == book && Ledger(s, book)
    ensures readable ==>
              && Finished(s, maxRetry, outcome, replies, log, old(req.body), old(s.host), book')
              && |log| <= (if maxRetry > 0 then maxRetry else 0) + 1
    ensures forall i :: 0 <= i < |log| - 1 ==> !log[i].host.active
  {
    log, book' := [], book;
    if !readable {
      return Unreadable, log, book';
    }
    Begins(s, req, replies, cap, book);
    outcome, log, book' := Attempts(s, req, maxRetry, replies, leftovers, cap, book);
    FailedAreInactive(s, maxRetry, outcome, replies, log, req.body, old(s.host), book');
  }
}
