/** How evenly the balancer spreads requests. */
module Fairness {
  import opened Words
  import opened Balancer

  // ---------- Spreading requests keeps loads within one ----------

  function Sum(l: seq<nat>): nat {
    if l == [] then 0 else Sum(l[..|l| - 1]) + l[|l| - 1]
  }

  /** Active hosts that carry the given loads. */
  function Active(l: seq<nat>): (v: seq<HostView>)
    ensures |v| == |l| && forall i :: 0 <= i < |l| ==> v[i] == HostView(true, Wrap32(l[i]))
  {
    seq(|l|, i requires 0 <= i < |l| => HostView(true, Wrap32(l[i])))
  }

  function ActiveCluster(c: seq<seq<nat>>): (v: seq<seq<HostView>>)
    ensures |v| == |c| && forall i :: 0 <= i < |c| ==> v[i] == Active(c[i])
  {
    seq(|c|, i requires 0 <= i < |c| => Active(c[i]))
  }

  lemma {:induction false} LoadIsSum(l: seq<nat>)
    ensures ReplicaLoad(Active(l)) == Wrap32(Sum(l))
  {
    if l != [] {
      var m := l[..|l| - 1];
      LoadIsSum(m);
      assert Active(l)[..|l| - 1] == Active(m);
      WrapAdd(Sum(m), l[|l| - 1]);
      WrapAdd(l[|l| - 1], Wrap32(Sum(m)));
    }
  }

  lemma {:induction false} SumBump(l: seq<nat>, j: nat)
    requires j < |l|
    ensures Sum(l[j := l[j] + 1]) == Sum(l) + 1
  {
    var b := l[j := l[j] + 1];
    if j == |l| - 1 {
      assert b[..|l| - 1] == l[..|l| - 1];
    } else {
      SumBump(l[..|l| - 1], j);
      assert b[..|l| - 1] == l[..|l| - 1][j := l[j] + 1];
    }
  }

  lemma {:induction false} MemberBelowSum(l: seq<nat>, j: nat)
    requires j < |l|
    ensures l[j] <= Sum(l)
  {
    if j < |l| - 1 {
      MemberBelowSum(l[..|l| - 1], j);
    }
  }

  /** One request: the balancer picks host `j` of replica `i`, whatever the positions `rs` and
      `hs` of its round-robin counters, and the request is added to that host. */
  datatype Pick = Pick(rs: nat, i: nat, hs: nat, j: nat)

  predicate Picked(c: seq<seq<nat>>, p: Pick) {
    && FirstLeast(ReplicaWeights(ActiveCluster(c)), p.rs, p.i)
    && FirstLeast(HostWeights(Active(c[p.i])), p.hs, p.j)
  }

  function Added(c: seq<seq<nat>>, p: Pick): seq<seq<nat>>
    requires p.i < |c| && p.j < |c[p.i]|
  {
    c[p.i := c[p.i][p.j := c[p.i][p.j] + 1]]
  }

  predicate Balanced(c: seq<seq<nat>>) {
    && (forall i, k :: 0 <= i < |c| && 0 <= k < |c| ==> Sum(c[i]) <= Sum(c[k]) + 1)
    && (forall i :: 0 <= i < |c| ==> EvenHosts(c[i]))
  }

  predicate EvenHosts(l: seq<nat>) {
    forall a, b :: 0 <= a < |l| && 0 <= b < |l| ==> l[a] <= l[b] + 1
  }

  predicate Shaped(c: seq<seq<nat>>, most: nat) {
    |c| > 0 && forall i :: 0 <= i < |c| ==> |c[i]| > 0 && Sum(c[i]) <= most
  }

  /** The weights the balancer compares are the true loads while these stay below 2^32 - 1. */
  lemma TrueWeights(c: seq<seq<nat>>, i: nat)
    requires i < |c| && |c[i]| > 0 && Sum(c[i]) < MAX32
    ensures ReplicaWeights(ActiveCluster(c))[i] == Sum(c[i])
    ensures forall j :: 0 <= j < |c[i]| ==> HostWeights(Active(c[i]))[j] == c[i][j]
  {
    LoadIsSum(c[i]);
    assert Active(c[i])[0].active;
    forall j | 0 <= j < |c[i]| ensures HostWeights(Active(c[i]))[j] == c[i][j] {
      MemberBelowSum(c[i], j);
    }
  }

  /** Adding one to a smallest total keeps totals within one. */
  lemma TotalsWithinOne(s: seq<nat>, s': seq<nat>, k: nat)
    requires k < |s| == |s'| && s' == s[k := s[k] + 1]
    requires forall i :: 0 <= i < |s| ==> s[k] <= s[i]
    requires forall i, j :: 0 <= i < |s| && 0 <= j < |s| ==> s[i] <= s[j] + 1
    ensures forall i, j :: 0 <= i < |s| && 0 <= j < |s| ==> s'[i] <= s'[j] + 1
  {
  }

  function Totals(c: seq<seq<nat>>): (s: seq<nat>)
    ensures |s| == |c| && forall i :: 0 <= i < |c| ==> s[i] == Sum(c[i])
  {
    seq(|c|, i requires 0 <= i < |c| => Sum(c[i]))
  }

  lemma AddedTotals(c: seq<seq<nat>>, p: Pick)
    requires p.i < |c| && p.j < |c[p.i]|
    ensures Totals(Added(c, p)) == Totals(c)[p.i := Totals(c)[p.i] + 1]
  {
    SumBump(c[p.i], p.j);
  }

  lemma PickedLeast(c: seq<seq<nat>>, p: Pick, most: nat, k: nat)
    requires Shaped(c, most) && most < MAX32 && Picked(c, p) && k < |c|
    ensures Sum(c[p.i]) <= Sum(c[k])
  {
    TrueWeights(c, p.i);
    TrueWeights(c, k);
    assert ReplicaWeights(ActiveCluster(c))[p.i] <= ReplicaWeights(ActiveCluster(c))[k];
  }

  lemma PickKeepsReplicas(c: seq<seq<nat>>, p: Pick, most: nat)
    requires Shaped(c, most) && most < MAX32 && Balanced(c) && Picked(c, p)
    ensures var d := Added(c, p);
            && Shaped(d, most + 1)
            && forall i, k :: 0 <= i < |d| && 0 <= k < |d| ==> Sum(d[i]) <= Sum(d[k]) + 1
  {
    var s, d := Totals(c), Added(c, p);
    forall i | 0 <= i < |c| ensures s[p.i] <= s[i] {
      PickedLeast(c, p, most, i);
    }
    AddedTotals(c, p);
    TotalsWithinOne(s, Totals(d), p.i);
    forall i, k | 0 <= i < |d| && 0 <= k < |d| ensures Sum(d[i]) <= Sum(d[k]) + 1 {
      assert Totals(d)[i] <= Totals(d)[k] + 1;
    }
    forall i | 0 <= i < |d| ensures |d[i]| > 0 && Sum(d[i]) <= most + 1 {
      assert Totals(d)[i] == Sum(d[i]);
    }
  }

  lemma PickKeepsHosts(l: seq<nat>, w: seq<u32>, hs: nat, j: nat)
    requires EvenHosts(l) && FirstLeast(w, hs, j) && |w| == |l|
    requires forall a :: 0 <= a < |l| ==> w[a] == l[a]
    ensures EvenHosts(l[j := l[j] + 1])
  {
    var m := l[j := l[j] + 1];
    forall a, b | 0 <= a < |m| && 0 <= b < |m| ensures m[a] <= m[b] + 1 {
      assert w[j] <= w[b];
    }
  }

  lemma PickKeepsBalance(c: seq<seq<nat>>, p: Pick, most: nat)
    requires Shaped(c, most) && most < MAX32 && Balanced(c) && Picked(c, p)
    ensures Balanced(Added(c, p)) && Shaped(Added(c, p), most + 1)
  {
    PickKeepsReplicas(c, p, most);
    TrueWeights(c, p.i);
    PickKeepsHosts(c[p.i], HostWeights(Active(c[p.i])), p.hs, p.j);
  }

  /** `loads` are the loads before, between and after the picks. */
  predicate Spread(loads: seq<seq<seq<nat>>>, picks: seq<Pick>) {
    && |loads| == |picks| + 1
    && forall i :: 0 <= i < |picks| ==> Picked(loads[i], picks[i]) && loads[i + 1] == Added(loads[i], picks[i])
  }

  /** From zero loads, after any number of requests below 2^32, replica loads differ by at most
      one, and so do host loads within each replica. */
  lemma {:induction false} SpreadIsBalanced(loads: seq<seq<seq<nat>>>, picks: seq<Pick>, i: nat)
    requires Spread(loads, picks) && Shaped(loads[0], 0) && i <= |picks| <= MAX32
    ensures Balanced(loads[i]) && Shaped(loads[i], i)
  {
    if i == 0 {
      ZeroBalanced(loads[0]);
    } else {
      SpreadIsBalanced(loads, picks, i - 1);
      PickKeepsBalance(loads[i - 1], picks[i - 1], i - 1);
    }
  }

  lemma ZeroBalanced(c: seq<seq<nat>>)
    requires Shaped(c, 0)
    ensures Balanced(c)
  {
    forall i | 0 <= i < |c| ensures EvenHosts(c[i]) {
      forall j | 0 <= j < |c[i]| ensures c[i][j] == 0 {
        MemberBelowSum(c[i], j);
      }
    }
  }

  // ---------- The same on the objects ----------

  /** No host is listed twice. */
  ghost predicate Distinct(c: Cluster) {
    forall i, j, k, l :: HostAt(c, i, j) && HostAt(c, k, l) && (i != k || j != l) ==>
      c.replicas[i].hosts[j] != c.replicas[k].hosts[l]
  }

  predicate HostAt(c: Cluster, i: int, j: int) {
    0 <= i < |c.replicas| && 0 <= j < |c.replicas[i].hosts|
  }

  /** All hosts are active, without penalty. */
  ghost predicate Calm(c: Cluster)
    reads c.Nodes()
  {
    c.Valid() && forall i, j :: HostAt(c, i, j) ==> c.replicas[i].hosts[j].active && c.replicas[i].hosts[j].penalty == 0
  }

  /** The hosts' connections are `loads`. */
  ghost predicate Carries(c: Cluster, loads: seq<seq<nat>>)
    reads c.Nodes()
  {
    && |loads| == |c.replicas| && (forall i :: 0 <= i < |loads| ==> |loads[i]| == |c.replicas[i].hosts|)
    && (forall i, j :: HostAt(c, i, j) ==> c.replicas[i].hosts[j].connections == loads[i][j])
  }

  /** What the balancer sees of a calm cluster are its connections. */
  lemma CalmView(c: Cluster, loads: seq<seq<nat>>)
    requires Calm(c) && Carries(c, loads)
    ensures c.View() == ActiveCluster(loads)
  {
    forall i | 0 <= i < |c.replicas| ensures c.replicas[i].View() == Active(loads[i]) {
      forall j | 0 <= j < |c.replicas[i].hosts| ensures c.replicas[i].View()[j] == Active(loads[i])[j] {
        assert HostAt(c, i, j);
      }
    }
  }

  /** The balancer picks a host. */
  method Choose(c: Cluster, ghost loads: seq<seq<nat>>) returns (h: Node, ghost p: Pick)
    requires c.Valid() && c.View() == ActiveCluster(loads)
    modifies c`nextReplicaIdx, c.replicas`nextHostIdx
    ensures Picked(loads, p) && HostAt(c, p.i, p.j) && h == c.replicas[p.i].hosts[p.j]
  {
    ghost var v := c.View();
    var i, j;
    h, i, j := c.GetHost();
    assert c.View() == v && v[i] == Active(loads[i]);
    p := Pick(c.nextReplicaIdx % |c.replicas|, i, c.replicas[i].nextHostIdx % |c.replicas[i].hosts|, j);
  }

  method ChooseCalm(c: Cluster, ghost loads: seq<seq<nat>>) returns (h: Node, ghost p: Pick)
    requires Calm(c) && Carries(c, loads)
    modifies c`nextReplicaIdx, c.replicas`nextHostIdx
    ensures Calm(c) && Carries(c, loads)
    ensures Picked(loads, p) && HostAt(c, p.i, p.j) && h == c.replicas[p.i].hosts[p.j]
  {
    CalmView(c, loads);
    h, p := Choose(c, loads);
  }

  /** The request is counted on it. */
  method CountOn(c: Cluster, h: Node, ghost loads: seq<seq<nat>>, ghost p: Pick)
    requires Distinct(c) && HostAt(c, p.i, p.j) && h == c.replicas[p.i].hosts[p.j] && h.connections < MAX32
    requires Carries(c, loads)
    modifies h`connections
    ensures Carries(c, Added(loads, p))
    ensures old(Calm(c)) ==> Calm(c)
  {
    h.IncrementConnections();
    forall i, j | HostAt(c, i, j) ensures c.replicas[i].hosts[j].connections == Added(loads, p)[i][j] {
    }
  }

  /** Sends one request to the host that the balancer picks. */
  method SendOne(c: Cluster, ghost loads: seq<seq<nat>>, ghost most: nat) returns (ghost p: Pick)
    requires Calm(c) && Distinct(c) && Carries(c, loads)
    requires Shaped(loads, most) && most < MAX32 && Balanced(loads)
    modifies c`nextReplicaIdx, c.replicas`nextHostIdx, c.Nodes()`connections
    ensures Calm(c) && Picked(loads, p) && Carries(c, Added(loads, p))
  {
    var h;
    h, p := ChooseCalm(c, loads);
    MemberBelowSum(loads[p.i], p.j);
    assert h in c.Nodes() && h.connections == loads[p.i][p.j];
    CountOn(c, h, loads, p);
  }

  lemma {:induction false} SumOfZeros(l: seq<nat>)
    requires forall j :: 0 <= j < |l| ==> l[j] == 0
    ensures Sum(l) == 0
  {
    if l != [] {
      SumOfZeros(l[..|l| - 1]);
    }
  }

  /** The loads of idle hosts. */
  ghost function Zeros(c: Cluster): (loads: seq<seq<nat>>)
    requires c.Valid()
    ensures Shaped(loads, 0) && |loads| == |c.replicas|
    ensures forall i :: 0 <= i < |loads| ==> loads[i] == seq(|c.replicas[i].hosts|, _ => 0)
  {
    var loads := seq(|c.replicas|, i requires 0 <= i < |c.replicas| => seq(|c.replicas[i].hosts|, _ => 0));
    assert forall i :: 0 <= i < |loads| ==> |loads[i]| > 0 && Sum(loads[i]) <= 0 by {
      forall i | 0 <= i < |loads| ensures |loads[i]| > 0 && Sum(loads[i]) <= 0 {
        assert c.replicas[i].Valid();
        SumOfZeros(loads[i]);
      }
    }
    loads
  }

  /** However many requests are sent to idle hosts, the loads stay balanced. */
  method SendMany(c: Cluster, n: nat) returns (ghost loads: seq<seq<nat>>)
    requires Calm(c) && Distinct(c) && n <= MAX32 && Carries(c, Zeros(c))
    modifies c`nextReplicaIdx, c.replicas`nextHostIdx, c.Nodes()`connections
    ensures Carries(c, loads) && Balanced(loads) && Shaped(loads, n)
  {
    loads := Zeros(c);
    ZeroBalanced(loads);
    for k := 0 to n
      invariant Calm(c) && Carries(c, loads) && Balanced(loads) && Shaped(loads, k)
    {
      ghost var p := SendOne(c, loads, k);
      PickKeepsBalance(loads, p, k);
      loads := Added(loads, p);
    }
  }

  // ---------- Round robin among equals ----------

  /** The place the scan starts at in the `x`-th call after the counter stood at `c`. */
  function Visit(c: u32, x: nat, n: nat): nat
    requires n > 0
  {
    Wrap32(c + 1 + x) % n
  }

  /** `n` consecutive calls on `n` equally loaded active hosts visit them as the counter goes. */
  method Tour(r: Replica) returns (visited: seq<nat>)
    requires r.Valid()
    requires forall i :: 0 <= i < |r.hosts| ==> HostWeights(r.View())[i] == HostWeights(r.View())[0]
    modifies r`nextHostIdx
    ensures |visited| == |r.hosts|
    ensures forall x :: 0 <= x < |visited| ==> visited[x] == Visit(old(r.nextHostIdx), x, |r.hosts|)
  {
    visited := [];
    ghost var c := r.nextHostIdx;
    ghost var v := r.View();
    for x := 0 to |r.hosts|
      invariant r.nextHostIdx == Wrap32(c + x) && |visited| == x && r.View() == v
      invariant forall y :: 0 <= y < x ==> visited[y] == Visit(c, y, |r.hosts|)
    {
      WrapAdd(c + x, 1);
      var h, k := r.GetHost();
      EqualWeightsPickStart(HostWeights(v), r.nextHostIdx % |r.hosts|, k);
      visited := visited + [k];
    }
  }

  /** Places a whole number of rounds apart, and only those, fall on the same host. */
  lemma SameHost(x: nat, y: nat, n: nat)
    requires n > 0 && x <= y < x + n && x % n == y % n
    ensures x == y
  {
    assert y - x == (y / n - x / n) * n;
    MulAtLeast(y / n - x / n, n);
  }

  predicate VisitsEachOnce(c: u32, n: nat)
    requires n > 0
  {
    forall x, y :: 0 <= x < y < n ==> Visit(c, x, n) != Visit(c, y, n)
  }

  /** The counter value of the `x`-th call. */
  lemma CounterValue(c: u32, x: nat)
    requires x < TWO31
    ensures Wrap32(c + 1 + x) == if Inc32(c) + x < TWO32 then Inc32(c) + x else Inc32(c) + x - TWO32
  {
    WrapAdd(c + 1, x);
  }

  lemma WholeRounds(v: nat, n: nat, m: nat)
    requires n > 0 && v >= m * n
    ensures (v - m * n) % n == v % n
  {
    var w := v - m * n;
    assert v == (w / n + m) * n + w % n;
    DivUnique(v, n, w / n + m, w % n);
  }

  /** Without a wrap, or when `n` divides 2^32, a call visits the place the unwrapped counter names. */
  lemma VisitPlace(c: u32, n: nat, x: nat)
    requires 0 < n < TWO31 && x < n
    requires Inc32(c) + n <= TWO32 || TWO32 % n == 0
    ensures Visit(c, x, n) == (Inc32(c) + x) % n
  {
    CounterValue(c, x);
    if Inc32(c) + x >= TWO32 {
      Dividing(TWO32, n);
      WholeRounds(Inc32(c) + x, n, TWO32 / n);
    }
  }

  lemma Dividing(a: nat, n: nat)
    requires n > 0 && a % n == 0
    ensures a == a / n * n
  {
  }

  /** When the counter wraps in the middle of the tour and `n` does not divide 2^32, two of the
      calls fall on the same host. */
  lemma WrapRepeats(c: u32, n: nat) returns (x: nat, y: nat)
    requires 0 < n < TWO31 && Inc32(c) + n > TWO32 && TWO32 % n != 0
    ensures x < y < n && Visit(c, x, n) == Visit(c, y, n)
  {
    var a := Inc32(c);
    var k, r := TWO32 - a, TWO32 % n;
    if r <= k {
      x, y := k - r, k;
      CounterValue(c, x);
      CounterValue(c, y);
      Residue(TWO32, n, r);
      Residue(0, n, 0);
    } else {
      x, y := 0, r;
      CounterValue(c, x);
      CounterValue(c, y);
      Residue(TWO32, n, k);
      DivUnique(r - k, n, 0, r - k);
    }
  }

  lemma Residue(a: nat, n: nat, d: nat)
    requires n > 0 && d <= a % n
    ensures (a - d) % n == a % n - d
  {
    DivUnique(a - d, n, a / n, a % n - d);
  }

  lemma VisitsDiffer(c: u32, n: nat, x: nat, y: nat)
    requires 0 < n < TWO31 && x < y < n
    requires Inc32(c) + n <= TWO32 || TWO32 % n == 0
    ensures Visit(c, x, n) != Visit(c, y, n)
  {
    VisitPlace(c, n, x);
    VisitPlace(c, n, y);
    if Visit(c, x, n) == Visit(c, y, n) {
      SameHost(Inc32(c) + x, Inc32(c) + y, n);
    }
  }

  /** The tour visits each host exactly once if and only if the counter does not wrap in it or
      the number of hosts divides 2^32. */
  lemma RoundRobinExact(c: u32, n: nat)
    requires 0 < n < TWO31
    ensures VisitsEachOnce(c, n) <==> Inc32(c) + n <= TWO32 || TWO32 % n == 0
  {
    if Inc32(c) + n <= TWO32 || TWO32 % n == 0 {
      forall x, y | 0 <= x < y < n ensures Visit(c, x, n) != Visit(c, y, n) {
        VisitsDiffer(c, n, x, y);
      }
    } else {
      var x, y := WrapRepeats(c, n);
    }
  }

  /** Then every host is visited, by exactly one of the calls. */
  lemma EveryHostVisited(c: u32, n: nat, host: nat) returns (x: nat)
    requires 0 < n < TWO31 && host < n
    requires Inc32(c) + n <= TWO32 || TWO32 % n == 0
    ensures x < n && Visit(c, x, n) == host
    ensures forall y :: 0 <= y < n && Visit(c, y, n) == host ==> y == x
  {
    x := PlaceOf(Inc32(c), n, host);
    VisitPlace(c, n, x);
    RoundRobinExact(c, n);
  }

  lemma PlaceOf(a: nat, n: nat, host: nat) returns (x: nat)
    requires host < n
    ensures x < n && (a + x) % n == host
  {
    x := if host >= a % n then host - a % n else host + n - a % n;
    if host >= a % n {
      DivUnique(a + x, n, a / n, host);
    } else {
      assert a + x == (a / n + 1) * n + host;
      DivUnique(a + x, n, a / n + 1, host);
    }
  }
}
