/**
 * The two-level balancer: least-loaded replica, then least-loaded host in it, scanning
 * from a round-robin position.
 */
module Balancer {
  import opened Words

  // ---------- Specification on values ----------

  /** What the balancer sees of a host. */
  datatype HostView = HostView(active: bool, load: u32)

  /** An inactive host has least priority. */
  function HostWeight(h: HostView): u32 {
    if h.active then h.load else MAX32
  }

  function HostWeights(r: seq<HostView>): (w: seq<u32>)
    ensures |w| == |r| && forall i :: 0 <= i < |r| ==> w[i] == HostWeight(r[i])
  {
    seq(|r|, i requires 0 <= i < |r| => HostWeight(r[i]))
  }

  predicate ReplicaActive(r: seq<HostView>) {
    exists i :: 0 <= i < |r| && r[i].active
  }

  /** The uint32 sum of the loads of a replica's hosts. */
  function ReplicaLoad(r: seq<HostView>): u32 {
    if r == [] then 0 else Add32(ReplicaLoad(r[..|r| - 1]), r[|r| - 1].load)
  }

  function ReplicaWeight(r: seq<HostView>): u32 {
    if ReplicaActive(r) then ReplicaLoad(r) else MAX32
  }

  function ReplicaWeights(c: seq<seq<HostView>>): (w: seq<u32>)
    ensures |w| == |c| && forall i :: 0 <= i < |c| ==> w[i] == ReplicaWeight(c[i])
  {
    seq(|c|, i requires 0 <= i < |c| => ReplicaWeight(c[i]))
  }

  /** How many places `k` is after `start` in rotation order. */
  function Distance(start: nat, k: nat, n: nat): nat
    requires start < n && k < n
  {
    if k >= start then k - start else k + n - start
  }

  /** `k` is the first index of least weight when the scan starts at `start`. */
  predicate FirstLeast(w: seq<u32>, start: nat, k: nat) {
    && start < |w| && k < |w|
    && (forall j :: 0 <= j < |w| ==> w[k] <= w[j])
    && (forall j :: 0 <= j < |w| && Distance(start, j, |w|) < Distance(start, k, |w|) ==> w[k] < w[j])
  }

  /** The specification leaves no choice. */
  lemma FirstLeastUnique(w: seq<u32>, start: nat, k: nat, m: nat)
    requires FirstLeast(w, start, k) && FirstLeast(w, start, m)
    ensures k == m
  {
    assert w[k] == w[m];
    assert Distance(start, k, |w|) == Distance(start, m, |w|);
  }

  /** Among equal weights the scan keeps the place it starts at. */
  lemma EqualWeightsPickStart(w: seq<u32>, start: nat, k: nat)
    requires FirstLeast(w, start, k) && forall j :: 0 <= j < |w| ==> w[j] == w[start]
    ensures k == start
  {
    assert Distance(start, start, |w|) == 0;
  }

  /** Place `t` of the scan that starts at `start`. */
  function At(start: nat, t: nat, n: nat): nat
    requires start < n && t < n
  {
    if start + t < n then start + t else start + t - n
  }

  lemma ModOnce(x: nat, n: nat)
    requires 0 < n && x < 2 * n
    ensures x % n == if x < n then x else x - n
  {
    if x < n {
      DivUnique(x, n, 0, x);
    } else {
      DivUnique(x, n, 1, x - n);
    }
  }

  /** The best of the first `i` places of the scan is `k`. */
  predicate BestSoFar(w: seq<u32>, start: nat, i: nat, k: nat) {
    && start < |w| && i <= |w| && k < |w|
    && Distance(start, k, |w|) < i
    && (forall t :: 0 <= t < i ==> w[k] <= w[At(start, t, |w|)])
    && (forall t :: 0 <= t < Distance(start, k, |w|) ==> w[k] < w[At(start, t, |w|)])
  }

  /** The best of the first `i` places, found by keeping the lighter one, place by place. */
  function Best(w: seq<u32>, start: nat, i: nat): (k: nat)
    requires start < |w| && 0 < i <= |w|
    ensures k < |w|
  {
    if i == 1 then start
    else
      var b, j := Best(w, start, i - 1), At(start, i - 1, |w|);
      if w[j] < w[b] then j else b
  }

  lemma {:induction false} BestIsBest(w: seq<u32>, start: nat, i: nat)
    requires start < |w| && 0 < i <= |w|
    ensures BestSoFar(w, start, i, Best(w, start, i))
  {
    if i > 1 {
      BestIsBest(w, start, i - 1);
      var b, j := Best(w, start, i - 1), At(start, i - 1, |w|);
      assert Distance(start, j, |w|) == i - 1;
      if w[j] < w[b] {
        forall t | 0 <= t < i - 1 ensures w[j] < w[At(start, t, |w|)] {
        }
      }
    }
  }

  /** A full scan finds the first least. */
  lemma ScanComplete(w: seq<u32>, start: nat)
    requires start < |w|
    ensures FirstLeast(w, start, Best(w, start, |w|))
  {
    BestIsBest(w, start, |w|);
    var k := Best(w, start, |w|);
    forall j | 0 <= j < |w|
      ensures w[k] <= w[j]
      ensures Distance(start, j, |w|) < Distance(start, k, |w|) ==> w[k] < w[j]
    {
      assert At(start, Distance(start, j, |w|), |w|) == j;
    }
  }

  /** A weight of zero right after places of greater weight may end the scan early. */
  lemma ScanZero(w: seq<u32>, start: nat, i: nat)
    requires start < |w| && i < |w| && w[At(start, i, |w|)] == 0
    requires i > 0 ==> w[Best(w, start, i)] > 0
    ensures FirstLeast(w, start, At(start, i, |w|))
  {
    if i > 0 {
      BestIsBest(w, start, i);
    }
    var k := At(start, i, |w|);
    forall j | 0 <= j < |w| && Distance(start, j, |w|) < Distance(start, k, |w|)
      ensures w[k] < w[j]
    {
      assert At(start, Distance(start, j, |w|), |w|) == j;
    }
  }

  /** The index `(idx + i) % n` of the scan. */
  method Rotate(idx: nat, i: nat, n: nat) returns (tmpIdx: nat)
    requires idx < n && i < n
    ensures tmpIdx == At(idx, i, n)
  {
    ModOnce(idx + i, n);
    tmpIdx := (idx + i) % n;
  }

  // ---------- Objects ----------

  class Node {
    const penaltySize: u32
    const penaltyMaxSize: u32
    var active: bool
    var connections: u32
    var penalty: u32

    constructor (size: u32, max: u32, defaultActive: bool)
      ensures penaltySize == size && penaltyMaxSize == max
      ensures active == defaultActive && connections == 0 && penalty == 0
    {
      penaltySize, penaltyMaxSize := size, max;
      active, connections, penalty := defaultActive, 0, 0;
    }

    function CurrentLoad(): (load: u32)
      reads this
      ensures load == (connections + penalty) % TWO32
    {
      Add32(connections, penalty)
    }

    function View(): HostView
      reads this
    {
      HostView(active, CurrentLoad())
    }

    /** Adds the penalty unless the maximum is reached; `armed` says whether an undo is due. */
    method Penalize() returns (armed: bool)
      modifies this`penalty
      ensures armed <==> old(penalty) < penaltyMaxSize
      ensures penalty == if armed then Add32(old(penalty), penaltySize) else old(penalty)
    {
      armed := penalty < penaltyMaxSize;
      if armed {
        penalty := Add32(penalty, penaltySize);
      }
    }

    /** The timer callback that takes one penalty back. */
    method UndoPenalty()
      modifies this`penalty
      ensures penalty == Wrap32(old(penalty) - penaltySize)
    {
      ComplementSubtracts(penalty, penaltySize);
      penalty := Add32(penalty, Not32(Wrap32(penaltySize - 1)));
    }

    method SetIsActive(a: bool)
      modifies this`active
      ensures active == a
    {
      active := a;
    }

    method IncrementConnections()
      modifies this`connections
      ensures connections == Wrap32(old(connections) + 1)
    {
      connections := Inc32(connections);
    }

    method DecrementConnections()
      modifies this`connections
      ensures connections == Wrap32(old(connections) - 1)
    {
      ComplementSubtracts(connections, 1);
      connections := Dec32(connections);
    }
  }

  class Replica {
    const hosts: seq<Node>
    var nextHostIdx: u32

    constructor (nodes: seq<Node>)
      requires 0 < |nodes| < TWO31
      ensures hosts == nodes && nextHostIdx == 0 && Valid()
    {
      hosts, nextHostIdx := nodes, 0;
    }

    predicate Valid() {
      0 < |hosts| < TWO31
    }

    function View(): (v: seq<HostView>)
      reads hosts
      ensures |v| == |hosts| && forall i :: 0 <= i < |hosts| ==> v[i] == hosts[i].View()
    {
      seq(|hosts|, i requires 0 <= i < |hosts| reads hosts => hosts[i].View())
    }

    method IsActive() returns (b: bool)
      ensures b == ReplicaActive(View())
    {
      for i := 0 to |hosts|
        invariant forall j :: 0 <= j < i ==> !hosts[j].active
      {
        if hosts[i].active {
          assert View()[i].active;
          return true;
        }
      }
      b := false;
    }

    method Load() returns (reqs: u32)
      ensures reqs == ReplicaLoad(View())
    {
      reqs := 0;
      for i := 0 to |hosts|
        invariant reqs == ReplicaLoad(View()[..i])
      {
        reqs := Add32(reqs, hosts[i].CurrentLoad());
        assert View()[..i + 1][..i] == View()[..i];
      }
      assert View()[..|hosts|] == View();
    }

    /** Scans all hosts from `idx` for the least loaded one; `k` is its index. */
    method ScanFrom(idx: nat) returns (h: Node, k: nat)
      requires Valid() && idx < |hosts|
      ensures k < |hosts| && h == hosts[k]
      ensures FirstLeast(HostWeights(View()), idx, k)
    {
      ghost var w := HostWeights(View());
      var n := |hosts|;
      h, k := hosts[idx], idx;
      var reqs := h.CurrentLoad();
      if !h.active {
        reqs := MAX32;
      }
      if reqs == 0 {
        ScanZero(w, idx, 0);
        return;
      }
      for i := 1 to n
        invariant k == Best(w, idx, i) && h == hosts[k] && reqs == w[k] && reqs > 0
      {
        var tmpIdx := Rotate(idx, i, n);
        var tmpH := hosts[tmpIdx];
        if tmpH.active {
          var tmpReqs := tmpH.CurrentLoad();
          if tmpReqs == 0 {
            ScanZero(w, idx, i);
            return tmpH, tmpIdx;
          }
          if tmpReqs < reqs {
            h, k := tmpH, tmpIdx;
            reqs := tmpReqs;
          }
        }
      }
      ScanComplete(w, idx);
    }

    /** Returns the first least-loaded host in rotation order; `k` is its index. */
    method GetHost() returns (h: Node, k: nat)
      requires Valid()
      modifies this`nextHostIdx
      ensures nextHostIdx == Inc32(old(nextHostIdx))
      ensures k < |hosts| && h == hosts[k]
      ensures FirstLeast(HostWeights(View()), nextHostIdx % |hosts|, k)
      ensures LeastLoaded(hosts, h)
    {
      nextHostIdx := Inc32(nextHostIdx);
      h, k := hosts[0], 0;
      if |hosts| > 1 {
        h, k := ScanFrom(nextHostIdx % |hosts|);
      }
      LeastHost(hosts, View(), nextHostIdx % |hosts|, k);
    }
  }

  class Cluster {
    const replicas: seq<Replica>
    var nextReplicaIdx: u32

    constructor (rs: seq<Replica>)
      requires 0 < |rs| < TWO31 && forall i :: 0 <= i < |rs| ==> rs[i].Valid()
      ensures replicas == rs && nextReplicaIdx == 0 && Valid()
    {
      replicas, nextReplicaIdx := rs, 0;
    }

    predicate Valid() {
      0 < |replicas| < TWO31 && forall i :: 0 <= i < |replicas| ==> replicas[i].Valid()
    }

    function Nodes(): (s: set<Node>)
      ensures forall i, j :: 0 <= i < |replicas| && 0 <= j < |replicas[i].hosts| ==> replicas[i].hosts[j] in s
      ensures forall h :: h in s ==>
                exists i, j :: 0 <= i < |replicas| && 0 <= j < |replicas[i].hosts| && h == replicas[i].hosts[j]
    {
      set i, j | 0 <= i < |replicas| && 0 <= j < |replicas[i].hosts| :: replicas[i].hosts[j]
    }

    function View(): (v: seq<seq<HostView>>)
      reads Nodes()
      ensures |v| == |replicas| && forall i :: 0 <= i < |replicas| ==> v[i] == replicas[i].View()
    {
      seq(|replicas|, i requires 0 <= i < |replicas| reads Nodes() => replicas[i].View())
    }

    /** The activity of replica `i` and its load, which is the largest one when it is inactive. */
    method Weigh(i: nat, ghost w: seq<u32>) returns (active: bool, reqs: u32)
      requires Valid() && i < |replicas| && w == ReplicaWeights(View())
      ensures reqs == w[i]
      ensures !active ==> reqs == MAX32
    {
      active := replicas[i].IsActive();
      reqs := MAX32;
      if active {
        reqs := replicas[i].Load();
      }
    }

    /** Scans all replicas from `idx` for the least loaded one; `k` is its index. */
    method ScanFrom(idx: nat) returns (r: Replica, k: nat)
      requires Valid() && idx < |replicas|
      ensures k < |replicas| && r == replicas[k]
      ensures FirstLeast(ReplicaWeights(View()), idx, k)
    {
      ghost var w := ReplicaWeights(View());
      var active, reqs := Weigh(idx, w);
      if reqs == 0 {
        ScanZero(w, idx, 0);
        return replicas[idx], idx;
      }
      k := ScanRest(idx, reqs, w);
      r := replicas[k];
    }

    /** The scan proper: `reqs` is the weight of the replica at `idx`, and `w` are all weights. */
    method ScanRest(idx: nat, reqs0: u32, ghost w: seq<u32>) returns (k: nat)
      requires Valid() && idx < |replicas| && w == ReplicaWeights(View()) && w[idx] == reqs0 > 0
      ensures FirstLeast(w, idx, k)
    {
      var n, reqs := |replicas|, reqs0;
      k := idx;
      for i := 1 to n
        invariant k == Best(w, idx, i) && reqs == w[k] > 0
        invariant w == ReplicaWeights(View())
      {
        var tmpIdx := Rotate(idx, i, n);
        var tmpActive, tmpReqs := Weigh(tmpIdx, w);
        if tmpActive {
          if tmpReqs == 0 {
            ScanZero(w, idx, i);
            return tmpIdx;
          }
          if tmpReqs < reqs {
            k, reqs := tmpIdx, tmpReqs;
          }
        }
      }
      ScanComplete(w, idx);
    }

    method GetReplica() returns (r: Replica, k: nat)
      requires Valid()
      modifies this`nextReplicaIdx
      ensures nextReplicaIdx == Inc32(old(nextReplicaIdx))
      ensures k < |replicas| && r == replicas[k]
      ensures FirstLeast(ReplicaWeights(View()), nextReplicaIdx % |replicas|, k)
    {
      nextReplicaIdx := Inc32(nextReplicaIdx);
      r, k := replicas[0], 0;
      if |replicas| > 1 {
        r, k := ScanFrom(nextReplicaIdx % |replicas|);
      }
    }

    /** The first least-loaded replica in rotation order, then the first least-loaded host in
        it in rotation order; it is host `j` of replica `i`. */
    method GetHost() returns (h: Node, i: nat, j: nat)
      requires Valid()
      modifies this`nextReplicaIdx, replicas`nextHostIdx
      ensures i < |replicas| && j < |replicas[i].hosts| && h == replicas[i].hosts[j]
      ensures nextReplicaIdx == Inc32(old(nextReplicaIdx))
      ensures FirstLeast(ReplicaWeights(View()), nextReplicaIdx % |replicas|, i)
      ensures replicas[i].nextHostIdx == Inc32(old(replicas[i].nextHostIdx))
      ensures FirstLeast(HostWeights(View()[i]), replicas[i].nextHostIdx % |replicas[i].hosts|, j)
      ensures forall x :: 0 <= x < |replicas| && replicas[x] != replicas[i] ==>
                replicas[x].nextHostIdx == old(replicas[x].nextHostIdx)
    {
      var r;
      r, i := GetReplica();
      h, j := r.GetHost();
    }
  }

  // ---------- What the choice guarantees ----------

  /** The chosen host is active exactly when the scan starts at an active host or some active
      host is not saturated. */
  lemma ChosenHostActive(r: seq<HostView>, start: nat, k: nat)
    requires FirstLeast(HostWeights(r), start, k)
    ensures r[k].active <==> r[start].active || exists i :: 0 <= i < |r| && r[i].active && r[i].load < MAX32
  {
    var w := HostWeights(r);
    assert w[k] <= w[start];
    if w[k] == MAX32 {
      EqualWeightsPickStart(w, start, k);
    } else {
      assert r[k].active && r[k].load < MAX32;
    }
  }

  lemma ChosenReplicaActive(c: seq<seq<HostView>>, start: nat, k: nat)
    requires FirstLeast(ReplicaWeights(c), start, k)
    ensures ReplicaActive(c[k]) <==>
            ReplicaActive(c[start]) || exists i :: 0 <= i < |c| && ReplicaActive(c[i]) && ReplicaLoad(c[i]) < MAX32
  {
    var w := ReplicaWeights(c);
    assert w[k] <= w[start];
    if w[k] == MAX32 {
      EqualWeightsPickStart(w, start, k);
    } else {
      assert ReplicaActive(c[k]) && ReplicaLoad(c[k]) < MAX32;
    }
  }

  /** No replica and no host is at the largest load, which would tie with being inactive. */
  predicate Unsaturated(c: seq<seq<HostView>>) {
    forall i :: 0 <= i < |c| ==>
      && ReplicaLoad(c[i]) < MAX32
      && forall j :: 0 <= j < |c[i]| ==> c[i][j].load < MAX32
  }

  /** If any host of the cluster is active, so is the one returned. */
  lemma PicksActive(c: seq<seq<HostView>>, rs: nat, i: nat, hs: nat, j: nat)
    requires FirstLeast(ReplicaWeights(c), rs, i) && FirstLeast(HostWeights(c[i]), hs, j)
    requires Unsaturated(c)
    ensures c[i][j].active <==> exists x :: 0 <= x < |c| && ReplicaActive(c[x])
  {
    ChosenReplicaActive(c, rs, i);
    ChosenHostActive(c[i], hs, j);
  }

  /** Some active replica is not at the largest load. */
  predicate Light(c: seq<seq<HostView>>) {
    exists x :: 0 <= x < |c| && ReplicaActive(c[x]) && ReplicaLoad(c[x]) < MAX32
  }

  /** A scan of the replica from `start` ends at an active host. */
  predicate Usable(r: seq<HostView>, start: nat) {
    start < |r| && (r[start].active || exists x :: 0 <= x < |r| && r[x].active && r[x].load < MAX32)
  }

  /** Without any condition on the loads: the host returned is active if and only if it can be in
      the chosen replica, which is the one the scan starts at unless some active replica is not
      saturated. */
  lemma PicksActiveExactly(c: seq<seq<HostView>>, rs: nat, i: nat, hs: nat, j: nat)
    requires FirstLeast(ReplicaWeights(c), rs, i) && FirstLeast(HostWeights(c[i]), hs, j)
    ensures c[i][j].active <==> Usable(c[if Light(c) then i else rs], hs)
    ensures Light(c) ==> ReplicaActive(c[i])
  {
    ChosenReplicaActive(c, rs, i);
    ChosenHostActive(c[i], hs, j);
    var w := ReplicaWeights(c);
    if !Light(c) {
      EqualWeightsPickStart(w, rs, i);
    } else {
      var x :| 0 <= x < |c| && ReplicaActive(c[x]) && ReplicaLoad(c[x]) < MAX32;
      assert w[i] <= w[x];
    }
  }

  const SATURATED: seq<seq<HostView>> := [[HostView(false, 0), HostView(true, MAX32)]]

  /** A saturated host ties with an inactive one, and loses to it if the scan starts there. */
  lemma SaturatedHostLoses()
    ensures FirstLeast(ReplicaWeights(SATURATED), 0, 0) && FirstLeast(HostWeights(SATURATED[0]), 0, 0)
    ensures ReplicaActive(SATURATED[0]) && !SATURATED[0][0].active
  {
    assert SATURATED[0][1].active;
  }

  // ---------- The choice in terms of connections and penalties ----------

  /** The open connections and penalties of the hosts together. */
  function TotalLoad(hosts: seq<Node>): nat
    reads hosts
  {
    if hosts == [] then 0
    else TotalLoad(hosts[..|hosts| - 1]) + hosts[|hosts| - 1].connections + hosts[|hosts| - 1].penalty
  }

  predicate SomeActive(hosts: seq<Node>)
    reads hosts
  {
    exists i :: 0 <= i < |hosts| && hosts[i].active
  }

  lemma {:induction false} LoadIsTotal(hosts: seq<Node>, v: seq<HostView>)
    requires |v| == |hosts| && (forall i :: 0 <= i < |v| ==> v[i] == hosts[i].View()) && TotalLoad(hosts) < MAX32
    ensures ReplicaLoad(v) == TotalLoad(hosts)
    ensures forall i :: 0 <= i < |hosts| ==> hosts[i].connections + hosts[i].penalty <= TotalLoad(hosts)
  {
    if hosts != [] {
      var n := |hosts| - 1;
      LoadIsTotal(hosts[..n], v[..n]);
    }
  }

  /** If all loads are below 2^32 - 1, `h` is active if any host is, and has the least connections
      and penalty of the active ones. */
  predicate LeastLoaded(hosts: seq<Node>, h: Node)
    reads hosts, h
  {
    (forall n :: n in hosts ==> n.connections + n.penalty < MAX32) ==>
      forall n :: n in hosts && n.active ==> h.active && h.connections + h.penalty <= n.connections + n.penalty
  }

  lemma LeastHost(hosts: seq<Node>, v: seq<HostView>, start: nat, k: nat)
    requires |v| == |hosts| && forall i :: 0 <= i < |v| ==> v[i] == hosts[i].View()
    requires FirstLeast(HostWeights(v), start, k)
    ensures LeastLoaded(hosts, hosts[k])
  {
    if forall n :: n in hosts ==> n.connections + n.penalty < MAX32 {
      forall n | n in hosts && n.active
        ensures hosts[k].active && hosts[k].connections + hosts[k].penalty <= n.connections + n.penalty
      {
        var i :| 0 <= i < |hosts| && hosts[i] == n;
        assert HostWeights(v)[k] <= HostWeights(v)[i];
        assert hosts[k] in hosts;
      }
    }
  }

  /** The same for replicas and their totals. */
  predicate LeastLoadedReplica(rs: seq<Replica>, r: Replica)
    reads set i, j | 0 <= i < |rs| && 0 <= j < |rs[i].hosts| :: rs[i].hosts[j], r.hosts
  {
    (forall x :: x in rs ==> TotalLoad(x.hosts) < MAX32) ==>
      forall x :: x in rs && SomeActive(x.hosts) ==> SomeActive(r.hosts) && TotalLoad(r.hosts) <= TotalLoad(x.hosts)
  }

  lemma LeastReplica(rs: seq<Replica>, v: seq<seq<HostView>>, start: nat, k: nat)
    requires |v| == |rs| && forall i :: 0 <= i < |v| ==> v[i] == rs[i].View()
    requires FirstLeast(ReplicaWeights(v), start, k)
    ensures LeastLoadedReplica(rs, rs[k])
  {
    if forall x :: x in rs ==> TotalLoad(x.hosts) < MAX32 {
      forall x | x in rs && SomeActive(x.hosts)
        ensures SomeActive(rs[k].hosts) && TotalLoad(rs[k].hosts) <= TotalLoad(x.hosts)
      {
        var i :| 0 <= i < |rs| && rs[i] == x;
        assert rs[k] in rs;
        LoadIsTotal(x.hosts, v[i]);
        LoadIsTotal(rs[k].hosts, v[k]);
        ActiveSeen(x, v[i]);
        ActiveSeen(rs[k], v[k]);
        assert ReplicaWeights(v)[k] <= ReplicaWeights(v)[i];
      }
    }
  }

  lemma ActiveSeen(r: Replica, v: seq<HostView>)
    requires v == r.View()
    ensures ReplicaActive(v) <==> SomeActive(r.hosts)
  {
    if SomeActive(r.hosts) {
      var i :| 0 <= i < |r.hosts| && r.hosts[i].active;
      assert v[i].active;
    }
    if ReplicaActive(v) {
      var i :| 0 <= i < |v| && v[i].active;
      assert r.hosts[i].active;
    }
  }

  /** What the cluster chooses, in these terms. */
  lemma ChosenByLoad(c: Cluster, rs: nat, i: nat, hs: nat, j: nat)
    requires FirstLeast(ReplicaWeights(c.View()), rs, i) && FirstLeast(HostWeights(c.View()[i]), hs, j)
    ensures LeastLoadedReplica(c.replicas, c.replicas[i])
    ensures LeastLoaded(c.replicas[i].hosts, c.replicas[i].hosts[j])
  {
    LeastReplica(c.replicas, c.View(), rs, i);
    LeastHost(c.replicas[i].hosts, c.View()[i], hs, j);
  }

  /** A penalised host loses to one that was no more loaded before the penalty. */
  method ChooseAfterPenalty(r: Replica, a: Node, b: Node) returns (h: Node)
    requires r.Valid() && a in r.hosts && b in r.hosts && a != b && b.active
    requires forall n :: n in r.hosts ==> n.connections + n.penalty + n.penaltySize < MAX32
    requires b.connections + b.penalty <= a.connections + a.penalty && a.penalty < a.penaltyMaxSize && a.penaltySize > 0
    modifies a`penalty, r`nextHostIdx
    ensures h in r.hosts && h != a && h.active && h.connections + h.penalty <= b.connections + b.penalty
  {
    WordFollows(a.penalty, Add32(a.penalty, a.penaltySize), a.penaltySize);
    var armed := a.Penalize();
    var k;
    h, k := r.GetHost();
  }
}
