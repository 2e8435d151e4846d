/** When the per-minute limit holds: with enough requests in flight the limiter's word reaches the
    sign bit, and one attempt too many passes. */
module AdmissionOverrun {
  import opened Words
  import opened Admission
  import opened AdmissionLedger
  import opened AdmissionSafety
  import opened AdmissionSolo

  /** A set of states that contains the next state with each state. */
  type Reached = State -> bool

  ghost predicate Plays(cfg: Config, reach: Reached) {
    && GoodConfig(cfg)
    && (forall s {:trigger Inv(cfg, s)} :: reach(s) ==> Inv(cfg, s))
    && (forall s, e, s' {:trigger Step(cfg, s, e, s')} :: reach(s) && Step(cfg, s, e, s') ==> reach(s'))
  }

  lemma {:induction false} RunReaches(cfg: Config, reach: Reached, states: seq<State>, events: seq<Event>, n: nat)
    requires Plays(cfg, reach) && Run(cfg, states, events) && reach(states[0]) && n <= |events|
    ensures reach(states[n])
  {
    if n > 0 {
      RunReaches(cfg, reach, states, events, n - 1);
      assert Step(cfg, states[n - 1], events[n - 1], states[n]);
    }
  }

  // ---------- Steps that leave the limiters alone ----------

  /** What a limiter holds and what has been booked on it. */
  datatype Rate = Rate(rpm: u32, charged: nat, stale: nat, epoch: nat)

  function RateOf(l: Ledger): Rate {
    Rate(l.rpm, l.charged, l.stale, l.epoch)
  }

  predicate Quiet(s: State, e: Event) {
    match e
    case Arrive(_, _, _, _) => true
    case Advance(id) => id in s.requests && !s.requests[id].pc.IncRate? && !s.requests[id].pc.UndoRate?
    case Finish(_) => true
    case _ => false
  }

  lemma QuietRate(cfg: Config, s: State, e: Event, a: Account)
    requires WellFormed(cfg, s) && Enabled(cfg, s, e) && Quiet(s, e) && a in cfg.limits
    ensures RateOf(LedgerAfter(cfg, s, e, a)) == RateOf(s.ledgers[a])
  {
  }

  /** The step leaves `keys` in progress and request `id`, if it goes on, at `pc`. */
  lemma QuietPush(cfg: Config, reach: Reached, s: State, e: Event, a: Account) returns (s': State)
    requires Plays(cfg, reach) && reach(s) && WellFormed(cfg, s) && Enabled(cfg, s, e) && Quiet(s, e)
    requires a in cfg.limits
    ensures reach(s') && WellFormed(cfg, s')
    ensures s'.requests == Put(s.requests, e.id, RequestAfter(cfg, s, e))
    ensures RateOf(s'.ledgers[a]) == RateOf(s.ledgers[a])
  {
    QuietRate(cfg, s, e, a);
    StepWellFormed(cfg, s, e);
    s' := Apply(cfg, s, e);
    assert Step(cfg, s, e, s');
  }

  /** Where a request goes on its own, given what it finds.  Its accounts stay the same. */
  lemma PcOnward(cfg: Config, s: State, id: nat)
    requires WellFormed(cfg, s) && id in s.requests && Enabled(cfg, s, Advance(id))
    ensures var r, r' := s.requests[id], RequestAfter(cfg, s, Advance(id));
            && (r'.Some? ==> r'.value.user.account == r.user.account && r'.value.cuser.account == r.cuser.account)
            && match r.pc
            case TryQueue(side) =>
              r'.Some? && (r'.value.pc == IncQuery(OfUser) || (side == OfUser && r'.value.pc == TryQueue(OfCluster)))
            case Connecting => r'.Some? && r'.value.pc == Releasing(true)
            case Releasing(true) =>
              && r'.Some?
              && (if Freed(r).Some? then r'.value.pc == r.pc && Tokens(r'.value) < Tokens(r) else r'.value.pc == Serving)
            case DecQuery(side) => r'.Some? && r'.value.pc == (if side == OfUser then DecQuery(OfCluster) else DecHost)
            case DecHost => r'.None?
            case _ => true
  {
  }

  function Tokens(r: Request): nat {
    (if r.user.token then 1 else 0) + (if r.cuser.token then 1 else 0)
  }

  /** A request of accounts `u` and `c` among the requests `keys`, while the limiter of account `a`
      holds `rate`. */
  datatype Journey = Journey(id: nat, u: Account, c: Account, keys: set<nat>, a: Account, rate: Rate)

  ghost predicate Under(cfg: Config, reach: Reached, s: State, j: Journey) {
    && reach(s) && WellFormed(cfg, s) && j.a in cfg.limits
    && RateOf(s.ledgers[j.a]) == j.rate
    && j.id in s.requests && s.requests.Keys == j.keys
    && s.requests[j.id].user.account == j.u && s.requests[j.id].cuser.account == j.c
  }

  lemma OnePace(cfg: Config, reach: Reached, s: State, j: Journey) returns (s': State)
    requires Plays(cfg, reach) && Under(cfg, reach, s, j)
    requires var pc := s.requests[j.id].pc; pc.TryQueue? || pc.Connecting? || pc == Releasing(true) || pc.DecQuery?
    ensures Under(cfg, reach, s', j)
    ensures var r, r' := s.requests[j.id], s'.requests[j.id];
            match r.pc
            case TryQueue(side) => r'.pc == IncQuery(OfUser) || (side == OfUser && r'.pc == TryQueue(OfCluster))
            case Connecting => r'.pc == Releasing(true)
            case Releasing(_) => (r'.pc == r.pc && Tokens(r') < Tokens(r)) || r'.pc == Serving
            case DecQuery(side) => r'.pc == if side == OfUser then DecQuery(OfCluster) else DecHost
            case _ => true
  {
    CanAdvance(cfg, reach, s, j.id);
    PcOnward(cfg, s, j.id);
    s' := QuietPush(cfg, reach, s, Advance(j.id), j.a);
  }

  lemma CanAdvance(cfg: Config, reach: Reached, s: State, id: nat)
    requires Plays(cfg, reach) && reach(s) && id in s.requests && Busy(s.requests[id].pc)
    ensures WellFormed(cfg, s) && Enabled(cfg, s, Advance(id))
  {
    assert Inv(cfg, s);
    BusyGoesOn(cfg, s, id);
  }

  /** A new request arrives and passes the queues. */
  lemma Arriving(cfg: Config, reach: Reached, s: State, j: Journey, host: Host) returns (s': State)
    requires Plays(cfg, reach) && reach(s) && WellFormed(cfg, s) && j.a in cfg.limits
    requires s.requests.Keys + {j.id} == j.keys && RateOf(s.ledgers[j.a]) == j.rate
    requires Enabled(cfg, s, Arrive(j.id, j.u, j.c, host))
    ensures Under(cfg, reach, s', j) && s'.requests[j.id].pc == IncQuery(OfUser)
  {
    s' := QuietPush(cfg, reach, s, Arrive(j.id, j.u, j.c, host), j.a);
    s' := OnePace(cfg, reach, s', j);
    if s'.requests[j.id].pc.TryQueue? {
      s' := OnePace(cfg, reach, s', j);
    }
  }

  /** An admitted request gives its tokens back. */
  lemma {:induction false} Releases(cfg: Config, reach: Reached, s: State, j: Journey) returns (s': State)
    requires Plays(cfg, reach) && Under(cfg, reach, s, j) && s.requests[j.id].pc == Releasing(true)
    ensures Under(cfg, reach, s', j) && s'.requests[j.id].pc == Serving
    decreases Tokens(s.requests[j.id])
  {
    s' := OnePace(cfg, reach, s, j);
    if s'.requests[j.id].pc != Serving {
      s' := Releases(cfg, reach, s', j);
    }
  }

  lemma Serves(cfg: Config, reach: Reached, s: State, j: Journey) returns (s': State)
    requires Plays(cfg, reach) && Under(cfg, reach, s, j) && s.requests[j.id].pc == Connecting
    ensures Under(cfg, reach, s', j) && s'.requests[j.id].pc == Serving
  {
    s' := OnePace(cfg, reach, s, j);
    s' := Releases(cfg, reach, s', j);
  }

  lemma Decrements(cfg: Config, reach: Reached, s: State, j: Journey) returns (s': State)
    requires Plays(cfg, reach) && Under(cfg, reach, s, j) && s.requests[j.id].pc == DecQuery(OfUser)
    ensures Under(cfg, reach, s', j) && s'.requests[j.id].pc == DecHost
  {
    s' := OnePace(cfg, reach, s, j);
    s' := OnePace(cfg, reach, s', j);
  }

  /** The request is over; the limiter still holds `rate`. */
  ghost predicate Over(cfg: Config, reach: Reached, s: State, j: Journey) {
    && reach(s) && WellFormed(cfg, s) && j.a in cfg.limits
    && s.requests.Keys == j.keys - {j.id} && RateOf(s.ledgers[j.a]) == j.rate
  }

  lemma Goes(cfg: Config, reach: Reached, s: State, j: Journey) returns (s': State)
    requires Plays(cfg, reach) && Under(cfg, reach, s, j) && s.requests[j.id].pc == DecHost
    ensures Over(cfg, reach, s', j)
  {
    CanAdvance(cfg, reach, s, j.id);
    PcOnward(cfg, s, j.id);
    s' := QuietPush(cfg, reach, s, Advance(j.id), j.a);
  }

  /** An admitted request is served and goes. */
  lemma ServedAndGone(cfg: Config, reach: Reached, s: State, j: Journey) returns (s': State)
    requires Plays(cfg, reach) && Under(cfg, reach, s, j) && s.requests[j.id].pc == Connecting
    ensures Over(cfg, reach, s', j)
  {
    s' := Serves(cfg, reach, s, j);
    s' := Finishing(cfg, reach, s', j);
    s' := Decrements(cfg, reach, s', j);
    s' := Goes(cfg, reach, s', j);
  }

  lemma Finishing(cfg: Config, reach: Reached, s: State, j: Journey) returns (s': State)
    requires Plays(cfg, reach) && Under(cfg, reach, s, j) && s.requests[j.id].pc == Serving
    ensures Under(cfg, reach, s', j) && s'.requests[j.id].pc == DecQuery(OfUser)
  {
    s' := QuietPush(cfg, reach, s, Finish(j.id), j.a);
  }

  // ---------- Counting and deciding ----------

  /** The ledger of account `a` in the view. */
  function Part(v: View, a: Account): Ledger {
    if SideOf(a) == OfUser then v.user else v.cuser
  }

  predicate Owns(j: Journey) {
    j.u.User? && j.c.ClusterUser? && (j.a == j.u || j.a == j.c)
  }

  /** A solo run of the request takes the history on. */
  lemma SoloOn(cfg: Config, reach: Reached, s: State, j: Journey, solo: Solo) returns (s': State)
    requires Plays(cfg, reach) && Under(cfg, reach, s, j) && Owns(j) && SoloRun(cfg, s, j.id, solo)
    ensures Under(cfg, reach, s', j.(rate := RateOf(Part(solo.v, j.a)))) && s'.requests[j.id] == solo.v.r
  {
    RunReaches(cfg, reach, solo.states, solo.events, |solo.events|);
    s' := solo.states[|solo.events|];
    assert Inv(cfg, s');
    WithParts(s, j.id, solo.v);
  }

  lemma WithParts(s: State, id: nat, v: View)
    requires id in s.requests && v.r.user.account.User? && v.r.cuser.account.ClusterUser?
    ensures With(s, id, v).requests.Keys == s.requests.Keys && With(s, id, v).requests[id] == v.r
    ensures v.r.user.account in With(s, id, v).ledgers && With(s, id, v).ledgers[v.r.user.account] == v.user
    ensures v.r.cuser.account in With(s, id, v).ledgers && With(s, id, v).ledgers[v.r.cuser.account] == v.cuser
  {
  }

  /** Both accounts let the request pass. */
  predicate Open(cfg: Config, s: State, j: Journey) {
    && j.u in cfg.limits && j.u in s.ledgers && Passes(cfg.limits[j.u], s.ledgers[j.u])
    && j.c in cfg.limits && j.c in s.ledgers && Passes(cfg.limits[j.c], s.ledgers[j.c])
  }

  /** A request is admitted. */
  lemma Admits(cfg: Config, reach: Reached, s: State, j: Journey) returns (s': State)
    requires Plays(cfg, reach) && Under(cfg, reach, s, j) && Owns(j) && Open(cfg, s, j)
    requires s.requests[j.id].pc == IncQuery(OfUser)
    ensures Under(cfg, reach, s', j.(rate := Rate(Inc32(j.rate.rpm), j.rate.charged + 1, j.rate.stale, j.rate.epoch)))
    ensures s'.requests[j.id].pc == Connecting
  {
    var solo := IncAlone(cfg, s, j.id, true);
    s' := SoloOn(cfg, reach, s, j, solo);
  }

  /** A request is counted on both limiters and waits for the decision. */
  lemma Counts(cfg: Config, reach: Reached, s: State, j: Journey) returns (s': State)
    requires Plays(cfg, reach) && Under(cfg, reach, s, j) && Owns(j)
    requires s.requests[j.id].pc == IncQuery(OfUser)
    ensures Under(cfg, reach, s', j.(rate := j.rate.(rpm := Inc32(j.rate.rpm))))
    ensures var r := s'.requests[j.id];
            && r.pc == Deciding && PartOf(r, SideOf(j.a)).epoch == j.rate.epoch
            && (Open(cfg, s, j) ==> Starts(r, true))
  {
    var solo := Start(cfg, s, j.id);
    FourIncrements(solo.v, cfg.limits[j.u], cfg.limits[j.c]);
    solo := FourOn(cfg, s, j.id, solo);
    s' := SoloOn(cfg, reach, s, j, solo);
  }

  /** The decision is made. */
  lemma Decides(cfg: Config, reach: Reached, s: State, j: Journey) returns (s': State)
    requires Plays(cfg, reach) && Under(cfg, reach, s, j) && Owns(j)
    requires var r := s.requests[j.id]; r.pc == Deciding && Starts(r, true) && PartOf(r, SideOf(j.a)).epoch == j.rate.epoch
    ensures Under(cfg, reach, s', j.(rate := j.rate.(charged := j.rate.charged + 1)))
  {
    var solo := Start(cfg, s, j.id);
    solo := DecideOn(cfg, s, j.id, solo, true);
    s' := SoloOn(cfg, reach, s, j, solo);
  }

  // ---------- Overrunning the limit ----------

  /** Where nothing but the per-minute limit of `a` limits the requests of `u` and `c`. */
  predicate Only(cfg: Config, a: Account, u: Account, c: Account, host: Host) {
    && GoodConfig(cfg) && u in cfg.limits && u.User? && c in cfg.limits && c.ClusterUser? && host in cfg.hosts
    && (a == u || a == c) && cfg.limits[a].reqPerMin > 0
    && cfg.limits[u].maxConcurrent == 0 && cfg.limits[c].maxConcurrent == 0
    && (a != u ==> cfg.limits[u].reqPerMin == 0) && (a != c ==> cfg.limits[c].reqPerMin == 0)
  }

  lemma OpenExactly(cfg: Config, s: State, j: Journey, host: Host)
    requires Only(cfg, j.a, j.u, j.c, host) && j.u in s.ledgers && j.c in s.ledgers
    ensures Open(cfg, s, j) <==> RateOk(cfg.limits[j.a].reqPerMin, Inc32(s.ledgers[j.a].rpm))
  {
  }

  function Ids(m: nat): (ids: set<nat>)
    ensures forall i: nat :: i in ids <==> i < m
  {
    if m == 0 then {} else Ids(m - 1) + {m - 1}
  }

  lemma {:induction false} IdsSize(m: nat)
    ensures |Ids(m)| == m
  {
    if m > 0 {
      IdsSize(m - 1);
    }
  }

  /** The requests below `m` are in progress, and the limiter of `a` holds `rate`. */
  ghost predicate Stands(cfg: Config, reach: Reached, s: State, m: nat, a: Account, rate: Rate) {
    && reach(s) && WellFormed(cfg, s) && a in cfg.limits
    && s.requests.Keys == Ids(m) && RateOf(s.ledgers[a]) == rate
  }

  /** One more request arrives and is about to be counted. */
  lemma Comes(cfg: Config, reach: Reached, s: State, m: nat, a: Account, u: Account, c: Account, host: Host, rate: Rate)
    returns (s': State, j: Journey)
    requires Plays(cfg, reach) && Only(cfg, a, u, c, host) && Stands(cfg, reach, s, m, a, rate) && m < cfg.maxInFlight
    ensures j == Journey(m, u, c, Ids(m + 1), a, rate) && Under(cfg, reach, s', j)
    ensures s'.requests[j.id].pc == IncQuery(OfUser)
  {
    j := Journey(m, u, c, Ids(m + 1), a, rate);
    IdsSize(m);
    assert Ids(m) + {m} == Ids(m + 1);
    assert |s.requests| == |s.requests.Keys|;
    s' := Arriving(cfg, reach, s, j, host);
  }

  lemma ComesOpen(cfg: Config, reach: Reached, s: State, m: nat, a: Account, u: Account, c: Account, host: Host, rate: Rate)
    returns (s': State, j: Journey)
    requires Plays(cfg, reach) && Only(cfg, a, u, c, host) && Stands(cfg, reach, s, m, a, rate) && m < cfg.maxInFlight
    ensures j == Journey(m, u, c, Ids(m + 1), a, rate) && Owns(j) && Under(cfg, reach, s', j)
    ensures s'.requests[j.id].pc == IncQuery(OfUser)
    ensures Open(cfg, s', j) <==> RateOk(cfg.limits[a].reqPerMin, Inc32(rate.rpm))
  {
    s', j := Comes(cfg, reach, s, m, a, u, c, host, rate);
    OpenExactly(cfg, s', j, host);
  }

  lemma ChargesOne(cfg: Config, reach: Reached, s: State, a: Account, u: Account, c: Account, host: Host, n: nat)
    returns (s': State, j: Journey)
    requires Plays(cfg, reach) && Only(cfg, a, u, c, host) && n < cfg.limits[a].reqPerMin < TWO31 && cfg.maxInFlight > 0
    requires Stands(cfg, reach, s, 0, a, Rate(n, n, 0, 0))
    ensures j == Journey(0, u, c, Ids(1), a, Rate(n + 1, n + 1, 0, 0)) && Under(cfg, reach, s', j)
    ensures s'.requests[j.id].pc == Connecting
  {
    assert Inc32(n) == n + 1;
    var s1, j1 := ComesOpen(cfg, reach, s, 0, a, u, c, host, Rate(n, n, 0, 0));
    s' := Admits(cfg, reach, s1, j1);
    j := j1.(rate := Rate(n + 1, n + 1, 0, 0));
  }

  /** One more request is served and charged. */
  lemma ServesOne(cfg: Config, reach: Reached, s: State, a: Account, u: Account, c: Account, host: Host, n: nat)
    returns (s': State)
    requires Plays(cfg, reach) && Only(cfg, a, u, c, host) && n < cfg.limits[a].reqPerMin < TWO31 && cfg.maxInFlight > 0
    requires Stands(cfg, reach, s, 0, a, Rate(n, n, 0, 0))
    ensures Stands(cfg, reach, s', 0, a, Rate(n + 1, n + 1, 0, 0))
  {
    var s1, j := ChargesOne(cfg, reach, s, a, u, c, host, n);
    s' := ServedAndGone(cfg, reach, s1, j);
    assert Ids(1) - {0} == Ids(0);
  }

  lemma {:induction false} ServesMany(cfg: Config, reach: Reached, s: State, a: Account, u: Account, c: Account, host: Host,
                                      n: nat)
    returns (s': State)
    requires Plays(cfg, reach) && Only(cfg, a, u, c, host) && n <= cfg.limits[a].reqPerMin < TWO31 && cfg.maxInFlight > 0
    requires Stands(cfg, reach, s, 0, a, Rate(0, 0, 0, 0))
    ensures Stands(cfg, reach, s', 0, a, Rate(n, n, 0, 0))
  {
    s' := s;
    if n > 0 {
      s' := ServesMany(cfg, reach, s, a, u, c, host, n - 1);
      s' := ServesOne(cfg, reach, s', a, u, c, host, n - 1);
    }
  }

  /** One more attempt is counted and waits for its decision. */
  lemma HoldsOne(cfg: Config, reach: Reached, s: State, a: Account, u: Account, c: Account, host: Host, m: nat, rate: Rate)
    returns (s': State, j: Journey)
    requires Plays(cfg, reach) && Only(cfg, a, u, c, host) && m < cfg.maxInFlight && Stands(cfg, reach, s, m, a, rate)
    ensures j == Journey(m, u, c, Ids(m + 1), a, rate.(rpm := Inc32(rate.rpm))) && Owns(j) && Under(cfg, reach, s', j)
    ensures s'.requests[m].pc == Deciding && PartOf(s'.requests[m], SideOf(a)).epoch == rate.epoch
    ensures RateOk(cfg.limits[a].reqPerMin, Inc32(rate.rpm)) ==> Starts(s'.requests[m], true)
  {
    var s1, j1 := ComesOpen(cfg, reach, s, m, a, u, c, host, rate);
    s' := Counts(cfg, reach, s1, j1);
    j := j1.(rate := rate.(rpm := Inc32(rate.rpm)));
  }

  lemma OneCounted(rate: Rate)
    requires rate.rpm < MAX32
    ensures rate.(rpm := Inc32(rate.rpm)) == rate.(rpm := rate.rpm + 1)
  {
  }

  lemma {:induction false} HoldsMany(cfg: Config, reach: Reached, s: State, a: Account, u: Account, c: Account, host: Host,
                                     m: nat, rate: Rate)
    returns (s': State)
    requires Plays(cfg, reach) && Only(cfg, a, u, c, host) && m <= cfg.maxInFlight && rate.rpm + m < TWO32
    requires Stands(cfg, reach, s, 0, a, rate)
    ensures Stands(cfg, reach, s', m, a, rate.(rpm := rate.rpm + m))
  {
    s' := s;
    if m > 0 {
      s' := HoldsMany(cfg, reach, s, a, u, c, host, m - 1, rate);
      s' := HoldsNext(cfg, reach, s', a, u, c, host, m - 1, rate.(rpm := rate.rpm + (m - 1)));
    }
  }

  lemma HoldsNext(cfg: Config, reach: Reached, s: State, a: Account, u: Account, c: Account, host: Host, m: nat, rate: Rate)
    returns (s': State)
    requires Plays(cfg, reach) && Only(cfg, a, u, c, host) && m < cfg.maxInFlight && Stands(cfg, reach, s, m, a, rate)
    requires rate.rpm < MAX32
    ensures Stands(cfg, reach, s', m + 1, a, rate.(rpm := rate.rpm + 1))
  {
    OneCounted(rate);
    var j;
    s', j := HoldsOne(cfg, reach, s, a, u, c, host, m, rate);
  }

  /** After `limit` requests have been served and charged, the attempt that brings the word to 2^31
      passes, with nothing stale: `limit + 1` are charged. */
  lemma Overruns(cfg: Config, reach: Reached, s: State, a: Account, u: Account, c: Account, host: Host) returns (s': State)
    requires Plays(cfg, reach) && Only(cfg, a, u, c, host) && cfg.limits[a].reqPerMin + cfg.maxInFlight >= TWO31
    requires Stands(cfg, reach, s, 0, a, Rate(0, 0, 0, 0))
    ensures reach(s') && a in s'.ledgers
    ensures s'.ledgers[a].charged == cfg.limits[a].reqPerMin + 1 && s'.ledgers[a].stale == 0
  {
    var limit := cfg.limits[a].reqPerMin;
    var m := TWO31 - limit - 1;
    s' := ServesMany(cfg, reach, s, a, u, c, host, limit);
    s' := HoldsMany(cfg, reach, s', a, u, c, host, m, Rate(limit, limit, 0, 0));
    s' := OneTooMany(cfg, reach, s', a, u, c, host, m);
  }

  lemma OneTooMany(cfg: Config, reach: Reached, s: State, a: Account, u: Account, c: Account, host: Host, m: nat)
    returns (s': State)
    requires Plays(cfg, reach) && Only(cfg, a, u, c, host) && m < cfg.maxInFlight
    requires Stands(cfg, reach, s, m, a, Rate(TWO31 - 1, cfg.limits[a].reqPerMin, 0, 0))
    ensures reach(s') && a in s'.ledgers
    ensures s'.ledgers[a].charged == cfg.limits[a].reqPerMin + 1 && s'.ledgers[a].stale == 0
  {
    var rate := Rate(TWO31 - 1, cfg.limits[a].reqPerMin, 0, 0);
    SignBitPasses(cfg.limits[a].reqPerMin);
    var j;
    s', j := HoldsOne(cfg, reach, s, a, u, c, host, m, rate);
    s' := Decides(cfg, reach, s', j);
  }

  lemma SignBitPasses(limit: int)
    requires 0 < limit < TWO31
    ensures RateOk(limit, Inc32(TWO31 - 1))
  {
  }

  // ---------- In terms of interleavings ----------

  ghost predicate Ends(cfg: Config, states: seq<State>, events: seq<Event>, s: State) {
    Run(cfg, states, events) && Initial(cfg, states[0]) && states[|events|] == s
  }

  /** `s` is the last state of some interleaving. */
  ghost predicate Arises(cfg: Config, s: State) {
    exists states, events :: Ends(cfg, states, events, s)
  }

  lemma EndsInterleaving(cfg: Config, states: seq<State>, events: seq<Event>, s: State)
    requires Ends(cfg, states, events, s)
    ensures Interleaving(cfg, states, events)
  {
    forall i | 0 <= i < |events|
      ensures WellFormed(cfg, states[i]) && Enabled(cfg, states[i], events[i])
              && states[i + 1] == Apply(cfg, states[i], events[i])
    {
      assert Step(cfg, states[i], events[i], states[i + 1]);
    }
  }

  lemma ArisesPlays(cfg: Config)
    requires GoodConfig(cfg)
    ensures Plays(cfg, s => Arises(cfg, s))
  {
    forall s | Arises(cfg, s) ensures Inv(cfg, s) {
      var states, events :| Ends(cfg, states, events, s);
      EndsInterleaving(cfg, states, events, s);
      Reachable(cfg, states, events, |events|);
    }
    forall s, e, s' | Arises(cfg, s) && Step(cfg, s, e, s') ensures Arises(cfg, s') {
      var states, events :| Ends(cfg, states, events, s);
      Extend(cfg, states, events, e, s');
      assert Ends(cfg, states + [s'], events + [e], s');
    }
  }

  /** At no moment of any interleaving are more attempts charged to the limiter of `a` than its
      limit and the stale decrements allow. */
  ghost predicate LimitHolds(cfg: Config, a: Account)
    requires a in cfg.limits
  {
    forall s :: Arises(cfg, s) ==>
      a in s.ledgers && s.ledgers[a].charged <= cfg.limits[a].reqPerMin + s.ledgers[a].stale
  }

  /** Where nothing else limits, the per-minute limit is kept in all interleavings if and only if
      it leaves room below the sign bit for all requests in flight. */
  lemma RateLimitExactly(cfg: Config, a: Account, u: Account, c: Account, host: Host)
    requires Only(cfg, a, u, c, host)
    ensures LimitHolds(cfg, a) <==> cfg.limits[a].reqPerMin + cfg.maxInFlight < TWO31
  {
    if cfg.limits[a].reqPerMin + cfg.maxInFlight < TWO31 {
      forall s | Arises(cfg, s)
        ensures a in s.ledgers && s.ledgers[a].charged <= cfg.limits[a].reqPerMin + s.ledgers[a].stale
      {
        var states, events :| Ends(cfg, states, events, s);
        EndsInterleaving(cfg, states, events, s);
        RateLimit(cfg, states, events, |events|, a);
      }
    } else {
      var s := OverrunArises(cfg, a, u, c, host);
    }
  }

  lemma OverrunArises(cfg: Config, a: Account, u: Account, c: Account, host: Host) returns (s: State)
    requires Only(cfg, a, u, c, host) && cfg.limits[a].reqPerMin + cfg.maxInFlight >= TWO31
    ensures Arises(cfg, s) && a in s.ledgers
    ensures s.ledgers[a].charged == cfg.limits[a].reqPerMin + 1 && s.ledgers[a].stale == 0
  {
    var s0 := Beginning(cfg);
    assert Ends(cfg, [s0], [], s0);
    ArisesPlays(cfg);
    s := Overruns(cfg, s' => Arises(cfg, s'), s0, a, u, c, host);
  }

  lemma Beginning(cfg: Config) returns (s: State)
    ensures Initial(cfg, s) && s.requests.Keys == Ids(0)
  {
    s := State(map b | b in cfg.limits :: Ledger(0, 0, 0, 0, 0, 0, 0, 0), map h | h in cfg.hosts :: 0, map[]);
  }
}
