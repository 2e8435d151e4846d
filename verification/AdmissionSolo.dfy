/** A call of `inc` that nobody interrupts, in whatever state it is made: the request is admitted
    exactly if there is room for it, and a refused one leaves no trace in the counters. */
module AdmissionSolo {
  import opened Words
  import opened Admission
  import opened AdmissionLedger
  import opened AdmissionSafety

  /** A request and the ledgers of its two accounts. */
  datatype View = View(r: Request, user: Ledger, cuser: Ledger)

  /** `s` with request `id` and the ledgers of its accounts as in `v`. */
  function With(s: State, id: nat, v: View): State {
    s.(requests := s.requests[id := v.r], ledgers := s.ledgers[v.r.user.account := v.user][v.r.cuser.account := v.cuser])
  }

  /** `v` is a view of request `id` of `s`, now or later. */
  predicate Based(cfg: Config, s: State, id: nat, v: View) {
    && WellFormed(cfg, s) && id in s.requests && Known(cfg, v.r)
    && v.r.user.account == s.requests[id].user.account && v.r.cuser.account == s.requests[id].cuser.account
  }

  lemma WithWellFormed(cfg: Config, s: State, id: nat, v: View)
    requires Based(cfg, s, id, v)
    ensures WellFormed(cfg, With(s, id, v))
  {
    assert With(s, id, v).requests.Keys == s.requests.Keys;
    assert |s.requests.Keys| == |s.requests|;
  }

  // ---------- The operations of inc ----------

  predicate Incs(pc: Pc, side: Side) {
    pc in {IncQuery(side), IncRate(side), UndoQuery(side), UndoRate(side)}
  }

  /** The view after one of them, on the account of that side. */
  function Next(v: View, side: Side, limU: Limits, limC: Limits): View
    requires Incs(v.r.pc, side)
  {
    var pc := v.r.pc;
    var pc' := NextPc(pc, true, true, None).value;
    if side == OfUser then
      var l := After(v.user, PartOp(v.r.user, side, pc, true, None));
      View(v.r.(user := NextPart(v.r.user, side, pc, limU, v.user, l, None), pc := pc'), l, v.cuser)
    else
      var l := After(v.cuser, PartOp(v.r.cuser, side, pc, true, None));
      View(v.r.(cuser := NextPart(v.r.cuser, side, pc, limC, v.cuser, l, None), pc := pc'), v.user, l)
  }

  function NextIn(cfg: Config, v: View, side: Side): View
    requires Known(cfg, v.r) && Incs(v.r.pc, side)
  {
    Next(v, side, cfg.limits[v.r.user.account], cfg.limits[v.r.cuser.account])
  }

  /** `v` is what `t` holds for request `id`. */
  predicate Shows(cfg: Config, t: State, id: nat, v: View) {
    && WellFormed(cfg, t) && id in t.requests && t.requests[id] == v.r
    && t.ledgers[v.r.user.account] == v.user && t.ledgers[v.r.cuser.account] == v.cuser
  }

  lemma RequestStep(cfg: Config, t: State, id: nat, v: View, side: Side)
    requires Shows(cfg, t, id, v) && Incs(v.r.pc, side)
    ensures Enabled(cfg, t, Advance(id))
    ensures RequestAfter(cfg, t, Advance(id)) ==
              Some(NextIn(cfg, v, side).r)
  {
    var u, c := v.r.user.account, v.r.cuser.account;
    assert PartAfter(cfg.limits[u], t.ledgers[u], Advance(id), v.r, OfUser) == NextIn(cfg, v, side).r.user;
    assert PartAfter(cfg.limits[c], t.ledgers[c], Advance(id), v.r, OfCluster) == NextIn(cfg, v, side).r.cuser;
  }

  lemma UserStep(cfg: Config, t: State, id: nat, v: View, side: Side)
    requires Shows(cfg, t, id, v) && Incs(v.r.pc, side)
    ensures Enabled(cfg, t, Advance(id))
    ensures LedgerAfter(cfg, t, Advance(id), v.r.user.account) == NextIn(cfg, v, side).user
  {
  }

  lemma ClusterStep(cfg: Config, t: State, id: nat, v: View, side: Side)
    requires Shows(cfg, t, id, v) && Incs(v.r.pc, side)
    ensures Enabled(cfg, t, Advance(id))
    ensures LedgerAfter(cfg, t, Advance(id), v.r.cuser.account) == NextIn(cfg, v, side).cuser
  {
  }

  lemma OthersStill(cfg: Config, t: State, id: nat, v: View, side: Side, a: Account)
    requires Shows(cfg, t, id, v) && Incs(v.r.pc, side)
    requires a in cfg.limits && a != v.r.user.account && a != v.r.cuser.account
    ensures Enabled(cfg, t, Advance(id)) && LedgerAfter(cfg, t, Advance(id), a) == t.ledgers[a]
  {
  }

  lemma ConnsStill(cfg: Config, t: State, id: nat, v: View, side: Side, h: Host)
    requires Shows(cfg, t, id, v) && Incs(v.r.pc, side) && h in t.conns
    ensures ConnAfter(t, Advance(id), h) == t.conns[h]
  {
  }

  predicate Leaves(cfg: Config, t: State, e: Event, v: View)
    requires WellFormed(cfg, t) && Enabled(cfg, t, e) && Known(cfg, v.r)
  {
    && LedgerAfter(cfg, t, e, v.r.user.account) == v.user && LedgerAfter(cfg, t, e, v.r.cuser.account) == v.cuser
    && (forall a <- cfg.limits ::
          a != v.r.user.account && a != v.r.cuser.account ==> LedgerAfter(cfg, t, e, a) == t.ledgers[a])
    && (forall h <- cfg.hosts :: ConnAfter(t, e, h) == t.conns[h])
  }

  lemma SameLedgers(m: map<Account, Ledger>, m': map<Account, Ledger>, u: Account, c: Account)
    requires m'.Keys == m.Keys && u in m && c in m
    requires forall a <- m :: a != u && a != c ==> m'[a] == m[a]
    ensures m' == m[u := m'[u]][c := m'[c]]
  {
  }

  lemma AssembledLedgers(cfg: Config, t: State, id: nat, e: Event, v: View)
    requires WellFormed(cfg, t) && Enabled(cfg, t, e) && Known(cfg, v.r) && Leaves(cfg, t, e, v)
    ensures Apply(cfg, t, e).ledgers == With(t, id, v).ledgers
  {
    SameLedgers(t.ledgers, Apply(cfg, t, e).ledgers, v.r.user.account, v.r.cuser.account);
  }

  lemma AssembledConns(cfg: Config, t: State, id: nat, e: Event, v: View)
    requires WellFormed(cfg, t) && Enabled(cfg, t, e) && Known(cfg, v.r) && Leaves(cfg, t, e, v)
    ensures Apply(cfg, t, e).conns == With(t, id, v).conns
  {
  }

  /** A step of request `id` that leaves it and its accounts as in `v`. */
  lemma Assembled(cfg: Config, t: State, id: nat, e: Event, v: View)
    requires WellFormed(cfg, t) && Enabled(cfg, t, e) && !e.ZeroLimiter? && e.id == id && Known(cfg, v.r)
    requires RequestAfter(cfg, t, e) == Some(v.r) && Leaves(cfg, t, e, v)
    ensures Apply(cfg, t, e) == With(t, id, v)
  {
    AssembledLedgers(cfg, t, id, e, v);
    AssembledConns(cfg, t, id, e, v);
  }

  /** One operation of `inc` that nobody interrupts. */
  lemma StepAlone(cfg: Config, t: State, id: nat, v: View, side: Side)
    requires Shows(cfg, t, id, v) && Incs(v.r.pc, side)
    ensures Enabled(cfg, t, Advance(id))
    ensures Apply(cfg, t, Advance(id)) == With(t, id, NextIn(cfg, v, side))
  {
    RequestStep(cfg, t, id, v, side);
    UserStep(cfg, t, id, v, side);
    ClusterStep(cfg, t, id, v, side);
    forall a <- cfg.limits | a != v.r.user.account && a != v.r.cuser.account
      ensures LedgerAfter(cfg, t, Advance(id), a) == t.ledgers[a]
    {
      OthersStill(cfg, t, id, v, side, a);
    }
    forall h <- cfg.hosts ensures ConnAfter(t, Advance(id), h) == t.conns[h] {
      ConnsStill(cfg, t, id, v, side, h);
    }
    Assembled(cfg, t, id, Advance(id), NextIn(cfg, v, side));
  }

  lemma WithShows(cfg: Config, s: State, id: nat, v: View)
    requires Based(cfg, s, id, v)
    ensures Shows(cfg, With(s, id, v), id, v)
  {
    WithWellFormed(cfg, s, id, v);
  }

  lemma WithTwice(s: State, id: nat, v: View, w: View)
    requires v.r.user.account == w.r.user.account && v.r.cuser.account == w.r.cuser.account
    ensures With(With(s, id, v), id, w) == With(s, id, w)
  {
  }

  ghost predicate Step(cfg: Config, t: State, e: Event, t': State) {
    WellFormed(cfg, t) && Enabled(cfg, t, e) && t' == Apply(cfg, t, e)
  }

  /** The events lead through the states. */
  ghost predicate Run(cfg: Config, states: seq<State>, events: seq<Event>) {
    && |states| == |events| + 1
    && forall i {:trigger events[i]} :: 0 <= i < |events| ==> Step(cfg, states[i], events[i], states[i + 1])
  }

  lemma Extend(cfg: Config, states: seq<State>, events: seq<Event>, e: Event, t: State)
    requires Run(cfg, states, events) && Step(cfg, states[|events|], e, t)
    ensures Run(cfg, states + [t], events + [e])
  {
    var states', events' := states + [t], events + [e];
    forall i | 0 <= i < |events'| ensures Step(cfg, states'[i], events'[i], states'[i + 1]) {
      assert states'[i] == states[i];
      if i < |events| {
        assert events'[i] == events[i] && states'[i + 1] == states[i + 1];
      }
    }
  }

  lemma StepFrom(cfg: Config, s: State, id: nat, v: View, side: Side)
    requires Based(cfg, s, id, v) && Incs(v.r.pc, side)
    ensures var w := NextIn(cfg, v, side);
            Based(cfg, s, id, w) && Step(cfg, With(s, id, v), Advance(id), With(s, id, w))
  {
    var w := NextIn(cfg, v, side);
    assert Based(cfg, s, id, w);
    WithShows(cfg, s, id, v);
    StepAlone(cfg, With(s, id, v), id, v, side);
    WithTwice(s, id, v, w);
  }

  /** A run of nothing but request `id`, which has arrived at `v`. */
  datatype Solo = Solo(states: seq<State>, events: seq<Event>, v: View)

  ghost predicate SoloRun(cfg: Config, s: State, id: nat, solo: Solo) {
    && Run(cfg, solo.states, solo.events) && solo.states[0] == s
    && Based(cfg, s, id, solo.v) && solo.states[|solo.events|] == With(s, id, solo.v)
  }

  lemma OneOn(cfg: Config, s: State, id: nat, solo: Solo, side: Side) returns (next: Solo)
    requires SoloRun(cfg, s, id, solo) && Incs(solo.v.r.pc, side)
    ensures SoloRun(cfg, s, id, next)
    ensures var r := s.requests[id];
            next.v == Next(solo.v, side, cfg.limits[r.user.account], cfg.limits[r.cuser.account])
  {
    StepFrom(cfg, s, id, solo.v, side);
    var v := NextIn(cfg, solo.v, side);
    Extend(cfg, solo.states, solo.events, Advance(id), With(s, id, v));
    next := Solo(solo.states + [With(s, id, v)], solo.events + [Advance(id)], v);
  }

  function Four(v: View, limU: Limits, limC: Limits): View
    requires v.r.pc in {IncQuery(OfUser), UndoQuery(OfUser)}
  {
    var w := Next(Next(v, OfUser, limU, limC), OfCluster, limU, limC);
    Next(Next(w, OfUser, limU, limC), OfCluster, limU, limC)
  }

  /** The four increments, or the four decrements, on both accounts in turn. */
  lemma FourOn(cfg: Config, s: State, id: nat, solo: Solo) returns (next: Solo)
    requires SoloRun(cfg, s, id, solo) && solo.v.r.pc in {IncQuery(OfUser), UndoQuery(OfUser)}
    ensures SoloRun(cfg, s, id, next)
    ensures next.v == Four(solo.v, cfg.limits[s.requests[id].user.account], cfg.limits[s.requests[id].cuser.account])
  {
    next := OneOn(cfg, s, id, solo, OfUser);
    next := OneOn(cfg, s, id, next, OfCluster);
    next := OneOn(cfg, s, id, next, OfUser);
    next := OneOn(cfg, s, id, next, OfCluster);
  }

  // ---------- A whole call ----------

  /** The checks of one account pass on its counters as they are. */
  predicate Passes(lim: Limits, l: Ledger) {
    QueryOk(lim, Inc32(l.query)) && RateOk(lim.reqPerMin, Inc32(l.rpm))
  }

  function Counted(l: Ledger): Ledger {
    l.(query := Inc32(l.query), rpm := Inc32(l.rpm))
  }

  lemma FourIncrements(v: View, limU: Limits, limC: Limits)
    requires v.r.pc == IncQuery(OfUser)
    ensures var w := Four(v, limU, limC);
            && w.user == Counted(v.user) && w.cuser == Counted(v.cuser) && w.r.pc == Deciding
            && w.r.user.epoch == v.user.epoch && w.r.cuser.epoch == v.cuser.epoch
            && forall ok :: Starts(w.r, ok) <==> Passes(limU, v.user) && Passes(limC, v.cuser) && ok
  {
  }

  function Uncounted(l: Ledger): Ledger {
    l.(query := Dec32(l.query), rpm := Dec32(l.rpm))
  }

  lemma CountedBack(l: Ledger)
    ensures Uncounted(Counted(l)) == l
  {
    IncDecCancel(l.query);
    IncDecCancel(l.rpm);
  }

  lemma FourDecrements(v: View, limU: Limits, limC: Limits)
    requires v.r.pc == UndoQuery(OfUser) && v.r.user.epoch == v.user.epoch && v.r.cuser.epoch == v.cuser.epoch
    ensures var w := Four(v, limU, limC);
            w.user == Uncounted(v.user) && w.cuser == Uncounted(v.cuser) && w.r.pc == Refused
  {
  }

  /** The view after the decision. */
  function Decided(v: View, ok: bool): View {
    if Starts(v.r, ok) then
      View(v.r.(pc := Connecting), Charge(v.user, v.r.user.epoch), Charge(v.cuser, v.r.cuser.epoch))
    else v.(r := v.r.(pc := UndoQuery(OfUser)))
  }

  lemma DecideAlone(cfg: Config, t: State, id: nat, v: View, ok: bool)
    requires Shows(cfg, t, id, v) && v.r.pc == Deciding
    ensures Enabled(cfg, t, Decide(id, ok)) && Apply(cfg, t, Decide(id, ok)) == With(t, id, Decided(v, ok))
  {
    Assembled(cfg, t, id, Decide(id, ok), Decided(v, ok));
  }

  lemma DecideFrom(cfg: Config, s: State, id: nat, v: View, ok: bool)
    requires Based(cfg, s, id, v) && v.r.pc == Deciding
    ensures Based(cfg, s, id, Decided(v, ok)) && Step(cfg, With(s, id, v), Decide(id, ok), With(s, id, Decided(v, ok)))
  {
    assert Based(cfg, s, id, Decided(v, ok));
    WithShows(cfg, s, id, v);
    DecideAlone(cfg, With(s, id, v), id, v, ok);
    WithTwice(s, id, v, Decided(v, ok));
  }

  lemma DecideOn(cfg: Config, s: State, id: nat, solo: Solo, ok: bool) returns (next: Solo)
    requires SoloRun(cfg, s, id, solo) && solo.v.r.pc == Deciding
    ensures SoloRun(cfg, s, id, next) && next.v == Decided(solo.v, ok)
  {
    var v := Decided(solo.v, ok);
    DecideFrom(cfg, s, id, solo.v, ok);
    Extend(cfg, solo.states, solo.events, Decide(id, ok), With(s, id, v));
    next := Solo(solo.states + [With(s, id, v)], solo.events + [Decide(id, ok)], v);
  }

  lemma Start(cfg: Config, s: State, id: nat) returns (solo: Solo)
    requires WellFormed(cfg, s) && id in s.requests
    ensures SoloRun(cfg, s, id, solo)
    ensures var r := s.requests[id];
            solo.v == View(r, s.ledgers[r.user.account], s.ledgers[r.cuser.account])
  {
    var r := s.requests[id];
    solo := Solo([s], [], View(r, s.ledgers[r.user.account], s.ledgers[r.cuser.account]));
    assert With(s, id, solo.v) == s;
  }

  /** An uninterrupted `inc` is decided by the counters as they are.  If it fails, all of them are
      as before. */
  lemma IncAlone(cfg: Config, s: State, id: nat, ok: bool) returns (solo: Solo)
    requires WellFormed(cfg, s) && id in s.requests && s.requests[id].pc == IncQuery(OfUser)
    ensures SoloRun(cfg, s, id, solo)
    ensures var r := s.requests[id];
            var u, c := r.user.account, r.cuser.account;
            if Passes(cfg.limits[u], s.ledgers[u]) && Passes(cfg.limits[c], s.ledgers[c]) && ok then
              && solo.v.r.pc == Connecting
              && solo.v.user == Charge(Counted(s.ledgers[u]), s.ledgers[u].epoch)
              && solo.v.cuser == Charge(Counted(s.ledgers[c]), s.ledgers[c].epoch)
            else
              solo.v.r.pc == Refused && solo.v.user == s.ledgers[u] && solo.v.cuser == s.ledgers[c]
  {
    var r := s.requests[id];
    var limU, limC := cfg.limits[r.user.account], cfg.limits[r.cuser.account];
    solo := Start(cfg, s, id);
    var user, cuser := solo.v.user, solo.v.cuser;
    FourIncrements(solo.v, limU, limC);
    solo := FourOn(cfg, s, id, solo);
    solo := DecideOn(cfg, s, id, solo, ok);
    if solo.v.r.pc == UndoQuery(OfUser) {
      FourDecrements(solo.v, limU, limC);
      CountedBack(user);
      CountedBack(cuser);
      solo := FourOn(cfg, s, id, solo);
    }
  }

  // ---------- What that means ----------

  /** Fewer holders than the limit of concurrent queries. */
  predicate QueryFree(cfg: Config, s: State, a: Account)
    requires a in cfg.limits
  {
    cfg.limits[a].maxConcurrent == 0 || Count(s.requests, QueryUnit(a)) < cfg.limits[a].maxConcurrent
  }

  /** Fewer charged and outstanding attempts in this minute, less the stale ones, than its limit. */
  predicate RateFree(cfg: Config, s: State, a: Account)
    requires a in cfg.limits && a in s.ledgers
  {
    var limit, l := cfg.limits[a].reqPerMin, s.ledgers[a];
    limit == 0 || (limit > 0 && l.charged + Count(s.requests, RateUnit(a, l.epoch)) - l.stale < limit)
  }

  predicate Free(cfg: Config, s: State, a: Account)
    requires a in cfg.limits && a in s.ledgers
  {
    QueryFree(cfg, s, a) && RateFree(cfg, s, a)
  }

  lemma SomeoneElse(requests: map<nat, Request>, id: nat, t: Tag)
    requires id in requests && !Matches(requests[id], t)
    ensures Count(requests, t) < |requests|
  {
    SubsetSize(Tagged(requests, t), requests.Keys - {id});
  }

  lemma RateRoom(limit: int, inFlight: nat, charged: nat, unit: nat, stale: nat, within: nat)
    requires 0 < limit && limit + inFlight < TWO31 && stale <= inFlight && unit < inFlight
    requires charged + within <= limit + stale
    ensures RateOk(limit, Inc32(Wrap32(charged + unit - stale))) <==> charged + unit - stale < limit
  {
    var rate := charged + unit - stale;
    assert Inc32(Wrap32(rate)) == Wrap32(rate + 1);
    SignedReading(limit, rate + 1);
  }

  /** A request that is about to call `inc`, among at most `n` requests. */
  predicate Calls(s: State, id: nat, n: nat) {
    id in s.requests && s.requests[id].pc == IncQuery(OfUser) && |s.requests| <= n
  }

  lemma QueryExactly(cfg: Config, s: State, id: nat, a: Account)
    requires GoodConfig(cfg) && Calls(s, id, cfg.maxInFlight) && a in cfg.limits && a in s.ledgers && QueryInv(cfg, s, a)
    ensures QueryOk(cfg.limits[a], Inc32(s.ledgers[a].query)) <==> QueryFree(cfg, s, a)
  {
    SomeoneElse(s.requests, id, QueryUnit(a));
  }

  lemma RateExactly(cfg: Config, s: State, id: nat, a: Account)
    requires Calls(s, id, cfg.maxInFlight) && a in cfg.limits && a in s.ledgers && RateInv(cfg, s, a)
    requires cfg.limits[a].reqPerMin <= 0 || Signable(cfg, a)
    ensures RateOk(cfg.limits[a].reqPerMin, Inc32(s.ledgers[a].rpm)) <==> RateFree(cfg, s, a)
  {
    var l := s.ledgers[a];
    if cfg.limits[a].reqPerMin > 0 {
      SomeoneElse(s.requests, id, RateUnit(a, l.epoch));
      StaleBound(s, a);
      RateRoom(cfg.limits[a].reqPerMin, cfg.maxInFlight, l.charged, Count(s.requests, RateUnit(a, l.epoch)), l.stale,
               Count(s.requests, RateWithin(a, l.epoch)));
    }
  }

  /** The checks pass exactly if there is room. */
  lemma PassesExactly(cfg: Config, s: State, id: nat, a: Account)
    requires GoodConfig(cfg) && Inv(cfg, s) && Calls(s, id, cfg.maxInFlight) && a in cfg.limits
    requires cfg.limits[a].reqPerMin <= 0 || Signable(cfg, a)
    ensures a in s.ledgers && (Passes(cfg.limits[a], s.ledgers[a]) <==> Free(cfg, s, a))
  {
    QueryExactly(cfg, s, id, a);
    RateExactly(cfg, s, id, a);
  }

  lemma SameCounters(s: State, id: nat, v: View)
    requires v.r.user.account in s.ledgers && v.r.cuser.account in s.ledgers
    ensures With(s, id, v).conns == s.conns
    ensures v.user == s.ledgers[v.r.user.account] && v.cuser == s.ledgers[v.r.cuser.account] ==>
              With(s, id, v).ledgers == s.ledgers
  {
  }

  lemma StaleBound(s: State, a: Account)
    requires a in s.ledgers && RateExact(s.ledgers[a], s.requests, a)
    ensures s.ledgers[a].stale <= s.ledgers[a].pendingAtZero
  {
    CountMonotone(s.requests, RateUnit(a, s.ledgers[a].epoch), RateAny(a));
  }

  /** In every reachable state a request whose `inc` nobody interrupts is admitted if and only if
      both accounts have room and the packet size is acceptable; a refused one leaves all counters
      as they were. */
  lemma AdmittedExactly(cfg: Config, trace: seq<State>, events: seq<Event>, i: nat, id: nat, ok: bool)
    returns (solo: Solo)
    requires GoodConfig(cfg) && Interleaving(cfg, trace, events) && i < |trace|
    requires id in trace[i].requests && trace[i].requests[id].pc == IncQuery(OfUser)
    requires forall a <- cfg.limits :: cfg.limits[a].reqPerMin <= 0 || Signable(cfg, a)
    ensures WellFormed(cfg, trace[i]) && SoloRun(cfg, trace[i], id, solo)
    ensures var s, r := trace[i], trace[i].requests[id];
            && (solo.v.r.pc == Connecting <==> Free(cfg, s, r.user.account) && Free(cfg, s, r.cuser.account) && ok)
            && (solo.v.r.pc != Connecting ==> solo.v.r.pc == Refused && With(s, id, solo.v).ledgers == s.ledgers)
            && With(s, id, solo.v).conns == s.conns
  {
    Reachable(cfg, trace, events, i);
    solo := DecidedByRoom(cfg, trace[i], id, ok);
  }

  lemma DecidedByRoom(cfg: Config, s: State, id: nat, ok: bool) returns (solo: Solo)
    requires GoodConfig(cfg) && Inv(cfg, s) && id in s.requests && s.requests[id].pc == IncQuery(OfUser)
    requires forall a <- cfg.limits :: cfg.limits[a].reqPerMin <= 0 || Signable(cfg, a)
    ensures WellFormed(cfg, s) && SoloRun(cfg, s, id, solo)
    ensures var r := s.requests[id];
            && (solo.v.r.pc == Connecting <==> Free(cfg, s, r.user.account) && Free(cfg, s, r.cuser.account) && ok)
            && (solo.v.r.pc != Connecting ==> solo.v.r.pc == Refused && With(s, id, solo.v).ledgers == s.ledgers)
            && With(s, id, solo.v).conns == s.conns
  {
    var r := s.requests[id];
    assert Known(cfg, r);
    PassesExactly(cfg, s, id, r.user.account);
    PassesExactly(cfg, s, id, r.cuser.account);
    solo := IncAlone(cfg, s, id, ok);
    SameCounters(s, id, solo.v);
  }
}
