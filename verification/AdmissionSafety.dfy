/**
 * Safety of admission control over every interleaving: exact counters, the concurrency
 * limits, the queue bounds, the connection ledger and the per-minute limits.
 */
module AdmissionSafety {
  import opened Words
  import opened Admission
  import opened AdmissionParts
  import opened AdmissionLedger

  // ---------- The invariant ----------

  predicate PartInv(s: State, r: Request, side: Side) {
    var p := PartOf(r, side);
    p.account in s.ledgers && (HoldsRate(r.pc, side) ==> p.epoch <= s.ledgers[p.account].epoch)
  }

  /** Past the queue: every token has been returned. */
  predicate Settled(pc: Pc) {
    pc.Serving? || pc.LeavingHost? || pc.JoiningHost? || pc.DecQuery? || pc.DecHost?
  }

  /** Tokens that are gone stay gone, and a request is past the queue only without tokens. */
  predicate TokenPlaces(r: Request, side: Side) {
    && (r.pc == TryQueue(OfUser) || Settled(r.pc) ==> !PartOf(r, side).token)
    && (r.pc == TryQueue(OfCluster) && side == OfCluster ==> !r.cuser.token)
  }

  /** What a request's own fields keep. */
  predicate RequestInv(s: State, r: Request) {
    && (Admitted(r.pc) ==> r.user.ok && r.cuser.ok)
    && PartInv(s, r, OfUser)
    && PartInv(s, r, OfCluster)
    && TokenPlaces(r, OfUser)
    && TokenPlaces(r, OfCluster)
  }

  /** The counter is exact, and those that saw it within the limit fit the limit. */
  predicate QueryInv(cfg: Config, s: State, a: Account)
    requires a in cfg.limits && a in s.ledgers
  {
    && s.ledgers[a].query == Count(s.requests, QueryUnit(a))
    && (cfg.limits[a].maxConcurrent > 0 ==>
          Count(s.requests, WithinLimit(a)) <= cfg.limits[a].maxConcurrent)
  }

  predicate TokenInv(cfg: Config, s: State, a: Account)
    requires a in cfg.limits && a in s.ledgers
  {
    s.ledgers[a].tokens == Count(s.requests, Token(a)) <= cfg.limits[a].queueSize
  }

  /** A positive limit that leaves room for the requests in flight below the sign bit. */
  predicate Signable(cfg: Config, a: Account)
    requires a in cfg.limits
  {
    0 < cfg.limits[a].reqPerMin && cfg.limits[a].reqPerMin + cfg.maxInFlight < TWO31
  }

  predicate RateInv(cfg: Config, s: State, a: Account)
    requires a in cfg.limits && a in s.ledgers
  {
    && RateExact(s.ledgers[a], s.requests, a)
    && s.ledgers[a].pendingAtZero <= cfg.maxInFlight
    && (Signable(cfg, a) ==> WithinRate(cfg.limits[a].reqPerMin, s.ledgers[a], s.requests, a))
  }

  predicate ConnInv(s: State, h: Host)
    requires h in s.conns
  {
    s.conns[h] == Count(s.requests, Connection(h))
  }

  predicate Inv(cfg: Config, s: State) {
    && WellFormed(cfg, s)
    && (forall id <- s.requests :: RequestInv(s, s.requests[id]))
    && (forall a <- cfg.limits :: QueryInv(cfg, s, a) && TokenInv(cfg, s, a) && RateInv(cfg, s, a))
    && (forall h <- cfg.hosts :: ConnInv(s, h))
  }

  // ---------- One step, seen from an account ----------

  function TriedRoom(cfg: Config, s: State, r: Request): bool
    requires WellFormed(cfg, s) && Known(cfg, r)
  {
    Room(cfg.limits[Tried(r)], s.ledgers[Tried(r)])
  }

  function TriedQueue(cfg: Config, r: Request): bool
    requires Known(cfg, r)
  {
    cfg.limits[Tried(r)].queueSize > 0
  }

  lemma StepTaken(cfg: Config, s: State, e: Event)
    requires WellFormed(cfg, s) && Enabled(cfg, s, e) && !e.ZeroLimiter? && !e.Arrive?
    ensures Takes(e, s.requests[e.id])
  {
  }

  /** A step of a request is a step of its part with its user, and one with its cluster user. */
  lemma StepOfUser(cfg: Config, s: State, e: Event)
    requires WellFormed(cfg, s) && Enabled(cfg, s, e) && !e.ZeroLimiter? && !e.Arrive?
    ensures var r, r' := s.requests[e.id], RequestAfter(cfg, s, e);
            var a := r.user.account;
            && PartStep(cfg.limits[a], s.ledgers[a], LedgerAfter(cfg, s, e, a), e, r, r', OfUser,
                        TriedRoom(cfg, s, r), TriedQueue(cfg, r))
            && (r'.Some? ==> r'.value.user.account == a)
  {
    StepTaken(cfg, s, e);
  }

  lemma StepOfCluster(cfg: Config, s: State, e: Event)
    requires WellFormed(cfg, s) && Enabled(cfg, s, e) && !e.ZeroLimiter? && !e.Arrive?
    ensures var r, r' := s.requests[e.id], RequestAfter(cfg, s, e);
            var a := r.cuser.account;
            && PartStep(cfg.limits[a], s.ledgers[a], LedgerAfter(cfg, s, e, a), e, r, r', OfCluster,
                        TriedRoom(cfg, s, r), TriedQueue(cfg, r))
            && (r'.Some? ==> r'.value.cuser.account == a)
  {
    StepTaken(cfg, s, e);
  }

  /** A step of a request that does not belong to account `a` leaves `a` alone. */
  lemma StepElsewhere(cfg: Config, s: State, e: Event, a: Account)
    requires WellFormed(cfg, s) && Enabled(cfg, s, e) && !e.ZeroLimiter? && !e.Arrive?
    requires a in cfg.limits && PartOf(s.requests[e.id], SideOf(a)).account != a
    ensures LedgerAfter(cfg, s, e, a) == s.ledgers[a]
    ensures var r' := RequestAfter(cfg, s, e);
            r'.Some? ==> PartOf(r'.value, SideOf(a)).account != a
  {
  }

  // ---------- One step, for the moving request ----------

  lemma MovedKnown(cfg: Config, s: State, e: Event)
    requires WellFormed(cfg, s) && Enabled(cfg, s, e) && !e.ZeroLimiter?
    ensures var r' := RequestAfter(cfg, s, e); r'.Some? ==> Known(cfg, r'.value)
  {
  }

  lemma StepWellFormed(cfg: Config, s: State, e: Event)
    requires WellFormed(cfg, s) && Enabled(cfg, s, e)
    ensures WellFormed(cfg, Apply(cfg, s, e))
  {
    if !e.ZeroLimiter? {
      MovedKnown(cfg, s, e);
      PutSize(s.requests, e.id, RequestAfter(cfg, s, e));
    }
  }

  lemma PutSize(requests: map<nat, Request>, id: nat, r: Option<Request>)
    ensures |Put(requests, id, r)| <= |requests| + (if id in requests then 0 else 1)
  {
    var after := Put(requests, id, r);
    SubsetSize(after.Keys, requests.Keys + {id});
    assert id in requests ==> requests.Keys + {id} == requests.Keys;
  }

  /** Epochs never go back, so the fields of a request that does not move stay good. */
  lemma EpochsGrow(cfg: Config, s: State, e: Event, a: Account)
    requires WellFormed(cfg, s) && Enabled(cfg, s, e) && a in cfg.limits
    ensures s.ledgers[a].epoch <= LedgerAfter(cfg, s, e, a).epoch
    ensures !e.ZeroLimiter? ==> s.ledgers[a].epoch == LedgerAfter(cfg, s, e, a).epoch
  {
  }

  lemma EpochPart(lim: Limits, l: Ledger, l': Ledger, e: Event, r: Request, r': Option<Request>,
                  side: Side, room: bool, queue: bool)
    requires PartStep(lim, l, l', e, r, r', side, room, queue)
    requires HoldsRate(r.pc, side) ==> PartOf(r, side).epoch <= l.epoch
    ensures HasRate(r', side) ==> PartOf(r'.value, side).epoch <= l'.epoch
  {
    if e.Advance? {
      RateOp(PartOf(r, side), side, r.pc, room, queue, Freed(r));
    }
  }

  lemma VerdictPart(lim: Limits, l: Ledger, l': Ledger, e: Event, r: Request, r': Option<Request>,
                    side: Side, room: bool, queue: bool)
    requires PartStep(lim, l, l', e, r, r', side, room, queue)
    requires Admitted(r.pc) ==> PartOf(r, side).ok
    ensures r'.Some? && Admitted(r'.value.pc) ==> PartOf(r'.value, side).ok
  {
  }

  lemma TokenPlacesPart(lim: Limits, l: Ledger, l': Ledger, e: Event, r: Request, r': Option<Request>,
                        side: Side, room: bool, queue: bool)
    requires PartStep(lim, l, l', e, r, r', side, room, queue)
    requires TokenPlaces(r, side)
    ensures r'.Some? ==> TokenPlaces(r'.value, side)
  {
  }

  /** The moving request keeps its own invariant. */
  lemma MovedInv(cfg: Config, s: State, e: Event)
    requires WellFormed(cfg, s) && Enabled(cfg, s, e) && !e.ZeroLimiter?
    requires !e.Arrive? ==> RequestInv(s, s.requests[e.id])
    ensures var r' := RequestAfter(cfg, s, e);
            r'.Some? ==> RequestInv(Apply(cfg, s, e), r'.value)
  {
    if !e.Arrive? {
      var r, r' := s.requests[e.id], RequestAfter(cfg, s, e);
      var room, queue := TriedRoom(cfg, s, r), TriedQueue(cfg, r);
      var u, c := r.user.account, r.cuser.account;
      var lu, lc := s.ledgers[u], s.ledgers[c];
      var lu', lc' := LedgerAfter(cfg, s, e, u), LedgerAfter(cfg, s, e, c);
      StepOfUser(cfg, s, e);
      EpochPart(cfg.limits[u], lu, lu', e, r, r', OfUser, room, queue);
      VerdictPart(cfg.limits[u], lu, lu', e, r, r', OfUser, room, queue);
      TokenPlacesPart(cfg.limits[u], lu, lu', e, r, r', OfUser, room, queue);
      StepOfCluster(cfg, s, e);
      EpochPart(cfg.limits[c], lc, lc', e, r, r', OfCluster, room, queue);
      VerdictPart(cfg.limits[c], lc, lc', e, r, r', OfCluster, room, queue);
      TokenPlacesPart(cfg.limits[c], lc, lc', e, r, r', OfCluster, room, queue);
    }
  }

  lemma StillInv(cfg: Config, s: State, e: Event, r: Request)
    requires WellFormed(cfg, s) && Enabled(cfg, s, e) && Known(cfg, r) && RequestInv(s, r)
    ensures RequestInv(Apply(cfg, s, e), r)
  {
    EpochsGrow(cfg, s, e, r.user.account);
    EpochsGrow(cfg, s, e, r.cuser.account);
  }

  lemma RequestKept(cfg: Config, s: State, e: Event, id: nat)
    requires WellFormed(cfg, s) && Enabled(cfg, s, e)
    requires id in s.requests ==> RequestInv(s, s.requests[id])
    ensures var s' := Apply(cfg, s, e);
            id in s'.requests ==> RequestInv(s', s'.requests[id])
  {
    if !e.ZeroLimiter? && id == e.id {
      MovedInv(cfg, s, e);
    } else if id in s.requests {
      StillInv(cfg, s, e, s.requests[id]);
    }
  }

  // ---------- One step, for each counter ----------

  /** A step of a request of account `a`, as `a` sees it. */
  lemma OursMoved(cfg: Config, s: State, e: Event, a: Account)
    requires WellFormed(cfg, s) && Enabled(cfg, s, e) && !e.ZeroLimiter? && !e.Arrive? && a in cfg.limits
    requires PartOf(s.requests[e.id], SideOf(a)).account == a && RequestInv(s, s.requests[e.id])
    ensures var r, r' := s.requests[e.id], RequestAfter(cfg, s, e);
            && AccountMoved(cfg.limits[a], s.ledgers[a], LedgerAfter(cfg, s, e, a), r, r', SideOf(a))
            && (r'.Some? ==> PartOf(r'.value, SideOf(a)).account == a)
  {
    var r, r' := s.requests[e.id], RequestAfter(cfg, s, e);
    var room, queue := TriedRoom(cfg, s, r), TriedQueue(cfg, r);
    var l, l', side := s.ledgers[a], LedgerAfter(cfg, s, e, a), SideOf(a);
    if a.User? {
      StepOfUser(cfg, s, e);
    } else {
      StepOfCluster(cfg, s, e);
    }
    QueryPart(cfg.limits[a], l, l', e, r, r', side, room, queue);
    TokenPart(cfg.limits[a], l, l', e, r, r', side, room, queue);
    RatePart(cfg.limits[a], l, l', e, r, r', side, room, queue);
    LimitPart(cfg.limits[a], l, l', e, r, r', side, room, queue);
  }

  lemma StepSeen(cfg: Config, s: State, e: Event, a: Account)
    requires WellFormed(cfg, s) && Enabled(cfg, s, e) && !e.ZeroLimiter? && a in cfg.limits
    requires e.id in s.requests ==> RequestInv(s, s.requests[e.id])
    ensures Seen(cfg.limits[a], s.ledgers[a], LedgerAfter(cfg, s, e, a), s.requests, e.id, RequestAfter(cfg, s, e), a)
  {
    if !e.Arrive? {
      if PartOf(s.requests[e.id], SideOf(a)).account == a {
        OursMoved(cfg, s, e, a);
      } else {
        StepElsewhere(cfg, s, e, a);
      }
    }
  }

  predicate AccountInv(cfg: Config, s: State, a: Account)
    requires a in cfg.limits && a in s.ledgers
  {
    QueryInv(cfg, s, a) && TokenInv(cfg, s, a) && RateInv(cfg, s, a)
  }

  lemma AccountKept(cfg: Config, s: State, e: Event, a: Account)
    requires GoodConfig(cfg) && WellFormed(cfg, s) && Enabled(cfg, s, e) && !e.ZeroLimiter? && a in cfg.limits
    requires e.id in s.requests ==> RequestInv(s, s.requests[e.id])
    requires AccountInv(cfg, s, a)
    ensures AccountInv(cfg, Apply(cfg, s, e), a)
  {
    StepWellFormed(cfg, s, e);
    StepSeen(cfg, s, e, a);
    var lim, l, l', r' := cfg.limits[a], s.ledgers[a], LedgerAfter(cfg, s, e, a), RequestAfter(cfg, s, e);
    QueryKept(lim, l, l', s.requests, e.id, r', a);
    TokenKept(lim, l, l', s.requests, e.id, r', a);
    RateKept(lim, l, l', s.requests, e.id, r', a);
    if Signable(cfg, a) {
      LimitKept(lim, l, l', s.requests, e.id, r', a, cfg.maxInFlight);
    }
  }

  /** Zeroing starts an epoch in which nothing is charged yet. */
  lemma ZeroKept(cfg: Config, s: State, a: Account)
    requires WellFormed(cfg, s) && a in cfg.limits
    requires forall id <- s.requests :: RequestInv(s, s.requests[id])
    ensures var l' := Zero(s.ledgers[a], Count(s.requests, RateAny(a)));
            && RateExact(l', s.requests, a) && l'.pendingAtZero <= cfg.maxInFlight
            && (cfg.limits[a].reqPerMin > 0 ==> WithinRate(cfg.limits[a].reqPerMin, l', s.requests, a))
  {
    NothingFromTheFuture(s, RateUnit(a, s.ledgers[a].epoch + 1), a);
    NothingFromTheFuture(s, RateWithin(a, s.ledgers[a].epoch + 1), a);
    CountBound(s.requests, RateAny(a));
  }

  lemma NothingFromTheFuture(s: State, t: Tag, a: Account)
    requires a in s.ledgers && forall id <- s.requests :: RequestInv(s, s.requests[id])
    requires t == RateUnit(a, s.ledgers[a].epoch + 1) || t == RateWithin(a, s.ledgers[a].epoch + 1)
    ensures Count(s.requests, t) == 0
  {
    forall id <- s.requests
      ensures !Matches(s.requests[id], t)
    {
      assert RequestInv(s, s.requests[id]);
    }
    assert Tagged(s.requests, t) == {};
  }

  lemma ConnKept(cfg: Config, s: State, e: Event, h: Host)
    requires GoodConfig(cfg) && WellFormed(cfg, s) && Enabled(cfg, s, e) && h in cfg.hosts
    requires ConnInv(s, h)
    ensures ConnInv(Apply(cfg, s, e), h)
  {
    if !e.ZeroLimiter? {
      var r', c' := ConnFacts(cfg, s, e, h);
      ConnCount(s.requests, e.id, r', h, s.conns[h], c');
    }
  }

  lemma ConnFacts(cfg: Config, s: State, e: Event, h: Host) returns (r': Option<Request>, c': u32)
    requires GoodConfig(cfg) && WellFormed(cfg, s) && Enabled(cfg, s, e) && !e.ZeroLimiter? && h in cfg.hosts
    ensures Apply(cfg, s, e).requests == Put(s.requests, e.id, r') && |Put(s.requests, e.id, r')| < TWO32
    ensures h in Apply(cfg, s, e).conns && Apply(cfg, s, e).conns[h] == c'
    ensures c' == Wrap32(s.conns[h] + Delta(s.requests, e.id, r', Connection(h)))
  {
    r', c' := RequestAfter(cfg, s, e), ConnAfter(s, e, h);
    StepWellFormed(cfg, s, e);
    ConnShape(cfg, s, e, h);
    ConnDelta(cfg, s, e, h);
  }

  lemma ConnCount(requests: map<nat, Request>, id: nat, r': Option<Request>, h: Host, c: u32, c': u32)
    requires c == Count(requests, Connection(h)) && |Put(requests, id, r')| < TWO32
    requires c' == Wrap32(c + Delta(requests, id, r', Connection(h)))
    ensures c' == Count(Put(requests, id, r'), Connection(h))
  {
    CountStep(requests, id, r', Connection(h));
    CountBound(Put(requests, id, r'), Connection(h));
    WordFollows(c, c', Delta(requests, id, r', Connection(h)));
  }

  lemma ConnShape(cfg: Config, s: State, e: Event, h: Host)
    requires WellFormed(cfg, s) && Enabled(cfg, s, e) && !e.ZeroLimiter? && h in cfg.hosts
    ensures Apply(cfg, s, e).requests == Put(s.requests, e.id, RequestAfter(cfg, s, e))
    ensures Apply(cfg, s, e).conns[h] == ConnAfter(s, e, h)
  {
  }

  lemma ConnDelta(cfg: Config, s: State, e: Event, h: Host)
    requires WellFormed(cfg, s) && Enabled(cfg, s, e) && !e.ZeroLimiter? && h in cfg.hosts
    ensures ConnAfter(s, e, h) == Wrap32(s.conns[h] + Delta(s.requests, e.id, RequestAfter(cfg, s, e), Connection(h)))
  {
    ConnStep(cfg, s, e, h);
    ComplementSubtracts(s.conns[h], 1);
  }

  lemma ConnStep(cfg: Config, s: State, e: Event, h: Host)
    requires WellFormed(cfg, s) && Enabled(cfg, s, e) && !e.ZeroLimiter? && h in cfg.hosts
    ensures Delta(s.requests, e.id, RequestAfter(cfg, s, e), Connection(h)) ==
            if e.Advance? then ConnMove(s.requests[e.id], h) else 0
  {
    if !e.Arrive? {
      var r := s.requests[e.id];
      StepTaken(cfg, s, e);
      ConnPart(e, r, h, TriedRoom(cfg, s, r), TriedQueue(cfg, r));
    }
  }

  // ---------- Every interleaving ----------

  predicate Initial(cfg: Config, s: State) {
    && WellFormed(cfg, s)
    && s.requests == map[]
    && (forall a <- cfg.limits :: s.ledgers[a] == Ledger(0, 0, 0, 0, 0, 0, 0, 0))
    && (forall h <- cfg.hosts :: s.conns[h] == 0)
  }

  lemma NoRequests(t: Tag)
    ensures Count(map[], t) == 0
  {
    assert Tagged(map[], t) == {};
  }

  lemma InitialAccount(cfg: Config, s: State, a: Account)
    requires Initial(cfg, s) && a in cfg.limits
    ensures AccountInv(cfg, s, a)
  {
    NoRequests(QueryUnit(a));
    NoRequests(WithinLimit(a));
    NoRequests(Token(a));
    NoRequests(RateAny(a));
    NoRequests(RateUnit(a, 0));
    NoRequests(RateWithin(a, 0));
  }

  lemma InitialInv(cfg: Config, s: State)
    requires Initial(cfg, s)
    ensures Inv(cfg, s)
  {
    forall a <- cfg.limits ensures AccountInv(cfg, s, a) {
      InitialAccount(cfg, s, a);
    }
    forall h <- cfg.hosts ensures ConnInv(s, h) {
      NoRequests(Connection(h));
    }
  }

  lemma StepInv(cfg: Config, s: State, e: Event)
    requires GoodConfig(cfg) && Inv(cfg, s) && Enabled(cfg, s, e)
    ensures Inv(cfg, Apply(cfg, s, e))
  {
    var s' := Apply(cfg, s, e);
    StepWellFormed(cfg, s, e);
    forall id <- s'.requests ensures RequestInv(s', s'.requests[id]) {
      RequestKept(cfg, s, e, id);
    }
    forall a <- cfg.limits ensures AccountInv(cfg, s', a) {
      StepAccount(cfg, s, e, a);
    }
    forall h <- cfg.hosts ensures ConnInv(s', h) {
      ConnKept(cfg, s, e, h);
    }
  }

  lemma StepAccount(cfg: Config, s: State, e: Event, a: Account)
    requires GoodConfig(cfg) && WellFormed(cfg, s) && Enabled(cfg, s, e) && a in cfg.limits
    requires forall id <- s.requests :: RequestInv(s, s.requests[id])
    requires AccountInv(cfg, s, a)
    ensures AccountInv(cfg, Apply(cfg, s, e), a)
  {
    if e.ZeroLimiter? {
      ZeroKept(cfg, s, a);
    } else {
      AccountKept(cfg, s, e, a);
    }
  }

  /** `trace` is an interleaving: it starts with nothing in progress and each state follows
      from the one before by one enabled step. */
  ghost predicate Interleaving(cfg: Config, trace: seq<State>, events: seq<Event>) {
    && |trace| == |events| + 1
    && Initial(cfg, trace[0])
    && forall i :: 0 <= i < |events| ==>
         && WellFormed(cfg, trace[i])
         && Enabled(cfg, trace[i], events[i])
         && trace[i + 1] == Apply(cfg, trace[i], events[i])
  }

  lemma {:induction false} Reachable(cfg: Config, trace: seq<State>, events: seq<Event>, i: nat)
    requires GoodConfig(cfg) && Interleaving(cfg, trace, events) && i < |trace|
    ensures Inv(cfg, trace[i])
  {
    if i == 0 {
      InitialInv(cfg, trace[0]);
    } else {
      Reachable(cfg, trace, events, i - 1);
      StepInv(cfg, trace[i - 1], events[i - 1]);
    }
  }

  // ---------- What it means for operators ----------

  /** Admitted, unfinished requests never exceed a positive `max_concurrent_queries`. */
  lemma ConcurrencyLimit(cfg: Config, trace: seq<State>, events: seq<Event>, i: nat, a: Account)
    requires GoodConfig(cfg) && Interleaving(cfg, trace, events) && i < |trace|
    requires a in cfg.limits && cfg.limits[a].maxConcurrent > 0
    ensures Count(trace[i].requests, InProgress(a)) <= cfg.limits[a].maxConcurrent
  {
    Reachable(cfg, trace, events, i);
    var s := trace[i];
    assert QueryInv(cfg, s, a);
    forall id <- s.requests | Matches(s.requests[id], InProgress(a))
      ensures Matches(s.requests[id], WithinLimit(a))
    {
      assert RequestInv(s, s.requests[id]);
    }
    CountMonotone(s.requests, InProgress(a), WithinLimit(a));
  }

  /** Each query counter is the number of its holders, so it never wraps below zero. */
  lemma QueryCounterExact(cfg: Config, trace: seq<State>, events: seq<Event>, i: nat, a: Account)
    requires GoodConfig(cfg) && Interleaving(cfg, trace, events) && i < |trace| && a in cfg.limits
    ensures a in trace[i].ledgers
    ensures trace[i].ledgers[a].query == Count(trace[i].requests, QueryUnit(a))
    ensures trace[i].requests == map[] ==> trace[i].ledgers[a].query == 0
  {
    Reachable(cfg, trace, events, i);
    assert QueryInv(cfg, trace[i], a);
    NoRequests(QueryUnit(a));
  }

  /** Each connection counter is the number of requests that hold that host: no unit is lost,
      doubled or returned to another host. */
  lemma ConnectionsExact(cfg: Config, trace: seq<State>, events: seq<Event>, i: nat, h: Host)
    requires GoodConfig(cfg) && Interleaving(cfg, trace, events) && i < |trace| && h in cfg.hosts
    ensures h in trace[i].conns
    ensures trace[i].conns[h] == Count(trace[i].requests, Connection(h))
    ensures trace[i].requests == map[] ==> trace[i].conns[h] == 0
  {
    Reachable(cfg, trace, events, i);
    assert ConnInv(trace[i], h);
    NoRequests(Connection(h));
  }

  /** A queue is never over its capacity: its length is the number of requests that hold one
      of its tokens. */
  lemma QueuesBounded(cfg: Config, trace: seq<State>, events: seq<Event>, i: nat, a: Account)
    requires GoodConfig(cfg) && Interleaving(cfg, trace, events) && i < |trace| && a in cfg.limits
    ensures a in trace[i].ledgers
    ensures trace[i].ledgers[a].tokens == Count(trace[i].requests, Token(a)) <= cfg.limits[a].queueSize
  {
    Reachable(cfg, trace, events, i);
    assert TokenInv(cfg, trace[i], a);
  }

  /** Every exit path returns the tokens: a request that is past the queue holds none. */
  lemma TokensReturned(cfg: Config, trace: seq<State>, events: seq<Event>, i: nat, id: nat)
    requires GoodConfig(cfg) && Interleaving(cfg, trace, events) && i < |trace|
    requires id in trace[i].requests && Settled(trace[i].requests[id].pc)
    ensures !trace[i].requests[id].user.token && !trace[i].requests[id].cuser.token
  {
    Reachable(cfg, trace, events, i);
    assert RequestInv(trace[i], trace[i].requests[id]);
  }

  /** No request blocks: whatever the others did, its next operation can be performed; in
      particular the channel it returns a token to is never empty. */
  lemma NeverBlocked(cfg: Config, trace: seq<State>, events: seq<Event>, i: nat, id: nat)
    requires GoodConfig(cfg) && Interleaving(cfg, trace, events) && i < |trace|
    requires id in trace[i].requests && Busy(trace[i].requests[id].pc)
    ensures WellFormed(cfg, trace[i]) && Enabled(cfg, trace[i], Advance(id))
  {
    Reachable(cfg, trace, events, i);
    BusyGoesOn(cfg, trace[i], id);
  }

  lemma BusyGoesOn(cfg: Config, s: State, id: nat)
    requires Inv(cfg, s) && id in s.requests && Busy(s.requests[id].pc)
    ensures WellFormed(cfg, s) && Enabled(cfg, s, Advance(id))
  {
    assert Known(cfg, s.requests[id]);
    assert TokenInv(cfg, s, s.requests[id].user.account) && TokenInv(cfg, s, s.requests[id].cuser.account);
    TokenToReturn(cfg, s, id);
  }

  lemma TokenToReturn(cfg: Config, s: State, id: nat)
    requires WellFormed(cfg, s) && id in s.requests
    requires TokenInv(cfg, s, s.requests[id].user.account) && TokenInv(cfg, s, s.requests[id].cuser.account)
    ensures CanReceive(cfg, s, s.requests[id])
  {
    var r := s.requests[id];
    if Freed(r) == Some(OfUser) {
      TokenIsCounted(s.requests, id, r.user.account);
    } else if Freed(r) == Some(OfCluster) {
      TokenIsCounted(s.requests, id, r.cuser.account);
    }
  }

  lemma TokenIsCounted(requests: map<nat, Request>, id: nat, a: Account)
    requires id in requests && Matches(requests[id], Token(a))
    ensures Count(requests, Token(a)) > 0
  {
    assert id in Tagged(requests, Token(a));
  }

  /** Between two zeroings the attempts charged to a limiter exceed its limit by at most the
      stale decrements; counting the attempts that straddle the zeroing as well, the excess
      is at most the attempts outstanding when it was zeroed. */
  lemma RateLimit(cfg: Config, trace: seq<State>, events: seq<Event>, i: nat, a: Account)
    requires GoodConfig(cfg) && Interleaving(cfg, trace, events) && i < |trace|
    requires a in cfg.limits && Signable(cfg, a)
    ensures a in trace[i].ledgers
    ensures var l := trace[i].ledgers[a];
            && l.charged <= cfg.limits[a].reqPerMin + l.stale
            && l.charged + l.carried <= cfg.limits[a].reqPerMin + l.pendingAtZero
            && l.pendingAtZero <= cfg.maxInFlight
            && (l.pendingAtZero == 0 ==> l.charged <= cfg.limits[a].reqPerMin)
  {
    Reachable(cfg, trace, events, i);
    assert RateInv(cfg, trace[i], a);
    RateWithinIsHeld(trace[i].requests, a, trace[i].ledgers[a].epoch);
  }

  /** The signed guard reads the true rate correctly exactly below the sign bit. */
  lemma SignBitIsTheBound(limit: int, rate: int)
    requires 0 < limit < TWO31 && -TWO31 < rate < TWO32
    ensures (RateOk(limit, Wrap32(rate)) <==> rate <= limit) <==> rate < TWO31
  {
  }

  /** The largest limit the configuration can hold refuses nothing at all. */
  lemma LargestLimitRefusesNothing(limit: int)
    requires 0 < limit < TWO31
    ensures (forall count: u32 :: RateOk(limit, count)) <==> limit == TWO31 - 1
  {
    if limit < TWO31 - 1 {
      assert !RateOk(limit, limit + 1);
    }
  }

  /** One step of a request touches at most one shared word or channel. */
  lemma OneOperationPerStep(r: Request, roomU: bool, roomC: bool, h: Host)
    ensures PartOp(r.user, OfUser, r.pc, roomU, Freed(r)).Some? ==>
              PartOp(r.cuser, OfCluster, r.pc, roomC, Freed(r)).None? && ConnMove(r, h) == 0
    ensures PartOp(r.cuser, OfCluster, r.pc, roomC, Freed(r)).Some? ==> ConnMove(r, h) == 0
  {
  }
}
