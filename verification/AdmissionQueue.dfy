/** What the request queues decide: who waits in them, and what waiting is good for. */
module AdmissionQueue {
  import opened Words
  import opened Admission
  import opened AdmissionLedger
  import opened AdmissionSafety
  import opened AdmissionSolo

  // ---------- Who waits ----------

  /** A request that has been at its queues and still holds what it took there. */
  predicate PastQueues(pc: Pc) {
    pc.IncQuery? || pc.IncRate? || pc.Deciding? || pc.UndoQuery? || pc.UndoRate? || pc.Refused? || pc.Connecting?
  }

  /** Some queue is configured for the request, and it holds a token of each configured one. */
  predicate Queued(cfg: Config, r: Request)
    requires Known(cfg, r)
  {
    var qu, qc := cfg.limits[r.user.account].queueSize, cfg.limits[r.cuser.account].queueSize;
    (qu > 0 || qc > 0) && (qu > 0 ==> r.user.token) && (qc > 0 ==> r.cuser.token)
  }

  /** Tokens are taken in order, and only from queues that exist. */
  predicate QueueInv(cfg: Config, r: Request)
    requires Known(cfg, r)
  {
    var qu, qc := cfg.limits[r.user.account].queueSize, cfg.limits[r.cuser.account].queueSize;
    && (r.user.token ==> qu > 0) && (r.cuser.token ==> qc > 0)
    && (r.pc == TryQueue(OfUser) ==> !r.user.token && !r.cuser.token && !r.waiting)
    && (r.pc == TryQueue(OfCluster) ==> (r.user.token <==> qu > 0) && !r.cuser.token && !r.waiting)
    && (PastQueues(r.pc) ==> (r.waiting <==> Queued(cfg, r)) && (r.cuser.token && qu > 0 ==> r.user.token))
  }

  lemma TryStep(cfg: Config, s: State, id: nat)
    requires WellFormed(cfg, s) && id in s.requests && s.requests[id].pc.TryQueue? && Enabled(cfg, s, Advance(id))
    requires QueueInv(cfg, s.requests[id])
    ensures var r' := RequestAfter(cfg, s, Advance(id));
            r'.Some? && Known(cfg, r'.value) && QueueInv(cfg, r'.value)
  {
    MovedKnown(cfg, s, Advance(id));
  }

  lemma QueueStep(cfg: Config, s: State, e: Event)
    requires WellFormed(cfg, s) && Enabled(cfg, s, e) && !e.ZeroLimiter?
    requires e.id in s.requests ==> QueueInv(cfg, s.requests[e.id])
    ensures var r' := RequestAfter(cfg, s, e);
            r'.Some? ==> Known(cfg, r'.value) && QueueInv(cfg, r'.value)
  {
    MovedKnown(cfg, s, e);
    if e.Advance? && s.requests[e.id].pc.TryQueue? {
      TryStep(cfg, s, e.id);
    } else if !e.Arrive? {
      TokensKept(cfg, s, e);
    }
  }

  /** Later steps return tokens at most, and only while releasing. */
  lemma TokensKept(cfg: Config, s: State, e: Event)
    requires WellFormed(cfg, s) && Enabled(cfg, s, e) && !e.ZeroLimiter? && !e.Arrive?
    requires e.Advance? ==> !s.requests[e.id].pc.TryQueue?
    ensures var r, r' := s.requests[e.id], RequestAfter(cfg, s, e);
            r'.Some? ==>
              && r'.value.user.account == r.user.account && r'.value.cuser.account == r.cuser.account
              && (r'.value.user.token ==> r.user.token) && (r'.value.cuser.token ==> r.cuser.token)
              && r'.value.waiting == r.waiting && !r'.value.pc.TryQueue?
              && (PastQueues(r'.value.pc) ==>
                    PastQueues(r.pc) && r'.value.user.token == r.user.token && r'.value.cuser.token == r.cuser.token)
  {
  }

  /** In every reachable state a request that is past the queues waits if and only if some queue
      is configured and it holds a token of each configured one. */
  lemma {:induction false} WaitsExactly(cfg: Config, trace: seq<State>, events: seq<Event>, i: nat, id: nat)
    requires GoodConfig(cfg) && Interleaving(cfg, trace, events) && i < |trace| && id in trace[i].requests
    ensures Known(cfg, trace[i].requests[id]) && QueueInv(cfg, trace[i].requests[id])
    ensures PastQueues(trace[i].requests[id].pc) ==>
              (trace[i].requests[id].waiting <==> Queued(cfg, trace[i].requests[id]))
  {
    if i > 0 {
      var s, e := trace[i - 1], events[i - 1];
      if id in s.requests {
        WaitsExactly(cfg, trace, events, i - 1, id);
      }
      Carried(cfg, s, e, trace[i], id);
    }
  }

  lemma Carried(cfg: Config, s: State, e: Event, s': State, id: nat)
    requires WellFormed(cfg, s) && Enabled(cfg, s, e) && s' == Apply(cfg, s, e) && id in s'.requests
    requires id in s.requests ==> QueueInv(cfg, s.requests[id])
    ensures Known(cfg, s'.requests[id]) && QueueInv(cfg, s'.requests[id])
  {
    if !e.ZeroLimiter? && e.id == id {
      QueueStep(cfg, s, e);
    }
  }

  /** A refused request may try again if and only if it waits; then it tries with the host that is
      picked anew, and nothing else of it changes. */
  lemma TriesAgain(cfg: Config, trace: seq<State>, events: seq<Event>, i: nat, id: nat, host: Host)
    requires GoodConfig(cfg) && Interleaving(cfg, trace, events) && i < |trace| && WellFormed(cfg, trace[i])
    requires id in trace[i].requests && trace[i].requests[id].pc == Refused && host in cfg.hosts
    ensures Enabled(cfg, trace[i], TryAgain(id, host)) <==> Queued(cfg, trace[i].requests[id])
    ensures Enabled(cfg, trace[i], TryAgain(id, host)) ==>
              var s' := Apply(cfg, trace[i], TryAgain(id, host));
              id in s'.requests && s'.requests[id] == trace[i].requests[id].(pc := IncQuery(OfUser), host := host)
  {
    WaitsExactly(cfg, trace, events, i, id);
  }

  // ---------- An arrival that nobody interrupts ----------

  function Joined(l: Ledger, room: bool): Ledger {
    if room then l.(tokens := l.tokens + 1) else l
  }

  /** The view after the user's queue was tried, and after the cluster user's. */
  function TriedUser(v: View, lim: Limits): View {
    var room := v.user.tokens < lim.queueSize;
    View(v.r.(user := v.r.user.(token := room),
              pc := if room || lim.queueSize == 0 then TryQueue(OfCluster) else IncQuery(OfUser)),
         Joined(v.user, room), v.cuser)
  }

  function TriedCluster(v: View, lim: Limits): View {
    var room := v.cuser.tokens < lim.queueSize;
    View(v.r.(cuser := v.r.cuser.(token := room), waiting := room || (lim.queueSize == 0 && v.r.user.token),
              pc := IncQuery(OfUser)),
         v.user, Joined(v.cuser, room))
  }

  function TriedIn(cfg: Config, v: View): View
    requires Known(cfg, v.r)
  {
    if v.r.pc == TryQueue(OfUser) then TriedUser(v, cfg.limits[v.r.user.account])
    else TriedCluster(v, cfg.limits[v.r.cuser.account])
  }

  lemma TryRequest(cfg: Config, t: State, id: nat, v: View)
    requires Shows(cfg, t, id, v) && v.r.pc.TryQueue?
    ensures Enabled(cfg, t, Advance(id)) && RequestAfter(cfg, t, Advance(id)) == Some(TriedIn(cfg, v).r)
  {
    var u, c := v.r.user.account, v.r.cuser.account;
    assert PartAfter(cfg.limits[u], t.ledgers[u], Advance(id), v.r, OfUser) == TriedIn(cfg, v).r.user;
    assert PartAfter(cfg.limits[c], t.ledgers[c], Advance(id), v.r, OfCluster) == TriedIn(cfg, v).r.cuser;
  }

  lemma TryLedger(cfg: Config, t: State, id: nat, v: View, a: Account)
    requires Shows(cfg, t, id, v) && v.r.pc.TryQueue? && a in cfg.limits
    ensures Enabled(cfg, t, Advance(id))
    ensures LedgerAfter(cfg, t, Advance(id), a) ==
              if a == v.r.user.account then TriedIn(cfg, v).user
              else if a == v.r.cuser.account then TriedIn(cfg, v).cuser
              else t.ledgers[a]
  {
  }

  lemma TryAlone(cfg: Config, t: State, id: nat, v: View)
    requires Shows(cfg, t, id, v) && v.r.pc.TryQueue?
    ensures Enabled(cfg, t, Advance(id)) && Apply(cfg, t, Advance(id)) == With(t, id, TriedIn(cfg, v))
  {
    TryRequest(cfg, t, id, v);
    forall a <- cfg.limits
      ensures LedgerAfter(cfg, t, Advance(id), a) ==
                if a == v.r.user.account then TriedIn(cfg, v).user
                else if a == v.r.cuser.account then TriedIn(cfg, v).cuser
                else t.ledgers[a]
    {
      TryLedger(cfg, t, id, v, a);
    }
    Assembled(cfg, t, id, Advance(id), TriedIn(cfg, v));
  }

  lemma TryOn(cfg: Config, s: State, id: nat, solo: Solo) returns (next: Solo)
    requires SoloRun(cfg, s, id, solo) && solo.v.r.pc.TryQueue?
    ensures SoloRun(cfg, s, id, next) && next.v == TriedIn(cfg, solo.v)
  {
    var v := TriedIn(cfg, solo.v);
    TryFrom(cfg, s, id, solo.v);
    Extend(cfg, solo.states, solo.events, Advance(id), With(s, id, v));
    next := Solo(solo.states + [With(s, id, v)], solo.events + [Advance(id)], v);
  }

  lemma TryFrom(cfg: Config, s: State, id: nat, v: View)
    requires Based(cfg, s, id, v) && v.r.pc.TryQueue?
    ensures Based(cfg, s, id, TriedIn(cfg, v)) && Step(cfg, With(s, id, v), Advance(id), With(s, id, TriedIn(cfg, v)))
  {
    assert Based(cfg, s, id, TriedIn(cfg, v));
    WithShows(cfg, s, id, v);
    TryAlone(cfg, With(s, id, v), id, v);
    WithTwice(s, id, v, TriedIn(cfg, v));
  }

  /** A request that has just arrived and passes its queues undisturbed holds the user's token if
      and only if that queue has room, and the cluster user's if and only if that one has room and
      the user's queue is absent or has room; then it is about to be counted. */
  lemma PassesQueues(cfg: Config, s: State, id: nat) returns (solo: Solo)
    requires WellFormed(cfg, s) && id in s.requests
    requires s.requests[id] == NewRequest(s.requests[id].user.account, s.requests[id].cuser.account, s.requests[id].host)
    ensures SoloRun(cfg, s, id, solo)
    ensures var u, c := s.requests[id].user.account, s.requests[id].cuser.account;
            var qu, qc := cfg.limits[u].queueSize, cfg.limits[c].queueSize;
            var ru, rc := s.ledgers[u].tokens < qu, s.ledgers[c].tokens < qc;
            && solo.v.r.pc == IncQuery(OfUser) && solo.v.r.host == s.requests[id].host
            && (solo.v.r.user.token <==> ru)
            && (solo.v.r.cuser.token <==> rc && (qu == 0 || ru))
            && (solo.v.r.waiting <==> Queued(cfg, solo.v.r))
            && solo.v.user == Joined(s.ledgers[u], solo.v.r.user.token)
            && solo.v.cuser == Joined(s.ledgers[c], solo.v.r.cuser.token)
  {
    solo := Start(cfg, s, id);
    solo := TryOn(cfg, s, id, solo);
    if solo.v.r.pc.TryQueue? {
      solo := TryOn(cfg, s, id, solo);
    }
  }

  lemma Arrives(cfg: Config, s: State, id: nat, u: Account, c: Account, host: Host)
    requires WellFormed(cfg, s) && Enabled(cfg, s, Arrive(id, u, c, host))
    ensures Apply(cfg, s, Arrive(id, u, c, host)) == s.(requests := s.requests[id := NewRequest(u, c, host)])
  {
  }
}
