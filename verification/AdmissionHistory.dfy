/** The per-minute limit in terms of what happens: admissions and zeroings. */
module AdmissionHistory {
  import opened Words
  import opened Admission
  import opened AdmissionLedger
  import opened AdmissionSafety

  /** The event admits a request of account `a`. */
  predicate Admits(s: State, e: Event, a: Account) {
    && e.Decide? && e.id in s.requests && Starts(s.requests[e.id], e.packetSizeOk)
    && (s.requests[e.id].user.account == a || s.requests[e.id].cuser.account == a)
  }

  /** How many of the events from `z` to `i` admit a request of account `a`. */
  function Admissions(trace: seq<State>, events: seq<Event>, a: Account, z: nat, i: nat): nat
    requires z <= i <= |events| <= |trace|
  {
    if z == i then 0
    else Admissions(trace, events, a, z, i - 1) + if Admits(trace[i - 1], events[i - 1], a) then 1 else 0
  }

  /** The limiter of `a` is zeroed just before `z`, or `z` is the start, and not again up to `i`. */
  predicate Minute(events: seq<Event>, a: Account, z: nat, i: nat) {
    && z <= i <= |events|
    && (z == 0 || events[z - 1] == ZeroLimiter(a))
    && forall k :: z <= k < i ==> events[k] != ZeroLimiter(a)
  }

  lemma MinuteBefore(events: seq<Event>, a: Account, z: nat, i: nat)
    requires Minute(events, a, z, i) && z < i
    ensures Minute(events, a, z, i - 1) && events[i - 1] != ZeroLimiter(a)
  {
  }

  /** What the books say of an account: admissions since it was zeroed, and attempts outstanding then. */
  predicate Books(s: State, a: Account, admissions: nat, pending: nat) {
    a in s.ledgers && s.ledgers[a].charged + s.ledgers[a].carried == admissions && s.ledgers[a].pendingAtZero == pending
  }

  lemma BooksStep(cfg: Config, s: State, e: Event, a: Account, admissions: nat, pending: nat)
    requires WellFormed(cfg, s) && Enabled(cfg, s, e) && a in cfg.limits && e != ZeroLimiter(a)
    requires Books(s, a, admissions, pending)
    ensures Books(Apply(cfg, s, e), a, admissions + if Admits(s, e, a) then 1 else 0, pending)
  {
    StepCharges(cfg, s, e, a);
  }

  /** One step charges the account once if it admits a request of it. */
  lemma StepCharges(cfg: Config, s: State, e: Event, a: Account)
    requires WellFormed(cfg, s) && Enabled(cfg, s, e) && a in cfg.limits && e != ZeroLimiter(a)
    ensures var l, l' := s.ledgers[a], LedgerAfter(cfg, s, e, a);
            && l'.pendingAtZero == l.pendingAtZero
            && l'.charged + l'.carried == l.charged + l.carried + if Admits(s, e, a) then 1 else 0
  {
  }

  /** Zeroing touches the limiter of that account and nothing else. */
  lemma ZeroesOne(cfg: Config, s: State, a: Account)
    requires WellFormed(cfg, s) && Enabled(cfg, s, ZeroLimiter(a)) && a in cfg.limits
    ensures var s' := Apply(cfg, s, ZeroLimiter(a));
            && s'.requests == s.requests && s'.conns == s.conns && s'.ledgers.Keys == s.ledgers.Keys
            && (forall b <- s.ledgers :: b != a ==> s'.ledgers[b] == s.ledgers[b])
            && s'.ledgers[a].rpm == 0
            && s'.ledgers[a].query == s.ledgers[a].query && s'.ledgers[a].tokens == s.ledgers[a].tokens
            && Books(s', a, 0, Count(s.requests, RateAny(a)))
  {
  }

  lemma BooksNext(cfg: Config, trace: seq<State>, events: seq<Event>, a: Account, z: nat, i: nat, pending: nat)
    requires Interleaving(cfg, trace, events) && z < i <= |events| && events[i - 1] != ZeroLimiter(a) && a in cfg.limits
    requires Books(trace[i - 1], a, Admissions(trace, events, a, z, i - 1), pending)
    ensures Books(trace[i], a, Admissions(trace, events, a, z, i), pending)
  {
    BooksStep(cfg, trace[i - 1], events[i - 1], a, Admissions(trace, events, a, z, i - 1), pending);
  }

  /** So the books count the admissions since the last zeroing. */
  lemma {:induction false} BooksCount(cfg: Config, trace: seq<State>, events: seq<Event>, a: Account, z: nat, i: nat)
    requires Interleaving(cfg, trace, events) && Minute(events, a, z, i) && a in cfg.limits
    ensures Books(trace[i], a, Admissions(trace, events, a, z, i), Count(trace[z].requests, RateAny(a)))
    decreases i
  {
    if z < i {
      MinuteBefore(events, a, z, i);
      BooksCount(cfg, trace, events, a, z, i - 1);
      BooksNext(cfg, trace, events, a, z, i, Count(trace[z].requests, RateAny(a)));
    } else {
      BooksStart(cfg, trace, events, a, z);
    }
  }

  lemma BooksStart(cfg: Config, trace: seq<State>, events: seq<Event>, a: Account, z: nat)
    requires Interleaving(cfg, trace, events) && Minute(events, a, z, z) && a in cfg.limits
    ensures Books(trace[z], a, 0, Count(trace[z].requests, RateAny(a)))
  {
    if z == 0 {
      NoRequests(RateAny(a));
    } else {
      ZeroesOne(cfg, trace[z - 1], a);
    }
  }

  /** Between two zeroings of a limiter, at most as many requests are admitted as the limit allows,
      and those on top that had incremented it before the first zeroing. */
  lemma AdmissionsPerMinute(cfg: Config, trace: seq<State>, events: seq<Event>, a: Account, z: nat, i: nat)
    requires GoodConfig(cfg) && Interleaving(cfg, trace, events) && Minute(events, a, z, i)
    requires a in cfg.limits && Signable(cfg, a)
    ensures Admissions(trace, events, a, z, i) <= cfg.limits[a].reqPerMin + Count(trace[z].requests, RateAny(a))
  {
    BooksCount(cfg, trace, events, a, z, i);
    RateLimit(cfg, trace, events, i, a);
  }
}
