/**
 * Counting over all requests: the ledger of an account stays in step with the number of
 * requests that hold a unit of it, whatever one request does.
 */
module AdmissionLedger {
  import opened Words
  import opened Admission
  import opened AdmissionParts

  function Holds(r: Option<Request>, t: Tag): int {
    if r.Some? && Matches(r.value, t) then 1 else 0
  }

  function Lookup(requests: map<nat, Request>, id: nat): Option<Request> {
    if id in requests then Some(requests[id]) else None
  }

  /** A step that moves one request changes each count by what that request changed. */
  lemma CountStep(requests: map<nat, Request>, id: nat, r: Option<Request>, t: Tag)
    ensures Count(Put(requests, id, r), t) ==
            Count(requests, t) - Holds(Lookup(requests, id), t) + Holds(r, t)
  {
    var a, b := Tagged(requests, t), Tagged(Put(requests, id, r), t);
    assert a - {id} == b - {id};
    SetStep(a, b, id);
  }

  lemma SetStep<T>(a: set<T>, b: set<T>, x: T)
    requires a - {x} == b - {x}
    ensures |b| == |a| - (if x in a then 1 else 0) + (if x in b then 1 else 0)
  {
    assert x in a ==> a == (a - {x}) + {x};
    assert x in b ==> b == (b - {x}) + {x};
    assert x !in a ==> a == a - {x};
    assert x !in b ==> b == b - {x};
  }

  lemma SubsetSize<T>(a: set<T>, b: set<T>)
    requires a <= b
    ensures |a| <= |b|
  {
    assert b == a + (b - a);
  }

  lemma CountBound(requests: map<nat, Request>, t: Tag)
    ensures Count(requests, t) <= |requests|
  {
    SubsetSize(Tagged(requests, t), requests.Keys);
  }

  /** Requests that match the narrower tag are among those that match the wider one. */
  lemma CountMonotone(requests: map<nat, Request>, narrow: Tag, wide: Tag)
    requires forall id <- requests :: Matches(requests[id], narrow) ==> Matches(requests[id], wide)
    ensures Count(requests, narrow) <= Count(requests, wide)
  {
    SubsetSize(Tagged(requests, narrow), Tagged(requests, wide));
  }

  // ---------- The change one request makes ----------

  /** How the step changes the units the moving request holds. */
  function Delta(requests: map<nat, Request>, id: nat, r': Option<Request>, t: Tag): int {
    Holds(r', t) - Holds(Lookup(requests, id), t)
  }

  /** Request `id` becomes `r'`, and both versions are requests of account `a`. */
  predicate Ours(requests: map<nat, Request>, id: nat, r': Option<Request>, a: Account) {
    && id in requests
    && PartOf(requests[id], SideOf(a)).account == a
    && (r'.Some? ==> PartOf(r'.value, SideOf(a)).account == a)
  }

  lemma QueryDelta(lim: Limits, requests: map<nat, Request>, id: nat, r': Option<Request>, a: Account, l: Ledger, l': Ledger)
    requires Ours(requests, id, r', a) && QueryMoved(lim, l, l', requests[id], r', SideOf(a))
    ensures l'.query == Wrap32(l.query + Delta(requests, id, r', QueryUnit(a)))
    ensures Delta(requests, id, r', WithinLimit(a)) <=
            Bit(Delta(requests, id, r', QueryUnit(a)) == 1 && QueryOk(lim, l'.query))
  {
  }

  lemma TokenDelta(lim: Limits, requests: map<nat, Request>, id: nat, r': Option<Request>, a: Account, l: Ledger, l': Ledger)
    requires Ours(requests, id, r', a) && TokenMoved(lim, l, l', requests[id], r', SideOf(a))
    ensures l'.tokens == l.tokens + Delta(requests, id, r', Token(a))
    ensures Delta(requests, id, r', Token(a)) == 1 ==> l.tokens < lim.queueSize
  {
  }

  lemma RateDelta(requests: map<nat, Request>, id: nat, r': Option<Request>, a: Account, l: Ledger, l': Ledger)
    requires Ours(requests, id, r', a) && RateMoved(l, l', requests[id], r', SideOf(a))
    ensures l'.epoch == l.epoch && l'.pendingAtZero == l.pendingAtZero
    ensures var unit := Delta(requests, id, r', RateUnit(a, l.epoch));
            && l'.rpm == Wrap32(l.rpm + (l'.charged - l.charged) + unit - (l'.stale - l.stale))
            && (l'.stale + l'.carried) + Delta(requests, id, r', RateAny(a)) - unit == l.stale + l.carried
            && (unit == 1 ==> l'.charged == l.charged && l'.stale == l.stale)
  {
  }

  lemma LimitDelta(lim: Limits, requests: map<nat, Request>, id: nat, r': Option<Request>, a: Account, l: Ledger, l': Ledger)
    requires Ours(requests, id, r', a) && LimitMoved(lim, l, l', requests[id], r', SideOf(a))
    ensures (l'.charged - l.charged) - (l'.stale - l.stale) + Delta(requests, id, r', RateWithin(a, l.epoch)) <=
            Bit(Delta(requests, id, r', RateUnit(a, l.epoch)) == 1 && RateOk(lim.reqPerMin, l'.rpm))
  {
  }

  // ---------- What an account sees of a step ----------

  /** A request that has nothing to do with account `a`, or has not begun. */
  predicate Quiet(r: Option<Request>, a: Account) {
    r.Some? ==>
      || PartOf(r.value, SideOf(a)).account != a
      || (r.value.pc == TryQueue(OfUser) && !PartOf(r.value, SideOf(a)).token)
  }

  lemma QuietHoldsNothing(r: Option<Request>, t: Tag)
    requires !t.Connection? && Quiet(r, t.a)
    ensures Holds(r, t) == 0
  {
  }

  predicate AccountMoved(lim: Limits, l: Ledger, l': Ledger, r: Request, r': Option<Request>, side: Side) {
    && QueryMoved(lim, l, l', r, r', side)
    && TokenMoved(lim, l, l', r, r', side)
    && RateMoved(l, l', r, r', side)
    && LimitMoved(lim, l, l', r, r', side)
  }

  /** What account `a` sees of the step in which request `id` becomes `r'`. */
  predicate Seen(lim: Limits, l: Ledger, l': Ledger, requests: map<nat, Request>, id: nat, r': Option<Request>, a: Account) {
    if Ours(requests, id, r', a) then AccountMoved(lim, l, l', requests[id], r', SideOf(a))
    else l' == l && Quiet(Lookup(requests, id), a) && Quiet(r', a)
  }

  lemma SeenQuiet(lim: Limits, l: Ledger, l': Ledger, requests: map<nat, Request>, id: nat, r': Option<Request>, t: Tag)
    requires !t.Connection? && Seen(lim, l, l', requests, id, r', t.a) && !Ours(requests, id, r', t.a)
    ensures l' == l && Delta(requests, id, r', t) == 0
  {
    QuietHoldsNothing(r', t);
    QuietHoldsNothing(Lookup(requests, id), t);
  }

  // ---------- The query counter ----------

  lemma WithinIsHeld(requests: map<nat, Request>, a: Account)
    ensures Count(requests, WithinLimit(a)) <= Count(requests, QueryUnit(a)) <= |requests|
  {
    CountMonotone(requests, WithinLimit(a), QueryUnit(a));
    CountBound(requests, QueryUnit(a));
  }

  lemma SeenQuery(lim: Limits, l: Ledger, l': Ledger, requests: map<nat, Request>, id: nat, r': Option<Request>, a: Account)
    requires Seen(lim, l, l', requests, id, r', a)
    ensures l'.query == Wrap32(l.query + Delta(requests, id, r', QueryUnit(a)))
    ensures Delta(requests, id, r', WithinLimit(a)) <=
            Bit(Delta(requests, id, r', QueryUnit(a)) == 1 && QueryOk(lim, l'.query))
  {
    if Ours(requests, id, r', a) {
      QueryDelta(lim, requests, id, r', a, l, l');
    } else {
      SeenQuiet(lim, l, l', requests, id, r', QueryUnit(a));
      SeenQuiet(lim, l, l', requests, id, r', WithinLimit(a));
    }
  }

  lemma QueryWordKept(l: Ledger, l': Ledger, requests: map<nat, Request>, id: nat, r': Option<Request>, a: Account)
    requires |Put(requests, id, r')| < TWO32
    requires l.query == Count(requests, QueryUnit(a))
    requires l'.query == Wrap32(l.query + Delta(requests, id, r', QueryUnit(a)))
    ensures l'.query == Count(Put(requests, id, r'), QueryUnit(a))
  {
    CountStep(requests, id, r', QueryUnit(a));
    CountBound(Put(requests, id, r'), QueryUnit(a));
    WordFollows(l.query, l'.query, Delta(requests, id, r', QueryUnit(a)));
  }

  lemma QueryKept(lim: Limits, l: Ledger, l': Ledger, requests: map<nat, Request>, id: nat, r': Option<Request>, a: Account)
    requires Seen(lim, l, l', requests, id, r', a) && |Put(requests, id, r')| < TWO32
    requires l.query == Count(requests, QueryUnit(a))
    requires lim.maxConcurrent > 0 ==> Count(requests, WithinLimit(a)) <= lim.maxConcurrent
    ensures l'.query == Count(Put(requests, id, r'), QueryUnit(a))
    ensures lim.maxConcurrent > 0 ==> Count(Put(requests, id, r'), WithinLimit(a)) <= lim.maxConcurrent
  {
    SeenQuery(lim, l, l', requests, id, r', a);
    QueryWordKept(l, l', requests, id, r', a);
    CountStep(requests, id, r', WithinLimit(a));
    WithinIsHeld(Put(requests, id, r'), a);
  }

  // ---------- The queue ----------

  lemma SeenToken(lim: Limits, l: Ledger, l': Ledger, requests: map<nat, Request>, id: nat, r': Option<Request>, a: Account)
    requires Seen(lim, l, l', requests, id, r', a)
    ensures l'.tokens == l.tokens + Delta(requests, id, r', Token(a))
    ensures Delta(requests, id, r', Token(a)) == 1 ==> l.tokens < lim.queueSize
  {
    if Ours(requests, id, r', a) {
      TokenDelta(lim, requests, id, r', a, l, l');
    } else {
      SeenQuiet(lim, l, l', requests, id, r', Token(a));
    }
  }

  lemma TokenKept(lim: Limits, l: Ledger, l': Ledger, requests: map<nat, Request>, id: nat, r': Option<Request>, a: Account)
    requires Seen(lim, l, l', requests, id, r', a)
    requires l.tokens == Count(requests, Token(a)) <= lim.queueSize
    ensures l'.tokens == Count(Put(requests, id, r'), Token(a)) <= lim.queueSize
  {
    SeenToken(lim, l, l', requests, id, r', a);
    CountStep(requests, id, r', Token(a));
  }

  // ---------- The limiter ----------

  lemma RateWithinIsHeld(requests: map<nat, Request>, a: Account, epoch: nat)
    ensures Count(requests, RateWithin(a, epoch)) <= Count(requests, RateUnit(a, epoch)) <= Count(requests, RateAny(a))
    ensures Count(requests, RateAny(a)) <= |requests|
  {
    CountMonotone(requests, RateWithin(a, epoch), RateUnit(a, epoch));
    CountMonotone(requests, RateUnit(a, epoch), RateAny(a));
    CountBound(requests, RateAny(a));
  }

  /** The signed guard at work: while the true rate stays clear of the sign bit, the check
      passes exactly those increments that the true rate allows. */
  lemma SignedReading(limit: int, rate: int)
    requires 0 < limit < TWO31 && -TWO31 < rate < TWO31
    ensures RateOk(limit, Wrap32(rate)) <==> rate <= limit
  {
  }

  lemma LimitArith(limit: int, inFlight: nat, l: Ledger, l': Ledger, n: nat, n': nat, w: nat, w': nat, pending: nat)
    requires 0 < limit && limit + inFlight < TWO31
    requires w' <= n' <= inFlight && l.stale <= pending <= inFlight
    requires l.charged + w <= limit + l.stale
    requires l'.rpm == Wrap32(l'.charged + n' - l'.stale)
    requires n' - n == 1 ==> l'.charged == l.charged && l'.stale == l.stale
    requires (l'.charged - l.charged) - (l'.stale - l.stale) + w' - w <= Bit(n' - n == 1 && RateOk(limit, l'.rpm))
    ensures l'.charged + w' <= limit + l'.stale
  {
    if n' - n == 1 {
      SignedReading(limit, l'.charged + n' - l'.stale);
    }
  }

  lemma SeenRate(lim: Limits, l: Ledger, l': Ledger, requests: map<nat, Request>, id: nat, r': Option<Request>, a: Account)
    requires Seen(lim, l, l', requests, id, r', a)
    ensures l'.epoch == l.epoch && l'.pendingAtZero == l.pendingAtZero
    ensures var unit := Delta(requests, id, r', RateUnit(a, l.epoch));
            && l'.rpm == Wrap32(l.rpm + (l'.charged - l.charged) + unit - (l'.stale - l.stale))
            && (l'.stale + l'.carried) + Delta(requests, id, r', RateAny(a)) - unit == l.stale + l.carried
            && (unit == 1 ==> l'.charged == l.charged && l'.stale == l.stale)
  {
    if Ours(requests, id, r', a) {
      RateDelta(requests, id, r', a, l, l');
    } else {
      SeenQuiet(lim, l, l', requests, id, r', RateAny(a));
      SeenQuiet(lim, l, l', requests, id, r', RateUnit(a, l.epoch));
    }
  }

  lemma SeenLimit(lim: Limits, l: Ledger, l': Ledger, requests: map<nat, Request>, id: nat, r': Option<Request>, a: Account)
    requires Seen(lim, l, l', requests, id, r', a)
    ensures (l'.charged - l.charged) - (l'.stale - l.stale) + Delta(requests, id, r', RateWithin(a, l.epoch)) <=
            Bit(Delta(requests, id, r', RateUnit(a, l.epoch)) == 1 && RateOk(lim.reqPerMin, l'.rpm))
  {
    if Ours(requests, id, r', a) {
      LimitDelta(lim, requests, id, r', a, l, l');
    } else {
      SeenQuiet(lim, l, l', requests, id, r', RateUnit(a, l.epoch));
      SeenQuiet(lim, l, l', requests, id, r', RateWithin(a, l.epoch));
    }
  }

  /** The word is the true rate (which may be negative), and every attempt outstanding at the
      last zeroing is still outstanding, was taken back since, or was admitted since. */
  predicate RateExact(l: Ledger, requests: map<nat, Request>, a: Account) {
    var unit := Count(requests, RateUnit(a, l.epoch));
    && l.rpm == Wrap32(l.charged + unit - l.stale)
    && l.stale + l.carried + Count(requests, RateAny(a)) - unit == l.pendingAtZero
  }

  lemma RateKept(lim: Limits, l: Ledger, l': Ledger, requests: map<nat, Request>, id: nat, r': Option<Request>, a: Account)
    requires Seen(lim, l, l', requests, id, r', a)
    requires RateExact(l, requests, a)
    ensures RateExact(l', Put(requests, id, r'), a)
    ensures l'.epoch == l.epoch && l'.pendingAtZero == l.pendingAtZero
  {
    SeenRate(lim, l, l', requests, id, r', a);
    CountStep(requests, id, r', RateUnit(a, l.epoch));
    CountStep(requests, id, r', RateAny(a));
    var unit := Count(requests, RateUnit(a, l.epoch));
    WrapAdd(l.charged + unit - l.stale,
            (l'.charged - l.charged) + Delta(requests, id, r', RateUnit(a, l.epoch)) - (l'.stale - l.stale));
  }

  /** Charged attempts and those about to be fit the limit, give or take stale decrements. */
  predicate WithinRate(limit: int, l: Ledger, requests: map<nat, Request>, a: Account) {
    l.charged + Count(requests, RateWithin(a, l.epoch)) <= limit + l.stale
  }

  lemma LimitKept(lim: Limits, l: Ledger, l': Ledger, requests: map<nat, Request>, id: nat, r': Option<Request>, a: Account,
                  inFlight: nat)
    requires Seen(lim, l, l', requests, id, r', a)
    requires RateExact(l, requests, a) && l.pendingAtZero <= inFlight && |Put(requests, id, r')| <= inFlight
    requires 0 < lim.reqPerMin && lim.reqPerMin + inFlight < TWO31
    requires WithinRate(lim.reqPerMin, l, requests, a)
    ensures WithinRate(lim.reqPerMin, l', Put(requests, id, r'), a)
  {
    RateKept(lim, l, l', requests, id, r', a);
    SeenRate(lim, l, l', requests, id, r', a);
    SeenLimit(lim, l, l', requests, id, r', a);
    var after := Put(requests, id, r');
    CountStep(requests, id, r', RateUnit(a, l.epoch));
    CountStep(requests, id, r', RateWithin(a, l.epoch));
    RateWithinIsHeld(requests, a, l.epoch);
    RateWithinIsHeld(after, a, l.epoch);
    LimitArith(lim.reqPerMin, inFlight, l, l', Count(requests, RateUnit(a, l.epoch)), Count(after, RateUnit(a, l.epoch)),
               Count(requests, RateWithin(a, l.epoch)), Count(after, RateWithin(a, l.epoch)), l.pendingAtZero);
  }
}
