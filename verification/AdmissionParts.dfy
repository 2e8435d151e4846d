/**
 * One admission step, as one of the two accounts of the moving request sees it: how the
 * account's counter, queue and limiter move with what the request holds of them.
 */
module AdmissionParts {
  import opened Words
  import opened Admission

  function Bit(b: bool): int {
    if b then 1 else 0
  }

  predicate StillQuery(pc: Option<Pc>, side: Side) {
    pc.Some? && HoldsQuery(pc.value, side)
  }

  predicate StillRate(pc: Option<Pc>, side: Side) {
    pc.Some? && HoldsRate(pc.value, side)
  }

  /** Event `e` is one that request `r` can take. */
  predicate Takes(e: Event, r: Request) {
    match e
    case Advance(_) => Busy(r.pc)
    case Decide(_, _) => r.pc.Deciding?
    case GiveUp(_) => r.pc.Refused?
    case TryAgain(_, _) => r.pc.Refused?
    case BadGateway(_, _) => r.pc.Serving?
    case Finish(_) => r.pc.Serving?
    case _ => false
  }

  predicate TokenThere(l: Ledger, e: Event, r: Request, side: Side) {
    e.Advance? && Freed(r) == Some(side) ==> l.tokens > 0
  }

  function OpDelta(op: Option<LedgerOp>, up: LedgerOp, down: LedgerOp): int {
    if op == Some(up) then 1 else if op == Some(down) then -1 else 0
  }

  lemma QueryOp(p: Part, side: Side, pc: Pc, room: bool, queue: bool, freed: Option<Side>)
    requires Busy(pc)
    ensures Bit(StillQuery(NextPc(pc, room, queue, freed), side)) - Bit(HoldsQuery(pc, side)) ==
            OpDelta(PartOp(p, side, pc, room, freed), QueryUp, QueryDown)
  {
  }

  lemma RateOp(p: Part, side: Side, pc: Pc, room: bool, queue: bool, freed: Option<Side>)
    requires Busy(pc)
    ensures Bit(StillRate(NextPc(pc, room, queue, freed), side)) - Bit(HoldsRate(pc, side)) ==
            OpDelta(PartOp(p, side, pc, room, freed), RateUp, RateDown(p.epoch))
  {
  }

  /** The step of request `r` as one of its two accounts sees it: the ledger goes from
      `l` to `l'`, and the request becomes `r'`. */
  predicate PartStep(lim: Limits, l: Ledger, l': Ledger, e: Event, r: Request, r': Option<Request>,
                     side: Side, room: bool, queue: bool)
  {
    && Takes(e, r) && TokenThere(l, e, r, side)
    && (r.pc == TryQueue(side) ==> room == Room(lim, l))
    && l' == PartLedger(lim, l, e, r, side)
    && var pc' := PcAfter(e, r, room, queue);
       && r'.Some? == pc'.Some?
       && (r'.Some? ==> r'.value.pc == pc'.value && PartOf(r'.value, side) == PartAfter(lim, l, e, r, side))
  }

  predicate HasQuery(r: Option<Request>, side: Side) {
    r.Some? && HoldsQuery(r.value.pc, side)
  }

  predicate HasRate(r: Option<Request>, side: Side) {
    r.Some? && HoldsRate(r.value.pc, side)
  }

  /** The query counter moves with the unit, and only a verdict of "within" adds to
      those within the limit. */
  predicate QueryMoved(lim: Limits, l: Ledger, l': Ledger, r: Request, r': Option<Request>, side: Side) {
    var change := Bit(HasQuery(r', side)) - Bit(HoldsQuery(r.pc, side));
    && l'.query == Wrap32(l.query + change)
    && Bit(HasQuery(r', side) && PartOf(r'.value, side).ok) - Bit(HoldsQuery(r.pc, side) && PartOf(r, side).ok) <=
       Bit(change == 1 && QueryOk(lim, l'.query))
  }

  lemma QueryWord(lim: Limits, l: Ledger, l': Ledger, e: Event, r: Request, r': Option<Request>,
                  side: Side, room: bool, queue: bool)
    requires PartStep(lim, l, l', e, r, r', side, room, queue)
    ensures l'.query == Wrap32(l.query + Bit(HasQuery(r', side)) - Bit(HoldsQuery(r.pc, side)))
  {
    if e.Advance? {
      QueryOp(PartOf(r, side), side, r.pc, room, queue, Freed(r));
      ComplementSubtracts(l.query, 1);
    }
  }

  lemma QueryVerdict(lim: Limits, l: Ledger, l': Ledger, e: Event, r: Request, r': Option<Request>,
                     side: Side, room: bool, queue: bool)
    requires PartStep(lim, l, l', e, r, r', side, room, queue)
    ensures Bit(HasQuery(r', side) && PartOf(r'.value, side).ok) - Bit(HoldsQuery(r.pc, side) && PartOf(r, side).ok) <=
            Bit(HasQuery(r', side) && !HoldsQuery(r.pc, side) && QueryOk(lim, l'.query))
  {
    if e.Advance? {
      QueryOp(PartOf(r, side), side, r.pc, room, queue, Freed(r));
    }
  }

  lemma QueryPart(lim: Limits, l: Ledger, l': Ledger, e: Event, r: Request, r': Option<Request>,
                  side: Side, room: bool, queue: bool)
    requires PartStep(lim, l, l', e, r, r', side, room, queue)
    ensures QueryMoved(lim, l, l', r, r', side)
  {
    QueryWord(lim, l, l', e, r, r', side, room, queue);
    QueryVerdict(lim, l, l', e, r, r', side, room, queue);
  }

  predicate TokenMoved(lim: Limits, l: Ledger, l': Ledger, r: Request, r': Option<Request>, side: Side) {
    var change := Bit(r'.Some? && PartOf(r'.value, side).token) - Bit(PartOf(r, side).token);
    && l'.tokens == l.tokens + change
    && (change == 1 ==> l.tokens < lim.queueSize)
  }

  lemma TokenPart(lim: Limits, l: Ledger, l': Ledger, e: Event, r: Request, r': Option<Request>,
                  side: Side, room: bool, queue: bool)
    requires PartStep(lim, l, l', e, r, r', side, room, queue)
    requires r.pc == TryQueue(side) || r.pc.DecHost? ==> !PartOf(r, side).token
    ensures TokenMoved(lim, l, l', r, r', side)
  {
  }

  function RateChange(l: Ledger, r: Request, r': Option<Request>, side: Side): int {
    Bit(HasRate(r', side) && PartOf(r'.value, side).epoch == l.epoch) -
    Bit(HoldsRate(r.pc, side) && PartOf(r, side).epoch == l.epoch)
  }

  /** The limiter word and the bookkeeping of its epoch move with the units of that epoch. */
  predicate RateMoved(l: Ledger, l': Ledger, r: Request, r': Option<Request>, side: Side) {
    var any := Bit(HasRate(r', side)) - Bit(HoldsRate(r.pc, side));
    var unit := RateChange(l, r, r', side);
    && l'.epoch == l.epoch && l'.pendingAtZero == l.pendingAtZero
    && l'.rpm == Wrap32(l.rpm + (l'.charged - l.charged) + unit - (l'.stale - l.stale))
    && (l'.stale + l'.carried) + any - unit == l.stale + l.carried
    && (unit == 1 ==> l'.charged == l.charged && l'.stale == l.stale)
  }

  lemma RateWord(lim: Limits, l: Ledger, l': Ledger, e: Event, r: Request, r': Option<Request>,
                 side: Side, room: bool, queue: bool)
    requires PartStep(lim, l, l', e, r, r', side, room, queue)
    requires HoldsRate(r.pc, side) ==> PartOf(r, side).epoch <= l.epoch
    ensures l'.rpm == Wrap32(l.rpm + (l'.charged - l.charged) + RateChange(l, r, r', side) - (l'.stale - l.stale))
  {
    if e.Advance? {
      RateOp(PartOf(r, side), side, r.pc, room, queue, Freed(r));
      ComplementSubtracts(l.rpm, 1);
    }
  }

  lemma RateBooks(lim: Limits, l: Ledger, l': Ledger, e: Event, r: Request, r': Option<Request>,
                  side: Side, room: bool, queue: bool)
    requires PartStep(lim, l, l', e, r, r', side, room, queue)
    requires HoldsRate(r.pc, side) ==> PartOf(r, side).epoch <= l.epoch
    ensures var unit := RateChange(l, r, r', side);
            && l'.epoch == l.epoch && l'.pendingAtZero == l.pendingAtZero
            && (l'.stale + l'.carried) + Bit(HasRate(r', side)) - Bit(HoldsRate(r.pc, side)) - unit == l.stale + l.carried
            && (unit == 1 ==> l'.charged == l.charged && l'.stale == l.stale)
  {
    if e.Advance? {
      RateOp(PartOf(r, side), side, r.pc, room, queue, Freed(r));
    }
  }

  lemma RatePart(lim: Limits, l: Ledger, l': Ledger, e: Event, r: Request, r': Option<Request>,
                 side: Side, room: bool, queue: bool)
    requires PartStep(lim, l, l', e, r, r', side, room, queue)
    requires HoldsRate(r.pc, side) ==> PartOf(r, side).epoch <= l.epoch
    ensures RateMoved(l, l', r, r', side)
  {
    RateWord(lim, l, l', e, r, r', side, room, queue);
    RateBooks(lim, l, l', e, r, r', side, room, queue);
  }

  /** Only a verdict of "within" on a new unit adds to those charged or about to be. */
  predicate LimitMoved(lim: Limits, l: Ledger, l': Ledger, r: Request, r': Option<Request>, side: Side) {
    (l'.charged - l.charged) - (l'.stale - l.stale) +
    Bit(HasRate(r', side) && PartOf(r'.value, side).epoch == l.epoch && PartOf(r'.value, side).rateOk) -
    Bit(HoldsRate(r.pc, side) && PartOf(r, side).epoch == l.epoch && PartOf(r, side).rateOk) <=
    Bit(RateChange(l, r, r', side) == 1 && RateOk(lim.reqPerMin, l'.rpm))
  }

  lemma LimitPart(lim: Limits, l: Ledger, l': Ledger, e: Event, r: Request, r': Option<Request>,
                  side: Side, room: bool, queue: bool)
    requires PartStep(lim, l, l', e, r, r', side, room, queue)
    requires HoldsRate(r.pc, side) ==> PartOf(r, side).epoch <= l.epoch
    ensures LimitMoved(lim, l, l', r, r', side)
  {
    if e.Advance? {
      RateOp(PartOf(r, side), side, r.pc, room, queue, Freed(r));
    }
  }

  lemma ConnPart(e: Event, r: Request, h: Host, room: bool, queue: bool)
    requires Takes(e, r)
    requires e.BadGateway? ==> e.next != r.host
    ensures var pc' := PcAfter(e, r, room, queue);
            var host' := if e.Advance? && r.pc.JoiningHost? then r.pc.next else if e.TryAgain? then e.host else r.host;
            Bit(pc'.Some? && HoldsConnection(pc'.value) && host' == h) - Bit(HoldsConnection(r.pc) && r.host == h) ==
            (if e.Advance? then ConnMove(r, h) else 0)
  {
  }
}
