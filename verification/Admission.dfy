/**
 * Admission control of requests, with every atomic operation as one step.
 *
 * A request takes queue tokens, counts itself on the query counters and on the
 * per-minute limiters of its user and of its cluster user, is admitted or undoes
 * its increments, holds a connection unit on one host while it is served (a retry
 * moves that unit), and gives everything back in the end.  Any number of requests
 * interleave, and a limiter may be zeroed between any two steps.
 */
module Admission {
  import opened Words

  datatype Account = User(id: nat) | ClusterUser(id: nat)

  /** `reqPerMin` is an int32; a `queueSize` of zero stands for a nil channel. */
  datatype Limits = Limits(maxConcurrent: u32, reqPerMin: int, queueSize: nat)

  type Host = nat

  datatype Config = Config(limits: map<Account, Limits>, hosts: set<Host>, maxInFlight: nat)

  datatype Side = OfUser | OfCluster

  /** Where a request stands: about to perform the named operation, on its user's or
      its cluster user's object where the operation exists for both. */
  datatype Pc =
    | TryQueue(side: Side)
    | IncQuery(side: Side)
    | IncRate(side: Side)
    | Deciding
    | UndoQuery(side: Side)
    | UndoRate(side: Side)
    | Refused
    | Connecting
    | Releasing(admitted: bool)
    | Serving
    | LeavingHost(next: Host)
    | JoiningHost(next: Host)
    | DecQuery(side: Side)
    | DecHost

  /** A request's dealings with one account: whether it holds a queue token, the verdicts
      of the last checks, and the number of zeroings the limiter had seen when this
      request incremented it. */
  datatype Part = Part(account: Account, token: bool, ok: bool, rateOk: bool, epoch: nat)

  datatype Request = Request(user: Part, cuser: Part, host: Host, waiting: bool, pc: Pc)

  /** What the program shares per user or cluster user: the query counter `query`, the
      limiter word `rpm` and the queue length `tokens`.  The rest is bookkeeping about
      the current epoch of the limiter: `charged` counts admitted attempts that
      incremented it in this epoch, `stale` and `carried` the refused and the admitted
      attempts that incremented it in an earlier epoch and were taken back or admitted
      in this one, and `pendingAtZero` the attempts outstanding when it was last zeroed. */
  datatype Ledger = Ledger(
    query: u32,
    rpm: u32,
    tokens: nat,
    epoch: nat,
    charged: nat,
    stale: nat,
    carried: nat,
    pendingAtZero: nat)

  datatype State = State(
    ledgers: map<Account, Ledger>,
    conns: map<Host, u32>,
    requests: map<nat, Request>)

  datatype Event =
    | Arrive(id: nat, user: Account, cuser: Account, host: Host)
    | Advance(id: nat)
    | Decide(id: nat, packetSizeOk: bool)
    | GiveUp(id: nat)
    | TryAgain(id: nat, host: Host)
    | BadGateway(id: nat, next: Host)
    | Finish(id: nat)
    | ZeroLimiter(account: Account)

  predicate GoodConfig(cfg: Config) {
    && (forall a <- cfg.limits :: -TWO31 <= cfg.limits[a].reqPerMin < TWO31)
    && cfg.maxInFlight < TWO32
  }

  predicate Known(cfg: Config, r: Request) {
    && r.user.account in cfg.limits && r.user.account.User?
    && r.cuser.account in cfg.limits && r.cuser.account.ClusterUser?
    && r.host in cfg.hosts
    && (r.pc.LeavingHost? || r.pc.JoiningHost? ==> r.pc.next in cfg.hosts)
  }

  predicate WellFormed(cfg: Config, s: State) {
    && s.ledgers.Keys == cfg.limits.Keys
    && s.conns.Keys == cfg.hosts
    && |s.requests| <= cfg.maxInFlight
    && forall id <- s.requests :: Known(cfg, s.requests[id])
  }

  // ---------- The checks ----------

  /** The concurrency check: the value returned by the increment against the limit. */
  predicate QueryOk(l: Limits, count: u32) {
    !(l.maxConcurrent > 0 && count > l.maxConcurrent)
  }

  /** The per-minute check, with its signed guard. */
  predicate RateOk(reqPerMin: int, count: u32) {
    !((reqPerMin > 0 && Signed32(count) > 0 && count > Wrap32(reqPerMin)) || reqPerMin < 0)
  }

  /** The request starts when no check failed; the packet-size limiter is an opaque verdict. */
  predicate Starts(r: Request, packetSizeOk: bool) {
    r.user.ok && r.cuser.ok && r.user.rateOk && r.cuser.rateOk && packetSizeOk
  }

  // ---------- Atomic operations ----------

  datatype Option<T> = None | Some(value: T)

  /** One atomic operation on the words and the channel of an account. */
  datatype LedgerOp =
    | QueryUp
    | QueryDown
    | RateUp
    | RateDown(epoch: nat)
    | Send
    | Receive

  function After(l: Ledger, op: Option<LedgerOp>): Ledger
    requires op == Some(Receive) ==> l.tokens > 0
  {
    match op
    case None => l
    case Some(QueryUp) => l.(query := Inc32(l.query))
    case Some(QueryDown) => l.(query := Dec32(l.query))
    case Some(RateUp) => l.(rpm := Inc32(l.rpm))
    // A decrement that belongs to an earlier epoch is stale.
    case Some(RateDown(e)) => l.(rpm := Dec32(l.rpm), stale := if e < l.epoch then l.stale + 1 else l.stale)
    case Some(Send) => l.(tokens := l.tokens + 1)
    case Some(Receive) => l.(tokens := l.tokens - 1)
  }

  function PartOf(r: Request, side: Side): Part {
    if side == OfUser then r.user else r.cuser
  }

  /** A send to the queue succeeds; a nil channel never has room. */
  predicate Room(lim: Limits, l: Ledger) {
    l.tokens < lim.queueSize
  }

  /** The token to return next: the deferred receives happen in reverse order. */
  function Freed(r: Request): Option<Side> {
    if !r.pc.Releasing? then None
    else if r.cuser.token then Some(OfCluster)
    else if r.user.token then Some(OfUser)
    else None
  }

  /** The next operation on one of the two accounts, if it is on that one. */
  function PartOp(p: Part, side: Side, pc: Pc, room: bool, freed: Option<Side>): Option<LedgerOp> {
    if pc == TryQueue(side) then if room then Some(Send) else None
    else if pc == IncQuery(side) then Some(QueryUp)
    else if pc == IncRate(side) then Some(RateUp)
    else if pc == UndoQuery(side) || pc == DecQuery(side) then Some(QueryDown)
    else if pc == UndoRate(side) then Some(RateDown(p.epoch))
    else if pc.Releasing? && freed == Some(side) then Some(Receive)
    else None
  }

  /** The part after an operation that turned the account's ledger from `l` into `l'`. */
  function NextPart(p: Part, side: Side, pc: Pc, lim: Limits, l: Ledger, l': Ledger, freed: Option<Side>): Part {
    if pc == TryQueue(side) then p.(token := Room(lim, l))
    else if pc == IncQuery(side) then p.(ok := QueryOk(lim, l'.query))
    else if pc == IncRate(side) then p.(rateOk := RateOk(lim.reqPerMin, l'.rpm), epoch := l'.epoch)
    else if pc.Releasing? && freed == Some(side) then p.(token := false)
    else p
  }

  /** Where a request goes after its operation, `None` when it is over.  `room` and
      `queue` say whether the queue it tries has room and whether there is one. */
  function NextPc(pc: Pc, room: bool, queue: bool, freed: Option<Side>): Option<Pc> {
    match pc
    // A full queue leaves one last attempt without waiting.
    case TryQueue(side) =>
      if side == OfUser && (room || !queue) then Some(TryQueue(OfCluster)) else Some(IncQuery(OfUser))
    case IncQuery(side) => Some(if side == OfUser then IncQuery(OfCluster) else IncRate(OfUser))
    case IncRate(side) => Some(if side == OfUser then IncRate(OfCluster) else Deciding)
    case UndoQuery(side) => Some(if side == OfUser then UndoQuery(OfCluster) else UndoRate(OfUser))
    case UndoRate(side) => Some(if side == OfUser then UndoRate(OfCluster) else Refused)
    case Connecting => Some(Releasing(true))
    case Releasing(admitted) => if freed.Some? then Some(pc) else if admitted then Some(Serving) else None
    case LeavingHost(next) => Some(JoiningHost(next))
    case JoiningHost(next) => Some(Serving)
    case DecQuery(side) => Some(if side == OfUser then DecQuery(OfCluster) else DecHost)
    case DecHost => None
    case _ => Some(pc)
  }

  /** Whether a request is at an operation it performs on its own. */
  predicate Busy(pc: Pc) {
    !pc.Deciding? && !pc.Refused? && !pc.Serving?
  }

  // ---------- Steps ----------

  predicate Enabled(cfg: Config, s: State, e: Event)
    requires WellFormed(cfg, s)
  {
    match e
    case Arrive(id, u, c, h) =>
      && id !in s.requests && |s.requests| < cfg.maxInFlight
      && u in cfg.limits && u.User? && c in cfg.limits && c.ClusterUser? && h in cfg.hosts
    case Advance(id) => id in s.requests && Busy(s.requests[id].pc) && CanReceive(cfg, s, s.requests[id])
    case Decide(id, _) => id in s.requests && s.requests[id].pc.Deciding?
    case GiveUp(id) => id in s.requests && s.requests[id].pc.Refused?
    case TryAgain(id, h) => id in s.requests && s.requests[id].pc.Refused? && s.requests[id].waiting && h in cfg.hosts
    case BadGateway(id, next) =>
      id in s.requests && s.requests[id].pc.Serving? && next in cfg.hosts && next != s.requests[id].host
    case Finish(id) => id in s.requests && s.requests[id].pc.Serving?
    case ZeroLimiter(a) => a in cfg.limits
  }

  /** A receive on an empty channel blocks. */
  predicate CanReceive(cfg: Config, s: State, r: Request)
    requires WellFormed(cfg, s) && Known(cfg, r)
  {
    Freed(r).Some? ==> s.ledgers[PartOf(r, Freed(r).value).account].tokens > 0
  }

  /** Bookkeeping for an admitted attempt that incremented the limiter in `epoch`. */
  function Charge(l: Ledger, epoch: nat): Ledger {
    if epoch == l.epoch then l.(charged := l.charged + 1) else l.(carried := l.carried + 1)
  }

  /** `store(0)`, with `pending` attempts outstanding. */
  function Zero(l: Ledger, pending: nat): Ledger {
    l.(rpm := 0, epoch := l.epoch + 1, charged := 0, stale := 0, carried := 0, pendingAtZero := pending)
  }

  function SideOf(a: Account): Side {
    if a.User? then OfUser else OfCluster
  }

  /** The ledger of an account after a step of request `r`, whose part with it is `p`. */
  function PartLedger(lim: Limits, l: Ledger, e: Event, r: Request, side: Side): Ledger
    requires e.Advance? && Freed(r) == Some(side) ==> l.tokens > 0
  {
    if e.Advance? then After(l, PartOp(PartOf(r, side), side, r.pc, Room(lim, l), Freed(r)))
    else if e.Decide? && Starts(r, e.packetSizeOk) then Charge(l, PartOf(r, side).epoch)
    else l
  }

  /** The ledger of account `a` after a step. */
  function LedgerAfter(cfg: Config, s: State, e: Event, a: Account): Ledger
    requires WellFormed(cfg, s) && Enabled(cfg, s, e) && a in cfg.limits
  {
    if e.ZeroLimiter? then
      if a == e.account then Zero(s.ledgers[a], Count(s.requests, RateAny(a))) else s.ledgers[a]
    else if e.id in s.requests && PartOf(s.requests[e.id], SideOf(a)).account == a then
      PartLedger(cfg.limits[a], s.ledgers[a], e, s.requests[e.id], SideOf(a))
    else s.ledgers[a]
  }

  /** How a step of request `r` moves the connection counter of host `h`. */
  function ConnMove(r: Request, h: Host): int {
    if r.pc.Connecting? && r.host == h then 1
    else if r.pc == JoiningHost(h) then 1
    else if (r.pc.LeavingHost? || r.pc.DecHost?) && r.host == h then -1
    else 0
  }

  function ConnAfter(s: State, e: Event, h: Host): u32
    requires h in s.conns
  {
    if e.Advance? && e.id in s.requests && ConnMove(s.requests[e.id], h) == 1 then Inc32(s.conns[h])
    else if e.Advance? && e.id in s.requests && ConnMove(s.requests[e.id], h) == -1 then Dec32(s.conns[h])
    else s.conns[h]
  }

  /** The part of request `r` with one account after a step. */
  function PartAfter(lim: Limits, l: Ledger, e: Event, r: Request, side: Side): Part
    requires e.Advance? && Freed(r) == Some(side) ==> l.tokens > 0
  {
    if e.Advance? then
      NextPart(PartOf(r, side), side, r.pc, lim, l, PartLedger(lim, l, e, r, side), Freed(r))
    else PartOf(r, side)
  }

  /** Where request `r` stands after a step; `room` and `queue` are about the queue it tries. */
  function PcAfter(e: Event, r: Request, room: bool, queue: bool): Option<Pc> {
    match e
    case Advance(_) => NextPc(r.pc, room, queue, Freed(r))
    case Decide(_, packetSizeOk) => Some(if Starts(r, packetSizeOk) then Connecting else UndoQuery(OfUser))
    case GiveUp(_) => Some(Releasing(false))
    case TryAgain(_, _) => Some(IncQuery(OfUser))
    case BadGateway(_, next) => Some(LeavingHost(next))
    case Finish(_) => Some(DecQuery(OfUser))
    case _ => Some(r.pc)
  }

  function NewRequest(user: Account, cuser: Account, host: Host): Request {
    Request(Part(user, false, false, false, 0), Part(cuser, false, false, false, 0), host, false, TryQueue(OfUser))
  }

  /** The account whose queue a request tries. */
  function Tried(r: Request): Account {
    if r.pc == TryQueue(OfUser) then r.user.account else r.cuser.account
  }

  /** The request of event `e` after the step, `None` when it is over.  A request waits in
      the queue once it has passed the last queue it had to enter. */
  function RequestAfter(cfg: Config, s: State, e: Event): Option<Request>
    requires WellFormed(cfg, s) && Enabled(cfg, s, e) && !e.ZeroLimiter?
  {
    if e.Arrive? then Some(NewRequest(e.user, e.cuser, e.host))
    else
      var r := s.requests[e.id];
      var u, c := r.user.account, r.cuser.account;
      var room, queue := Room(cfg.limits[Tried(r)], s.ledgers[Tried(r)]), cfg.limits[Tried(r)].queueSize > 0;
      var pc' := PcAfter(e, r, room, queue);
      if pc'.None? then None
      else Some(Request(
        PartAfter(cfg.limits[u], s.ledgers[u], e, r, OfUser),
        PartAfter(cfg.limits[c], s.ledgers[c], e, r, OfCluster),
        if e.Advance? && r.pc.JoiningHost? then r.pc.next else if e.TryAgain? then e.host else r.host,
        if e.Advance? && r.pc == TryQueue(OfCluster) then room || (!queue && r.user.token) else r.waiting,
        pc'.value))
  }

  function Put(requests: map<nat, Request>, id: nat, r: Option<Request>): map<nat, Request> {
    if r.Some? then requests[id := r.value] else requests - {id}
  }

  /** The state after one step. */
  function Apply(cfg: Config, s: State, e: Event): State
    requires WellFormed(cfg, s) && Enabled(cfg, s, e)
  {
    State(
      map a | a in cfg.limits :: LedgerAfter(cfg, s, e, a),
      map h | h in cfg.hosts :: ConnAfter(s, e, h),
      if e.ZeroLimiter? then s.requests else Put(s.requests, e.id, RequestAfter(cfg, s, e)))
  }

  // ---------- Who holds what ----------

  /** Properties of a single request that are counted over all requests. */
  datatype Tag =
    | QueryUnit(a: Account)
    | WithinLimit(a: Account)
    | InProgress(a: Account)
    | Connection(h: Host)
    | Token(a: Account)
    | RateAny(a: Account)
    | RateUnit(a: Account, epoch: nat)
    | RateWithin(a: Account, epoch: nat)

  predicate Admitted(pc: Pc) {
    || pc.Connecting? || pc == Releasing(true) || pc.Serving? || pc.LeavingHost? || pc.JoiningHost?
    || pc == DecQuery(OfUser)
  }

  predicate HoldsQuery(pc: Pc, side: Side) {
    || Admitted(pc) || pc.IncRate? || pc.Deciding? || pc == UndoQuery(side)
    || (if side == OfUser then pc == IncQuery(OfCluster) else pc == UndoQuery(OfUser) || pc == DecQuery(OfCluster))
  }

  predicate HoldsRate(pc: Pc, side: Side) {
    || pc.Deciding? || pc.UndoQuery? || pc == UndoRate(side)
    || (if side == OfUser then pc == IncRate(OfCluster) else pc == UndoRate(OfUser))
  }

  predicate HoldsConnection(pc: Pc) {
    pc == Releasing(true) || pc.Serving? || pc.LeavingHost? || pc.DecQuery? || pc.DecHost?
  }

  /** Tag `t` holds of a request at `pc` whose part on that side is `p`. */
  predicate TagOn(p: Part, pc: Pc, side: Side, t: Tag) {
    match t
    case QueryUnit(_) => HoldsQuery(pc, side)
    case WithinLimit(_) => HoldsQuery(pc, side) && p.ok
    case InProgress(_) => Admitted(pc)
    case Token(_) => p.token
    case RateAny(_) => HoldsRate(pc, side)
    case RateUnit(_, e) => HoldsRate(pc, side) && p.epoch == e
    case RateWithin(_, e) => HoldsRate(pc, side) && p.epoch == e && p.rateOk
    case Connection(_) => false
  }

  predicate Matches(r: Request, t: Tag) {
    if t.Connection? then t.h == r.host && HoldsConnection(r.pc)
    else
      var p := PartOf(r, SideOf(t.a));
      p.account == t.a && TagOn(p, r.pc, SideOf(t.a), t)
  }

  function Tagged(requests: map<nat, Request>, t: Tag): set<nat> {
    set id | id in requests && Matches(requests[id], t)
  }

  /** How many requests match `t`. */
  function Count(requests: map<nat, Request>, t: Tag): nat {
    |Tagged(requests, t)|
  }
}
