/**
 * Serving queries through the cache: lookup, waiting for a concurrent query, proxying,
 * storing, and ending the transaction, as interleaved steps of any number of requests.
 */
module CacheProtocol {
  import R = Registry

  type Key = string

  /** Registry times and the largest payload that is stored. */
  datatype Config = Config(ttl: int, endedTtl: int, maxPayload: int)

  /** The captured response of a proxied query. */
  datatype Response = Response(key: Key, status: int, canceled: bool, length: int)

  datatype Verdict =
    | Pending                       // not answered yet
    | FromCache(source: nat)        // the stored response of request `source`
    | ConcurrentFailure             // 500, because a concurrent query failed
    | Proxied                       // its own response
    | InternalError

  /** Where a request stands.  `Ending` is about to end the transaction with `reason`; `stored`
      is the position in the log of the put it made, if that took effect. */
  datatype Pc =
    | Lookup
    | Await
    | LookupAgain
    | Create
    | Proxy
    | Store
    | Ending(reason: string, stored: Stored)
    | Done(verdict: Verdict)

  datatype Stored = No | At(position: nat)

  datatype Request = Request(key: Key, pc: Pc)

  /** What happened to the cache, oldest first. */
  datatype CacheEvent = Put(key: Key, source: nat) | Gone(key: Key)

  /** `responses[id]` is the captured response of request `id`; the cache holds, per key, the
      request whose response is stored. */
  datatype State = State(
    now: int,
    cache: map<Key, nat>,
    registry: map<Key, R.Entry>,
    requests: map<nat, Request>,
    responses: map<nat, Response>,
    log: seq<CacheEvent>)

  datatype Event =
    | Arrive(id: nat, key: Key)
    | Get(id: nat)                              // either lookup
    | Poll(id: nat)                             // one poll of the registry
    | StopWaiting(id: nat)                      // grace time over, or the registry failed
    | NoTempFile(id: nat)
    | Register(id: nat)
    | Capture(id: nat, response: Response, reason: string)
    | CaptureFails(id: nat)
    | PutEntry(id: nat, takes: bool)            // whatever it reports, the put takes effect or not
    | End(id: nat)
    | Tick(later: int)
    | Evict(key: Key)                           // expiry or eviction
    | Sweep(at: int)

  function Put1(s: State, id: nat, pc: Pc): State
    requires id in s.requests
  {
    s.(requests := s.requests[id := s.requests[id].(pc := pc)])
  }

  /** The state `completeTransaction` leaves the record in. */
  function EndState(status: int, reason: string): R.TxState {
    if status < 300 || reason == "" then R.Completed
    else if status == 503 || status == 408 then R.Completed
    else R.Failed
  }

  /** The response is one to store. */
  predicate Cacheable(cfg: Config, r: Response) {
    r.status == 200 && !r.canceled && r.length <= cfg.maxPayload
  }

  predicate PcIs(s: State, id: nat, pc: Pc) {
    id in s.requests && s.requests[id].pc == pc
  }

  predicate Enabled(cfg: Config, s: State, e: Event) {
    match e
    case Arrive(id, _) => id !in s.requests && id !in s.responses
    case Get(id) => PcIs(s, id, Lookup) || PcIs(s, id, LookupAgain)
    case Poll(id) => PcIs(s, id, Await)
    case StopWaiting(id) => PcIs(s, id, Await)
    case NoTempFile(id) => PcIs(s, id, Create)
    case Register(id) => PcIs(s, id, Create)
    // An error reason is never empty.
    case Capture(id, r, reason) =>
      PcIs(s, id, Proxy) && r.key == s.requests[id].key && id !in s.responses && reason != ""
    case CaptureFails(id) => PcIs(s, id, Proxy)
    case PutEntry(id, _) => PcIs(s, id, Store)
    case End(id) => id in s.requests && s.requests[id].pc.Ending? && id in s.responses
    case Tick(later) => s.now <= later
    case Evict(k) => k in s.cache
    case Sweep(at) => at <= s.now
  }

  /** Where a request goes after its response has been captured. */
  function AfterCapture(cfg: Config, r: Response, reason: string): Pc {
    if r.status != 200 || r.canceled then Ending(reason, No)
    else if r.length > cfg.maxPayload then Ending("", No)
    else Store
  }

  function AfterPoll(s: R.Status): Pc {
    match s.state
    case Created => Await
    case Completed => LookupAgain
    case Failed => Done(ConcurrentFailure)
    case Absent => Create
  }

  function Apply(cfg: Config, s: State, e: Event): State
    requires Enabled(cfg, s, e)
  {
    match e
    case Arrive(id, k) => s.(requests := s.requests[id := Request(k, Lookup)])
    case Get(id) =>
      var r := s.requests[id];
      if r.key in s.cache then Put1(s, id, Done(FromCache(s.cache[r.key])))
      else Put1(s, id, if r.pc.Lookup? then Await else Create)
    case Poll(id) => Put1(s, id, AfterPoll(R.StatusOf(s.registry, s.requests[id].key)))
    case StopWaiting(id) => Put1(s, id, Create)
    case NoTempFile(id) => Put1(s, id, Done(InternalError))
    case Register(id) =>
      Put1(s, id, Proxy).(registry := R.CreateIn(s.registry, s.requests[id].key, s.now, cfg.ttl))
    case Capture(id, r, reason) =>
      Put1(s, id, AfterCapture(cfg, r, reason)).(responses := s.responses[id := r])
    case CaptureFails(id) => Put1(s, id, Done(InternalError))
    case PutEntry(id, takes) =>
      var k := s.requests[id].key;
      if takes then
        Put1(s, id, Ending("", At(|s.log|))).(cache := s.cache[k := id], log := s.log + [Put(k, id)])
      else Put1(s, id, Ending("", No))
    case End(id) =>
      var r := s.requests[id];
      Put1(s, id, Done(Proxied)).(registry :=
        var state := EndState(s.responses[id].status, r.pc.reason);
        R.UpdateIn(s.registry, r.key, state, if state == R.Failed then r.pc.reason else "", s.now, cfg.endedTtl))
    case Tick(later) => s.(now := later)
    case Evict(k) => s.(cache := s.cache - {k}, log := s.log + [Gone(k)])
    case Sweep(at) => s.(registry := R.SweepIn(s.registry, at))
  }

  // ---------- The invariant ----------

  /** The cache after the events of the log. */
  function Replay(log: seq<CacheEvent>): map<Key, nat> {
    if log == [] then map[]
    else
      var c := Replay(log[..|log| - 1]);
      match log[|log| - 1]
      case Put(k, source) => c[k := source]
      case Gone(k) => c - {k}
  }

  /** Request `id` has a captured response for key `k` that may be stored. */
  predicate GoodSource(cfg: Config, s: State, k: Key, id: nat) {
    id in s.responses && s.responses[id].key == k && Cacheable(cfg, s.responses[id])
  }

  /** Some query for `k` ended with a status that the proxy reports to waiting queries. */
  predicate HasFailed(s: State, k: Key) {
    exists id <- s.responses :: s.responses[id].key == k && FatalStatus(s.responses[id].status)
  }

  predicate FatalStatus(status: int) {
    status >= 300 && status != 503 && status != 408
  }

  predicate RequestInv(cfg: Config, s: State, id: nat, r: Request) {
    match r.pc
    case Store => GoodSource(cfg, s, r.key, id)
    case Ending(reason, stored) =>
      && id in s.responses && s.responses[id].key == r.key
      && (stored.At? ==> reason == "" && stored.position < |s.log| && s.log[stored.position] == Put(r.key, id))
    case Done(FromCache(source)) => GoodSource(cfg, s, r.key, source)
    case Done(ConcurrentFailure) => HasFailed(s, r.key)
    case _ => true
  }

  predicate CacheInv(cfg: Config, s: State) {
    && s.cache == Replay(s.log)
    && forall k <- s.cache :: GoodSource(cfg, s, k, s.cache[k])
  }

  predicate RegistryInv(s: State) {
    forall k <- s.registry ::
      && (s.registry[k].state == R.Failed ==> HasFailed(s, k) && s.registry[k].failReason != "")
      && (s.registry[k].state != R.Failed ==> s.registry[k].failReason == "")
      && s.registry[k].state != R.Absent
  }

  predicate Inv(cfg: Config, s: State) {
    && CacheInv(cfg, s)
    && RegistryInv(s)
    && forall id <- s.requests :: RequestInv(cfg, s, id, s.requests[id])
  }

  // ---------- One step keeps it ----------

  /** Captured responses are never lost or changed, and the log only grows. */
  predicate Grows(s: State, s': State) {
    && (forall id <- s.responses :: id in s'.responses && s'.responses[id] == s.responses[id])
    && |s.log| <= |s'.log| && s.log == s'.log[..|s.log|]
  }

  lemma StepGrows(cfg: Config, s: State, e: Event)
    requires Enabled(cfg, s, e)
    ensures Grows(s, Apply(cfg, s, e))
  {
  }

  lemma GrowsKeepsRequest(cfg: Config, s: State, s': State, id: nat, r: Request)
    requires Grows(s, s') && RequestInv(cfg, s, id, r)
    ensures RequestInv(cfg, s', id, r)
  {
    if HasFailed(s, r.key) {
      GrowsKeepsFailure(s, s', r.key);
    }
  }

  lemma GrowsKeepsFailure(s: State, s': State, k: Key)
    requires Grows(s, s') && HasFailed(s, k)
    ensures HasFailed(s', k)
  {
    var id :| id in s.responses && s.responses[id].key == k && FatalStatus(s.responses[id].status);
    assert id in s'.responses && s'.responses[id] == s.responses[id];
  }

  lemma CacheKept(cfg: Config, s: State, e: Event)
    requires Inv(cfg, s) && Enabled(cfg, s, e)
    ensures CacheInv(cfg, Apply(cfg, s, e))
  {
    var s' := Apply(cfg, s, e);
    StepGrows(cfg, s, e);
    if s'.log != s.log {
      assert s'.log[..|s'.log| - 1] == s.log;
    }
  }

  lemma RegistryKept(cfg: Config, s: State, e: Event)
    requires Inv(cfg, s) && Enabled(cfg, s, e)
    ensures RegistryInv(Apply(cfg, s, e))
  {
    var s' := Apply(cfg, s, e);
    StepGrows(cfg, s, e);
    forall k <- s.registry | HasFailed(s, k) ensures HasFailed(s', k) {
      GrowsKeepsFailure(s, s', k);
    }
  }

  lemma RequestKept(cfg: Config, s: State, e: Event, id: nat)
    requires Inv(cfg, s) && Enabled(cfg, s, e) && id in Apply(cfg, s, e).requests
    ensures RequestInv(cfg, Apply(cfg, s, e), id, Apply(cfg, s, e).requests[id])
  {
    var s' := Apply(cfg, s, e);
    StepGrows(cfg, s, e);
    if id in s.requests && s'.requests[id] == s.requests[id] {
      GrowsKeepsRequest(cfg, s, s', id, s.requests[id]);
    }
  }

  // ---------- Every interleaving ----------

  predicate Initial(s: State) {
    s.cache == map[] && s.registry == map[] && s.requests == map[] && s.responses == map[] && s.log == []
  }

  predicate Interleaving(cfg: Config, trace: seq<State>, events: seq<Event>) {
    && |trace| == |events| + 1
    && Initial(trace[0])
    && forall i :: 0 <= i < |events| ==> Enabled(cfg, trace[i], events[i]) && trace[i + 1] == Apply(cfg, trace[i], events[i])
  }

  lemma {:induction false} Reachable(cfg: Config, trace: seq<State>, events: seq<Event>, i: nat)
    requires Interleaving(cfg, trace, events) && i < |trace|
    ensures Inv(cfg, trace[i])
  {
    if i > 0 {
      Reachable(cfg, trace, events, i - 1);
      var s, e := trace[i - 1], events[i - 1];
      CacheKept(cfg, s, e);
      RegistryKept(cfg, s, e);
      forall id <- trace[i].requests ensures RequestInv(cfg, trace[i], id, trace[i].requests[id]) {
        RequestKept(cfg, s, e, id);
      }
    }
  }

  /** Every stored entry is the response of a query for that very key with status 200, not
      cancelled and within the payload limit; and so is every response served from the cache,
      also when the entry is gone by now. */
  lemma OnlyGoodResponsesAreServed(cfg: Config, trace: seq<State>, events: seq<Event>, i: nat)
    requires Interleaving(cfg, trace, events) && i < |trace|
    ensures forall k <- trace[i].cache :: GoodSource(cfg, trace[i], k, trace[i].cache[k])
    ensures forall id <- trace[i].requests :: trace[i].requests[id].pc.Done? ==>
              (match trace[i].requests[id].pc.verdict
               case FromCache(source) => GoodSource(cfg, trace[i], trace[i].requests[id].key, source)
               case _ => true)
  {
    Reachable(cfg, trace, events, i);
    forall id <- trace[i].requests ensures RequestInv(cfg, trace[i], id, trace[i].requests[id]) {
    }
  }

  /** A record is in state failed, and a waiting query is answered with its failure, only if a
      query for that key ended with a status of at least 300 other than 503 and 408. */
  lemma FailureHasACause(cfg: Config, trace: seq<State>, events: seq<Event>, i: nat, k: Key)
    requires Interleaving(cfg, trace, events) && i < |trace|
    requires || (k in trace[i].registry && trace[i].registry[k].state == R.Failed)
             || (exists id <- trace[i].requests :: trace[i].requests[id] == Request(k, Done(ConcurrentFailure)))
    ensures HasFailed(trace[i], k)
  {
    Reachable(cfg, trace, events, i);
    if id :| id in trace[i].requests && trace[i].requests[id] == Request(k, Done(ConcurrentFailure)) {
      assert RequestInv(cfg, trace[i], id, trace[i].requests[id]);
    }
  }

  /** The entry of `k` is there after a log unless it was removed after its last put. */
  lemma {:induction false} PutStays(log: seq<CacheEvent>, k: Key, source: nat, p: nat)
    requires p < |log| && log[p] == Put(k, source)
    requires forall q :: p < q < |log| ==> log[q] != Gone(k)
    ensures k in Replay(log)
  {
    var n := |log| - 1;
    if p < n {
      assert log[..n][p] == log[p];
      PutStays(log[..n], k, source, p);
    }
  }

  /** When a query ends its transaction after a put that took effect, the entry is in the cache,
      unless it expired or was evicted after that put. */
  lemma CompletedMeansStored(cfg: Config, trace: seq<State>, events: seq<Event>, i: nat, id: nat)
    requires Interleaving(cfg, trace, events) && i < |events| && events[i] == End(id)
    requires trace[i].requests[id].pc.stored.At?
    ensures var s, k := trace[i + 1], trace[i].requests[id].key;
            var p := trace[i].requests[id].pc.stored.position;
            && k in s.registry && s.registry[k].state == R.Completed
            && p < |s.log| && s.log[p] == Put(k, id)
            && (k in s.cache || exists q :: p < q < |s.log| && s.log[q] == Gone(k))
  {
    Reachable(cfg, trace, events, i);
    Reachable(cfg, trace, events, i + 1);
    var s, r := trace[i], trace[i].requests[id];
    assert RequestInv(cfg, s, id, r);
    var p := r.pc.stored.position;
    if forall q :: p < q < |s.log| ==> s.log[q] != Gone(r.key) {
      PutStays(s.log, r.key, id, p);
    }
  }

  // ---------- Queries that nobody interrupts ----------

  /** The events lead from `s` to `s'`. */
  predicate Leads(cfg: Config, s: State, events: seq<Event>, s': State)
    decreases |events|
  {
    if events == [] then s' == s
    else Enabled(cfg, s, events[0]) && Leads(cfg, Apply(cfg, s, events[0]), events[1..], s')
  }

  lemma LeadsFirst(cfg: Config, s: State, e: Event, rest: seq<Event>, s': State)
    requires Enabled(cfg, s, e) && Leads(cfg, Apply(cfg, s, e), rest, s')
    ensures Leads(cfg, s, [e] + rest, s')
  {
    assert ([e] + rest)[1..] == rest;
  }

  lemma LeadsTwo(cfg: Config, s: State, e: Event, e': Event)
    requires Enabled(cfg, s, e) && Enabled(cfg, Apply(cfg, s, e), e')
    ensures Leads(cfg, s, [e, e'], Apply(cfg, Apply(cfg, s, e), e'))
  {
    assert [e, e'][1..] == [e'] && [e'][1..] == [];
  }

  lemma {:induction false} LeadsOn(cfg: Config, s: State, a: seq<Event>, t: State, b: seq<Event>, u: State)
    requires Leads(cfg, s, a, t) && Leads(cfg, t, b, u)
    ensures Leads(cfg, s, a + b, u)
    decreases |a|
  {
    if a == [] {
      assert a + b == b;
    } else {
      LeadsOn(cfg, Apply(cfg, s, a[0]), a[1..], t, b, u);
      assert (a + b)[1..] == a[1..] + b;
    }
  }

  /** What the first moves of a query come to. */
  function FirstMoves(s: State, k: Key): Pc {
    if k in s.cache then Done(FromCache(s.cache[k]))
    else if k !in s.registry then Create
    else if s.registry[k].state == R.Created then Await
    else if s.registry[k].state == R.Failed then Done(ConcurrentFailure)
    else Create
  }

  /** One poll, and a second lookup if the concurrent query is done. */
  lemma QueryPolls(cfg: Config, s: State, id: nat) returns (events: seq<Event>, s': State)
    requires PcIs(s, id, Await) && s.requests[id].key !in s.cache
    requires s.requests[id].key in s.registry ==> s.registry[s.requests[id].key].state != R.Absent
    ensures Leads(cfg, s, events, s')
    ensures s' == Put1(s, id, FirstMoves(s, s.requests[id].key))
  {
    s' := Apply(cfg, s, Poll(id));
    LeadsFirst(cfg, s, Poll(id), [], s');
    events := [Poll(id)];
    if s'.requests[id].pc == LookupAgain {
      LeadsTwo(cfg, s, Poll(id), Get(id));
      events, s' := [Poll(id), Get(id)], Apply(cfg, s', Get(id));
    }
  }

  /** A query is answered from the cache if the entry is there, refused if a concurrent query
      failed, waits for one that is pending, and otherwise goes to the backend itself. */
  lemma QueryComes(cfg: Config, s: State, id: nat, k: Key) returns (events: seq<Event>, s': State)
    requires id !in s.requests && id !in s.responses
    requires k in s.registry ==> s.registry[k].state != R.Absent
    ensures Leads(cfg, s, events, s')
    ensures s' == s.(requests := s.requests[id := Request(k, FirstMoves(s, k))])
  {
    s' := Apply(cfg, Apply(cfg, s, Arrive(id, k)), Get(id));
    events := [Arrive(id, k), Get(id)];
    LeadsTwo(cfg, s, Arrive(id, k), Get(id));
    if k !in s.cache {
      var more, s'' := QueryPolls(cfg, s', id);
      LeadsOn(cfg, s, events, s', more, s'');
      events, s' := events + more, s'';
    }
  }

  /** The record that a response leaves: failed exactly for a fatal status. */
  function RecordFor(cfg: Config, r: Response, reason: string, now: int): R.Entry {
    if FatalStatus(r.status) then R.Entry(now + cfg.endedTtl, R.Failed, reason)
    else R.Entry(now + cfg.endedTtl, R.Completed, "")
  }

  lemma QueryEnds(cfg: Config, s: State, id: nat)
    requires id in s.requests && s.requests[id].pc.Ending? && id in s.responses
    requires s.requests[id].pc.reason == "" ==> !FatalStatus(s.responses[id].status)
    ensures Enabled(cfg, s, End(id))
    ensures var r := s.requests[id];
            Apply(cfg, s, End(id)) ==
              Put1(s, id, Done(Proxied)).(registry :=
                s.registry[r.key := RecordFor(cfg, s.responses[id], r.pc.reason, s.now)])
  {
  }

  /** What is in the cache after the answer of the backend: a good response is stored, any other
      one changes nothing. */
  lemma QueryStores(cfg: Config, s: State, id: nat, r: Response, reason: string) returns (events: seq<Event>, s': State)
    requires PcIs(s, id, Proxy) && r.key == s.requests[id].key && id !in s.responses && reason != ""
    ensures Leads(cfg, s, events, s') && id in s'.requests && s'.requests[id].pc.Ending?
    ensures s'.requests == s.requests[id := Request(r.key, s'.requests[id].pc)]
    ensures s'.responses == s.responses[id := r] && s'.registry == s.registry && s'.now == s.now
    ensures s'.cache == if Cacheable(cfg, r) then s.cache[r.key := id] else s.cache
    ensures s'.requests[id].pc.reason == (if r.status == 200 && !r.canceled then "" else reason)
  {
    var e := Capture(id, r, reason);
    s' := Apply(cfg, s, e);
    LeadsFirst(cfg, s, e, [], s');
    events := [e];
    if Cacheable(cfg, r) {
      LeadsTwo(cfg, s, e, PutEntry(id, true));
      events, s' := [e, PutEntry(id, true)], Apply(cfg, s', PutEntry(id, true));
    }
  }

  /** A query that goes to the backend undisturbed leaves its response in the cache exactly if it
      is a good one, and its record failed exactly if the status is fatal. */
  lemma QueryProxied(cfg: Config, s: State, id: nat, r: Response, reason: string) returns (events: seq<Event>, s': State)
    requires PcIs(s, id, Create) && r.key == s.requests[id].key && id !in s.responses && reason != ""
    ensures Leads(cfg, s, events, s')
    ensures s'.requests == s.requests[id := Request(r.key, Done(Proxied))] && s'.responses == s.responses[id := r]
    ensures s'.cache == if Cacheable(cfg, r) then s.cache[r.key := id] else s.cache
    ensures r.key in s'.registry && s'.registry[r.key] == RecordFor(cfg, r, reason, s.now)
  {
    var s1 := Apply(cfg, s, Register(id));
    LeadsFirst(cfg, s, Register(id), [], s1);
    var more, s2 := QueryStores(cfg, s1, id, r, reason);
    LeadsOn(cfg, s, [Register(id)], s1, more, s2);
    QueryEnds(cfg, s2, id);
    s' := Apply(cfg, s2, End(id));
    LeadsFirst(cfg, s2, End(id), [], s');
    LeadsOn(cfg, s, [Register(id)] + more, s2, [End(id)], s');
    events := [Register(id)] + more + [End(id)];
  }

  /** The purpose of it all: of two queries for one key, the second is answered from the cache by
      the response of the first if that was good, is refused if that failed, and goes to the
      backend itself otherwise. */
  lemma SecondQuery(cfg: Config, s: State, id: nat, id': nat, r: Response, reason: string)
    returns (events: seq<Event>, s': State)
    requires PcIs(s, id, Create) && r.key == s.requests[id].key && id !in s.responses && reason != ""
    requires r.key !in s.cache && id' !in s.requests && id' !in s.responses
    ensures Leads(cfg, s, events, s') && id' in s'.requests && s'.requests[id'].key == r.key
    ensures s'.requests[id'].pc ==
              if Cacheable(cfg, r) then Done(FromCache(id))
              else if FatalStatus(r.status) then Done(ConcurrentFailure)
              else Create
  {
    var s1;
    events, s1 := QueryProxied(cfg, s, id, r, reason);
    var more;
    more, s' := QueryComes(cfg, s1, id', r.key);
    LeadsOn(cfg, s, events, s1, more, s');
    events := events + more;
  }

  /** While the first query is in progress, its record is pending until its deadline, and a second
      query for the key waits; if its grace time ends first, it goes to the backend itself. */
  lemma SecondQueryWaits(cfg: Config, s: State, id: nat, id': nat) returns (events: seq<Event>, s': State)
    requires PcIs(s, id, Create) && s.requests[id].key !in s.cache && s.requests[id].key !in s.registry
    requires id' !in s.requests && id' !in s.responses
    ensures Leads(cfg, s, events, s')
    ensures var k := s.requests[id].key;
            && s'.registry == s.registry[k := R.Entry(s.now + cfg.ttl, R.Created, "")] && s'.cache == s.cache
            && s'.requests == s.requests[id := Request(k, Proxy)][id' := Request(k, Await)]
    ensures Enabled(cfg, s', StopWaiting(id')) && PcIs(Apply(cfg, s', StopWaiting(id')), id', Create)
  {
    var s1 := Apply(cfg, s, Register(id));
    LeadsFirst(cfg, s, Register(id), [], s1);
    var more;
    more, s' := QueryComes(cfg, s1, id', s.requests[id].key);
    LeadsOn(cfg, s, [Register(id)], s1, more, s');
    events := [Register(id)] + more;
  }

  /** A query whose response cannot be kept aside, or not be read again, is answered with an error
      and leaves cache and registry alone; so in the second case its record stays pending. */
  lemma FailedCapture(cfg: Config, s: State, id: nat)
    requires PcIs(s, id, Create) || PcIs(s, id, Proxy)
    ensures var e := if PcIs(s, id, Create) then NoTempFile(id) else CaptureFails(id);
            && Enabled(cfg, s, e)
            && Apply(cfg, s, e) == s.(requests := s.requests[id := Request(s.requests[id].key, Done(InternalError))])
  {
  }
}
