/** The in-memory registry of ongoing queries, and waiting for one of them. */
module Registry {
  import opened Words

  datatype TxState = Created | Completed | Failed | Absent

  /** `deadline` is the instant after which the cleaner may remove the record. */
  datatype Entry = Entry(deadline: int, state: TxState, failReason: string)

  datatype Status = Status(state: TxState, failReason: string)

  type Key = string

  // ---------- Specification on values ----------

  /** An existing record is left alone, whatever its state. */
  function CreateIn(m: map<Key, Entry>, k: Key, now: int, ttl: int): map<Key, Entry> {
    if k in m then m else m[k := Entry(now + ttl, Created, "")]
  }

  function UpdateIn(m: map<Key, Entry>, k: Key, state: TxState, reason: string, now: int, endedTtl: int): map<Key, Entry> {
    m[k := Entry(now + endedTtl, state, reason)]
  }

  function SweepIn(m: map<Key, Entry>, at: int): map<Key, Entry> {
    map k | k in m && at <= m[k].deadline :: m[k]
  }

  function StatusOf(m: map<Key, Entry>, k: Key): Status {
    if k in m then Status(m[k].state, m[k].failReason) else Status(Absent, "")
  }

  // ---------- The object ----------

  class InMemoryRegistry {
    const ttl: int
    const endedTtl: int
    var entries: map<Key, Entry>

    constructor (deadline: int, transactionEndedDeadline: int)
      ensures ttl == deadline && endedTtl == transactionEndedDeadline && entries == map[]
    {
      ttl, endedTtl, entries := deadline, transactionEndedDeadline, map[];
    }

    method Create(k: Key, now: int)
      modifies this`entries
      ensures entries == CreateIn(old(entries), k, now, ttl)
    {
      if k !in entries {
        entries := entries[k := Entry(now + ttl, Created, "")];
      }
    }

    method UpdateTransactionState(k: Key, state: TxState, reason: string, now: int)
      modifies this`entries
      ensures entries == UpdateIn(old(entries), k, state, reason, now, endedTtl)
    {
      if k in entries {
        var entry := entries[k];
        entry := entry.(state := state, failReason := reason, deadline := now + endedTtl);
        entries := entries[k := entry];
      } else {
        entries := entries[k := Entry(now + endedTtl, state, reason)];
      }
    }

    method Complete(k: Key, now: int)
      modifies this`entries
      ensures entries == UpdateIn(old(entries), k, Completed, "", now, endedTtl)
    {
      UpdateTransactionState(k, Completed, "", now);
    }

    method Fail(k: Key, reason: string, now: int)
      modifies this`entries
      ensures entries == UpdateIn(old(entries), k, Failed, reason, now, endedTtl)
    {
      UpdateTransactionState(k, Failed, reason, now);
    }

    method GetStatus(k: Key) returns (s: Status)
      ensures s == StatusOf(entries, k)
    {
      if k in entries {
        s := Status(entries[k].state, entries[k].failReason);
      } else {
        s := Status(Absent, "");
      }
    }

    /** One round of the cleaner, which visits the records in any order. */
    method Sweep(currentTime: int)
      modifies this`entries
      ensures entries == SweepIn(old(entries), currentTime)
    {
      var todo := entries.Keys;
      while todo != {}
        invariant todo <= old(entries).Keys
        invariant forall k <- old(entries) :: k in todo ==> k in entries
        invariant forall k <- old(entries) :: k !in todo ==> (k in entries <==> currentTime <= old(entries)[k].deadline)
        invariant forall k <- entries :: k in old(entries) && entries[k] == old(entries)[k]
        decreases todo
      {
        var k :| k in todo;
        if currentTime > entries[k].deadline {
          entries := entries - {k};
        }
        todo := todo - {k};
      }
    }
  }

  // ---------- Every run ----------

  datatype Event =
    | Creates(key: Key, now: int)
    | Completes(key: Key, now: int)
    | Fails(key: Key, reason: string, now: int)
    | Sweeps(at: int)

  function Apply(m: map<Key, Entry>, e: Event, ttl: int, endedTtl: int): map<Key, Entry> {
    match e
    case Creates(k, now) => CreateIn(m, k, now, ttl)
    case Completes(k, now) => UpdateIn(m, k, Completed, "", now, endedTtl)
    case Fails(k, reason, now) => UpdateIn(m, k, Failed, reason, now, endedTtl)
    case Sweeps(at) => SweepIn(m, at)
  }

  /** `trace` are the contents before, between and after the events, from an empty registry. */
  predicate History(trace: seq<map<Key, Entry>>, events: seq<Event>, ttl: int, endedTtl: int) {
    && |trace| == |events| + 1
    && trace[0] == map[]
    && forall i :: 0 <= i < |events| ==> trace[i + 1] == Apply(trace[i], events[i], ttl, endedTtl)
  }

  predicate Ended(m: map<Key, Entry>, k: Key) {
    k in m && (m[k].state == Completed || m[k].state == Failed)
  }

  /** Event `x` is a sweep that removed the record of `k` after its deadline. */
  predicate SweptAt(trace: seq<map<Key, Entry>>, events: seq<Event>, k: Key, x: nat) {
    && x < |events| && |trace| == |events| + 1
    && events[x].Sweeps? && k in trace[x] && k !in trace[x + 1] && events[x].at > trace[x][k].deadline
  }

  /** An ended record becomes pending again only after the cleaner removed it. */
  lemma {:induction false} PendingAgainOnlyAfterSweep(trace: seq<map<Key, Entry>>, events: seq<Event>, ttl: int, endedTtl: int,
                                   k: Key, i: nat, j: nat) returns (x: nat)
    requires History(trace, events, ttl, endedTtl) && i < j < |trace|
    requires Ended(trace[i], k) && k in trace[j] && trace[j][k].state == Created
    ensures i <= x < j && SweptAt(trace, events, k, x)
    decreases j - i
  {
    if k !in trace[i + 1] {
      x := i;
    } else {
      assert trace[i + 1] == Apply(trace[i], events[i], ttl, endedTtl);
      x := PendingAgainOnlyAfterSweep(trace, events, ttl, endedTtl, k, i + 1, j);
    }
  }

  /** Only a sweep removes a record, and only after its deadline; no record outlives a sweep
      that comes after its deadline. */
  lemma SweepExact(m: map<Key, Entry>, e: Event, ttl: int, endedTtl: int, k: Key)
    requires k in m
    ensures k !in Apply(m, e, ttl, endedTtl) <==> e.Sweeps? && e.at > m[k].deadline
  {
  }

  /** A record always carries a proper state, and a reason only if it failed. */
  lemma {:induction false} ReasonOnlyWhenFailed(trace: seq<map<Key, Entry>>, events: seq<Event>, ttl: int, endedTtl: int,
                                                i: nat, k: Key)
    requires History(trace, events, ttl, endedTtl) && i < |trace| && k in trace[i]
    ensures trace[i][k].state != Absent
    ensures trace[i][k].failReason != "" ==> trace[i][k].state == Failed
    ensures StatusOf(trace[i], k).failReason != "" ==> StatusOf(trace[i], k).state == Failed
  {
    if i > 0 {
      assert trace[i] == Apply(trace[i - 1], events[i - 1], ttl, endedTtl);
      if k in trace[i - 1] {
        ReasonOnlyWhenFailed(trace, events, ttl, endedTtl, i - 1, k);
      }
    }
  }

  /** A record that was completed or failed is kept for its whole time: a sweep no later than
      that leaves it, and so does every other event but a later update of the same key. */
  lemma {:induction false} EndedIsKept(trace: seq<map<Key, Entry>>, events: seq<Event>, ttl: int, endedTtl: int,
                                       k: Key, i: nat, j: nat)
    requires History(trace, events, ttl, endedTtl) && i <= j < |trace| && Ended(trace[i], k)
    requires forall x :: i <= x < j ==>
               match events[x]
               case Sweeps(at) => at <= trace[i][k].deadline
               case Completes(key, _) => key != k
               case Fails(key, _, _) => key != k
               case Creates(_, _) => true
    ensures k in trace[j] && trace[j][k] == trace[i][k]
    decreases j - i
  {
    if i < j {
      assert trace[i + 1] == Apply(trace[i], events[i], ttl, endedTtl);
      EndedIsKept(trace, events, ttl, endedTtl, k, i + 1, j);
    }
  }

  // ---------- Waiting for a concurrent transaction ----------

  const POLL_INTERVAL: int := 100_000_000

  /** The answer of the registry to one poll. */
  datatype Poll = Answer(status: Status) | PollError

  function Interval(grace: nat): (d: nat)
    ensures d <= grace && d <= 100_000_000 && (d == grace || d == 100_000_000)
  {
    if POLL_INTERVAL > grace then grace else POLL_INTERVAL
  }

  /** The number of polls that fit into the grace time. */
  function MostPolls(grace: nat): nat {
    if grace == 0 then 1 else grace / Interval(grace) + 1
  }

  lemma PollFits(k: nat, grace: nat, elapsed: int)
    requires k * Interval(grace) <= elapsed <= grace && (grace == 0 ==> k <= elapsed)
    ensures k + 1 <= MostPolls(grace)
  {
    if grace > 0 {
      var d := Interval(grace);
      var q := grace / d;
      assert grace == q * d + grace % d;
      assert (k - q) * d == k * d - q * d;
      MulAtLeast(k - q, d);
    }
  }

  /** The time of poll `n`, counted from the call: the lags up to it, and a sleep before each poll
      but the first. */
  function Clock(grace: nat, lag: nat -> nat, n: nat): nat {
    if n == 0 then lag(0) else Clock(grace, lag, n - 1) + Interval(grace) + lag(n)
  }

  lemma {:induction false} ClockAdvances(grace: nat, lag: nat -> nat, n: nat)
    ensures n * Interval(grace) <= Clock(grace, lag, n)
    ensures (forall i :: lag(i) == 0) ==> Clock(grace, lag, n) == n * Interval(grace)
    ensures (forall i :: lag(i) > 0) ==> n < Clock(grace, lag, n)
  {
    if n > 0 {
      ClockAdvances(grace, lag, n - 1);
      assert n * Interval(grace) == (n - 1) * Interval(grace) + Interval(grace);
    }
  }

  lemma AnotherPoll(grace: nat, lag: nat -> nat, n: nat)
    requires Clock(grace, lag, n) <= grace && (grace == 0 ==> forall i :: lag(i) > 0)
    ensures n + 1 <= MostPolls(grace)
  {
    ClockAdvances(grace, lag, n);
    PollFits(n, grace, Clock(grace, lag, n));
  }

  predicate IsPending(p: Poll) {
    p.Answer? && p.status.state == Created
  }

  /** Polls the registry until a transaction ends, an error occurs or the grace time is over.
      Poll `i` answers `polls(i)`; `lag(i)` is the time that passes before poll `i` besides
      the sleep.  The clock advances.  A poll is made exactly if all earlier ones were pending and
      its time is within the grace time; the answer is that of the last one if it was not
      pending. */
  method AwaitForConcurrentTransaction(grace: nat, polls: nat -> Poll, lag: nat -> nat)
    returns (s: Status, failed: bool, n: nat)
    requires grace == 0 ==> forall i :: lag(i) > 0
    ensures n <= MostPolls(grace) && (grace == 0 ==> n == 0)
    ensures s.state != Created && (lag(0) <= grace ==> n >= 1)
    ensures n > 0 ==> Clock(grace, lag, n - 1) <= grace
    ensures forall i :: 0 <= i < n - 1 ==> IsPending(polls(i))
    ensures n == 0 || IsPending(polls(n - 1)) ==> Clock(grace, lag, n) > grace && s == Status(Absent, "") && !failed
    ensures n > 0 && !IsPending(polls(n - 1)) ==>
              if polls(n - 1).PollError? then failed && s == Status(Absent, "") else !failed && s == polls(n - 1).status
  {
    var elapsed := lag(0);
    n := 0;
    while true
      invariant elapsed == Clock(grace, lag, n)
      invariant n <= MostPolls(grace) && (grace == 0 ==> n == 0)
      invariant n > 0 ==> Clock(grace, lag, n - 1) <= grace
      invariant forall i :: 0 <= i < n ==> IsPending(polls(i))
      decreases MostPolls(grace) - n
    {
      if elapsed > grace {
        return Status(Absent, ""), false, n;
      }
      AnotherPoll(grace, lag, n);
      var reply := polls(n);
      n := n + 1;
      if reply.PollError? {
        return Status(Absent, ""), true, n;
      }
      if reply.status.state != Created {
        return reply.status, false, n;
      }
      elapsed := elapsed + Interval(grace) + lag(n);
    }
  }

  lemma {:induction false} ClockMonotone(grace: nat, lag: nat -> nat, i: nat, j: nat)
    requires i <= j
    ensures Clock(grace, lag, i) <= Clock(grace, lag, j)
  {
    if i < j {
      ClockMonotone(grace, lag, i, j - 1);
    }
  }

  /** The first poll that is not pending is the one that is answered, if its time is within the
      grace time. */
  method AwaitFirst(grace: nat, polls: nat -> Poll, lag: nat -> nat, ghost k: nat)
    returns (s: Status, failed: bool, n: nat)
    requires grace == 0 ==> forall i :: lag(i) > 0
    requires (forall i :: 0 <= i < k ==> IsPending(polls(i))) && !IsPending(polls(k)) && Clock(grace, lag, k) <= grace
    ensures n == k + 1 && (failed <==> polls(k).PollError?) && (!failed ==> s == polls(k).status)
  {
    s, failed, n := AwaitForConcurrentTransaction(grace, polls, lag);
    if n <= k {
      ClockMonotone(grace, lag, n, k);
    }
  }

  /** Without lags, as many polls are made as fit, if all of them are pending. */
  method AwaitInVain(grace: nat, polls: nat -> Poll, lag: nat -> nat) returns (s: Status, failed: bool, n: nat)
    requires grace > 0 && (forall i :: lag(i) == 0) && forall i :: IsPending(polls(i))
    ensures n == MostPolls(grace) && s == Status(Absent, "") && !failed
  {
    s, failed, n := AwaitForConcurrentTransaction(grace, polls, lag);
    ClockAdvances(grace, lag, n);
    LastPoll(n, grace);
  }

  lemma LastPoll(n: nat, grace: nat)
    requires grace > 0 && n * Interval(grace) > grace && n <= MostPolls(grace)
    ensures n == MostPolls(grace)
  {
    var d, q := Interval(grace), grace / Interval(grace);
    assert grace == q * d + grace % d;
    MulAtLeast(n - q, d);
    assert (n - q) * d == n * d - q * d;
  }

  // ---------- What the operations leave ----------

  /** A record made by a query that registers is pending until now + ttl, unless there is one. */
  lemma Registered(m: map<Key, Entry>, k: Key, now: int, ttl: int, endedTtl: int)
    ensures var m' := Apply(m, Creates(k, now), ttl, endedTtl);
            && k in m' && (if k in m then m' == m else m' == m[k := Entry(now + ttl, Created, "")])
            && (k !in m ==> StatusOf(m', k) == Status(Created, ""))
  {
  }

  /** A record that ends says so, and is kept until now + endedTtl. */
  lemma Finished(m: map<Key, Entry>, k: Key, reason: string, now: int, ttl: int, endedTtl: int)
    ensures var done, failed := Apply(m, Completes(k, now), ttl, endedTtl), Apply(m, Fails(k, reason, now), ttl, endedTtl);
            && done == m[k := Entry(now + endedTtl, Completed, "")] && StatusOf(done, k) == Status(Completed, "")
            && failed == m[k := Entry(now + endedTtl, Failed, reason)] && StatusOf(failed, k) == Status(Failed, reason)
  {
  }
}
