/** From `Put` to `Get`: what concurrent writers leave in Redis and what a reader receives while
    they go on. */
module RedisRoundTrip {
  import opened Words
  import opened RedisHeader
  import opened RedisGet
  import opened RedisPut
  import RedisRuns

  /** The call announces the length of its content, its reads are steady and its length check
      cannot be fooled, and its header fits the first range read. */
  ghost predicate Proper(c: Call) {
    && Announced(c.meta, c.content) && |EncodeMetadata(c.meta)| <= FIRST_FETCH + 1
    && GoodCall(c) && Steady(c) && Unforgeable(c)
  }

  ghost predicate AllProper(s: State, name: string) {
    forall id <- s.writers :: s.writers[id].call.key == name ==> Proper(s.writers[id].call)
  }

  predicate PutBy(s: State, id: nat, name: string, m: Metadata, payload: bytes) {
    && id in s.writers && s.writers[id].call.key == name
    && s.writers[id].call.meta == m && s.writers[id].call.content == payload
  }

  /** What a range read of the entry sees. */
  function Held(s: State, name: string): bytes {
    Content(s.store, Entry(name))
  }

  /** A visible value is one that `Get` can serve, and it stems from one writer of its key. */
  lemma VisibleHolds(trace: seq<State>, events: seq<Event>, i: nat, name: string)
    returns (id: nat, m: Metadata, payload: bytes)
    requires Interleaving(trace, events) && i < |trace|
    requires Entry(name) in trace[i].store && AllProper(trace[i], name)
    ensures PutBy(trace[i], id, name, m, payload) && Holds(Held(trace[i], name), m, payload)
  {
    id := VisibleIsComplete(trace, events, i, name);
    m, payload := trace[i].writers[id].call.meta, trace[i].writers[id].call.content;
  }

  // ---------- Reading while writers go on ----------

  predicate QuietStep(s: State, e: Event, s': State, name: string) {
    Step(s, e, s') && !Commits(s, e, name)
  }

  /** No writer commits a value of the key from state `lo` to state `hi`. */
  predicate Quiet(trace: seq<State>, events: seq<Event>, name: string, lo: nat, hi: nat)
    requires |trace| == |events| + 1 && hi < |trace|
  {
    forall i :: lo <= i < hi ==> QuietStep(trace[i], events[i], trace[i + 1], name)
  }

  lemma KeptOnce(s: State, e: Event, s': State, name: string)
    requires QuietStep(s, e, s', name)
    ensures Held(s', name) == Held(s, name) || Held(s', name) == []
  {
    EntryStep(s, e, name);
  }

  /** Then the value stays, or it goes for good. */
  lemma {:induction false} EntryKept(trace: seq<State>, events: seq<Event>, name: string, lo: nat, hi: nat, i: nat)
    requires |trace| == |events| + 1 && hi < |trace| && Quiet(trace, events, name, lo, hi) && lo <= i <= hi
    ensures Held(trace[i], name) == Held(trace[lo], name) || Held(trace[i], name) == []
  {
    if lo < i {
      EntryKept(trace, events, name, lo, hi, i - 1);
      KeptOnce(trace[i - 1], events[i - 1], trace[i], name);
    }
  }

  /** The moments of a read: the k-th range is read in state `at(k)` of the trace. */
  ghost predicate Timeline(trace: seq<State>, at: nat -> nat) {
    (forall k :: at(k) < |trace|) && forall j, k :: 0 <= j <= k ==> at(j) <= at(k)
  }

  ghost function Seen(trace: seq<State>, at: nat -> nat, name: string): Values {
    (k: nat) => if at(k) < |trace| then Held(trace[at(k)], name) else []
  }

  ghost function Longest(trace: seq<State>, name: string): (n: nat)
    ensures forall i :: 0 <= i < |trace| ==> |Held(trace[i], name)| <= n
  {
    if trace == [] then 0
    else
      var n, m := Longest(trace[1..], name), |Held(trace[0], name)|;
      assert forall i :: 1 <= i < |trace| ==> trace[i] == trace[1..][i - 1];
      if n < m then m else n
  }

  /** What a patchwork is while no writer commits: an end of the first value. */
  lemma QuietPatch(trace: seq<State>, events: seq<Event>, at: nat -> nat, name: string,
                   out: bytes, origin: seq<nat>, last: nat)
    requires |trace| == |events| + 1 && Timeline(trace, at) && Quiet(trace, events, name, at(0), at(last))
    requires Patched(out, Seen(trace, at, name), origin, last)
    ensures var v := Held(trace[at(0)], name);
            |out| <= |v| && out == v[|v| - |out|..]
  {
    var values, v := Seen(trace, at, name), Held(trace[at(0)], name);
    forall k | 0 <= k <= last ensures values(k) == v || values(k) == [] {
      assert at(0) <= at(k) <= at(last) < |trace|;
      EntryKept(trace, events, name, at(0), at(last), at(k));
    }
    PatchConstant(out, |v| - |out|, values, origin, last, v);
  }

  /** A client that is served from Redis and reads to the plain end, while writers of all kinds go
      on, has received the metadata of the `Put` that was visible first, and as many bytes as that
      announces, each of them one that the key held at its position at some moment of the read.
      If no writer committed a value of that key between the first range and the last, the client
      has received that `Put` whole, even if the entry vanished meanwhile.  And if the entry stays,
      the client is served. */
  method Fetch(moments: Moments, ttl: int, ttlOk: bool, fileOk: bool, sizes: nat -> nat,
               ghost trace: seq<State>, ghost events: seq<Event>, ghost at: nat -> nat, ghost name: string)
    returns (ok: bool, meta: Metadata, received: bytes, ghost id: nat, ghost origin: seq<nat>, ghost last: nat)
    requires Interleaving(trace, events) && Timeline(trace, at) && AllProper(trace[at(0)], name)
    requires forall k :: Answers(moments(k), Held(trace[at(k)], name))
    requires forall k :: sizes(k) > 0
    ensures ok ==>
              && var s := trace[at(0)];
              && Entry(name) in s.store && id in s.writers && s.writers[id].call.key == name
              && meta == s.writers[id].call.meta && |received| == |s.writers[id].call.content|
              && Patched(received, Seen(trace, at, name), origin, last)
    ensures ok && Quiet(trace, events, name, at(0), at(last)) ==> PutBy(trace[at(0)], id, name, meta, received)
    ensures ttlOk && fileOk && Entry(name) in trace[at(0)].store
            && Constant(moments, Seen(trace, at, name), Held(trace[at(0)], name))
            ==> ok
  {
    ghost var values, bound := Seen(trace, at, name), Longest(trace, name);
    ghost var m, payload := Metadata(0, [], []), [];
    id := 0;
    if Entry(name) in trace[at(0)].store {
      id, m, payload := VisibleHolds(trace, events, at(0), name);
    }
    SeenTells(moments, trace, at, name);
    ok, meta, received, origin, last := Receive(moments, ttl, ttlOk, fileOk, sizes, values, bound, m, payload);
    if ok && Quiet(trace, events, name, at(0), at(last)) {
      QuietPatch(trace, events, at, name, received, origin, last);
      WholePayload(Held(trace[at(0)], name), m, payload, received);
    }
  }

  lemma SeenTells(moments: Moments, trace: seq<State>, at: nat -> nat, name: string)
    requires Timeline(trace, at) && forall k :: Answers(moments(k), Held(trace[at(k)], name))
    ensures Tells(moments, Seen(trace, at, name), Longest(trace, name))
  {
  }

  lemma WholePayload(v: bytes, m: Metadata, payload: bytes, received: bytes)
    requires Holds(v, m, payload) && |received| == |payload| <= |v| && received == v[|v| - |payload|..]
    ensures received == payload
  {
    assert v[|v| - |payload|..] == payload;
  }

  // ---------- What an overwrite does ----------

  /** Without that condition a client can receive what nobody put: of two values of one key that
      agree in their metadata, the second of which is committed after the client's first range of
      the stream, the client gets the beginning of one and the rest of the other, and the plain
      end. */
  method FetchAcrossOverwrite(c: Call, d: Call)
    returns (out: bytes, err: RedisGet.ReadError, ghost r: RedisRuns.Run, ghost i: nat)
    requires Proper(c) && Proper(d) && RedisRuns.Readable(c) && RedisRuns.Readable(d)
    requires c.key == d.key && c.meta == d.meta && c.nonce != d.nonce && |c.content| > BUFFER_SIZE + 1
    ensures Interleaving(r.trace, r.events) && i < |r.trace|
    ensures Held(r.trace[i], c.key) == Stored(c.meta, c.content)
    ensures Held(RedisRuns.Last(r), c.key) == Stored(d.meta, d.content)
    ensures Decide(GetRange(Stored(c.meta, c.content), 0, FIRST_FETCH)) == Decision.Streamed(c.meta, |Header(c)|)
    ensures err == RedisGet.ReadError.Eof && out == c.content[..BUFFER_SIZE + 1] + d.content[BUFFER_SIZE + 1..]
    ensures c.content[..BUFFER_SIZE + 1] != d.content[..BUFFER_SIZE + 1] ==> out != d.content
    ensures c.content[BUFFER_SIZE + 1..] != d.content[BUFFER_SIZE + 1..] ==> out != c.content
  {
    ghost var r1 := RedisRuns.UndisturbedPut(RedisRuns.START, EMPTY, 0, c);
    i := |r1.trace| - 1;
    r := RedisRuns.UndisturbedPut(r1, EMPTY, 1, d);
    StreamedIsWhole(c);
    StreamedIsWhole(d);
    DecideStored(c.meta, c.content);
    var v, w, h := Stored(c.meta, c.content), Stored(d.meta, d.content), EncodeMetadata(c.meta);
    out, err := ReadAcrossOverwrite(v, w, |h|);
    Pieces(h, c.content, d.content, BUFFER_SIZE + 1);
  }

  lemma Pieces(h: bytes, a: bytes, b: bytes, n: nat)
    requires |a| == |b| && n <= |a|
    ensures (h + a)[|h|..|h| + n] == a[..n] && (h + b)[|h| + n..] == b[n..]
    ensures a[..n] != b[..n] ==> a[..n] + b[n..] != b
    ensures a[n..] != b[n..] ==> a[..n] + b[n..] != a
  {
    var x := a[..n] + b[n..];
    assert x[..n] == a[..n] && x[n..] == b[n..];
  }
}
