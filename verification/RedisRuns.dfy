/** Runs of writers to Redis, built step by step: what an undisturbed writer achieves, and what can
    go wrong without being noticed. */
module RedisRuns {
  import opened Words
  import opened RedisHeader
  import opened RedisPut

  /** A run from `s`, step by step. */
  datatype Run = Run(trace: seq<State>, events: seq<Event>)

  predicate RunsFrom(r: Run, s: State) {
    Path(r.trace, r.events) && r.trace[0] == s
  }

  function Last(r: Run): State
    requires r.trace != []
  {
    r.trace[|r.trace| - 1]
  }

  /** The run goes on with one more event. */
  lemma Then(r: Run, s: State, e: Event, s': State) returns (r': Run)
    requires RunsFrom(r, s) && Step(Last(r), e, s')
    ensures RunsFrom(r', s) && Last(r') == s' && r.trace <= r'.trace && r.events <= r'.events
  {
    r' := Run(r.trace + [s'], r.events + [e]);
    forall i | 0 <= i < |r'.events| ensures Step(r'.trace[i], r'.events[i], r'.trace[i + 1]) {
      if i < |r.events| {
        assert Step(r.trace[i], r.events[i], r.trace[i + 1]);
      }
    }
  }

  /** No read before the first empty one reports an error other than the end. */
  predicate Readable(c: Call) {
    Reached(c.source, FirstEmpty(c.source))
  }

  /** `s` with call `c` of writer `id` after `n` reads, and `p` in its temporary key. */
  function Midway(s: State, id: nat, c: Call, n: nat, p: bytes): State
    requires n <= |c.source|
  {
    State(s.store[TempKey(c) := p], s.writers[id := Writer(c, Streaming(n, Brought(c.source, n), 0))])
  }

  /** `c` can start in `s` as writer `id`. */
  predicate Starts(s: State, id: nat, c: Call) {
    WellFormed(s) && Enabled(s, Begin(id, c))
  }

  lemma {:induction false} Starting(r: Run, s: State, id: nat, c: Call) returns (r': Run)
    requires RunsFrom(r, s) && Starts(Last(r), id, c)
    ensures RunsFrom(r', s) && Last(r') == Midway(Last(r), id, c, 0, Header(c)) && r.trace <= r'.trace && r.events <= r'.events
  {
    var t := Last(r);
    var t1 := Apply(t, Begin(id, c));
    r' := Then(r, s, Begin(id, c), t1);
    var t2 := Apply(t1, Set(id, true, true));
    assert t2 == Midway(t, id, c, 0, Header(c));
    r' := Then(r', s, Set(id, true, true), t2);
  }

  lemma AppendGoesThrough(s: State, id: nat, c: Call, n: nat, p: bytes)
    requires Starts(s, id, c) && n < |c.source| && Appends(c, n) && |p| == |Written(c, n)|
    ensures var d := c.source[n].data;
            && Step(Midway(s, id, c, n, p), ReadAndAppend(id, true, true), Midway(s, id, c, n + 1, p + d))
            && |p + d| == |Written(c, n + 1)|
  {
  }

  /** What is streamed after the first `n` reads. */
  function Rest(c: Call, n: nat): bytes
    requires n <= FirstEmpty(c.source)
  {
    BroughtGrows(c.source, n, FirstEmpty(c.source));
    Streamed(c.source)[|Brought(c.source, n)|..]
  }

  /** A writer at the end of its stream, with `p` in its temporary key. */
  function Renames(s: State, id: nat, c: Call, p: bytes): State {
    State(s.store[TempKey(c) := p], s.writers[id := Writer(c, Renaming)])
  }

  /** From read `n` to read `m`, all commands going through. */
  lemma {:induction false} StreamsTo(r: Run, s: State, t: State, id: nat, c: Call, n: nat, m: nat, p: bytes)
    returns (r': Run, p': bytes)
    requires RunsFrom(r, s) && Starts(t, id, c) && n <= m <= |c.source| && Reached(c.source, m)
    requires |p| == |Written(c, n)| && Last(r) == Midway(t, id, c, n, p)
    ensures RunsFrom(r', s) && Last(r') == Midway(t, id, c, m, p') && r.trace <= r'.trace && r.events <= r'.events
    ensures |p'| == |Written(c, m)| && |Brought(c.source, n)| <= |Brought(c.source, m)|
    ensures p' == p + Brought(c.source, m)[|Brought(c.source, n)|..]
    decreases m - n
  {
    if n == m {
      r', p' := r, p;
    } else {
      var d := c.source[n].data;
      AppendGoesThrough(t, id, c, n, p);
      var r1 := Then(r, s, ReadAndAppend(id, true, true), Midway(t, id, c, n + 1, p + d));
      r', p' := StreamsTo(r1, s, t, id, c, n + 1, m, p + d);
      NextPiece(c.source, n, m, p);
    }
  }

  lemma NextPiece(source: seq<Chunk>, n: nat, m: nat, p: bytes)
    requires n < m <= |source|
    ensures |Brought(source, n)| <= |Brought(source, n + 1)| <= |Brought(source, m)|
    ensures p + source[n].data + Brought(source, m)[|Brought(source, n + 1)|..]
            == p + Brought(source, m)[|Brought(source, n)|..]
  {
    BroughtGrows(source, n + 1, m);
    var w, k := Brought(source, m), |Brought(source, n)|;
    assert w[k..] == source[n].data + w[k + |source[n].data|..];
  }

  lemma LastRead(t: State, id: nat, c: Call, p: bytes)
    requires Starts(t, id, c)
    ensures Step(Midway(t, id, c, FirstEmpty(c.source), p), ReadAndAppend(id, true, true), Renames(t, id, c, p))
  {
  }

  /** `t` with the value `p` of call `c` of writer `id` visible. */
  function Committed(t: State, id: nat, c: Call, p: bytes): State {
    State(t.store[Entry(c.key) := p], t.writers[id := Writer(c, Returned)])
  }

  lemma RenameGoesThrough(t: State, id: nat, c: Call, p: bytes)
    requires Starts(t, id, c)
    ensures Step(Renames(t, id, c, p), Rename(id, true), Committed(t, id, c, p))
  {
    assert t.store[TempKey(c) := p][Entry(c.key) := p] - {TempKey(c)} == t.store[Entry(c.key) := p];
  }

  /** From there on to the end, and the value is renamed. */
  lemma Finishes(r: Run, s: State, t: State, id: nat, c: Call, n: nat, p: bytes) returns (r': Run)
    requires RunsFrom(r, s) && Starts(t, id, c) && n <= FirstEmpty(c.source) && Readable(c)
    requires |p| == |Written(c, n)| && Last(r) == Midway(t, id, c, n, p)
    ensures RunsFrom(r', s) && r.trace <= r'.trace && r.events <= r'.events
    ensures Last(r') == Committed(t, id, c, p + Rest(c, n))
  {
    var r1, p' := StreamsTo(r, s, t, id, c, n, FirstEmpty(c.source), p);
    LastRead(t, id, c, p');
    var r2 := Then(r1, s, ReadAndAppend(id, true, true), Renames(t, id, c, p'));
    RenameGoesThrough(t, id, c, p');
    r' := Then(r2, s, Rename(id, true), Committed(t, id, c, p'));
  }

  /** A writer whose commands all go through, with nothing in between, stores its value. */
  lemma UndisturbedPut(r: Run, s: State, id: nat, c: Call) returns (r': Run)
    requires RunsFrom(r, s) && Starts(Last(r), id, c) && Readable(c)
    ensures RunsFrom(r', s) && r.trace <= r'.trace && r.events <= r'.events
    ensures Last(r') == Committed(Last(r), id, c, Value(c))
  {
    var r1 := Starting(r, s, id, c);
    r' := Finishes(r1, s, Last(r), id, c, 0, Header(c));
  }

  // ---------- Giving up ----------

  /** `s` with call `c` of writer `id` given up, and without the keys `gone`. */
  function GivenUp(s: State, id: nat, c: Call, gone: set<StoreKey>): State {
    State(s.store - gone, s.writers[id := Writer(c, Aborted)])
  }

  /** An APPEND that is reported as failed, or with a wrong length, is followed by DEL.  If that
      is applied, the store is as if the call had never been made. */
  lemma FailedAppendIsCleaned(s: State, id: nat, applied: bool, ok: bool)
    requires WellFormed(s) && Enabled(s, ReadAndAppend(id, applied, ok))
    requires Appends(s.writers[id].call, s.writers[id].pc.done)
    requires var c := s.writers[id].call;
             ok ==> |Content(s.store, TempKey(c))| != |Header(c)| + |s.writers[id].pc.written|
    ensures var c, s' := s.writers[id].call, Apply(s, ReadAndAppend(id, applied, ok));
            && WellFormed(s') && Enabled(s', Delete(id, true))
            && Apply(s', Delete(id, true)) == GivenUp(s, id, c, {TempKey(c)})
  {
    var c, s' := s.writers[id].call, Apply(s, ReadAndAppend(id, applied, ok));
    assert s'.store - {TempKey(c)} == s.store - {TempKey(c)};
  }

  /** A read that fails with data ends the call without DEL, so its temporary key stays behind. */
  lemma FailedReadLeavesKey(s: State, id: nat, applied: bool, ok: bool)
    requires WellFormed(s) && Enabled(s, ReadAndAppend(id, applied, ok))
    requires var chunk := NextChunk(s.writers[id].call, s.writers[id].pc.done); chunk.data != [] && chunk.error.Other?
    ensures Apply(s, ReadAndAppend(id, applied, ok)) == GivenUp(s, id, s.writers[id].call, {})
    ensures !Enabled(Apply(s, ReadAndAppend(id, applied, ok)), Delete(id, true))
  {
    assert s.store - {} == s.store;
  }

  const START: Run := Run([EMPTY], [])

  // ---------- What can go wrong ----------

  /** A source that fails without bringing data is taken for one that has ended.  So a response
      of two bytes whose source fails after the first one becomes visible with a single byte,
      although its header promises two; and indeed its reads are not steady. */
  lemma FailedReadTruncates() returns (c: Call, r: Run)
    ensures GoodCall(c) && c.content == [7, 8] && !Steady(c)
    ensures Interleaving(r.trace, r.events)
    ensures Entry(c.key) in Last(r).store && Last(r).store[Entry(c.key)] == Header(c) + [7]
  {
    c := Call("k", "1", Metadata(2, [], []), [7, 8], [Chunk([7], Nil), Chunk([], Other)]);
    assert Brought(c.source, 1) == [7] && Brought(c.source, 2) == [7];
    assert NextChunk(c, 1).data == [];
    assert FirstEmpty(c.source) == 1;
    r := UndisturbedPut(START, EMPTY, 0, c);
  }

  /** A temporary key that expires just before RENAME is not noticed either: the call succeeds,
      and nothing is visible. */
  lemma SuccessWithoutEntry(c: Call) returns (r: Run)
    requires GoodCall(c) && Readable(c)
    ensures Interleaving(r.trace, r.events)
    ensures Last(r).store == map[] && Last(r).writers == map[0 := Writer(c, Returned)]
  {
    var r1 := Starting(START, EMPTY, 0, c);
    var r2, p := StreamsTo(r1, EMPTY, EMPTY, 0, c, 0, FirstEmpty(c.source), Header(c));
    LastRead(EMPTY, 0, c, p);
    var r3 := Then(r2, EMPTY, ReadAndAppend(0, true, true), Renames(EMPTY, 0, c, p));
    var gone := State(map[], map[0 := Writer(c, Renaming)]);
    assert map[TempKey(c) := p] - {TempKey(c)} == map[];
    var r4 := Then(r3, EMPTY, Expire(TempKey(c)), gone);
    r := Then(r4, EMPTY, Rename(0, true), State(map[], map[0 := Writer(c, Returned)]));
  }

  /** The writer of call `c` after `n` reads, its key gone and its next APPEND applied `k` times. */
  function Torn(c: Call, n: nat, k: nat): State
    requires n < |c.source|
  {
    State(if k == 0 then map[] else map[TempKey(c) := Repeat(c.source[n].data, k)],
          map[0 := Writer(c, Streaming(n, Brought(c.source, n), k))])
  }

  lemma {:induction false} Tears(r: Run, c: Call, n: nat, k: nat, j: nat) returns (r': Run)
    requires RunsFrom(r, EMPTY) && GoodCall(c) && n < |c.source| && Appends(c, n) && k <= j <= MAX_RETRIES
    requires Last(r) == Torn(c, n, k)
    ensures RunsFrom(r', EMPTY) && Last(r') == Torn(c, n, j)
    decreases j - k
  {
    r' := r;
    if k < j {
      TearsOnce(c, n, k);
      r' := Then(r, EMPTY, Lose(0), Torn(c, n, k + 1));
      r' := Tears(r', c, n, k + 1, j);
    }
  }

  lemma TearsOnce(c: Call, n: nat, k: nat)
    requires GoodCall(c) && n < |c.source| && Appends(c, n) && k < MAX_RETRIES
    ensures Step(Torn(c, n, k), Lose(0), Torn(c, n, k + 1))
  {
    assert Repeat(c.source[n].data, 0) == [];
  }

  lemma TornPasses(c: Call, n: nat, j: nat)
    requires GoodCall(c) && ForgedAt(c, n, j)
    ensures Step(Torn(c, n, j), ReadAndAppend(0, true, true),
                 Midway(EMPTY, 0, c, n + 1, Repeat(c.source[n].data, j) + c.source[n].data))
  {
  }

  lemma TornRun(c: Call, n: nat, j: nat) returns (r: Run)
    requires GoodCall(c) && ForgedAt(c, n, j)
    ensures RunsFrom(r, EMPTY) && Last(r) == Torn(c, n, j)
  {
    var r1 := Starting(START, EMPTY, 0, c);
    var r2, p := StreamsTo(r1, EMPTY, EMPTY, 0, c, 0, n, Header(c));
    KeyExpires(c, n, p);
    var r3 := Then(r2, EMPTY, Expire(TempKey(c)), Torn(c, n, 0));
    r := Tears(r3, c, n, 0, j);
  }

  lemma KeyExpires(c: Call, n: nat, p: bytes)
    requires GoodCall(c) && n < |c.source|
    ensures Step(Midway(EMPTY, 0, c, n, p), Expire(TempKey(c)), Torn(c, n, 0))
  {
    assert map[TempKey(c) := p] - {TempKey(c)} == map[];
  }

  /** Copies of a chunk that are as long as everything before it pass for it: the key vanishes, the
      APPEND is applied `j` times without a reply and once with one, and the length is right. */
  lemma Fooled(c: Call, n: nat, j: nat) returns (r: Run)
    requires GoodCall(c) && Readable(c) && n < FirstEmpty(c.source) && ForgedAt(c, n, j)
    ensures Interleaving(r.trace, r.events) && Last(r).writers == map[0 := Writer(c, Returned)]
    ensures Entry(c.key) in Last(r).store && Last(r).store[Entry(c.key)] != Value(c)
  {
    var r1 := TornRun(c, n, j);
    TornPasses(c, n, j);
    var q := Repeat(c.source[n].data, j) + c.source[n].data;
    var r2 := Then(r1, EMPTY, ReadAndAppend(0, true, true), Midway(EMPTY, 0, c, n + 1, q));
    r := Finishes(r2, EMPTY, EMPTY, 0, c, n + 1, q);
    ForgedDiffers(c, n, j);
  }

  lemma ForgedDiffers(c: Call, n: nat, j: nat)
    requires GoodCall(c) && n < FirstEmpty(c.source) && ForgedAt(c, n, j)
    ensures Repeat(c.source[n].data, j) + c.source[n].data + Rest(c, n + 1) != Value(c)
  {
    var x, w := Repeat(c.source[n].data, j), Written(c, n);
    BroughtGrows(c.source, n, FirstEmpty(c.source));
    assert w <= Value(c);
    assert (x + c.source[n].data + Rest(c, n + 1))[..|w|] == x;
  }

  predicate SoleCall(s: State, c: Call) {
    forall id <- s.writers :: s.writers[id].call == c
  }

  /** Whatever becomes visible of `c`, if it is the only call, is its value. */
  ghost predicate AlwaysRight(c: Call)
    requires GoodCall(c)
  {
    forall r: Run :: RunsFrom(r, EMPTY) && SoleCall(Last(r), c) && Entry(c.key) in Last(r).store ==>
      Last(r).store[Entry(c.key)] == Value(c)
  }

  /** The length check protects a call in all runs if and only if no copies of a chunk, as many as
      there can be retries, are as long as what precedes the chunk without being that. */
  lemma FooledExactly(c: Call)
    requires GoodCall(c) && Readable(c)
    ensures AlwaysRight(c) <==> Unforgeable(c)
  {
    if Unforgeable(c) {
      forall r: Run | RunsFrom(r, EMPTY) && SoleCall(Last(r), c) && Entry(c.key) in Last(r).store
        ensures Last(r).store[Entry(c.key)] == Value(c)
      {
        var id := VisibleIsComplete(r.trace, r.events, |r.trace| - 1, c.key);
      }
    } else {
      var n, j :| ForgedAt(c, n, j);
      ReachedBefore(c.source, n);
      var r := Fooled(c, n, j);
      assert SoleCall(Last(r), c);
    }
  }

  lemma ReachedBefore(source: seq<Chunk>, n: nat)
    requires Reached(source, n) && n < |source| && source[n].data != []
    ensures n < FirstEmpty(source)
  {
  }

  /** The check can be fooled indeed: a response of sixteen bytes is as long as its header. */
  lemma SixteenBytes() returns (c: Call)
    ensures GoodCall(c) && Readable(c) && ForgedAt(c, 0, 1)
  {
    var d: bytes := seq(16, _ => 7);
    c := Call("k", "1", Metadata(16, [], []), d, [Chunk(d, Nil)]);
    assert Brought(c.source, 1) == d;
    assert FirstEmpty(c.source[1..]) == 0;
    assert Repeat(d, 1) == Repeat(d, 0) + d == d;
    assert Written(c, 0) == Header(c);
    HeaderDiffers(c, d);
  }

  lemma HeaderDiffers(c: Call, d: bytes)
    requires GoodCall(c) && c.meta == Metadata(16, [], []) && d == seq(16, _ => 7)
    ensures |Header(c)| == 16 && Header(c) != d
  {
    MetadataRoundTrip(c.meta, []);
    assert Header(c) + [] == Header(c);
    assert !DecodeMetadata(d).Ok?;
  }
}
