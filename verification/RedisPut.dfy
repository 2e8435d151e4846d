/**
 * Storing values in Redis: each writer streams into a temporary key of its own and renames
 * it at the end.  Writers interleave command by command; any key may expire between any two
 * commands, a command whose reply is lost is sent again, and one that is reported as failed may
 * have been applied or not.
 */
module RedisPut {
  import opened Words
  import opened RedisHeader

  // ---------- Keys ----------

  datatype StoreKey = Entry(name: string) | Temp(name: string, nonce: string)

  /** The key as Redis sees it. */
  function KeyString(k: StoreKey): string {
    match k
    case Entry(name) => name
    case Temp(name, nonce) => "{" + name + "}" + nonce + "_tmp"
  }

  predicate IsHex(c: char) {
    '0' <= c <= '9' || 'a' <= c <= 'f'
  }

  /** Cache keys are 32 hexadecimal digits. */
  predicate HexName(name: string) {
    |name| == 32 && forall i :: 0 <= i < |name| ==> IsHex(name[i])
  }

  lemma KindOfKey(k: StoreKey)
    requires HexName(k.name)
    ensures |KeyString(k)| > 0 && (KeyString(k)[0] == '{' <==> k.Temp?)
  {
    assert IsHex(k.name[0]);
  }

  /** Different keys are different strings, so the two kinds never collide. */
  lemma KeyStringInjective(a: StoreKey, b: StoreKey)
    requires HexName(a.name) && HexName(b.name) && KeyString(a) == KeyString(b)
    ensures a == b
  {
    KindOfKey(a);
    KindOfKey(b);
    var s := KeyString(a);
    if a.Temp? {
      assert a.name == s[1..33] && b.name == s[1..33];
      assert a.nonce == s[34..|s| - 4] && b.nonce == s[34..|s| - 4];
    }
  }

  // ---------- Writers ----------

  datatype ReadError = Nil | Eof | Other

  /** What one `Read` of the source returns. */
  datatype Chunk = Chunk(data: bytes, error: ReadError)

  /** `content` is what the source is meant to carry, and `source` how its reads bring it. */
  datatype Call = Call(key: string, nonce: string, meta: Metadata, content: bytes, source: seq<Chunk>)

  /** A streaming writer has performed `done` reads and written `written`; `lost` counts the
      applications of its next APPEND whose replies were lost. */
  datatype Pc =
    | Setting
    | Streaming(done: nat, written: bytes, lost: nat)
    | Cleaning
    | Aborted
    | Renaming
    | Returned

  datatype Writer = Writer(call: Call, pc: Pc)

  datatype State = State(store: map<StoreKey, bytes>, writers: map<nat, Writer>)

  /** `applied` says whether Redis performs the command, `ok` whether the client learns of it. */
  datatype Event =
    | Begin(id: nat, call: Call)
    | Set(id: nat, applied: bool, ok: bool)
    | ReadAndAppend(id: nat, applied: bool, ok: bool)
    | Lose(id: nat)                        // SET or APPEND is applied, and will be sent again
    | Delete(id: nat, applied: bool)
    | Rename(id: nat, applied: bool)
    | Late(id: nat, value: bytes)          // a command given up on takes effect after all
    | Expire(key: StoreKey)

  /** How often the client sends a command again. */
  const MAX_RETRIES: nat := 7

  function TempKey(c: Call): StoreKey {
    Temp(c.key, c.nonce)
  }

  function NextChunk(c: Call, done: nat): Chunk {
    if done < |c.source| then c.source[done] else Chunk([], Eof)
  }

  /** What the first `n` reads bring. */
  function Brought(source: seq<Chunk>, n: nat): bytes
    requires n <= |source|
  {
    if n == 0 then [] else Brought(source, n - 1) + source[n - 1].data
  }

  /** The reads bring the content from its beginning, but perhaps not all of it. */
  predicate GoodCall(c: Call) {
    Encodable(c.meta) && Brought(c.source, |c.source|) <= c.content
  }

  predicate Enabled(s: State, e: Event) {
    match e
    // The random part keeps temporary keys apart.
    case Begin(id, c) =>
      && id !in s.writers && GoodCall(c) && TempKey(c) !in s.store
      && forall other <- s.writers :: TempKey(s.writers[other].call) != TempKey(c)
    case Set(id, applied, ok) => id in s.writers && s.writers[id].pc.Setting? && (ok ==> applied)
    case ReadAndAppend(id, applied, ok) => id in s.writers && s.writers[id].pc.Streaming? && (ok ==> applied)
    case Lose(id) =>
      && id in s.writers
      && (match s.writers[id].pc
          case Setting => true
          case Streaming(done, _, lost) => Appends(s.writers[id].call, done) && lost < MAX_RETRIES
          case _ => false)
    case Delete(id, _) => id in s.writers && s.writers[id].pc.Cleaning?
    case Rename(id, _) => id in s.writers && (s.writers[id].pc.Renaming? || s.writers[id].pc.Returned?)
    case Late(id, _) => id in s.writers && (s.writers[id].pc.Cleaning? || s.writers[id].pc.Aborted?)
    case Expire(k) => k in s.store
  }

  function Content(store: map<StoreKey, bytes>, k: StoreKey): bytes {
    if k in store then store[k] else []
  }

  function Header(c: Call): bytes
    requires GoodCall(c)
  {
    EncodeMetadata(c.meta)
  }

  /** The writer after its read and, when the read brought data, its APPEND. */
  function AfterAppend(c: Call, done: nat, written: bytes, total: nat, ok: bool): Pc
    requires GoodCall(c)
  {
    var chunk := NextChunk(c, done);
    if chunk.data == [] then Renaming
    else if chunk.error.Other? then Aborted
    else if !ok then Cleaning
    else if total != |Header(c)| + |written| + |chunk.data| then Cleaning
    else Streaming(done + 1, written + chunk.data, 0)
  }

  /** Whether the read leads to an APPEND command at all. */
  predicate Appends(c: Call, done: nat) {
    NextChunk(c, done).data != [] && !NextChunk(c, done).error.Other?
  }

  predicate WellFormed(s: State) {
    forall id <- s.writers :: GoodCall(s.writers[id].call)
  }

  function Goto(s: State, id: nat, pc: Pc): State
    requires id in s.writers
  {
    s.(writers := s.writers[id := s.writers[id].(pc := pc)])
  }

  function Apply(s: State, e: Event): State
    requires WellFormed(s) && Enabled(s, e)
  {
    match e
    case Begin(id, c) => s.(writers := s.writers[id := Writer(c, Setting)])
    case Set(id, applied, ok) =>
      var c := s.writers[id].call;
      Goto(s, id, if ok then Streaming(0, [], 0) else Aborted).(
        store := if applied then s.store[TempKey(c) := Header(c)] else s.store)
    case ReadAndAppend(id, applied, ok) =>
      var c, pc := s.writers[id].call, s.writers[id].pc;
      if !Appends(c, pc.done) then Goto(s, id, AfterAppend(c, pc.done, pc.written, 0, ok))
      else
        var value := Content(s.store, TempKey(c)) + NextChunk(c, pc.done).data;
        Goto(s, id, AfterAppend(c, pc.done, pc.written, |value|, ok)).(
          store := if applied then s.store[TempKey(c) := value] else s.store)
    case Lose(id) =>
      var c, pc := s.writers[id].call, s.writers[id].pc;
      if pc.Setting? then s.(store := s.store[TempKey(c) := Header(c)])
      else
        Goto(s, id, pc.(lost := pc.lost + 1)).(
          store := s.store[TempKey(c) := Content(s.store, TempKey(c)) + NextChunk(c, pc.done).data])
    case Delete(id, applied) =>
      Goto(s, id, Aborted).(store := if applied then s.store - {TempKey(s.writers[id].call)} else s.store)
    case Rename(id, applied) =>
      var c := s.writers[id].call;
      Goto(s, id, Returned).(store :=
        if applied && TempKey(c) in s.store then s.store[Entry(c.key) := s.store[TempKey(c)]] - {TempKey(c)}
        else s.store)
    case Late(id, value) => s.(store := s.store[TempKey(s.writers[id].call) := value])
    case Expire(k) => s.(store := s.store - {k})
  }

  // ---------- What gets committed ----------

  /** The first read that brings nothing. */
  function FirstEmpty(source: seq<Chunk>): (n: nat)
    ensures n <= |source| && (n < |source| ==> source[n].data == [])
    ensures forall i :: 0 <= i < n ==> source[i].data != []
  {
    if source == [] || source[0].data == [] then 0
    else
      var n := FirstEmpty(source[1..]);
      assert forall i :: 1 <= i < |source| ==> source[i] == source[1..][i - 1];
      1 + n
  }

  /** The data the writer streams. */
  function Streamed(source: seq<Chunk>): bytes {
    Brought(source, FirstEmpty(source))
  }

  function Value(c: Call): bytes
    requires GoodCall(c)
  {
    Header(c) + Streamed(c.source)
  }

  lemma {:induction false} BroughtGrows(source: seq<Chunk>, m: nat, n: nat)
    requires m <= n <= |source|
    ensures Brought(source, m) <= Brought(source, n)
  {
    if m < n {
      BroughtGrows(source, m, n - 1);
    }
  }

  /** No read brings nothing while content remains. */
  predicate Steady(c: Call) {
    forall n :: 0 <= n <= |c.source| && NextChunk(c, n).data == [] ==> |Brought(c.source, n)| == |c.content|
  }

  /** The whole content is streamed if and only if no read brings nothing while content remains. */
  lemma StreamedIsWhole(c: Call)
    requires GoodCall(c)
    ensures Streamed(c.source) == c.content <==> Steady(c)
  {
    var first := FirstEmpty(c.source);
    BroughtGrows(c.source, first, |c.source|);
    assert NextChunk(c, first).data == [];
    forall n | first <= n <= |c.source|
      ensures |Brought(c.source, first)| <= |Brought(c.source, n)| <= |c.content|
    {
      BroughtGrows(c.source, first, n);
      BroughtGrows(c.source, n, |c.source|);
    }
  }

  // ---------- Lost replies ----------

  function Repeat(d: bytes, j: nat): bytes {
    if j == 0 then [] else Repeat(d, j - 1) + d
  }

  lemma {:induction false} RepeatLength(d: bytes, j: nat)
    ensures |Repeat(d, j)| == j * |d|
  {
    if j > 0 {
      RepeatLength(d, j - 1);
      assert j * |d| == (j - 1) * |d| + |d|;
    }
  }

  /** The first `n` reads bring data without error. */
  predicate Reached(source: seq<Chunk>, n: nat) {
    n <= |source| && forall i :: 0 <= i < n ==> source[i].data != [] && !source[i].error.Other?
  }

  /** What the temporary key should hold after `n` reads. */
  function Written(c: Call, n: nat): bytes
    requires GoodCall(c) && n <= |c.source|
  {
    Header(c) + Brought(c.source, n)
  }

  /** `j` copies of the chunk of read `n` are as long as everything before it, but differ from it. */
  predicate ForgedAt(c: Call, n: nat, j: nat)
    requires GoodCall(c)
  {
    && n < |c.source| && Reached(c.source, n) && Appends(c, n) && 0 < j <= 7
    && |Repeat(c.source[n].data, j)| == |Written(c, n)| && Repeat(c.source[n].data, j) != Written(c, n)
  }

  /** That happens at no read. */
  ghost predicate Unforgeable(c: Call)
    requires GoodCall(c)
  {
    forall n, j :: !ForgedAt(c, n, j)
  }

  /** What the temporary key may hold while the APPEND of `d` to `base` is under way: `d` has been
      applied any number of times, and the key may have vanished before. */
  ghost predicate Tentative(v: bytes, base: bytes, d: bytes, lost: nat) {
    exists j :: 0 <= j <= lost && (v == base + Repeat(d, j) || (j > 0 && v == Repeat(d, j)))
  }

  lemma TentativeStart(base: bytes, d: bytes)
    ensures Tentative(base, base, d, 0)
  {
    assert base + Repeat(d, 0) == base;
  }

  /** One more application, of which the client may learn or not. */
  lemma TentativeMore(v: bytes, base: bytes, d: bytes, lost: nat)
    requires v == [] || Tentative(v, base, d, lost)
    ensures Tentative(v + d, base, d, lost + 1)
  {
    if v == [] {
      assert v + d == Repeat(d, 1);
    } else {
      var j :| 0 <= j <= lost && (v == base + Repeat(d, j) || (j > 0 && v == Repeat(d, j)));
      assert v + d == base + Repeat(d, j + 1) || v + d == Repeat(d, j + 1);
    }
  }

  /** If the reported total is right, the content is right, or copies of `d` pass for `base`. */
  lemma TotalDecides(v: bytes, base: bytes, d: bytes, lost: nat) returns (j: nat)
    requires base != [] && d != [] && (v == [] || Tentative(v, base, d, lost)) && |v + d| == |base| + |d|
    ensures v == base || (0 < j <= lost && v == Repeat(d, j) && |Repeat(d, j)| == |base|)
  {
    j := 0;
    if v != [] {
      j :| 0 <= j <= lost && (v == base + Repeat(d, j) || (j > 0 && v == Repeat(d, j)));
      RepeatLength(d, j);
      if v == base + Repeat(d, j) && j > 0 {
        MulAtLeast(j, |d|);
      }
    }
  }

  // ---------- The invariant ----------

  /** What a writer has in Redis: until it gives up, its temporary key holds what it has written,
      an APPEND under way apart, or nothing. */
  ghost predicate Keeps(store: map<StoreKey, bytes>, c: Call, pc: Pc)
    requires GoodCall(c)
  {
    var tmp := TempKey(c);
    tmp in store ==>
      match pc
      case Setting => store[tmp] == Header(c)
      case Streaming(n, _, lost) =>
        n <= |c.source| && Tentative(store[tmp], Written(c, n), NextChunk(c, n).data, lost)
      case Renaming => store[tmp] == Value(c)
      case Returned => store[tmp] == Value(c)
      case _ => true
  }

  predicate Progress(c: Call, pc: Pc) {
    pc.Streaming? ==>
      && Reached(c.source, pc.done) && pc.written == Brought(c.source, pc.done)
      && pc.lost <= MAX_RETRIES && (!Appends(c, pc.done) ==> pc.lost == 0)
  }

  ghost predicate WriterInv(store: map<StoreKey, bytes>, w: Writer) {
    GoodCall(w.call) && Progress(w.call, w.pc) && (Unforgeable(w.call) ==> Keeps(store, w.call, w.pc))
  }

  /** A visible value is the one that some writer of that key is to commit, unless the writer can
      be fooled. */
  ghost predicate VisibleInv(s: State, name: string) {
    Entry(name) in s.store ==> exists id :: Stems(s, name, id)
  }

  ghost predicate Stems(s: State, name: string, id: nat) {
    && id in s.writers && s.writers[id].call.key == name && s.writers[id].pc.Returned?
    && GoodCall(s.writers[id].call) && Entry(name) in s.store
    && (Unforgeable(s.writers[id].call) ==> s.store[Entry(name)] == Value(s.writers[id].call))
  }

  predicate KeysApart(s: State) {
    forall a, b :: a in s.writers && b in s.writers && a != b ==>
      TempKey(s.writers[a].call) != TempKey(s.writers[b].call)
  }

  ghost predicate Inv(s: State) {
    && KeysApart(s)
    && (forall id <- s.writers :: WriterInv(s.store, s.writers[id]))
    && forall name :: VisibleInv(s, name)
  }

  lemma HeaderNotEmpty(c: Call)
    requires GoodCall(c)
    ensures |Header(c)| >= 16
  {
  }

  /** The length check catches a temporary key that vanished: the total that an APPEND reports
      after it was applied `k` times to a missing key passes if and only if `k - 1` copies of its
      data are as long as everything that should be there. */
  lemma VanishedKeyIsCaught(c: Call, n: nat, k: nat)
    requires GoodCall(c) && n < |c.source| && Appends(c, n) && k > 0
    ensures var d, base := c.source[n].data, Written(c, n);
            AfterAppend(c, n, Brought(c.source, n), |Repeat(d, k)|, true).Streaming? <==> (k - 1) * |d| == |base|
    ensures AfterAppend(c, n, Brought(c.source, n), |Repeat(c.source[n].data, 1)|, true) == Cleaning
  {
    HeaderNotEmpty(c);
    var d := c.source[n].data;
    RepeatLength(d, k - 1);
    RepeatLength(d, 0);
    assert Repeat(d, 1) == Repeat(d, 0) + d;
  }

  /** An APPEND whose total is right leaves the next part of the value. */
  lemma AppendedRight(store: map<StoreKey, bytes>, c: Call, n: nat, lost: nat)
    requires GoodCall(c) && Unforgeable(c) && Reached(c.source, n) && n < |c.source| && Appends(c, n) && lost <= MAX_RETRIES
    requires TempKey(c) in store ==> Tentative(store[TempKey(c)], Written(c, n), c.source[n].data, lost)
    requires |Content(store, TempKey(c)) + c.source[n].data| == |Written(c, n)| + |c.source[n].data|
    ensures Content(store, TempKey(c)) + c.source[n].data == Written(c, n + 1)
  {
    HeaderNotEmpty(c);
    var v, d := Content(store, TempKey(c)), c.source[n].data;
    var j := TotalDecides(v, Written(c, n), d, lost);
    assert !ForgedAt(c, n, j);
    assert Header(c) + (Brought(c.source, n) + d) == Written(c, n) + d;
  }

  lemma AppendStep(s: State, e: Event, id: nat)
    requires WellFormed(s) && Enabled(s, e) && e.ReadAndAppend? && e.id == id && WriterInv(s.store, s.writers[id])
    ensures WriterInv(Apply(s, e).store, Apply(s, e).writers[id])
  {
    var c, pc := s.writers[id].call, s.writers[id].pc;
    var tmp, s' := TempKey(c), Apply(s, e);
    if !Appends(c, pc.done) {
      if NextChunk(c, pc.done).data == [] && Unforgeable(c) && tmp in s.store {
        assert pc.done == FirstEmpty(c.source);
        assert s.store[tmp] == Written(c, pc.done) by {
          assert Repeat(NextChunk(c, pc.done).data, 0) == [];
        }
      }
    } else if s'.writers[id].pc.Streaming? && Unforgeable(c) {
      AppendedRight(s.store, c, pc.done, pc.lost);
      TentativeStart(Written(c, pc.done + 1), NextChunk(c, pc.done + 1).data);
    }
  }

  lemma LoseStep(s: State, e: Event, id: nat)
    requires WellFormed(s) && Enabled(s, e) && e.Lose? && e.id == id && WriterInv(s.store, s.writers[id])
    ensures WriterInv(Apply(s, e).store, Apply(s, e).writers[id])
  {
    var c, pc := s.writers[id].call, s.writers[id].pc;
    if pc.Streaming? && Unforgeable(c) {
      TentativeMore(Content(s.store, TempKey(c)), Written(c, pc.done), NextChunk(c, pc.done).data, pc.lost);
    }
  }

  /** The step of a writer keeps its own part of the invariant. */
  lemma OwnStep(s: State, e: Event, id: nat)
    requires WellFormed(s) && Enabled(s, e) && id in Apply(s, e).writers && !e.Expire? && e.id == id
    requires id in s.writers ==> WriterInv(s.store, s.writers[id])
    ensures WriterInv(Apply(s, e).store, Apply(s, e).writers[id])
  {
    if e.ReadAndAppend? {
      AppendStep(s, e, id);
    } else if e.Lose? {
      LoseStep(s, e, id);
    } else if e.Set? {
      var c := s.writers[id].call;
      TentativeStart(Header(c), NextChunk(c, 0).data);
      assert Written(c, 0) == Header(c);
    }
  }

  /** The step of one writer, or an expiry, leaves the others' part of the invariant alone. */
  lemma OthersStep(s: State, e: Event, id: nat)
    requires KeysApart(s) && WellFormed(s) && Enabled(s, e) && id in s.writers && WriterInv(s.store, s.writers[id])
    requires e.Expire? || e.id != id
    ensures Apply(s, e).writers[id] == s.writers[id] && WriterInv(Apply(s, e).store, s.writers[id])
  {
    var tmp, s' := TempKey(s.writers[id].call), Apply(s, e);
    assert tmp in s'.store ==> tmp in s.store && s'.store[tmp] == s.store[tmp];
  }

  /** Whether the step makes a value visible under `name`. */
  predicate Commits(s: State, e: Event, name: string)
    requires Enabled(s, e)
  {
    e.Rename? && e.applied && s.writers[e.id].call.key == name && TempKey(s.writers[e.id].call) in s.store
  }

  /** Only an effective RENAME of one of its writers changes an entry; otherwise it stays or goes. */
  lemma EntryStep(s: State, e: Event, name: string)
    requires WellFormed(s) && Enabled(s, e)
    ensures var s', k := Apply(s, e), Entry(name);
            if Commits(s, e, name) then k in s'.store && s'.store[k] == s.store[TempKey(s.writers[e.id].call)]
            else k in s'.store ==> k in s.store && s'.store[k] == s.store[k]
  {
  }

  lemma VisibleStep(s: State, e: Event, name: string)
    requires WellFormed(s) && Enabled(s, e) && VisibleInv(s, name)
    requires e.Rename? ==> WriterInv(s.store, s.writers[e.id])
    ensures VisibleInv(Apply(s, e), name)
  {
    var s' := Apply(s, e);
    EntryStep(s, e, name);
    if Entry(name) in s'.store {
      if Commits(s, e, name) {
        assert Stems(s', name, e.id);
      } else {
        var id :| Stems(s, name, id);
        ReturnedStays(s, e, id);
        assert Stems(s', name, id);
      }
    }
  }

  lemma ReturnedStays(s: State, e: Event, id: nat)
    requires WellFormed(s) && Enabled(s, e) && id in s.writers && s.writers[id].pc.Returned?
    ensures id in Apply(s, e).writers && Apply(s, e).writers[id] == s.writers[id]
  {
  }

  lemma ApartStep(s: State, e: Event)
    requires KeysApart(s) && WellFormed(s) && Enabled(s, e)
    ensures KeysApart(Apply(s, e))
  {
  }

  lemma StepInv(s: State, e: Event)
    requires Inv(s) && WellFormed(s) && Enabled(s, e)
    ensures Inv(Apply(s, e))
  {
    var s' := Apply(s, e);
    ApartStep(s, e);
    forall id <- s'.writers ensures WriterInv(s'.store, s'.writers[id]) {
      if !e.Expire? && e.id == id {
        OwnStep(s, e, id);
      } else {
        OthersStep(s, e, id);
      }
    }
    forall name ensures VisibleInv(s', name) {
      assert VisibleInv(s, name);
      VisibleStep(s, e, name);
    }
  }

  // ---------- Every interleaving ----------

  /** The events lead through the states of the trace. */
  predicate Path(trace: seq<State>, events: seq<Event>) {
    && |trace| == |events| + 1
    && forall i :: 0 <= i < |events| ==> Step(trace[i], events[i], trace[i + 1])
  }

  predicate Step(s: State, e: Event, s': State) {
    WellFormed(s) && Enabled(s, e) && s' == Apply(s, e)
  }

  const EMPTY: State := State(map[], map[])

  predicate Interleaving(trace: seq<State>, events: seq<Event>) {
    Path(trace, events) && trace[0] == EMPTY
  }

  lemma {:induction false} Reachable(trace: seq<State>, events: seq<Event>, i: nat)
    requires Interleaving(trace, events) && i < |trace|
    ensures Inv(trace[i])
  {
    if i > 0 {
      Reachable(trace, events, i - 1);
      assert Step(trace[i - 1], events[i - 1], trace[i]);
      StepInv(trace[i - 1], events[i - 1]);
    }
  }

  /** Whatever is visible under a cache key stems from one writer of that key.  Unless that writer
      can be fooled, it is the writer's header and all it streamed, which is the whole content if
      and only if no read brings nothing while content remains. */
  lemma VisibleIsComplete(trace: seq<State>, events: seq<Event>, i: nat, name: string) returns (id: nat)
    requires Interleaving(trace, events) && i < |trace| && Entry(name) in trace[i].store
    ensures id in trace[i].writers && trace[i].writers[id].call.key == name && GoodCall(trace[i].writers[id].call)
    ensures var v, c := trace[i].store[Entry(name)], trace[i].writers[id].call;
            Unforgeable(c) ==> v == Value(c) && (v == Header(c) + c.content <==> Steady(c))
  {
    Reachable(trace, events, i);
    assert VisibleInv(trace[i], name);
    id :| Stems(trace[i], name, id);
    var c := trace[i].writers[id].call;
    StreamedIsWhole(c);
    assert Value(c)[|Header(c)|..] == Streamed(c.source);
    assert (Header(c) + c.content)[|Header(c)|..] == c.content;
  }

  /** `Put` returns success whatever RENAME comes to.  Its value is visible right after that step
      if and only if RENAME is applied while the temporary key is still there, or the same value
      was visible before. */
  lemma RenameDecides(s: State, id: nat, applied: bool)
    requires WellFormed(s) && id in s.writers && s.writers[id].pc.Renaming?
    requires WriterInv(s.store, s.writers[id]) && Unforgeable(s.writers[id].call)
    ensures Enabled(s, Rename(id, applied))
    ensures var c, s' := s.writers[id].call, Apply(s, Rename(id, applied));
            && s'.writers[id].pc == Returned
            && (Shows(s', c) <==> Shows(s, c) || (applied && TempKey(c) in s.store))
  {
  }

  /** The value of the call is visible. */
  predicate Shows(s: State, c: Call)
    requires GoodCall(c)
  {
    Entry(c.key) in s.store && s.store[Entry(c.key)] == Value(c)
  }
}
