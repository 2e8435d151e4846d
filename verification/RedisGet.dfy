/** Reading values back from Redis: in one range read, or as a stream of range reads. */
module RedisGet {
  import opened Words
  import opened Numerals
  import opened RedisHeader

  const FIRST_FETCH: nat := 100 * 1024
  const BUFFER_SIZE: nat := 2 * 1024 * 1024

  /** `GETRANGE`, whose bounds are both inclusive. */
  function GetRange(v: bytes, lo: nat, hi: nat): bytes {
    if lo >= |v| || hi < lo then [] else v[lo..if hi + 1 <= |v| then hi + 1 else |v|]
  }

  /** The answer to one command: data, `redis.Nil`, or another error. */
  datatype Reply = Data(data: bytes) | NotThere | Trouble

  /** What Redis would answer to each range request at some moment. */
  type Redis = (nat, nat) -> Reply

  /** The bytes of an answer; a missing key has none. */
  function Bytes(r: Reply): bytes {
    if r.Data? then r.data else []
  }

  /** The key holds `v`, where a missing key counts as an empty one; Redis may be unreachable. */
  ghost predicate Answers(redis: Redis, v: bytes) {
    forall lo, hi :: !redis(lo, hi).Trouble? ==> Bytes(redis(lo, hi)) == GetRange(v, lo, hi)
  }

  ghost predicate Up(redis: Redis) {
    forall lo, hi :: !redis(lo, hi).Trouble?
  }

  // ---------- The first range read ----------

  datatype Decision =
    | Missing
    | CorruptValue
    | Crash
    | Whole(meta: Metadata, payload: bytes)
    | Streamed(meta: Metadata, offset: nat)

  /** An int64 sum. */
  function Sum64(a: int, b: int): int {
    Signed64((a + b) % TWO64)
  }

  /** What `Get` makes of the bytes of the first range read. */
  function Decide(b: bytes): Decision {
    if b == [] then Missing
    else
      match DecodeMetadata(b)
      case Corrupt => CorruptValue
      case Panic => Crash
      case Ok(meta, offset) =>
        if Sum64(offset, meta.length) < FIRST_FETCH then Whole(meta, b[offset..])
        else Streamed(meta, offset)
  }

  function Stored(m: Metadata, payload: bytes): bytes
    requires Int64(m.length)
  {
    EncodeMetadata(m) + payload
  }

  /** The metadata announces the payload, and all sizes fit an int64. */
  predicate Announced(m: Metadata, payload: bytes) {
    Encodable(m) && m.length == |payload| && |EncodeMetadata(m)| + |payload| <= MAX64
  }

  lemma SumFits(a: int, b: int)
    requires 0 <= a && 0 <= b && a + b <= MAX64
    ensures Sum64(a, b) == a + b
  {
  }

  /** A stored value is answered whole when it is small and streamed from the right offset when
      it is not, provided its header fits the first range read. */
  lemma DecideStored(m: Metadata, payload: bytes)
    requires Announced(m, payload) && |EncodeMetadata(m)| <= FIRST_FETCH + 1
    ensures var v, n := Stored(m, payload), |EncodeMetadata(m)|;
            Decide(GetRange(v, 0, FIRST_FETCH)) ==
              if n + |payload| < 102_400 then Whole(m, payload) else Streamed(m, n)
  {
    var v, h := Stored(m, payload), EncodeMetadata(m);
    var b := GetRange(v, 0, FIRST_FETCH);
    assert b == h + b[|h|..];
    MetadataRoundTrip(m, b[|h|..]);
    SumFits(|h|, |payload|);
    if |v| < FIRST_FETCH {
      assert b == v;
      assert v[|h|..] == payload;
    }
  }

  /** A header that does not fit is reported as corrupt. */
  lemma DecideLongHeader(m: Metadata, payload: bytes)
    requires Announced(m, payload) && |EncodeMetadata(m)| > FIRST_FETCH + 1
    ensures Decide(GetRange(Stored(m, payload), 0, FIRST_FETCH)) == CorruptValue
  {
    var h := EncodeMetadata(m);
    assert GetRange(Stored(m, payload), 0, FIRST_FETCH) == h[..FIRST_FETCH + 1];
    MetadataPrefixFails(m, FIRST_FETCH + 1);
  }

  /** The small path does not compare lengths: it serves what the first range read brings.  That
      is as much as the header announces if and only if that much is stored. */
  lemma SmallPathServesWhatIsThere(m: Metadata, stored: bytes)
    requires Encodable(m) && 0 <= m.length && |EncodeMetadata(m)| + m.length < FIRST_FETCH
    ensures var n := FIRST_FETCH + 1 - |EncodeMetadata(m)|;
            var served := if |stored| <= n then stored else stored[..n];
            && Decide(GetRange(Stored(m, stored), 0, FIRST_FETCH)) == Whole(m, served)
            && (|served| == m.length <==> |stored| == m.length)
  {
    var v, h := Stored(m, stored), EncodeMetadata(m);
    var b := GetRange(v, 0, FIRST_FETCH);
    assert b == h + b[|h|..];
    MetadataRoundTrip(m, b[|h|..]);
    SumFits(|h|, m.length);
    assert b[|h|..] == if |v| <= FIRST_FETCH + 1 then stored else stored[..FIRST_FETCH + 1 - |h|];
  }

  // ---------- The stream reader ----------

  datatype ReadError = None | Eof | SizeMismatch | Unreachable

  class StreamReader {
    const expectedPayloadSize: int
    ghost const start: nat
    var isRedisEOF: bool
    var redisOffset: nat
    var buffer: bytes
    var bufferOffset: nat
    var readPayloadSize: nat
    ghost var delivered: bytes

    ghost predicate Valid()
      reads this
    {
      && bufferOffset <= |buffer|
      && (buffer == [] ==> isRedisEOF)
      && readPayloadSize == |delivered|
      && redisOffset == Position() + |Rest()|
    }

    /** What is buffered and not yet handed out. */
    ghost function Rest(): bytes
      reads this
      requires bufferOffset <= |buffer|
    {
      buffer[bufferOffset..]
    }

    /** Where in the stored value the next byte comes from. */
    ghost function Position(): nat
      reads this
    {
      start + |delivered|
    }

    constructor (offset: nat, payloadSize: int)
      ensures Valid() && start == offset && expectedPayloadSize == payloadSize
      ensures delivered == [] && Rest() == [] && !isRedisEOF && |buffer| == 2_097_152
    {
      isRedisEOF, redisOffset, start := false, offset, offset;
      buffer, bufferOffset := seq(BUFFER_SIZE, _ => 0), BUFFER_SIZE;
      expectedPayloadSize, readPayloadSize := payloadSize, 0;
      delivered := [];
    }

    /** Refills the buffer.  A full answer is one byte longer than the buffer it replaces. */
    method ReadRangeFromRedis(redis: Redis) returns (ok: bool)
      requires Valid() && buffer != [] && Rest() == []
      modifies this`isRedisEOF, this`redisOffset, this`buffer, this`bufferOffset
      ensures Valid()
      ensures ok <==> !redis(Position(), Position() + |old(buffer)|).Trouble?
      ensures !ok ==> Rest() == [] && isRedisEOF
      ensures ok ==> Rest() == Bytes(redis(Position(), Position() + |old(buffer)|))
      ensures ok ==> (isRedisEOF <==> old(isRedisEOF) || |Rest()| < |old(buffer)|)
    {
      var reply := redis(redisOffset, redisOffset + |buffer|);
      var newBuf := if reply.Data? then reply.data else [];
      redisOffset := redisOffset + |newBuf|;
      if |newBuf| == 0 || |newBuf| < |buffer| {
        isRedisEOF := true;
      }
      if reply.Trouble? {
        return false;
      }
      bufferOffset, buffer, ok := 0, newBuf, true;
    }

    /** Hands out buffered bytes. */
    method CopyOut(dest: array<byte>) returns (n: nat)
      requires Valid()
      modifies this`bufferOffset, this`readPayloadSize, this`delivered, dest
      ensures Valid()
      ensures n == (if dest.Length < |old(Rest())| then dest.Length else |old(Rest())|)
      ensures delivered == old(delivered) + dest[..n] && dest[n..] == old(dest[n..])
      ensures old(Rest()) == dest[..n] + Rest()
    {
      n := if dest.Length < |buffer| - bufferOffset then dest.Length else |buffer| - bufferOffset;
      forall i | 0 <= i < n {
        dest[i] := buffer[bufferOffset + i];
      }
      assert dest[..n] == buffer[bufferOffset..bufferOffset + n];
      bufferOffset := bufferOffset + n;
      readPayloadSize := readPayloadSize + n;
      delivered := delivered + dest[..n];
    }

    /** One read.  Whatever Redis answers, the plain end is reported only after exactly the
        expected number of bytes.  What is handed out and what stays buffered is what was buffered
        before, or else the answer for the next range. */
    method Read(dest: array<byte>, redis: Redis) returns (n: nat, err: ReadError)
      requires Valid()
      modifies this, dest
      ensures Valid() && n <= dest.Length
      ensures delivered == old(delivered) + dest[..n] && dest[n..] == old(dest[n..])
      ensures err != None ==> n == 0
      ensures err == Eof ==> |delivered| == expectedPayloadSize
      ensures err == SizeMismatch ==> |delivered| != expectedPayloadSize
      ensures err == Eof || err == SizeMismatch <==> old(isRedisEOF) && old(Rest()) == []
      ensures err != None ==> Rest() == old(Rest()) == []
      ensures old(isRedisEOF) ==> isRedisEOF
      ensures err == Unreachable ==> redis(old(Position()), old(Position()) + |old(buffer)|).Trouble?
      ensures err == None && old(Rest()) != [] ==> dest[..n] + Rest() == old(Rest()) && isRedisEOF == old(isRedisEOF)
      ensures err == None && old(Rest()) == [] ==>
                && !old(isRedisEOF)
                && dest[..n] + Rest() == Bytes(redis(old(Position()), old(Position()) + |old(buffer)|))
                && !redis(old(Position()), old(Position()) + |old(buffer)|).Trouble?
                && (isRedisEOF <==> |dest[..n] + Rest()| < |old(buffer)|)
      ensures n == (if dest.Length < |dest[..n] + Rest()| then dest.Length else |dest[..n] + Rest()|)
    {
      if bufferOffset >= |buffer| && isRedisEOF {
        return 0, if readPayloadSize != expectedPayloadSize then SizeMismatch else Eof;
      }
      if bufferOffset >= |buffer| {
        var ok := ReadRangeFromRedis(redis);
        if !ok {
          return 0, Unreachable;
        }
      }
      n := CopyOut(dest);
      err := None;
    }
  }

  // ---------- Reading to the end ----------

  /** What Redis would answer at each moment, and what the key holds then. */
  type Moments = nat -> Redis
  type Values = nat -> bytes

  ghost predicate Tells(moments: Moments, values: Values, bound: nat) {
    forall i :: Answers(moments(i), values(i)) && |values(i)| <= bound
  }

  /** The key holds `v` at all moments, and Redis can be reached. */
  ghost predicate Constant(moments: Moments, values: Values, v: bytes) {
    forall i :: values(i) == v && Up(moments(i))
  }

  /** Each byte of `out` is the one that the key held at the byte's own position at some moment up
      to `last`, and later bytes stem from no earlier moments. */
  ghost predicate Patchwork(out: bytes, start: nat, values: Values, origin: seq<nat>, last: nat) {
    && |origin| == |out|
    && (forall j :: 0 <= j < |out| ==> origin[j] <= last && At(values(origin[j]), start + j, out[j]))
    && (forall i, j :: 0 <= i < j < |out| ==> origin[i] <= origin[j])
  }

  predicate At(v: bytes, p: nat, b: byte) {
    p < |v| && v[p] == b
  }

  /** A piece of `v` from position `p` on. */
  predicate PieceOf(piece: bytes, v: bytes, p: nat) {
    piece == [] || (p <= |v| && piece <= v[p..])
  }

  /** Both ends of a range belong to it. */
  lemma RangeBytes(v: bytes, lo: nat, hi: nat, i: nat)
    ensures i < |GetRange(v, lo, hi)| <==> lo + i <= hi && lo + i < |v|
    ensures i < |GetRange(v, lo, hi)| ==> GetRange(v, lo, hi)[i] == v[lo + i]
  {
  }

  lemma RangeIsPiece(v: bytes, lo: nat, hi: nat)
    requires lo < hi
    ensures PieceOf(GetRange(v, lo, hi), v, lo)
    ensures |GetRange(v, lo, hi)| < hi - lo ==> lo + |GetRange(v, lo, hi)| >= |v|
  {
  }

  /** Bytes that came at moment `k`, no earlier than all others, extend the patchwork. */
  lemma PatchMore(out: bytes, start: nat, values: Values, origin: seq<nat>, last: nat, piece: bytes, k: nat)
    requires Patchwork(out, start, values, origin, last) && last <= k && PieceOf(piece, values(k), start + |out|)
    ensures Patchwork(out + piece, start, values, origin + seq(|piece|, _ => k), k)
  {
    var out', origin' := out + piece, origin + seq(|piece|, _ => k);
    forall j | 0 <= j < |out'| ensures origin'[j] <= k && At(values(origin'[j]), start + j, out'[j]) {
      if j >= |out| {
        assert origin'[j] == k && out'[j] == piece[j - |out|];
      } else {
        assert origin'[j] == origin[j] && out'[j] == out[j];
      }
    }
  }

  /** Splitting a piece. */
  lemma PieceSplit(a: bytes, b: bytes, v: bytes, p: nat)
    requires PieceOf(a + b, v, p)
    ensures PieceOf(a, v, p) && PieceOf(b, v, p + |a|)
  {
    if a + b != [] {
      var s := v[p..];
      assert a <= s;
      assert v[p + |a|..] == s[|a|..];
      assert b == (a + b)[|a|..] <= s[|a|..];
    }
  }

  /** The reader's buffer holds a piece of what the key held at moment `k`. */
  ghost predicate Buffered(r: StreamReader, values: Values, k: nat)
    reads r
  {
    r.Valid() && PieceOf(r.Rest(), values(k), r.Position())
  }

  /** One read keeps that: its bytes are a piece of what the key held at moment `k'`, which is `k`
      or the present one, `now`. */
  method ReadPiece(r: StreamReader, size: nat, redis: Redis, ghost values: Values, ghost k: nat, ghost now: nat)
    returns (piece: bytes, err: ReadError, ghost k': nat)
    requires r.Valid() && (r.Rest() != [] ==> Buffered(r, values, k))
    requires size > 0 && k <= now && Answers(redis, values(now))
    modifies r
    ensures r.Valid() && r.delivered == old(r.delivered) + piece
    ensures k <= k' <= now && PieceOf(piece, values(k'), old(r.Position())) && Buffered(r, values, k')
    ensures piece != [] ==> r.Position() <= |values(k')|
    ensures old(r.isRedisEOF) ==> r.Position() + |r.Rest()| == old(r.Position() + |r.Rest()|)
    ensures err != None ==> piece == []
    ensures err == Eof ==> |r.delivered| == r.expectedPayloadSize
    ensures err == SizeMismatch ==> |r.delivered| != r.expectedPayloadSize
    ensures err == None && piece == [] ==> !old(r.isRedisEOF) && r.isRedisEOF
    ensures old(r.isRedisEOF) ==> r.isRedisEOF
    ensures err == Unreachable ==> !Up(redis)
    ensures r.isRedisEOF && !old(r.isRedisEOF) && err != Unreachable ==> r.Position() + |r.Rest()| >= |values(now)|
    ensures err == Eof || err == SizeMismatch ==> old(r.isRedisEOF) && r.Rest() == []
  {
    var dest := new byte[size];
    ghost var p, hi := r.Position(), r.Position() + |r.buffer|;
    ghost var v := if r.Rest() != [] then values(k) else values(now);
    k' := if r.Rest() != [] then k else now;
    var n;
    n, err := r.Read(dest, redis);
    piece := dest[..n];
    if old(r.Rest()) == [] && err == None {
      RangeIsPiece(v, p, hi);
    }
    if err == None {
      PieceSplit(piece, r.Rest(), v, p);
    }
  }

  /** `out` has been read from position `p` on: it is a patchwork, and so is what is buffered. */
  ghost predicate Reading(r: StreamReader, values: Values, out: bytes, origin: seq<nat>, last: nat, p: nat)
    reads r
  {
    && r.Valid() && r.Position() == p + |out|
    && (r.Rest() != [] ==> Buffered(r, values, last))
    && Patchwork(out, p, values, origin, last)
  }

  /** One read extends the patchwork, or is the last one. */
  method ReadMore(r: StreamReader, size: nat, redis: Redis, out: bytes,
                  ghost values: Values, ghost origin: seq<nat>, ghost last: nat, ghost p: nat, ghost now: nat)
    returns (out': bytes, err: ReadError, ghost origin': seq<nat>, ghost last': nat)
    requires Reading(r, values, out, origin, last, p)
    requires size > 0 && last <= now && Answers(redis, values(now))
    modifies r
    ensures Reading(r, values, out', origin', last', p) && last' <= now
    ensures out <= out' && r.delivered == old(r.delivered) + out'[|out|..]
    ensures |out'| > |out| ==> p + |out'| <= |values(last')|
    ensures err == Eof ==> |r.delivered| == r.expectedPayloadSize
    ensures err == SizeMismatch ==> |r.delivered| != r.expectedPayloadSize
    ensures err == None && out' == out ==> !old(r.isRedisEOF) && r.isRedisEOF
    ensures old(r.isRedisEOF) ==> r.isRedisEOF
    ensures err == Unreachable ==> !Up(redis)
    ensures r.isRedisEOF && !old(r.isRedisEOF) && err != Unreachable ==> r.Position() + |r.Rest()| >= |values(now)|
    ensures err == Eof || err == SizeMismatch ==> old(r.isRedisEOF) && r.Rest() == []
    ensures old(r.isRedisEOF) ==> r.Position() + |r.Rest()| == old(r.Position() + |r.Rest()|)
  {
    var piece;
    ghost var k;
    piece, err, k := ReadPiece(r, size, redis, values, last, now);
    PatchMore(out, p, values, origin, last, piece, k);
    out', origin', last' := out + piece, origin + seq(|piece|, _ => k), k;
  }

  /** Reads until an error or the end, with a buffer of `sizes(i) > 0` bytes for the i-th read,
      before which the key holds `values(i)`.  What arrives is a patchwork of these values in all
      cases, as long as announced if the plain end is reported; and if the value stays the same,
      it is the rest of it. */
  method ReadToEnd(r: StreamReader, moments: Moments, sizes: nat -> nat, ghost values: Values, ghost bound: nat)
    returns (out: bytes, err: ReadError, ghost origin: seq<nat>, ghost last: nat)
    requires r.Valid() && r.Rest() == [] && !r.isRedisEOF && r.Position() <= bound
    requires forall i :: sizes(i) > 0
    requires Tells(moments, values, bound)
    modifies r
    ensures err != None
    ensures err == Eof ==> |old(r.delivered)| + |out| == r.expectedPayloadSize
    ensures Patchwork(out, old(r.Position()), values, origin, last)
    ensures old(r.Position()) <= |values(0)| && Constant(moments, values, values(0)) ==>
              && out == values(0)[old(r.Position())..]
              && err == (if |old(r.delivered)| + |out| == r.expectedPayloadSize then Eof else SizeMismatch)
  {
    out, err, origin, last := [], None, [], 0;
    ghost var p, v := r.Position(), values(0);
    ghost var same := p <= |v| && Constant(moments, values, v);
    var i := 0;
    while err == None
      invariant Reading(r, values, out, origin, last, p) && last <= i
      invariant |r.delivered| == |old(r.delivered)| + |out| && p + |out| <= bound
      invariant err == Eof ==> |r.delivered| == r.expectedPayloadSize
      invariant err == SizeMismatch ==> |r.delivered| != r.expectedPayloadSize
      invariant same && r.isRedisEOF ==> r.Position() + |r.Rest()| >= |v|
      invariant same && err != None ==> err != Unreachable && r.isRedisEOF && r.Rest() == []
      decreases err == None, bound - p - |out|, !r.isRedisEOF
    {
      assert Answers(moments(i), values(i));
      assert same ==> values(i) == v && Up(moments(i));
      out, err, origin, last := ReadMore(r, sizes(i), moments(i), out, values, origin, last, p, i);
      assert |values(last)| <= bound;
      i := i + 1;
    }
    if same {
      PatchConstant(out, p, values, origin, last, v);
    }
  }

  /** A patchwork of one value, or nothing, is a piece of it. */
  lemma PatchConstant(out: bytes, start: nat, values: Values, origin: seq<nat>, last: nat, v: bytes)
    requires Patchwork(out, start, values, origin, last) && start <= |v|
    requires forall i :: 0 <= i <= last ==> values(i) == v || values(i) == []
    ensures out <= v[start..]
  {
    forall j | 0 <= j < |out| ensures At(v, start + j, out[j]) {
      assert At(values(origin[j]), start + j, out[j]);
    }
    if out != [] {
      assert At(v, start + (|out| - 1), out[|out| - 1]);
    }
  }

  /** `GETRANGE` on a key that holds `v`. */
  function Server(v: bytes): Redis {
    (lo: nat, hi: nat) => Data(GetRange(v, lo, hi))
  }

  /** An overwrite by a value of the same length goes unnoticed: a client that has read the first
      range of `v` when the key changes to `w` gets the rest of `w`, and the plain end. */
  method ReadAcrossOverwrite(v: bytes, w: bytes, offset: nat) returns (out: bytes, err: ReadError)
    requires |v| == |w| > offset + BUFFER_SIZE + 1
    ensures err == Eof && out == v[offset..offset + BUFFER_SIZE + 1] + w[offset + BUFFER_SIZE + 1..]
  {
    var r := new StreamReader(offset, |v| - offset);
    var dest := new byte[BUFFER_SIZE + 1];
    var n;
    n, err := r.Read(dest, Server(v));
    assert GetRange(v, offset, offset + BUFFER_SIZE) == v[offset..offset + BUFFER_SIZE + 1];
    var rest;
    ghost var origin, last;
    rest, err, origin, last := ReadToEnd(r, i => Server(w), i => 1, i => w, |w|);
    out := dest[..n] + rest;
  }

  // ---------- The whole of Get ----------

  const SECOND: int := 1_000_000_000
  const MIN_TTL_FOR_STREAMING: int := 15 * SECOND

  datatype Served =
    | Miss
    | Failed
    | Panicked
    | Answer(meta: Metadata, payload: bytes)
    | Stream(meta: Metadata, reader: StreamReader)

  /** A reader that is about to read from `offset` on. */
  ghost predicate Unread(r: StreamReader, offset: nat)
    reads r
  {
    r.Valid() && r.start == offset && r.delivered == [] && r.Rest() == [] && !r.isRedisEOF
  }

  /** `v` is what a writer stores for the payload, and its header fits the first range read. */
  ghost predicate Holds(v: bytes, m: Metadata, payload: bytes) {
    Announced(m, payload) && v == Stored(m, payload) && |EncodeMetadata(m)| <= FIRST_FETCH + 1
  }

  /** `readResultsAboveLimit`: the stream itself, or, if the value may expire soon, its copy. */
  method ReadResultsAboveLimit(offset: nat, meta: Metadata, ttl: int, fileOk: bool, moments: Moments, sizes: nat -> nat,
                               ghost values: Values, ghost bound: nat)
    returns (s: Served, ghost origin: seq<nat>, ghost last: nat)
    requires offset <= bound && Tells(moments, values, bound)
    requires forall i :: sizes(i) > 0
    ensures s.Stream? <==> ttl > 15_000_000_000
    ensures s.Stream? ==>
              fresh(s.reader) && s.meta == meta && Unread(s.reader, offset) && s.reader.expectedPayloadSize == meta.length
    ensures s.Answer? || s.Stream? || s.Failed?
    ensures s.Answer? ==> s.meta == meta && |s.payload| == meta.length && Patchwork(s.payload, offset, values, origin, last)
    ensures fileOk && Constant(moments, values, values(0)) && 0 <= meta.length == |values(0)| - offset ==> !s.Failed?
  {
    origin, last := [], 0;
    var reader := new StreamReader(offset, meta.length);
    if ttl > MIN_TTL_FOR_STREAMING {
      return Stream(meta, reader), origin, last;
    }
    if !fileOk {
      return Failed, origin, last;
    }
    var copy, err;
    copy, err, origin, last := ReadToEnd(reader, moments, sizes, values, bound);
    s := if err == Eof then Answer(meta, copy) else Failed;
  }

  /** `s` answers for a key that held `v`, the value of the payload, at first: the whole
      answer is a patchwork as long as the payload, and a stream is about to deliver one. */
  ghost predicate Serves(s: Served, v: bytes, m: Metadata, payload: bytes, values: Values, origin: seq<nat>, last: nat) {
    match s
    case Answer(meta, data) =>
      meta == m && |data| == |payload| <= |v| && Patchwork(data, |v| - |payload|, values, origin, last)
    case Stream(meta, _) => meta == m
    case Panicked => false
    case _ => true
  }

  /** The values from the next moment on. */
  function Later<T>(f: nat -> T): nat -> T {
    (i: nat) => f(i + 1)
  }

  lemma LaterPatch(out: bytes, start: nat, values: Values, origin: seq<nat>, last: nat)
    requires Patchwork(out, start, Later(values), origin, last)
    ensures Patchwork(out, start, values, seq(|origin|, i requires 0 <= i < |origin| => origin[i] + 1), last + 1)
  {
    var origin' := seq(|origin|, i requires 0 <= i < |origin| => origin[i] + 1);
    forall j | 0 <= j < |out| ensures At(values(origin'[j]), start + j, out[j]) {
      assert At(Later(values)(origin[j]), start + j, out[j]);
    }
  }

  lemma FirstPatch(v: bytes, payload: bytes, values: Values)
    requires |payload| <= |v| && payload == v[|v| - |payload|..] && values(0) == v
    ensures Patchwork(payload, |v| - |payload|, values, seq(|payload|, _ => 0), 0)
  {
    var origin: seq<nat> := seq(|payload|, _ => 0);
    forall j | 0 <= j < |payload| ensures At(values(origin[j]), |v| - |payload| + j, payload[j]) {
    }
  }

  /** What is made of the first range `b`: an error, the bytes behind the header, or, if more is
      announced than was read, a stream or its copy. */
  ghost predicate Follows(b: bytes, ttl: int, s: Served) {
    match Decide(b)
    case Missing => false
    case CorruptValue => s == Failed
    case Crash => s == Panicked
    case Whole(meta, data) => s == Answer(meta, data)
    case Streamed(meta, offset) =>
      if ttl > MIN_TTL_FOR_STREAMING then s.Stream? && s.meta == meta && Starts(s.reader, offset, meta.length)
      else s == Failed || (s.Answer? && s.meta == meta && |s.payload| == meta.length)
  }

  /** The reader starts behind a header of `offset` bytes and expects `size` bytes. */
  ghost predicate Starts(r: StreamReader, offset: nat, size: int) {
    r.start == offset && r.expectedPayloadSize == size
  }

  /** Nothing is served unless a whole header was read, and then with its metadata. */
  lemma ServedHasHeader(b: bytes, ttl: int, s: Served)
    requires Follows(b, ttl, s) && (s.Answer? || s.Stream?)
    ensures Int64(s.meta.length) && EncodeMetadata(s.meta) <= b
    ensures s.Answer? && Decide(b).Whole? ==> b == EncodeMetadata(s.meta) + s.payload
  {
    DecodedIsEncoded(b);
    var n := DecodeMetadata(b).size;
    assert b == b[..n] + b[n..];
  }

  /** A first range that ends inside a header is answered with an error. */
  lemma CutHeaderFails(b: bytes, ttl: int, s: Served, m: Metadata)
    requires Follows(b, ttl, s) && Encodable(m) && b < EncodeMetadata(m)
    ensures s == Failed
  {
    MetadataPrefixFails(m, |b|);
    assert b == EncodeMetadata(m)[..|b|];
  }

  /** `v` is what a writer stores, but its header is longer than the first range. */
  ghost predicate TooLong(v: bytes, m: Metadata, payload: bytes) {
    Announced(m, payload) && v == Stored(m, payload) && |EncodeMetadata(m)| > FIRST_FETCH + 1
  }

  /** Nothing but a whole header in the first range leads to an answer. */
  lemma HeaderDecides(b: bytes, v: bytes, ttl: int, s: Served, m: Metadata, payload: bytes)
    requires Follows(b, ttl, s) && b == GetRange(v, 0, FIRST_FETCH)
    ensures Encodable(m) && b < EncodeMetadata(m) ==> s == Failed
    ensures TooLong(v, m, payload) ==> s == Failed
    ensures s.Answer? || s.Stream? ==> Int64(s.meta.length) && EncodeMetadata(s.meta) <= b
  {
    if Encodable(m) && b < EncodeMetadata(m) {
      CutHeaderFails(b, ttl, s, m);
    }
    if TooLong(v, m, payload) {
      DecideLongHeader(m, payload);
    }
    if s.Answer? || s.Stream? {
      ServedHasHeader(b, ttl, s);
    }
  }

  /** The first range `b` read from `v` leads to the payload, or to a stream of it. */
  ghost predicate Promising(b: bytes, v: bytes, m: Metadata, payload: bytes) {
    && m.length == |payload| <= |v| && v[|v| - |payload|..] == payload
    && (Decide(b) == Whole(m, payload) || Decide(b) == Streamed(m, |v| - |payload|))
  }

  lemma DecideHeld(v: bytes, m: Metadata, payload: bytes)
    requires Holds(v, m, payload)
    ensures Promising(GetRange(v, 0, FIRST_FETCH), v, m, payload)
  {
    DecideStored(m, payload);
  }

  /** Answers a client that got the bytes `b` with the first range. */
  method Respond(b: bytes, ttl: int, fileOk: bool, moments: Moments, sizes: nat -> nat,
                 ghost values: Values, ghost bound: nat, ghost m: Metadata, ghost payload: bytes)
    returns (s: Served, ghost origin: seq<nat>, ghost last: nat)
    requires forall i :: sizes(i) > 0
    requires Tells(moments, values, bound) && 0 < |b| <= bound
    ensures !s.Miss? && Follows(b, ttl, s)
    ensures Promising(b, values(0), m, payload) ==> Serves(s, values(0), m, payload, values, origin, last)
    ensures Promising(b, values(0), m, payload) && s.Stream? ==>
              && fresh(s.reader) && s.reader.expectedPayloadSize == |payload|
              && Unread(s.reader, |values(0)| - |payload|)
    ensures Promising(b, values(0), m, payload) && Constant(moments, values, values(0)) && fileOk ==> s.Answer? || s.Stream?
  {
    origin, last := [], 0;
    match Decide(b) {
      case Missing =>
        assert false;
      case CorruptValue => s := Failed;
      case Crash => s := Panicked;
      case Whole(meta, data) =>
        s := Answer(meta, data);
        if Promising(b, values(0), m, payload) {
          origin := seq(|payload|, _ => 0);
          FirstPatch(values(0), payload, values);
        }
      case Streamed(meta, offset) =>
        assert Promising(b, values(0), m, payload) ==> meta == m && offset == |values(0)| - |payload|;
        s, origin, last := ReadLater(offset, meta, ttl, fileOk, moments, sizes, values, bound);
    }
  }

  /** Answers a client.  The first range is read at moment 0, copies are made from moment 1 on. */
  method Get(moments: Moments, ttl: int, ttlOk: bool, fileOk: bool, sizes: nat -> nat,
             ghost values: Values, ghost bound: nat, ghost m: Metadata, ghost payload: bytes)
    returns (s: Served, ghost origin: seq<nat>, ghost last: nat)
    requires forall i :: sizes(i) > 0
    requires Tells(moments, values, bound)
    ensures s.Miss? <==> Bytes(moments(0)(0, 102_400)) == []
    ensures var b := Bytes(moments(0)(0, 102_400));
            && (b != [] ==> if ttlOk then Follows(b, ttl, s) else s == Failed)
            && (b != [] && Encodable(m) && b < EncodeMetadata(m) ==> s == Failed)
            && (b != [] && TooLong(values(0), m, payload) ==> s == Failed)
            && (s.Answer? || s.Stream? ==> Int64(s.meta.length) && EncodeMetadata(s.meta) <= b)
    ensures Holds(values(0), m, payload) ==> Serves(s, values(0), m, payload, values, origin, last)
    ensures Holds(values(0), m, payload) && s.Stream? ==>
              && fresh(s.reader) && s.reader.expectedPayloadSize == |payload|
              && Unread(s.reader, |values(0)| - |payload|)
    ensures Holds(values(0), m, payload) && Constant(moments, values, values(0)) && ttlOk && fileOk ==> s.Answer? || s.Stream?
  {
    origin, last := [], 0;
    var first := moments(0)(0, FIRST_FETCH);
    assert Answers(moments(0), values(0)) && |values(0)| <= bound;
    assert Constant(moments, values, values(0)) ==> Up(moments(0));
    if Holds(values(0), m, payload) {
      DecideHeld(values(0), m, payload);
    }
    if !first.Data? || first.data == [] {
      return Miss, origin, last;
    }
    if !ttlOk {
      return Failed, origin, last;
    }
    s, origin, last := Respond(first.data, ttl, fileOk, moments, sizes, values, bound, m, payload);
    HeaderDecides(first.data, values(0), ttl, s, m, payload);
  }

  /** `readResultsAboveLimit` after the first range read. */
  method ReadLater(offset: nat, meta: Metadata, ttl: int, fileOk: bool, moments: Moments, sizes: nat -> nat,
                   ghost values: Values, ghost bound: nat)
    returns (s: Served, ghost origin: seq<nat>, ghost last: nat)
    requires offset <= bound && Tells(moments, values, bound)
    requires forall i :: sizes(i) > 0
    ensures s.Stream? <==> ttl > 15_000_000_000
    ensures s.Stream? ==>
              fresh(s.reader) && s.meta == meta && Unread(s.reader, offset) && s.reader.expectedPayloadSize == meta.length
    ensures s.Answer? || s.Stream? || s.Failed?
    ensures s.Answer? ==> s.meta == meta && |s.payload| == meta.length && Patchwork(s.payload, offset, values, origin, last)
    ensures fileOk && Constant(moments, values, values(0)) && 0 <= meta.length == |values(0)| - offset ==> !s.Failed?
  {
    assert Tells(Later(moments), Later(values), bound);
    assert Constant(moments, values, values(0)) ==> Constant(Later(moments), Later(values), Later(values)(0));
    s, origin, last := ReadResultsAboveLimit(offset, meta, ttl, fileOk, Later(moments), sizes, Later(values), bound);
    if s.Answer? {
      LaterPatch(s.payload, offset, values, origin, last);
      origin := seq(|origin|, i requires 0 <= i < |origin| => origin[i] + 1);
    }
    last := last + 1;
  }

  /** Reads a stream to its end, from moment 1 on. */
  method DrainStream(r: StreamReader, moments: Moments, sizes: nat -> nat, ghost values: Values, ghost bound: nat)
    returns (data: bytes, ok: bool, ghost origin: seq<nat>, ghost last: nat)
    requires forall i :: sizes(i) > 0
    requires Tells(moments, values, bound) && Unread(r, r.start) && r.start <= bound
    modifies r
    ensures ok ==> |data| == r.expectedPayloadSize
    ensures Patchwork(data, r.start, values, origin, last)
    ensures Constant(moments, values, values(0)) && r.start <= |values(0)| && r.expectedPayloadSize == |values(0)| - r.start ==> ok
  {
    assert Tells(Later(moments), Later(values), bound);
    assert Constant(moments, values, values(0)) ==> Constant(Later(moments), Later(values), Later(values)(0));
    var err;
    data, err, origin, last := ReadToEnd(r, Later(moments), sizes, Later(values), bound);
    LaterPatch(data, r.start, values, origin, last);
    origin, last := seq(|origin|, i requires 0 <= i < |origin| => origin[i] + 1), last + 1;
    ok := err == Eof;
  }

  /** `received` is a patchwork that ends where the first value does. */
  ghost predicate Patched(received: bytes, values: Values, origin: seq<nat>, last: nat) {
    |received| <= |values(0)| && Patchwork(received, |values(0)| - |received|, values, origin, last)
  }

  /** Reads the rest of what `Get` served, if that is a stream. */
  method Drain(s: Served, moments: Moments, sizes: nat -> nat, ghost values: Values, ghost bound: nat,
               ghost m: Metadata, ghost payload: bytes, ghost origin: seq<nat>, ghost last: nat)
    returns (ok: bool, meta: Metadata, received: bytes, ghost origin': seq<nat>, ghost last': nat)
    requires forall i :: sizes(i) > 0
    requires Tells(moments, values, bound) && |payload| <= |values(0)|
    requires Serves(s, values(0), m, payload, values, origin, last)
    requires s.Stream? ==> s.reader.expectedPayloadSize == |payload| && Unread(s.reader, |values(0)| - |payload|)
    modifies if s.Stream? then {s.reader} else {}
    ensures ok ==> meta == m && |received| == |payload|
    ensures ok ==> Patched(received, values, origin', last')
    ensures Constant(moments, values, values(0)) && (s.Answer? || s.Stream?) ==> ok
  {
    ok, meta, received, origin', last' := false, Metadata(0, [], []), [], origin, last;
    match s {
      case Answer(mt, data) => ok, meta, received := true, mt, data;
      case Stream(mt, reader) =>
        received, ok, origin', last' := DrainStream(reader, moments, sizes, values, bound);
        meta := mt;
      case _ =>
    }
  }

  /** `Get`, and reading what it serves. */
  method Receive(moments: Moments, ttl: int, ttlOk: bool, fileOk: bool, sizes: nat -> nat,
                 ghost values: Values, ghost bound: nat, ghost m: Metadata, ghost payload: bytes)
    returns (ok: bool, meta: Metadata, received: bytes, ghost origin: seq<nat>, ghost last: nat)
    requires forall i :: sizes(i) > 0
    requires Tells(moments, values, bound) && (values(0) != [] ==> Holds(values(0), m, payload))
    ensures ok ==> values(0) != [] && meta == m && |received| == |payload| && Patched(received, values, origin, last)
    ensures values(0) != [] && Constant(moments, values, values(0)) && ttlOk && fileOk ==> ok
  {
    ok, meta, received := false, Metadata(0, [], []), [];
    var s;
    s, origin, last := Get(moments, ttl, ttlOk, fileOk, sizes, values, bound, m, payload);
    assert Answers(moments(0), values(0));
    if !s.Miss? {
      ok, meta, received, origin, last := Drain(s, moments, sizes, values, bound, m, payload, origin, last);
    }
  }
}
