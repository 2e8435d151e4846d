/** The reader of ClickHouse's compressed stream: a sequence of frames, each with a checksum, a
    compression type, two sizes and a compressed block. */
module BlockStream {
  import opened Words

  const NONE_TYPE: byte := 0x02
  const LZ4_TYPE: byte := 0x82
  const ZSTD_TYPE: byte := 0x90
  const CHECKSUM: nat := 16
  const PREFIX: nat := 25

  // ---------- Codecs ----------

  /** On failure some bytes may be left in the reader's data. */
  datatype Decompressed = Good(data: bytes) | Bad(leftover: bytes)

  /** The two compression libraries.  LZ4 fills a buffer of the announced size. */
  datatype Codec = Codec(lz4: (bytes, nat) -> Decompressed, zstd: bytes -> Decompressed)

  function Decompress(codec: Codec, kind: byte, block: bytes, size: nat): Decompressed {
    if kind == NONE_TYPE then Good(block)
    else if kind == LZ4_TYPE then codec.lz4(block, size)
    else if kind == ZSTD_TYPE then codec.zstd(block)
    else Bad(seq(size, _ => 0))
  }

  // ---------- Frames ----------

  function LittleEndian(n: u32): bytes {
    var n1 := n / 256;
    var n2 := n1 / 256;
    [n % 256, n1 % 256, n2 % 256, n2 / 256]
  }

  function FromLittleEndian(b: bytes): (n: u32)
    requires |b| == 4
    ensures n == b[0] + b[1] as int * 0x100 + b[2] as int * 0x10000 + b[3] as int * 0x1000000
  {
    var b0: int, b1: int, b2: int, b3: int := b[0], b[1], b[2], b[3];
    b0 + 256 * (b1 + 256 * (b2 + 256 * b3))
  }

  lemma LittleEndianRoundTrip(n: u32)
    ensures FromLittleEndian(LittleEndian(n)) == n
  {
  }

  lemma FourBytesRoundTrip(b: bytes)
    requires |b| == 4
    ensures LittleEndian(FromLittleEndian(b)) == b
  {
    var b0: int, b1: int, b2: int, b3: int := b[0], b[1], b[2], b[3];
    var m2 := b2 + 256 * b3;
    var m1 := b1 + 256 * m2;
    DivUnique(b0 + 256 * m1, 256, m1, b0);
    DivUnique(m1, 256, m2, b1);
    DivUnique(m2, 256, b3, b2);
  }

  datatype Frame = Frame(checksum: bytes, kind: byte, size: u32, block: bytes)

  predicate WellSized(f: Frame) {
    |f.checksum| == CHECKSUM && |f.block| < TWO32
  }

  /** The stored size counts the nine header bytes, in 32 bits. */
  function Encode(f: Frame): bytes
    requires WellSized(f)
  {
    f.checksum + [f.kind] + LittleEndian(Wrap32(|f.block| + 9)) + LittleEndian(f.size) + f.block
  }

  // ---------- What the rest of a source means ----------

  datatype Field = Checksum | Type | CompressedSize | DecompressedSize | Block

  /** `Cut` wraps the error of a read that ran out of bytes in the middle of a field, or, if not
      `partial`, before its first byte. */
  datatype Error = None | Eof | Cut(field: Field, partial: bool) | Undecodable(kind: byte)

  datatype Parsed = Stop(error: Error) | Found(frame: Frame, used: nat)

  function BlockLength(b: bytes): u32
    requires |b| == 4
  {
    Wrap32(FromLittleEndian(b) - 9)
  }

  function Parse(s: bytes): (p: Parsed)
    ensures p.Stop? ==> p.error.Eof? || p.error.Cut?
    ensures p.Stop? && p.error.Eof? <==> s == []
    ensures p.Found? ==> PREFIX <= p.used <= |s| && WellSized(p.frame)
  {
    if |s| < CHECKSUM then Stop(if s == [] then Eof else Cut(Checksum, true))
    else if |s| < CHECKSUM + 1 then Stop(Cut(Type, false))
    else if |s| < CHECKSUM + 5 then Stop(Cut(CompressedSize, |s| > CHECKSUM + 1))
    else if |s| < PREFIX then Stop(Cut(DecompressedSize, |s| > CHECKSUM + 5))
    else
      var n := BlockLength(s[17..21]);
      if |s| < PREFIX + n then Stop(Cut(Block, |s| > PREFIX))
      else Found(Frame(s[..CHECKSUM], s[CHECKSUM], FromLittleEndian(s[21..PREFIX]), s[PREFIX..PREFIX + n]), PREFIX + n)
  }

  /** The bytes a source delivers, and how it ends. */
  datatype Outcome = Outcome(data: bytes, end: Error)

  function Decode(codec: Codec, s: bytes): Outcome
    decreases |s|
  {
    match Parse(s)
    case Stop(e) => Outcome([], e)
    case Found(f, used) =>
      match Decompress(codec, f.kind, f.block, f.size)
      case Bad(_) => Outcome([], Undecodable(f.kind))
      case Good(d) =>
        var rest := Decode(codec, s[used..]);
        Outcome(d + rest.data, rest.end)
  }

  // ---------- Frames and their bytes ----------

  lemma SizeRoundTrip(n: u32)
    ensures BlockLength(LittleEndian(Wrap32(n + 9))) == n
  {
    LittleEndianRoundTrip(Wrap32(n + 9));
  }

  lemma WrapBack(x: u32)
    ensures Wrap32(Wrap32(x - 9) + 9) == x
  {
  }

  lemma SizeBack(b: bytes)
    requires |b| == 4
    ensures LittleEndian(Wrap32(BlockLength(b) + 9)) == b
  {
    assert Wrap32(BlockLength(b) + 9) == FromLittleEndian(b) by {
      WrapBack(FromLittleEndian(b));
    }
    FourBytesRoundTrip(b);
  }

  /** An encoded frame is found in front of anything. */
  lemma FrameRoundTrip(f: Frame, rest: bytes)
    requires WellSized(f)
    ensures Parse(Encode(f) + rest) == Found(f, |Encode(f)|)
  {
    var s := Encode(f) + rest;
    assert s[..CHECKSUM] == f.checksum;
    assert s[17..21] == LittleEndian(Wrap32(|f.block| + 9));
    assert s[21..PREFIX] == LittleEndian(f.size);
    SizeRoundTrip(|f.block|);
    LittleEndianRoundTrip(f.size);
    assert s[PREFIX..PREFIX + |f.block|] == f.block;
  }

  /** A frame that is found consists of the bytes that encode it. */
  lemma FoundIsEncoded(s: bytes)
    requires Parse(s).Found?
    ensures Encode(Parse(s).frame) == s[..Parse(s).used]
  {
    var used := Parse(s).used;
    SizeBack(s[17..21]);
    FourBytesRoundTrip(s[21..PREFIX]);
    assert s[..used] == s[..CHECKSUM] + [s[CHECKSUM]] + s[17..21] + s[21..PREFIX] + s[PREFIX..used];
  }

  /** A frame that is cut anywhere but at its beginning does not look like the end. */
  lemma CutIsNoticed(f: Frame, k: nat)
    requires WellSized(f) && 0 < k < |Encode(f)|
    ensures Parse(Encode(f)[..k]).Stop? && Parse(Encode(f)[..k]).error.Cut?
  {
    var s := Encode(f)[..k];
    match Parse(s)
    case Stop(_) =>
    case Found(g, used) =>
      FoundIsEncoded(s);
      FrameRoundTrip(g, Encode(f)[used..]);
      assert Encode(g) + Encode(f)[used..] == Encode(f) + [];
      FrameRoundTrip(f, []);
  }

  // ---------- Whole streams ----------

  predicate Sound(codec: Codec, f: Frame) {
    WellSized(f) && Decompress(codec, f.kind, f.block, f.size).Good?
  }

  predicate AllSound(codec: Codec, fs: seq<Frame>) {
    forall i :: 0 <= i < |fs| ==> Sound(codec, fs[i])
  }

  function EncodeAll(codec: Codec, fs: seq<Frame>): bytes
    requires AllSound(codec, fs)
  {
    if fs == [] then [] else Encode(fs[0]) + EncodeAll(codec, fs[1..])
  }

  function DataOf(codec: Codec, fs: seq<Frame>): bytes
    requires AllSound(codec, fs)
  {
    if fs == [] then [] else Decompress(codec, fs[0].kind, fs[0].block, fs[0].size).data + DataOf(codec, fs[1..])
  }

  /** A frame in front of a source puts its data in front of what the source delivers. */
  lemma DecodeStep(codec: Codec, f: Frame, rest: bytes)
    requires Sound(codec, f)
    ensures Decode(codec, Encode(f) + rest)
            == Outcome(Decompress(codec, f.kind, f.block, f.size).data + Decode(codec, rest).data, Decode(codec, rest).end)
  {
    FrameRoundTrip(f, rest);
    assert (Encode(f) + rest)[|Encode(f)|..] == rest;
  }

  /** Whole frames in front of a source deliver their data in order. */
  lemma {:induction false} FramesFirst(codec: Codec, fs: seq<Frame>, rest: bytes)
    requires AllSound(codec, fs)
    ensures Decode(codec, EncodeAll(codec, fs) + rest)
            == Outcome(DataOf(codec, fs) + Decode(codec, rest).data, Decode(codec, rest).end)
  {
    if fs == [] {
      assert EncodeAll(codec, fs) + rest == rest;
    } else {
      FramesFirst(codec, fs[1..], rest);
      DecodeStep(codec, fs[0], EncodeAll(codec, fs[1..]) + rest);
      Assoc(Encode(fs[0]), EncodeAll(codec, fs[1..]), rest);
      Assoc(Decompress(codec, fs[0].kind, fs[0].block, fs[0].size).data, DataOf(codec, fs[1..]), Decode(codec, rest).data);
    }
  }

  lemma Assoc(a: bytes, b: bytes, c: bytes)
    ensures a + b + c == a + (b + c)
  {
  }

  /** Whole frames deliver their data in order, followed by the plain end. */
  lemma StreamRoundTrip(codec: Codec, fs: seq<Frame>)
    requires AllSound(codec, fs)
    ensures Decode(codec, EncodeAll(codec, fs)) == Outcome(DataOf(codec, fs), Eof)
  {
    FramesFirst(codec, fs, []);
    assert EncodeAll(codec, fs) + [] == EncodeAll(codec, fs);
  }

  /** The plain end is reported for nothing else. */
  lemma {:induction false} EofMeansWhole(codec: Codec, s: bytes) returns (fs: seq<Frame>)
    requires Decode(codec, s).end.Eof?
    ensures AllSound(codec, fs) && EncodeAll(codec, fs) == s
    decreases |s|
  {
    match Parse(s)
    case Stop(_) => fs := [];
    case Found(f, used) =>
      var rest := EofMeansWhole(codec, s[used..]);
      FoundIsEncoded(s);
      fs := [f] + rest;
      PutInFront(codec, f, rest, s, used);
  }

  lemma PutInFront(codec: Codec, f: Frame, rest: seq<Frame>, s: bytes, used: nat)
    requires Sound(codec, f) && AllSound(codec, rest) && used <= |s|
    requires Encode(f) == s[..used] && EncodeAll(codec, rest) == s[used..]
    ensures AllSound(codec, [f] + rest) && EncodeAll(codec, [f] + rest) == s
  {
    assert ([f] + rest)[1..] == rest;
    assert s == s[..used] + s[used..];
  }

  /** A stream that is cut delivers the data of the frames before the cut, and the plain end is
      reported if and only if the cut is between two frames. */
  lemma CutStream(codec: Codec, fs: seq<Frame>, f: Frame, k: nat)
    requires AllSound(codec, fs) && WellSized(f) && k < |Encode(f)|
    ensures var o := Decode(codec, EncodeAll(codec, fs) + Encode(f)[..k]);
            && o.data == DataOf(codec, fs)
            && (o.end.Eof? <==> k == 0)
            && (o.end.Cut? <==> k > 0)
  {
    FramesFirst(codec, fs, Encode(f)[..k]);
    if k > 0 {
      CutIsNoticed(f, k);
    }
  }

  /** Every cut is of that form. */
  lemma {:induction false} CutSomewhere(codec: Codec, fs: seq<Frame>, k: nat) returns (j: nat, d: nat)
    requires AllSound(codec, fs) && k < |EncodeAll(codec, fs)|
    ensures j < |fs| && d < |Encode(fs[j])|
    ensures EncodeAll(codec, fs)[..k] == EncodeAll(codec, fs[..j]) + Encode(fs[j])[..d]
    decreases |fs|
  {
    var e, tail := Encode(fs[0]), EncodeAll(codec, fs[1..]);
    if k < |e| {
      j, d := 0, k;
      assert (e + tail)[..k] == [] + e[..k];
    } else {
      j, d := CutSomewhere(codec, fs[1..], k - |e|);
      CutLater(codec, fs, j);
      assert (e + tail)[..k] == e + tail[..k - |e|];
      j := j + 1;
    }
  }

  lemma CutLater(codec: Codec, fs: seq<Frame>, j: nat)
    requires AllSound(codec, fs) && j + 1 < |fs|
    ensures EncodeAll(codec, fs[..j + 1]) == Encode(fs[0]) + EncodeAll(codec, fs[1..][..j])
  {
    assert fs[..j + 1][1..] == fs[1..][..j];
  }

  // ---------- What the kinds of frames deliver ----------

  /** The contents of a frame: stored as they are, or compressed by one of the libraries. */
  datatype Item = Plain(block: bytes) | Lz4(block: bytes, size: u32) | Zstd(block: bytes, size: u32)

  /** The frame of an item, with its type byte; for a plain one the size is not looked at. */
  function FrameOf(item: Item, checksum: bytes, unused: u32): Frame {
    match item
    case Plain(block) => Frame(checksum, 0x02, unused, block)
    case Lz4(block, size) => Frame(checksum, 0x82, size, block)
    case Zstd(block, size) => Frame(checksum, 0x90, size, block)
  }

  function Contents(codec: Codec, item: Item): Decompressed {
    match item
    case Plain(block) => Good(block)
    case Lz4(block, size) => codec.lz4(block, size)
    case Zstd(block, _) => codec.zstd(block)
  }

  /** Each item goes to its own library. */
  lemma RightLibrary(codec: Codec, item: Item, checksum: bytes, unused: u32)
    ensures var f := FrameOf(item, checksum, unused);
            Decompress(codec, f.kind, f.block, f.size) == Contents(codec, item)
  {
  }

  predicate Packable(codec: Codec, item: Item) {
    |item.block| < TWO32 && Contents(codec, item).Good?
  }

  /** The bytes of items with the checksums `sums` and the unused sizes `unused`. */
  function Pack(codec: Codec, items: seq<Item>, sums: nat -> bytes, unused: nat -> u32): bytes
    requires forall i :: 0 <= i < |items| ==> Packable(codec, items[i])
    requires forall i :: |sums(i)| == CHECKSUM
  {
    if items == [] then []
    else
      var n := |items| - 1;
      assert Packable(codec, items[n]);
      Pack(codec, items[..n], sums, unused) + Encode(FrameOf(items[n], sums(n), unused(n)))
  }

  function Unpacked(codec: Codec, items: seq<Item>): bytes
    requires forall i :: 0 <= i < |items| ==> Packable(codec, items[i])
  {
    if items == [] then []
    else
      var n := |items| - 1;
      assert Packable(codec, items[n]);
      Unpacked(codec, items[..n]) + Contents(codec, items[n]).data
  }

  lemma {:induction false} PackFirst(codec: Codec, items: seq<Item>, sums: nat -> bytes, unused: nat -> u32, rest: bytes)
    requires forall i :: 0 <= i < |items| ==> Packable(codec, items[i])
    requires forall i :: |sums(i)| == CHECKSUM
    ensures Decode(codec, Pack(codec, items, sums, unused) + rest)
            == Outcome(Unpacked(codec, items) + Decode(codec, rest).data, Decode(codec, rest).end)
  {
    if items == [] {
      assert Pack(codec, items, sums, unused) + rest == rest;
    } else {
      var n := |items| - 1;
      var f, before := FrameOf(items[n], sums(n), unused(n)), items[..n];
      assert Packable(codec, items[n]);
      RightLibrary(codec, items[n], sums(n), unused(n));
      PackFirst(codec, before, sums, unused, Encode(f) + rest);
      DecodeStep(codec, f, rest);
      Assoc(Pack(codec, before, sums, unused), Encode(f), rest);
      Assoc(Unpacked(codec, before), Contents(codec, items[n]).data, Decode(codec, rest).data);
    }
  }

  /** A stream of plain, LZ4 and ZSTD frames delivers the plain blocks and what the libraries make
      of the others, in order, and the plain end. */
  lemma ItemsRoundTrip(codec: Codec, items: seq<Item>, sums: nat -> bytes, unused: nat -> u32)
    requires forall i :: 0 <= i < |items| ==> Packable(codec, items[i])
    requires forall i :: |sums(i)| == CHECKSUM
    ensures Decode(codec, Pack(codec, items, sums, unused)) == Outcome(Unpacked(codec, items), Eof)
  {
    PackFirst(codec, items, sums, unused, []);
    assert Pack(codec, items, sums, unused) + [] == Pack(codec, items, sums, unused);
  }

  /** Where the parts of a frame are: after the checksum the type, the size of the block with its
      nine header bytes and the decompressed size, both with the least significant byte first. */
  lemma FrameLayout(f: Frame)
    requires WellSized(f) && |f.block| + 9 < TWO32
    ensures var b, n, m := Encode(f), |f.block| + 9, f.size;
            && b[..16] == f.checksum && b[16] == f.kind && b[25..] == f.block
            && b[17] == n % 0x100 && b[18] == n / 0x100 % 0x100 && b[19] == n / 0x100 / 0x100 % 0x100
            && b[20] == n / 0x100 / 0x100 / 0x100
            && b[21] == m % 0x100 && b[22] == m / 0x100 % 0x100 && b[23] == m / 0x100 / 0x100 % 0x100
            && b[24] == m / 0x100 / 0x100 / 0x100
  {
    var n := |f.block| + 9;
    assert Wrap32(n) == n;
    var b := Encode(f);
    assert b[17..21] == LittleEndian(n) && b[21..25] == LittleEndian(f.size);
    assert b[17] == b[17..21][0] && b[18] == b[17..21][1] && b[19] == b[17..21][2] && b[20] == b[17..21][3];
    assert b[21] == b[21..25][0] && b[22] == b[21..25][1] && b[23] == b[21..25][2] && b[24] == b[21..25][3];
  }

  // ---------- The reader ----------

  /** The source `s` starts with a frame that cannot be decompressed; `leftover` is what that
      leaves in the reader's data, and `s'` what follows the frame. */
  predicate Spoilt(codec: Codec, s: bytes, s': bytes, leftover: bytes) {
    match Parse(s)
    case Stop(_) => false
    case Found(f, used) => s' == s[used..] && Decompress(codec, f.kind, f.block, f.size) == Bad(leftover)
  }

  /** How `io.ReadFull` ends: the buffer is filled, nothing was left, or too little was left. */
  datatype Fill = Filled | Nothing | Partial

  class Reader {
    const src: bytes
    const codec: Codec
    var pos: nat
    var data: bytes

    ghost predicate Valid()
      reads this
    {
      pos <= |src|
    }

    /** Everything that is still to be handed out, and how it ends. */
    ghost function Pending(): Outcome
      requires Valid()
      reads this
    {
      var o := Decode(codec, src[pos..]);
      Outcome(data + o.data, o.end)
    }

    constructor (src: bytes, codec: Codec)
      ensures Valid() && this.src == src && this.codec == codec
      ensures Pending() == Decode(codec, src)
    {
      this.src, this.codec, pos, data := src, codec, 0, [];
      new;
      assert this.src[0..] == src;
    }

    method ReadFull(n: nat) returns (b: bytes, fill: Fill)
      requires Valid()
      modifies this`pos
      ensures Valid()
      ensures fill == if n <= |src| - old(pos) then Filled else if old(pos) == |src| then Nothing else Partial
      ensures fill.Filled? ==> pos == old(pos) + n && b == src[old(pos)..pos]
      ensures !fill.Filled? ==> pos == |src|
    {
      if n <= |src| - pos {
        b, fill, pos := src[pos..pos + n], Filled, pos + n;
      } else {
        b, fill, pos := src[pos..], if pos == |src| then Nothing else Partial, |src|;
      }
    }

    method ReadUint32() returns (n: u32, fill: Fill)
      requires Valid()
      modifies this`pos
      ensures Valid()
      ensures fill == if 4 <= |src| - old(pos) then Filled else if old(pos) == |src| then Nothing else Partial
      ensures fill.Filled? ==> pos == old(pos) + 4 && n == FromLittleEndian(src[old(pos)..pos])
      ensures !fill.Filled? ==> pos == |src|
    {
      var b;
      b, fill := ReadFull(4);
      n := if fill.Filled? then FromLittleEndian(b) else 0;
    }

    /** Reads the checksum, the type and the sizes. */
    method ReadPrefix() returns (err: Error, kind: byte, length: u32, size: u32)
      requires Valid()
      modifies this`pos
      ensures Valid()
      ensures err.None? <==> PREFIX <= |src| - old(pos)
      ensures err.None? ==>
                && pos == old(pos) + PREFIX && kind == src[old(pos) + CHECKSUM]
                && length == BlockLength(src[old(pos) + 17..old(pos) + 21])
                && size == FromLittleEndian(src[old(pos) + 21..old(pos) + PREFIX])
      ensures !err.None? ==> pos == |src| && Parse(src[old(pos)..]) == Stop(err)
    {
      kind, length, size := 0, 0, 0;
      var b, fill := ReadFull(CHECKSUM);
      if !fill.Filled? {
        return if fill.Nothing? then Eof else Cut(Checksum, true), kind, length, size;
      }
      b, fill := ReadFull(1);
      if !fill.Filled? {
        return Cut(Type, fill.Partial?), kind, length, size;
      }
      kind := b[0];
      length, fill := ReadUint32();
      if !fill.Filled? {
        return Cut(CompressedSize, fill.Partial?), kind, length, size;
      }
      length := Wrap32(length - 9);
      size, fill := ReadUint32();
      if !fill.Filled? {
        return Cut(DecompressedSize, fill.Partial?), kind, length, size;
      }
      err := None;
    }

    /** Reads one frame, as `Parse` describes, and decompresses it. */
    method ReadNextBlock() returns (err: Error)
      requires Valid()
      modifies this
      ensures Valid()
      ensures match Parse(src[old(pos)..])
              case Stop(e) => err == e && pos == |src| && data == old(data)
              case Found(f, used) =>
                && pos == old(pos) + used
                && match Decompress(codec, f.kind, f.block, f.size)
                   case Good(d) => err == None && data == d
                   case Bad(leftover) => err == Undecodable(f.kind) && data == leftover
      ensures err == None ==>
                var f := Parse(src[old(pos)..]).frame;
                || (f.kind == 0x02 && data == f.block)
                || (f.kind == 0x82 && codec.lz4(f.block, f.size) == Good(data))
                || (f.kind == 0x90 && codec.zstd(f.block) == Good(data))
    {
      ghost var s := src[pos..];
      var kind, length, size;
      err, kind, length, size := ReadPrefix();
      if err != None {
        return;
      }
      assert s[17..21] == src[old(pos) + 17..old(pos) + 21];
      assert s[21..PREFIX] == src[old(pos) + 21..old(pos) + PREFIX];
      var block, fill := ReadFull(length);
      if !fill.Filled? {
        return Cut(Block, fill.Partial?);
      }
      assert s[PREFIX..PREFIX + length] == block;
      var result := Decompress(codec, kind, block, size);
      match result {
        case Good(d) => data := d;
        case Bad(leftover) => data, err := leftover, Undecodable(kind);
      }
    }

    method CopyOut(dest: array<byte>) returns (n: nat)
      modifies this`data, dest
      ensures n == (if dest.Length < |old(data)| then dest.Length else |old(data)|)
      ensures old(data) == dest[..n] + data && dest[n..] == old(dest[n..])
    {
      n := if dest.Length < |data| then dest.Length else |data|;
      forall i | 0 <= i < n {
        dest[i] := data[i];
      }
      assert dest[..n] == data[..n];
      data := data[n..];
    }

    /** Hands out decompressed bytes, moving on to the next frame when there are none. */
    method Read(dest: array<byte>) returns (n: nat, err: Error)
      requires Valid()
      modifies this, dest
      ensures Valid() && n <= dest.Length && dest[n..] == old(dest[n..])
      ensures err == None ==> old(Pending()) == Outcome(dest[..n] + Pending().data, Pending().end)
      ensures err != None ==> n == 0 && old(data) == [] && old(Pending()) == Outcome([], err)
      ensures old(data) != [] ==> pos == old(pos) && old(data) == dest[..n] + data && (dest.Length > 0 ==> n > 0)
      ensures err == None && old(data) == [] ==> pos > old(pos)
      ensures err.Eof? || err.Cut? ==> pos == |src| && data == []
      ensures err.Undecodable? ==> Spoilt(codec, src[old(pos)..], src[pos..], data)
    {
      err := None;
      if |data| == 0 {
        err := ReadNextBlock();
        assert src[old(pos)..][pos - old(pos)..] == src[pos..];
        if err != None {
          return 0, err;
        }
      }
      ghost var before, later := data, Decode(codec, src[pos..]).data;
      n := CopyOut(dest);
      assert before + later == dest[..n] + (data + later);
    }
  }

  /** Reading to the end delivers exactly what the source means and its end, whatever the sizes
      of the buffers. */
  method ReadToEnd(r: Reader, sizes: nat -> nat) returns (out: bytes, err: Error)
    requires r.Valid()
    requires forall i :: sizes(i) > 0
    modifies r
    ensures err != None && old(r.Pending()) == Outcome(out, err)
  {
    out, err := [], None;
    var i := 0;
    while err == None
      invariant r.Valid()
      invariant err == None ==> old(r.Pending()) == Outcome(out + r.Pending().data, r.Pending().end)
      invariant err != None ==> old(r.Pending()) == Outcome(out, err)
      decreases err == None, |r.src| - r.pos, |r.data|
    {
      var dest := new byte[sizes(i)];
      var n;
      ghost var soFar := out;
      n, err := r.Read(dest);
      out := out + dest[..n];
      Assoc(soFar, dest[..n], r.Pending().data);
      i := i + 1;
    }
  }

  // ---------- Reading on after an error ----------

  /** Reads once more after a read that failed.  After the plain end or a cut frame the plain end
      is reported.  After a frame that could not be decompressed its leftover is handed out as if it
      were data; only if there is none, reading goes on with the next frame. */
  method ReadOn(r: Reader, first: array<byte>, second: array<byte>)
    returns (err: Error, n: nat, next: Error, ghost leftover: bytes, ghost rest: bytes)
    requires r.Valid() && first != second
    modifies r, first, second
    ensures r.Valid() && n <= second.Length
    ensures err.Eof? || err.Cut? ==> next == Eof && n == 0
    ensures err.Undecodable? ==> Spoilt(r.codec, r.src[old(r.pos)..], rest, leftover)
    ensures err.Undecodable? && leftover != [] ==>
              next == None && second[..n] + r.data == leftover && (second.Length > 0 ==> n > 0)
    ensures err.Undecodable? && leftover == [] ==> Goes(r.codec, rest, second[..n], next, r.data, r.src[r.pos..])
  {
    n, next := 0, None;
    var k;
    k, err := r.Read(first);
    leftover, rest := r.data, r.src[r.pos..];
    if err != None {
      n, next := ReadOnce(r, second);
    }
  }

  /** Reading the source `s` has handed out `out` and left `data` and the source `s'`, or ended. */
  predicate Goes(codec: Codec, s: bytes, out: bytes, err: Error, data: bytes, s': bytes) {
    var o, o' := Decode(codec, s), Decode(codec, s');
    if err == None then o == Outcome(out + (data + o'.data), o'.end) else out == [] && o == Outcome([], err)
  }

  /** One read, in terms of the source. */
  method ReadOnce(r: Reader, dest: array<byte>) returns (n: nat, err: Error)
    requires r.Valid()
    modifies r, dest
    ensures r.Valid() && n <= dest.Length
    ensures old(r.data) != [] ==> err == None && old(r.data) == dest[..n] + r.data && (dest.Length > 0 ==> n > 0)
    ensures old(r.data) == [] ==> Goes(r.codec, r.src[old(r.pos)..], dest[..n], err, r.data, r.src[r.pos..])
    ensures old(r.data) == [] && old(r.pos) == |r.src| ==> err == Eof
  {
    ghost var s := r.src[r.pos..];
    assert [] + Decode(r.codec, s).data == Decode(r.codec, s).data;
    n, err := r.Read(dest);
  }

  /** A frame of unknown type leaves as many zero bytes as it announces, whatever it holds. */
  lemma UnknownTypeLeavesZeros(codec: Codec, f: Frame, rest: bytes)
    requires WellSized(f) && f.kind !in {NONE_TYPE, LZ4_TYPE, ZSTD_TYPE}
    ensures Spoilt(codec, Encode(f) + rest, rest, seq(f.size, _ => 0))
    ensures Decode(codec, Encode(f) + rest) == Outcome([], Undecodable(f.kind))
  {
    FrameRoundTrip(f, rest);
    assert (Encode(f) + rest)[|Encode(f)|..] == rest;
  }
}
