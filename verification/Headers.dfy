/** Big-endian numbers and decimal numerals, the parts the two header formats are made of. */
module Numerals {
  import opened Words

  function Pow256(k: nat): nat {
    if k == 0 then 1 else 256 * Pow256(k - 1)
  }

  /** The `k` low bytes of `n`, most significant first. */
  function BigEndian(n: nat, k: nat): (b: bytes)
    ensures |b| == k
  {
    if k == 0 then [] else BigEndian(n / 256, k - 1) + [n % 256]
  }

  function FromBigEndian(b: bytes): nat {
    if b == [] then 0 else FromBigEndian(b[..|b| - 1]) * 256 + b[|b| - 1]
  }

  lemma {:induction false} BigEndianRoundTrip(n: nat, k: nat)
    requires n < Pow256(k)
    ensures FromBigEndian(BigEndian(n, k)) == n
  {
    if k > 0 {
      BigEndianRoundTrip(n / 256, k - 1);
      assert BigEndian(n, k)[..k - 1] == BigEndian(n / 256, k - 1);
    }
  }

  lemma Widths()
    ensures Pow256(4) == TWO32 && Pow256(8) == 0x1_0000_0000_0000_0000
  {
    assert Pow256(2) == 256 * 256;
    assert Pow256(4) == 256 * 256 * Pow256(2);
    assert Pow256(6) == 256 * 256 * Pow256(4);
    assert Pow256(8) == 256 * 256 * Pow256(6);
  }

  lemma {:induction false} FromBigEndianBound(b: bytes)
    ensures FromBigEndian(b) < Pow256(|b|)
  {
    if b != [] {
      FromBigEndianBound(b[..|b| - 1]);
    }
  }

  /** The shifts of a 32-bit word, truncated to a byte, the highest first. */
  function Shifts(n: nat): bytes {
    [n / 0x1000000 % 256, n / 0x10000 % 256, n / 0x100 % 256, n % 256]
  }

  /** The bytes of a 32-bit word are its shifts. */
  lemma FourBytes(n: u32)
    ensures BigEndian(n, 4) == Shifts(n)
  {
    assert BigEndian(n / 0x1000000, 1) == [n / 0x1000000 % 256];
    assert n / 0x10000 / 256 == n / 0x1000000;
    assert BigEndian(n / 0x10000, 2) == [n / 0x1000000 % 256, n / 0x10000 % 256];
    assert n / 256 / 256 == n / 0x10000;
    assert BigEndian(n / 256, 3) == [n / 0x1000000 % 256, n / 0x10000 % 256, n / 256 % 256];
  }

  /** Any bytes are those of the number they stand for. */
  lemma {:induction false} BigEndianBack(b: bytes)
    ensures BigEndian(FromBigEndian(b), |b|) == b
  {
    if b != [] {
      var n := |b| - 1;
      BigEndianBack(b[..n]);
      DivUnique(FromBigEndian(b), 256, FromBigEndian(b[..n]), b[n]);
    }
  }

  /** The number that eight bytes stand for, the most significant one first. */
  lemma EightBytes(b: bytes)
    requires |b| == 8
    ensures FromBigEndian(b) ==
              b[0] as int * 0x100_0000_0000_0000 + b[1] as int * 0x1_0000_0000_0000 + b[2] as int * 0x100_0000_0000 +
              b[3] as int * 0x1_0000_0000 + b[4] as int * 0x100_0000 + b[5] as int * 0x1_0000 + b[6] as int * 0x100 + b[7]
  {
    Prefixes(b);
    assert FromBigEndian(b[..0]) == 0;
    assert b[..8] == b;
  }

  lemma Prefixes(b: bytes)
    ensures forall k :: 0 < k <= |b| ==> FromBigEndian(b[..k]) == FromBigEndian(b[..k - 1]) * 256 + b[k - 1]
  {
    forall k | 0 < k <= |b| ensures FromBigEndian(b[..k]) == FromBigEndian(b[..k - 1]) * 256 + b[k - 1] {
      assert b[..k][..k - 1] == b[..k - 1];
    }
  }

  // ---------- Decimal numerals ----------

  const MIN64: int := -0x8000_0000_0000_0000
  const MAX64: int := 0x7FFF_FFFF_FFFF_FFFF

  const MINUS: byte := 45
  const PLUS: byte := 43
  const ZERO: byte := 48

  predicate IsDigit(c: byte) {
    48 <= c <= 57
  }

  /** The digits of `n`, without leading zeros. */
  function Digits(n: nat): (b: bytes)
    ensures |b| > 0 && forall i :: 0 <= i < |b| ==> IsDigit(b[i])
  {
    if n < 10 then [ZERO + n] else Digits(n / 10) + [ZERO + n % 10]
  }

  /** `fmt.Sprintf("%d", n)` */
  function Format(n: int): bytes {
    if n < 0 then [MINUS] + Digits(-n) else Digits(n)
  }

  function DigitsValue(b: bytes): nat
    requires forall i :: 0 <= i < |b| ==> IsDigit(b[i])
  {
    if b == [] then 0
    else
      assert IsDigit(b[|b| - 1]);
      DigitsValue(b[..|b| - 1]) * 10 + (b[|b| - 1] - ZERO)
  }

  datatype Parsed = Number(n: int) | NotANumber

  predicate AllDigits(b: bytes) {
    b != [] && forall i :: 0 <= i < |b| ==> IsDigit(b[i])
  }

  /** `strconv.Atoi` on a 64-bit platform. */
  function Parse(b: bytes): Parsed {
    var signed := b != [] && (b[0] == MINUS || b[0] == PLUS);
    var digits := if signed then b[1..] else b;
    if !AllDigits(digits) then NotANumber
    else
      var n: int := DigitsValue(digits);
      var v := if signed && b[0] == MINUS then -n else n;
      if MIN64 <= v <= MAX64 then Number(v) else NotANumber
  }

  /** The last digit is that of the units, and numbers of two or more digits start with another
      digit than zero. */
  lemma {:induction false} FormatLayout(n: int)
    ensures var b, m := Format(n), if n < 0 then -n else n;
            && b[|b| - 1] == ZERO + m % 10 && (n < 0 <==> b[0] == MINUS)
            && (m >= 10 ==> b[if n < 0 then 1 else 0] != ZERO && b[..|b| - 1] == Format(if n < 0 then -(m / 10) else m / 10))
    decreases if n < 0 then -n else n
  {
    var m: nat := if n < 0 then -n else n;
    if m >= 10 {
      FormatLayout(m / 10);
    }
  }

  lemma {:induction false} DigitsRoundTrip(n: nat)
    ensures DigitsValue(Digits(n)) == n
  {
    if n >= 10 {
      DigitsRoundTrip(n / 10);
      var d := Digits(n);
      assert d[..|d| - 1] == Digits(n / 10);
    }
  }

  lemma FormatRoundTrip(n: int)
    requires MIN64 <= n <= MAX64
    ensures Parse(Format(n)) == Number(n)
  {
    if n < 0 {
      DigitsRoundTrip(-n);
      assert Format(n)[1..] == Digits(-n);
    } else {
      DigitsRoundTrip(n);
    }
  }

  function Zeros(k: nat): bytes {
    seq(k, _ => 48)
  }

  /** Every string of digits is the canonical one of its value, behind zeros. */
  lemma {:induction false} DigitsBack(d: bytes) returns (k: nat)
    requires AllDigits(d)
    ensures d == Zeros(k) + Digits(DigitsValue(d))
  {
    var n := |d| - 1;
    var p, c := d[..n], d[n];
    assert d == p + [c] && IsDigit(c);
    if p == [] {
      k := 0;
    } else {
      k := DigitsBack(p);
      LastDigit(DigitsValue(p), c - ZERO);
      if DigitsValue(p) == 0 {
        k := k + 1;
      }
    }
  }

  lemma LastDigit(v: nat, x: nat)
    requires x < 10
    ensures Digits(v * 10 + x) == if v == 0 then [ZERO + x] else Digits(v) + [ZERO + x]
  {
  }

  /** What parses to a number is its decimal form, perhaps with leading zeros or a sign that is
      not needed. */
  lemma ParseBack(b: bytes) returns (sign: bytes, k: nat)
    requires Parse(b).Number?
    ensures var n := Parse(b).n;
            && b == sign + Zeros(k) + Digits(if n < 0 then -n else n)
            && (sign == [] || sign == [43] || sign == [45]) && (n != 0 ==> (n < 0 <==> sign == [45]))
  {
    var signed := b[0] == MINUS || b[0] == PLUS;
    var m := if signed then 1 else 0;
    sign := b[..m];
    var d := b[m..];
    k := DigitsBack(d);
    Regroup(b, sign, d, Zeros(k), Digits(DigitsValue(d)));
  }

  lemma Regroup(b: bytes, sign: bytes, d: bytes, zeros: bytes, rest: bytes)
    requires |sign| <= |b| && sign == b[..|sign|] && d == b[|sign|..] && d == zeros + rest
    ensures b == sign + zeros + rest
  {
    assert b == sign + d;
  }

  lemma {:induction false} DigitsShort(n: nat, k: nat, bound: nat)
    requires k > 0 && n < bound && bound == Pow10(k)
    ensures |Digits(n)| <= k
  {
    if n >= 10 {
      DigitsShort(n / 10, k - 1, Pow10(k - 1));
    }
  }

  function Pow10(k: nat): nat {
    if k == 0 then 1 else 10 * Pow10(k - 1)
  }

  /** A formatted 64-bit number is short. */
  lemma FormatShort(n: int)
    requires MIN64 <= n <= MAX64
    ensures |Format(n)| <= 20
  {
    assert Pow10(5) == 100000;
    assert Pow10(10) == 100000 * Pow10(5);
    assert Pow10(15) == 100000 * Pow10(10);
    assert Pow10(19) == 10000 * Pow10(15);
    DigitsShort(if n < 0 then -n else n, 19, Pow10(19));
  }
}

/** The binary header that precedes a payload in Redis. */
module RedisHeader {
  import opened Words
  import opened Numerals

  /** `length` is an int64. */
  datatype Metadata = Metadata(length: int, ctype: bytes, encoding: bytes)

  const TWO64: int := 0x1_0000_0000_0000_0000

  datatype Decoded<T> = Ok(value: T, size: nat) | Corrupt | Panic

  function EncodeString(s: bytes): bytes {
    BigEndian(Wrap32(|s|), 4) + s
  }

  /** `4 + n` is computed in 32 bits, and slicing with a wrapped bound panics. */
  function DecodeString(b: bytes): (d: Decoded<bytes>)
    ensures d.Ok? ==> 4 <= d.size <= |b|
  {
    if |b| < 4 then Corrupt
    else
      var end := Wrap32(4 + FromBigEndian(b[..4]));
      if |b| < end then Corrupt
      else if end < 4 then Panic
      else Ok(b[4..end], end)
  }

  /** The 64 bits of a signed length. */
  function Unsigned64(x: int): int {
    if x < 0 then x + TWO64 else x
  }

  function Signed64(x: int): int {
    if x <= MAX64 then x else x - TWO64
  }

  predicate Int64(x: int) {
    MIN64 <= x <= MAX64
  }

  function EncodeMetadata(m: Metadata): bytes
    requires Int64(m.length)
  {
    BigEndian(Unsigned64(m.length), 8) + EncodeString(m.ctype) + EncodeString(m.encoding)
  }

  function DecodeMetadata(b: bytes): Decoded<Metadata> {
    if |b| < 8 then Corrupt
    else
      match DecodeString(b[8..])
      case Corrupt => Corrupt
      case Panic => Panic
      case Ok(ctype, n1) =>
        match DecodeString(b[8 + n1..])
        case Corrupt => Corrupt
        case Panic => Panic
        case Ok(encoding, n2) => Ok(Metadata(Signed64(FromBigEndian(b[..8])), ctype, encoding), 8 + n1 + n2)
  }

  /** Strings whose length plus four still fits 32 bits. */
  predicate Short(s: bytes) {
    |s| < TWO32 - 4
  }

  predicate Encodable(m: Metadata) {
    Int64(m.length) && Short(m.ctype) && Short(m.encoding)
  }

  lemma StringRoundTrip(s: bytes, rest: bytes)
    requires Short(s)
    ensures |EncodeString(s)| == 4 + |s|
    ensures DecodeString(EncodeString(s) + rest) == Ok(s, 4 + |s|)
  {
    var b := EncodeString(s) + rest;
    WrapSmall(|s|);
    assert b[..4] == BigEndian(|s|, 4);
    assert FromBigEndian(b[..4]) == |s| by {
      Widths();
      BigEndianRoundTrip(|s|, 4);
    }
    WrapSmall(4 + |s|);
    assert b[4..4 + |s|] == s;
  }

  lemma StringPrefixFails(s: bytes, k: nat)
    requires Short(s) && k < 4 + |s|
    ensures |EncodeString(s)| == 4 + |s|
    ensures DecodeString(EncodeString(s)[..k]) == Corrupt
  {
    if k >= 4 {
      var b := EncodeString(s)[..k];
      WrapSmall(|s|);
      WrapSmall(4 + |s|);
      assert b[..4] == BigEndian(|s|, 4);
      assert FromBigEndian(b[..4]) == |s| by {
        Widths();
        BigEndianRoundTrip(|s|, 4);
      }
    }
  }

  lemma LengthRoundTrip(x: int)
    requires Int64(x)
    ensures Signed64(FromBigEndian(BigEndian(Unsigned64(x), 8))) == x
  {
    Widths();
    BigEndianRoundTrip(Unsigned64(x), 8);
  }

  /** Decoding a header followed by anything gives the metadata and the offset of the rest. */
  lemma MetadataRoundTrip(m: Metadata, rest: bytes)
    requires Encodable(m)
    ensures DecodeMetadata(EncodeMetadata(m) + rest) == Ok(m, |EncodeMetadata(m)|)
  {
    var l, t, e := BigEndian(Unsigned64(m.length), 8), EncodeString(m.ctype), EncodeString(m.encoding);
    ThreeParts(l, t, e, rest);
    LengthRoundTrip(m.length);
    StringRoundTrip(m.ctype, e + rest);
    StringRoundTrip(m.encoding, rest);
  }

  lemma ThreeParts(l: bytes, t: bytes, e: bytes, rest: bytes)
    requires |l| == 8
    ensures var b := l + t + e + rest;
            b[..8] == l && b[8..] == t + (e + rest) && b[8 + |t|..] == e + rest
  {
  }

  /** A truncated header is reported, wherever it is cut. */
  lemma MetadataPrefixFails(m: Metadata, k: nat)
    requires Encodable(m) && k < |EncodeMetadata(m)|
    ensures DecodeMetadata(EncodeMetadata(m)[..k]) == Corrupt
  {
    var b := EncodeMetadata(m)[..k];
    var t, e := EncodeString(m.ctype), EncodeString(m.encoding);
    if 8 <= k < 8 + |t| {
      assert b[8..] == t[..k - 8];
      StringPrefixFails(m.ctype, k - 8);
    } else if 8 + |t| <= k {
      assert b == BigEndian(Unsigned64(m.length), 8) + t + e[..k - 8 - |t|];
      assert b[8..] == t + e[..k - 8 - |t|];
      StringRoundTrip(m.ctype, e[..k - 8 - |t|]);
      assert b[8 + |t|..] == e[..k - 8 - |t|];
      StringPrefixFails(m.encoding, k - 8 - |t|);
    }
  }

  /** Where the parts of a header are: the length in eight bytes and the two strings, each after its
      own length in four bytes, all with the most significant byte first. */
  lemma MetadataLayout(m: Metadata)
    requires Encodable(m)
    ensures var b := EncodeMetadata(m);
            && |b| >= 8 && FromBigEndian(b[..8]) == Unsigned64(m.length)
            && b == b[..8] + (Shifts(|m.ctype|) + m.ctype) + (Shifts(|m.encoding|) + m.encoding)
  {
    var l := BigEndian(Unsigned64(m.length), 8);
    StringShape(m.ctype);
    StringShape(m.encoding);
    FirstEight(l, EncodeString(m.ctype), EncodeString(m.encoding));
    assert FromBigEndian(l) == Unsigned64(m.length) by {
      Widths();
      BigEndianRoundTrip(Unsigned64(m.length), 8);
    }
  }

  lemma FirstEight(l: bytes, t: bytes, e: bytes)
    requires |l| == 8
    ensures (l + t + e)[..8] == l
  {
  }

  lemma StringShape(s: bytes)
    requires |s| < TWO32
    ensures EncodeString(s) == Shifts(|s|) + s
  {
    WrapSmall(|s|);
    FourBytes(|s|);
  }

  lemma StringBack(b: bytes)
    requires DecodeString(b).Ok?
    ensures EncodeString(DecodeString(b).value) == b[..DecodeString(b).size]
  {
    var n, end := FromBigEndian(b[..4]), DecodeString(b).size;
    Widths();
    FromBigEndianBound(b[..4]);
    BigEndianBack(b[..4]);
    assert end == 4 + n;
    assert b[..end] == b[..4] + b[4..end];
  }

  lemma LengthBack(b: bytes)
    requires |b| == 8
    ensures var n := Signed64(FromBigEndian(b)); Int64(n) && BigEndian(Unsigned64(n), 8) == b
  {
    Widths();
    FromBigEndianBound(b);
    BigEndianBack(b);
  }

  /** Whatever is decoded was encoded: the bytes before the offset are the header of the metadata. */
  lemma DecodedIsEncoded(b: bytes)
    requires DecodeMetadata(b).Ok?
    ensures var m, n := DecodeMetadata(b).value, DecodeMetadata(b).size;
            n <= |b| && Int64(m.length) && EncodeMetadata(m) == b[..n]
  {
    var t := DecodeString(b[8..]);
    StringBack(b[8..]);
    StringBack(b[8 + t.size..]);
    LengthBack(b[..8]);
    var n := DecodeMetadata(b).size;
    assert b[..n] == b[..8] + b[8..][..t.size] + b[8 + t.size..][..n - 8 - t.size];
  }

  /** No header is a prefix of another one. */
  lemma PrefixFree(m: Metadata, m': Metadata)
    requires Encodable(m) && Encodable(m') && EncodeMetadata(m) <= EncodeMetadata(m')
    ensures m == m'
  {
    var rest := EncodeMetadata(m')[|EncodeMetadata(m)|..];
    assert EncodeMetadata(m') == EncodeMetadata(m) + rest;
    MetadataRoundTrip(m, rest);
    MetadataRoundTrip(m', []);
    assert EncodeMetadata(m') + [] == EncodeMetadata(m');
  }

  /** Bytes that were never encoded can make the decoder panic: exactly when a length field
      names one of the four largest 32-bit numbers. */
  lemma StringPanics(b: bytes)
    ensures DecodeString(b) == Panic <==> |b| >= 4 && FromBigEndian(b[..4]) >= TWO32 - 4
  {
    if |b| >= 4 {
      Widths();
      FromBigEndianBound(b[..4]);
    }
  }
}

/** The header at the beginning of a cached file. */
module FileHeader {
  import opened Words
  import opened Numerals
  import opened RedisHeader

  datatype Read<T> = Got(value: T, rest: bytes) | Failure

  function WriteHeader(s: bytes): bytes {
    BigEndian(Wrap32(|s|), 4) + s
  }

  lemma StringShape(s: bytes)
    requires |s| < TWO32
    ensures WriteHeader(s) == Shifts(|s|) + s
  {
    WrapSmall(|s|);
    FourBytes(|s|);
  }

  /** `io.ReadFull` for `n` bytes. */
  function ReadFull(src: bytes, n: nat): Read<bytes> {
    if |src| < n then Failure else Got(src[..n], src[n..])
  }

  function ReadHeader(src: bytes): Read<bytes> {
    match ReadFull(src, 4)
    case Failure => Failure
    case Got(b, rest) => ReadFull(rest, FromBigEndian(b))
  }

  function EncodeHeader(m: Metadata): bytes {
    WriteHeader(m.ctype) + WriteHeader(m.encoding) + WriteHeader(Format(m.length))
  }

  /** A length that is not a number is logged and taken as zero. */
  function DecodeHeader(src: bytes): Read<Metadata> {
    match ReadHeader(src)
    case Failure => Failure
    case Got(ctype, r1) =>
      match ReadHeader(r1)
      case Failure => Failure
      case Got(encoding, r2) =>
        match ReadHeader(r2)
        case Failure => Failure
        case Got(length, r3) =>
          var n := match Parse(length) case Number(v) => v case NotANumber => 0;
          Got(Metadata(n, ctype, encoding), r3)
  }

  /** Where the parts of a file header are: content type, encoding and the decimal length, each after
      its own length in four bytes. */
  lemma FileLayout(m: Metadata)
    requires Writable(m)
    ensures var t, e, l := m.ctype, m.encoding, Format(m.length);
            EncodeHeader(m) == (Shifts(|t|) + t) + (Shifts(|e|) + e) + (Shifts(|l|) + l)
  {
    FormatShort(m.length);
    StringShape(m.ctype);
    StringShape(m.encoding);
    StringShape(Format(m.length));
  }

  predicate Writable(m: Metadata) {
    Int64(m.length) && |m.ctype| < TWO32 && |m.encoding| < TWO32
  }

  lemma HeaderRoundTrip(s: bytes, rest: bytes)
    requires |s| < TWO32
    ensures |WriteHeader(s)| == 4 + |s| && ReadHeader(WriteHeader(s) + rest) == Got(s, rest)
  {
    var b := WriteHeader(s) + rest;
    WrapSmall(|s|);
    assert b[..4] == BigEndian(|s|, 4);
    assert b[4..] == s + rest;
    assert FromBigEndian(b[..4]) == |s| by {
      Widths();
      BigEndianRoundTrip(|s|, 4);
    }
    assert (s + rest)[..|s|] == s && (s + rest)[|s|..] == rest;
  }

  lemma HeaderPrefixFails(s: bytes, k: nat)
    requires |s| < TWO32 && k < |WriteHeader(s)|
    ensures ReadHeader(WriteHeader(s)[..k]) == Failure
  {
    if k >= 4 {
      var b := WriteHeader(s)[..k];
      WrapSmall(|s|);
      assert b[..4] == BigEndian(|s|, 4);
      assert FromBigEndian(b[..4]) == |s| by {
        Widths();
        BigEndianRoundTrip(|s|, 4);
      }
    }
  }

  /** Decoding a written header gives the metadata back and leaves exactly the payload. */
  lemma FileHeaderRoundTrip(m: Metadata, rest: bytes)
    requires Writable(m)
    ensures DecodeHeader(EncodeHeader(m) + rest) == Got(m, rest)
  {
    FormatShort(m.length);
    FormatRoundTrip(m.length);
    AnyThirdString(m.ctype, m.encoding, Format(m.length), rest);
  }

  /** Whatever strings were written, they are read back; a third one that is not a number counts
      as a length of zero. */
  lemma AnyThirdString(ctype: bytes, encoding: bytes, length: bytes, rest: bytes)
    requires |ctype| < TWO32 && |encoding| < TWO32 && |length| < TWO32
    ensures var n := if Parse(length).Number? then Parse(length).n else 0;
            DecodeHeader(WriteHeader(ctype) + WriteHeader(encoding) + WriteHeader(length) + rest)
            == Got(Metadata(n, ctype, encoding), rest)
  {
    var t, e, l := WriteHeader(ctype), WriteHeader(encoding), WriteHeader(length);
    assert t + e + l + rest == t + (e + (l + rest));
    HeaderRoundTrip(ctype, e + (l + rest));
    HeaderRoundTrip(encoding, l + rest);
    HeaderRoundTrip(length, rest);
  }

  /** A truncated header is reported, wherever it is cut. */
  lemma FileHeaderPrefixFails(m: Metadata, k: nat)
    requires Writable(m) && k < |EncodeHeader(m)|
    ensures DecodeHeader(EncodeHeader(m)[..k]) == Failure
  {
    var t, e, l := WriteHeader(m.ctype), WriteHeader(m.encoding), WriteHeader(Format(m.length));
    FormatShort(m.length);
    CutShape(t, e, l, k);
    if k < |t| {
      HeaderPrefixFails(m.ctype, k);
    } else if k < |t| + |e| {
      HeaderPrefixFails(m.encoding, k - |t|);
      BadEncodingFails(m, e[..k - |t|]);
    } else {
      HeaderPrefixFails(Format(m.length), k - |t| - |e|);
      BadLengthFails(m, l[..k - |t| - |e|]);
    }
  }

  lemma CutShape(t: bytes, e: bytes, l: bytes, k: nat)
    requires k < |t + e + l|
    ensures (t + e + l)[..k] ==
              if k < |t| then t[..k]
              else if k < |t| + |e| then t + e[..k - |t|]
              else t + (e + l[..k - |t| - |e|])
  {
  }

  lemma BadEncodingFails(m: Metadata, tail: bytes)
    requires Writable(m) && ReadHeader(tail) == Failure
    ensures DecodeHeader(WriteHeader(m.ctype) + tail) == Failure
  {
    HeaderRoundTrip(m.ctype, tail);
  }

  lemma BadLengthFails(m: Metadata, tail: bytes)
    requires Writable(m) && ReadHeader(tail) == Failure
    ensures DecodeHeader(WriteHeader(m.ctype) + (WriteHeader(m.encoding) + tail)) == Failure
  {
    HeaderRoundTrip(m.ctype, WriteHeader(m.encoding) + tail);
    HeaderRoundTrip(m.encoding, tail);
  }
}
