/** The three record formats of the hash data store: what each one looks like
    as bytes, the encoders that fill a fixed buffer, and the decoders. */
module HashDataRecords {
  import opened ByteStrings
  import Varint

  const MAX_LABEL_SIZE: nat := 10
  const TYPE1_MAX_SIZE: nat := 33
  const TYPE3_MAX_SIZE: nat := 12

  /** What put2 stores: the value clipped to 16 bits, low byte first. */
  function Clip2(n: nat): (r: nat)
    ensures r <= n && r <= 65535 && (r == n || r == 65535)
  {
    if n > 0xffff then 0xffff else n
  }

  function Clip4(n: nat): (r: nat)
    ensures r <= n && r <= 4294967295 && (r == n || r == 4294967295)
  {
    if n > 0xffff_ffff then 0xffff_ffff else n
  }

  function Put2(n: nat): (s: ByteString)
    ensures |s| == 2
  {
    [Clip2(n) % 0x100, Clip2(n) / 0x100]
  }

  function Put4(n: nat): (s: ByteString)
    ensures |s| == 4
  {
    [Clip4(n) % 0x100, Clip4(n) / 0x100 % 0x100, Clip4(n) / 0x1_0000 % 0x100, Clip4(n) / 0x100_0000]
  }

  /** get4 shifts the top byte as a signed int, so a set top bit smears over 64 bits. */
  function SignExtend(n: nat): (r: U64)
    requires n < TWO_TO_THE_32
  {
    if n < 0x8000_0000 then n else n + TWO_TO_THE_64 - TWO_TO_THE_32
  }

  function Get2(s: ByteString): nat
    requires |s| == 2
  {
    s[0] + 0x100 * (s[1] as int)
  }

  function Get4(s: ByteString): U64
    requires |s| == 4
  {
    SignExtend(s[0] + 0x100 * (s[1] as int) + 0x1_0000 * (s[2] as int) + 0x100_0000 * (s[3] as int))
  }

  lemma Get2OfPut2(n: nat)
    ensures Get2(Put2(n)) == Clip2(n)
  {
  }

  lemma Get4OfPut4(n: nat)
    ensures Get4(Put4(n)) == SignExtend(Clip4(n))
  {
    var m := Clip4(n);
    var a, b, c := m / 0x100, m / 0x1_0000, m / 0x100_0000;
    assert a / 0x100 == b && b / 0x100 == c;
  }

  /** A count survives the four stored bytes exactly when it is below 2^31, or is 2^64 - 1,
      which is clipped and sign-extended back. */
  lemma FourByteCountExact(n: U64)
    ensures Get4(Put4(n)) == n <==> n < 0x8000_0000 || n >= TWO_TO_THE_64 - 1
  {
    Get4OfPut4(n);
  }

  // ---------- the formats ----------

  function Padding(sourceId: nat): ByteString {
    (if sourceId < 0x4000 then [0] else []) + (if sourceId < 0x80 then [0] else [])
  }

  function Type1(kEntropy: nat, blockLabel: ByteString, sourceId: nat, subCount: nat): ByteString {
    Varint.Encoding(sourceId) + Put2(subCount) + Varint.Encoding(kEntropy)
    + Varint.Encoding(|blockLabel|) + blockLabel + Padding(sourceId)
  }

  function Type2(kEntropy: nat, blockLabel: ByteString, count: nat): ByteString {
    [0] + Varint.Encoding(kEntropy) + Varint.Encoding(|blockLabel|) + blockLabel + Put4(count)
  }

  function Type3(sourceId: nat, subCount: nat): ByteString {
    Varint.Encoding(sourceId) + Put2(subCount)
  }

  /** The layouts, field by field: the numbers are base 128, the counts low byte first, and a
      one-byte source id is padded by two bytes. */
  lemma LayoutExamples()
    ensures Type1(1000, [98, 108], 1, 0x203) == [1, 3, 2, 232, 7, 2, 98, 108, 0, 0]
    ensures Type1(1000, [98, 108], 300, 0x203) == [172, 2, 3, 2, 232, 7, 2, 98, 108, 0]
    ensures Type2(1000, [98, 108], 0x504_0302) == [0, 232, 7, 2, 98, 108, 2, 3, 4, 5]
    ensures Type3(300, 70000) == [172, 2, 255, 255]
  {
    assert Varint.Encoding(1000) == [232, 7] && Varint.Encoding(300) == [172, 2];
  }

  /** The padding makes room: a Type 2 record always fits in its Type 1 slot, and
      both fit the encoder's buffer. */
  lemma Type2FitsType1(kEntropy: U64, blockLabel: ByteString, sourceId: U64, subCount: nat, count: nat)
    requires |blockLabel| <= 10
    ensures |Type2(kEntropy, blockLabel, count)| <= |Type1(kEntropy, blockLabel, sourceId, subCount)| <= 33
  {
    Varint.EncodingLength(kEntropy);
    Varint.EncodingLength(|blockLabel|);
    Varint.EncodingLength(sourceId);
  }

  /** Without padding the slot would be too small for one- and two-byte source ids. */
  lemma PaddingIsNeeded(kEntropy: U64, blockLabel: ByteString, sourceId: U64, subCount: nat, count: nat)
    ensures sourceId >= 0x4000 <==>
              |Type2(kEntropy, blockLabel, count)|
              <= |Type1(kEntropy, blockLabel, sourceId, subCount)| - |Padding(sourceId)|
  {
    Varint.EncodingLength(sourceId);
  }

  lemma Type3Size(sourceId: U64, subCount: nat)
    ensures |Type3(sourceId, subCount)| == |Varint.Encoding(sourceId)| + 2 <= 12
  {
    Varint.EncodingLength(sourceId);
  }

  /** The first byte tells Type 2 from Types 1 and 3. */
  lemma FirstByte(kEntropy: nat, blockLabel: ByteString, sourceId: nat, subCount: nat, count: nat)
    requires sourceId > 0
    ensures Type1(kEntropy, blockLabel, sourceId, subCount)[0] != 0
    ensures Type3(sourceId, subCount)[0] != 0
    ensures Type2(kEntropy, blockLabel, count)[0] == 0
  {
    Varint.FirstByteNonZero(sourceId);
  }

  /** The order of two Type 3 records is decided by their source ids alone. */
  lemma Type3Order(s: nat, c: nat, c': nat, t: nat, d: nat)
    requires s != t
    ensures LexLess(Type3(s, c), Type3(t, d)) <==> LexLess(Type3(s, c'), Type3(t, d))
    ensures LexLess(Type3(t, d), Type3(s, c)) <==> LexLess(Type3(t, d), Type3(s, c'))
  {
    var k := Varint.FirstDifference(s, t);
    var a, a', b := Type3(s, c), Type3(s, c'), Type3(t, d);
    assert a[..k] == Varint.Encoding(s)[..k] == a'[..k];
    assert b[..k] == Varint.Encoding(t)[..k];
    LexByFirstDifference(a, b, k);
    LexByFirstDifference(a', b, k);
    LexByFirstDifference(b, a, k);
    LexByFirstDifference(b, a', k);
  }

  lemma Type3Injective(s: nat, c: nat, t: nat, d: nat)
    requires Type3(s, c) == Type3(t, d)
    ensures s == t && Clip2(c) == Clip2(d)
  {
    Varint.PrefixFree(s, t, Put2(c), Put2(d));
    Get2OfPut2(c);
    Get2OfPut2(d);
  }

  // ---------- encoders: fill a buffer through an advancing pointer ----------

  method WritePut2(n: nat, buf: array<Byte>, p: nat) returns (q: nat)
    requires p + 2 <= buf.Length
    modifies buf
    ensures q == p + 2 && buf[..q] == old(buf[..p]) + Put2(n)
  {
    var m := if n > 0xffff then 0xffff else n;
    buf[p] := m % 0x100;
    buf[p + 1] := m / 0x100;
    q := p + 2;
  }

  method WritePut4(n: nat, buf: array<Byte>, p: nat) returns (q: nat)
    requires p + 4 <= buf.Length
    modifies buf
    ensures q == p + 4 && buf[..q] == old(buf[..p]) + Put4(n)
  {
    var m := if n > 0xffff_ffff then 0xffff_ffff else n;
    buf[p] := m % 0x100;
    buf[p + 1] := m / 0x100 % 0x100;
    buf[p + 2] := m / 0x1_0000 % 0x100;
    buf[p + 3] := m / 0x100_0000 % 0x100;
    q := p + 4;
  }

  /** memcpy of a string. */
  method WriteBytes(s: ByteString, buf: array<Byte>, p: nat) returns (q: nat)
    requires p + |s| <= buf.Length
    modifies buf
    ensures q == p + |s| && buf[..q] == old(buf[..p]) + s
  {
    q := p;
    for i := 0 to |s|
      invariant q == p + i
      invariant buf[..q] == old(buf[..p]) + s[..i]
    {
      buf[q] := s[i];
      q := q + 1;
    }
  }

  method WriteUint64(value: U64, buf: array<Byte>, p: nat) returns (q: nat)
    requires p + |Varint.Encoding(value)| <= buf.Length
    modifies buf
    ensures q == p + |Varint.Encoding(value)| && buf[..q] == old(buf[..p]) + Varint.Encoding(value)
  {
    q := Varint.EncodeUint64(value, buf, p);
  }

  method WritePadding(sourceId: U64, buf: array<Byte>, p: nat) returns (q: nat)
    requires p + |Padding(sourceId)| <= buf.Length
    modifies buf
    ensures q == p + |Padding(sourceId)| && buf[..q] == old(buf[..p]) + Padding(sourceId)
  {
    q := p;
    if sourceId < 0x4000 {
      buf[q] := 0;
      q := q + 1;
    }
    if sourceId < 0x80 {
      buf[q] := 0;
      q := q + 1;
    }
  }

  /** The source id and sub-count that open a Type 1 record and are a Type 3 record. */
  method EncodeType3Part(sourceId: U64, subCount: U64, buf: array<Byte>) returns (size: nat)
    requires |Type3(sourceId, subCount)| <= buf.Length
    modifies buf
    ensures size <= buf.Length && buf[..size] == Type3(sourceId, subCount)
  {
    var p := WriteUint64(sourceId, buf, 0);
    size := WritePut2(subCount, buf, p);
  }

  function EntropyAndLabel(kEntropy: nat, blockLabel: ByteString): ByteString {
    Varint.Encoding(kEntropy) + Varint.Encoding(|blockLabel|) + blockLabel
  }

  method WriteEntropyAndLabel(kEntropy: U64, blockLabel: ByteString, buf: array<Byte>, p: nat)
    returns (q: nat)
    requires |blockLabel| <= MAX_LABEL_SIZE
    requires p + |EntropyAndLabel(kEntropy, blockLabel)| <= buf.Length
    modifies buf
    ensures q == p + |EntropyAndLabel(kEntropy, blockLabel)|
    ensures buf[..q] == old(buf[..p]) + EntropyAndLabel(kEntropy, blockLabel)
  {
    q := WriteUint64(kEntropy, buf, p);
    q := WriteUint64(|blockLabel|, buf, q);
    q := WriteBytes(blockLabel, buf, q);
  }

  lemma Type1Parts(kEntropy: U64, blockLabel: ByteString, sourceId: U64, subCount: nat)
    requires |blockLabel| <= MAX_LABEL_SIZE
    ensures Type1(kEntropy, blockLabel, sourceId, subCount)
            == Type3(sourceId, subCount) + EntropyAndLabel(kEntropy, blockLabel) + Padding(sourceId)
    ensures |Type1(kEntropy, blockLabel, sourceId, subCount)| <= TYPE1_MAX_SIZE
  {
    Type2FitsType1(kEntropy, blockLabel, sourceId, subCount, 0);
  }

  lemma Type2Parts(kEntropy: U64, blockLabel: ByteString, count: nat)
    requires |blockLabel| <= MAX_LABEL_SIZE
    ensures Type2(kEntropy, blockLabel, count) == [0] + EntropyAndLabel(kEntropy, blockLabel) + Put4(count)
    ensures |Type2(kEntropy, blockLabel, count)| <= TYPE1_MAX_SIZE
  {
    Type2FitsType1(kEntropy, blockLabel, 0, 0, count);
  }

  method EncodeType1(kEntropy: U64, blockLabel: ByteString, sourceId: U64, subCount: U64, buf: array<Byte>)
    returns (size: nat)
    requires |blockLabel| <= 10 && buf.Length == 33
    modifies buf
    ensures size <= buf.Length && buf[..size] == Type1(kEntropy, blockLabel, sourceId, subCount)
  {
    Type1Parts(kEntropy, blockLabel, sourceId, subCount);
    var p := EncodeType3Part(sourceId, subCount, buf);
    p := WriteEntropyAndLabel(kEntropy, blockLabel, buf, p);
    p := WritePadding(sourceId, buf, p);
    size := p;
  }

  method EncodeType2(kEntropy: U64, blockLabel: ByteString, count: U64, buf: array<Byte>) returns (size: nat)
    requires |blockLabel| <= 10 && buf.Length == 33
    modifies buf
    ensures size <= buf.Length && buf[..size] == Type2(kEntropy, blockLabel, count)
  {
    Type2Parts(kEntropy, blockLabel, count);
    buf[0] := 0;
    var p := WriteEntropyAndLabel(kEntropy, blockLabel, buf, 1);
    p := WritePut4(count, buf, p);
    size := p;
  }

  method EncodeType3(sourceId: U64, subCount: U64, buf: array<Byte>) returns (size: nat)
    requires buf.Length == 12
    modifies buf
    ensures size <= buf.Length && buf[..size] == Type3(sourceId, subCount)
  {
    Type3Size(sourceId, subCount);
    size := EncodeType3Part(sourceId, subCount, buf);
  }

  // ---------- decoders: read a record through an advancing pointer ----------

  method ReadUint64(data: ByteString, p: nat, ghost n: U64) returns (value: U64, q: nat)
    requires Varint.EncodedAt(data, p, n)
    ensures value == n && q == p + |Varint.Encoding(n)|
  {
    Varint.EncodedIsReadable(data, p, n);
    value, q := Varint.DecodeUint64(data, p);
    Varint.ReadsBackEncoded(data, p, q, n);
  }

  /** Reads the source id and sub-count that a record opens with. */
  method ReadType3Part(data: ByteString, ghost s: U64, ghost c: nat)
    returns (sourceId: U64, subCount: U64, q: nat)
    requires Type3(s, c) <= data
    ensures sourceId == s && subCount == Clip2(c) && q == |Type3(s, c)|
  {
    var p;
    assert data[..|Type3(s, c)|] == Varint.Encoding(s) + Put2(c);
    sourceId, p := ReadUint64(data, 0, s);
    Get2OfPut2(c);
    assert data[p..p + 2] == Put2(c);
    subCount := Get2(data[p..p + 2]);
    q := p + 2;
  }

  /** Part x of a record stands at p. */
  ghost predicate StandsAt(data: ByteString, p: nat, x: ByteString) {
    p + |x| <= |data| && data[p..p + |x|] == x
  }

  lemma PartsStand(data: ByteString, p: nat, x: ByteString, y: ByteString)
    requires StandsAt(data, p, x + y)
    ensures StandsAt(data, p, x) && StandsAt(data, p + |x|, y)
  {
    assert data[p..p + |x|] == (x + y)[..|x|];
    assert data[p + |x|..p + |x| + |y|] == (x + y)[|x|..];
  }

  method ReadEntropyAndLabel(data: ByteString, p: nat, ghost e: U64, ghost l: ByteString)
    returns (kEntropy: U64, blockLabel: ByteString, q: nat)
    requires |l| <= MAX_LABEL_SIZE && StandsAt(data, p, EntropyAndLabel(e, l))
    ensures kEntropy == e && blockLabel == l && q == p + |EntropyAndLabel(e, l)|
  {
    PartsStand(data, p, Varint.Encoding(e) + Varint.Encoding(|l|), l);
    PartsStand(data, p, Varint.Encoding(e), Varint.Encoding(|l|));
    var size: int;
    kEntropy, q := ReadUint64(data, p, e);
    size, q := ReadUint64(data, q, |l|);
    blockLabel := data[q..q + size];
    q := q + size;
  }

  method DecodeType1(data: ByteString, ghost e: U64, ghost l: ByteString, ghost s: U64, ghost c: nat)
    returns (kEntropy: U64, blockLabel: ByteString, sourceId: U64, subCount: U64)
    requires |l| <= MAX_LABEL_SIZE && data == Type1(e, l, s, c)
    ensures kEntropy == e && blockLabel == l && sourceId == s && subCount == Clip2(c)
  {
    Type1Parts(e, l, s, c);
    assert StandsAt(data, 0, Type3(s, c) + EntropyAndLabel(e, l) + Padding(s));
    PartsStand(data, 0, Type3(s, c) + EntropyAndLabel(e, l), Padding(s));
    PartsStand(data, 0, Type3(s, c), EntropyAndLabel(e, l));
    var p;
    sourceId, subCount, p := ReadType3Part(data, s, c);
    kEntropy, blockLabel, p := ReadEntropyAndLabel(data, p, e, l);
    assert data[p..] == Padding(s);
    // the padding is zero and the record ends exactly here
    if sourceId < 0x4000 {
      assert data[p] == 0;
      p := p + 1;
    }
    if sourceId < 0x80 {
      assert data[p] == 0;
      p := p + 1;
    }
    assert p == |data|;
  }

  /** The record starts with a Type 2 encoding; any bytes may follow it. */
  ghost predicate IsHeader(data: ByteString, kEntropy: nat, blockLabel: ByteString, count: nat) {
    Type2(kEntropy, blockLabel, count) <= data
  }

  method DecodeType2(data: ByteString, ghost e: U64, ghost l: ByteString, ghost c: nat)
    returns (kEntropy: U64, blockLabel: ByteString, count: U64)
    requires |l| <= MAX_LABEL_SIZE && IsHeader(data, e, l, c)
    ensures kEntropy == e && blockLabel == l && count == SignExtend(Clip4(c))
  {
    Type2Parts(e, l, c);
    assert StandsAt(data, 0, [0] + EntropyAndLabel(e, l) + Put4(c));
    PartsStand(data, 0, [0] + EntropyAndLabel(e, l), Put4(c));
    PartsStand(data, 0, [0], EntropyAndLabel(e, l));
    var p := 1;
    kEntropy, blockLabel, p := ReadEntropyAndLabel(data, p, e, l);
    Get4OfPut4(c);
    count := Get4(data[p..p + 4]);
    p := p + 4;
    assert p <= |data|;
  }

  method DecodeType3(data: ByteString, ghost s: U64, ghost c: nat) returns (sourceId: U64, subCount: U64)
    requires data == Type3(s, c)
    ensures sourceId == s && subCount == Clip2(c)
  {
    var p;
    sourceId, subCount, p := ReadType3Part(data, s, c);
    assert p == |data|;
  }
}
