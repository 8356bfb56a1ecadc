/** The base-128 variable-length integers of lmdb_helper: the simple recursive
    form, and the unrolled encoder and decoder proved against it. */
module Varint {
  import opened ByteStrings

  /** Base 128, least significant group first, high bit set on all but the last byte. */
  function Encoding(n: nat): (s: ByteString)
    ensures |s| > 0
  {
    if n < 128 then [n] else [128 + n % 128] + Encoding(n / 128)
  }

  /** The number carried by the low seven bits of each byte. */
  function Value(s: ByteString): nat {
    if |s| == 0 then 0 else s[0] % 128 + 128 * Value(s[1..])
  }

  /** Exactly the last byte has a clear high bit. */
  ghost predicate Terminated(s: ByteString) {
    |s| > 0 && s[|s| - 1] < 128 && forall i :: 0 <= i < |s| - 1 ==> s[i] >= 128
  }

  /** The number that starts at p has its last byte just before q. */
  ghost predicate EndsAt(data: ByteString, p: nat, q: nat) {
    && p < q <= |data| && data[q - 1] < 128
    && forall i :: p <= i < q - 1 ==> data[i] >= 128
  }

  /** Number n without its k lowest groups. */
  function Shift(n: nat, k: nat): nat {
    if k == 0 then n else Shift(n / 128, k - 1)
  }

  lemma {:induction false} EncodingTerminated(n: nat)
    ensures Terminated(Encoding(n))
  {
    if n < 128 {
    } else {
      EncodingTerminated(n / 128);
    }
  }

  lemma {:induction false} ValueOfEncoding(n: nat)
    ensures Value(Encoding(n)) == n
  {
    if n >= 128 {
      ValueOfEncoding(n / 128);
      assert Encoding(n)[1..] == Encoding(n / 128);
    } else {
      assert Value([n][1..]) == 0;
    }
  }

  lemma EncodingInjective(m: nat, n: nat)
    requires Encoding(m) == Encoding(n)
    ensures m == n
  {
    ValueOfEncoding(m);
    ValueOfEncoding(n);
  }

  /** No encoding is a proper prefix of another, whatever follows them. */
  lemma {:induction false} PrefixFree(m: nat, n: nat, x: ByteString, y: ByteString)
    requires Encoding(m) + x == Encoding(n) + y
    ensures m == n && x == y
  {
    var s := Encoding(m) + x;
    assert s[0] == Encoding(m)[0] == Encoding(n)[0];
    if m >= 128 {
      assert s[1..] == Encoding(m / 128) + x == Encoding(n / 128) + y;
      PrefixFree(m / 128, n / 128, x, y);
    } else {
      assert s[1..] == x == y;
    }
  }

  /** Distinct numbers first differ at a byte inside both encodings. */
  lemma {:induction false} FirstDifference(m: nat, n: nat) returns (k: nat)
    requires m != n
    ensures k < |Encoding(m)| && k < |Encoding(n)|
    ensures Encoding(m)[..k] == Encoding(n)[..k] && Encoding(m)[k] != Encoding(n)[k]
  {
    if Encoding(m)[0] != Encoding(n)[0] {
      k := 0;
    } else {
      var j := FirstDifference(m / 128, n / 128);
      k := j + 1;
      assert Encoding(m)[..k] == [Encoding(m)[0]] + Encoding(m / 128)[..j];
      assert Encoding(n)[..k] == [Encoding(n)[0]] + Encoding(n / 128)[..j];
    }
  }

  /** The first byte of a positive number is never zero: it marks Type 2 records. */
  lemma FirstByteNonZero(n: nat)
    ensures Encoding(n)[0] == 0 <==> n == 0
  {
  }

  /** The length is the least number of groups that hold n, so the code is minimal. */
  lemma {:induction false} LengthIsLeast(n: nat, k: nat)
    requires k > 0
    ensures |Encoding(n)| <= k <==> Shift(n, k) == 0
  {
    if n < 128 {
      ShiftZero(k - 1);
    } else if k > 1 {
      LengthIsLeast(n / 128, k - 1);
    }
  }

  lemma {:induction false} ShiftZero(k: nat)
    ensures Shift(0, k) == 0
  {
    if k == 0 {
    } else {
      ShiftZero(k - 1);
    }
  }

  /** Byte i of the encoding: group i, with the continuation bit except at the end. */
  lemma {:induction false} EncodingAt(n: nat, i: nat)
    requires i < |Encoding(n)|
    ensures Encoding(n)[i] == Shift(n, i) % 128 + (if i + 1 < |Encoding(n)| then 128 else 0)
  {
    if i == 0 {
    } else {
      EncodingAt(n / 128, i - 1);
    }
  }

  /** No other terminated string carries n in fewer bytes. */
  lemma {:induction false} EncodingMinimal(s: ByteString)
    requires |s| > 0
    ensures |Encoding(Value(s))| <= |s|
  {
    var n := Value(s);
    if |s| == 1 {
      assert Value(s[1..]) == 0;
    } else if n >= 128 {
      assert n / 128 == Value(s[1..]);
      EncodingMinimal(s[1..]);
    }
  }

  lemma {:induction false} ShiftStep(n: nat, k: nat)
    ensures Shift(n, k + 1) == Shift(n, k) / 128
  {
    if k == 0 {
    } else {
      ShiftStep(n / 128, k - 1);
    }
  }

  /** Dropping k groups is one division by 128 to the k. */
  lemma ShiftIsDivision(n: U64)
    ensures Shift(n, 0) == n && Shift(n, 1) == n / 0x80 && Shift(n, 2) == n / 0x4000
    ensures Shift(n, 3) == n / 0x20_0000 && Shift(n, 4) == n / 0x1000_0000
    ensures Shift(n, 5) == n / 0x8_0000_0000 && Shift(n, 6) == n / 0x400_0000_0000
    ensures Shift(n, 7) == n / 0x2_0000_0000_0000 && Shift(n, 8) == n / 0x100_0000_0000_0000
    ensures Shift(n, 9) == n / 0x8000_0000_0000_0000 && Shift(n, 10) == 0
  {
    ShiftStep(n, 0);
    ShiftStep(n, 1);
    ShiftStep(n, 2);
    ShiftStep(n, 3);
    ShiftStep(n, 4);
    ShiftStep(n, 5);
    ShiftStep(n, 6);
    ShiftStep(n, 7);
    ShiftStep(n, 8);
    ShiftStep(n, 9);
  }

  /** The length by size of the value; never more than ten bytes. */
  lemma EncodingLength(n: U64)
    ensures 1 <= |Encoding(n)| <= 10
    ensures |Encoding(n)| <= 1 <==> n < 0x80
    ensures |Encoding(n)| <= 2 <==> n < 0x4000
    ensures |Encoding(n)| <= 3 <==> n < 0x20_0000
    ensures |Encoding(n)| <= 4 <==> n < 0x1000_0000
    ensures |Encoding(n)| <= 5 <==> n < 0x8_0000_0000
    ensures |Encoding(n)| <= 6 <==> n < 0x400_0000_0000
    ensures |Encoding(n)| <= 7 <==> n < 0x2_0000_0000_0000
    ensures |Encoding(n)| <= 8 <==> n < 0x100_0000_0000_0000
    ensures |Encoding(n)| <= 9 <==> n < 0x8000_0000_0000_0000
  {
    ShiftIsDivision(n);
    LengthIsLeast(n, 1);
    LengthIsLeast(n, 2);
    LengthIsLeast(n, 3);
    LengthIsLeast(n, 4);
    LengthIsLeast(n, 5);
    LengthIsLeast(n, 6);
    LengthIsLeast(n, 7);
    LengthIsLeast(n, 8);
    LengthIsLeast(n, 9);
    LengthIsLeast(n, 10);
  }

  /** The cast to uint8_t of x | 0x80. */
  function HighBit(x: nat): Byte {
    128 + x % 128
  }

  lemma {:induction false} ShiftCompose(n: nat, j: nat, k: nat)
    ensures Shift(n, j + k) == Shift(Shift(n, j), k)
  {
    if j == 0 {
    } else {
      ShiftCompose(n / 128, j - 1, k);
    }
  }

  lemma MultipleBound(d: int, e: int)
    requires d > 0
    ensures e >= 1 ==> d * e >= d
    ensures e <= -1 ==> d * e <= -d
  {
    if e >= 1 {
      assert d * e == d + d * (e - 1);
    } else if e <= -1 {
      assert d * e == -d + d * (e + 1);
    }
  }

  lemma DivideUnique(a: nat, d: nat, q: nat, r: nat)
    requires r < d && a == d * q + r
    ensures a / d == q && a % d == r
  {
    MultipleBound(d, a / d - q);
    assert d * (a / d - q) == d * (a / d) - d * q;
  }

  /** Truncating to 32 bits keeps the group above d, when d * 128 divides 2^32. */
  lemma LowPartGroup(x: nat, d: nat, c: nat)
    requires d > 0 && 128 * c * d == TWO_TO_THE_32
    ensures x % TWO_TO_THE_32 / d % 128 == x / d % 128
  {
    var q, r := x / TWO_TO_THE_32, x % TWO_TO_THE_32;
    var high, low := c * q, r / d;
    assert x == d * (128 * high + low) + r % d by {
      assert d * (128 * high) == 128 * c * d * q;
      assert d * (128 * high + low) == d * (128 * high) + d * low;
    }
    DivideUnique(x, d, 128 * high + low, r % d);
    DivideUnique(128 * high + low, 128, high + low / 128, low % 128);
  }

  lemma LowPart(x: U64, part: nat)
    requires part == x % TWO_TO_THE_32
    ensures part % 128 == Shift(x, 0) % 128 && part / 0x80 % 128 == Shift(x, 1) % 128
    ensures part / 0x4000 % 128 == Shift(x, 2) % 128 && part / 0x20_0000 % 128 == Shift(x, 3) % 128
  {
    ShiftIsDivision(x);
    LowPartGroup(x, 1, 0x200_0000);
    LowPartGroup(x, 0x80, 0x4_0000);
    LowPartGroup(x, 0x4000, 0x800);
    LowPartGroup(x, 0x20_0000, 0x10);
  }

  /** Group k of n, read from the 32-bit piece that holds it. */
  lemma GroupOfPart(n: U64, part0: nat, part1: nat, part2: nat)
    requires Pieces(n, part0, part1, part2)
    ensures part0 % 128 == Shift(n, 0) % 128 && part0 / 0x80 % 128 == Shift(n, 1) % 128
    ensures part0 / 0x4000 % 128 == Shift(n, 2) % 128 && part0 / 0x20_0000 % 128 == Shift(n, 3) % 128
    ensures part1 % 128 == Shift(n, 4) % 128 && part1 / 0x80 % 128 == Shift(n, 5) % 128
    ensures part1 / 0x4000 % 128 == Shift(n, 6) % 128 && part1 / 0x20_0000 % 128 == Shift(n, 7) % 128
    ensures part2 % 128 == Shift(n, 8) % 128 && part2 / 0x80 % 128 == Shift(n, 9) % 128
  {
    ShiftIsDivision(n);
    LowPart(n, part0);
    LowPart(Shift(n, 4), part1);
    ShiftCompose(n, 4, 0);
    ShiftCompose(n, 4, 1);
    ShiftCompose(n, 4, 2);
    ShiftCompose(n, 4, 3);
    ShiftStep(n, 8);
  }

  /** The encoder's hardcoded binary search for the number of bytes. */
  function EncodedSize(part0: nat, part1: nat, part2: nat): nat {
    if part2 == 0 then
      if part1 == 0 then
        if part0 < 0x4000 then
          if part0 < 0x80 then 1 else 2
        else
          if part0 < 0x20_0000 then 3 else 4
      else
        if part1 < 0x4000 then
          if part1 < 0x80 then 5 else 6
        else
          if part1 < 0x20_0000 then 7 else 8
    else
      if part2 < 0x80 then 9 else 10
  }

  /** The three pieces of n, cut at bits 28 and 56; a piece keeps 32 bits. */
  ghost predicate Pieces(n: U64, part0: nat, part1: nat, part2: nat) {
    && part0 == n % TWO_TO_THE_32
    && part1 == n / 0x1000_0000 % TWO_TO_THE_32
    && part2 == n / 0x100_0000_0000_0000
  }

  lemma SizeIsLength(n: U64, part0: nat, part1: nat, part2: nat)
    requires Pieces(n, part0, part1, part2)
    ensures EncodedSize(part0, part1, part2) == |Encoding(n)| <= 10
  {
    EncodingLength(n);
    if part2 == 0 {
      LowWord(n / 0x1000_0000);
      if part1 == 0 {
        LowWord(n);
      }
    }
  }

  lemma LowWord(x: nat)
    ensures x < TWO_TO_THE_32 ==> x % TWO_TO_THE_32 == x
  {
  }

  /** The byte the fall-through writes at position i, before the last one is cleared. */
  function PieceByte(part0: nat, part1: nat, part2: nat, i: nat): Byte
    requires i < 10
  {
    if i == 0 then HighBit(part0) else if i == 1 then HighBit(part0 / 0x80)
    else if i == 2 then HighBit(part0 / 0x4000) else if i == 3 then HighBit(part0 / 0x20_0000)
    else if i == 4 then HighBit(part1) else if i == 5 then HighBit(part1 / 0x80)
    else if i == 6 then HighBit(part1 / 0x4000) else if i == 7 then HighBit(part1 / 0x20_0000)
    else if i == 8 then HighBit(part2) else HighBit(part2 / 0x80)
  }

  lemma PieceByteIsGroup(n: U64, part0: nat, part1: nat, part2: nat, i: nat)
    requires Pieces(n, part0, part1, part2) && i < 10
    ensures PieceByte(part0, part1, part2, i) == 128 + Shift(n, i) % 128
  {
    GroupOfPart(n, part0, part1, part2);
  }

  /** A continuation byte per group of the pieces, the last one's high bit cleared. */
  lemma WrittenIsEncoding(n: U64, part0: nat, part1: nat, part2: nat, s: ByteString)
    requires Pieces(n, part0, part1, part2)
    requires |s| == |Encoding(n)| <= 10
    requires forall i :: 0 <= i < |s| - 1 ==> s[i] == PieceByte(part0, part1, part2, i)
    requires s[|s| - 1] == PieceByte(part0, part1, part2, |s| - 1) % 128
    ensures s == Encoding(n)
  {
    forall i | 0 <= i < |s|
      ensures s[i] == Encoding(n)[i]
    {
      EncodingAt(n, i);
      PieceByteIsGroup(n, part0, part1, part2, i);
    }
  }

  /** encode_uint64_t: find the size, then fall through from the last byte to the
      first over 28-bit pieces.  Returns the advanced pointer. */
  method EncodeUint64(value: U64, target: array<Byte>, p: nat) returns (q: nat)
    requires p + |Encoding(value)| <= target.Length
    modifies target
    ensures q == p + |Encoding(value)| <= target.Length
    ensures target[..q] == old(target[..p]) + Encoding(value)
    ensures forall i :: 0 <= i < p || q <= i < target.Length ==> target[i] == old(target[i])
  {
    var part0 := value % TWO_TO_THE_32;
    var part1 := value / 0x1000_0000 % TWO_TO_THE_32;
    var part2 := value / 0x100_0000_0000_0000;
    var size := EncodedSize(part0, part1, part2);
    SizeIsLength(value, part0, part1, part2);
    q := WriteGroups(part0, part1, part2, size, target, p);
    WrittenIsEncoding(value, part0, part1, part2, target[p..q]);
  }

  /** The fall-through of encode_uint64_t, from label size10 down to size1. */
  method WriteGroups(part0: nat, part1: nat, part2: nat, size: nat, target: array<Byte>, p: nat)
    returns (q: nat)
    requires 1 <= size <= 10 && p + size <= target.Length
    modifies target
    ensures q == p + size
    ensures forall i :: 0 <= i < size - 1 ==> target[p..q][i] == PieceByte(part0, part1, part2, i)
    ensures target[p + size - 1] == PieceByte(part0, part1, part2, size - 1) % 128
    ensures forall i :: 0 <= i < p || q <= i < target.Length ==> target[i] == old(target[i])
  {
    if size > 8 { WritePart(part2, size - 8, target, p + 8); }
    if size > 4 { WritePart(part1, if size < 8 then size - 4 else 4, target, p + 4); }
    WritePart(part0, if size < 4 then size else 4, target, p);
    target[p + size - 1] := target[p + size - 1] % 128;
    q := p + size;
  }

  /** The part of the fall-through that serves one piece: its n lowest groups. */
  method WritePart(part: nat, n: nat, target: array<Byte>, p: nat)
    requires n <= 4 && p + n <= target.Length
    modifies target
    ensures n > 0 ==> target[p] == HighBit(part)
    ensures n > 1 ==> target[p + 1] == HighBit(part / 0x80)
    ensures n > 2 ==> target[p + 2] == HighBit(part / 0x4000)
    ensures n > 3 ==> target[p + 3] == HighBit(part / 0x20_0000)
    ensures forall i :: 0 <= i < p || p + n <= i < target.Length ==> target[i] == old(target[i])
  {
    if n > 3 { target[p + 3] := HighBit(part / 0x20_0000); }
    if n > 2 { target[p + 2] := HighBit(part / 0x4000); }
    if n > 1 { target[p + 1] := HighBit(part / 0x80); }
    if n > 0 { target[p] := HighBit(part); }
  }

  /** The first four bytes of s make one 28-bit piece. */
  lemma {:induction false} ValueSplit(s: ByteString, k: nat)
    requires k <= |s| && k <= 4
    ensures Value(s) == Value(s[..k]) + Weight(k) * Value(s[k..])
  {
    if k == 0 {
      assert s[0..] == s;
    } else {
      ValueSplit(s[1..], k - 1);
      assert s[..k][1..] == s[1..][..k - 1] && s[k..] == s[1..][k - 1..];
      assert Value(s[..k]) == s[0] % 128 + 128 * Value(s[1..][..k - 1]);
    }
  }

  function Weight(k: nat): nat
    requires k <= 4
  {
    if k == 0 then 1 else if k == 1 then 0x80 else if k == 2 then 0x4000
    else if k == 3 then 0x20_0000 else 0x1000_0000
  }

  lemma ValueExtend(s: ByteString, b: Byte)
    requires |s| < 4
    ensures Value(s + [b]) == Value(s) + b % 128 * Weight(|s|)
  {
    calc {
      Value(s + [b]);
      { ValueSplit(s + [b], |s|); }
      Value((s + [b])[..|s|]) + Weight(|s|) * Value((s + [b])[|s|..]);
      { assert (s + [b])[..|s|] == s && (s + [b])[|s|..] == [b]; }
      Value(s) + Weight(|s|) * Value([b]);
      { ValueOfByte(b); }
      Value(s) + b % 128 * Weight(|s|);
    }
  }

  lemma ValueOfByte(b: Byte)
    ensures Value([b]) == b % 128
  {
    assert [b][1..] == [];
  }

  /** Up to n of the decoder's unrolled reads, into one piece; more is set when the
      last byte read asks for another. */
  method ReadPart(data: ByteString, p: nat, n: nat) returns (part: nat, q: nat, more: bool)
    requires 1 < n <= 4
    requires p + n <= |data| || exists i :: p <= i < |data| && data[i] < 128
    ensures p < q <= |data| && q <= p + n
    ensures forall i :: p <= i < q - 1 ==> data[i] >= 128
    ensures if more then q == p + n && data[q - 1] >= 128 else data[q - 1] < 128
    ensures part == Value(data[p..q])
  {
    var b: int;
    ValueExtend([], data[p]);
    b := data[p]; q := p + 1; part := b % 128;
    assert data[p..q] == [] + [data[p]];
    label done: {
      if b < 128 { break done; }
      part := NextGroup(data, p, q, part, 0x80); b := data[q]; q := q + 1; if b < 128 || n == 2 { break done; }
      part := NextGroup(data, p, q, part, 0x4000); b := data[q]; q := q + 1; if b < 128 || n == 3 { break done; }
      part := NextGroup(data, p, q, part, 0x20_0000); b := data[q]; q := q + 1;
    }
    more := b >= 128;
  }

  /** part | (b & 0x7F) << shift, for the byte b at q: the bits are disjoint. */
  function NextGroup(data: ByteString, p: nat, q: nat, part: nat, weight: nat): (r: nat)
    requires p < q < |data| && q < p + 4 && part == Value(data[p..q]) && weight == Weight(q - p)
    ensures r == Value(data[p..q + 1])
  {
    ValueExtend(data[p..q], data[q]);
    assert data[p..q + 1] == data[p..q] + [data[q]];
    part + data[q] % 128 * weight
  }

  /** decode_uint64_t: at most ten reads into three pieces.  The reader aborts when
      none of ten bytes ends the number, so a caller must rule that out. */
  method DecodeUint64(data: ByteString, p: nat) returns (value: U64, q: nat)
    requires exists i :: p <= i < |data| && i < p + 10 && data[i] < 128
    ensures EndsAt(data, p, q) && q <= p + 10
    ensures value == Value(data[p..q]) % TWO_TO_THE_64
  {
    var part0, part1, part2, more := 0, 0, 0, false;
    var r;
    part0, r, more := ReadPart(data, p, 4);
    q := r;
    if more {
      part1, q, more := ReadPart(data, r, 4);
      var r1 := q;
      if more {
        part2, q, more := ReadPart(data, r1, 2);
      }
      ValueJoin(data, r, r1, q);
      ValueJoin(data, p, r, q);
    }
    value := (part0 + part1 * 0x1000_0000 + part2 * 0x100_0000_0000_0000) % TWO_TO_THE_64;
  }

  /** The encoding of n stands in data at p. */
  ghost predicate EncodedAt(data: ByteString, p: nat, n: nat) {
    p + |Encoding(n)| <= |data| && data[p..p + |Encoding(n)|] == Encoding(n)
  }

  /** An encoded number meets the reader's demand, whatever bytes follow it. */
  lemma EncodedIsReadable(data: ByteString, p: nat, n: U64)
    requires EncodedAt(data, p, n)
    ensures exists i :: p <= i < |data| && i < p + 10 && data[i] < 128
  {
    EncodingTerminated(n);
    EncodingLength(n);
    var last := |Encoding(n)| - 1;
    assert data[p + last] == Encoding(n)[last];
  }

  /** What the reader returns for an encoded number: that number, and the pointer
      past exactly the bytes the encoder wrote. */
  lemma ReadsBackEncoded(data: ByteString, p: nat, q: nat, n: U64)
    requires EncodedAt(data, p, n)
    requires EndsAt(data, p, q)
    ensures q == p + |Encoding(n)| && Value(data[p..q]) % TWO_TO_THE_64 == n
  {
    var e := p + |Encoding(n)|;
    EncodingTerminated(n);
    ValueOfEncoding(n);
    assert forall i :: p <= i < e ==> data[i] == Encoding(n)[i - p];
  }

  lemma ValueJoin(data: ByteString, p: nat, r: nat, q: nat)
    requires p <= r <= q <= |data| && (r == q || r == p + 4)
    ensures Value(data[p..q]) == Value(data[p..r]) + 0x1000_0000 * Value(data[r..q])
  {
    if r == q {
      assert Value(data[r..q]) == 0;
    } else {
      var s := data[p..q];
      ValueSplit(s, 4);
      assert s[..4] == data[p..r] && s[4..] == data[r..q];
    }
  }
}
