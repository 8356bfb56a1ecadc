/** UTF-8 as the JSON library encodes, decodes and validates it, against sections 3 and 4
    of RFC 3629. */
module Utf8 {
  import opened ByteStrings

  /** A Unicode scalar value: no surrogate, and no more than 0x10ffff. */
  predicate Scalar(c: nat) {
    c < 0xd800 || 0xe000 <= c <= 0x10_ffff
  }

  // ---------- the grammar ----------

  predicate Tail(b: nat) {
    0x80 <= b <= 0xbf
  }

  /** The length of the UTF-8 character that four bytes begin with, by the grammar of
      section 4; zero when there is none. */
  function CharLength(b0: nat, b1: nat, b2: nat, b3: nat): nat {
    if b0 <= 0x7f then 1
    else if 0xc2 <= b0 <= 0xdf && Tail(b1) then 2
    else if Tail(b2) && ((b0 == 0xe0 && 0xa0 <= b1 <= 0xbf) || (0xe1 <= b0 <= 0xec && Tail(b1))
                         || (b0 == 0xed && 0x80 <= b1 <= 0x9f) || (0xee <= b0 <= 0xef && Tail(b1))) then 3
    else if Tail(b2) && Tail(b3) && ((b0 == 0xf0 && 0x90 <= b1 <= 0xbf) || (0xf1 <= b0 <= 0xf3 && Tail(b1))
                                     || (b0 == 0xf4 && 0x80 <= b1 <= 0x8f)) then 4
    else 0
  }

  /** The character number, from the bits that section 3 marks with an x. */
  function CharValue(b0: nat, b1: nat, b2: nat, b3: nat): nat {
    if b0 <= 0x7f then b0
    else if b0 <= 0xdf then (b0 % 32) * 64 + b1 % 64
    else if b0 <= 0xef then ((b0 % 16) * 64 + b1 % 64) * 64 + b2 % 64
    else (((b0 % 8) * 64 + b1 % 64) * 64 + b2 % 64) * 64 + b3 % 64
  }

  // ---------- streams ----------

  /** What a stream gives: after the last byte comes the terminating zero. */
  function At(s: ByteString, i: nat): Byte {
    if i < |s| then s[i] else 0
  }

  class InputStream {
    const bytes: ByteString
    var next: nat

    constructor (bytes: ByteString)
      ensures this.bytes == bytes && next == 0
    {
      this.bytes := bytes;
      next := 0;
    }

    method Take() returns (c: Byte)
      modifies this
      ensures c == At(bytes, old(next)) && next == old(next) + 1
    {
      c := At(bytes, next);
      next := next + 1;
    }
  }

  class OutputStream {
    var bytes: ByteString

    constructor ()
      ensures bytes == []
    {
      bytes := [];
    }

    method Put(c: Byte)
      modifies this
      ensures bytes == old(bytes) + [c]
    {
      bytes := bytes + [c];
    }
  }

  // ---------- encoding ----------

  function Encoded(c: nat): ByteString
    requires c <= 0x10_ffff
  {
    if c <= 0x7f then [c]
    else if c <= 0x7ff then [0xc0 + c / 64, 0x80 + c % 64]
    else if c <= 0xffff then [0xe0 + c / 4096, 0x80 + c / 64 % 64, 0x80 + c % 64]
    else [0xf0 + c / 0x4_0000, 0x80 + c / 4096 % 64, 0x80 + c / 64 % 64, 0x80 + c % 64]
  }

  method Encode(os: OutputStream, codepoint: nat)
    requires codepoint <= 0x10_ffff
    modifies os
    ensures os.bytes == old(os.bytes) + Encoded(codepoint)
  {
    if codepoint <= 0x7f {
      os.Put(codepoint);
    } else if codepoint <= 0x7ff {
      os.Put(0xc0 + codepoint / 64);
      os.Put(0x80 + codepoint % 64);
    } else if codepoint <= 0xffff {
      os.Put(0xe0 + codepoint / 4096);
      os.Put(0x80 + codepoint / 64 % 64);
      os.Put(0x80 + codepoint % 64);
    } else {
      os.Put(0xf0 + codepoint / 0x4_0000);
      os.Put(0x80 + codepoint / 4096 % 64);
      os.Put(0x80 + codepoint / 64 % 64);
      os.Put(0x80 + codepoint % 64);
    }
  }

  // ---------- the range table ----------

  const TYPES_C0: seq<bv8> := [8, 8, 2, 2, 2, 2, 2, 2, 2, 2, 2, 2, 2, 2, 2, 2]
  const TYPES_E0: seq<bv8> := [10, 3, 3, 3, 3, 3, 3, 3, 3, 3, 3, 3, 3, 4, 3, 3]
  const TYPES_F0: seq<bv8> := [11, 6, 6, 6, 5, 8, 8, 8, 8, 8, 8, 8, 8, 8, 8, 8]

  /** The table by its rows; rows of one value are that value. */
  function GetRange(c: Byte): bv8 {
    if c < 0x80 then 0
    else if c < 0x90 then 0x10
    else if c < 0xa0 then 0x40
    else if c < 0xc0 then 0x20
    else if c < 0xd0 then TYPES_C0[c - 0xc0]
    else if c < 0xe0 then 2
    else if c < 0xf0 then TYPES_E0[c - 0xe0]
    else TYPES_F0[c - 0xf0]
  }

  /** TRANS: the byte is of one of the types in the mask. */
  predicate InRange(c: Byte, mask: bv8) {
    GetRange(c) & mask != 0
  }

  lemma Masks(c: Byte)
    ensures InRange(c, 0x70) <==> Tail(c)
    ensures InRange(c, 0x50) <==> 0x80 <= c <= 0x9f
    ensures InRange(c, 0x10) <==> 0x80 <= c <= 0x8f
    ensures InRange(c, 0x20) <==> 0xa0 <= c <= 0xbf
    ensures InRange(c, 0x60) <==> 0x90 <= c <= 0xbf
  {
  }

  // ---------- decoding ----------

  /** The grammar's verdict on what begins at a place in a stream. */
  function LengthAt(s: ByteString, p: nat): nat {
    CharLength(At(s, p), At(s, p + 1), At(s, p + 2), At(s, p + 3))
  }

  function ValueAt(s: ByteString, p: nat): nat {
    CharValue(At(s, p), At(s, p + 1), At(s, p + 2), At(s, p + 3))
  }

  /** The lead byte's bits that are left after shifting 0xff down by its type. */
  function LeadBits(range: bv8, c: Byte): nat {
    var b: int := c;
    if range == 2 then b % 64 else if range == 3 then b % 32 else if range == 4 then b % 16
    else if range == 5 then b % 8 else if range == 6 then b % 4 else 0
  }

  /** COPY and TRANS: one more byte into the code point, which must be in range. */
  method Follow(input: InputStream, codepoint: nat, mask: bv8) returns (ok: bool, cp: nat)
    modifies input
    ensures input.next == old(input.next) + 1
    ensures ok <==> InRange(At(input.bytes, old(input.next)), mask)
    ensures cp == codepoint * 64 + At(input.bytes, old(input.next)) as int % 64
  {
    var c: Byte := input.Take();
    var b: int := c;
    cp := codepoint * 64 + b % 64;
    ok := InRange(c, mask);
  }

  /** The next byte by its mask, then one tail. */
  method Follow2(input: InputStream, codepoint: nat, mask: bv8) returns (ok: bool, cp: nat)
    modifies input
    ensures input.next == old(input.next) + 2
    ensures var s, p := input.bytes, old(input.next);
            && (ok <==> InRange(At(s, p), mask) && Tail(At(s, p + 1)))
            && cp == (codepoint * 64 + At(s, p) as int % 64) * 64 + At(s, p + 1) as int % 64
  {
    ok, cp := Follow(input, codepoint, mask);
    Masks(At(input.bytes, input.next));
    var tail;
    tail, cp := Follow(input, cp, 0x70);
    ok := ok && tail;
  }

  /** The next byte by its mask, then two tails. */
  method Follow3(input: InputStream, codepoint: nat, mask: bv8) returns (ok: bool, cp: nat)
    modifies input
    ensures input.next == old(input.next) + 3
    ensures var s, p := input.bytes, old(input.next);
            && (ok <==> InRange(At(s, p), mask) && Tail(At(s, p + 1)) && Tail(At(s, p + 2)))
            && cp == ((codepoint * 64 + At(s, p) as int % 64) * 64 + At(s, p + 1) as int % 64) * 64
                     + At(s, p + 2) as int % 64
  {
    ok, cp := Follow2(input, codepoint, mask);
    Masks(At(input.bytes, input.next));
    var tail;
    tail, cp := Follow(input, cp, 0x70);
    ok := ok && tail;
  }

  method Decode(input: InputStream) returns (ok: bool, codepoint: nat)
    modifies input
    ensures var p := old(input.next);
            && (ok <==> LengthAt(input.bytes, p) > 0)
            && (ok ==> input.next == p + LengthAt(input.bytes, p) && codepoint == ValueAt(input.bytes, p))
            && input.next == p + Reads(At(input.bytes, p))
  {
    var c: Byte := input.Take();
    var b: int := c;
    if b < 0x80 {
      return true, b;
    }
    var range := GetRange(c);
    codepoint := LeadBits(range, c);
    Masks(At(input.bytes, input.next));
    LeadTypes(c);
    match range
    case 2 => ok, codepoint := Follow(input, codepoint, 0x70);
    case 3 => ok, codepoint := Follow2(input, codepoint, 0x70);
    case 4 => ok, codepoint := Follow2(input, codepoint, 0x50);
    case 5 => ok, codepoint := Follow3(input, codepoint, 0x10);
    case 6 => ok, codepoint := Follow3(input, codepoint, 0x70);
    case 10 => ok, codepoint := Follow2(input, codepoint, 0x20);
    case 11 => ok, codepoint := Follow3(input, codepoint, 0x60);
    case _ => ok := false;
  }

  lemma LeadTypes(c: Byte)
    ensures GetRange(c) == 2 <==> 0xc2 <= c <= 0xdf
    ensures GetRange(c) == 3 <==> 0xe1 <= c <= 0xec || 0xee <= c <= 0xef
    ensures GetRange(c) == 4 <==> c == 0xed
    ensures GetRange(c) == 5 <==> c == 0xf4
    ensures GetRange(c) == 6 <==> 0xf1 <= c <= 0xf3
    ensures GetRange(c) == 10 <==> c == 0xe0
    ensures GetRange(c) == 11 <==> c == 0xf0
    ensures GetRange(c) == 2 ==> LeadBits(GetRange(c), c) == c as int % 32
    ensures GetRange(c) == 3 || GetRange(c) == 4 || GetRange(c) == 10 ==> LeadBits(GetRange(c), c) == c as int % 16
    ensures GetRange(c) == 5 || GetRange(c) == 6 || GetRange(c) == 11 ==> LeadBits(GetRange(c), c) == c as int % 8
  {
    RowTypes(c);
  }

  /** The rows of the table, against the rows of the grammar. */
  lemma RowTypes(c: Byte)
    ensures GetRange(c) == 2 <==> 0xc2 <= c <= 0xdf
    ensures GetRange(c) == 3 <==> 0xe1 <= c <= 0xec || 0xee <= c <= 0xef
    ensures GetRange(c) == 4 <==> c == 0xed
    ensures GetRange(c) == 5 <==> c == 0xf4
    ensures GetRange(c) == 6 <==> 0xf1 <= c <= 0xf3
    ensures GetRange(c) == 10 <==> c == 0xe0
    ensures GetRange(c) == 11 <==> c == 0xf0
  {
  }

  // ---------- the terminator ----------

  /** How many bytes are read for a lead byte, whether or not the others fit it. */
  function Reads(c: Byte): (n: nat)
    ensures 1 <= n <= 4
  {
    if 0xc2 <= c <= 0xdf then 2 else if 0xe0 <= c <= 0xef then 3 else if 0xf0 <= c <= 0xf4 then 4 else 1
  }

  /** An accepted character of the text ends before the terminator, and its reads are its
      bytes; the terminator itself is accepted as the character zero. */
  lemma AcceptedStaysWithin(s: ByteString, p: nat)
    requires p <= |s| && LengthAt(s, p) > 0
    ensures Reads(At(s, p)) == LengthAt(s, p)
    ensures if p < |s| then p + LengthAt(s, p) <= |s| else LengthAt(s, p) == 1
  {
  }

  /** What lies behind the terminator never decides whether a character is accepted, nor
      what it is, although a cut-off character is read on into it. */
  lemma BehindTerminator(s: ByteString, behind: ByteString, p: nat)
    requires p <= |s|
    ensures LengthAt(s + [0] + behind, p) == LengthAt(s, p)
    ensures LengthAt(s, p) > 0 ==> ValueAt(s + [0] + behind, p) == ValueAt(s, p)
  {
    var t := s + [0] + behind;
    assert forall i :: 0 <= i <= |s| ==> At(t, i) == At(s, i);
    if p + 1 > |s| {
    } else if p + 2 > |s| {
      assert At(s, p + 1) == 0;
    } else if p + 3 > |s| {
      assert At(s, p + 2) == 0;
    }
  }

  /** The reads pass the terminator exactly when at least two bytes of the character that
      its lead byte announces are missing. */
  lemma ReadsPastTerminator(s: ByteString, p: nat)
    requires p < |s|
    ensures p + Reads(At(s, p)) > |s| + 1 <==> Reads(s[p]) - |s[p..]| >= 2
  {
  }

  /** As for a four-byte lead byte at the very end: two bytes behind it are read. */
  lemma CutOffReadsPast(s: ByteString, lead: Byte)
    requires 0xf0 <= lead <= 0xf4
    ensures var t := s + [lead]; LengthAt(t, |s|) == 0 && |s| + Reads(At(t, |s|)) == |t| + 3
  {
  }

  // ---------- validating ----------

  /** COPY and TRANS of Validate: the byte goes straight to the output. */
  method Pass(input: InputStream, output: OutputStream, mask: bv8) returns (ok: bool)
    modifies input, output
    ensures input.next == old(input.next) + 1
    ensures output.bytes == old(output.bytes) + [At(input.bytes, old(input.next))]
    ensures ok <==> InRange(At(input.bytes, old(input.next)), mask)
  {
    var c: Byte := input.Take();
    output.Put(c);
    ok := InRange(c, mask);
  }

  method Pass2(input: InputStream, output: OutputStream, mask: bv8) returns (ok: bool)
    modifies input, output
    ensures var s, p := input.bytes, old(input.next);
            && input.next == p + 2 && output.bytes == old(output.bytes) + [At(s, p), At(s, p + 1)]
            && (ok <==> InRange(At(s, p), mask) && Tail(At(s, p + 1)))
  {
    ok := Pass(input, output, mask);
    Masks(At(input.bytes, input.next));
    var tail := Pass(input, output, 0x70);
    ok := ok && tail;
  }

  method Pass3(input: InputStream, output: OutputStream, mask: bv8) returns (ok: bool)
    modifies input, output
    ensures var s, p := input.bytes, old(input.next);
            && input.next == p + 3 && output.bytes == old(output.bytes) + [At(s, p), At(s, p + 1), At(s, p + 2)]
            && (ok <==> InRange(At(s, p), mask) && Tail(At(s, p + 1)) && Tail(At(s, p + 2)))
  {
    ok := Pass2(input, output, mask);
    Masks(At(input.bytes, input.next));
    var tail := Pass(input, output, 0x70);
    ok := ok && tail;
  }

  /** The bytes from p up to q. */
  function Taken(s: ByteString, p: nat, q: nat): ByteString
    requires p <= q
  {
    if p == q then [] else Taken(s, p, q - 1) + [At(s, q - 1)]
  }

  lemma UpToFour(s: ByteString, p: nat)
    ensures Taken(s, p, p + 1) == [At(s, p)]
    ensures Taken(s, p, p + 2) == [At(s, p), At(s, p + 1)]
    ensures Taken(s, p, p + 3) == [At(s, p), At(s, p + 1), At(s, p + 2)]
    ensures Taken(s, p, p + 4) == [At(s, p), At(s, p + 1), At(s, p + 2), At(s, p + 3)]
  {
    assert Taken(s, p, p) == [];
    assert Taken(s, p, p + 1) == Taken(s, p, p) + [At(s, p)];
    assert Taken(s, p, p + 2) == Taken(s, p, p + 1) + [At(s, p + 1)];
    assert Taken(s, p, p + 3) == Taken(s, p, p + 2) + [At(s, p + 2)];
    assert Taken(s, p, p + 4) == Taken(s, p, p + 3) + [At(s, p + 3)];
  }

  /** Validate accepts what Decode accepts, and copies exactly the bytes it takes. */
  method Validate(input: InputStream, output: OutputStream) returns (ok: bool)
    modifies input, output
    ensures var p := old(input.next);
            && (ok <==> LengthAt(input.bytes, p) > 0)
            && (ok ==> input.next == p + LengthAt(input.bytes, p))
            && input.next == p + Reads(At(input.bytes, p))
            && output.bytes == old(output.bytes) + Taken(input.bytes, p, input.next)
  {
    ghost var p := input.next;
    var c: Byte := input.Take();
    output.Put(c);
    if c < 0x80 {
      ok := true;
    } else {
      ok := ValidateRest(input, output, c);
    }
    FirstTaken(input.bytes, p, input.next);
  }

  lemma {:induction false} FirstTaken(s: ByteString, p: nat, q: nat)
    requires p < q
    ensures Taken(s, p, q) == [At(s, p)] + Taken(s, p + 1, q)
  {
    if p + 1 < q {
      FirstTaken(s, p, q - 1);
    } else {
      assert Taken(s, p, p) == [] && Taken(s, p + 1, q) == [];
    }
  }

  method ValidateRest(input: InputStream, output: OutputStream, c: Byte) returns (ok: bool)
    requires c >= 0x80 && input.next > 0 && c == At(input.bytes, input.next - 1)
    modifies input, output
    ensures var p := old(input.next) - 1;
            && (ok <==> LengthAt(input.bytes, p) > 0)
            && (ok ==> input.next == p + LengthAt(input.bytes, p))
            && input.next == p + Reads(At(input.bytes, p))
            && output.bytes == old(output.bytes) + Taken(input.bytes, p + 1, input.next)
  {
    UpToFour(input.bytes, input.next);
    Masks(At(input.bytes, input.next));
    LeadTypes(c);
    var range := GetRange(c);
    match range
    case 2 => ok := Pass(input, output, 0x70);
    case 3 => ok := Pass2(input, output, 0x70);
    case 4 => ok := Pass2(input, output, 0x50);
    case 5 => ok := Pass3(input, output, 0x10);
    case 6 => ok := Pass3(input, output, 0x70);
    case 10 => ok := Pass2(input, output, 0x20);
    case 11 => ok := Pass3(input, output, 0x60);
    case _ => ok := false;
  }

  // ---------- encoding and decoding are inverse ----------

  /** Four bytes that begin with a string. */
  ghost predicate BeginsWith(b0: nat, b1: nat, b2: nat, b3: nat, e: ByteString) {
    && (|e| > 0 ==> b0 == e[0]) && (|e| > 1 ==> b1 == e[1]) && (|e| > 2 ==> b2 == e[2]) && (|e| > 3 ==> b3 == e[3])
  }

  /** Base-64 digits, low to high. */
  lemma Digits(c: nat)
    ensures c == c / 64 * 64 + c % 64
    ensures c / 4096 == c / 64 / 64 && c / 0x4_0000 == c / 4096 / 64
    ensures c / 64 == c / 4096 * 64 + c / 64 % 64 && c / 4096 == c / 0x4_0000 * 64 + c / 4096 % 64
  {
  }

  lemma TailDigit(d: nat)
    requires d < 64
    ensures Tail(0x80 + d) && (0x80 + d) % 64 == d
  {
  }

  lemma LeadDigit(d: nat)
    ensures d < 32 ==> (0xc0 + d) % 32 == d
    ensures d < 16 ==> (0xe0 + d) % 16 == d
    ensures d < 8 ==> (0xf0 + d) % 8 == d
  {
  }

  /** An encoded scalar value is a character of the grammar, whatever follows it, and its
      number is that value. */
  lemma EncodedIsChar(c: nat, b0: nat, b1: nat, b2: nat, b3: nat)
    requires c < 0xd800 || 0xe000 <= c <= 0x10_ffff
    requires BeginsWith(b0, b1, b2, b3, Encoded(c))
    ensures CharLength(b0, b1, b2, b3) == |Encoded(c)| && CharValue(b0, b1, b2, b3) == c
  {
    if c <= 0x7ff {
      Digits(c);
      TailDigit(c % 64);
      LeadDigit(c / 64);
    } else if c <= 0xffff {
      ThreeBytesAreChar(c);
    } else {
      FourBytesAreChar(c);
    }
  }

  lemma ThreeBytesAreChar(c: nat)
    requires 0x7ff < c <= 0xffff && Scalar(c)
    ensures var b0, b1, b2 := 0xe0 + c / 4096, 0x80 + c / 64 % 64, 0x80 + c % 64;
            forall b3 :: CharLength(b0, b1, b2, b3) == 3 && CharValue(b0, b1, b2, b3) == c
  {
    Digits(c);
    TailDigit(c % 64);
    TailDigit(c / 64 % 64);
    LeadDigit(c / 4096);
    ThreeByteRange(c);
  }

  lemma FourBytesAreChar(c: nat)
    requires 0xffff < c <= 0x10_ffff
    ensures var b0, b1, b2, b3 := 0xf0 + c / 0x4_0000, 0x80 + c / 4096 % 64, 0x80 + c / 64 % 64, 0x80 + c % 64;
            CharLength(b0, b1, b2, b3) == 4 && CharValue(b0, b1, b2, b3) == c
  {
    Digits(c);
    TailDigit(c % 64);
    TailDigit(c / 64 % 64);
    TailDigit(c / 4096 % 64);
    LeadDigit(c / 0x4_0000);
    FourByteRange(c);
  }

  lemma ThreeByteRange(c: nat)
    requires 0x7ff < c <= 0xffff && Scalar(c)
    ensures c / 4096 < 16
    ensures c / 4096 == 0 ==> c / 64 % 64 >= 32
    ensures c / 4096 == 13 ==> c / 64 % 64 < 32
  {
  }

  lemma FourByteRange(c: nat)
    requires 0xffff < c <= 0x10_ffff
    ensures c / 0x4_0000 <= 4
    ensures c / 0x4_0000 == 0 ==> c / 4096 % 64 >= 16
    ensures c / 0x4_0000 == 4 ==> c / 4096 % 64 < 16
  {
  }

  /** And every character of the grammar is the encoding of its number, a scalar value. */
  lemma CharIsEncoded(b0: Byte, b1: Byte, b2: Byte, b3: Byte)
    requires CharLength(b0, b1, b2, b3) > 0
    ensures var c := CharValue(b0, b1, b2, b3);
            && (c < 0xd800 || 0xe000 <= c <= 0x10_ffff)
            && |Encoded(c)| == CharLength(b0, b1, b2, b3) && BeginsWith(b0, b1, b2, b3, Encoded(c))
  {
    var n := CharLength(b0, b1, b2, b3);
    if n == 2 {
      TwoBack(b0, b1);
    } else if n == 3 {
      ThreeBack(b0, b1, b2);
    } else if n == 4 {
      FourBack(b0, b1, b2, b3);
    }
  }

  lemma TwoBack(b0: nat, b1: nat)
    requires 0xc2 <= b0 <= 0xdf && Tail(b1)
    ensures var c := (b0 % 32) * 64 + b1 % 64;
            0x7f < c <= 0x7ff && 0xc0 + c / 64 == b0 && 0x80 + c % 64 == b1
  {
  }

  lemma ThreeBack(b0: nat, b1: nat, b2: nat)
    requires 0xe0 <= b0 <= 0xef && Tail(b1) && Tail(b2) && (b0 == 0xe0 ==> b1 >= 0xa0) && (b0 == 0xed ==> b1 <= 0x9f)
    ensures var c := ((b0 % 16) * 64 + b1 % 64) * 64 + b2 % 64;
            && 0x7ff < c <= 0xffff && Scalar(c)
            && 0xe0 + c / 4096 == b0 && 0x80 + c / 64 % 64 == b1 && 0x80 + c % 64 == b2
  {
    var y := (b0 % 16) * 64 + b1 % 64;
    Digits(y * 64 + b2 % 64);
    LastDigit(b0 % 16, b1 % 64);
    LastDigit(y, b2 % 64);
  }

  lemma FourBack(b0: nat, b1: nat, b2: nat, b3: nat)
    requires 0xf0 <= b0 <= 0xf4 && Tail(b1) && Tail(b2) && Tail(b3)
    requires (b0 == 0xf0 ==> b1 >= 0x90) && (b0 == 0xf4 ==> b1 <= 0x8f)
    ensures var c := (((b0 % 8) * 64 + b1 % 64) * 64 + b2 % 64) * 64 + b3 % 64;
            && 0xffff < c <= 0x10_ffff
            && 0xf0 + c / 0x4_0000 == b0 && 0x80 + c / 4096 % 64 == b1 && 0x80 + c / 64 % 64 == b2
              && 0x80 + c % 64 == b3
  {
    TailBits(b1);
    TailBits(b2);
    TailBits(b3);
    assert b0 % 8 == b0 - 0xf0;
    FourDigits(b0 - 0xf0, b1 - 0x80, b2 - 0x80, b3 - 0x80);
  }

  lemma TailBits(b: nat)
    requires Tail(b)
    ensures b % 64 == b - 0x80
  {
  }

  lemma FourDigits(x: nat, d1: nat, d2: nat, d3: nat)
    requires d1 < 64 && d2 < 64 && d3 < 64
    ensures var c := ((x * 64 + d1) * 64 + d2) * 64 + d3;
            c / 0x4_0000 == x && c / 4096 % 64 == d1 && c / 64 % 64 == d2 && c % 64 == d3
  {
    var y := x * 64 + d1;
    var z := y * 64 + d2;
    LastDigit(x, d1);
    LastDigit(y, d2);
    LastDigit(z, d3);
    Digits(z * 64 + d3);
  }

  lemma LastDigit(high: nat, digit: nat)
    requires digit < 64
    ensures (high * 64 + digit) / 64 == high && (high * 64 + digit) % 64 == digit
  {
  }

  /** The examples of section 7, and the last character of each length. */
  lemma Examples()
    ensures Encoded(0x41) == [0x41] && Encoded(0x391) == [0xce, 0x91] && Encoded(0x2262) == [0xe2, 0x89, 0xa2]
    ensures Encoded(0x2_33b4) == [0xf0, 0xa3, 0x8e, 0xb4]
    ensures Encoded(0x7f) == [0x7f] && Encoded(0x7ff) == [0xdf, 0xbf] && Encoded(0xffff) == [0xef, 0xbf, 0xbf]
    ensures Encoded(0x10_ffff) == [0xf4, 0x8f, 0xbf, 0xbf]
  {
  }

  // ---------- whole texts ----------

  function EncodedAll(text: seq<nat>, n: nat): ByteString
    requires n <= |text| && forall i :: 0 <= i < |text| ==> Scalar(text[i])
  {
    if n == 0 then [] else EncodedAll(text, n - 1) + Encoded(text[n - 1])
  }

  /** A text that was encoded, followed by anything, decodes character by character. */
  lemma TextDecodes(text: seq<nat>, after: ByteString, n: nat)
    requires n < |text| && forall i :: 0 <= i < |text| ==> Scalar(text[i])
    ensures var s, p := EncodedAll(text, |text|) + after, |EncodedAll(text, n)|;
            && LengthAt(s, p) == |Encoded(text[n])| && ValueAt(s, p) == text[n]
            && p + LengthAt(s, p) == |EncodedAll(text, n + 1)|
  {
    var s, p, e := EncodedAll(text, |text|) + after, |EncodedAll(text, n)|, Encoded(text[n]);
    PrefixOfText(text, n + 1, |text|);
    BytesStand(EncodedAll(text, n), e, EncodedAll(text, |text|), after);
    CharStands(s, p, text[n]);
  }

  lemma BytesStand(before: ByteString, e: ByteString, all: ByteString, after: ByteString)
    requires before + e <= all
    ensures forall k :: 0 <= k < |e| ==> At(all + after, |before| + k) == e[k]
  {
    forall k | 0 <= k < |e|
      ensures At(all + after, |before| + k) == e[k]
    {
      assert (before + e)[|before| + k] == e[k];
    }
  }

  lemma CharStands(s: ByteString, p: nat, c: nat)
    requires Scalar(c) && forall k :: 0 <= k < |Encoded(c)| ==> At(s, p + k) == Encoded(c)[k]
    ensures LengthAt(s, p) == |Encoded(c)| && ValueAt(s, p) == c
  {
    assert At(s, p + 0) == Encoded(c)[0];
    EncodedIsChar(c, At(s, p), At(s, p + 1), At(s, p + 2), At(s, p + 3));
  }

  lemma {:induction false} PrefixOfText(text: seq<nat>, m: nat, n: nat)
    requires m <= n <= |text| && forall i :: 0 <= i < |text| ==> Scalar(text[i])
    ensures EncodedAll(text, m) <= EncodedAll(text, n)
  {
    if m >= n {
    } else {
      PrefixOfText(text, m, n - 1);
    }
  }
}
