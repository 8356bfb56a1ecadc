/** UTF-16 as the JSON library encodes, decodes and validates it, against sections 2.1 and
    2.2 of RFC 2781. A unit is 16 bits wide. */
module Utf16 {
  import opened Utf8

  type Unit = u: int | 0 <= u < 0x1_0000

  predicate High(u: Unit) {
    0xd800 <= u <= 0xdbff
  }

  predicate Low(u: Unit) {
    0xdc00 <= u <= 0xdfff
  }

  // ---------- the standard ----------

  /** Section 2.2: how many units the character at the head of two units takes; zero when
      there is none. */
  function CharLength(w1: Unit, w2: Unit): nat {
    if !High(w1) && !Low(w1) then 1 else if High(w1) && Low(w2) then 2 else 0
  }

  /** A pair carries ten bits in each unit, above 0x10000. */
  function CharValue(w1: Unit, w2: Unit): nat {
    if High(w1) && Low(w2) then (w1 - 0xd800) * 0x400 + (w2 - 0xdc00) + 0x1_0000 else w1
  }

  // ---------- streams of units ----------

  function UnitAt(s: seq<Unit>, i: nat): Unit {
    if i < |s| then s[i] else 0
  }

  class InputUnits {
    const units: seq<Unit>
    var next: nat

    constructor (units: seq<Unit>)
      ensures this.units == units && next == 0
    {
      this.units := units;
      next := 0;
    }

    method Take() returns (c: Unit)
      modifies this
      ensures c == UnitAt(units, old(next)) && next == old(next) + 1
    {
      c := UnitAt(units, next);
      next := next + 1;
    }
  }

  class OutputUnits {
    var units: seq<Unit>

    constructor ()
      ensures units == []
    {
      units := [];
    }

    method Put(c: Unit)
      modifies this
      ensures units == old(units) + [c]
    {
      units := units + [c];
    }
  }

  // ---------- the code ----------

  function Encoded(c: nat): seq<Unit>
    requires Scalar(c)
  {
    if c <= 0xffff then [c] else [0xd800 + (c - 0x1_0000) / 0x400, 0xdc00 + (c - 0x1_0000) % 0x400]
  }

  /** The code asserts that a code point in the first plane is no surrogate. */
  method Encode(output: OutputUnits, codepoint: nat)
    requires Scalar(codepoint)
    modifies output
    ensures output.units == old(output.units) + Encoded(codepoint)
  {
    if codepoint <= 0xffff {
      output.Put(codepoint);
    } else {
      var v := codepoint - 0x1_0000;
      output.Put(v / 0x400 + 0xd800);
      output.Put(v % 0x400 + 0xdc00);
    }
  }

  function LengthAt(s: seq<Unit>, p: nat): nat {
    CharLength(UnitAt(s, p), UnitAt(s, p + 1))
  }

  method Decode(input: InputUnits) returns (ok: bool, codepoint: nat)
    modifies input
    ensures var p := old(input.next);
            && (ok <==> LengthAt(input.units, p) > 0)
            && (ok ==> input.next == p + LengthAt(input.units, p)
                       && codepoint == CharValue(UnitAt(input.units, p), UnitAt(input.units, p + 1)))
            && p < input.next <= p + 2
  {
    var c: Unit := input.Take();
    var u: int := c;
    if u < 0xd800 || u > 0xdfff {
      return true, u;
    } else if u <= 0xdbff {
      TenBits(u);
      codepoint := u % 0x400 * 0x400;
      c := input.Take();
      u := c;
      TenBits(u);
      codepoint := codepoint + u % 0x400;
      codepoint := codepoint + 0x1_0000;
      return u >= 0xdc00 && u <= 0xdfff, codepoint;
    }
    return false, 0;
  }

  lemma TenBits(u: int)
    requires 0 <= u < 0x1_0000
    ensures 0xd800 <= u <= 0xdbff ==> u % 0x400 == u - 0xd800
    ensures 0xdc00 <= u <= 0xdfff ==> u % 0x400 == u - 0xdc00
  {
  }

  /** Validate accepts what Decode accepts, and copies exactly the units it takes. */
  method Validate(input: InputUnits, output: OutputUnits) returns (ok: bool)
    modifies input, output
    ensures var s, p := input.units, old(input.next);
            && (ok <==> LengthAt(s, p) > 0)
            && (ok ==> input.next == p + LengthAt(s, p))
            && p < input.next <= p + 2
            && output.units == old(output.units)
                               + (if input.next == p + 1 then [UnitAt(s, p)] else [UnitAt(s, p), UnitAt(s, p + 1)])
  {
    var c: Unit := input.Take();
    output.Put(c);
    if c < 0xd800 || c > 0xdfff {
      return true;
    } else if c <= 0xdbff {
      c := input.Take();
      output.Put(c);
      return c >= 0xdc00 && c <= 0xdfff;
    }
    return false;
  }

  // ---------- encoding and decoding are inverse ----------

  lemma EncodedIsChar(c: nat, w1: Unit, w2: Unit)
    requires c < 0xd800 || 0xe000 <= c <= 0x10_ffff
    requires w1 == Encoded(c)[0] && (|Encoded(c)| > 1 ==> w2 == Encoded(c)[1])
    ensures CharLength(w1, w2) == |Encoded(c)| && CharValue(w1, w2) == c
  {
    if c > 0xffff {
      var v := c - 0x1_0000;
      assert v == v / 0x400 * 0x400 + v % 0x400;
    }
  }

  lemma CharIsEncoded(w1: Unit, w2: Unit)
    requires CharLength(w1, w2) > 0
    ensures var c := CharValue(w1, w2);
            && (c < 0xd800 || 0xe000 <= c <= 0x10_ffff)
            && Encoded(c) == if CharLength(w1, w2) == 1 then [w1] else [w1, w2]
  {
    if CharLength(w1, w2) == 2 {
      Pair(w1 - 0xd800, w2 - 0xdc00);
    }
  }

  /** The example of section 5, and the ends of both ranges. */
  lemma Examples()
    ensures Encoded(0x1_2345) == [0xd808, 0xdf45]
    ensures Encoded(0xffff) == [0xffff] && Encoded(0x1_0000) == [0xd800, 0xdc00]
    ensures Encoded(0x10_ffff) == [0xdbff, 0xdfff]
  {
  }

  lemma Pair(x: nat, y: nat)
    requires x < 0x400 && y < 0x400
    ensures (x * 0x400 + y) / 0x400 == x && (x * 0x400 + y) % 0x400 == y
  {
  }

  function EncodedAll(text: seq<nat>, n: nat): seq<Unit>
    requires n <= |text| && forall i :: 0 <= i < |text| ==> Scalar(text[i])
  {
    if n == 0 then [] else EncodedAll(text, n - 1) + Encoded(text[n - 1])
  }

  /** A text that was encoded, followed by anything, decodes character by character. */
  lemma TextDecodes(text: seq<nat>, after: seq<Unit>, n: nat)
    requires n < |text| && forall i :: 0 <= i < |text| ==> Scalar(text[i])
    ensures var s, p := EncodedAll(text, |text|) + after, |EncodedAll(text, n)|;
            && LengthAt(s, p) == |Encoded(text[n])| && CharValue(UnitAt(s, p), UnitAt(s, p + 1)) == text[n]
            && p + LengthAt(s, p) == |EncodedAll(text, n + 1)|
  {
    var s, p, e := EncodedAll(text, |text|) + after, |EncodedAll(text, n)|, Encoded(text[n]);
    PrefixOfText(text, n + 1, |text|);
    assert EncodedAll(text, n + 1) == EncodedAll(text, n) + e;
    forall k | 0 <= k < |e|
      ensures UnitAt(s, p + k) == e[k]
    {
      assert EncodedAll(text, n + 1)[p + k] == e[k];
    }
    EncodedIsChar(text[n], UnitAt(s, p), UnitAt(s, p + 1));
  }

  lemma {:induction false} PrefixOfText(text: seq<nat>, m: nat, n: nat)
    requires m <= n <= |text| && forall i :: 0 <= i < |text| ==> Scalar(text[i])
    ensures EncodedAll(text, m) <= EncodedAll(text, n)
  {
    if m >= n {
    } else {
      PrefixOfText(text, m, n - 1);
    }
  }
}
