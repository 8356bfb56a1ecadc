/** lmdb_hash_manager_t: a one-byte approximate count per 7-byte hash prefix, used as
    a filter in front of the hash data store. */
module HashFilter {
  import opened ByteStrings

  const NUM_PREFIX_BYTES: nat := 7

  function Pow5(x: nat): nat {
    if x == 0 then 1 else 5 * Pow5(x - 1)
  }

  /** How often m must be divided by 5 to come down to 19. */
  function Exponent(m: nat): nat {
    if m > 19 then 1 + Exponent(m / 5) else 0
  }

  function Mantissa(m: nat): nat {
    if m > 19 then Mantissa(m / 5) else m
  }

  /** count + 5 on size_t. */
  function Biased(count: U64): nat {
    if count + 5 < TWO_TO_THE_64 then count + 5 else count + 5 - TWO_TO_THE_64
  }

  /** count_to_byte: exponent in the high nibble, mantissa less 4 in the low one. */
  function Code(count: U64): Byte {
    var m := Biased(count);
    MantissaRange(m);
    16 * (if Exponent(m) > 15 then 15 else Exponent(m)) + (if Mantissa(m) > 4 then Mantissa(m) - 4 else 0)
  }

  method CountToByte(count: U64) returns (b: Byte)
    ensures b == Code(count)
  {
    var x, m := 0, Biased(count);
    while m > 19
      invariant Exponent(Biased(count)) == x + Exponent(m) && Mantissa(Biased(count)) == Mantissa(m)
    {
      m := m / 5;
      x := x + 1;
    }
    MantissaRange(Biased(count));
    m := if m > 4 then m - 4 else 0;
    if x > 15 {
      x := 15;
    }
    b := 16 * x + m;
  }

  /** byte_to_count: the table holds the powers of 5, and a zero low nibble below the
      first power wraps below zero. */
  function Decoded(b: Byte): U64 {
    Pow5Bounded(b / 16);
    Scale(30517578125, Pow5(b / 16), b % 16 + 4);
    var n := Pow5(b / 16) * (b % 16 + 4);
    if n >= 5 then n - 5 else n - 5 + TWO_TO_THE_64
  }

  lemma Pow5Bounded(x: nat)
    requires x <= 15
    ensures 0 < Pow5(x) <= 30517578125
  {
    Pow5Positive(x);
    Pow5Positive(15);
    Pow5Monotone(x, 15);
    assert Pow5(5) == 3125;
    assert Pow5(10) == 3125 * Pow5(5);
    assert Pow5(15) == 3125 * Pow5(10);
  }

  lemma {:induction false} Pow5Positive(x: nat)
    ensures Pow5(x) > 0
  {
    if x == 0 {
    } else {
      Pow5Positive(x - 1);
    }
  }

  lemma {:induction false} Pow5Monotone(x: nat, y: nat)
    requires x <= y
    ensures Pow5(x) <= Pow5(y)
  {
    if x >= y {
    } else {
      Pow5Monotone(x, y - 1);
    }
  }

  /** The reduced value fits its nibble, and is at least 4 unless nothing was left. */
  lemma {:induction false} MantissaRange(m: nat)
    ensures Mantissa(m) <= 19
    ensures m >= 4 ==> Mantissa(m) >= 4
  {
    if m <= 19 {
    } else {
      MantissaRange(m / 5);
    }
  }

  /** Dividing by 5 again and again is one division by the power. */
  lemma {:induction false} RepeatedDivision(m: nat)
    ensures Pow5(Exponent(m)) * Mantissa(m) <= m < Pow5(Exponent(m)) * (Mantissa(m) + 1)
  {
    if m <= 19 {
    } else {
      RepeatedDivision(m / 5);
      assert Pow5(Exponent(m)) == 5 * Pow5(Exponent(m / 5));
      Lift(m, m / 5, Mantissa(m), Pow5(Exponent(m / 5)));
    }
  }

  lemma Lift(m: nat, q: nat, k: nat, p: nat)
    requires 5 * q <= m < 5 * q + 5 && p * k <= q < p * (k + 1)
    ensures 5 * p * k <= m < 5 * p * (k + 1)
  {
    assert 5 * p * k == 5 * (p * k);
    assert 5 * p * (k + 1) == 5 * (p * (k + 1));
  }

  /** A larger value never gets a smaller exponent, nor a smaller mantissa at equal
      exponents. */
  lemma {:induction false} ReductionMonotone(m: nat, n: nat)
    requires m <= n
    ensures Exponent(m) < Exponent(n) || (Exponent(m) == Exponent(n) && Mantissa(m) <= Mantissa(n))
  {
    if m <= 19 {
    } else {
      ReductionMonotone(m / 5, n / 5);
    }
  }

  lemma CodeMonotone(a: U64, b: U64)
    requires a <= b && b + 5 < TWO_TO_THE_64 && Exponent(b + 5) <= 15
    ensures Code(a) <= Code(b)
  {
    ReductionMonotone(a + 5, b + 5);
    MantissaRange(a + 5);
    MantissaRange(b + 5);
  }

  /** When the exponent of the greater count is capped, its mantissa alone decides; a
      count whose bias wraps has the least code. */
  lemma CodeOrder(a: U64, b: U64)
    requires a <= b
    ensures Code(a) <= Code(b) <==>
              if b + 5 < TWO_TO_THE_64 then
                Exponent(b + 5) <= 15 || Exponent(a + 5) < 15 || Mantissa(a + 5) <= Mantissa(b + 5)
              else a + 5 >= TWO_TO_THE_64
  {
    if b + 5 < TWO_TO_THE_64 {
      ReductionMonotone(a + 5, b + 5);
      MantissaRange(a + 5);
      MantissaRange(b + 5);
    } else {
      ZeroByte(a);
      ZeroByte(b);
    }
  }

  /** The code 0 is left to the five counts whose bias wraps. */
  lemma ZeroByte(count: U64)
    ensures Code(count) == 0 <==> count + 5 >= TWO_TO_THE_64
  {
    MantissaRange(Biased(count));
  }

  /** What is a mantissa times a power of 5 comes apart into the two. */
  lemma {:induction false} ScaledReduces(x: nat, k: nat)
    requires 4 <= k <= 19
    ensures Exponent(Pow5(x) * k) == x && Mantissa(Pow5(x) * k) == k
  {
    if x == 0 {
    } else {
      Pow5Positive(x - 1);
      Scale(k, 4, Pow5(x - 1));
      assert Pow5(x) * k == 5 * (Pow5(x - 1) * k);
      ScaledReduces(x - 1, k);
    }
  }

  /** The codes do fall where the cap sets in: from 255 to 240, at a count one
      twentieth up. */
  lemma CodeFalls()
    ensures Code(19 * 0x7_1afd_498d - 5) == 255 && Code(20 * 0x7_1afd_498d - 5) == 240
  {
    Pow5Of16();
    assert Pow5(15) == 0x7_1afd_498d;
    ScaledReduces(15, 19);
    ScaledReduces(16, 4);
  }

  lemma DecodedCode(count: U64)
    requires count + 5 < TWO_TO_THE_64 && Exponent(count + 5) <= 15
    ensures Decoded(Code(count)) == Pow5(Exponent(count + 5)) * Mantissa(count + 5) - 5
  {
    var m := count + 5;
    MantissaRange(m);
    Pow5Bounded(Exponent(m));
    assert Code(count) / 16 == Exponent(m) && Code(count) % 16 == Mantissa(m) - 4;
    RepeatedDivision(m);
    if m > 19 {
      assert Pow5(Exponent(m)) == 5 * Pow5(Exponent(m) - 1);
      Pow5Positive(Exponent(m) - 1);
      Scale(Mantissa(m), 4, Pow5(Exponent(m)));
    }
  }

  lemma Scale(a: nat, b: nat, c: nat)
    requires a >= b
    ensures a * c >= b * c && c * a >= c * b
  {
  }

  /** The decoded count exceeds the count exactly for four counts whose bias wraps, and is
      at most a quarter below it exactly when the bias wraps or the exponent is not capped. */
  lemma OverReportsExactly(count: U64)
    ensures Decoded(Code(count)) <= count <==> count + 5 < TWO_TO_THE_64 || count == TWO_TO_THE_64 - 1
    ensures 4 * (count + 5) < 5 * (Decoded(Code(count)) + 5) <==>
              count + 5 >= TWO_TO_THE_64 || Exponent(count + 5) <= 15
  {
    if count + 5 < TWO_TO_THE_64 {
      DecodedBelow(count);
    } else {
      ZeroByte(count);
    }
  }

  lemma DecodedBelow(count: U64)
    requires count + 5 < TWO_TO_THE_64
    ensures Decoded(Code(count)) <= count
    ensures 4 * (count + 5) < 5 * (Decoded(Code(count)) + 5) <==> Exponent(count + 5) <= 15
  {
    var m := count + 5;
    RepeatedDivision(m);
    MantissaRange(m);
    if Exponent(m) <= 15 {
      DecodedCode(count);
      WithinQuarter(m, Mantissa(m), Pow5(Exponent(m)));
    } else {
      DecodedCapped(count);
      Pow5Monotone(16, Exponent(m));
      Scale(Pow5(Exponent(m)), Pow5(16), Mantissa(m));
      FifthAtMost(m, Mantissa(m), Pow5(15));
    }
  }

  lemma DecodedCapped(count: U64)
    requires count + 5 < TWO_TO_THE_64 && Exponent(count + 5) > 15
    ensures Decoded(Code(count)) == Pow5(15) * Mantissa(count + 5) - 5
  {
    var m := count + 5;
    MantissaRange(m);
    Pow5Bounded(15);
    assert Code(count) / 16 == 15 && Code(count) % 16 == Mantissa(m) - 4;
    assert Pow5(15) == 5 * Pow5(14);
    Pow5Positive(14);
    Scale(Mantissa(m), 4, Pow5(15));
  }

  lemma FifthAtMost(m: nat, k: nat, p: nat)
    requires 5 * p * k <= m
    ensures 5 * (p * k) <= m
  {
    assert 5 * p * k == 5 * (p * k);
  }

  lemma WithinQuarter(m: nat, k: nat, p: nat)
    requires k >= 4 && p * k <= m < p * (k + 1)
    ensures 4 * m < 5 * (p * k)
  {
    assert p * (k + 1) == p * k + p;
    Scale(k, 4, p);
  }

  /** Counts to 14 come back exactly, and every 32-bit count has a small exponent. */
  lemma SmallCountsExact(count: U64)
    ensures count <= 14 ==> Decoded(Code(count)) == count
    ensures count < TWO_TO_THE_32 ==> Exponent(count + 5) <= 15
  {
    if count < TWO_TO_THE_32 {
      RepeatedDivision(count + 5);
      MantissaRange(count + 5);
      if Exponent(count + 5) > 15 {
        Pow5Monotone(16, Exponent(count + 5));
        Scale(Mantissa(count + 5), 4, Pow5(Exponent(count + 5)));
        Pow5Of16();
      }
    }
    if count <= 14 {
      DecodedCode(count);
    }
  }

  lemma Pow5Of16()
    ensures Pow5(16) == 152587890625
  {
    assert Pow5(5) == 3125;
    assert Pow5(10) == 3125 * Pow5(5);
    assert Pow5(15) == 3125 * Pow5(10);
  }

  /** The code of an absent hash: the only one that decodes to zero, and the code of
      no other count, however large. */
  lemma ZeroCode(count: U64)
    ensures Decoded(Code(count)) == 0 <==> count == 0
  {
    OnlyCodeOne(Code(count));
    var m := Biased(count);
    MantissaRange(m);
    if m > 19 {
      assert Exponent(m) >= 1;
    }
  }

  lemma OnlyCodeOne(b: Byte)
    ensures Decoded(b) == 0 <==> b == 1
  {
    Pow5Bounded(b / 16);
    if b / 16 > 0 {
      assert Pow5(b / 16) == 5 * Pow5(b / 16 - 1);
      Pow5Positive(b / 16 - 1);
      Scale(b % 16 + 4, 4, Pow5(b / 16));
    }
  }

  function Prefix(hash: ByteString): ByteString {
    if |hash| > NUM_PREFIX_BYTES then hash[..NUM_PREFIX_BYTES] else hash
  }

  /** Which hashes share a byte of the filter: only such as agree in their first seven bytes. */
  predicate SameByte(g: ByteString, h: ByteString) {
    g == h || (|g| >= 7 && |h| >= 7 && g[..7] == h[..7])
  }

  lemma PrefixIsSevenBytes(g: ByteString, h: ByteString)
    ensures Prefix(g) == Prefix(h) <==> SameByte(g, h)
  {
    if |g| > 7 {
      assert |g[..7]| == 7;
    }
    if |h| > 7 {
      assert |h[..7]| == 7;
    }
  }

  class HashManager {
    var env: map<ByteString, Byte>
    var inserted: nat
    var countChanged: nat
    var countNotChanged: nat

    constructor ()
      ensures env == map[] && inserted == countChanged == countNotChanged == 0
    {
      env := map[];
      inserted, countChanged, countNotChanged := 0, 0, 0;
    }

    /** The approximate count of a hash with this prefix, zero when there is none. */
    function Approximate(hash: ByteString): U64
      reads this
    {
      if Prefix(hash) in env then Decoded(env[Prefix(hash)]) else 0
    }

    method Insert(hash: ByteString, count: U64)
      modifies this
      ensures hash == [] ==> env == old(env)
      ensures hash != [] ==> env == old(env)[Prefix(hash) := Code(count)]
      ensures hash != [] ==> (Approximate(hash) == 0 <==> count == 0)
      ensures forall h :: Approximate(h) == if hash != [] && (h == hash || (|h| >= 7 && |hash| >= 7
                                                                             && h[..7] == hash[..7]))
                                            then Decoded(Code(count)) else old(Approximate(h))
      ensures var key := Prefix(hash);
              && inserted == old(inserted) + (if hash != [] && key !in old(env) then 1 else 0)
              && countNotChanged == old(countNotChanged)
                                    + (if hash != [] && key in old(env) && old(env)[key] == Code(count) then 1 else 0)
              && countChanged == old(countChanged)
                                 + (if hash != [] && key in old(env) && old(env)[key] != Code(count) then 1 else 0)
    {
      if |hash| == 0 {
        return;
      }
      ZeroCode(count);
      forall h {
        PrefixIsSevenBytes(h, hash);
      }
      var key := Prefix(hash);
      var data := CountToByte(count);
      if key !in env {
        env := env[key := data];
        inserted := inserted + 1;
      } else if env[key] == data {
        countNotChanged := countNotChanged + 1;
      } else {
        env := env[key := data];
        countChanged := countChanged + 1;
      }
    }

    method Find(hash: ByteString) returns (count: U64)
      requires hash != []
      ensures count == Approximate(hash)
    {
      var key := Prefix(hash);
      if key !in env {
        return 0;
      }
      count := Decoded(env[key]);
    }
  }
}
