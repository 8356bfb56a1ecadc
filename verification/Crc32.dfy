/** crc32: the table-driven form against bit-by-bit division by the reflected polynomial
    (section 8 of RFC 1952), and the CRC of a list of sources. */
module Crc32 {
  import opened ByteStrings

  const POLYNOMIAL: bv32 := 0xedb8_8320

  const ALL_ONES: bv32 := 0xffff_ffff

  // ---------- bit by bit ----------

  /** One bit of the division. */
  function Step(crc: bv32): bv32 {
    if crc & 1 == 1 then POLYNOMIAL ^ (crc >> 1) else crc >> 1
  }

  /** The register, boxed so that most proofs need not look at its bits. */
  datatype Register = Register(bits: bv32)

  datatype Seal = Seal

  ghost predicate IsStep(seal: Seal, r: Register, q: Register) {
    q.bits == Step(r.bits)
  }

  ghost predicate Sealed(r: Register, q: Register) {
    forall seal :: IsStep(seal, r, q)
  }

  lemma SomeStep(r: Register)
    ensures exists q :: Sealed(r, q)
  {
    assert Sealed(r, Register(Step(r.bits)));
  }

  /** Step under its seal. */
  ghost function Divide(r: Register): Register {
    SomeStep(r);
    var q :| Sealed(r, q);
    q
  }

  lemma OpenDivide(r: Register)
    ensures Divide(r) == Register(Step(r.bits))
  {
    assert IsStep(Seal, r, Divide(r));
  }

  /** n bits of the division. */
  ghost function Divided(r: Register, n: nat): Register
    decreases n
  {
    if n == 0 then r else Divided(Divide(r), n - 1)
  }

  /** A byte goes into the low end of the register, and is divided out bit by bit. */
  ghost function AfterByte(crc: bv32, b: bv8): bv32 {
    Divided(Register(crc ^ (b as bv32)), 8).bits
  }

  ghost function AfterBytes(crc: bv32, bytes: seq<bv8>, n: nat): bv32
    requires n <= |bytes|
  {
    if n == 0 then crc else AfterByte(AfterBytes(crc, bytes, n - 1), bytes[n - 1])
  }

  /** The CRC of bytes after an earlier CRC: the register is complemented on both ends. */
  ghost function Crc(crc: bv32, bytes: seq<bv8>): bv32 {
    AfterBytes(crc ^ ALL_ONES, bytes, |bytes|) ^ ALL_ONES
  }

  // ---------- the table ----------

  function EightSteps(crc: bv32): bv32 {
    Step(Step(Step(Step(Step(Step(Step(Step(crc))))))))
  }

  function Row0(c: bv32): bv32 {
    if c == 0 then 0x0000_0000 else if c == 1 then 0x7707_3096 else if c == 2 then 0xee0e_612c
    else if c == 3 then 0x9909_51ba else if c == 4 then 0x076d_c419 else if c == 5 then 0x706a_f48f
    else if c == 6 then 0xe963_a535 else if c == 7 then 0x9e64_95a3 else if c == 8 then 0x0edb_8832
    else if c == 9 then 0x79dc_b8a4 else if c == 10 then 0xe0d5_e91e else if c == 11 then 0x97d2_d988
    else if c == 12 then 0x09b6_4c2b else if c == 13 then 0x7eb1_7cbd else if c == 14 then 0xe7b8_2d07
    else 0x90bf_1d91
  }

  function Row1(c: bv32): bv32 {
    if c == 0 then 0x1db7_1064 else if c == 1 then 0x6ab0_20f2 else if c == 2 then 0xf3b9_7148
    else if c == 3 then 0x84be_41de else if c == 4 then 0x1ada_d47d else if c == 5 then 0x6ddd_e4eb
    else if c == 6 then 0xf4d4_b551 else if c == 7 then 0x83d3_85c7 else if c == 8 then 0x136c_9856
    else if c == 9 then 0x646b_a8c0 else if c == 10 then 0xfd62_f97a else if c == 11 then 0x8a65_c9ec
    else if c == 12 then 0x1401_5c4f else if c == 13 then 0x6306_6cd9 else if c == 14 then 0xfa0f_3d63
    else 0x8d08_0df5
  }

  function Row2(c: bv32): bv32 {
    if c == 0 then 0x3b6e_20c8 else if c == 1 then 0x4c69_105e else if c == 2 then 0xd560_41e4
    else if c == 3 then 0xa267_7172 else if c == 4 then 0x3c03_e4d1 else if c == 5 then 0x4b04_d447
    else if c == 6 then 0xd20d_85fd else if c == 7 then 0xa50a_b56b else if c == 8 then 0x35b5_a8fa
    else if c == 9 then 0x42b2_986c else if c == 10 then 0xdbbb_c9d6 else if c == 11 then 0xacbc_f940
    else if c == 12 then 0x32d8_6ce3 else if c == 13 then 0x45df_5c75 else if c == 14 then 0xdcd6_0dcf
    else 0xabd1_3d59
  }

  function Row3(c: bv32): bv32 {
    if c == 0 then 0x26d9_30ac else if c == 1 then 0x51de_003a else if c == 2 then 0xc8d7_5180
    else if c == 3 then 0xbfd0_6116 else if c == 4 then 0x21b4_f4b5 else if c == 5 then 0x56b3_c423
    else if c == 6 then 0xcfba_9599 else if c == 7 then 0xb8bd_a50f else if c == 8 then 0x2802_b89e
    else if c == 9 then 0x5f05_8808 else if c == 10 then 0xc60c_d9b2 else if c == 11 then 0xb10b_e924
    else if c == 12 then 0x2f6f_7c87 else if c == 13 then 0x5868_4c11 else if c == 14 then 0xc161_1dab
    else 0xb666_2d3d
  }

  function Row4(c: bv32): bv32 {
    if c == 0 then 0x76dc_4190 else if c == 1 then 0x01db_7106 else if c == 2 then 0x98d2_20bc
    else if c == 3 then 0xefd5_102a else if c == 4 then 0x71b1_8589 else if c == 5 then 0x06b6_b51f
    else if c == 6 then 0x9fbf_e4a5 else if c == 7 then 0xe8b8_d433 else if c == 8 then 0x7807_c9a2
    else if c == 9 then 0x0f00_f934 else if c == 10 then 0x9609_a88e else if c == 11 then 0xe10e_9818
    else if c == 12 then 0x7f6a_0dbb else if c == 13 then 0x086d_3d2d else if c == 14 then 0x9164_6c97
    else 0xe663_5c01
  }

  function Row5(c: bv32): bv32 {
    if c == 0 then 0x6b6b_51f4 else if c == 1 then 0x1c6c_6162 else if c == 2 then 0x8565_30d8
    else if c == 3 then 0xf262_004e else if c == 4 then 0x6c06_95ed else if c == 5 then 0x1b01_a57b
    else if c == 6 then 0x8208_f4c1 else if c == 7 then 0xf50f_c457 else if c == 8 then 0x65b0_d9c6
    else if c == 9 then 0x12b7_e950 else if c == 10 then 0x8bbe_b8ea else if c == 11 then 0xfcb9_887c
    else if c == 12 then 0x62dd_1ddf else if c == 13 then 0x15da_2d49 else if c == 14 then 0x8cd3_7cf3
    else 0xfbd4_4c65
  }

  function Row6(c: bv32): bv32 {
    if c == 0 then 0x4db2_6158 else if c == 1 then 0x3ab5_51ce else if c == 2 then 0xa3bc_0074
    else if c == 3 then 0xd4bb_30e2 else if c == 4 then 0x4adf_a541 else if c == 5 then 0x3dd8_95d7
    else if c == 6 then 0xa4d1_c46d else if c == 7 then 0xd3d6_f4fb else if c == 8 then 0x4369_e96a
    else if c == 9 then 0x346e_d9fc else if c == 10 then 0xad67_8846 else if c == 11 then 0xda60_b8d0
    else if c == 12 then 0x4404_2d73 else if c == 13 then 0x3303_1de5 else if c == 14 then 0xaa0a_4c5f
    else 0xdd0d_7cc9
  }

  function Row7(c: bv32): bv32 {
    if c == 0 then 0x5005_713c else if c == 1 then 0x2702_41aa else if c == 2 then 0xbe0b_1010
    else if c == 3 then 0xc90c_2086 else if c == 4 then 0x5768_b525 else if c == 5 then 0x206f_85b3
    else if c == 6 then 0xb966_d409 else if c == 7 then 0xce61_e49f else if c == 8 then 0x5ede_f90e
    else if c == 9 then 0x29d9_c998 else if c == 10 then 0xb0d0_9822 else if c == 11 then 0xc7d7_a8b4
    else if c == 12 then 0x59b3_3d17 else if c == 13 then 0x2eb4_0d81 else if c == 14 then 0xb7bd_5c3b
    else 0xc0ba_6cad
  }

  function Row8(c: bv32): bv32 {
    if c == 0 then 0xedb8_8320 else if c == 1 then 0x9abf_b3b6 else if c == 2 then 0x03b6_e20c
    else if c == 3 then 0x74b1_d29a else if c == 4 then 0xead5_4739 else if c == 5 then 0x9dd2_77af
    else if c == 6 then 0x04db_2615 else if c == 7 then 0x73dc_1683 else if c == 8 then 0xe363_0b12
    else if c == 9 then 0x9464_3b84 else if c == 10 then 0x0d6d_6a3e else if c == 11 then 0x7a6a_5aa8
    else if c == 12 then 0xe40e_cf0b else if c == 13 then 0x9309_ff9d else if c == 14 then 0x0a00_ae27
    else 0x7d07_9eb1
  }

  function Row9(c: bv32): bv32 {
    if c == 0 then 0xf00f_9344 else if c == 1 then 0x8708_a3d2 else if c == 2 then 0x1e01_f268
    else if c == 3 then 0x6906_c2fe else if c == 4 then 0xf762_575d else if c == 5 then 0x8065_67cb
    else if c == 6 then 0x196c_3671 else if c == 7 then 0x6e6b_06e7 else if c == 8 then 0xfed4_1b76
    else if c == 9 then 0x89d3_2be0 else if c == 10 then 0x10da_7a5a else if c == 11 then 0x67dd_4acc
    else if c == 12 then 0xf9b9_df6f else if c == 13 then 0x8ebe_eff9 else if c == 14 then 0x17b7_be43
    else 0x60b0_8ed5
  }

  function RowA(c: bv32): bv32 {
    if c == 0 then 0xd6d6_a3e8 else if c == 1 then 0xa1d1_937e else if c == 2 then 0x38d8_c2c4
    else if c == 3 then 0x4fdf_f252 else if c == 4 then 0xd1bb_67f1 else if c == 5 then 0xa6bc_5767
    else if c == 6 then 0x3fb5_06dd else if c == 7 then 0x48b2_364b else if c == 8 then 0xd80d_2bda
    else if c == 9 then 0xaf0a_1b4c else if c == 10 then 0x3603_4af6 else if c == 11 then 0x4104_7a60
    else if c == 12 then 0xdf60_efc3 else if c == 13 then 0xa867_df55 else if c == 14 then 0x316e_8eef
    else 0x4669_be79
  }

  function RowB(c: bv32): bv32 {
    if c == 0 then 0xcb61_b38c else if c == 1 then 0xbc66_831a else if c == 2 then 0x256f_d2a0
    else if c == 3 then 0x5268_e236 else if c == 4 then 0xcc0c_7795 else if c == 5 then 0xbb0b_4703
    else if c == 6 then 0x2202_16b9 else if c == 7 then 0x5505_262f else if c == 8 then 0xc5ba_3bbe
    else if c == 9 then 0xb2bd_0b28 else if c == 10 then 0x2bb4_5a92 else if c == 11 then 0x5cb3_6a04
    else if c == 12 then 0xc2d7_ffa7 else if c == 13 then 0xb5d0_cf31 else if c == 14 then 0x2cd9_9e8b
    else 0x5bde_ae1d
  }

  function RowC(c: bv32): bv32 {
    if c == 0 then 0x9b64_c2b0 else if c == 1 then 0xec63_f226 else if c == 2 then 0x756a_a39c
    else if c == 3 then 0x026d_930a else if c == 4 then 0x9c09_06a9 else if c == 5 then 0xeb0e_363f
    else if c == 6 then 0x7207_6785 else if c == 7 then 0x0500_5713 else if c == 8 then 0x95bf_4a82
    else if c == 9 then 0xe2b8_7a14 else if c == 10 then 0x7bb1_2bae else if c == 11 then 0x0cb6_1b38
    else if c == 12 then 0x92d2_8e9b else if c == 13 then 0xe5d5_be0d else if c == 14 then 0x7cdc_efb7
    else 0x0bdb_df21
  }

  function RowD(c: bv32): bv32 {
    if c == 0 then 0x86d3_d2d4 else if c == 1 then 0xf1d4_e242 else if c == 2 then 0x68dd_b3f8
    else if c == 3 then 0x1fda_836e else if c == 4 then 0x81be_16cd else if c == 5 then 0xf6b9_265b
    else if c == 6 then 0x6fb0_77e1 else if c == 7 then 0x18b7_4777 else if c == 8 then 0x8808_5ae6
    else if c == 9 then 0xff0f_6a70 else if c == 10 then 0x6606_3bca else if c == 11 then 0x1101_0b5c
    else if c == 12 then 0x8f65_9eff else if c == 13 then 0xf862_ae69 else if c == 14 then 0x616b_ffd3
    else 0x166c_cf45
  }

  function RowE(c: bv32): bv32 {
    if c == 0 then 0xa00a_e278 else if c == 1 then 0xd70d_d2ee else if c == 2 then 0x4e04_8354
    else if c == 3 then 0x3903_b3c2 else if c == 4 then 0xa767_2661 else if c == 5 then 0xd060_16f7
    else if c == 6 then 0x4969_474d else if c == 7 then 0x3e6e_77db else if c == 8 then 0xaed1_6a4a
    else if c == 9 then 0xd9d6_5adc else if c == 10 then 0x40df_0b66 else if c == 11 then 0x37d8_3bf0
    else if c == 12 then 0xa9bc_ae53 else if c == 13 then 0xdebb_9ec5 else if c == 14 then 0x47b2_cf7f
    else 0x30b5_ffe9
  }

  function RowF(c: bv32): bv32 {
    if c == 0 then 0xbdbd_f21c else if c == 1 then 0xcaba_c28a else if c == 2 then 0x53b3_9330
    else if c == 3 then 0x24b4_a3a6 else if c == 4 then 0xbad0_3605 else if c == 5 then 0xcdd7_0693
    else if c == 6 then 0x54de_5729 else if c == 7 then 0x23d9_67bf else if c == 8 then 0xb366_7a2e
    else if c == 9 then 0xc461_4ab8 else if c == 10 then 0x5d68_1b02 else if c == 11 then 0x2a6f_2b94
    else if c == 12 then 0xb40b_be37 else if c == 13 then 0xc30c_8ea1 else if c == 14 then 0x5a05_df1b
    else 0x2d02_ef8d
  }

  /** crc32_tab, by the row and column of its index. */
  function Table(i: bv32): bv32 {
    var r, c := i >> 4, i & 0xf;
    if r == 0 then Row0(c) else if r == 1 then Row1(c) else if r == 2 then Row2(c)
    else if r == 3 then Row3(c) else if r == 4 then Row4(c) else if r == 5 then Row5(c)
    else if r == 6 then Row6(c) else if r == 7 then Row7(c) else if r == 8 then Row8(c)
    else if r == 9 then Row9(c) else if r == 10 then RowA(c) else if r == 11 then RowB(c)
    else if r == 12 then RowC(c) else if r == 13 then RowD(c) else if r == 14 then RowE(c)
    else RowF(c)
  }

  lemma Row0Right(i: bv32)
    requires i >> 4 == 0
    ensures Row0(i & 0xf) == EightSteps(i)
  {
  }

  lemma Row1Right(i: bv32)
    requires i >> 4 == 1
    ensures Row1(i & 0xf) == EightSteps(i)
  {
  }

  lemma Row2Right(i: bv32)
    requires i >> 4 == 2
    ensures Row2(i & 0xf) == EightSteps(i)
  {
  }

  lemma Row3Right(i: bv32)
    requires i >> 4 == 3
    ensures Row3(i & 0xf) == EightSteps(i)
  {
  }

  lemma Row4Right(i: bv32)
    requires i >> 4 == 4
    ensures Row4(i & 0xf) == EightSteps(i)
  {
  }

  lemma Row5Right(i: bv32)
    requires i >> 4 == 5
    ensures Row5(i & 0xf) == EightSteps(i)
  {
  }

  lemma Row6Right(i: bv32)
    requires i >> 4 == 6
    ensures Row6(i & 0xf) == EightSteps(i)
  {
  }

  lemma Row7Right(i: bv32)
    requires i >> 4 == 7
    ensures Row7(i & 0xf) == EightSteps(i)
  {
  }

  lemma Row8Right(i: bv32)
    requires i >> 4 == 8
    ensures Row8(i & 0xf) == EightSteps(i)
  {
  }

  lemma Row9Right(i: bv32)
    requires i >> 4 == 9
    ensures Row9(i & 0xf) == EightSteps(i)
  {
  }

  lemma RowARight(i: bv32)
    requires i >> 4 == 10
    ensures RowA(i & 0xf) == EightSteps(i)
  {
  }

  lemma RowBRight(i: bv32)
    requires i >> 4 == 11
    ensures RowB(i & 0xf) == EightSteps(i)
  {
  }

  lemma RowCRight(i: bv32)
    requires i >> 4 == 12
    ensures RowC(i & 0xf) == EightSteps(i)
  {
  }

  lemma RowDRight(i: bv32)
    requires i >> 4 == 13
    ensures RowD(i & 0xf) == EightSteps(i)
  {
  }

  lemma RowERight(i: bv32)
    requires i >> 4 == 14
    ensures RowE(i & 0xf) == EightSteps(i)
  {
  }

  lemma RowFRight(i: bv32)
    requires i >> 4 == 15
    ensures RowF(i & 0xf) == EightSteps(i)
  {
  }

  /** Every one of the 256 entries is the division of its index. */
  lemma TableRight(i: bv32)
    requires i < 256
    ensures Table(i) == EightSteps(i)
  {
    var r := i >> 4;
    if r == 0 {
      Row0Right(i);
    } else if r == 1 {
      Row1Right(i);
    } else if r == 2 {
      Row2Right(i);
    } else if r == 3 {
      Row3Right(i);
    } else if r == 4 {
      Row4Right(i);
    } else if r == 5 {
      Row5Right(i);
    } else if r == 6 {
      Row6Right(i);
    } else if r == 7 {
      Row7Right(i);
    } else if r == 8 {
      Row8Right(i);
    } else if r == 9 {
      Row9Right(i);
    } else if r == 10 {
      RowARight(i);
    } else if r == 11 {
      RowBRight(i);
    } else if r == 12 {
      RowCRight(i);
    } else if r == 13 {
      RowDRight(i);
    } else if r == 14 {
      RowERight(i);
    } else {
      assert r == 15;
      RowFRight(i);
    }
  }

  // ---------- why one look-up does for eight bits ----------

  lemma EightIsSteps(x: bv32)
    ensures Divided(Register(x), 8) == Register(EightSteps(x))
  {
    FourIsSteps(x);
    FourIsSteps(Step(Step(Step(Step(x)))));
    DividedOn(Register(x), 4, 4);
  }

  lemma FourIsSteps(x: bv32)
    ensures Divided(Register(x), 4) == Register(Step(Step(Step(Step(x)))))
  {
    var a, b, c := Step(x), Step(Step(x)), Step(Step(Step(x)));
    OpenDivide(Register(x));
    OpenDivide(Register(a));
    OpenDivide(Register(b));
    OpenDivide(Register(c));
    assert Divided(Register(c), 1) == Divided(Divide(Register(c)), 0);
    assert Divided(Register(b), 2) == Divided(Register(c), 1);
    assert Divided(Register(a), 3) == Divided(Register(b), 2);
  }

  lemma {:induction false} DividedOn(r: Register, m: nat, n: nat)
    ensures Divided(r, m + n) == Divided(Divided(r, m), n)
    decreases m
  {
    if m == 0 {
    } else {
      DividedOn(Divide(r), m - 1, n);
    }
  }

  /** Registers with exclusive or and shift, under seals of their own. */
  ghost predicate IsXor(seal: Seal, a: Register, b: Register, q: Register) {
    q.bits == a.bits ^ b.bits
  }

  ghost predicate SealedXor(a: Register, b: Register, q: Register) {
    forall seal :: IsXor(seal, a, b, q)
  }

  lemma SomeXor(a: Register, b: Register)
    ensures exists q :: SealedXor(a, b, q)
  {
    assert SealedXor(a, b, Register(a.bits ^ b.bits));
  }

  ghost function Xor(a: Register, b: Register): Register {
    SomeXor(a, b);
    var q :| SealedXor(a, b, q);
    q
  }

  lemma OpenXor(a: Register, b: Register)
    ensures Xor(a, b) == Register(a.bits ^ b.bits)
  {
    assert IsXor(Seal, a, b, Xor(a, b));
  }

  ghost predicate IsHalf(seal: Seal, r: Register, q: Register) {
    r.bits & 1 == 0 && q.bits == r.bits >> 1
  }

  /** The register is even, and q is it shifted by one. */
  ghost predicate Half(r: Register, q: Register) {
    forall seal :: IsHalf(seal, r, q)
  }

  /** The register is shifted n times, and was even each time. */
  ghost predicate Halves(r: Register, n: nat, q: Register)
    decreases n
  {
    if n == 0 then q == r else exists h :: Half(r, h) && Halves(h, n - 1, q)
  }

  lemma OddLow(lo: bv32, hi: bv32)
    requires hi & 1 == 0 && lo & 1 == 1
    ensures (lo ^ hi) & 1 == 1
    ensures POLYNOMIAL ^ ((lo ^ hi) >> 1) == (POLYNOMIAL ^ (lo >> 1)) ^ (hi >> 1)
  {
  }

  lemma EvenLow(lo: bv32, hi: bv32)
    requires hi & 1 == 0 && lo & 1 != 1
    ensures (lo ^ hi) & 1 != 1
    ensures (lo ^ hi) >> 1 == (lo >> 1) ^ (hi >> 1)
  {
  }

  /** A part that is even is only shifted. */
  lemma StepApart(lo: bv32, hi: bv32)
    requires hi & 1 == 0
    ensures Step(lo ^ hi) == Step(lo) ^ (hi >> 1)
  {
    if lo & 1 == 1 {
      OddLow(lo, hi);
    } else {
      EvenLow(lo, hi);
    }
  }

  lemma BitsApart(lo: Register, hi: Register, h: Register, w: Register, x: Register, y: Register, z: Register)
    requires IsHalf(Seal, hi, h) && IsXor(Seal, lo, hi, w) && IsStep(Seal, w, x)
    requires IsStep(Seal, lo, y) && IsXor(Seal, y, h, z)
    ensures x == z
  {
    StepApart(lo.bits, hi.bits);
  }

  lemma DivideApart(lo: Register, hi: Register, h: Register)
    requires Half(hi, h)
    ensures Divide(Xor(lo, hi)) == Xor(Divide(lo), h)
  {
    BitsApart(lo, hi, h, Xor(lo, hi), Divide(Xor(lo, hi)), Divide(lo), Xor(Divide(lo), h));
  }

  /** So n steps divide the low part and shift a high one that they do not reach. */
  lemma {:induction false} DividedApart(lo: Register, hi: Register, n: nat, h: Register)
    requires Halves(hi, n, h)
    ensures Divided(Xor(lo, hi), n) == Xor(Divided(lo, n), h)
    decreases n
  {
    if n == 0 {
    } else {
      var g :| Half(hi, g) && Halves(g, n - 1, h);
      DivideApart(lo, hi, g);
      DividedApart(Divide(lo), g, n - 1, h);
    }
  }

  lemma {:induction false} HalvesOn(r: Register, m: nat, q: Register, n: nat, p: Register)
    requires Halves(r, m, q) && Halves(q, n, p)
    ensures Halves(r, m + n, p)
    decreases m
  {
    if m == 0 {
    } else {
      var h :| Half(r, h) && Halves(h, m - 1, q);
      HalvesOn(h, m - 1, q, n, p);
    }
  }

  lemma Halve1(x: bv32)
    requires x & 1 == 0
    ensures Halves(Register(x), 1, Register(x >> 1))
  {
    assert Half(Register(x), Register(x >> 1));
    assert Halves(Register(x >> 1), 0, Register(x >> 1));
  }

  lemma Halve2(x: bv32)
    requires x & 3 == 0
    ensures Halves(Register(x), 2, Register(x >> 2))
  {
    Low2(x);
    Halve1(x);
    Halve1(x >> 1);
    HalvesOn(Register(x), 1, Register(x >> 1), 1, Register(x >> 2));
  }

  lemma Low2(x: bv32)
    requires x & 3 == 0
    ensures x & 1 == 0 && (x >> 1) & 1 == 0 && (x >> 1) >> 1 == x >> 2
  {
  }

  lemma Halve4(x: bv32)
    requires x & 0xf == 0
    ensures Halves(Register(x), 4, Register(x >> 4))
  {
    Low4(x);
    Halve2(x);
    Halve2(x >> 2);
    HalvesOn(Register(x), 2, Register(x >> 2), 2, Register(x >> 4));
  }

  lemma Low4(x: bv32)
    requires x & 0xf == 0
    ensures x & 3 == 0 && (x >> 2) & 3 == 0 && (x >> 2) >> 2 == x >> 4
  {
  }

  lemma Halve8(x: bv32)
    requires x & 0xff == 0
    ensures Halves(Register(x), 8, Register(x >> 8))
  {
    Low8(x);
    Halve4(x);
    Halve4(x >> 4);
    HalvesOn(Register(x), 4, Register(x >> 4), 4, Register(x >> 8));
  }

  lemma Low8(x: bv32)
    requires x & 0xff == 0
    ensures x & 0xf == 0 && (x >> 4) & 0xf == 0 && (x >> 4) >> 4 == x >> 8
  {
  }

  lemma Parts(x: bv32)
    ensures x == (x & 0xff) ^ (x & 0xffff_ff00)
    ensures (x & 0xffff_ff00) & 0xff == 0 && (x & 0xffff_ff00) >> 8 == x >> 8
  {
  }

  lemma PartsOf(x: bv32)
    ensures Xor(Register(x & 0xff), Register(x & 0xffff_ff00)) == Register(x)
  {
    Parts(x);
    OpenXor(Register(x & 0xff), Register(x & 0xffff_ff00));
  }

  lemma HighPart(x: bv32)
    ensures Halves(Register(x & 0xffff_ff00), 8, Register(x >> 8))
  {
    Parts(x);
    Halve8(x & 0xffff_ff00);
  }

  /** Eight steps on a register: those on its low byte, and a shift for the rest. */
  lemma LowByteOnly(x: bv32)
    ensures Divided(Register(x), 8) == Xor(Divided(Register(x & 0xff), 8), Register(x >> 8))
  {
    PartsOf(x);
    HighPart(x);
    DividedApart(Register(x & 0xff), Register(x & 0xffff_ff00), 8, Register(x >> 8));
  }

  lemma ByteIsLow(crc: bv32, b: bv8)
    ensures (crc ^ (b as bv32)) >> 8 == crc >> 8
  {
  }

  // ---------- the loop ----------

  method TableAt(i: bv32) returns (t: bv32)
    requires i < 256
    ensures Divided(Register(i), 8) == Register(t)
  {
    EightIsSteps(i);
    TableRight(i);
    t := Table(i);
  }

  method LookUp(crc: bv32, b: bv8) returns (r: bv32)
    ensures r == AfterByte(crc, b)
  {
    var x := crc ^ (b as bv32);
    LowIsByte(x);
    var t := TableAt(x & 0xff);
    LowByteOnly(x);
    OpenXor(Register(t), Register(x >> 8));
    ByteIsLow(crc, b);
    r := t ^ (crc >> 8);
  }

  lemma LowIsByte(x: bv32)
    ensures x & 0xff < 256
  {
  }

  /** crc32 with its table. */
  method Crc32(crc: bv32, buffer: seq<bv8>) returns (r: bv32)
    ensures r == Crc(crc, buffer)
  {
    r := crc ^ ALL_ONES;
    var p := 0;
    while p < |buffer|
      invariant p <= |buffer| && r == AfterBytes(crc ^ ALL_ONES, buffer, p)
    {
      r := LookUp(r, buffer[p]);
      p := p + 1;
    }
    r := r ^ ALL_ONES;
  }

  lemma {:induction false} BytesOn(crc: bv32, a: seq<bv8>, b: seq<bv8>, n: nat)
    requires n <= |b|
    ensures AfterBytes(crc, a + b, |a| + n) == AfterBytes(AfterBytes(crc, a, |a|), b, n)
  {
    if n == 0 {
      BytesPrefix(crc, a, b, |a|);
    } else {
      BytesOn(crc, a, b, n - 1);
    }
  }

  lemma {:induction false} BytesPrefix(crc: bv32, a: seq<bv8>, b: seq<bv8>, n: nat)
    requires n <= |a|
    ensures AfterBytes(crc, a + b, n) == AfterBytes(crc, a, n)
  {
    if n == 0 {
    } else {
      BytesPrefix(crc, a, b, n - 1);
    }
  }

  lemma TwiceComplemented(x: bv32)
    ensures (x ^ ALL_ONES) ^ ALL_ONES == x
  {
  }

  /** Two calls in a row are one call on all the bytes. */
  lemma Chained(crc: bv32, a: seq<bv8>, b: seq<bv8>)
    ensures Crc(Crc(crc, a), b) == Crc(crc, a + b)
  {
    var start, middle := crc ^ ALL_ONES, AfterBytes(crc ^ ALL_ONES, a, |a|);
    TwiceComplemented(middle);
    assert Crc(crc, a) ^ ALL_ONES == middle;
    BytesOn(start, a, b, |b|);
  }

  // ---------- the usual check value ----------

  const DIGITS: seq<bv8> := [0x31, 0x32, 0x33, 0x34, 0x35, 0x36, 0x37, 0x38, 0x39]

  lemma Halfway(x: bv32, y: bv32, z: bv32)
    requires Step(Step(Step(Step(x)))) == y && Step(Step(Step(Step(y)))) == z
    ensures EightSteps(x) == z
  {
  }

  lemma DigitDone(n: nat, was: bv32, x: bv32, now: bv32)
    requires n < |DIGITS| && AfterBytes(0xffff_ffff, DIGITS, n) == was
    requires was ^ (DIGITS[n] as bv32) == x && EightSteps(x) == now
    ensures AfterBytes(0xffff_ffff, DIGITS, n + 1) == now
  {
    EightIsSteps(x);
  }

  lemma Digit1()
    ensures EightSteps(0xffff_ffce) == 0x7c23_1048
  {
    Halfway(0xffff_ffce, 0xaff5_1d84, 0x7c23_1048);
  }

  lemma Digit2()
    ensures EightSteps(0x7c23_107a) == 0xb0ac_bb32
  {
    Halfway(0x7c23_107a, 0xd114_92ef, 0xb0ac_bb32);
  }

  lemma Digit3()
    ensures EightSteps(0xb0ac_bb01) == 0x77b7_9c2d
  {
    Halfway(0xb0ac_bb01, 0x16bd_dbd4, 0x77b7_9c2d);
  }

  lemma Digit4()
    ensures EightSteps(0x77b7_9c19) == 0x641c_1f5c
  {
    Halfway(0x77b7_9c19, 0xf774_ea85, 0x641c_1f5c);
  }

  lemma Digit5()
    ensures EightSteps(0x641c_1f69) == 0x340a_c5e3
  {
    Halfway(0x641c_1f69, 0xf64e_52b2, 0x340a_c5e3);
  }

  lemma Digit6()
    ensures EightSteps(0x340a_c5d5) == 0xf68d_2c9e
  {
    Halfway(0x340a_c5d5, 0x682b_fda9, 0xf68d_2c9e);
  }

  lemma Digit7()
    ensures EightSteps(0xf68d_2ca9) == 0xaffc_9660
  {
    Halfway(0xf68d_2ca9, 0xff67_418e, 0xaffc_9660);
  }

  lemma Digit8()
    ensures EightSteps(0xaffc_9658) == 0x651f_2550
  {
    Halfway(0xaffc_9658, 0xe747_4a45, 0x651f_2550);
  }

  lemma Digit9()
    ensures EightSteps(0x651f_2569) == 0x340b_c6d9
  {
    Halfway(0x651f_2569, 0xf65e_6112, 0x340b_c6d9);
  }

  lemma FirstDigits()
    ensures AfterBytes(0xffff_ffff, DIGITS, 5) == 0x340a_c5e3
  {
    Digit1();
    DigitDone(0, 0xffff_ffff, 0xffff_ffce, 0x7c23_1048);
    Digit2();
    DigitDone(1, 0x7c23_1048, 0x7c23_107a, 0xb0ac_bb32);
    Digit3();
    DigitDone(2, 0xb0ac_bb32, 0xb0ac_bb01, 0x77b7_9c2d);
    Digit4();
    DigitDone(3, 0x77b7_9c2d, 0x77b7_9c19, 0x641c_1f5c);
    Digit5();
    DigitDone(4, 0x641c_1f5c, 0x641c_1f69, 0x340a_c5e3);
  }

  /** The CRC of the nine digits from 1 to 9. */
  lemma CheckValue()
    ensures Crc(0, [0x31, 0x32, 0x33, 0x34, 0x35, 0x36, 0x37, 0x38, 0x39]) == 0xcbf4_3926
  {
    FirstDigits();
    Digit6();
    DigitDone(5, 0x340a_c5e3, 0x340a_c5d5, 0xf68d_2c9e);
    Digit7();
    DigitDone(6, 0xf68d_2c9e, 0xf68d_2ca9, 0xaffc_9660);
    Digit8();
    DigitDone(7, 0xaffc_9660, 0xaffc_9658, 0x651f_2550);
    Digit9();
    DigitDone(8, 0x651f_2550, 0x651f_2569, 0x340b_c6d9);
  }

  // ---------- the CRC of a list of sources ----------

  function Octets(h: ByteString): seq<bv8> {
    seq(|h|, i requires 0 <= i < |h| => h[i] as bv8)
  }

  function Joined(hashes: seq<ByteString>, n: nat): seq<bv8>
    requires n <= |hashes|
  {
    if n == 0 then [] else Joined(hashes, n - 1) + Octets(hashes[n - 1])
  }

  /** calculate_crc: the set of file hashes is visited in order. */
  method CalculateCrc(hashes: seq<ByteString>) returns (crc: bv32)
    ensures crc == Crc(0, Joined(hashes, |hashes|))
  {
    crc := 0;
    NothingYet();
    for i := 0 to |hashes|
      invariant crc == Crc(0, Joined(hashes, i))
    {
      Chained(0, Joined(hashes, i), Octets(hashes[i]));
      crc := Crc32(crc, Octets(hashes[i]));
    }
  }

  /** Two file hashes that together hold the nine digits have the check value. */
  lemma CheckValueOfTwo()
    ensures Crc(0, Joined([[0x31, 0x32, 0x33, 0x34], [0x35, 0x36, 0x37, 0x38, 0x39]], 2)) == 0xcbf4_3926
  {
    var a: seq<ByteString> := [[0x31, 0x32, 0x33, 0x34], [0x35, 0x36, 0x37, 0x38, 0x39]];
    var b: seq<bv8> := [0x31, 0x32, 0x33, 0x34];
    var c: seq<bv8> := [0x35, 0x36, 0x37, 0x38, 0x39];
    assert Octets(a[0]) == b && Octets(a[1]) == c;
    assert Joined(a, 1) == [] + Octets(a[0]) == b;
    assert Joined(a, 2) == b + c == DIGITS;
    CheckValue();
  }

  lemma NothingYet()
    ensures Crc(0, []) == 0
  {
    TwiceComplemented(0);
  }

  /** How a std::set of file hashes is visited. */
  ghost predicate Ascending(hashes: seq<ByteString>) {
    forall i, j :: 0 <= i < j < |hashes| ==> LexLess(hashes[i], hashes[j])
  }

  lemma AscendingFrom(a: seq<ByteString>, i: nat)
    requires Ascending(a) && i < |a|
    ensures Ascending(a[1..]) && a[0] !in a[1..]
  {
    forall k | 1 <= k < |a|
      ensures a[k] != a[0]
    {
      LexIrreflexive(a[0]);
    }
  }

  /** There is one such order: the CRC depends on nothing but the set of sources. */
  lemma {:induction false} OneOrder(a: seq<ByteString>, b: seq<ByteString>)
    requires Ascending(a) && Ascending(b) && forall h :: h in a <==> h in b
    ensures a == b
  {
    FirstIsMember(b);
    if a == [] {
    } else {
      assert a[0] in b;
      assert b[0] in a;
      SameFirst(a, b);
      AscendingFrom(a, 0);
      AscendingFrom(b, 0);
      forall h
        ensures h in a[1..] <==> h in b[1..]
      {
        assert h in a <==> h == a[0] || h in a[1..];
        assert h in b <==> h == b[0] || h in b[1..];
      }
      OneOrder(a[1..], b[1..]);
      assert a == [a[0]] + a[1..] && b == [b[0]] + b[1..];
    }
  }

  lemma FirstIsMember(b: seq<ByteString>)
    ensures b != [] ==> b[0] in b
  {
  }

  lemma SameFirst(a: seq<ByteString>, b: seq<ByteString>)
    requires Ascending(a) && Ascending(b) && a != [] && b != [] && a[0] in b && b[0] in a
    ensures a[0] == b[0]
  {
    var i :| 0 <= i < |b| && b[i] == a[0];
    var j :| 0 <= j < |a| && a[j] == b[0];
    if i > 0 && j > 0 {
      LexTransitive(a[0], a[j], b[i]);
      LexIrreflexive(a[0]);
    }
  }

  lemma CrcOfSet(a: seq<ByteString>, b: seq<ByteString>)
    requires Ascending(a) && Ascending(b) && forall h :: h in a <==> h in b
    ensures Crc(0, Joined(a, |a|)) == Crc(0, Joined(b, |b|))
  {
    OneOrder(a, b);
  }
}
