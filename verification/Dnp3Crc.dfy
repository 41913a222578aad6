/**
 The DNP3 block CRC of src/app-layer-dnp3.c: the table-driven computation equals the
 bit-serial CRC for polynomial 0x3d65, and a block that passes the check fails it after any
 change confined to two adjacent octets.
 */
module Dnp3Crc {

  /** An octet, in the width of the CRC register. */
  type Byte = b: bv16 | b < 256

  // ----- the lookup table, sixteen entries a row -----

  const ROW_0: seq<bv16> := [
    0x0000, 0x365e, 0x6cbc, 0x5ae2, 0xd978, 0xef26, 0xb5c4, 0x839a,
    0xff89, 0xc9d7, 0x9335, 0xa56b, 0x26f1, 0x10af, 0x4a4d, 0x7c13]
  const ROW_1: seq<bv16> := [
    0xb26b, 0x8435, 0xded7, 0xe889, 0x6b13, 0x5d4d, 0x07af, 0x31f1,
    0x4de2, 0x7bbc, 0x215e, 0x1700, 0x949a, 0xa2c4, 0xf826, 0xce78]
  const ROW_2: seq<bv16> := [
    0x29af, 0x1ff1, 0x4513, 0x734d, 0xf0d7, 0xc689, 0x9c6b, 0xaa35,
    0xd626, 0xe078, 0xba9a, 0x8cc4, 0x0f5e, 0x3900, 0x63e2, 0x55bc]
  const ROW_3: seq<bv16> := [
    0x9bc4, 0xad9a, 0xf778, 0xc126, 0x42bc, 0x74e2, 0x2e00, 0x185e,
    0x644d, 0x5213, 0x08f1, 0x3eaf, 0xbd35, 0x8b6b, 0xd189, 0xe7d7]
  const ROW_4: seq<bv16> := [
    0x535e, 0x6500, 0x3fe2, 0x09bc, 0x8a26, 0xbc78, 0xe69a, 0xd0c4,
    0xacd7, 0x9a89, 0xc06b, 0xf635, 0x75af, 0x43f1, 0x1913, 0x2f4d]
  const ROW_5: seq<bv16> := [
    0xe135, 0xd76b, 0x8d89, 0xbbd7, 0x384d, 0x0e13, 0x54f1, 0x62af,
    0x1ebc, 0x28e2, 0x7200, 0x445e, 0xc7c4, 0xf19a, 0xab78, 0x9d26]
  const ROW_6: seq<bv16> := [
    0x7af1, 0x4caf, 0x164d, 0x2013, 0xa389, 0x95d7, 0xcf35, 0xf96b,
    0x8578, 0xb326, 0xe9c4, 0xdf9a, 0x5c00, 0x6a5e, 0x30bc, 0x06e2]
  const ROW_7: seq<bv16> := [
    0xc89a, 0xfec4, 0xa426, 0x9278, 0x11e2, 0x27bc, 0x7d5e, 0x4b00,
    0x3713, 0x014d, 0x5baf, 0x6df1, 0xee6b, 0xd835, 0x82d7, 0xb489]
  const ROW_8: seq<bv16> := [
    0xa6bc, 0x90e2, 0xca00, 0xfc5e, 0x7fc4, 0x499a, 0x1378, 0x2526,
    0x5935, 0x6f6b, 0x3589, 0x03d7, 0x804d, 0xb613, 0xecf1, 0xdaaf]
  const ROW_9: seq<bv16> := [
    0x14d7, 0x2289, 0x786b, 0x4e35, 0xcdaf, 0xfbf1, 0xa113, 0x974d,
    0xeb5e, 0xdd00, 0x87e2, 0xb1bc, 0x3226, 0x0478, 0x5e9a, 0x68c4]
  const ROW_A: seq<bv16> := [
    0x8f13, 0xb94d, 0xe3af, 0xd5f1, 0x566b, 0x6035, 0x3ad7, 0x0c89,
    0x709a, 0x46c4, 0x1c26, 0x2a78, 0xa9e2, 0x9fbc, 0xc55e, 0xf300]
  const ROW_B: seq<bv16> := [
    0x3d78, 0x0b26, 0x51c4, 0x679a, 0xe400, 0xd25e, 0x88bc, 0xbee2,
    0xc2f1, 0xf4af, 0xae4d, 0x9813, 0x1b89, 0x2dd7, 0x7735, 0x416b]
  const ROW_C: seq<bv16> := [
    0xf5e2, 0xc3bc, 0x995e, 0xaf00, 0x2c9a, 0x1ac4, 0x4026, 0x7678,
    0x0a6b, 0x3c35, 0x66d7, 0x5089, 0xd313, 0xe54d, 0xbfaf, 0x89f1]
  const ROW_D: seq<bv16> := [
    0x4789, 0x71d7, 0x2b35, 0x1d6b, 0x9ef1, 0xa8af, 0xf24d, 0xc413,
    0xb800, 0x8e5e, 0xd4bc, 0xe2e2, 0x6178, 0x5726, 0x0dc4, 0x3b9a]
  const ROW_E: seq<bv16> := [
    0xdc4d, 0xea13, 0xb0f1, 0x86af, 0x0535, 0x336b, 0x6989, 0x5fd7,
    0x23c4, 0x159a, 0x4f78, 0x7926, 0xfabc, 0xcce2, 0x9600, 0xa05e]
  const ROW_F: seq<bv16> := [
    0x6e26, 0x5878, 0x029a, 0x34c4, 0xb75e, 0x8100, 0xdbe2, 0xedbc,
    0x91af, 0xa7f1, 0xfd13, 0xcb4d, 0x48d7, 0x7e89, 0x246b, 0x1235]

  const CRC_TABLE: seq<seq<bv16>> :=
    [ROW_0, ROW_1, ROW_2, ROW_3, ROW_4, ROW_5, ROW_6, ROW_7, ROW_8, ROW_9, ROW_A, ROW_B, ROW_C, ROW_D, ROW_E, ROW_F]

  /** Entry `i` of the 256-entry table. */
  function Entry(i: bv16): bv16
    requires i < 256
  {
    CRC_TABLE[(i >> 4) as int][(i & 0xf) as int]
  }

  // ----- the bit-serial reference -----

  /** Addition of polynomials over GF(2). */
  function Xor(a: bv16, b: bv16): bv16 { a ^ b }

  const POLYNOMIAL: bv16 := 0x3d65

  const REFLECTED: bv16 := 0xa6bc

  /** The register constant is the polynomial with its sixteen bits reversed. */
  lemma ReflectedPolynomial(i: nat)
    requires i < 16
    ensures (REFLECTED >> i) & 1 == (POLYNOMIAL >> (15 - i)) & 1
  {
  }

  /** What a set low bit feeds back into the register. */
  function Feedback(x: bv16): bv16 {
    if x & 1 == 1 then REFLECTED else 0
  }

  /** Feed one bit (0 or 1) into the register: shift, and feed back when it differs from
      the bit shifted out. */
  function FeedBit(crc: bv16, bit: bv16): bv16 {
    Xor(crc >> 1, Feedback(Xor(crc, bit)))
  }

  function FeedBits(crc: bv16, bits: seq<bv16>): bv16
    decreases |bits|
  {
    if bits == [] then crc else FeedBits(FeedBit(crc, bits[0]), bits[1..])
  }

  /** The low n bits of c in the order they enter the register. */
  function Bits(c: bv16, n: nat): seq<bv16>
    decreases n
  {
    if n == 0 then [] else [c & 1] + Bits(c >> 1, n - 1)
  }

  function FeedByte(crc: bv16, b: Byte): bv16 {
    FeedBits(crc, Bits(b, 8))
  }

  /** The register after all octets, starting from zero. */
  function Crc(s: seq<Byte>): bv16 {
    if s == [] then 0 else FeedByte(Crc(s[..|s| - 1]), s[|s| - 1])
  }

  // ----- one register step, as a linear map -----

  function ShiftBit(x: bv16): bv16 {
    Xor(x >> 1, Feedback(x))
  }

  function ShiftNibble(x: bv16): bv16 {
    ShiftBit(ShiftBit(ShiftBit(ShiftBit(x))))
  }

  function ShiftByte(x: bv16): bv16 {
    ShiftNibble(ShiftNibble(x))
  }

  lemma FeedbackLinear(x: bv16, y: bv16)
    ensures Feedback(Xor(x, y)) == Xor(Feedback(x), Feedback(y))
  {
  }

  lemma ShiftXorBits(x: bv16, y: bv16)
    ensures (x ^ y) >> 1 == (x >> 1) ^ (y >> 1)
  {
  }

  lemma ShiftXor(x: bv16, y: bv16)
    ensures Xor(x, y) >> 1 == Xor(x >> 1, y >> 1)
  {
    ShiftXorBits(x, y);
  }

  lemma XorCommutes(a: bv16, b: bv16)
    ensures Xor(a, b) == Xor(b, a)
  {
  }

  lemma XorAssociates(a: bv16, b: bv16, c: bv16)
    ensures Xor(Xor(a, b), c) == Xor(a, Xor(b, c))
  {
  }

  lemma Regroup(a: bv16, b: bv16, c: bv16, d: bv16)
    ensures Xor(Xor(a, b), Xor(c, d)) == Xor(Xor(a, c), Xor(b, d))
  {
    hide Xor;
    XorAssociates(a, b, Xor(c, d));
    XorAssociates(b, c, d);
    XorCommutes(b, c);
    XorAssociates(c, b, d);
    XorAssociates(a, c, Xor(b, d));
  }

  lemma ShiftBitLinear(x: bv16, y: bv16)
    ensures ShiftBit(Xor(x, y)) == Xor(ShiftBit(x), ShiftBit(y))
  {
    hide Feedback, Xor;
    FeedbackLinear(x, y);
    ShiftXor(x, y);
    Regroup(x >> 1, y >> 1, Feedback(x), Feedback(y));
  }

  lemma ShiftNibbleLinear(x: bv16, y: bv16)
    ensures ShiftNibble(Xor(x, y)) == Xor(ShiftNibble(x), ShiftNibble(y))
  {
    hide ShiftBit, Xor;
    ShiftBitLinear(x, y);
    ShiftBitLinear(ShiftBit(x), ShiftBit(y));
    ShiftBitLinear(ShiftBit(ShiftBit(x)), ShiftBit(ShiftBit(y)));
    ShiftBitLinear(ShiftBit(ShiftBit(ShiftBit(x))), ShiftBit(ShiftBit(ShiftBit(y))));
  }

  lemma ShiftByteLinear(x: bv16, y: bv16)
    ensures ShiftByte(Xor(x, y)) == Xor(ShiftByte(x), ShiftByte(y))
  {
    hide ShiftNibble, Xor;
    ShiftNibbleLinear(x, y);
    ShiftNibbleLinear(ShiftNibble(x), ShiftNibble(y));
  }

  lemma ShiftBitInjective(x: bv16, y: bv16)
    requires ShiftBit(x) == ShiftBit(y)
    ensures x == y
  {
  }

  lemma ShiftNibbleInjective(x: bv16, y: bv16)
    requires ShiftNibble(x) == ShiftNibble(y)
    ensures x == y
  {
    hide ShiftBit;
    ShiftBitInjective(ShiftBit(ShiftBit(ShiftBit(x))), ShiftBit(ShiftBit(ShiftBit(y))));
    ShiftBitInjective(ShiftBit(ShiftBit(x)), ShiftBit(ShiftBit(y)));
    ShiftBitInjective(ShiftBit(x), ShiftBit(y));
    ShiftBitInjective(x, y);
  }

  lemma ShiftByteInjective(x: bv16, y: bv16)
    requires ShiftByte(x) == ShiftByte(y)
    ensures x == y
  {
    hide ShiftNibble;
    ShiftNibbleInjective(ShiftNibble(x), ShiftNibble(y));
    ShiftNibbleInjective(x, y);
  }

  lemma ShiftByteHigh(x: bv16)
    requires x & 0xff == 0
    ensures ShiftByte(x) == x >> 8
  {
  }

  /** A change within one octet reaches the upper half of the register. */
  lemma ShiftByteSpreads(d: bv16)
    requires d < 256 && ShiftByte(d) < 256
    ensures d == 0
  {
  }

  // ----- the table holds the register step -----

  lemma Heads0()
    ensures ROW_0[0] == ShiftByte(0x00) && ROW_0[0] == ShiftByte(0)
  {
  }

  lemma Heads1()
    ensures ROW_1[0] == ShiftByte(0x10) && ROW_0[1] == ShiftByte(1)
  {
  }

  lemma Heads2()
    ensures ROW_2[0] == ShiftByte(0x20) && ROW_0[2] == ShiftByte(2)
  {
  }

  lemma Heads3()
    ensures ROW_3[0] == ShiftByte(0x30) && ROW_0[3] == ShiftByte(3)
  {
  }

  lemma Heads4()
    ensures ROW_4[0] == ShiftByte(0x40) && ROW_0[4] == ShiftByte(4)
  {
  }

  lemma Heads5()
    ensures ROW_5[0] == ShiftByte(0x50) && ROW_0[5] == ShiftByte(5)
  {
  }

  lemma Heads6()
    ensures ROW_6[0] == ShiftByte(0x60) && ROW_0[6] == ShiftByte(6)
  {
  }

  lemma Heads7()
    ensures ROW_7[0] == ShiftByte(0x70) && ROW_0[7] == ShiftByte(7)
  {
  }

  lemma Heads8()
    ensures ROW_8[0] == ShiftByte(0x80) && ROW_0[8] == ShiftByte(8)
  {
  }

  lemma Heads9()
    ensures ROW_9[0] == ShiftByte(0x90) && ROW_0[9] == ShiftByte(9)
  {
  }

  lemma HeadsA()
    ensures ROW_A[0] == ShiftByte(0xa0) && ROW_0[10] == ShiftByte(10)
  {
  }

  lemma HeadsB()
    ensures ROW_B[0] == ShiftByte(0xb0) && ROW_0[11] == ShiftByte(11)
  {
  }

  lemma HeadsC()
    ensures ROW_C[0] == ShiftByte(0xc0) && ROW_0[12] == ShiftByte(12)
  {
  }

  lemma HeadsD()
    ensures ROW_D[0] == ShiftByte(0xd0) && ROW_0[13] == ShiftByte(13)
  {
  }

  lemma HeadsE()
    ensures ROW_E[0] == ShiftByte(0xe0) && ROW_0[14] == ShiftByte(14)
  {
  }

  lemma HeadsF()
    ensures ROW_F[0] == ShiftByte(0xf0) && ROW_0[15] == ShiftByte(15)
  {
  }

  lemma Row1Linear(j: nat)
    requires j < 16
    ensures ROW_1[j] == ROW_1[0] ^ ROW_0[j]
  {
  }

  lemma Row2Linear(j: nat)
    requires j < 16
    ensures ROW_2[j] == ROW_2[0] ^ ROW_0[j]
  {
  }

  lemma Row3Linear(j: nat)
    requires j < 16
    ensures ROW_3[j] == ROW_3[0] ^ ROW_0[j]
  {
  }

  lemma Row4Linear(j: nat)
    requires j < 16
    ensures ROW_4[j] == ROW_4[0] ^ ROW_0[j]
  {
  }

  lemma Row5Linear(j: nat)
    requires j < 16
    ensures ROW_5[j] == ROW_5[0] ^ ROW_0[j]
  {
  }

  lemma Row6Linear(j: nat)
    requires j < 16
    ensures ROW_6[j] == ROW_6[0] ^ ROW_0[j]
  {
  }

  lemma Row7Linear(j: nat)
    requires j < 16
    ensures ROW_7[j] == ROW_7[0] ^ ROW_0[j]
  {
  }

  lemma Row8Linear(j: nat)
    requires j < 16
    ensures ROW_8[j] == ROW_8[0] ^ ROW_0[j]
  {
  }

  lemma Row9Linear(j: nat)
    requires j < 16
    ensures ROW_9[j] == ROW_9[0] ^ ROW_0[j]
  {
  }

  lemma RowALinear(j: nat)
    requires j < 16
    ensures ROW_A[j] == ROW_A[0] ^ ROW_0[j]
  {
  }

  lemma RowBLinear(j: nat)
    requires j < 16
    ensures ROW_B[j] == ROW_B[0] ^ ROW_0[j]
  {
  }

  lemma RowCLinear(j: nat)
    requires j < 16
    ensures ROW_C[j] == ROW_C[0] ^ ROW_0[j]
  {
  }

  lemma RowDLinear(j: nat)
    requires j < 16
    ensures ROW_D[j] == ROW_D[0] ^ ROW_0[j]
  {
  }

  lemma RowELinear(j: nat)
    requires j < 16
    ensures ROW_E[j] == ROW_E[0] ^ ROW_0[j]
  {
  }

  lemma RowFLinear(j: nat)
    requires j < 16
    ensures ROW_F[j] == ROW_F[0] ^ ROW_0[j]
  {
  }

  lemma UpperRows(h: nat, j: nat)
    requires 0 <= h < 8 && j < 16
    ensures CRC_TABLE[h][j] == CRC_TABLE[h][0] ^ ROW_0[j]
  {
    match h
    case 0 => assert ROW_0[0] == 0;
    case 1 => Row1Linear(j);
    case 2 => Row2Linear(j);
    case 3 => Row3Linear(j);
    case 4 => Row4Linear(j);
    case 5 => Row5Linear(j);
    case 6 => Row6Linear(j);
    case 7 => Row7Linear(j);
  }

  lemma LowerRows(h: nat, j: nat)
    requires 8 <= h < 16 && j < 16
    ensures CRC_TABLE[h][j] == CRC_TABLE[h][0] ^ ROW_0[j]
  {
    match h
    case 8 => Row8Linear(j);
    case 9 => Row9Linear(j);
    case 10 => RowALinear(j);
    case 11 => RowBLinear(j);
    case 12 => RowCLinear(j);
    case 13 => RowDLinear(j);
    case 14 => RowELinear(j);
    case 15 => RowFLinear(j);
  }

  /** The first column of the table. */
  lemma RowHead(h: bv16)
    requires h < 16
    ensures CRC_TABLE[h as int][0] == ShiftByte(h << 4)
  {
    hide ShiftByte;
    match h
    case 0 => Heads0();
    case 1 => Heads1();
    case 2 => Heads2();
    case 3 => Heads3();
    case 4 => Heads4();
    case 5 => Heads5();
    case 6 => Heads6();
    case 7 => Heads7();
    case 8 => Heads8();
    case 9 => Heads9();
    case 10 => HeadsA();
    case 11 => HeadsB();
    case 12 => HeadsC();
    case 13 => HeadsD();
    case 14 => HeadsE();
    case 15 => HeadsF();
  }

  /** The first row of the table. */
  lemma FirstRow(j: bv16)
    requires j < 16
    ensures ROW_0[j as int] == ShiftByte(j)
  {
    hide ShiftByte;
    match j
    case 0 => Heads0();
    case 1 => Heads1();
    case 2 => Heads2();
    case 3 => Heads3();
    case 4 => Heads4();
    case 5 => Heads5();
    case 6 => Heads6();
    case 7 => Heads7();
    case 8 => Heads8();
    case 9 => Heads9();
    case 10 => HeadsA();
    case 11 => HeadsB();
    case 12 => HeadsC();
    case 13 => HeadsD();
    case 14 => HeadsE();
    case 15 => HeadsF();
  }

  lemma Rejoin(i: bv16)
    ensures Xor((i >> 4) << 4, i & 0xf) == i
  {
  }

  lemma Combine(i: bv16, upper: bv16, lower: bv16)
    requires Xor(upper, lower) == i
    ensures ShiftByte(i) == Xor(ShiftByte(upper), ShiftByte(lower))
  {
    hide Xor, ShiftByte;
    ShiftByteLinear(upper, lower);
  }

  lemma EntryLinear(h: bv16, j: bv16)
    requires h < 16 && j < 16
    ensures CRC_TABLE[h as int][j as int] == Xor(CRC_TABLE[h as int][0], ROW_0[j as int])
  {
    if h < 8 {
      UpperRows(h as int, j as int);
    } else {
      LowerRows(h as int, j as int);
    }
  }

  lemma NibbleRange(i: bv16)
    requires i < 256
    ensures i >> 4 < 16 && i & 0xf < 16
  {
  }

  /** Every table entry is the register step applied to its index. */
  lemma TableCorrect(i: bv16)
    requires i < 256
    ensures Entry(i) == ShiftByte(i)
  {
    hide Xor, ShiftByte;
    NibbleRange(i);
    EntryLinear(i >> 4, i & 0xf);
    RowHead(i >> 4);
    FirstRow(i & 0xf);
    Rejoin(i);
    Combine(i, (i >> 4) << 4, i & 0xf);
  }

  // ----- table-driven and bit-serial agree -----

  lemma ShiftDropsLow(r: bv16, c: bv16)
    ensures Xor(r, c & 1) >> 1 == r >> 1
  {
  }

  lemma FeedBitIsShift(r: bv16, c: bv16)
    ensures FeedBit(r, c & 1) == ShiftBit(Xor(r, c & 1))
  {
    hide Feedback, Xor;
    ShiftDropsLow(r, c);
  }

  lemma LowAndRest(c: bv16)
    ensures Xor(c & 1, c & 0xfffe) == c
  {
  }

  lemma SplitLow(r: bv16, c: bv16)
    ensures Xor(Xor(r, c & 1), c & 0xfffe) == Xor(r, c)
  {
    hide Xor;
    XorAssociates(r, c & 1, c & 0xfffe);
    LowAndRest(c);
  }

  lemma EvenFeedback(c: bv16)
    ensures Feedback(c & 0xfffe) == 0
  {
  }

  lemma EvenShift(c: bv16)
    ensures Xor((c & 0xfffe) >> 1, 0) == c >> 1
  {
  }

  lemma ShiftEven(c: bv16)
    ensures ShiftBit(c & 0xfffe) == c >> 1
  {
    hide Feedback, Xor;
    EvenFeedback(c);
    EvenShift(c);
  }

  /** Feeding the low bit of c, with the rest of c still to come. */
  lemma FeedAligned(r: bv16, c: bv16)
    ensures ShiftBit(Xor(r, c)) == Xor(FeedBit(r, c & 1), c >> 1)
  {
    hide ShiftBit, FeedBit, Xor;
    FeedBitIsShift(r, c);
    SplitLow(r, c);
    ShiftBitLinear(Xor(r, c & 1), c & 0xfffe);
    ShiftEven(c);
  }

  function Shifts(x: bv16, n: nat): bv16
    decreases n
  {
    if n == 0 then x else Shifts(ShiftBit(x), n - 1)
  }

  function Remaining(c: bv16, n: nat): bv16
    decreases n
  {
    if n == 0 then c else Remaining(c >> 1, n - 1)
  }

  lemma XorZero(r: bv16)
    ensures Xor(r, 0) == r
  {
  }

  /** Feeding the n bits of c is shifting the register, with c added, that many times. */
  lemma {:induction false} FeedBitsIsShift(r: bv16, c: bv16, n: nat)
    requires Remaining(c, n) == 0
    ensures FeedBits(r, Bits(c, n)) == Shifts(Xor(r, c), n)
    decreases n
  {
    hide ShiftBit, FeedBit, Xor;
    if n == 0 {
      XorZero(r);
    } else {
      FeedAligned(r, c);
      FeedBitsIsShift(FeedBit(r, c & 1), c >> 1, n - 1);
      assert Bits(c, n)[1..] == Bits(c >> 1, n - 1);
    }
  }

  lemma OctetShifted(c: bv16)
    requires c < 256
    ensures (((((((c >> 1) >> 1) >> 1) >> 1) >> 1) >> 1) >> 1) >> 1 == 0
  {
  }

  lemma OctetFits(c: bv16)
    requires c < 256
    ensures Remaining(c, 8) == 0
  {
    OctetShifted(c);
    assert Remaining(c, 8) == Remaining(((c >> 1) >> 1) >> 1, 5) == Remaining(((((c >> 1) >> 1) >> 1) >> 1) >> 1, 3);
  }

  lemma ShiftByteIsShifts(x: bv16)
    ensures Shifts(x, 8) == ShiftByte(x)
  {
    hide ShiftBit;
    var x4 := ShiftNibble(x);
    assert Shifts(x, 8) == Shifts(ShiftBit(ShiftBit(x)), 6) == Shifts(x4, 4);
    assert Shifts(x4, 4) == Shifts(ShiftBit(ShiftBit(x4)), 2);
  }

  lemma FeedByteIsShift(crc: bv16, b: Byte)
    ensures FeedByte(crc, b) == ShiftByte(Xor(crc, b))
  {
    hide ShiftByte, Xor;
    OctetFits(b);
    FeedBitsIsShift(crc, b, 8);
    ShiftByteIsShifts(Xor(crc, b));
  }

  /** One iteration of the source's loop. */
  function TableStep(crc: bv16, b: Byte): bv16 {
    Xor(Entry(Xor(crc, b) & 0xff), crc >> 8)
  }

  lemma LowerHalf(x: bv16)
    ensures x & 0xff < 256
  {
  }

  lemma UpperHalf(x: bv16)
    ensures (x & 0xff00) & 0xff == 0
  {
  }

  lemma UpperShift(x: bv16)
    ensures (x & 0xff00) >> 8 == x >> 8
  {
  }

  lemma Halves(crc: bv16, b: Byte)
    ensures Xor(Xor(crc, b) & 0xff, crc & 0xff00) == Xor(crc, b)
  {
  }

  lemma UpperEntry(crc: bv16)
    ensures ShiftByte(crc & 0xff00) == crc >> 8
  {
    hide ShiftByte;
    UpperHalf(crc);
    ShiftByteHigh(crc & 0xff00);
    UpperShift(crc);
  }

  lemma TableStepIsFeed(crc: bv16, b: Byte)
    ensures TableStep(crc, b) == FeedByte(crc, b)
  {
    hide FeedByte, ShiftByte, Entry, Xor;
    LowerHalf(Xor(crc, b));
    TableCorrect(Xor(crc, b) & 0xff);
    UpperEntry(crc);
    Halves(crc, b);
    Combine(Xor(crc, b), Xor(crc, b) & 0xff, crc & 0xff00);
    FeedByteIsShift(crc, b);
  }

  /** DNP3ComputeCRC: the table-driven loop computes the complement of the bit-serial CRC. */
  method ComputeCRC(buf: seq<Byte>) returns (crc: bv16)
    ensures crc == !Crc(buf)
  {
    hide FeedByte, TableStep;
    crc := 0;
    for i := 0 to |buf|
      invariant crc == Crc(buf[..i])
    {
      TableStepIsFeed(crc, buf[i]);
      assert buf[..i + 1][..i] == buf[..i];
      crc := TableStep(crc, buf[i]);
    }
    assert buf[..|buf|] == buf;
    crc := !crc;
  }

  // ----- the block check -----

  const CRC_LEN: nat := 2

  function LowOctet(crc: bv16): Byte { crc & 0xff }

  function HighOctet(crc: bv16): Byte { crc >> 8 }

  /** The complement of a register on the wire, low octet first. */
  function WireCrc(r: bv16): seq<Byte> {
    [LowOctet(!r), HighOctet(!r)]
  }

  /** The two octets that follow a block of data. */
  function CrcBytes(data: seq<Byte>): (s: seq<Byte>)
    ensures |s| == CRC_LEN
  {
    WireCrc(Crc(data))
  }

  /** Reference: at least one octet, then the CRC octets of what precedes them. */
  predicate CheckCRC(block: seq<Byte>) {
    && |block| >= CRC_LEN + 1
    && block[|block| - CRC_LEN..] == CrcBytes(block[..|block| - CRC_LEN])
  }

  /** DNP3CheckCRC: compute the CRC of the data and compare its two octets. */
  method CheckBlock(block: seq<Byte>) returns (ok: bool)
    ensures ok <==> CheckCRC(block)
  {
    hide Crc, LowOctet, HighOctet, CheckCRC;
    if |block| < CRC_LEN + 1 {
      ShortBlock(block);
      return false;
    }
    var at := |block| - CRC_LEN;
    var crc := ComputeCRC(block[..at]);
    OctetsMatch(block, at, crc);
    ok := LowOctet(crc) == block[at] && HighOctet(crc) == block[at + 1];
  }

  lemma ShortBlock(block: seq<Byte>)
    requires |block| < CRC_LEN + 1
    ensures !CheckCRC(block)
  {
  }

  lemma OctetsMatch(block: seq<Byte>, at: nat, crc: bv16)
    requires 1 <= at && at + CRC_LEN == |block| && crc == !Crc(block[..at])
    ensures CheckCRC(block) <==> LowOctet(crc) == block[at] && HighOctet(crc) == block[at + 1]
  {
    hide Crc, LowOctet, HighOctet;
    assert block[at..] == [block[at], block[at + 1]];
  }

  /** The reference with data and CRC octets apart. */
  lemma CheckedBlock(data: seq<Byte>, tail: seq<Byte>)
    requires |tail| == CRC_LEN && data != []
    ensures CheckCRC(data + tail) <==> tail == CrcBytes(data)
  {
    hide CrcBytes;
    assert (data + tail)[..|data|] == data && (data + tail)[|data|..] == tail;
  }

  // ----- error detection -----

  lemma XorCancel(p: bv16, q: bv16, x: bv16)
    requires Xor(p, x) == Xor(q, x)
    ensures p == q
  {
  }

  lemma FeedByteInjective(p: bv16, q: bv16, b: Byte)
    requires FeedByte(p, b) == FeedByte(q, b)
    ensures p == q
  {
    hide FeedByte, ShiftByte, Xor;
    FeedByteIsShift(p, b);
    FeedByteIsShift(q, b);
    ShiftByteInjective(Xor(p, b), Xor(q, b));
    XorCancel(p, q, b);
  }

  lemma CrcStep(s: seq<Byte>, b: Byte)
    ensures Crc(s + [b]) == FeedByte(Crc(s), b)
  {
    hide FeedByte;
    assert (s + [b])[..|s|] == s;
  }

  /** Octets that follow a difference in the register never cancel it. */
  lemma {:induction false} Diverges(a: seq<Byte>, b: seq<Byte>, tail: seq<Byte>)
    requires Crc(a) != Crc(b)
    ensures Crc(a + tail) != Crc(b + tail)
  {
    hide FeedByte, Crc;
    if tail == [] {
      assert a + tail == a && b + tail == b;
    } else {
      var n := |tail| - 1;
      Diverges(a, b, tail[..n]);
      var p, q := a + tail[..n], b + tail[..n];
      assert a + tail == p + [tail[n]] && b + tail == q + [tail[n]];
      CrcStep(p, tail[n]);
      CrcStep(q, tail[n]);
      if FeedByte(Crc(p), tail[n]) == FeedByte(Crc(q), tail[n]) {
        FeedByteInjective(Crc(p), Crc(q), tail[n]);
      }
    }
  }

  lemma DifferenceOctet(u: bv16, v: bv16, b: Byte, d: Byte)
    requires Xor(u, b) == Xor(v, d)
    ensures Xor(u, v) < 256
  {
  }

  lemma XorCancelLeft(u: bv16, b: bv16, d: bv16)
    requires Xor(u, b) == Xor(u, d)
    ensures b == d
  {
  }

  lemma SameRegister(c: bv16, b: Byte, d: Byte)
    ensures Xor(Xor(c, b), Xor(c, d)) == Xor(b, d)
  {
  }

  lemma OctetXor(b: Byte, d: Byte)
    ensures Xor(b, d) < 256
  {
  }

  lemma XorIsZero(b: bv16, d: bv16)
    requires Xor(b, d) == 0
    ensures b == d
  {
  }

  /** Registers that differ in one octet still differ above it after that octet is fed. */
  lemma FeedSpreads(c: bv16, b: Byte, d: Byte)
    requires Xor(FeedByte(c, b), FeedByte(c, d)) < 256
    ensures b == d
  {
    hide FeedByte, ShiftByte, Xor;
    FeedByteIsShift(c, b);
    FeedByteIsShift(c, d);
    SameRegister(c, b, d);
    Combine(Xor(b, d), Xor(c, b), Xor(c, d));
    OctetXor(b, d);
    ShiftByteSpreads(Xor(b, d));
    XorIsZero(b, d);
  }

  /** Two octets fed one after the other leave a register that determines both. */
  lemma TwoOctets(c: bv16, b0: Byte, b1: Byte, d0: Byte, d1: Byte)
    requires FeedByte(FeedByte(c, b0), b1) == FeedByte(FeedByte(c, d0), d1)
    ensures b0 == d0 && b1 == d1
  {
    hide FeedByte, ShiftByte, Xor;
    var u, v := FeedByte(c, b0), FeedByte(c, d0);
    FeedByteIsShift(u, b1);
    FeedByteIsShift(v, d1);
    ShiftByteInjective(Xor(u, b1), Xor(v, d1));
    DifferenceOctet(u, v, b1, d1);
    FeedSpreads(c, b0, d0);
    XorCancelLeft(u, b1, d1);
  }

  /** Registers whose complements share the high octet differ below 256. */
  lemma StoredHigh(r: bv16, q: bv16)
    requires HighOctet(!r) == HighOctet(!q)
    ensures Xor(r, q) < 256
  {
  }

  /** The octets on the wire determine the register. */
  lemma StoredBoth(r: bv16, q: bv16)
    requires HighOctet(!r) == HighOctet(!q) && LowOctet(!r) == LowOctet(!q)
    ensures r == q
  {
  }

  /** Changes inside the data. */
  lemma DataChange(pre: seq<Byte>, b0: Byte, b1: Byte, d0: Byte, d1: Byte, post: seq<Byte>)
    requires b0 != d0 || b1 != d1
    ensures Crc(pre + [b0] + [b1] + post) != Crc(pre + [d0] + [d1] + post)
  {
    hide FeedByte, Crc;
    CrcStep(pre, b0);
    CrcStep(pre, d0);
    CrcStep(pre + [b0], b1);
    CrcStep(pre + [d0], d1);
    if FeedByte(FeedByte(Crc(pre), b0), b1) == FeedByte(FeedByte(Crc(pre), d0), d1) {
      TwoOctets(Crc(pre), b0, b1, d0, d1);
    }
    Diverges(pre + [b0] + [b1], pre + [d0] + [d1], post);
  }

  lemma WireCrcInjective(r: bv16, q: bv16)
    requires WireCrc(r) == WireCrc(q)
    ensures r == q
  {
    hide LowOctet, HighOctet;
    assert WireCrc(r)[0] == WireCrc(q)[0] && WireCrc(r)[1] == WireCrc(q)[1];
    StoredBoth(r, q);
  }

  lemma WireCrcHigh(r: bv16, q: bv16)
    requires WireCrc(r)[1] == WireCrc(q)[1]
    ensures Xor(r, q) < 256
  {
    hide LowOctet, HighOctet, Xor;
    StoredHigh(r, q);
  }

  /** Different registers show in the CRC octets. */
  lemma CrcBytesDiffer(a: seq<Byte>, b: seq<Byte>)
    requires CrcBytes(a) == CrcBytes(b)
    ensures Crc(a) == Crc(b)
  {
    hide Crc, WireCrc;
    WireCrcInjective(Crc(a), Crc(b));
  }

  /** A change of the last data octet shows in the high CRC octet. */
  lemma CrcBytesLast(pre: seq<Byte>, b: Byte, d: Byte)
    requires CrcBytes(pre + [b])[1] == CrcBytes(pre + [d])[1]
    ensures b == d
  {
    hide Crc, WireCrc, FeedByte, Xor;
    CrcStep(pre, b);
    CrcStep(pre, d);
    WireCrcHigh(Crc(pre + [b]), Crc(pre + [d]));
    FeedSpreads(Crc(pre), b, d);
  }

  /** A block that passes the check fails it after any change confined to two adjacent
      octets, whether they hold data, CRC or one of each. */
  lemma DetectsAdjacent(block: seq<Byte>, i: nat, d0: Byte, d1: Byte)
    requires CheckCRC(block) && i + 1 < |block|
    requires block[i] != d0 || block[i + 1] != d1
    ensures !CheckCRC(block[i := d0][i + 1 := d1])
  {
    hide CrcBytes, Crc;
    var n := |block| - CRC_LEN;
    var bad := block[i := d0][i + 1 := d1];
    if i + 1 < n {
      assert block[..n] == block[..i] + [block[i]] + [block[i + 1]] + block[i + 2..n];
      assert bad[..n] == block[..i] + [d0] + [d1] + block[i + 2..n];
      DataChange(block[..i], block[i], block[i + 1], d0, d1, block[i + 2..n]);
      assert bad[n..] == block[n..];
      if CheckCRC(bad) {
        CrcBytesDiffer(block[..n], bad[..n]);
      }
    } else if i + 1 == n {
      assert block[..n] == block[..i] + [block[i]] && bad[..n] == block[..i] + [d0];
      assert block[n..][1] == bad[n..][1];
      assert block[n..][0] == block[n] && bad[n..][0] == d1;
      if CheckCRC(bad) {
        CrcBytesLast(block[..i], block[i], d0);
      }
    } else {
      assert bad[..n] == block[..n];
      assert bad[n..][0] == d0 && bad[n..][1] == d1;
    }
  }

  /** In particular after any single octet is altered. */
  lemma DetectsSingle(block: seq<Byte>, i: nat, d: Byte)
    requires CheckCRC(block) && i < |block| && d != block[i]
    ensures !CheckCRC(block[i := d])
  {
    hide CrcBytes;
    if i + 1 < |block| {
      DetectsAdjacent(block, i, d, block[i + 1]);
      assert block[i := d][i + 1 := block[i + 1]] == block[i := d];
    } else {
      DetectsAdjacent(block, i - 1, block[i - 1], d);
      assert block[i - 1 := block[i - 1]][i := d] == block[i := d];
    }
  }
}
