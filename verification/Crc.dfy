/** The shift register of CRC-16: the reflected polynomial of section 6.2.2 of MODBUS over Serial Line
  V1.02, and the algebra that the table-driven form and the error detection rest on.  The operators
  have names so that the proofs above the level of bits can treat them as symbols.
*/
module CrcShift {
  /** One shift. */
  function Bit(crc: bv16): bv16 { if IsEven(crc) then Half(crc) else Xor(Half(crc), POLYNOMIAL) }

  const POLYNOMIAL: bv16 := 0xA001

  function Half(x: bv16): bv16 { x >> 1 }

  function Bits2(crc: bv16): bv16 { Bit(Bit(crc)) }

  function Bits4(crc: bv16): bv16 { Bits2(Bits2(crc)) }

  /** Eight shifts. */
  function Bits(crc: bv16): bv16 { Bits4(Bits4(crc)) }

  function Xor(x: bv16, y: bv16): bv16 { x ^ y }

  predicate IsEven(x: bv16) { x & 1 == 0 }

  predicate LowZero(x: bv16) { x & 0xFF == 0 }

  predicate HighZero(x: bv16) { x & 0xFF00 == 0 }

  function Down(x: bv16): bv16 { x >> 8 }

  function Up(x: bv16): bv16 { x << 8 }

  lemma HalfLinear(x: bv16, y: bv16)
    ensures Half(Xor(x, y)) == Xor(Half(x), Half(y))
  {
  }

  lemma EvenXor(x: bv16, y: bv16)
    ensures IsEven(Xor(x, y)) <==> IsEven(x) == IsEven(y)
  {
  }

  lemma XorCommutes(x: bv16, y: bv16)
    ensures Xor(x, y) == Xor(y, x)
  {
  }

  lemma XorAssoc(x: bv16, y: bv16, z: bv16)
    ensures Xor(Xor(x, y), z) == Xor(x, Xor(y, z))
  {
  }

  lemma XorBack(u: bv16, x: bv16)
    ensures Xor(Xor(u, x), x) == u
  {
  }

  lemma XorCancel(w: bv16, x: bv16, y: bv16)
    ensures Xor(Xor(w, x), Xor(w, y)) == Xor(x, y)
  {
    hide Xor;
    XorCommutes(w, x);
    XorAssoc(x, w, Xor(w, y));
    XorCommutes(w, y);
    XorCommutes(w, Xor(y, w));
    XorBack(y, w);
  }

  lemma BitLinear(x: bv16, y: bv16)
    ensures Bit(Xor(x, y)) == Xor(Bit(x), Bit(y))
  {
    hide Half, IsEven, Xor;
    var p := POLYNOMIAL;
    EvenXor(x, y);
    HalfLinear(x, y);
    XorAssoc(Half(x), Half(y), p);
    XorAssoc(Half(x), p, Half(y));
    XorCommutes(p, Half(y));
    XorCommutes(Half(x), p);
    XorCommutes(Half(y), p);
    XorCancel(p, Half(x), Half(y));
  }

  /** The shifts are linear. */
  lemma BitsLinear(x: bv16, y: bv16)
    ensures Bits(Xor(x, y)) == Xor(Bits(x), Bits(y))
  {
    hide Bit, Xor;
    BitLinear(x, y);
    BitLinear(Bit(x), Bit(y));
    BitLinear(Bits2(x), Bits2(y));
    BitLinear(Bit(Bits2(x)), Bit(Bits2(y)));
    BitLinear(Bits4(x), Bits4(y));
    BitLinear(Bit(Bits4(x)), Bit(Bits4(y)));
    BitLinear(Bits2(Bits4(x)), Bits2(Bits4(y)));
    BitLinear(Bit(Bits2(Bits4(x))), Bit(Bits2(Bits4(y))));
  }

  /** Eight shifts of a word whose low byte is 0 move its high byte down. */
  lemma BitsOfHigh(x: bv16)
    requires LowZero(x)
    ensures Bits(x) == Down(x)
  {
  }

  /** Eight shifts of a word move its high byte down onto what they make of its low byte. */
  lemma BitsOfParts(high: bv16, low: bv16)
    requires LowZero(high)
    ensures Bits(Xor(high, low)) == Xor(Down(high), Bits(low))
  {
    hide *;
    BitsOfHigh(high);
    BitsLinear(high, low);
  }

  lemma BitInjective(x: bv16, y: bv16)
    requires Bit(x) == Bit(y)
    ensures x == y
  {
  }

  /** Nothing is lost in the shifts. */
  lemma BitsInjective(x: bv16, y: bv16)
    requires Bits(x) == Bits(y)
    ensures x == y
  {
    hide Bit;
    BitInjective(Bit(Bits2(Bits4(x))), Bit(Bits2(Bits4(y))));
    BitInjective(Bits2(Bits4(x)), Bits2(Bits4(y)));
    BitInjective(Bit(Bits4(x)), Bit(Bits4(y)));
    BitInjective(Bits4(x), Bits4(y));
    BitInjective(Bit(Bits2(x)), Bit(Bits2(y)));
    BitInjective(Bits2(x), Bits2(y));
    BitInjective(Bit(x), Bit(y));
    BitInjective(x, y);
  }

  lemma UpDown(x: bv16)
    ensures LowZero(Up(x)) && (HighZero(x) ==> Down(Up(x)) == x)
  {
  }

  /** Eight shifts leave the high byte 0 only if there was nothing in the low byte. */
  lemma BitsSmall(x: bv16)
    requires HighZero(Bits(x))
    ensures LowZero(x)
  {
    hide *;
    UpDown(Bits(x));
    BitsOfHigh(Up(Bits(x)));
    BitsInjective(x, Up(Bits(x)));
  }
}

/** The CRC of Modbus over serial lines: the table-driven loop computes the bit-by-bit CRC-16, and what
  a receiver may conclude from it.
*/
module Crc {
  import opened CrcShift

  function Xor8(x: bv8, y: bv8): bv8 { x ^ y }

  function Wide(b: bv8): bv16 { b as bv16 }

  /** One byte. */
  function Step(crc: bv16, b: bv8): bv16 { Bits(Xor(crc, Wide(b))) }

  function StepAll(crc: bv16, s: seq<bv8>): bv16
  {
    if s == [] then crc else Step(StepAll(crc, s[..|s| - 1]), s[|s| - 1])
  }

  function Crc16(s: seq<bv8>): bv16 { StepAll(0xFFFF, s) }

  /** The example of section 6.2.2: the bytes 02 07 have the CRC 0x1241. */
  lemma StandardExample()
    ensures Crc16([0x02, 0x07]) == 0x1241
  {
    var s: seq<bv8> := [0x02, 0x07];
    assert s[..1] == [0x02] && s[..1][..0] == [];
    FirstStep();
    SecondStep();
    TwoBytes(0xFFFF, 0x02, 0x07);
  }

  lemma TwoBytes(crc: bv16, a: bv8, b: bv8)
    ensures StepAll(crc, [a, b]) == Step(Step(crc, a), b)
  {
    hide Step;
    assert [a, b][..1] == [a] && [a][..0] == [];
    assert StepAll(crc, [a]) == Step(StepAll(crc, []), a);
  }

  lemma FirstStep()
    ensures Step(0xFFFF, 0x02) == 0x813E
  {
  }

  lemma SecondStep()
    ensures Step(0x813E, 0x07) == 0x1241
  {
  }

  /** The word of two bytes. */
  function Join(hi: bv8, lo: bv8): bv16 { (Wide(hi) << 8) | Wide(lo) }

  // ---------- the two tables, in rows of 16 ----------

  const HI_0: seq<bv8> := [0x00, 0xC1, 0x81, 0x40, 0x01, 0xC0, 0x80, 0x41, 0x01, 0xC0, 0x80, 0x41, 0x00, 0xC1, 0x81, 0x40]
  const HI_1: seq<bv8> := [0x01, 0xC0, 0x80, 0x41, 0x00, 0xC1, 0x81, 0x40, 0x00, 0xC1, 0x81, 0x40, 0x01, 0xC0, 0x80, 0x41]
  const HI_2: seq<bv8> := [0x01, 0xC0, 0x80, 0x41, 0x00, 0xC1, 0x81, 0x40, 0x00, 0xC1, 0x81, 0x40, 0x01, 0xC0, 0x80, 0x41]
  const HI_3: seq<bv8> := [0x00, 0xC1, 0x81, 0x40, 0x01, 0xC0, 0x80, 0x41, 0x01, 0xC0, 0x80, 0x41, 0x00, 0xC1, 0x81, 0x40]
  const HI_4: seq<bv8> := [0x01, 0xC0, 0x80, 0x41, 0x00, 0xC1, 0x81, 0x40, 0x00, 0xC1, 0x81, 0x40, 0x01, 0xC0, 0x80, 0x41]
  const HI_5: seq<bv8> := [0x00, 0xC1, 0x81, 0x40, 0x01, 0xC0, 0x80, 0x41, 0x01, 0xC0, 0x80, 0x41, 0x00, 0xC1, 0x81, 0x40]
  const HI_6: seq<bv8> := [0x00, 0xC1, 0x81, 0x40, 0x01, 0xC0, 0x80, 0x41, 0x01, 0xC0, 0x80, 0x41, 0x00, 0xC1, 0x81, 0x40]
  const HI_7: seq<bv8> := [0x01, 0xC0, 0x80, 0x41, 0x00, 0xC1, 0x81, 0x40, 0x00, 0xC1, 0x81, 0x40, 0x01, 0xC0, 0x80, 0x41]
  const HI_8: seq<bv8> := [0x01, 0xC0, 0x80, 0x41, 0x00, 0xC1, 0x81, 0x40, 0x00, 0xC1, 0x81, 0x40, 0x01, 0xC0, 0x80, 0x41]
  const HI_9: seq<bv8> := [0x00, 0xC1, 0x81, 0x40, 0x01, 0xC0, 0x80, 0x41, 0x01, 0xC0, 0x80, 0x41, 0x00, 0xC1, 0x81, 0x40]
  const HI_A: seq<bv8> := [0x00, 0xC1, 0x81, 0x40, 0x01, 0xC0, 0x80, 0x41, 0x01, 0xC0, 0x80, 0x41, 0x00, 0xC1, 0x81, 0x40]
  const HI_B: seq<bv8> := [0x01, 0xC0, 0x80, 0x41, 0x00, 0xC1, 0x81, 0x40, 0x00, 0xC1, 0x81, 0x40, 0x01, 0xC0, 0x80, 0x41]
  const HI_C: seq<bv8> := [0x00, 0xC1, 0x81, 0x40, 0x01, 0xC0, 0x80, 0x41, 0x01, 0xC0, 0x80, 0x41, 0x00, 0xC1, 0x81, 0x40]
  const HI_D: seq<bv8> := [0x01, 0xC0, 0x80, 0x41, 0x00, 0xC1, 0x81, 0x40, 0x00, 0xC1, 0x81, 0x40, 0x01, 0xC0, 0x80, 0x41]
  const HI_E: seq<bv8> := [0x01, 0xC0, 0x80, 0x41, 0x00, 0xC1, 0x81, 0x40, 0x00, 0xC1, 0x81, 0x40, 0x01, 0xC0, 0x80, 0x41]
  const HI_F: seq<bv8> := [0x00, 0xC1, 0x81, 0x40, 0x01, 0xC0, 0x80, 0x41, 0x01, 0xC0, 0x80, 0x41, 0x00, 0xC1, 0x81, 0x40]

  function HiRow(r: bv8): (row: seq<bv8>)
    ensures |row| == 16
  {
    match r
    case 0 => HI_0
    case 1 => HI_1
    case 2 => HI_2
    case 3 => HI_3
    case 4 => HI_4
    case 5 => HI_5
    case 6 => HI_6
    case 7 => HI_7
    case 8 => HI_8
    case 9 => HI_9
    case 10 => HI_A
    case 11 => HI_B
    case 12 => HI_C
    case 13 => HI_D
    case 14 => HI_E
    case _ => HI_F
  }

  /** aucCRCHi */
  function AucCrcHi(i: bv8): bv8 { HiRow(i >> 4)[(i & 0xF) as nat] }

  const LO_0: seq<bv8> := [0x00, 0xC0, 0xC1, 0x01, 0xC3, 0x03, 0x02, 0xC2, 0xC6, 0x06, 0x07, 0xC7, 0x05, 0xC5, 0xC4, 0x04]
  const LO_1: seq<bv8> := [0xCC, 0x0C, 0x0D, 0xCD, 0x0F, 0xCF, 0xCE, 0x0E, 0x0A, 0xCA, 0xCB, 0x0B, 0xC9, 0x09, 0x08, 0xC8]
  const LO_2: seq<bv8> := [0xD8, 0x18, 0x19, 0xD9, 0x1B, 0xDB, 0xDA, 0x1A, 0x1E, 0xDE, 0xDF, 0x1F, 0xDD, 0x1D, 0x1C, 0xDC]
  const LO_3: seq<bv8> := [0x14, 0xD4, 0xD5, 0x15, 0xD7, 0x17, 0x16, 0xD6, 0xD2, 0x12, 0x13, 0xD3, 0x11, 0xD1, 0xD0, 0x10]
  const LO_4: seq<bv8> := [0xF0, 0x30, 0x31, 0xF1, 0x33, 0xF3, 0xF2, 0x32, 0x36, 0xF6, 0xF7, 0x37, 0xF5, 0x35, 0x34, 0xF4]
  const LO_5: seq<bv8> := [0x3C, 0xFC, 0xFD, 0x3D, 0xFF, 0x3F, 0x3E, 0xFE, 0xFA, 0x3A, 0x3B, 0xFB, 0x39, 0xF9, 0xF8, 0x38]
  const LO_6: seq<bv8> := [0x28, 0xE8, 0xE9, 0x29, 0xEB, 0x2B, 0x2A, 0xEA, 0xEE, 0x2E, 0x2F, 0xEF, 0x2D, 0xED, 0xEC, 0x2C]
  const LO_7: seq<bv8> := [0xE4, 0x24, 0x25, 0xE5, 0x27, 0xE7, 0xE6, 0x26, 0x22, 0xE2, 0xE3, 0x23, 0xE1, 0x21, 0x20, 0xE0]
  const LO_8: seq<bv8> := [0xA0, 0x60, 0x61, 0xA1, 0x63, 0xA3, 0xA2, 0x62, 0x66, 0xA6, 0xA7, 0x67, 0xA5, 0x65, 0x64, 0xA4]
  const LO_9: seq<bv8> := [0x6C, 0xAC, 0xAD, 0x6D, 0xAF, 0x6F, 0x6E, 0xAE, 0xAA, 0x6A, 0x6B, 0xAB, 0x69, 0xA9, 0xA8, 0x68]
  const LO_A: seq<bv8> := [0x78, 0xB8, 0xB9, 0x79, 0xBB, 0x7B, 0x7A, 0xBA, 0xBE, 0x7E, 0x7F, 0xBF, 0x7D, 0xBD, 0xBC, 0x7C]
  const LO_B: seq<bv8> := [0xB4, 0x74, 0x75, 0xB5, 0x77, 0xB7, 0xB6, 0x76, 0x72, 0xB2, 0xB3, 0x73, 0xB1, 0x71, 0x70, 0xB0]
  const LO_C: seq<bv8> := [0x50, 0x90, 0x91, 0x51, 0x93, 0x53, 0x52, 0x92, 0x96, 0x56, 0x57, 0x97, 0x55, 0x95, 0x94, 0x54]
  const LO_D: seq<bv8> := [0x9C, 0x5C, 0x5D, 0x9D, 0x5F, 0x9F, 0x9E, 0x5E, 0x5A, 0x9A, 0x9B, 0x5B, 0x99, 0x59, 0x58, 0x98]
  const LO_E: seq<bv8> := [0x88, 0x48, 0x49, 0x89, 0x4B, 0x8B, 0x8A, 0x4A, 0x4E, 0x8E, 0x8F, 0x4F, 0x8D, 0x4D, 0x4C, 0x8C]
  const LO_F: seq<bv8> := [0x44, 0x84, 0x85, 0x45, 0x87, 0x47, 0x46, 0x86, 0x82, 0x42, 0x43, 0x83, 0x41, 0x81, 0x80, 0x40]

  function LoRow(r: bv8): (row: seq<bv8>)
    ensures |row| == 16
  {
    match r
    case 0 => LO_0
    case 1 => LO_1
    case 2 => LO_2
    case 3 => LO_3
    case 4 => LO_4
    case 5 => LO_5
    case 6 => LO_6
    case 7 => LO_7
    case 8 => LO_8
    case 9 => LO_9
    case 10 => LO_A
    case 11 => LO_B
    case 12 => LO_C
    case 13 => LO_D
    case 14 => LO_E
    case _ => LO_F
  }

  /** aucCRCLo */
  function AucCrcLo(i: bv8): bv8 { LoRow(i >> 4)[(i & 0xF) as nat] }

  /** The two halves of what eight shifts make of the index. */
  predicate Entry(lo: bv8, hi: bv8, i: bv8) { Join(lo, hi) == Bits(Wide(i)) }

  lemma Row0(j: bv8)
    requires j < 16
    ensures Entry(LO_0[j as nat], HI_0[j as nat], j)
  {
    match j case 0 => case 1 => case 2 => case 3 => case 4 => case 5 => case 6 => case 7 =>
      case 8 => case 9 => case 10 => case 11 => case 12 => case 13 => case 14 => case _ =>
  }

  lemma Row1(j: bv8)
    requires j < 16
    ensures Entry(LO_1[j as nat], HI_1[j as nat], 0x10 + j)
  {
    match j case 0 => case 1 => case 2 => case 3 => case 4 => case 5 => case 6 => case 7 =>
      case 8 => case 9 => case 10 => case 11 => case 12 => case 13 => case 14 => case _ =>
  }

  lemma Row2(j: bv8)
    requires j < 16
    ensures Entry(LO_2[j as nat], HI_2[j as nat], 0x20 + j)
  {
    match j case 0 => case 1 => case 2 => case 3 => case 4 => case 5 => case 6 => case 7 =>
      case 8 => case 9 => case 10 => case 11 => case 12 => case 13 => case 14 => case _ =>
  }

  lemma Row3(j: bv8)
    requires j < 16
    ensures Entry(LO_3[j as nat], HI_3[j as nat], 0x30 + j)
  {
    match j case 0 => case 1 => case 2 => case 3 => case 4 => case 5 => case 6 => case 7 =>
      case 8 => case 9 => case 10 => case 11 => case 12 => case 13 => case 14 => case _ =>
  }

  lemma Row4(j: bv8)
    requires j < 16
    ensures Entry(LO_4[j as nat], HI_4[j as nat], 0x40 + j)
  {
    match j case 0 => case 1 => case 2 => case 3 => case 4 => case 5 => case 6 => case 7 =>
      case 8 => case 9 => case 10 => case 11 => case 12 => case 13 => case 14 => case _ =>
  }

  lemma Row5(j: bv8)
    requires j < 16
    ensures Entry(LO_5[j as nat], HI_5[j as nat], 0x50 + j)
  {
    match j case 0 => case 1 => case 2 => case 3 => case 4 => case 5 => case 6 => case 7 =>
      case 8 => case 9 => case 10 => case 11 => case 12 => case 13 => case 14 => case _ =>
  }

  lemma Row6(j: bv8)
    requires j < 16
    ensures Entry(LO_6[j as nat], HI_6[j as nat], 0x60 + j)
  {
    match j case 0 => case 1 => case 2 => case 3 => case 4 => case 5 => case 6 => case 7 =>
      case 8 => case 9 => case 10 => case 11 => case 12 => case 13 => case 14 => case _ =>
  }

  lemma Row7(j: bv8)
    requires j < 16
    ensures Entry(LO_7[j as nat], HI_7[j as nat], 0x70 + j)
  {
    match j case 0 => case 1 => case 2 => case 3 => case 4 => case 5 => case 6 => case 7 =>
      case 8 => case 9 => case 10 => case 11 => case 12 => case 13 => case 14 => case _ =>
  }

  lemma Row8(j: bv8)
    requires j < 16
    ensures Entry(LO_8[j as nat], HI_8[j as nat], 0x80 + j)
  {
    match j case 0 => case 1 => case 2 => case 3 => case 4 => case 5 => case 6 => case 7 =>
      case 8 => case 9 => case 10 => case 11 => case 12 => case 13 => case 14 => case _ =>
  }

  lemma Row9(j: bv8)
    requires j < 16
    ensures Entry(LO_9[j as nat], HI_9[j as nat], 0x90 + j)
  {
    match j case 0 => case 1 => case 2 => case 3 => case 4 => case 5 => case 6 => case 7 =>
      case 8 => case 9 => case 10 => case 11 => case 12 => case 13 => case 14 => case _ =>
  }

  lemma RowA(j: bv8)
    requires j < 16
    ensures Entry(LO_A[j as nat], HI_A[j as nat], 0xA0 + j)
  {
    match j case 0 => case 1 => case 2 => case 3 => case 4 => case 5 => case 6 => case 7 =>
      case 8 => case 9 => case 10 => case 11 => case 12 => case 13 => case 14 => case _ =>
  }

  lemma RowB(j: bv8)
    requires j < 16
    ensures Entry(LO_B[j as nat], HI_B[j as nat], 0xB0 + j)
  {
    match j case 0 => case 1 => case 2 => case 3 => case 4 => case 5 => case 6 => case 7 =>
      case 8 => case 9 => case 10 => case 11 => case 12 => case 13 => case 14 => case _ =>
  }

  lemma RowC(j: bv8)
    requires j < 16
    ensures Entry(LO_C[j as nat], HI_C[j as nat], 0xC0 + j)
  {
    match j case 0 => case 1 => case 2 => case 3 => case 4 => case 5 => case 6 => case 7 =>
      case 8 => case 9 => case 10 => case 11 => case 12 => case 13 => case 14 => case _ =>
  }

  lemma RowD(j: bv8)
    requires j < 16
    ensures Entry(LO_D[j as nat], HI_D[j as nat], 0xD0 + j)
  {
    match j case 0 => case 1 => case 2 => case 3 => case 4 => case 5 => case 6 => case 7 =>
      case 8 => case 9 => case 10 => case 11 => case 12 => case 13 => case 14 => case _ =>
  }

  lemma RowE(j: bv8)
    requires j < 16
    ensures Entry(LO_E[j as nat], HI_E[j as nat], 0xE0 + j)
  {
    match j case 0 => case 1 => case 2 => case 3 => case 4 => case 5 => case 6 => case 7 =>
      case 8 => case 9 => case 10 => case 11 => case 12 => case 13 => case 14 => case _ =>
  }

  lemma RowF(j: bv8)
    requires j < 16
    ensures Entry(LO_F[j as nat], HI_F[j as nat], 0xF0 + j)
  {
    match j case 0 => case 1 => case 2 => case 3 => case 4 => case 5 => case 6 => case 7 =>
      case 8 => case 9 => case 10 => case 11 => case 12 => case 13 => case 14 => case _ =>
  }

  lemma RowOk(r: bv8, j: bv8)
    requires r < 16 && j < 16
    ensures Entry(LoRow(r)[j as nat], HiRow(r)[j as nat], r * 16 + j)
  {
    hide Entry;
    match r
    case 0 => Row0(j);
    case 1 => Row1(j);
    case 2 => Row2(j);
    case 3 => Row3(j);
    case 4 => Row4(j);
    case 5 => Row5(j);
    case 6 => Row6(j);
    case 7 => Row7(j);
    case 8 => Row8(j);
    case 9 => Row9(j);
    case 10 => RowA(j);
    case 11 => RowB(j);
    case 12 => RowC(j);
    case 13 => RowD(j);
    case 14 => RowE(j);
    case _ => RowF(j);
  }

  /** The entries at `i` are the two halves of what eight shifts make of `i`. */
  lemma TableOk(i: bv8)
    ensures Join(AucCrcLo(i), AucCrcHi(i)) == Bits(Wide(i))
  {
    hide Join, Bits, Wide, LoRow, HiRow;
    assert (i >> 4) * 16 + (i & 0xF) == i;
    RowOk(i >> 4, i & 0xF);
  }

  // ---------- the loop ----------

  /** A byte meets the low half of the register. */
  lemma Halves(hi: bv8, lo: bv8, b: bv8)
    ensures Xor(Join(hi, lo), Wide(b)) == Xor(Join(hi, 0), Wide(Xor8(lo, b))) && LowZero(Join(hi, 0))
  {
  }

  lemma JoinXor(hi: bv8, a: bv8, b: bv8)
    ensures Xor(Down(Join(hi, 0)), Join(a, b)) == Join(a, Xor8(hi, b))
  {
  }

  /** The table look-up of the loop is eight shifts. */
  lemma StepByTable(hi: bv8, lo: bv8, b: bv8)
    ensures var i := Xor8(lo, b); Step(Join(hi, lo), b) == Join(AucCrcLo(i), Xor8(hi, AucCrcHi(i)))
  {
    hide Bits, Join, AucCrcLo, AucCrcHi, Xor, Xor8, Wide, Down, LowZero;
    var i := Xor8(lo, b);
    TableOk(i);
    Halves(hi, lo, b);
    BitsOfParts(Join(hi, 0), Wide(i));
    JoinXor(hi, AucCrcLo(i), AucCrcHi(i));
  }

  lemma Ones()
    ensures Join(0xFF, 0xFF) == 0xFFFF
  {
  }

  /** modbus_calc_crc */
  method CalcCrc(frame: array<bv8>, len: nat) returns (crc: bv16)
    requires len <= frame.Length
    ensures crc == Crc16(frame[..len])
  {
    hide Step, Join, AucCrcLo, AucCrcHi, Xor8;
    var hi: bv8, lo: bv8 := 0xFF, 0xFF;
    Ones();
    var n := 0;
    while n < len
      invariant 0 <= n <= len && Join(hi, lo) == Crc16(frame[..n])
    {
      assert frame[..n + 1][..n] == frame[..n];
      StepByTable(hi, lo, frame[n]);
      var i := Xor8(lo, frame[n]);
      lo := Xor8(hi, AucCrcHi(i));
      hi := AucCrcLo(i);
      n := n + 1;
    }
    crc := Join(hi, lo);
    assert frame[..n] == frame[..len];
  }

  // ---------- what a receiver may conclude ----------

  function LowByte(x: bv16): bv8 { (x & 0xFF) as bv8 }

  function HighByte(x: bv16): bv8 { (x >> 8) as bv8 }

  lemma {:induction false} StepAllAppend(crc: bv16, a: seq<bv8>, b: seq<bv8>)
    ensures StepAll(crc, a + b) == StepAll(StepAll(crc, a), b)
    decreases |b|
  {
    hide Step;
    if b == [] {
      assert a + b == a;
    } else {
      var n := |a + b| - 1;
      assert (a + b)[..n] == a + b[..|b| - 1];
      StepAllAppend(crc, a, b[..|b| - 1]);
    }
  }

  lemma XorZero(x: bv16, y: bv16)
    ensures Xor(x, y) == 0 ==> x == y
    ensures x == y ==> Xor(x, y) == 0
  {
  }

  lemma BitsOfZero()
    ensures Bits(0) == 0
  {
    BitsOfHigh(0);
  }

  lemma MeetHalves(c: bv16, a: bv8, b: bv8)
    ensures Xor(c, Wide(a)) == Up(Wide(b)) <==> a == LowByte(c) && b == HighByte(c)
  {
  }

  lemma WideUp(b: bv8)
    ensures HighZero(Wide(b)) && LowZero(Up(Wide(b))) && Down(Up(Wide(b))) == Wide(b)
  {
  }

  /** Two bytes bring the register to 0 exactly if they are its own two halves, the low one first. */
  lemma OwnHalves(c: bv16, a: bv8, b: bv8)
    ensures Step(Step(c, a), b) == 0 <==> a == LowByte(c) && b == HighByte(c)
  {
    hide Bits, Xor, Wide, Up, Down, LowZero, HighZero, LowByte, HighByte;
    var x, y := Xor(c, Wide(a)), Up(Wide(b));
    XorZero(Bits(x), Wide(b));
    BitsOfZero();
    MeetHalves(c, a, b);
    WideUp(b);
    BitsOfHigh(y);
    if Bits(Xor(Bits(x), Wide(b))) == 0 {
      BitsInjective(Xor(Bits(x), Wide(b)), 0);
      BitsInjective(x, y);
    }
  }

  /** The gate: the CRC of a frame that ends in two bytes `a`, `b` is 0 exactly if these are the CRC of
      what comes before, low byte first, as the senders append it. */
  lemma CrcGate(prefix: seq<bv8>, a: bv8, b: bv8)
    ensures Crc16(prefix + [a, b]) == 0 <==> a == LowByte(Crc16(prefix)) && b == HighByte(Crc16(prefix))
  {
    hide Step, LowByte, HighByte;
    StepAllAppend(0xFFFF, prefix, [a, b]);
    TwoSteps(Crc16(prefix), a, b);
    OwnHalves(Crc16(prefix), a, b);
  }

  lemma TwoSteps(c: bv16, a: bv8, b: bv8)
    ensures StepAll(c, [a, b]) == Step(Step(c, a), b)
  {
    hide Step;
    assert [a][..0] == [];
    assert StepAll(c, [a]) == Step(StepAll(c, []), a);
    assert [a, b][..1] == [a];
  }

  lemma XorMoves(u: bv16, v: bv16, x: bv16, y: bv16)
    requires Xor(u, x) == Xor(v, y)
    ensures Xor(u, v) == Xor(x, y)
  {
    hide Xor;
    XorBack(u, x);
    XorBack(v, y);
    XorCancel(Xor(u, x), x, y);
  }

  lemma WideXor(a: bv8, b: bv8)
    ensures HighZero(Xor(Wide(a), Wide(b))) && (LowZero(Xor(Wide(a), Wide(b))) ==> a == b)
    ensures forall u :: Xor(u, Wide(a)) == Xor(u, Wide(b)) ==> a == b
  {
  }

  /** Different pairs of bytes bring the register to different values. */
  lemma PairsDiffer(c: bv16, a: bv8, b: bv8, a': bv8, b': bv8)
    requires Step(Step(c, a), b) == Step(Step(c, a'), b')
    ensures a == a' && b == b'
  {
    hide Bits, Xor, Wide, LowZero, HighZero;
    var p, q := Xor(c, Wide(a)), Xor(c, Wide(a'));
    BitsInjective(Xor(Bits(p), Wide(b)), Xor(Bits(q), Wide(b')));
    XorMoves(Bits(p), Bits(q), Wide(b), Wide(b'));
    XorCancel(c, Wide(a), Wide(a'));
    BitsLinear(p, q);
    WideXor(b, b');
    WideXor(a, a');
    BitsSmall(Xor(p, q));
  }

  lemma StepInjective(x: bv16, y: bv16, b: bv8)
    requires Step(x, b) == Step(y, b)
    ensures x == y
  {
    hide Bits;
    BitsInjective(Xor(x, Wide(b)), Xor(y, Wide(b)));
    XorBoth(x, y, Wide(b));
  }

  lemma XorBoth(x: bv16, y: bv16, z: bv16)
    requires Xor(x, z) == Xor(y, z)
    ensures x == y
  {
  }

  lemma {:induction false} StepAllInjective(x: bv16, y: bv16, s: seq<bv8>)
    requires StepAll(x, s) == StepAll(y, s)
    ensures x == y
    decreases |s|
  {
    hide Step;
    if s != [] {
      StepInjective(StepAll(x, s[..|s| - 1]), StepAll(y, s[..|s| - 1]), s[|s| - 1]);
      StepAllInjective(x, y, s[..|s| - 1]);
    }
  }

  /** Frames of the same length, however long, that differ only in two adjacent bytes have different CRCs. */
  lemma BurstDetected(f: seq<bv8>, g: seq<bv8>, i: nat)
    requires |f| == |g| && i + 1 < |f| && f != g
    requires forall k :: 0 <= k < |f| && k != i && k != i + 1 ==> f[k] == g[k]
    ensures Crc16(f) != Crc16(g)
  {
    hide Step;
    var p, s := f[..i], f[i + 2..];
    assert f == (p + [f[i], f[i + 1]]) + s && g == (p + [g[i], g[i + 1]]) + s;
    if Crc16(f) == Crc16(g) {
      var c := Crc16(p);
      StepAllAppend(0xFFFF, p + [f[i], f[i + 1]], s);
      StepAllAppend(0xFFFF, p + [g[i], g[i + 1]], s);
      StepAllAppend(0xFFFF, p, [f[i], f[i + 1]]);
      StepAllAppend(0xFFFF, p, [g[i], g[i + 1]]);
      StepAllInjective(StepAll(c, [f[i], f[i + 1]]), StepAll(c, [g[i], g[i + 1]]), s);
      TwoSteps(c, f[i], f[i + 1]);
      TwoSteps(c, g[i], g[i + 1]);
      PairsDiffer(c, f[i], f[i + 1], g[i], g[i + 1]);
      assert false;
    }
  }
}
