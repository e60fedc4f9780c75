// CRC-32 as defined in section 3.2.9 of IEEE Std 802.3, in the reflected form, as a left
// fold over the bytes.
module Crc32 {
  import opened Bytes

  const POLY: bv32 := 0xEDB8_8320

  function ShiftBit(c: bv32): bv32 {
    if c & 1 == 1 then (c >> 1) ^ POLY else c >> 1
  }

  function ShiftBits(c: bv32, n: nat): bv32
    decreases n
  {
    if n == 0 then c else ShiftBits(ShiftBit(c), n - 1)
  }

  // The byte as the low eight bits of the register.
  function Byte(b: u8): bv32 {
    Octet(BitOf(b, 0), BitOf(b, 1), BitOf(b, 2), BitOf(b, 3), BitOf(b, 4), BitOf(b, 5), BitOf(b, 6), BitOf(b, 7))
  }

  function Octet(b0: bool, b1: bool, b2: bool, b3: bool, b4: bool, b5: bool, b6: bool, b7: bool): bv32 {
    Bit(b0, 1) | Bit(b1, 2) | Bit(b2, 4) | Bit(b3, 8) | Bit(b4, 16) | Bit(b5, 32) | Bit(b6, 64) | Bit(b7, 128)
  }

  function Bit(on: bool, place: bv32): bv32 {
    if on then place else 0
  }

  function Mixed(c: bv32, b: u8): bv32 {
    c ^ Byte(b)
  }

  // The register after one more byte.
  function Feed(c: bv32, b: u8): bv32 {
    ShiftBits(Mixed(c, b), 8)
  }

  function Fold(c: bv32, data: seq<u8>): bv32 {
    if data == [] then c else Feed(Fold(c, data[..|data| - 1]), data[|data| - 1])
  }

  function Not(c: bv32): bv32 {
    !c
  }

  // crc32_ieee_update: continue the checksum of what came before.
  function Update(crc: bv32, data: seq<u8>): bv32 {
    Not(Fold(Not(crc), data))
  }

  // crc32_ieee
  function Crc(data: seq<u8>): u32 {
    Update(0, data) as int
  }

  lemma {:induction false} FoldAppend(c: bv32, a: seq<u8>, b: seq<u8>)
    ensures Fold(c, a + b) == Fold(Fold(c, a), b)
  {
    hide Feed;
    if b == [] {
      assert a + b == a;
    } else {
      var ab := a + b;
      assert ab[..|ab| - 1] == a + b[..|b| - 1];
      FoldAppend(c, a, b[..|b| - 1]);
    }
  }

  // Checksumming a stream piece by piece gives the checksum of the whole.
  lemma UpdateAppend(crc: bv32, a: seq<u8>, b: seq<u8>)
    ensures Update(Update(crc, a), b) == Update(crc, a + b)
  {
    FoldAppend(Not(crc), a, b);
    hide Fold;
  }

  lemma UpdateNothing(crc: bv32)
    ensures Update(crc, []) == crc
  {
  }

  // ---- which checksum this is ----

  // The exponents of the generator polynomial below 32.
  predicate InGenerator(e: nat) {
    e in {0, 1, 2, 4, 5, 7, 8, 10, 11, 12, 16, 22, 23, 26}
  }

  // POLY has the generator's coefficients in reversed order.
  lemma PolyIsGenerator(e: nat)
    requires e < 32
    ensures (POLY >> (31 - e)) & 1 == 1 <==> InGenerator(e)
  {
  }

  lemma FourShifts(c: bv32, n: nat)
    requires n >= 4
    ensures ShiftBits(c, n) == ShiftBits(ShiftBit(ShiftBit(ShiftBit(ShiftBit(c)))), n - 4)
    ensures ShiftBits(c, 0) == c
  {
    hide ShiftBit;
    var c2 := ShiftBit(ShiftBit(c));
    assert ShiftBits(c, n) == ShiftBits(c2, n - 2);
    assert ShiftBits(c2, n - 2) == ShiftBits(ShiftBit(ShiftBit(c2)), n - 4);
  }

  lemma DigitByte(k: nat)
    requires 1 <= k <= 9
    ensures Byte((0x30 + k) as u8) == 0x30 + k as bv32
  {
  }

  lemma Digit1()
    ensures Feed(0xFFFF_FFFF, 0x31) == 0x7C23_1048
  {
    DigitByte(1);
    hide Byte;
    FourShifts(0xFFFF_FFCE, 8);
    FourShifts(0xAFF5_1D84, 4);
    hide ShiftBits;
  }

  lemma Digit2()
    ensures Feed(0x7C23_1048, 0x32) == 0xB0AC_BB32
  {
    DigitByte(2);
    hide Byte;
    FourShifts(0x7C23_107A, 8);
    FourShifts(0xD114_92EF, 4);
    hide ShiftBits;
  }

  lemma Digit3()
    ensures Feed(0xB0AC_BB32, 0x33) == 0x77B7_9C2D
  {
    DigitByte(3);
    hide Byte;
    FourShifts(0xB0AC_BB01, 8);
    FourShifts(0x16BD_DBD4, 4);
    hide ShiftBits;
  }

  lemma Digit4()
    ensures Feed(0x77B7_9C2D, 0x34) == 0x641C_1F5C
  {
    DigitByte(4);
    hide Byte;
    FourShifts(0x77B7_9C19, 8);
    FourShifts(0xF774_EA85, 4);
    hide ShiftBits;
  }

  lemma Digit5()
    ensures Feed(0x641C_1F5C, 0x35) == 0x340A_C5E3
  {
    DigitByte(5);
    hide Byte;
    FourShifts(0x641C_1F69, 8);
    FourShifts(0xF64E_52B2, 4);
    hide ShiftBits;
  }

  lemma Digit6()
    ensures Feed(0x340A_C5E3, 0x36) == 0xF68D_2C9E
  {
    DigitByte(6);
    hide Byte;
    FourShifts(0x340A_C5D5, 8);
    FourShifts(0x682B_FDA9, 4);
    hide ShiftBits;
  }

  lemma Digit7()
    ensures Feed(0xF68D_2C9E, 0x37) == 0xAFFC_9660
  {
    DigitByte(7);
    hide Byte;
    FourShifts(0xF68D_2CA9, 8);
    FourShifts(0xFF67_418E, 4);
    hide ShiftBits;
  }

  lemma Digit8()
    ensures Feed(0xAFFC_9660, 0x38) == 0x651F_2550
  {
    DigitByte(8);
    hide Byte;
    FourShifts(0xAFFC_9658, 8);
    FourShifts(0xE747_4A45, 4);
    hide ShiftBits;
  }

  lemma Digit9()
    ensures Feed(0x651F_2550, 0x39) == 0x340B_C6D9
  {
    DigitByte(9);
    hide Byte;
    FourShifts(0x651F_2569, 8);
    FourShifts(0xF65E_6112, 4);
    hide ShiftBits;
  }

  lemma FoldOne(c: bv32, data: seq<u8>, b: u8)
    ensures Fold(c, data + [b]) == Feed(Fold(c, data), b)
  {
    assert (data + [b])[..|data|] == data;
    hide Feed;
  }

  // The checksum of the digits 1 to 9, the usual check value of CRC-32.
  lemma CheckValue()
    ensures Crc([0x31, 0x32, 0x33, 0x34, 0x35, 0x36, 0x37, 0x38, 0x39]) == 0xCBF4_3926
  {
    Digit1();
    Digit2();
    Digit3();
    Digit4();
    Digit5();
    Digit6();
    Digit7();
    Digit8();
    Digit9();
    hide Feed;
    var c := Not(0);
    assert c == 0xFFFF_FFFF && Fold(c, []) == c;
    FoldOne(c, [], 0x31);
    assert [] + [0x31] == [0x31];
    FoldOne(c, [0x31], 0x32);
    assert [0x31] + [0x32] == [0x31, 0x32];
    FoldOne(c, [0x31, 0x32], 0x33);
    assert [0x31, 0x32] + [0x33] == [0x31, 0x32, 0x33];
    FoldOne(c, [0x31, 0x32, 0x33], 0x34);
    assert [0x31, 0x32, 0x33] + [0x34] == [0x31, 0x32, 0x33, 0x34];
    FoldOne(c, [0x31, 0x32, 0x33, 0x34], 0x35);
    assert [0x31, 0x32, 0x33, 0x34] + [0x35] == [0x31, 0x32, 0x33, 0x34, 0x35];
    FoldOne(c, [0x31, 0x32, 0x33, 0x34, 0x35], 0x36);
    assert [0x31, 0x32, 0x33, 0x34, 0x35] + [0x36] == [0x31, 0x32, 0x33, 0x34, 0x35, 0x36];
    FoldOne(c, [0x31, 0x32, 0x33, 0x34, 0x35, 0x36], 0x37);
    assert [0x31, 0x32, 0x33, 0x34, 0x35, 0x36] + [0x37] == [0x31, 0x32, 0x33, 0x34, 0x35, 0x36, 0x37];
    FoldOne(c, [0x31, 0x32, 0x33, 0x34, 0x35, 0x36, 0x37], 0x38);
    assert [0x31, 0x32, 0x33, 0x34, 0x35, 0x36, 0x37] + [0x38] == [0x31, 0x32, 0x33, 0x34, 0x35, 0x36, 0x37, 0x38];
    FoldOne(c, [0x31, 0x32, 0x33, 0x34, 0x35, 0x36, 0x37, 0x38], 0x39);
    assert [0x31, 0x32, 0x33, 0x34, 0x35, 0x36, 0x37, 0x38] + [0x39]
        == [0x31, 0x32, 0x33, 0x34, 0x35, 0x36, 0x37, 0x38, 0x39];
    assert Not(0x340B_C6D9) == 0xCBF4_3926;
  }

  // ---- one damaged byte never goes unnoticed ----

  lemma ShiftBitInjective(c: bv32, d: bv32)
    requires ShiftBit(c) == ShiftBit(d)
    ensures c == d
  {
  }

  lemma {:induction false} ShiftBitsInjective(c: bv32, d: bv32, n: nat)
    requires ShiftBits(c, n) == ShiftBits(d, n)
    ensures c == d
    decreases n
  {
    hide ShiftBit;
    if n > 0 {
      ShiftBitsInjective(ShiftBit(c), ShiftBit(d), n - 1);
      ShiftBitInjective(c, d);
    }
  }

  lemma MixedInjective(c: bv32, a: u8, b: u8)
    requires Mixed(c, a) == Mixed(c, b)
    ensures a == b
  {
    hide Byte;
    XorCancels(c, Byte(a), Byte(b));
    ByteInjective(a, b);
  }

  lemma ByteInjective(a: u8, b: u8)
    requires Byte(a) == Byte(b)
    ensures a == b
  {
    SameOctet(a, b);
    hide Byte;
    Eight();
    SameBits(a, b, 8);
  }

  lemma SameOctet(a: u8, b: u8)
    requires Byte(a) == Byte(b)
    ensures forall k :: 0 <= k < 8 ==> BitOf(a, k) == BitOf(b, k)
  {
    hide Octet, BitOf;
    OctetInjective(BitOf(a, 0), BitOf(a, 1), BitOf(a, 2), BitOf(a, 3),
                   BitOf(a, 4), BitOf(a, 5), BitOf(a, 6), BitOf(a, 7),
                   BitOf(b, 0), BitOf(b, 1), BitOf(b, 2), BitOf(b, 3),
                   BitOf(b, 4), BitOf(b, 5), BitOf(b, 6), BitOf(b, 7));
  }

  lemma {:induction false} SameBits(a: nat, b: nat, n: nat)
    requires a < PowerOfTwo(n) && b < PowerOfTwo(n)
    requires forall k :: 0 <= k < n ==> BitOf(a, k) == BitOf(b, k)
    ensures a == b
    decreases n
  {
    if n > 0 {
      assert BitOf(a, 0) == BitOf(b, 0);
      forall k | 0 <= k < n - 1 ensures BitOf(a / 2, k) == BitOf(b / 2, k) {
        assert BitOf(a, k + 1) == BitOf(b, k + 1);
      }
      SameBits(a / 2, b / 2, n - 1);
    }
  }

  lemma OctetInjective(a0: bool, a1: bool, a2: bool, a3: bool, a4: bool, a5: bool, a6: bool, a7: bool,
                       b0: bool, b1: bool, b2: bool, b3: bool, b4: bool, b5: bool, b6: bool, b7: bool)
    requires Octet(a0, a1, a2, a3, a4, a5, a6, a7) == Octet(b0, b1, b2, b3, b4, b5, b6, b7)
    ensures a0 == b0 && a1 == b1 && a2 == b2 && a3 == b3 && a4 == b4 && a5 == b5 && a6 == b6 && a7 == b7
  {
  }

  lemma XorCancels(c: bv32, x: bv32, y: bv32)
    requires c ^ x == c ^ y
    ensures x == y
  {
  }

  lemma XorCancelsRight(c: bv32, d: bv32, x: bv32)
    requires c ^ x == d ^ x
    ensures c == d
  {
  }

  lemma FeedInjective(c: bv32, d: bv32, b: u8)
    requires Feed(c, b) == Feed(d, b)
    ensures c == d
  {
    hide ShiftBits, Mixed;
    ShiftBitsInjective(Mixed(c, b), Mixed(d, b), 8);
    MixedSame(c, d, b);
  }

  lemma MixedSame(c: bv32, d: bv32, b: u8)
    requires Mixed(c, b) == Mixed(d, b)
    ensures c == d
  {
    hide Byte;
    XorCancelsRight(c, d, Byte(b));
  }

  lemma {:induction false} FoldInjective(c: bv32, d: bv32, data: seq<u8>)
    requires Fold(c, data) == Fold(d, data)
    ensures c == d
  {
    hide Feed;
    if data != [] {
      var n := |data| - 1;
      FeedInjective(Fold(c, data[..n]), Fold(d, data[..n]), data[n]);
      FoldInjective(c, d, data[..n]);
    }
  }

  // Two strings that differ in exactly one byte have different checksums.
  lemma OneByteChangeIsSeen(before: seq<u8>, a: u8, b: u8, after: seq<u8>)
    requires a != b
    ensures Crc(before + [a] + after) != Crc(before + [b] + after)
  {
    hide Feed;
    var c := Fold(Not(0), before);
    if Crc(before + [a] + after) == Crc(before + [b] + after) {
      FoldAppend(Not(0), before + [a], after);
      FoldAppend(Not(0), before + [b], after);
      FoldAppend(Not(0), before, [a]);
      FoldAppend(Not(0), before, [b]);
      assert Fold(c, [a]) == Feed(Fold(c, [a][..0]), a) && Fold(c, [b]) == Feed(Fold(c, [b][..0]), b);
      NotInjective(Fold(Not(0), before + [a] + after), Fold(Not(0), before + [b] + after));
      FoldInjective(Feed(c, a), Feed(c, b), after);
      FeedTellsBytes(c, a, b);
    }
  }

  lemma NotInjective(c: bv32, d: bv32)
    requires Not(c) as int == Not(d) as int
    ensures c == d
  {
    ThereAndBack(Not(c));
    ThereAndBack(Not(d));
  }

  lemma ThereAndBack(c: bv32)
    ensures (c as int) as bv32 == c
  {
  }

  lemma FeedTellsBytes(c: bv32, a: u8, b: u8)
    requires Feed(c, a) == Feed(c, b)
    ensures a == b
  {
    hide ShiftBits, Mixed;
    ShiftBitsInjective(Mixed(c, a), Mixed(c, b), 8);
    MixedInjective(c, a, b);
  }
}
