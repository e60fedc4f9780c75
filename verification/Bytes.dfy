// Bytes and the little-endian integers both image formats and headers use.
module Bytes {

  type u8 = x: int | 0 <= x < 0x100
  type u16 = x: int | 0 <= x < 0x1_0000
  type u32 = x: int | 0 <= x < 0x1_0000_0000
  type i16 = x: int | -0x8000 <= x < 0x8000

  function Le16(v: u16): (r: seq<u8>)
    ensures |r| == 2
  {
    [v % 0x100, v / 0x100]
  }

  function Le32(v: u32): (r: seq<u8>)
    ensures |r| == 4
  {
    [v % 0x100, v / 0x100 % 0x100, v / 0x1_0000 % 0x100, v / 0x100_0000]
  }

  function Rd16(p: seq<u8>, at: nat): u16
    requires at + 2 <= |p|
  {
    p[at] as int + 0x100 * p[at + 1] as int
  }

  // The same two bytes read as a two's complement number.
  function Rds16(p: seq<u8>, at: nat): i16
    requires at + 2 <= |p|
  {
    var v := Rd16(p, at);
    if v < 0x8000 then v else v - 0x1_0000
  }

  // The cast (uint16_t)v of a signed value.
  function AsU16(v: i16): u16 {
    if v < 0 then v + 0x1_0000 else v
  }

  function Rd32(p: seq<u8>, at: nat): u32
    requires at + 4 <= |p|
  {
    p[at] as int + 0x100 * p[at + 1] as int + 0x1_0000 * p[at + 2] as int + 0x100_0000 * p[at + 3] as int
  }

  // Four bytes are these exactly when they read as the same number.
  lemma WordIs(d: seq<u8>, at: nat, bytes: seq<u8>)
    requires at + 4 <= |d| && |bytes| == 4
    ensures d[at..at + 4] == bytes <==> Rd32(d, at) == Rd32(bytes, 0)
  {
    var w := d[at..at + 4];
    assert w[0] == d[at] && w[1] == d[at + 1] && w[2] == d[at + 2] && w[3] == d[at + 3];
    if Rd32(w, 0) == Rd32(bytes, 0) {
      SameDigits(w[0], w[1], w[2], w[3], bytes[0], bytes[1], bytes[2], bytes[3]);
    }
  }

  lemma SameDigits(a0: u8, a1: u8, a2: u8, a3: u8, b0: u8, b1: u8, b2: u8, b3: u8)
    requires a0 as int + 0x100 * a1 as int + 0x1_0000 * a2 as int + 0x100_0000 * a3 as int ==
             b0 as int + 0x100 * b1 as int + 0x1_0000 * b2 as int + 0x100_0000 * b3 as int
    ensures a0 == b0 && a1 == b1 && a2 == b2 && a3 == b3
  {
    assert a3 == b3;
    assert a2 == b2;
    assert a1 == b1;
  }

  lemma Rd16OfLe16(p: seq<u8>, at: nat, v: u16)
    requires at + 2 <= |p|
    requires p[at] == Le16(v)[0] && p[at + 1] == Le16(v)[1]
    ensures Rd16(p, at) == v
  {
  }

  // The four bytes of v add up to v.
  lemma Digits(v: u32)
    ensures v == v % 0x100 + 0x100 * (v / 0x100 % 0x100) + 0x1_0000 * (v / 0x1_0000 % 0x100) +
                 0x100_0000 * (v / 0x100_0000)
  {
    var a := v / 0x100;
    var b := a / 0x100;
    var c := b / 0x100;
    assert v == v % 0x100 + 0x100 * a && a == a % 0x100 + 0x100 * b && b == b % 0x100 + 0x100 * c;
    assert b == v / 0x1_0000 && c == v / 0x100_0000;
  }

  lemma Rd32OfLe32(p: seq<u8>, at: nat, v: u32)
    requires at + 4 <= |p|
    requires p[at..at + 4] == Le32(v)
    ensures Rd32(p, at) == v
  {
    var q := p[at..at + 4];
    Digits(v);
    assert q[0] == p[at] && q[1] == p[at + 1] && q[2] == p[at + 2] && q[3] == p[at + 3];
  }

  // Bit k of a number, counted from the least significant.
  predicate BitOf(b: nat, k: nat)
    decreases k
  {
    if k == 0 then b % 2 == 1 else BitOf(b / 2, k - 1)
  }

  function PowerOfTwo(n: nat): nat {
    if n == 0 then 1 else 2 * PowerOfTwo(n - 1)
  }

  // ---- bit masks ----

  function Mask(bits: seq<bool>): (m: nat)
    ensures m < PowerOfTwo(|bits|)
  {
    if bits == [] then 0 else (if bits[0] then 1 else 0) + 2 * Mask(bits[1..])
  }

  function Bits(mask: nat, n: nat): (r: seq<bool>)
    ensures |r| == n
    decreases n
  {
    if n == 0 then [] else [mask % 2 == 1] + Bits(mask / 2, n - 1)
  }

  lemma {:induction false} BitsOfMask(bits: seq<bool>)
    ensures Bits(Mask(bits), |bits|) == bits
  {
    if bits != [] {
      BitsOfMask(bits[1..]);
    }
  }

  lemma {:induction false} PowerOfTwoGrows(m: nat, n: nat)
    requires m <= n
    ensures 1 <= PowerOfTwo(m) <= PowerOfTwo(n)
  {
    if m < n {
      PowerOfTwoGrows(m, n - 1);
    } else if n > 0 {
      PowerOfTwoGrows(m - 1, n - 1);
    }
  }

  lemma Eight()
    ensures PowerOfTwo(8) == 0x100
  {
  }

  function RoundUp(v: nat, align: nat): (r: nat)
    requires align > 0
    ensures v <= r < v + align && r % align == 0
  {
    RoundUpFacts(v, align);
    (v + align - 1) / align * align
  }

  lemma RoundUpFacts(v: nat, align: nat)
    requires align > 0
    ensures v <= (v + align - 1) / align * align < v + align
    ensures (v + align - 1) / align * align % align == 0
  {
    var q := (v + align - 1) / align;
    assert v + align - 1 == q * align + (v + align - 1) % align;
    MulMod(q, align);
  }

  lemma MulMod(q: nat, m: nat)
    requires m > 0
    ensures q * m % m == 0 && q * m / m == q
  {
    assert q * m == q * m + 0;
    DivModUnique(q * m, m, q, 0);
  }

  // Division with remainder is unique.
  lemma DivModUnique(a: int, m: int, q: int, r: int)
    requires m > 0 && 0 <= r < m && a == q * m + r
    ensures a / m == q && a % m == r
  {
    var d := a / m - q;
    assert d * m == r - a % m;
    assert d >= 1 ==> d * m >= m;
    assert d <= -1 ==> d * m <= -m;
  }
}
