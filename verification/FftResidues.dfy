// A ring that has the roots of unity for every length the FFT accepts: the integers
// modulo the prime 12289 = 12 * 1024 + 1.
module FftResidues {
  import opened FftSoft

  const P := 12289

  type Residue = x: nat | x < P

  function Mod(x: nat): Residue {
    x % P
  }

  lemma ModPlus(x: nat, q: nat)
    ensures Mod(x + q * P) == Mod(x)
  {
  }

  lemma ModMul(x: nat, c: nat)
    ensures Mod(Mod(x) * c) == Mod(x * c)
  {
    var q, r := x / P, x % P;
    assert x == r + q * P;
    assert x * c == r * c + q * c * P by {
      assert (r + q * P) * c == r * c + q * P * c;
    }
    ModPlus(r * c, q * c);
  }

  lemma ModAdd(x: nat, c: nat)
    ensures Mod(Mod(x) + c) == Mod(x + c)
  {
    ModPlus(x % P + c, x / P);
  }

  function Add(a: Residue, b: Residue): Residue { Mod(a + b) }
  function Neg(a: Residue): Residue { Mod(P - a) }
  function Mul(a: Residue, b: Residue): Residue { Mod(a * b) }

  function ResidueRing(): Ring<Residue> {
    Ring(0, 1, (a: Residue, b: Residue) => Add(a, b), (a: Residue) => Neg(a), (a: Residue, b: Residue) => Mul(a, b))
  }

  lemma MulAssociates(a: Residue, b: Residue, c: Residue)
    ensures Mul(Mul(a, b), c) == Mul(a, Mul(b, c))
  {
    hide Mod;
    ModMul(a * b, c);
    ModMul(b * c, a);
    assert a * b * c == b * c * a;
    assert a * Mod(b * c) == Mod(b * c) * a;
  }

  lemma MulDistributes(a: Residue, b: Residue, c: Residue)
    ensures Mul(a, Add(b, c)) == Add(Mul(a, b), Mul(a, c))
  {
    hide Mod;
    ModMul(b + c, a);
    assert a * Mod(b + c) == Mod(b + c) * a;
    assert (b + c) * a == a * b + a * c;
    ModAdd(a * b, Mod(a * c));
    ModAdd(a * c, a * b);
  }

  lemma AddAssociates(a: Residue, b: Residue, c: Residue)
    ensures Add(Add(a, b), c) == Add(a, Add(b, c))
  {
    hide Mod;
    ModAdd(a + b, c);
    ModAdd(b + c, a);
  }

  lemma UnitsAndOrder(a: Residue, b: Residue)
    ensures Mul(a, 1) == a && Add(a, 0) == a && Add(a, Neg(a)) == 0
    ensures Add(a, b) == Add(b, a) && Mul(a, b) == Mul(b, a)
  {
    assert a * b == b * a;
  }

  lemma ResidueIsRing()
    ensures IsRing(ResidueRing())
  {
    hide Add, Neg, Mul;
    var r := ResidueRing();
    forall a, b ensures r.add(a, b) == r.add(b, a) { UnitsAndOrder(a, b); }
    forall a, b ensures r.mul(a, b) == r.mul(b, a) { UnitsAndOrder(a, b); }
    forall a ensures r.add(a, r.zero) == a { UnitsAndOrder(a, a); }
    forall a ensures r.mul(a, r.one) == a { UnitsAndOrder(a, a); }
    forall a ensures r.add(a, r.neg(a)) == r.zero { UnitsAndOrder(a, a); }
    forall a, b, c ensures r.add(r.add(a, b), c) == r.add(a, r.add(b, c)) { AddAssociates(a, b, c); }
    forall a, b, c ensures r.mul(r.mul(a, b), c) == r.mul(a, r.mul(b, c)) { MulAssociates(a, b, c); }
    forall a, b, c ensures r.mul(a, r.add(b, c)) == r.add(r.mul(a, b), r.mul(a, c)) { MulDistributes(a, b, c); }
  }

  // 1, -1 and, from each root, a square root of it.
  const TABLE: seq<Residue> := [1, 12288, 1479, 8246, 4134, 5860, 7311, 12149, 8340, 3400, 10302]

  function Root(m: nat): Residue {
    if m < |TABLE| then TABLE[m] else 1
  }

  lemma RootsSquare(m: nat)
    requires 1 <= m < 10
    ensures Mul(Root(m + 1), Root(m + 1)) == Root(m)
  {
    assert TABLE[10] * TABLE[10] % P == TABLE[9] && TABLE[9] * TABLE[9] % P == TABLE[8];
    assert TABLE[8] * TABLE[8] % P == TABLE[7] && TABLE[7] * TABLE[7] % P == TABLE[6];
    assert TABLE[6] * TABLE[6] % P == TABLE[5] && TABLE[5] * TABLE[5] % P == TABLE[4];
    assert TABLE[4] * TABLE[4] % P == TABLE[3] && TABLE[3] * TABLE[3] % P == TABLE[2];
    assert TABLE[2] * TABLE[2] % P == TABLE[1];
  }

  // Every length that the FFT accepts has its roots in this ring.
  lemma ResidueRoots(k: nat)
    requires Pow2(k) <= FFT_MAX_LEN
    ensures k <= 10 && IsRing(ResidueRing()) && Roots(ResidueRing(), Root, k)
  {
    assert Pow2(5) == 32 && Pow2(10) == 1024;
    Pow2Monotone(k, 10);
    ResidueIsRing();
    hide IsRing, Mul, Add;
    assert Neg(1) == Root(1) && Root(0) == 1;
    hide Neg;
    forall m | 1 <= m < k ensures Mul(Root(m + 1), Root(m + 1)) == Root(m) {
      RootsSquare(m);
    }
  }

  // They are primitive: the root of a stage has exactly the stage's size as its order.
  lemma RootIsPrimitive(k: nat)
    requires 1 <= k && Pow2(k) <= FFT_MAX_LEN
    ensures Pow(ResidueRing(), Root(k), Pow2(k)) == 1 && Pow(ResidueRing(), Root(k), Pow2(k - 1)) == P - 1
  {
    ResidueRoots(k);
    FullTurn(ResidueRing(), Root, k);
  }

  lemma FullTurn<T(!new)>(r: Ring<T>, w: nat -> T, k: nat)
    requires IsRing(r) && Roots(r, w, k) && 1 <= k
    ensures Pow(r, w(k), Pow2(k)) == r.one && Pow(r, w(k), Pow2(k - 1)) == r.neg(r.one)
  {
    hide IsRing;
    HalfTurn(r, w, k, k);
    PowAdd(r, w(k), Pow2(k - 1), Pow2(k - 1));
    NegOneSquared(r);
  }
}
