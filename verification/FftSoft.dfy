// The in-place radix-2 FFT, over any commutative ring with the roots of unity the
// stages use. One array element stands for an interleaved (re, im) pair, and a ring
// multiplication for the four float products the loop writes out.
module FftSoft {
  import opened Errno

  const FFT_MAX_LEN := 1024

  // ---- rings ----

  datatype Ring<!T> = Ring(zero: T, one: T, add: (T, T) -> T, neg: T -> T, mul: (T, T) -> T)

  ghost predicate IsRing<T(!new)>(r: Ring<T>) {
    && (forall a, b :: r.add(a, b) == r.add(b, a))
    && (forall a, b, c :: r.add(r.add(a, b), c) == r.add(a, r.add(b, c)))
    && (forall a :: r.add(a, r.zero) == a)
    && (forall a :: r.add(a, r.neg(a)) == r.zero)
    && (forall a, b :: r.mul(a, b) == r.mul(b, a))
    && (forall a, b, c :: r.mul(r.mul(a, b), c) == r.mul(a, r.mul(b, c)))
    && (forall a :: r.mul(a, r.one) == a)
    && (forall a, b, c :: r.mul(a, r.add(b, c)) == r.add(r.mul(a, b), r.mul(a, c)))
  }

  function Sub<T>(r: Ring<T>, a: T, b: T): T {
    r.add(a, r.neg(b))
  }

  lemma AddLaws<T(!new)>(r: Ring<T>, a: T, b: T, c: T)
    requires IsRing(r)
    ensures r.add(a, b) == r.add(b, a)
    ensures r.add(r.add(a, b), c) == r.add(a, r.add(b, c))
    ensures r.add(a, r.zero) == a && r.add(a, r.neg(a)) == r.zero
  {
  }

  lemma MulLaws<T(!new)>(r: Ring<T>, a: T, b: T, c: T)
    requires IsRing(r)
    ensures r.mul(a, b) == r.mul(b, a)
    ensures r.mul(r.mul(a, b), c) == r.mul(a, r.mul(b, c))
    ensures r.mul(a, r.one) == a
    ensures r.mul(a, r.add(b, c)) == r.add(r.mul(a, b), r.mul(a, c))
  {
  }

  // (a + b) + (c + d) == (a + c) + (b + d)
  lemma AddSwap<T(!new)>(r: Ring<T>, a: T, b: T, c: T, d: T)
    requires IsRing(r)
    ensures r.add(r.add(a, b), r.add(c, d)) == r.add(r.add(a, c), r.add(b, d))
  {
    hide IsRing;
    AddLaws(r, a, b, r.add(c, d));
    AddLaws(r, b, c, d);
    AddLaws(r, c, b, d);
    AddLaws(r, a, c, r.add(b, d));
  }

  lemma MulZero<T(!new)>(r: Ring<T>, a: T)
    requires IsRing(r)
    ensures r.mul(a, r.zero) == r.zero
  {
    hide IsRing;
    var z := r.mul(a, r.zero);
    AddLaws(r, r.zero, r.zero, r.zero);
    MulLaws(r, a, r.zero, r.zero);
    AddLaws(r, z, z, r.neg(z));
    AddLaws(r, z, r.zero, r.zero);
  }

  // a * (-b) == -(a * b)
  lemma MulNeg<T(!new)>(r: Ring<T>, a: T, b: T)
    requires IsRing(r)
    ensures r.mul(a, r.neg(b)) == r.neg(r.mul(a, b))
  {
    hide IsRing;
    var p, q := r.mul(a, b), r.mul(a, r.neg(b));
    AddLaws(r, b, r.neg(b), r.zero);
    MulLaws(r, a, b, r.neg(b));
    MulZero(r, a);
    assert r.add(p, q) == r.zero;
    AddLaws(r, r.neg(p), p, q);
    AddLaws(r, r.neg(p), r.zero, r.zero);
    AddLaws(r, p, r.neg(p), r.zero);
    AddLaws(r, q, r.zero, r.zero);
    AddLaws(r, r.zero, q, r.zero);
  }

  // ---- powers ----

  function Pow<T>(r: Ring<T>, w: T, n: nat): T {
    if n == 0 then r.one else r.mul(Pow(r, w, n - 1), w)
  }

  lemma {:induction false} PowAdd<T(!new)>(r: Ring<T>, w: T, m: nat, n: nat)
    requires IsRing(r)
    ensures Pow(r, w, m + n) == r.mul(Pow(r, w, m), Pow(r, w, n))
  {
    hide IsRing;
    if n == 0 {
      MulLaws(r, Pow(r, w, m), r.one, r.one);
    } else {
      PowAdd(r, w, m, n - 1);
      MulLaws(r, Pow(r, w, m), Pow(r, w, n - 1), w);
    }
  }

  lemma {:induction false} PowSquare<T(!new)>(r: Ring<T>, w: T, n: nat)
    requires IsRing(r)
    ensures Pow(r, r.mul(w, w), n) == Pow(r, w, 2 * n)
  {
    hide IsRing;
    if n > 0 {
      PowSquare(r, w, n - 1);
      assert Pow(r, w, 2 * n) == r.mul(r.mul(Pow(r, w, 2 * n - 2), w), w);
      MulLaws(r, Pow(r, w, 2 * n - 2), w, w);
    }
  }

  lemma {:induction false} PowOfUnit<T(!new)>(r: Ring<T>, v: T, h: nat, n: nat)
    requires IsRing(r) && Pow(r, v, h) == r.one
    ensures Pow(r, v, n * h) == r.one
  {
    hide IsRing;
    if n > 0 {
      PowOfUnit(r, v, h, n - 1);
      assert n * h == (n - 1) * h + h;
      PowAdd(r, v, (n - 1) * h, h);
      MulLaws(r, r.one, r.one, r.one);
    }
  }

  function Pow2(k: nat): (n: nat)
    ensures n >= 1 && (k > 0 ==> n % 2 == 0)
  {
    if k == 0 then 1 else 2 * Pow2(k - 1)
  }

  // ---- the transform ----

  // The first n terms of the discrete Fourier sum at frequency k.
  function Term<T>(r: Ring<T>, y: seq<T>, w: T, k: nat, j: nat): T
    requires j < |y|
  {
    r.mul(y[j], Pow(r, w, j * k))
  }

  function FourierSum<T>(r: Ring<T>, y: seq<T>, w: T, k: nat, n: nat): T
    requires n <= |y|
  {
    if n == 0 then r.zero else r.add(FourierSum(r, y, w, k, n - 1), Term(r, y, w, k, n - 1))
  }

  function Dft<T>(r: Ring<T>, y: seq<T>, w: T): (d: seq<T>)
    ensures |d| == |y|
  {
    seq(|y|, k requires 0 <= k < |y| => FourierSum(r, y, w, k, |y|))
  }

  function Evens<T>(y: seq<T>): (e: seq<T>)
    requires |y| % 2 == 0
    ensures |e| == |y| / 2
  {
    seq(|y| / 2, j requires 0 <= j < |y| / 2 => y[2 * j])
  }

  function Odds<T>(y: seq<T>): (o: seq<T>)
    requires |y| % 2 == 0
    ensures |o| == |y| / 2
  {
    seq(|y| / 2, j requires 0 <= j < |y| / 2 => y[2 * j + 1])
  }

  lemma EvenTerm<T(!new)>(r: Ring<T>, y: seq<T>, w: T, k: nat, n: nat)
    requires IsRing(r) && |y| % 2 == 0 && n < |y| / 2
    ensures Term(r, y, w, k, 2 * n) == Term(r, Evens(y), r.mul(w, w), k, n)
  {
    hide IsRing;
    PowSquare(r, w, n * k);
    assert 2 * (n * k) == 2 * n * k;
  }

  lemma OddIndex(n: nat, k: nat)
    ensures (2 * n + 1) * k == 2 * (n * k) + k
  {
  }

  lemma OddTerm<T(!new)>(r: Ring<T>, y: seq<T>, w: T, k: nat, n: nat)
    requires IsRing(r) && |y| % 2 == 0 && n < |y| / 2
    ensures Term(r, y, w, k, 2 * n + 1) == r.mul(Pow(r, w, k), Term(r, Odds(y), r.mul(w, w), k, n))
  {
    hide IsRing;
    var a, p, q := y[2 * n + 1], Pow(r, r.mul(w, w), n * k), Pow(r, w, k);
    PowSquare(r, w, n * k);
    OddIndex(n, k);
    PowAdd(r, w, 2 * (n * k), k);
    MulLaws(r, a, p, q);
    MulLaws(r, q, r.mul(a, p), r.one);
  }

  // Splitting the sum into even and odd samples.
  lemma {:induction false} SumSplits<T(!new)>(r: Ring<T>, y: seq<T>, w: T, k: nat, n: nat)
    requires IsRing(r) && |y| % 2 == 0 && n <= |y| / 2
    ensures FourierSum(r, y, w, k, 2 * n) ==
            r.add(FourierSum(r, Evens(y), r.mul(w, w), k, n),
                  r.mul(Pow(r, w, k), FourierSum(r, Odds(y), r.mul(w, w), k, n)))
  {
    hide IsRing, Term, Evens, Odds;
    var q, v := Pow(r, w, k), r.mul(w, w);
    if n == 0 {
      MulZero(r, q);
      AddLaws(r, r.zero, r.zero, r.zero);
    } else {
      SumSplits(r, y, w, k, n - 1);
      EvenTerm(r, y, w, k, n - 1);
      OddTerm(r, y, w, k, n - 1);
      var se, so := FourierSum(r, Evens(y), v, k, n - 1), FourierSum(r, Odds(y), v, k, n - 1);
      var te, to := Term(r, Evens(y), v, k, n - 1), Term(r, Odds(y), v, k, n - 1);
      assert FourierSum(r, y, w, k, 2 * n - 1) ==
             r.add(FourierSum(r, y, w, k, 2 * n - 2), Term(r, y, w, k, 2 * n - 2));
      MulLaws(r, q, so, to);
      AddLaws(r, r.add(se, r.mul(q, so)), te, r.mul(q, to));
      AddSwap(r, se, r.mul(q, so), te, r.mul(q, to));
    }
  }

  // A root of order h makes the sum periodic in the frequency.
  lemma {:induction false} SumPeriodic<T(!new)>(r: Ring<T>, y: seq<T>, v: T, k: nat, h: nat, n: nat)
    requires IsRing(r) && n <= |y| && Pow(r, v, h) == r.one
    ensures FourierSum(r, y, v, k + h, n) == FourierSum(r, y, v, k, n)
  {
    hide IsRing;
    if n > 0 {
      SumPeriodic(r, y, v, k, h, n - 1);
      var j := n - 1;
      assert j * (k + h) == j * k + j * h;
      PowAdd(r, v, j * k, j * h);
      PowOfUnit(r, v, h, j);
      MulLaws(r, Pow(r, v, j * k), r.one, r.one);
    }
  }

  // One butterfly stage on a block whose halves hold the half-size transforms.
  function Butterflies<T>(r: Ring<T>, a: seq<T>, w: T): (b: seq<T>)
    requires |a| % 2 == 0
    ensures |b| == |a|
  {
    var h := |a| / 2;
    seq(|a|, k requires 0 <= k < |a| =>
      if k < h then r.add(a[k], r.mul(a[k + h], Pow(r, w, k)))
      else Sub(r, a[k - h], r.mul(a[k], Pow(r, w, k - h))))
  }

  lemma HalfDftAt<T>(r: Ring<T>, a: seq<T>, h: nat, e: seq<T>, o: seq<T>, v: T, k: nat)
    requires |a| == 2 * h && |e| == h && |o| == h && k < h
    requires a[..h] == Dft(r, e, v) && a[h..] == Dft(r, o, v)
    ensures a[k] == FourierSum(r, e, v, k, h) && a[k + h] == FourierSum(r, o, v, k, h)
  {
    assert a[k] == a[..h][k] && a[k + h] == a[h..][k];
  }

  lemma ButterflyAt<T(!new)>(r: Ring<T>, a: seq<T>, y: seq<T>, w: T, k: nat)
    requires IsRing(r) && |a| == |y| && |y| % 2 == 0 && k < |y| / 2
    requires a[..|y| / 2] == Dft(r, Evens(y), r.mul(w, w))
    requires a[|y| / 2..] == Dft(r, Odds(y), r.mul(w, w))
    requires Pow(r, w, |y| / 2) == r.neg(r.one)
    ensures Butterflies(r, a, w)[k] == FourierSum(r, y, w, k, |y|)
    ensures Butterflies(r, a, w)[k + |y| / 2] == FourierSum(r, y, w, k + |y| / 2, |y|)
  {
    hide IsRing, Dft, Evens, Odds, FourierSum;
    var h, v, q := |y| / 2, r.mul(w, w), Pow(r, w, k);
    HalfDftAt(r, a, h, Evens(y), Odds(y), v, k);
    var e, o := a[k], a[k + h];
    SumSplits(r, y, w, k, h);
    MulLaws(r, q, o, r.one);
    // v has order h
    PowSquare(r, w, h);
    PowAdd(r, w, h, h);
    NegOneSquared(r);
    SumSplits(r, y, w, k + h, h);
    SumPeriodic(r, Evens(y), v, k, h, h);
    SumPeriodic(r, Odds(y), v, k, h, h);
    PowAdd(r, w, k, h);
    MulNeg(r, q, r.one);
    MulLaws(r, q, r.one, r.one);
    MulLaws(r, r.neg(q), o, r.one);
    MulNeg(r, o, q);
    MulLaws(r, o, q, r.one);
  }

  lemma NegOneSquared<T(!new)>(r: Ring<T>)
    requires IsRing(r)
    ensures r.mul(r.neg(r.one), r.neg(r.one)) == r.one
  {
    hide IsRing;
    var m := r.neg(r.one);
    MulNeg(r, m, r.one);
    MulLaws(r, m, r.one, r.one);
    // neg(neg(one)) == one
    AddLaws(r, r.one, m, r.neg(m));
    AddLaws(r, m, r.neg(m), r.zero);
    AddLaws(r, r.one, r.zero, r.zero);
    AddLaws(r, r.zero, r.neg(m), r.zero);
    AddLaws(r, r.neg(m), r.zero, r.zero);
  }

  lemma ButterfliesAreDft<T(!new)>(r: Ring<T>, a: seq<T>, y: seq<T>, w: T)
    requires IsRing(r) && |a| == |y| && |y| % 2 == 0
    requires a[..|y| / 2] == Dft(r, Evens(y), r.mul(w, w))
    requires a[|y| / 2..] == Dft(r, Odds(y), r.mul(w, w))
    requires Pow(r, w, |y| / 2) == r.neg(r.one)
    ensures Butterflies(r, a, w) == Dft(r, y, w)
  {
    hide IsRing, Butterflies, FourierSum, Evens, Odds, Pow;
    var h := |y| / 2;
    forall k | 0 <= k < |y| ensures Butterflies(r, a, w)[k] == FourierSum(r, y, w, k, |y|) {
      ButterflyAt(r, a, y, w, if k < h then k else k - h);
    }
  }

  // ---- roots ----

  // The stage twiddles: w(2) = -1, and squaring the root of a stage gives the root of
  // the stage before. The C code obtains them as cos and sin of -2 pi / stage.
  ghost predicate Roots<T>(r: Ring<T>, w: nat -> T, k: nat) {
    && w(0) == r.one
    && (k >= 1 ==> w(1) == r.neg(r.one))
    && forall m :: 1 <= m < k ==> r.mul(w(m + 1), w(m + 1)) == w(m)
  }

  lemma RootSquares<T(!new)>(r: Ring<T>, w: nat -> T, k: nat, m: nat)
    requires IsRing(r) && Roots(r, w, k) && m < k
    ensures r.mul(w(m + 1), w(m + 1)) == w(m)
  {
    hide IsRing;
    if m == 0 {
      NegOneSquared(r);
    }
  }

  lemma {:induction false} HalfTurn<T(!new)>(r: Ring<T>, w: nat -> T, k: nat, m: nat)
    requires IsRing(r) && Roots(r, w, k) && 1 <= m <= k
    ensures Pow(r, w(m), Pow2(m - 1)) == r.neg(r.one)
  {
    hide IsRing;
    if m == 1 {
      assert Pow2(0) == 1;
      assert Pow(r, w(1), 1) == r.mul(r.one, w(1));
      MulLaws(r, w(1), r.one, r.one);
    } else {
      HalfTurn(r, w, k, m - 1);
      RootSquares(r, w, k, m - 1);
      PowSquare(r, w(m), Pow2(m - 2));
    }
  }

  // ---- stages ----

  // Blocks of 2^m elements of a hold the transforms of the subsequences of x that
  // splitting into evens and odds produces.
  ghost predicate Transformed<T>(r: Ring<T>, w: nat -> T, n: nat, a: seq<T>, x: seq<T>, m: nat)
    requires m <= n && |a| == |x| == Pow2(n)
    decreases n
  {
    if n == m then a == Dft(r, x, w(m))
    else
      var h := Pow2(n - 1);
      Transformed(r, w, n - 1, a[..h], Evens(x), m) && Transformed(r, w, n - 1, a[h..], Odds(x), m)
  }

  // n is a multiple of s.
  predicate Multiple(n: nat, s: nat)
    requires s > 0
  {
    n == 0 || (n >= s && Multiple(n - s, s))
  }

  // A stage applied to every block of s elements, from the left.
  function Blocks<T>(r: Ring<T>, a: seq<T>, w: T, s: nat): (b: seq<T>)
    requires s > 0 && s % 2 == 0 && Multiple(|a|, s)
    ensures |b| == |a|
    decreases |a|
  {
    if a == [] then [] else Butterflies(r, a[..s], w) + Blocks(r, a[s..], w, s)
  }

  lemma {:induction false} AddBlocks(m: nat, n: nat, s: nat)
    requires s > 0 && Multiple(m, s) && Multiple(n, s)
    ensures Multiple(m + n, s)
  {
    if m > 0 {
      AddBlocks(m - s, n, s);
    }
  }

  lemma {:induction false} BlocksAppend<T>(r: Ring<T>, a: seq<T>, b: seq<T>, w: T, s: nat)
    requires s > 0 && s % 2 == 0 && Multiple(|a|, s) && Multiple(|b|, s)
    ensures Multiple(|a + b|, s)
    ensures Blocks(r, a + b, w, s) == Blocks(r, a, w, s) + Blocks(r, b, w, s)
    decreases |a|
  {
    hide *;
    AddBlocks(|a|, |b|, s);
    FirstBlock(r, a, w, s);
    if a == [] {
      assert a + b == b;
    } else {
      FirstBlock(r, a + b, w, s);
      BlocksAppend(r, a[s..], b, w, s);
      assert (a + b)[..s] == a[..s] && (a + b)[s..] == a[s..] + b;
    }
  }

  lemma FirstBlock<T>(r: Ring<T>, a: seq<T>, w: T, s: nat)
    requires s > 0 && s % 2 == 0 && Multiple(|a|, s)
    ensures a == [] ==> Blocks(r, a, w, s) == []
    ensures a != [] ==> s <= |a| && Multiple(|a[s..]|, s) &&
                        Blocks(r, a, w, s) == Butterflies(r, a[..s], w) + Blocks(r, a[s..], w, s)
  {
    hide Butterflies;
  }

  lemma {:induction false} PowerDivides(m: nat, n: nat)
    requires m <= n
    ensures Multiple(Pow2(n), Pow2(m))
    decreases n
  {
    if m < n {
      PowerDivides(m, n - 1);
      AddBlocks(Pow2(n - 1), Pow2(n - 1), Pow2(m));
    }
  }

  lemma BlocksOne<T>(r: Ring<T>, a: seq<T>, w: T)
    requires |a| > 0 && |a| % 2 == 0
    ensures Multiple(|a|, |a|) && Blocks(r, a, w, |a|) == Butterflies(r, a, w)
  {
    hide Butterflies;
    assert a[..|a|] == a;
    assert Blocks(r, a[|a|..], w, |a|) == [];
  }

  // Running stage m + 1 over all blocks lifts the invariant by one level.
  lemma {:induction false} StageTransforms<T(!new)>(r: Ring<T>, w: nat -> T, top: nat, n: nat,
                                                    a: seq<T>, x: seq<T>, m: nat)
    requires IsRing(r) && Roots(r, w, top) && m + 1 <= n <= top && |a| == |x| == Pow2(n)
    requires Transformed(r, w, n, a, x, m)
    ensures Multiple(|a|, Pow2(m + 1))
    ensures Transformed(r, w, n, Blocks(r, a, w(m + 1), Pow2(m + 1)), x, m + 1)
    decreases n
  {
    hide IsRing, Roots, Dft, Butterflies, Blocks, Evens, Odds, Multiple;
    var h := Pow2(n - 1);
    PowerDivides(m + 1, n);
    if n == m + 1 {
      RootSquares(r, w, top, m);
      HalfTurn(r, w, top, m + 1);
      ButterfliesAreDft(r, a, x, w(m + 1));
      BlocksOne(r, a, w(m + 1));
    } else {
      PowerDivides(m + 1, n - 1);
      StageTransforms(r, w, top, n - 1, a[..h], Evens(x), m);
      StageTransforms(r, w, top, n - 1, a[h..], Odds(x), m);
      BlocksAppend(r, a[..h], a[h..], w(m + 1), Pow2(m + 1));
      assert a[..h] + a[h..] == a;
      var b := Blocks(r, a, w(m + 1), Pow2(m + 1));
      assert b[..h] == Blocks(r, a[..h], w(m + 1), Pow2(m + 1));
      assert b[h..] == Blocks(r, a[h..], w(m + 1), Pow2(m + 1));
    }
  }

  // ---- bit reversal ----

  // The number whose k binary digits are those of i in reverse.
  function Rev(k: nat, i: nat): (j: nat)
    requires i < Pow2(k)
    ensures j < Pow2(k)
  {
    if k == 0 then 0
    else if i < Pow2(k - 1) then 2 * Rev(k - 1, i)
    else 2 * Rev(k - 1, i - Pow2(k - 1)) + 1
  }

  // The lowest digit of i becomes the highest digit of its reverse.
  lemma {:induction false} RevTop(k: nat, i: nat)
    requires k > 0 && i < Pow2(k)
    ensures i / 2 < Pow2(k - 1)
    ensures Rev(k, i) == (if i % 2 == 1 then Pow2(k - 1) else 0) + Rev(k - 1, i / 2)
  {
    if k > 1 {
      RevTop(k - 1, if i < Pow2(k - 1) then i else i - Pow2(k - 1));
    }
  }

  lemma {:induction false} RevInvolution(k: nat, i: nat)
    requires i < Pow2(k)
    ensures Rev(k, Rev(k, i)) == i
  {
    if k > 0 {
      var h := Pow2(k - 1);
      RevInvolution(k - 1, if i < h then i else i - h);
      RevTop(k, Rev(k, i));
    }
  }

  // Reversed order puts even samples first: level 0 of the invariant.
  lemma {:induction false} ReversedIsLevelZero<T(!new)>(r: Ring<T>, w: nat -> T, n: nat, a: seq<T>, x: seq<T>)
    requires IsRing(r) && |a| == |x| == Pow2(n)
    requires forall i :: 0 <= i < Pow2(n) ==> a[i] == x[Rev(n, i)]
    ensures Transformed(r, w, n, a, x, 0)
    decreases n
  {
    hide IsRing, Dft;
    if n == 0 {
      assert a[0] == x[Rev(0, 0)];
      SingletonDft(r, x, w(0));
      assert a == x;
    } else {
      var h := Pow2(n - 1);
      forall i | 0 <= i < h
        ensures a[..h][i] == Evens(x)[Rev(n - 1, i)] && a[h..][i] == Odds(x)[Rev(n - 1, i)]
      {
        assert a[i] == x[Rev(n, i)] && a[i + h] == x[Rev(n, i + h)];
      }
      ReversedIsLevelZero(r, w, n - 1, a[..h], Evens(x));
      ReversedIsLevelZero(r, w, n - 1, a[h..], Odds(x));
    }
  }

  lemma SingletonDft<T(!new)>(r: Ring<T>, x: seq<T>, w: T)
    requires IsRing(r) && |x| == 1
    ensures Dft(r, x, w) == x
  {
    hide IsRing;
    assert Term(r, x, w, 0, 0) == r.mul(x[0], r.one);
    MulLaws(r, x[0], r.one, r.one);
    AddLaws(r, r.zero, x[0], r.zero);
    AddLaws(r, x[0], r.zero, r.zero);
    assert FourierSum(r, x, w, 0, 1) == r.add(FourierSum(r, x, w, 0, 0), Term(r, x, w, 0, 0));
  }

  // a & b on naturals, digit by digit.
  function And(a: nat, b: nat): nat {
    if a == 0 || b == 0 then 0 else (if a % 2 == 1 && b % 2 == 1 then 1 else 0) + 2 * And(a / 2, b / 2)
  }

  // A single bit of a number with no higher bit.
  lemma {:induction false} AndBit(j: nat, b: nat)
    requires j < Pow2(b + 1)
    ensures And(j, Pow2(b)) == if j < Pow2(b) then 0 else Pow2(b)
  {
    if b == 0 {
      assert Pow2(1) == 2 * Pow2(0) == 2;
      assert And(1, 1) == 1 + 2 * And(0, 0);
    } else {
      assert Pow2(b) / 2 == Pow2(b - 1) && Pow2(b + 1) == 2 * Pow2(b);
      AndBit(j / 2, b - 1);
    }
  }

  function Successor(i: nat, len: nat): (s: nat)
    requires i < len
    ensures s < len
  {
    if i + 1 == len then 0 else i + 1
  }

  // One step of the carry: the reverse of i + 1 from the reverse of i.
  lemma RevSuccessor(k: nat, i: nat)
    requires k > 0 && i < Pow2(k)
    ensures Rev(k, i) < Pow2(k - 1) <==> i % 2 == 0
    ensures i / 2 < Pow2(k - 1)
    ensures i % 2 == 0 ==> Rev(k, Successor(i, Pow2(k))) == Rev(k, i) + Pow2(k - 1)
    ensures i % 2 == 1 ==> Rev(k, i) == Pow2(k - 1) + Rev(k - 1, i / 2) &&
                           Rev(k, Successor(i, Pow2(k))) == Rev(k - 1, Successor(i / 2, Pow2(k - 1)))
  {
    RevTop(k, i);
    RevTop(k, Successor(i, Pow2(k)));
  }

  // Adding one to a number kept in reversed binary: carry from the top bit downwards.
  method ReversedIncrement(j0: nat, len: nat, ghost k: nat, ghost i: nat) returns (j: nat)
    requires len == Pow2(k) && k > 0 && i < len && j0 == Rev(k, i)
    ensures j == Rev(k, Successor(i, len))
  {
    hide Rev;
    j := j0;
    var bit := len / 2;
    ghost var b: nat, p: nat := k, i;
    AndBit(j, b - 1);
    while And(j, bit) != 0
      invariant b <= k && bit == Pow2(b) / 2
      invariant p < Pow2(b) && j == Rev(b, p)
      invariant Rev(b, Successor(p, Pow2(b))) == Rev(k, Successor(i, len))
      invariant b > 0 ==> And(j, bit) == if j < bit then 0 else bit
      decreases b
    {
      RevSuccessor(b, p);
      j := j - bit;
      bit := bit / 2;
      p := p / 2;
      b := b - 1;
      if b > 0 {
        AndBit(j, b - 1);
      }
    }
    if b > 0 {
      RevSuccessor(b, p);
    }
    j := j + bit;
  }

  // The permutation loop: swap each pair once, when the smaller index comes by.
  method BitReverse<T>(out: array<T>, len: nat, ghost k: nat)
    requires len == Pow2(k) && k > 0 && len <= out.Length
    modifies out
    ensures forall p :: 0 <= p < len ==> out[p] == old(out[Rev(k, p)])
    ensures forall p :: len <= p < out.Length ==> out[p] == old(out[p])
  {
    hide Rev;
    forall p | 0 <= p < len ensures Rev(k, Rev(k, p)) == p {
      RevInvolution(k, p);
    }
    var i, j := 0, 0;
    RevZero(k);
    while i < len
      invariant 0 <= i <= len && j == Rev(k, if i < len then i else 0)
      invariant forall p :: 0 <= p < len ==>
        out[p] == if p < i || Rev(k, p) < i then old(out[Rev(k, p)]) else old(out[p])
      invariant forall p :: len <= p < out.Length ==> out[p] == old(out[p])
    {
      if i < j {
        out[i], out[j] := out[j], out[i];
      }
      j := ReversedIncrement(j, len, k, i);
      i := i + 1;
    }
  }

  lemma {:induction false} RevZero(k: nat)
    ensures Rev(k, 0) == 0
  {
    if k > 0 {
      RevZero(k - 1);
    }
  }

  // ---- the stages in place ----

  lemma ButterflyPair<T>(r: Ring<T>, a: seq<T>, w: T, k: nat)
    requires |a| % 2 == 0 && k < |a| / 2
    ensures var h, b := |a| / 2, r.mul(a[k + |a| / 2], Pow(r, w, k));
            && Butterflies(r, a, w)[k] == r.add(a[k], b)
            && Butterflies(r, a, w)[k + h] == Sub(r, a[k], b)
    ensures Pow(r, w, k + 1) == r.mul(Pow(r, w, k), w)
  {
  }

  method ButterflyBlock<T>(r: Ring<T>, out: array<T>, group: nat, stage: nat, step: T)
    requires stage % 2 == 0 && group + stage <= out.Length
    modifies out
    ensures out[group..group + stage] == Butterflies(r, old(out[group..group + stage]), step)
    ensures forall p :: 0 <= p < group || group + stage <= p < out.Length ==> out[p] == old(out[p])
  {
    hide Butterflies;
    ghost var a := out[group..group + stage];
    ghost var want := Butterflies(r, a, step);
    var h := stage / 2;
    var w := r.one;
    assert w == Pow(r, step, 0);
    hide Pow, Sub;
    for pair := 0 to h
      invariant w == Pow(r, step, pair)
      invariant forall p :: group <= p < group + stage ==>
        out[p] == if p < group + pair || group + h <= p < group + h + pair then want[p - group] else a[p - group]
      invariant forall p :: 0 <= p < group || group + stage <= p < out.Length ==> out[p] == old(out[p])
    {
      var top := group + pair;
      var bot := top + h;
      ButterflyPair(r, a, step, pair);
      assert out[top] == a[pair] && out[bot] == a[h + pair];
      var b := r.mul(out[bot], w);
      out[bot] := Sub(r, out[top], b);
      out[top] := r.add(out[top], b);
      w := r.mul(w, step);
    }
  }

  method Stage<T>(r: Ring<T>, out: array<T>, len: nat, stage: nat, step: T)
    requires stage > 0 && stage % 2 == 0 && Multiple(len, stage) && len <= out.Length
    modifies out
    ensures out[..len] == Blocks(r, old(out[..len]), step, stage)
    ensures forall p :: len <= p < out.Length ==> out[p] == old(out[p])
  {
    hide Butterflies, Blocks;
    ghost var a := out[..len];
    var group := 0;
    BlocksEmpty(r, step, stage);
    assert a[..0] == [];
    while group < len
      invariant 0 <= group <= len && Multiple(group, stage)
      invariant out[..group] == Blocks(r, a[..group], step, stage)
      invariant forall p :: group <= p < out.Length ==> out[p] == old(out[p])
      decreases len - group
    {
      NextBlock(len, group, stage);
      ghost var done := out[..group];
      ghost var block := a[group..group + stage];
      assert out[group..group + stage] == block by {
        assert forall p :: group <= p < group + stage ==> out[p] == a[p];
      }
      ButterflyBlock(r, out, group, stage, step);
      BlocksStep(r, a[..group], block, step, stage);
      assert a[..group + stage] == a[..group] + block;
      assert out[..group] == done;
      assert out[..group + stage] == out[..group] + out[group..group + stage];
      group := group + stage;
    }
    assert a[..len] == a;
  }

  lemma BlocksEmpty<T>(r: Ring<T>, w: T, s: nat)
    requires s > 0 && s % 2 == 0
    ensures Blocks(r, [], w, s) == []
  {
  }

  lemma BlocksStep<T>(r: Ring<T>, a: seq<T>, block: seq<T>, w: T, s: nat)
    requires s > 0 && s % 2 == 0 && Multiple(|a|, s) && |block| == s
    ensures Multiple(|a + block|, s)
    ensures Blocks(r, a + block, w, s) == Blocks(r, a, w, s) + Butterflies(r, block, w)
  {
    hide Butterflies;
    assert Multiple(s - s, s);
    BlocksAppend(r, a, block, w, s);
    BlocksOne(r, block, w);
  }

  lemma {:induction false} NextBlock(m: nat, n: nat, s: nat)
    requires s > 0 && n < m && Multiple(m, s) && Multiple(n, s)
    ensures n + s <= m && Multiple(n + s, s)
  {
    if n > 0 {
      NextBlock(m - s, n - s, s);
    } else {
      assert Multiple(0, s);
    }
  }

  predicate IsPow2(x: nat) {
    x != 0 && And(x, x - 1) == 0
  }

  lemma {:induction false} AndSelf(x: nat)
    ensures And(x, x) == x
  {
    if x > 0 {
      AndSelf(x / 2);
    }
  }

  // The bit trick recognises exactly the powers of two.
  lemma {:induction false} IsPow2Exact(x: nat) returns (k: nat)
    ensures IsPow2(x) ==> x == Pow2(k)
    ensures !IsPow2(x) ==> forall m: nat :: Pow2(m) != x
  {
    k := 0;
    if x == 0 {
    } else if x == 1 {
      assert Pow2(0) == 1;
    } else if x % 2 == 1 {
      AndSelf(x / 2);
      assert (x - 1) / 2 == x / 2;
      assert And(x, x - 1) == 2 * (x / 2);
      forall m: nat ensures Pow2(m) != x {
        if m == 0 {
        }
      }
    } else {
      k := IsPow2Exact(x / 2);
      assert (x - 1) / 2 == x / 2 - 1;
      assert And(x, x - 1) == 2 * And(x / 2, x / 2 - 1);
      if IsPow2(x) {
        k := k + 1;
      } else {
        forall m: nat ensures Pow2(m) != x {
          if m > 0 {
            assert Pow2(m - 1) != x / 2;
          }
        }
      }
    }
  }

  // The transform: out becomes the discrete Fourier transform of in, which may be the
  // same array. w(m) is the twiddle step of the stage of size 2^m.
  method Fft<T(!new)>(r: Ring<T>, w: nat -> T, input: array?<T>, out: array?<T>, len: nat) returns (err: Option<Errno>)
    requires IsRing(r) && forall k :: Pow2(k) == len ==> Roots(r, w, k)
    requires (input != null ==> input.Length >= len) && (out != null ==> out.Length >= len)
    modifies out
    ensures err == None <==> input != null && out != null && 2 <= len <= FFT_MAX_LEN && exists k :: Pow2(k) == len
    ensures err.Some? ==> err.value == EINVAL && (out != null ==> out[..] == old(out[..]))
    ensures err == None ==>
      forall k :: Pow2(k) == len ==> out[..len] == Dft(r, old(input[..len]), w(k))
    ensures err == None ==> forall p :: len <= p < out.Length ==> out[p] == old(out[p])
  {
    ghost var k := IsPow2Exact(len);
    if input == null || out == null || len < 2 || len > FFT_MAX_LEN || !IsPow2(len) {
      return Some(EINVAL);
    }
    ghost var x := input[..len];
    if out != input {
      forall p | 0 <= p < len {
        out[p] := input[p];
      }
    }
    assert out[..len] == x;
    assert k > 0;
    Transform(r, w, out, len, k);
    forall k' | Pow2(k') == len ensures k' == k {
      Pow2Injective(k', k);
    }
    return None;
  }

  lemma {:induction false} Pow2Injective(a: nat, b: nat)
    requires Pow2(a) == Pow2(b)
    ensures a == b
  {
    if a > 0 && b > 0 {
      Pow2Injective(a - 1, b - 1);
    }
  }

  method Transform<T(!new)>(r: Ring<T>, w: nat -> T, out: array<T>, len: nat, ghost k: nat)
    requires IsRing(r) && Roots(r, w, k) && len == Pow2(k) && k > 0 && len <= out.Length
    modifies out
    ensures out[..len] == Dft(r, old(out[..len]), w(k))
    ensures forall p :: len <= p < out.Length ==> out[p] == old(out[p])
  {
    hide IsRing, Roots, Dft, Blocks;
    ghost var x := out[..len];
    BitReverse(out, len, k);
    forall i | 0 <= i < len ensures Rev(k, i) < len && out[..len][i] == x[Rev(k, i)] {
    }
    ReversedIsLevelZero(r, w, k, out[..len], x);
    var stage := 2;
    var m := 0;
    while stage <= len
      invariant 0 <= m <= k && stage == Pow2(m + 1)
      invariant Transformed(r, w, k, out[..len], x, m)
      invariant forall p :: len <= p < out.Length ==> out[p] == old(out[p])
      decreases k - m
    {
      Pow2Monotone(m + 1, k);
      StageTransforms(r, w, k, k, out[..len], x, m);
      Stage(r, out, len, stage, w(m + 1));
      m := m + 1;
      stage := stage * 2;
    }
    Pow2Monotone(m + 1, k);
  }

  lemma {:induction false} Pow2Monotone(a: nat, b: nat)
    ensures Pow2(a) <= Pow2(b) <==> a <= b
  {
    if a > 0 && b > 0 {
      Pow2Monotone(a - 1, b - 1);
    }
  }

  // ---- the instance the code computes with ----

  datatype Complex = Complex(re: real, im: real)

  function ComplexRing(): Ring<Complex> {
    Ring(Complex(0.0, 0.0), Complex(1.0, 0.0),
         (a: Complex, b: Complex) => Complex(a.re + b.re, a.im + b.im),
         (a: Complex) => Complex(-a.re, -a.im),
         (a: Complex, b: Complex) => Complex(a.re * b.re - a.im * b.im, a.re * b.im + a.im * b.re))
  }

  lemma ComplexIsRing()
    ensures IsRing(ComplexRing())
  {
    var r := ComplexRing();
    forall a, b, c ensures r.mul(r.mul(a, b), c) == r.mul(a, r.mul(b, c)) {
    }
    forall a, b, c ensures r.mul(a, r.add(b, c)) == r.add(r.mul(a, b), r.mul(a, c)) {
    }
  }

  // The steps of the stages of size 2 and 4 are -1 and -i.
  lemma QuarterTurnRoots(w: nat -> Complex)
    requires w(0) == Complex(1.0, 0.0) && w(1) == Complex(-1.0, 0.0) && w(2) == Complex(0.0, -1.0)
    ensures Roots(ComplexRing(), w, 2)
  {
    var r := ComplexRing();
    assert r.mul(w(2), w(2)) == Complex(0.0 * 0.0 - (-1.0) * (-1.0), 0.0 * -1.0 + -1.0 * 0.0);
  }
}
