/** The circuit BuildQFT returns computes the discrete Fourier transform in bit-reversed numbering. */
module Fourier {
  import opened Bits
  import opened ComplexNumbers
  import opened Gates
  import opened Circuits
  import opened Builders

  ghost predicate SumOfAngles(t: Trig, x: real, y: real) {
    Phase(t, x + y) == Mul(Phase(t, x), Phase(t, y))
  }

  /** The addition laws, and pi is half a turn. */
  ghost predicate IsCircle(t: Trig, pi: real) {
    && (forall x, y :: SumOfAngles(t, x, y))
    && Phase(t, 0.0) == ONE
    && Phase(t, pi) == Real(-1.0)
  }

  // ---------- index arithmetic ----------

  /** i shifted right k times. */
  function High(i: nat, k: nat): nat {
    if k == 0 then i else High(i / 2, k - 1)
  }

  lemma {:induction false} HighSplits(i: nat, k: nat)
    ensures High(i, k) == 2 * High(i, k + 1) + Bit(i, k)
  {
    if k > 0 {
      HighSplits(i / 2, k - 1);
    }
  }

  lemma {:induction false} HighOfFlip(i: nat, k: nat)
    ensures High(Flip(i, k), k + 1) == High(i, k + 1)
  {
    if k > 0 {
      HighOfFlip(i / 2, k - 1);
    }
  }

  lemma {:induction false} HighDecidesBits(i: nat, j: nat, k: nat, m: nat)
    requires High(i, k) == High(j, k) && k <= m
    ensures Bit(i, m) == Bit(j, m)
  {
    HighBit(i, k, m);
    HighBit(j, k, m);
  }

  lemma {:induction false} HighBit(i: nat, k: nat, m: nat)
    requires k <= m
    ensures Bit(i, m) == Bit(High(i, k), m - k)
  {
    if k > 0 {
      HighBit(i / 2, k - 1, m - 1);
    }
  }

  lemma {:induction false} HighIsZero(i: nat, n: nat)
    requires i < Pow2(n)
    ensures High(i, n) == 0
  {
    if n > 0 {
      HighIsZero(i / 2, n - 1);
    }
  }

  /** The low k bits of i, read backwards. */
  function Rev(i: nat, k: nat): nat {
    if k == 0 then 0 else 2 * Rev(i, k - 1) + Bit(i, k - 1)
  }

  /** The low k bits of i as a number. */
  function Low(i: nat, k: nat): nat {
    if k == 0 then 0 else Low(i, k - 1) + Bit(i, k - 1) * Pow2(k - 1)
  }

  lemma {:induction false} LowShift(i: nat, k: nat)
    ensures Low(i, k + 1) == 2 * Low(i / 2, k) + i % 2
  {
    if k > 0 {
      LowShift(i, k - 1);
      assert Low(i, k + 1) == Low(i, k) + Bit(i, k) * Pow2(k);
      assert Low(i / 2, k) == Low(i / 2, k - 1) + Bit(i / 2, k - 1) * Pow2(k - 1);
      assert Bit(i, k) == Bit(i / 2, k - 1);
      assert Bit(i, k) == 0 || Bit(i, k) == 1;
    }
  }

  lemma {:induction false} LowIsAll(i: nat, n: nat)
    requires i < Pow2(n)
    ensures Low(i, n) == i
  {
    if n > 0 {
      LowIsAll(i / 2, n - 1);
      LowShift(i, n - 1);
    }
  }

  lemma {:induction false} RevBound(i: nat, k: nat)
    ensures Rev(i, k) < Pow2(k)
  {
    if k > 0 {
      RevBound(i, k - 1);
    }
  }

  lemma {:induction false} RevBit(i: nat, k: nat, m: nat)
    requires m < k
    ensures Bit(Rev(i, k), m) == Bit(i, k - 1 - m)
  {
    RevHalves(i, k);
    if m > 0 {
      RevBit(i, k - 1, m - 1);
    }
  }

  lemma RevHalves(i: nat, k: nat)
    requires k > 0
    ensures Rev(i, k) / 2 == Rev(i, k - 1) && Rev(i, k) % 2 == Bit(i, k - 1)
  {
  }

  lemma {:induction false} SameBits(i: nat, j: nat, n: nat)
    requires i < Pow2(n) && j < Pow2(n)
    requires forall m: nat :: m < n ==> Bit(i, m) == Bit(j, m)
    ensures i == j
  {
    if n > 0 {
      forall m: nat | m < n - 1
        ensures Bit(i / 2, m) == Bit(j / 2, m)
      {
        assert Bit(i, m + 1) == Bit(j, m + 1);
      }
      SameBits(i / 2, j / 2, n - 1);
      assert Bit(i, 0) == Bit(j, 0);
    }
  }

  // ---------- the swap network ----------

  /** Where amplitude y comes from after the first k swaps. */
  function SwapSource(n: nat, k: nat, y: nat): nat
    requires k <= n
  {
    if k == 0 then y else SwapSource(n, k - 1, SwapIndex(k - 1, n - k, y))
  }

  lemma {:induction false} SwapIndexBits(a: nat, b: nat, y: nat, m: nat)
    requires a != b
    ensures Bit(SwapIndex(a, b, y), m) == Bit(y, if m == a then b else if m == b then a else m)
  {
    BitOfFlip(y, a, m);
    BitOfFlip(Flip(y, a), b, m);
  }

  lemma {:induction false} SwapSourceBits(n: nat, k: nat, y: nat, m: nat)
    requires k <= n / 2 && m < n
    ensures Bit(SwapSource(n, k, y), m) == Bit(y, if m < k || n - k <= m then n - 1 - m else m)
    decreases k
  {
    if k > 0 {
      var z := SwapIndex(k - 1, n - k, y);
      SwapSourceBits(n, k - 1, z, m);
      SwapIndexBits(k - 1, n - k, y, m);
      SwapIndexBits(k - 1, n - k, y, n - 1 - m);
    }
  }

  lemma {:induction false} SwapSourceBound(n: nat, k: nat, y: nat)
    requires k <= n / 2 && y < Pow2(n)
    ensures SwapSource(n, k, y) < Pow2(n)
    decreases k
  {
    if k > 0 {
      SwapIndexFacts(n, k - 1, n - k, y);
      SwapSourceBound(n, k - 1, SwapIndex(k - 1, n - k, y));
    }
  }

  lemma {:induction false} SwapsReverse(n: nat, y: nat)
    requires y < Pow2(n)
    ensures SwapSource(n, n / 2, y) == Rev(y, n)
  {
    SwapSourceBound(n, n / 2, y);
    RevBound(y, n);
    forall m: nat | m < n
      ensures Bit(SwapSource(n, n / 2, y), m) == Bit(Rev(y, n), m)
    {
      SwapSourceBits(n, n / 2, y, m);
      RevBit(y, n, m);
    }
    SameBits(SwapSource(n, n / 2, y), Rev(y, n), n);
  }

  /** One more swap, seen at one index. */
  lemma NextSwap(t: Trig, n: nat, s: seq<Complex>, k: nat, y: nat)
    requires n < INT_BITS && 0 < k <= n / 2 && IsState(s, n) && y < Pow2(n) && SwapIndex(k - 1, n - k, y) < Pow2(n)
    ensures ApplyGates(t, s, Swaps(n, k))[y] == ApplyGates(t, s, Swaps(n, k - 1))[SwapIndex(k - 1, n - k, y)]
  {
    ApplyOne(t, s, Swaps(n, k - 1), SwapGate(k - 1, n - k));
    SwapAt(t, ApplyGates(t, s, Swaps(n, k - 1)), k - 1, n - k, y);
  }

  lemma {:induction false} SwapsPermute(t: Trig, n: nat, s: seq<Complex>, k: nat, y: nat)
    requires n < INT_BITS && k <= n / 2 && IsState(s, n) && y < Pow2(n)
    ensures ApplyGates(t, s, Swaps(n, k))[y] == At(s, SwapSource(n, k, y))
    decreases k
  {
    if k > 0 {
      var z := SwapIndex(k - 1, n - k, y);
      SwapIndexFacts(n, k - 1, n - k, y);
      SwapsPermute(t, n, s, k - 1, z);
      NextSwap(t, n, s, k, y);
    }
  }

  lemma SwapAt(t: Trig, s: seq<Complex>, a: nat, b: nat, y: nat)
    requires y < |s| && a != b && LowMask(a) && LowMask(b)
    ensures ApplyGate(t, s, SwapGate(a, b))[y] == At(s, SwapIndex(a, b, y))
  {
    GatesAct(t, a, b, 0.0, s);
  }

  // ---------- phases ----------

  lemma AngleSum(t: Trig, pi: real, x: real, y: real)
    requires IsCircle(t, pi)
    ensures Phase(t, x + y) == Mul(Phase(t, x), Phase(t, y))
  {
    assert SumOfAngles(t, x, y);
  }

  lemma HalfTurn(t: Trig, pi: real, x: real)
    requires IsCircle(t, pi)
    ensures Phase(t, x + pi) == Mul(Phase(t, x), Real(-1.0))
  {
    AngleSum(t, pi, x, pi);
  }

  lemma FullTurn(t: Trig, pi: real, x: real)
    requires IsCircle(t, pi)
    ensures Phase(t, x + pi + pi) == Phase(t, x)
  {
    HalfTurn(t, pi, x);
    HalfTurn(t, pi, x + pi);
  }

  lemma {:induction false} FullTurns(t: Trig, pi: real, k: nat, x: real)
    requires IsCircle(t, pi)
    ensures Phase(t, Times(k, pi + pi) + x) == Phase(t, x)
  {
    if k > 0 {
      FullTurns(t, pi, k - 1, x);
      FullTurn(t, pi, Times(k - 1, pi + pi) + x);
      assert Times(k, pi + pi) + x == Times(k - 1, pi + pi) + x + pi + pi;
    }
  }

  /** pi halved k times. */
  function Fraction(pi: real, k: nat): real {
    if k == 0 then pi else Fraction(pi, k - 1) / 2.0
  }

  lemma {:induction false} FractionIsQuotient(pi: real, k: nat)
    ensures pi / Pow2(k) as real == Fraction(pi, k)
    ensures Fraction(pi, k) * Pow2(k) as real == pi
  {
    if k > 0 {
      FractionIsQuotient(pi, k - 1);
      var f, p := Fraction(pi, k - 1), Pow2(k - 1) as real;
      assert Pow2(k) as real == 2.0 * p;
      assert (f / 2.0) * (2.0 * p) == f * p;
      DivideUnique(pi, 2.0 * p, f / 2.0);
    }
  }

  lemma DivideUnique(x: real, q: real, y: real)
    requires q > 0.0 && y * q == x
    ensures x / q == y
  {
  }

  lemma {:induction false} FractionScales(pi: real, m: nat, j: nat)
    requires j <= m
    ensures Times(Pow2(j), Fraction(pi, m)) == Fraction(pi, m - j)
    decreases j
  {
    if j == 0 {
      assert Times(1, Fraction(pi, m)) == Times(0, Fraction(pi, m)) + Fraction(pi, m);
    } else {
      var p, f := Pow2(j - 1), Fraction(pi, m);
      FractionScales(pi, m - 1, j - 1);
      TimesAdd(p, p, f);
      TimesOfSum(p, f, f);
      assert f + f == Fraction(pi, m - 1);
    }
  }

  /** Total angle of row j on input x, with targets below e. */
  function RowAngle(pi: real, x: nat, j: nat, e: nat): real {
    if e <= j then 0.0
    else RowAngle(pi, x, j, e - 1) + if Bit(x, e - 1) == 1 then Fraction(pi, e - 1 - j) else 0.0
  }

  /** Angle of amplitude y on input x after k rows, with targets below e. */
  function Theta(pi: real, x: nat, y: nat, e: nat, k: nat): real {
    if k == 0 then 0.0
    else Theta(pi, x, y, e, k - 1) + if Bit(y, k - 1) == 1 then RowAngle(pi, x, k - 1, e) else 0.0
  }

  lemma {:induction false} ThetaOfFlip(pi: real, x: nat, y: nat, e: nat, k: nat, j: nat)
    requires k <= j
    ensures Theta(pi, x, Flip(y, j), e, k) == Theta(pi, x, y, e, k)
  {
    if k > 0 {
      ThetaOfFlip(pi, x, y, e, k - 1, j);
      BitOfFlip(y, j, k - 1);
    }
  }

  // ---------- the rows ----------

  function Basis(n: nat, x: nat): (s: seq<Complex>)
    ensures |s| == Pow2(n)
  {
    seq(Pow2(n), y => if y == x then ONE else ZERO)
  }

  /** Amplitude y after k rows on basis state x. */
  function RowsAmp(t: Trig, pi: real, x: nat, e: nat, k: nat, y: nat): Complex {
    if High(y, k) == High(x, k) then Mul(Real(Power(t.invSqrt2, k)), Phase(t, Theta(pi, x, y, e, k))) else ZERO
  }

  /** Angle of amplitude y inside row k, once its targets below f are done. */
  function RowTheta(pi: real, x: nat, e: nat, k: nat, f: nat, y: nat): real {
    Theta(pi, x, y, e, k) + if Bit(y, k) == 1 then RowAngle(pi, x, k, f) else 0.0
  }

  /** Amplitude y inside row k, once its targets below f are done. */
  function RowAmp(t: Trig, pi: real, x: nat, e: nat, k: nat, f: nat, y: nat): Complex {
    if High(y, k + 1) == High(x, k + 1)
    then Mul(Real(Power(t.invSqrt2, k + 1)), Phase(t, RowTheta(pi, x, e, k, f, y)))
    else ZERO
  }

  /** H on a pair of which one amplitude is p z and the other zero. */
  lemma HadamardOnScaled(h: real, p: real, q: real, z: Complex, first: bool, a: Complex, b: Complex)
    requires q == h * p
    requires a == if first then Mul(Real(p), z) else ZERO
    requires b == if first then ZERO else Mul(Real(p), z)
    ensures Upper(Hadamard(h), a, b) == Mul(Real(q), z)
    ensures Lower(Hadamard(h), b, a) == Mul(Real(q), if first then Mul(z, Real(-1.0)) else z)
  {
  }

  lemma HadamardOnZero(h: real)
    ensures Upper(Hadamard(h), ZERO, ZERO) == ZERO && Lower(Hadamard(h), ZERO, ZERO) == ZERO
  {
  }

  /** Of a pair {y, y with bit k flipped} that agrees with x above k, one amplitude is carried. */
  lemma {:induction false} RowsAmpOfPair(t: Trig, pi: real, x: nat, e: nat, k: nat, y: nat, p: real, z: Complex)
    requires High(y, k + 1) == High(x, k + 1)
    requires p == Power(t.invSqrt2, k) && z == Phase(t, Theta(pi, x, y, e, k))
    ensures RowsAmp(t, pi, x, e, k, y) == if Bit(y, k) == Bit(x, k) then Mul(Real(p), z) else ZERO
    ensures RowsAmp(t, pi, x, e, k, Flip(y, k)) == if Bit(y, k) == Bit(x, k) then ZERO else Mul(Real(p), z)
  {
    HighSplits(y, k);
    HighSplits(Flip(y, k), k);
    HighSplits(x, k);
    HighOfFlip(y, k);
    BitOfFlip(y, k, k);
    ThetaOfFlip(pi, x, y, e, k, k);
  }

  lemma {:induction false} RowsAmpOfOthers(t: Trig, pi: real, x: nat, e: nat, k: nat, y: nat)
    requires High(y, k + 1) != High(x, k + 1)
    ensures RowsAmp(t, pi, x, e, k, y) == ZERO && RowsAmp(t, pi, x, e, k, Flip(y, k)) == ZERO
  {
    HighSplits(y, k);
    HighSplits(Flip(y, k), k);
    HighSplits(x, k);
    HighOfFlip(y, k);
  }

  lemma {:induction false} RowThetaStarts(t: Trig, pi: real, x: nat, e: nat, k: nat, y: nat)
    requires IsCircle(t, pi)
    ensures Phase(t, RowTheta(pi, x, e, k, k + 1, y)) ==
      var z := Phase(t, Theta(pi, x, y, e, k));
      if Bit(y, k) == 1 && Bit(x, k) == 1 then Mul(z, Real(-1.0)) else z
  {
    assert RowAngle(pi, x, k, k) == 0.0 && Fraction(pi, 0) == pi;
    assert RowAngle(pi, x, k, k + 1) == if Bit(x, k) == 1 then pi else 0.0;
    HalfTurn(t, pi, Theta(pi, x, y, e, k));
  }

  lemma {:induction false} HadamardOnPair(t: Trig, pi: real, x: nat, e: nat, k: nat, y: nat, a: Complex, b: Complex,
                                          q: real, z: Complex)
    requires High(y, k + 1) == High(x, k + 1)
    requires a == RowsAmp(t, pi, x, e, k, y) && b == RowsAmp(t, pi, x, e, k, Flip(y, k))
    requires q == Power(t.invSqrt2, k + 1) && z == Phase(t, Theta(pi, x, y, e, k))
    ensures Upper(HMatrix(t), a, b) == Mul(Real(q), z)
    ensures Lower(HMatrix(t), b, a) == Mul(Real(q), if Bit(y, k) == Bit(x, k) then Mul(z, Real(-1.0)) else z)
  {
    var p := Power(t.invSqrt2, k);
    PowerStep(t.invSqrt2, k);
    RowsAmpOfPair(t, pi, x, e, k, y, p, z);
    HadamardOnScaled(t.invSqrt2, p, q, z, Bit(y, k) == Bit(x, k), a, b);
  }

  lemma {:induction false} RowStartsOnPair(t: Trig, pi: real, x: nat, e: nat, k: nat, y: nat, a: Complex, b: Complex)
    requires IsCircle(t, pi) && High(y, k + 1) == High(x, k + 1)
    requires a == RowsAmp(t, pi, x, e, k, y) && b == RowsAmp(t, pi, x, e, k, Flip(y, k))
    ensures RowAmp(t, pi, x, e, k, k + 1, y) ==
      if Bit(y, k) == 0 then Upper(HMatrix(t), a, b) else Lower(HMatrix(t), b, a)
  {
    var z, q := Phase(t, Theta(pi, x, y, e, k)), Power(t.invSqrt2, k + 1);
    HadamardOnPair(t, pi, x, e, k, y, a, b, q, z);
    RowAmpStarts(t, pi, x, e, k, y, q, z);
  }

  lemma {:induction false} RowAmpStarts(t: Trig, pi: real, x: nat, e: nat, k: nat, y: nat, q: real, z: Complex)
    requires IsCircle(t, pi) && High(y, k + 1) == High(x, k + 1)
    requires q == Power(t.invSqrt2, k + 1) && z == Phase(t, Theta(pi, x, y, e, k))
    ensures RowAmp(t, pi, x, e, k, k + 1, y) ==
      Mul(Real(q), if Bit(y, k) == 1 && Bit(x, k) == 1 then Mul(z, Real(-1.0)) else z)
  {
    RowThetaStarts(t, pi, x, e, k, y);
  }

  lemma {:induction false} RowStarts(t: Trig, pi: real, x: nat, e: nat, k: nat, y: nat)
    requires IsCircle(t, pi)
    ensures RowAmp(t, pi, x, e, k, k + 1, y) ==
      if Bit(y, k) == 0 then Upper(HMatrix(t), RowsAmp(t, pi, x, e, k, y), RowsAmp(t, pi, x, e, k, Flip(y, k)))
      else Lower(HMatrix(t), RowsAmp(t, pi, x, e, k, Flip(y, k)), RowsAmp(t, pi, x, e, k, y))
  {
    if High(y, k + 1) == High(x, k + 1) {
      RowStartsOnPair(t, pi, x, e, k, y, RowsAmp(t, pi, x, e, k, y), RowsAmp(t, pi, x, e, k, Flip(y, k)));
    } else {
      RowsAmpOfOthers(t, pi, x, e, k, y);
      HadamardOnZero(t.invSqrt2);
    }
  }

  lemma RowThetaContinues(t: Trig, pi: real, x: nat, e: nat, k: nat, m: nat, y: nat)
    requires IsCircle(t, pi) && k < m && Bit(y, m) == Bit(x, m)
    ensures Phase(t, RowTheta(pi, x, e, k, m + 1, y)) ==
      var z := Phase(t, RowTheta(pi, x, e, k, m, y));
      if Bit(y, k) == 1 && Bit(y, m) == 1 then Mul(z, Phase(t, Fraction(pi, m - k))) else z
  {
    if Bit(y, k) == 1 && Bit(y, m) == 1 {
      AngleSum(t, pi, RowTheta(pi, x, e, k, m, y), Fraction(pi, m - k));
    }
  }

  lemma RowContinues(t: Trig, pi: real, x: nat, e: nat, k: nat, m: nat, y: nat)
    requires IsCircle(t, pi) && k < m
    ensures RowAmp(t, pi, x, e, k, m + 1, y) ==
      if Bit(y, k) == 1 && Bit(y, m) == 1
      then Mul(RowAmp(t, pi, x, e, k, m, y), Phase(t, Fraction(pi, m - k)))
      else RowAmp(t, pi, x, e, k, m, y)
  {
    var b := Phase(t, Fraction(pi, m - k));
    if High(y, k + 1) == High(x, k + 1) {
      HighDecidesBits(y, x, k + 1, m);
      RowThetaContinues(t, pi, x, e, k, m, y);
      MulAssociative(Real(Power(t.invSqrt2, k + 1)), Phase(t, RowTheta(pi, x, e, k, m, y)), b);
    } else {
      ZeroTimes(b);
    }
  }

  lemma ZeroTimes(z: Complex)
    ensures Mul(ZERO, z) == ZERO
    ensures Mul(ONE, z) == z && Mul(Real(1.0), z) == z
  {
  }

  /** The state after k rows on basis state x. */
  function RowsState(t: Trig, pi: real, n: nat, x: nat, k: nat): (s: seq<Complex>)
    ensures |s| == Pow2(n)
  {
    seq(Pow2(n), y requires 0 <= y < Pow2(n) => RowsAmp(t, pi, x, n + 1, k, y))
  }

  /** The state inside row k, once its targets below f are done. */
  function RowState(t: Trig, pi: real, n: nat, x: nat, k: nat, f: nat): (s: seq<Complex>)
    ensures |s| == Pow2(n)
  {
    seq(Pow2(n), y requires 0 <= y < Pow2(n) => RowAmp(t, pi, x, n + 1, k, f, y))
  }

  lemma RowBegins(t: Trig, pi: real, n: nat, x: nat, k: nat)
    requires IsCircle(t, pi) && k < n
    ensures ApplyPair(RowsState(t, pi, n, x, k), k, HMatrix(t)) == RowState(t, pi, n, x, k, k + 1)
  {
    var s, next := RowsState(t, pi, n, x, k), RowState(t, pi, n, x, k, k + 1);
    forall y: nat | y < Pow2(n)
      ensures ApplyPair(s, k, HMatrix(t))[y] == next[y]
    {
      FlipBound(y, k, n);
      assert At(s, y) == RowsAmp(t, pi, x, n + 1, k, y);
      assert At(s, Flip(y, k)) == RowsAmp(t, pi, x, n + 1, k, Flip(y, k));
      RowStarts(t, pi, x, n + 1, k, y);
    }
  }

  lemma RowAdvances(t: Trig, pi: real, n: nat, x: nat, k: nat, m: nat)
    requires IsCircle(t, pi) && k < m
    ensures ApplyCphase(RowState(t, pi, n, x, k, m), k, m, Phase(t, Fraction(pi, m - k)))
         == RowState(t, pi, n, x, k, m + 1)
  {
    var s, next := RowState(t, pi, n, x, k, m), RowState(t, pi, n, x, k, m + 1);
    var r := ApplyCphase(s, k, m, Phase(t, Fraction(pi, m - k)));
    forall y: nat | y < Pow2(n)
      ensures r[y] == next[y]
    {
      RowContinues(t, pi, x, n + 1, k, m, y);
    }
  }

  lemma RowFinishes(t: Trig, pi: real, n: nat, x: nat, k: nat)
    ensures RowState(t, pi, n, x, k, n + 1) == RowsState(t, pi, n, x, k + 1)
  {
    var s, next := RowState(t, pi, n, x, k, n + 1), RowsState(t, pi, n, x, k + 1);
    forall y: nat | y < Pow2(n)
      ensures s[y] == next[y]
    {
      assert RowTheta(pi, x, n + 1, k, n + 1, y) == Theta(pi, x, y, n + 1, k + 1);
    }
  }

  lemma BasisIsRows(t: Trig, pi: real, n: nat, x: nat)
    requires IsCircle(t, pi)
    ensures Basis(n, x) == RowsState(t, pi, n, x, 0)
  {
    forall y: nat | y < Pow2(n)
      ensures Basis(n, x)[y] == RowsAmp(t, pi, x, n + 1, 0, y)
    {
      BasisAmp(t, pi, x, n + 1, y);
    }
  }

  lemma BasisAmp(t: Trig, pi: real, x: nat, e: nat, y: nat)
    requires IsCircle(t, pi)
    ensures RowsAmp(t, pi, x, e, 0, y) == if y == x then ONE else ZERO
  {
    assert Power(t.invSqrt2, 0) == 1.0;
    assert Phase(t, Theta(pi, x, y, e, 0)) == ONE;
  }

  lemma FirstGateOfRow(t: Trig, pi: real, k: nat, s: seq<Complex>)
    requires HasMask(k)
    ensures ApplyGates(t, s, RowGates(pi, k, k + 1)) == ApplyPair(s, k, HMatrix(t))
  {
    GatesAct(t, k, 0, 0.0, s);
    assert [H(k)][1..] == [];
    assert ApplyGates(t, s, [H(k)]) == ApplyGate(t, s, H(k));
  }

  lemma NextGateOfRow(t: Trig, pi: real, k: nat, m: nat, s: seq<Complex>)
    requires k < m && HasMask(m)
    ensures ApplyGates(t, s, RowGates(pi, k, m + 1))
         == ApplyCphase(ApplyGates(t, s, RowGates(pi, k, m)), k, m, Phase(t, Fraction(pi, m - k)))
  {
    var angle := pi / Pow2(m - k) as real;
    FractionIsQuotient(pi, m - k);
    ApplyOne(t, s, RowGates(pi, k, m), CPhase(k, m, angle));
    GatesAct(t, k, m, angle, ApplyGates(t, s, RowGates(pi, k, m)));
  }

  /** From s the gates lead to r. */
  ghost predicate Yields(t: Trig, s: seq<Complex>, gates: seq<Gate>, r: seq<Complex>) {
    ApplyGates(t, s, gates) == r
  }

  /** Running two gate lists in turn. */
  lemma {:induction false} Compose(t: Trig, s: seq<Complex>, a: seq<Gate>, mid: seq<Complex>, b: seq<Gate>,
                                   end: seq<Complex>)
    requires Yields(t, s, a, mid) && Yields(t, mid, b, end)
    ensures Yields(t, s, a + b, end)
  {
    ApplyGatesAppend(t, s, a, b);
  }

  lemma {:induction false} FirstStep(t: Trig, pi: real, n: nat, x: nat, k: nat)
    requires IsCircle(t, pi) && k < n < INT_BITS
    ensures Yields(t, RowsState(t, pi, n, x, k), RowGates(pi, k, k + 1), RowState(t, pi, n, x, k, k + 1))
  {
    FirstGateOfRow(t, pi, k, RowsState(t, pi, n, x, k));
    RowBegins(t, pi, n, x, k);
  }

  lemma NextStep(t: Trig, pi: real, n: nat, x: nat, k: nat, m: nat, s: seq<Complex>)
    requires IsCircle(t, pi) && k < m && HasMask(m) && Yields(t, s, RowGates(pi, k, m), RowState(t, pi, n, x, k, m))
    ensures Yields(t, s, RowGates(pi, k, m + 1), RowState(t, pi, n, x, k, m + 1))
  {
    NextGateOfRow(t, pi, k, m, s);
    RowAdvances(t, pi, n, x, k, m);
  }

  lemma {:induction false} RowRuns(t: Trig, pi: real, n: nat, x: nat, k: nat, f: nat)
    requires IsCircle(t, pi) && k < n < INT_BITS && k < f <= n + 1
    ensures Yields(t, RowsState(t, pi, n, x, k), RowGates(pi, k, f), RowState(t, pi, n, x, k, f))
    decreases f
  {
    if f == k + 1 {
      FirstStep(t, pi, n, x, k);
    } else {
      RowRuns(t, pi, n, x, k, f - 1);
      NextStep(t, pi, n, x, k, f - 1, RowsState(t, pi, n, x, k));
    }
  }

  lemma NextRow(t: Trig, pi: real, n: nat, x: nat, k: nat)
    requires IsCircle(t, pi) && k < n < INT_BITS
    ensures Yields(t, RowsState(t, pi, n, x, k), RowGates(pi, k, n + 1), RowsState(t, pi, n, x, k + 1))
  {
    RowRuns(t, pi, n, x, k, n + 1);
    RowFinishes(t, pi, n, x, k);
  }

  /** One more row, between any states. */
  lemma OneRowMore(t: Trig, pi: real, e: nat, k: nat, s: seq<Complex>, mid: seq<Complex>, end: seq<Complex>)
    requires Yields(t, s, Rows(pi, e, k), mid) && Yields(t, mid, RowGates(pi, k, e), end)
    ensures Yields(t, s, Rows(pi, e, k + 1), end)
  {
    Compose(t, s, Rows(pi, e, k), mid, RowGates(pi, k, e), end);
  }

  lemma {:induction false} NoRows(t: Trig, pi: real, n: nat, x: nat)
    requires IsCircle(t, pi)
    ensures Yields(t, Basis(n, x), Rows(pi, n + 1, 0), RowsState(t, pi, n, x, 0))
  {
    BasisIsRows(t, pi, n, x);
  }

  lemma RowAfterRows(t: Trig, pi: real, n: nat, x: nat, k: nat)
    requires IsCircle(t, pi) && k < n < INT_BITS
    requires Yields(t, Basis(n, x), Rows(pi, n + 1, k), RowsState(t, pi, n, x, k))
    ensures Yields(t, Basis(n, x), Rows(pi, n + 1, k + 1), RowsState(t, pi, n, x, k + 1))
  {
    NextRow(t, pi, n, x, k);
    OneRowMore(t, pi, n + 1, k, Basis(n, x), RowsState(t, pi, n, x, k), RowsState(t, pi, n, x, k + 1));
  }

  lemma {:induction false} RowsRun(t: Trig, pi: real, n: nat, x: nat, k: nat)
    requires IsCircle(t, pi) && k <= n < INT_BITS
    ensures Yields(t, Basis(n, x), Rows(pi, n + 1, k), RowsState(t, pi, n, x, k))
  {
    if k == 0 {
      NoRows(t, pi, n, x);
    } else {
      RowsRun(t, pi, n, x, k - 1);
      RowAfterRows(t, pi, n, x, k - 1);
    }
  }

  // ---------- from row angles to the Fourier kernel ----------

  /** 2 pi times the binary fraction 0.x0 x1 ... x(m-1). */
  function Turn(pi: real, x: nat, m: nat): real {
    if m == 0 then 0.0 else Turn(pi, x, m - 1) + if Bit(x, m - 1) == 1 then Fraction(pi, m - 1) else 0.0
  }

  /** 2^j times the turn of x is a whole number of full turns plus the angle of row j. */
  lemma {:induction false} TurnIsRowAngle(pi: real, x: nat, j: nat, m: nat)
    requires j <= m
    ensures Times(Pow2(j), Turn(pi, x, m)) == Times(Rev(x, j), pi + pi) + RowAngle(pi, x, j, m)
    decreases m
  {
    if m == j {
      WholeTurns(pi, x, j);
    } else {
      TurnIsRowAngle(pi, x, j, m - 1);
      if Bit(x, m - 1) == 1 {
        FractionScales(pi, m - 1, j);
        TimesOfSum(Pow2(j), Turn(pi, x, m - 1), Fraction(pi, m - 1));
      }
    }
  }

  lemma {:induction false} WholeTurns(pi: real, x: nat, j: nat)
    ensures Times(Pow2(j), Turn(pi, x, j)) == Times(Rev(x, j), pi + pi)
  {
    if j == 0 {
      assert Times(1, 0.0) == 0.0;
    } else {
      var p, u, r := Pow2(j - 1), Turn(pi, x, j - 1), Rev(x, j - 1);
      WholeTurns(pi, x, j - 1);
      TimesAdd(p, p, u);
      TimesAdd(r, r, pi + pi);
      if Bit(x, j - 1) == 1 {
        var f := Fraction(pi, j - 1);
        TimesOfSum(Pow2(j), u, f);
        FractionScales(pi, j - 1, j - 1);
        TimesAdd(p, p, f);
        assert Rev(x, j) == r + r + 1;
        assert Times(r + r + 1, pi + pi) == Times(r + r, pi + pi) + (pi + pi);
      } else {
        assert Rev(x, j) == r + r;
      }
    }
  }

  lemma {:induction false} PhaseOfBit(t: Trig, pi: real, x: nat, j: nat, m: nat)
    requires IsCircle(t, pi) && j <= m
    ensures Phase(t, Times(Pow2(j), Turn(pi, x, m))) == Phase(t, RowAngle(pi, x, j, m))
  {
    TurnIsRowAngle(pi, x, j, m);
    FullTurns(t, pi, Rev(x, j), RowAngle(pi, x, j, m));
  }

  lemma SumPhases(t: Trig, pi: real, a: real, b: real, c: real, d: real)
    requires IsCircle(t, pi) && Phase(t, a) == Phase(t, c) && Phase(t, b) == Phase(t, d)
    ensures Phase(t, a + b) == Phase(t, c + d)
  {
    AngleSum(t, pi, a, b);
    AngleSum(t, pi, c, d);
  }

  lemma {:induction false} PhaseOfTheta(t: Trig, pi: real, x: nat, z: nat, m: nat, k: nat)
    requires IsCircle(t, pi) && k <= m
    ensures Phase(t, Times(Low(z, k), Turn(pi, x, m))) == Phase(t, Theta(pi, x, z, m, k))
    decreases k
  {
    if k > 0 {
      PhaseOfTheta(t, pi, x, z, m, k - 1);
      PhaseOfNextBit(t, pi, x, z, m, k - 1);
    }
  }

  lemma PhaseOfNextBit(t: Trig, pi: real, x: nat, z: nat, m: nat, k: nat)
    requires IsCircle(t, pi) && k < m
    requires Phase(t, Times(Low(z, k), Turn(pi, x, m))) == Phase(t, Theta(pi, x, z, m, k))
    ensures Phase(t, Times(Low(z, k + 1), Turn(pi, x, m))) == Phase(t, Theta(pi, x, z, m, k + 1))
  {
    if Bit(z, k) == 1 {
      var u := Turn(pi, x, m);
      assert Low(z, k + 1) == Low(z, k) + Pow2(k);
      PhaseOfBit(t, pi, x, k, m);
      TimesAdd(Low(z, k), Pow2(k), u);
      SumPhases(t, pi, Times(Low(z, k), u), Times(Pow2(k), u), Theta(pi, x, z, m, k), RowAngle(pi, x, k, m));
    } else {
      assert Low(z, k + 1) == Low(z, k);
    }
  }

  lemma {:induction false} TargetNAddsNothing(pi: real, x: nat, y: nat, n: nat, k: nat)
    requires x < Pow2(n) && k <= n
    ensures Theta(pi, x, y, n + 1, k) == Theta(pi, x, y, n, k)
  {
    HighBitClear(x, n, n);
    if k > 0 {
      TargetNAddsNothing(pi, x, y, n, k - 1);
      assert RowAngle(pi, x, k - 1, n + 1) == RowAngle(pi, x, k - 1, n);
    }
  }

  /** The Fourier kernel: x y steps of angle 2 pi / 2^n. */
  function Kernel(pi: real, n: nat, x: nat, y: nat): real {
    Times(x * y, Fraction(pi + pi, n))
  }

  lemma {:induction false} KernelMeaning(pi: real, n: nat, x: nat, y: nat)
    ensures Kernel(pi, n, x, y) == (x * y) as real * (2.0 * pi / Pow2(n) as real)
  {
    TimesIsProduct(x * y, Fraction(pi + pi, n));
    FractionIsQuotient(pi + pi, n);
    assert pi + pi == 2.0 * pi;
  }

  lemma {:induction false} FractionOfDouble(pi: real, m: nat)
    ensures Fraction(pi + pi, m + 1) == Fraction(pi, m)
  {
    if m > 0 {
      FractionOfDouble(pi, m - 1);
    }
  }

  lemma {:induction false} TurnIsTimes(pi: real, x: nat, m: nat)
    ensures Turn(pi, x, m) == Times(Rev(x, m), Fraction(pi + pi, m))
  {
    if m > 0 {
      var r, f := Rev(x, m - 1), Fraction(pi + pi, m);
      TurnIsTimes(pi, x, m - 1);
      FractionOfDouble(pi, m - 1);
      assert Fraction(pi + pi, m - 1) == f + f;
      TimesOfSum(r, f, f);
      TimesAdd(r, r, f);
      if Bit(x, m - 1) == 1 {
        assert Rev(x, m) == r + r + 1;
        assert Times(r + r + 1, f) == Times(r + r, f) + f;
      } else {
        assert Rev(x, m) == r + r;
      }
    }
  }

  lemma {:induction false} TimesOfTimes(z: nat, r: nat, f: real)
    ensures Times(z, Times(r, f)) == Times(r * z, f)
  {
    if z > 0 {
      TimesOfTimes(z - 1, r, f);
      assert r * z == r * (z - 1) + r;
      TimesAdd(r * (z - 1), r, f);
    }
  }

  lemma {:induction false} TurnIsKernel(pi: real, n: nat, x: nat, z: nat)
    ensures Times(z, Turn(pi, x, n)) == Kernel(pi, n, Rev(x, n), z)
  {
    TurnIsTimes(pi, x, n);
    TimesOfTimes(z, Rev(x, n), Fraction(pi + pi, n));
  }

  lemma {:induction false} RowsAreFourier(t: Trig, pi: real, n: nat, x: nat, z: nat)
    requires IsCircle(t, pi) && x < Pow2(n) && z < Pow2(n)
    ensures RowsAmp(t, pi, x, n + 1, n, z) == Mul(Real(Power(t.invSqrt2, n)), Phase(t, Kernel(pi, n, Rev(x, n), z)))
  {
    HighIsZero(x, n);
    HighIsZero(z, n);
    TargetNAddsNothing(pi, x, z, n, n);
    LowIsAll(z, n);
    TurnIsKernel(pi, n, x, z);
    PhaseOfTheta(t, pi, x, z, n, n);
  }

  /** BuildQFT sends basis state x to the Fourier vector of x: amplitude y is
      (1/sqrt 2)^n exp(2 pi i X Y / 2^n), where X and Y are x and y read with qubit 0 as the top bit. */
  lemma {:induction false} QftIsFourier(t: Trig, pi: real, n: nat, x: nat, y: nat)
    requires IsCircle(t, pi) && 0 < n < INT_BITS && x < Pow2(n) && y < Pow2(n)
    ensures ApplyGates(t, Basis(n, x), QftGates(pi, n))[y]
         == Mul(Real(Power(t.invSqrt2, n)), Phase(t, Kernel(pi, n, Rev(x, n), Rev(y, n))))
  {
    var r := ApplyGates(t, Basis(n, x), Rows(pi, n + 1, n));
    var z := Rev(y, n);
    ApplyGatesAppend(t, Basis(n, x), Rows(pi, n + 1, n), Swaps(n, n / 2));
    RowsRun(t, pi, n, x, n);
    SwapsPermute(t, n, r, n / 2, y);
    SwapsReverse(n, y);
    RevBound(y, n);
    RowsAreFourier(t, pi, n, x, z);
  }
}
