/** The circuit builders, as loops and as gate lists, and the uniform state of the Grover skeleton. */
module Builders {
  import opened Bits
  import opened ComplexNumbers
  import opened Gates
  import opened Circuits

  function H(q: nat): Gate { Gate("H", [q], []) }

  function CPhase(c: nat, t: nat, angle: real): Gate { Gate("CPHASE", [c, t], [angle]) }

  function SwapGate(a: nat, b: nat): Gate { Gate("SWAP", [a, b], []) }

  const DIFFUSION := Gate("DIFFUSION", [], [])

  /** For qubits whose masks are positive numbers. */
  lemma NamesDecode(t: Trig, a: nat, b: nat, angle: real)
    requires HasMask(a) && HasMask(b)
    ensures Decode(t, H(a)) == Known(Single(a, HMatrix(t)))
    ensures Decode(t, CPhase(a, b, angle)) == Known(Cphase(a, b, angle))
    ensures LowMask(a) && LowMask(b) ==> Decode(t, SwapGate(a, b)) == Known(Swap(a, b))
    ensures Decode(t, DIFFUSION) == Known(Diffusion)
    ensures !Erases(H(a)) && !Erases(CPhase(a, b, angle)) && !Erases(SwapGate(a, b)) && !Erases(DIFFUSION)
  {
    assert ToUpper("H") == "H";
    assert ToUpper("CPHASE") == "CPHASE";
    assert ToUpper("SWAP") == "SWAP";
    assert ToUpper("DIFFUSION") == "DIFFUSION";
  }

  lemma GatesAct(t: Trig, a: nat, b: nat, angle: real, s: seq<Complex>)
    requires HasMask(a) && HasMask(b)
    ensures ApplyGate(t, s, H(a)) == ApplyPair(s, a, HMatrix(t))
    ensures ApplyGate(t, s, CPhase(a, b, angle)) == ApplyCphase(s, a, b, Phase(t, angle))
    ensures LowMask(a) && LowMask(b) ==> ApplyGate(t, s, SwapGate(a, b)) == ApplySwap(s, a, b)
  {
    NamesDecode(t, a, b, angle);
  }

  lemma HWellFormed(t: Trig, a: nat, n: nat)
    requires a < n < INT_BITS
    ensures AllWellFormed(t, [H(a)], n)
  {
    NamesDecode(t, a, a, 0.0);
  }

  lemma CPhaseWellFormed(t: Trig, a: nat, b: nat, angle: real, n: nat)
    requires HasMask(a) && HasMask(b)
    ensures AllWellFormed(t, [CPhase(a, b, angle)], n)
  {
    NamesDecode(t, a, b, angle);
  }

  lemma SwapWellFormed(t: Trig, a: nat, b: nat, n: nat)
    requires a < n && b < n && n < INT_BITS
    ensures AllWellFormed(t, [SwapGate(a, b)], n)
  {
    NamesDecode(t, a, b, 0.0);
  }

  lemma WellFormedMore(t: Trig, x: seq<Gate>, y: seq<Gate>, n: nat)
    requires AllWellFormed(t, x, n) && AllWellFormed(t, y, n)
    ensures AllWellFormed(t, x + y, n)
  {
  }

  // ---------- Grover skeleton ----------

  function Hadamards(k: nat): seq<Gate> {
    if k == 0 then [] else Hadamards(k - 1) + [H(k - 1)]
  }

  function GroverGates(n: int): seq<Gate> {
    Hadamards(if n < 0 then 0 else n) + [DIFFUSION]
  }

  lemma {:induction false} HadamardsInTurn(k: nat)
    ensures |Hadamards(k)| == k && forall q :: 0 <= q < k ==> Hadamards(k)[q] == Gate("H", [q], [])
  {
    if k > 0 {
      HadamardsInTurn(k - 1);
    }
  }

  method BuildGroverSkeleton(n: int, target: int) returns (g: seq<Gate>)
    ensures g == GroverGates(n)
    ensures |g| == 1 + (if n >= 0 then n else 0) && g[|g| - 1] == Gate("DIFFUSION", [], [])
    ensures forall q :: 0 <= q < |g| - 1 ==> g[q] == Gate("H", [q], [])
  {
    g := [];
    var i := 0;
    while i < n
      invariant 0 <= i && (n < 0 ==> i == 0) && (n >= 0 ==> i <= n)
      invariant g == Hadamards(i)
    {
      g := g + [H(i)];
      i := i + 1;
    }
    HadamardsInTurn(i);
    g := g + [DIFFUSION];
  }

  function Power(h: real, k: nat): real {
    if k == 0 then 1.0 else h * Power(h, k - 1)
  }

  /** Equal amplitude on the first 2^j basis states, nothing elsewhere. */
  function Uniform(n: nat, j: nat, h: real): (s: seq<Complex>)
    ensures |s| == Pow2(n)
  {
    seq(Pow2(n), i requires 0 <= i < Pow2(n) => if i < Pow2(j) then Real(Power(h, j)) else ZERO)
  }

  lemma HadamardSpreads(n: nat, j: nat, h: real)
    requires j < n
    ensures ApplyPair(Uniform(n, j, h), j, Hadamard(h)) == Uniform(n, j + 1, h)
  {
    forall i: nat | i < Pow2(n)
      ensures PairAt(Uniform(n, j, h), j, Hadamard(h), i) == Uniform(n, j + 1, h)[i]
    {
      HadamardSpreadsAt(n, j, h, i);
    }
  }

  lemma {:induction false} HadamardSpreadsAt(n: nat, j: nat, h: real, i: nat)
    requires j < n && i < Pow2(n)
    ensures PairAt(Uniform(n, j, h), j, Hadamard(h), i) == Uniform(n, j + 1, h)[i]
  {
    var s, f, p := Uniform(n, j, h), Flip(i, j), Power(h, j);
    FlipBound(i, j, n);
    FlipBound(i, j, j + 1);
    BitOfFlip(i, j, j);
    HadamardOnOne(h, p);
    if i < Pow2(j + 1) {
      TopBit(i, j);
      TopBit(f, j);
      PowerStep(h, j);
      assert Uniform(n, j + 1, h)[i] == Real(Power(h, j + 1));
      if Bit(i, j) == 0 {
        assert s[i] == Real(p) && s[f] == ZERO;
      } else {
        assert s[f] == Real(p) && s[i] == ZERO;
      }
    } else {
      assert s[i] == ZERO && s[f] == ZERO;
    }
  }

  lemma PowerStep(h: real, j: nat)
    ensures Power(h, j + 1) == h * Power(h, j)
  {
  }

  lemma HadamardOnOne(h: real, a: real)
    ensures Upper(Hadamard(h), Real(a), ZERO) == Real(h * a)
    ensures Lower(Hadamard(h), Real(a), ZERO) == Real(h * a)
    ensures Upper(Hadamard(h), ZERO, ZERO) == ZERO
    ensures Lower(Hadamard(h), ZERO, ZERO) == ZERO
  {
  }

  lemma GroundIsUniform(n: nat, h: real)
    ensures Ground(n) == Uniform(n, 0, h)
  {
    assert Pow2(0) == 1;
    assert Real(Power(h, 0)) == ONE;
    forall i: nat | i < Pow2(n)
      ensures Ground(n)[i] == if i < Pow2(0) then Real(Power(h, 0)) else ZERO
    {
    }
  }

  lemma OneHadamardMore(t: Trig, s: seq<Complex>, k: nat, r: seq<Complex>)
    requires HasMask(k) && ApplyGates(t, s, Hadamards(k)) == r
    ensures ApplyGates(t, s, Hadamards(k + 1)) == ApplyPair(r, k, HMatrix(t))
  {
    ApplyOne(t, s, Hadamards(k), H(k));
    GatesAct(t, k, 0, 0.0, r);
  }

  lemma {:induction false} HadamardsSpread(t: Trig, n: nat, k: nat)
    requires k <= n < INT_BITS
    ensures ApplyGates(t, Ground(n), Hadamards(k)) == Uniform(n, k, t.invSqrt2)
  {
    if k == 0 {
      GroundIsUniform(n, t.invSqrt2);
    } else {
      HadamardsSpread(t, n, k - 1);
      OneHadamardMore(t, Ground(n), k - 1, Uniform(n, k - 1, t.invSqrt2));
      HadamardSpreads(n, k - 1, t.invSqrt2);
    }
  }

  lemma {:induction false} ApplyOne(t: Trig, s: seq<Complex>, gates: seq<Gate>, g: Gate)
    ensures ApplyGates(t, s, gates + [g]) == ApplyGate(t, ApplyGates(t, s, gates), g)
  {
    ApplyGatesAppend(t, s, gates, [g]);
    assert [g][1..] == [];
  }

  lemma {:induction false} SumOfEqual(s: seq<Complex>, z: Complex)
    requires forall i :: 0 <= i < |s| ==> s[i] == z
    ensures SumComplex(s) == Complex(|s| as real * z.re, |s| as real * z.im)
  {
    if s != [] {
      var k := |s| - 1;
      SumOfEqual(s[..k], z);
      assert |s| as real == k as real + 1.0;
      Factor(k as real, 1.0, z.re);
      Factor(k as real, 1.0, z.im);
    }
  }

  lemma DivideBack(n: real, x: real)
    requires n > 0.0
    ensures n * x / n == x
  {
  }

  /** Inversion about the mean does nothing to a state of equal amplitudes. */
  lemma DiffuseEqual(s: seq<Complex>, z: Complex)
    requires forall i :: 0 <= i < |s| ==> s[i] == z
    ensures Diffuse(s) == s
  {
    if s != [] {
      SumOfEqual(s, z);
      DivideBack(|s| as real, z.re);
      DivideBack(|s| as real, z.im);
      assert Mean(s) == z;
      assert Sub(Mul(Real(2.0), z), z) == z;
    }
  }

  lemma {:induction false} HadamardsWellFormed(t: Trig, n: nat, k: nat)
    requires k <= n < INT_BITS
    ensures AllWellFormed(t, Hadamards(k), n)
  {
    if k > 0 {
      HadamardsWellFormed(t, n, k - 1);
      NamesDecode(t, k - 1, 0, 0.0);
    }
  }

  /** The Grover skeleton ends with amplitude (1/sqrt 2)^n on every basis state. */
  lemma {:induction false} GroverIsUniform(t: Trig, n: nat, done: nat -> bool)
    requires 0 < n <= MAX_QUBITS && forall i: nat :: !done(i)
    ensures Run(t, n, GroverGates(n), done) == State(seq(Pow2(n), _ => Real(Power(t.invSqrt2, n))))
  {
    var gates := GroverGates(n);
    var uniform := seq(Pow2(n), _ => Real(Power(t.invSqrt2, n)));
    HadamardsWellFormed(t, n, n);
    NamesDecode(t, 0, 0, 0.0);
    RunIsApply(t, n, Ground(n), gates, done, |gates|);
    assert gates[..|gates|] == gates;
    HadamardsSpread(t, n, n);
    ApplyOne(t, Ground(n), Hadamards(n), DIFFUSION);
    assert Uniform(n, n, t.invSqrt2) == uniform;
    DiffuseEqual(uniform, Real(Power(t.invSqrt2, n)));
  }

  // ---------- quantum Fourier transform ----------

  /** H on qubit j, then its controlled phases with targets below e. */
  function RowGates(pi: real, j: nat, e: nat): seq<Gate> {
    if e <= j + 1 then [H(j)] else RowGates(pi, j, e - 1) + [CPhase(j, e - 1, pi / Pow2(e - 1 - j) as real)]
  }

  /** The first k rows of the n-qubit circuit, with targets below e. */
  function Rows(pi: real, e: nat, k: nat): seq<Gate> {
    if k == 0 then [] else Rows(pi, e, k - 1) + RowGates(pi, k - 1, e)
  }

  function Swaps(n: nat, k: nat): seq<Gate>
    requires k <= n
  {
    if k == 0 then [] else Swaps(n, k - 1) + [SwapGate(k - 1, n - k)]
  }

  function QftGates(pi: real, n: int): seq<Gate> {
    if n <= 0 then [] else Rows(pi, n + 1, n) + Swaps(n, n / 2)
  }

  lemma RowGrows(pi: real, before: seq<Gate>, j: nat, e: nat)
    requires e > j
    ensures before + RowGates(pi, j, e + 1)
         == before + RowGates(pi, j, e) + [CPhase(j, e, pi / Pow2(e - j) as real)]
  {
    var last := CPhase(j, e, pi / Pow2(e - j) as real);
    assert RowGates(pi, j, e + 1) == RowGates(pi, j, e) + [last];
  }

  method BuildQft(pi: real, n: int) returns (gates: seq<Gate>)
    ensures gates == QftGates(pi, n)
  {
    gates := [];
    if n <= 0 {
      return;
    }
    var j := 0;
    while j < n
      invariant 0 <= j <= n
      invariant gates == Rows(pi, n + 1, j)
    {
      ghost var before := gates;
      gates := gates + [H(j)];
      assert gates == before + RowGates(pi, j, j + 1);
      var k := 2;
      while j + k - 1 < n + 1
        invariant 2 <= k <= n - j + 2
        invariant gates == before + RowGates(pi, j, j + k - 1)
      {
        var target := j + k - 1;
        var angle := pi / Pow2(k - 1) as real;
        RowGrows(pi, before, j, j + k - 1);
        gates := gates + [CPhase(j, target, angle)];
        k := k + 1;
      }
      j := j + 1;
    }
    var i := 0;
    while i < n / 2
      invariant 0 <= i <= n / 2
      invariant gates == Rows(pi, n + 1, n) + Swaps(n, i)
    {
      gates := gates + [SwapGate(i, n - i - 1)];
      i := i + 1;
    }
  }

  lemma {:induction false} RowWellFormed(t: Trig, pi: real, n: nat, j: nat, e: nat)
    requires j < n < INT_BITS && e <= n + 1
    ensures AllWellFormed(t, RowGates(pi, j, e), n)
  {
    if e > j + 1 {
      var angle := pi / Pow2(e - 1 - j) as real;
      RowWellFormed(t, pi, n, j, e - 1);
      CPhaseWellFormed(t, j, e - 1, angle, n);
      WellFormedMore(t, RowGates(pi, j, e - 1), [CPhase(j, e - 1, angle)], n);
    } else {
      HWellFormed(t, j, n);
    }
  }

  lemma {:induction false} RowsWellFormed(t: Trig, pi: real, n: nat, e: nat, k: nat)
    requires k <= n < INT_BITS && e <= n + 1
    ensures AllWellFormed(t, Rows(pi, e, k), n)
  {
    if k > 0 {
      RowsWellFormed(t, pi, n, e, k - 1);
      RowWellFormed(t, pi, n, k - 1, e);
      WellFormedMore(t, Rows(pi, e, k - 1), RowGates(pi, k - 1, e), n);
    }
  }

  lemma SwapsGrow(n: nat, k: nat)
    requires 0 < k <= n
    ensures Swaps(n, k) == Swaps(n, k - 1) + [SwapGate(k - 1, n - k)]
  {
  }

  lemma {:induction false} SwapsWellFormed(t: Trig, n: nat, k: nat) returns (gates: seq<Gate>)
    requires k <= n < INT_BITS
    ensures gates == Swaps(n, k) && AllWellFormed(t, gates, n)
  {
    if k == 0 {
      gates := [];
    } else {
      var front := SwapsWellFormed(t, n, k - 1);
      SwapWellFormed(t, k - 1, n - k, n);
      gates := front + [SwapGate(k - 1, n - k)];
      WellFormedMore(t, front, [SwapGate(k - 1, n - k)], n);
      SwapsGrow(n, k);
    }
  }

  /** No gate of the Fourier circuit indexes outside the state, although some name qubit n. */
  lemma QftWellFormed(t: Trig, pi: real, n: nat)
    requires n < INT_BITS
    ensures AllWellFormed(t, QftGates(pi, n), n)
  {
    if n > 0 {
      RowsWellFormed(t, pi, n, n + 1, n);
      var swaps := SwapsWellFormed(t, n, n / 2);
      WellFormedMore(t, Rows(pi, n + 1, n), Swaps(n, n / 2), n);
    }
  }

  /** Drops the controlled phases onto qubit n. */
  function WithoutTarget(gates: seq<Gate>, n: nat): seq<Gate> {
    if gates == [] then []
    else
      var g := gates[0];
      (if KindOf(g) == KCphase && |g.qubits| == 2 && g.qubits[1] == n then [] else [g]) + WithoutTarget(gates[1..], n)
  }

  lemma {:induction false} HighTargetIsIdentity(s: seq<Complex>, n: nat, c: nat, t: nat, phase: Complex)
    requires |s| == Pow2(n) && t >= n
    ensures ApplyCphase(s, c, t, phase) == s
  {
    forall i: nat | i < |s|
      ensures Bit(i, t) == 0
    {
      HighBitClear(i, t, n);
    }
  }

  lemma {:induction false} PhaseOntoN(t: Trig, n: nat, s: seq<Complex>, g: Gate)
    requires |s| == Pow2(n) && n < INT_BITS && KindOf(g) == KCphase && |g.qubits| == 2 && g.qubits[1] == n
    ensures ApplyGate(t, s, g) == s
  {
    HighTargetIsIdentity(s, n, if HasMask(g.qubits[0]) then g.qubits[0] else n, n, Phase(t, Param(g)));
  }

  /** On n qubits the controlled phases onto qubit n can be left out of any circuit. */
  lemma {:induction false} TargetNCanBeDropped(t: Trig, n: nat, s: seq<Complex>, gates: seq<Gate>)
    requires |s| == Pow2(n) && n < INT_BITS
    ensures ApplyGates(t, s, WithoutTarget(gates, n)) == ApplyGates(t, s, gates)
    decreases gates
  {
    if gates != [] {
      var g, rest := gates[0], gates[1..];
      var s1 := ApplyGate(t, s, g);
      TargetNCanBeDropped(t, n, s1, rest);
      if KindOf(g) == KCphase && |g.qubits| == 2 && g.qubits[1] == n {
        PhaseOntoN(t, n, s, g);
        assert [] + WithoutTarget(rest, n) == WithoutTarget(rest, n);
      } else {
        assert ([g] + WithoutTarget(rest, n))[1..] == WithoutTarget(rest, n);
      }
    }
  }
}
