/** Gates as functions on amplitude sequences, and what each of them keeps. */
module Gates {
  import opened Bits
  import opened ComplexNumbers

  /** The mathematical functions the simulator calls, with the only laws the proofs use. */
  datatype Trig = Trig(cos: real -> real, sin: real -> real, invSqrt2: real)

  ghost predicate IsTrig(t: Trig) {
    && 2.0 * t.invSqrt2 * t.invSqrt2 == 1.0
    && (forall x {:trigger t.cos(x)} {:trigger t.sin(x)} :: t.cos(x) * t.cos(x) + t.sin(x) * t.sin(x) == 1.0)
    && (forall x {:trigger t.cos(-x)} :: t.cos(-x) == t.cos(x))
    && (forall x {:trigger t.sin(-x)} :: t.sin(-x) == -t.sin(x))
  }

  /** One entry of a circuit. */
  datatype Gate = Gate(name: string, qubits: seq<int>, params: seq<real>)

  const INT_BITS := 64

  /** The mask `1 << uint(q)` is not zero: a negative q converts to a shift far beyond the word. */
  predicate HasMask(q: int) { 0 <= q < INT_BITS }

  /** Nor is it the sign bit. */
  predicate LowMask(q: int) { 0 <= q < INT_BITS - 1 }

  /** What a gate does once its name, its arity and the masks of its qubits are known. `Scale` is the effect of a pair
      loop, or a phase loop, whose mask is zero: every index is its own partner. */
  datatype Op =
    | Scale(factor: Complex)
    | Single(qubit: nat, matrix: Matrix)
    | Cnot(control: nat, target: nat)
    | Cphase(control: nat, target: nat, angle: real)
    | Swap(a: nat, b: nat)
    | Diffusion
    | Ignored

  datatype Decoded = Known(op: Op) | BadArity

  function ToUpper(s: string): (r: string) {
    seq(|s|, i requires 0 <= i < |s| => UpperChar(s[i]))
  }

  /** The upper-case form of the characters whose upper case is an ASCII letter. */
  function UpperChar(c: char): char {
    if 'a' <= c <= 'z' then c - 'a' + 'A'
    else if c == '\U{0131}' then 'I'
    else if c == '\U{017F}' then 'S'
    else c
  }

  function Param(g: Gate): real {
    if g.params == [] then 0.0 else g.params[0]
  }

  function Hadamard(h: real): Matrix {
    Matrix(Real(h), Real(h), Real(h), Real(-h))
  }

  function HMatrix(t: Trig): Matrix {
    Hadamard(t.invSqrt2)
  }

  const X_MATRIX := Matrix(ZERO, ONE, ONE, ZERO)
  const Z_MATRIX := Matrix(ONE, ZERO, ZERO, Real(-1.0))

  function Rx(c: real, sn: real): Matrix {
    Matrix(Complex(c, 0.0), Complex(0.0, sn), Complex(0.0, sn), Complex(c, 0.0))
  }

  function Rz(c: real, sn: real): Matrix {
    Matrix(Complex(c, sn), ZERO, ZERO, Complex(c, -sn))
  }

  function RxMatrix(t: Trig, theta: real): Matrix {
    Rx(t.cos(theta / 2.0), -t.sin(theta / 2.0))
  }

  function RzMatrix(t: Trig, phi: real): Matrix {
    Rz(t.cos(phi / 2.0), -t.sin(phi / 2.0))
  }

  datatype Kind = KH | KX | KZ | KRX | KRZ | KCnot | KCphase | KSwap | KDiffusion | KOther

  /** The cases of the interpreter, by upper-case name. */
  const KINDS: map<string, Kind> :=
    map["H" := KH, "X" := KX, "Z" := KZ, "RX" := KRX, "RZ" := KRZ, "CNOT" := KCnot, "CPHASE" := KCphase,
        "SWAP" := KSwap, "DIFFUSION" := KDiffusion]

  function KindOf(g: Gate): Kind {
    var name := ToUpper(g.name);
    if name in KINDS then KINDS[name] else KOther
  }

  function DecodeSingle(g: Gate, m: Matrix): Decoded {
    if |g.qubits| != 1 then BadArity else Known(SingleOn(g.qubits[0], m))
  }

  function SingleOn(q: int, m: Matrix): Op {
    if HasMask(q) then Single(q, m) else Scale(Add(m.m10, m.m11))
  }

  /** A zero mask is never found set, and setting it changes no index. */
  function CnotOn(c: int, t: int): Op {
    if HasMask(c) && HasMask(t) then Cnot(c, t) else Ignored
  }

  /** A zero mask is always found set here: the other qubit alone decides. */
  function CphaseOn(trig: Trig, c: int, t: int, angle: real): Op {
    if HasMask(c) then Cphase(c, if HasMask(t) then t else c, angle)
    else if HasMask(t) then Cphase(t, t, angle)
    else Scale(Phase(trig, angle))
  }

  /** The bits of an index at the sign and beyond are clear, and what it would be exchanged with is not above it. */
  function SwapOn(a: int, b: int): Op {
    if LowMask(a) && LowMask(b) then Swap(a, b) else Ignored
  }

  function Decode(t: Trig, g: Gate): Decoded {
    match KindOf(g)
    case KH => DecodeSingle(g, HMatrix(t))
    case KX => DecodeSingle(g, X_MATRIX)
    case KZ => DecodeSingle(g, Z_MATRIX)
    case KRX => DecodeSingle(g, RxMatrix(t, Param(g)))
    case KRZ => DecodeSingle(g, RzMatrix(t, Param(g)))
    case KCnot => if |g.qubits| != 2 then BadArity else Known(CnotOn(g.qubits[0], g.qubits[1]))
    case KCphase => if |g.qubits| != 2 then BadArity else Known(CphaseOn(t, g.qubits[0], g.qubits[1], Param(g)))
    case KSwap => if |g.qubits| != 2 then BadArity else Known(SwapOn(g.qubits[0], g.qubits[1]))
    case KDiffusion => Known(Diffusion)
    case KOther => Known(Ignored)
  }

  /** The gate that takes g back: rotations and phases turn the other way, the rest repeat. */
  function Inverse(g: Gate): Gate {
    if g.params != [] && KindOf(g) in {KRX, KRZ, KCphase} then g.(params := g.params[0 := -g.params[0]])
    else g
  }

  /** No index the gate's loop computes leaves an n-qubit state. */
  predicate IndexSafe(op: Op, n: nat) {
    match op
    case Single(q, _) => q < n
    case Cnot(c, t) => c == t || c >= n || t < n
    case Swap(a, b) => a == b || (a < n <==> b < n)
    case _ => true
  }

  // ---------- gates on amplitude sequences ----------

  function At(s: seq<Complex>, i: nat): Complex {
    if i < |s| then s[i] else ZERO
  }

  ghost predicate IsState(s: seq<Complex>, n: nat) {
    |s| == Pow2(n)
  }

  function PairAt(s: seq<Complex>, k: nat, m: Matrix, i: nat): Complex {
    if Bit(i, k) == 0 then Upper(m, At(s, i), At(s, Flip(i, k)))
    else Lower(m, At(s, Flip(i, k)), At(s, i))
  }

  function ApplyPair(s: seq<Complex>, k: nat, m: Matrix): seq<Complex> {
    seq(|s|, i requires 0 <= i < |s| => PairAt(s, k, m, i))
  }

  function CnotIndex(c: nat, t: nat, i: nat): nat {
    if c != t && Bit(i, c) == 1 then Flip(i, t) else i
  }

  function SwapIndex(a: nat, b: nat, i: nat): nat {
    if Bit(i, a) != Bit(i, b) then Flip(Flip(i, a), b) else i
  }

  function ApplyCnot(s: seq<Complex>, c: nat, t: nat): seq<Complex> {
    seq(|s|, i requires 0 <= i < |s| => At(s, CnotIndex(c, t, i)))
  }

  function ApplySwap(s: seq<Complex>, a: nat, b: nat): seq<Complex> {
    seq(|s|, i requires 0 <= i < |s| => At(s, SwapIndex(a, b, i)))
  }

  function ApplyCphase(s: seq<Complex>, c: nat, t: nat, phase: Complex): seq<Complex> {
    seq(|s|, i requires 0 <= i < |s| => if Bit(i, c) == 1 && Bit(i, t) == 1 then Mul(s[i], phase) else s[i])
  }

  function ApplyScale(s: seq<Complex>, factor: Complex): seq<Complex> {
    seq(|s|, i requires 0 <= i < |s| => Mul(s[i], factor))
  }

  function SumComplex(s: seq<Complex>): Complex {
    if s == [] then ZERO else Add(SumComplex(s[..|s| - 1]), s[|s| - 1])
  }

  function Mean(s: seq<Complex>): Complex
    requires s != []
  {
    var sum := SumComplex(s);
    Complex(sum.re / |s| as real, sum.im / |s| as real)
  }

  function Reflect(s: seq<Complex>, mean: Complex): seq<Complex> {
    seq(|s|, i requires 0 <= i < |s| => Sub(Mul(Real(2.0), mean), s[i]))
  }

  function Diffuse(s: seq<Complex>): seq<Complex> {
    if s == [] then s else Reflect(s, Mean(s))
  }

  function Phase(t: Trig, angle: real): Complex {
    Complex(t.cos(angle), t.sin(angle))
  }

  function Apply(t: Trig, s: seq<Complex>, op: Op): (r: seq<Complex>)
    ensures |r| == |s|
  {
    match op
    case Scale(f) => ApplyScale(s, f)
    case Single(q, m) => ApplyPair(s, q, m)
    case Cnot(c, tg) => ApplyCnot(s, c, tg)
    case Cphase(c, tg, angle) => ApplyCphase(s, c, tg, Phase(t, angle))
    case Swap(a, b) => ApplySwap(s, a, b)
    case Diffusion => Diffuse(s)
    case Ignored => s
  }

  // ---------- inverses ----------

  lemma PairUndone(s: seq<Complex>, n: nat, k: nat, l: Matrix, m: Matrix)
    requires IsState(s, n) && k < n && Undoes(l, m)
    ensures ApplyPair(ApplyPair(s, k, m), k, l) == s
  {
    var r := ApplyPair(s, k, m);
    forall i: nat | i < |s|
      ensures PairAt(r, k, l, i) == s[i]
    {
      var j := Flip(i, k);
      FlipBound(i, k, n);
      FlipTwice(i, k);
      BitOfFlip(i, k, k);
      if Bit(i, k) == 0 {
        assert r[i] == Upper(m, s[i], s[j]);
      } else {
        assert r[j] == Upper(m, s[j], s[i]);
      }
    }
  }

  lemma {:induction false} CnotIndexFacts(n: nat, c: nat, t: nat, i: nat)
    requires i < Pow2(n) && IndexSafe(Cnot(c, t), n)
    ensures CnotIndex(c, t, i) < Pow2(n)
    ensures CnotIndex(c, t, CnotIndex(c, t, i)) == i
  {
    if c >= n {
      HighBitClear(i, c, n);
    } else if c != t {
      FlipBound(i, t, n);
      FlipTwice(i, t);
      BitOfFlip(i, t, c);
    }
  }

  lemma {:induction false} SwapIndexFacts(n: nat, a: nat, b: nat, i: nat)
    requires i < Pow2(n) && IndexSafe(Swap(a, b), n)
    ensures SwapIndex(a, b, i) < Pow2(n)
    ensures SwapIndex(a, b, SwapIndex(a, b, i)) == i
  {
    if a >= n && b >= n {
      HighBitClear(i, a, n);
      HighBitClear(i, b, n);
    } else if a != b {
      var j := Flip(i, a);
      FlipBound(i, a, n);
      FlipBound(j, b, n);
      BitOfFlip(i, a, a);
      BitOfFlip(i, a, b);
      BitOfFlip(j, b, a);
      BitOfFlip(j, b, b);
      FlipCommutes(j, b, a);
      FlipTwice(i, a);
      FlipTwice(i, b);
    }
  }

  lemma CnotUndone(s: seq<Complex>, n: nat, c: nat, t: nat)
    requires IsState(s, n) && IndexSafe(Cnot(c, t), n)
    ensures ApplyCnot(ApplyCnot(s, c, t), c, t) == s
  {
    forall i: nat | i < |s|
      ensures At(ApplyCnot(s, c, t), CnotIndex(c, t, i)) == s[i]
    {
      CnotIndexFacts(n, c, t, i);
    }
  }

  lemma SwapUndone(s: seq<Complex>, n: nat, a: nat, b: nat)
    requires IsState(s, n) && IndexSafe(Swap(a, b), n)
    ensures ApplySwap(ApplySwap(s, a, b), a, b) == s
  {
    forall i: nat | i < |s|
      ensures At(ApplySwap(s, a, b), SwapIndex(a, b, i)) == s[i]
    {
      SwapIndexFacts(n, a, b, i);
    }
  }

  lemma CphaseUndone(t: Trig, s: seq<Complex>, c: nat, tg: nat, angle: real)
    requires IsTrig(t)
    ensures ApplyCphase(ApplyCphase(s, c, tg, Phase(t, angle)), c, tg, Phase(t, -angle)) == s
  {
    forall i: nat | i < |s|
      ensures Mul(Mul(s[i], Phase(t, angle)), Phase(t, -angle)) == s[i]
    {
      MulAssociative(s[i], Phase(t, angle), Phase(t, -angle));
      assert Mul(Phase(t, angle), Phase(t, -angle)) == ONE;
    }
  }

  lemma {:induction false} SumReflected(s: seq<Complex>, mean: Complex)
    ensures SumComplex(Reflect(s, mean)).re == Times(|s|, 2.0 * mean.re) - SumComplex(s).re
    ensures SumComplex(Reflect(s, mean)).im == Times(|s|, 2.0 * mean.im) - SumComplex(s).im
  {
    if s != [] {
      var p := s[..|s| - 1];
      SumReflected(p, mean);
      assert Reflect(s, mean)[..|s| - 1] == Reflect(p, mean);
    }
  }

  lemma DiffuseKeepsMean(s: seq<Complex>)
    requires s != []
    ensures Mean(Diffuse(s)) == Mean(s)
  {
    var m := Mean(s);
    SumReflected(s, m);
    TwiceTheMean(SumComplex(s).re, |s|);
    TwiceTheMean(SumComplex(s).im, |s|);
    assert SumComplex(Diffuse(s)) == SumComplex(s);
  }

  lemma TwiceTheMean(sum: real, n: nat)
    requires n > 0
    ensures Times(n, 2.0 * (sum / n as real)) == sum + sum
  {
    var m := sum / n as real;
    TimesIsProduct(n, 2.0 * m);
    MeanTimesLength(sum, n as real);
    assert n as real * (2.0 * m) == 2.0 * (m * n as real);
  }

  lemma MeanTimesLength(sum: real, n: real)
    requires n > 0.0
    ensures (sum / n) * n == sum
  {
  }

  lemma DiffuseUndone(s: seq<Complex>)
    ensures Diffuse(Diffuse(s)) == s
  {
    if s != [] {
      DiffuseKeepsMean(s);
      forall i: nat | i < |s|
        ensures Sub(Mul(Real(2.0), Mean(s)), Diffuse(s)[i]) == s[i]
      {
      }
    }
  }

  /** An H whose qubit has no mask: the only gate that cannot be undone. */
  predicate Erases(g: Gate) {
    KindOf(g) == KH && |g.qubits| == 1 && !HasMask(g.qubits[0])
  }

  lemma ScaleUndone(s: seq<Complex>, f: Complex, back: Complex)
    requires Mul(f, back) == ONE
    ensures ApplyScale(ApplyScale(s, f), back) == s
  {
    forall i: nat | i < |s|
      ensures Mul(Mul(s[i], f), back) == s[i]
    {
      MulAssociative(s[i], f, back);
    }
  }

  /** Every decoded gate with safe indices that does not erase is undone by its inverse, on every state. */
  lemma GateUndone(t: Trig, g: Gate, n: nat, s: seq<Complex>)
    requires IsTrig(t) && IsState(s, n)
    requires Decode(t, g).Known? && IndexSafe(Decode(t, g).op, n)
    ensures Decode(t, Inverse(g)).Known? && IndexSafe(Decode(t, Inverse(g)).op, n)
    ensures !Erases(g) ==> Apply(t, Apply(t, s, Decode(t, g).op), Decode(t, Inverse(g)).op) == s
  {
    InverseDecodes(t, g);
    var op, inv := Decode(t, g).op, Decode(t, Inverse(g)).op;
    match op
    case Scale(f) =>
      if !Erases(g) {
        ScaleUndone(s, f, inv.factor);
      }
    case Single(q, m) => PairUndone(s, n, q, inv.matrix, m);
    case Cnot(c, tg) => CnotUndone(s, n, c, tg);
    case Cphase(c, tg, angle) => CphaseUndone(t, s, c, tg, angle);
    case Swap(a, b) => SwapUndone(s, n, a, b);
    case Diffusion => DiffuseUndone(s);
    case Ignored =>
  }

  /** An operation followed by another changes nothing. */
  ghost predicate UndoneOn(t: Trig, op: Op, inv: Op, s: seq<Complex>) {
    Apply(t, Apply(t, s, op), inv) == s
  }

  ghost predicate UndoneOnAll(t: Trig, op: Op, inv: Op, n: nat) {
    forall s | IsState(s, n) :: UndoneOn(t, op, inv, s)
  }

  lemma ZerosStay(t: Trig, n: nat, f: Complex)
    ensures !UndoneOnAll(t, Scale(ZERO), Scale(f), n)
  {
    var s := seq(Pow2(n), _ => ONE);
    assert Apply(t, Apply(t, s, Scale(ZERO)), Scale(f))[0] == Mul(Mul(ONE, ZERO), f) == ZERO;
    assert IsState(s, n) && !UndoneOn(t, Scale(ZERO), Scale(f), s);
  }

  /** A gate can be undone on all states exactly if it does not erase. */
  lemma UndoneExactly(t: Trig, g: Gate, n: nat)
    requires IsTrig(t) && Decode(t, g).Known? && IndexSafe(Decode(t, g).op, n)
    ensures Decode(t, Inverse(g)).Known?
    ensures UndoneOnAll(t, Decode(t, g).op, Decode(t, Inverse(g)).op, n) <==> !Erases(g)
  {
    InverseDecodes(t, g);
    var op, inv := Decode(t, g).op, Decode(t, Inverse(g)).op;
    if Erases(g) {
      ZerosStay(t, n, inv.factor);
    } else {
      forall s | IsState(s, n)
        ensures UndoneOn(t, op, inv, s)
      {
        GateUndone(t, g, n, s);
      }
    }
  }

  /** What `Inverse` does to the decoded operation. */
  ghost predicate IsInverseOp(inv: Op, op: Op, erases: bool) {
    match op
    case Scale(f) => inv.Scale? && (if erases then f == ZERO else Norm2(f) == 1.0 && Mul(f, inv.factor) == ONE)
    case Single(q, m) => inv.Single? && inv.qubit == q && Undoes(inv.matrix, m)
    case Cphase(c, tg, angle) => inv == Cphase(c, tg, -angle)
    case _ => inv == op
  }

  lemma InverseDecodes(t: Trig, g: Gate)
    requires IsTrig(t) && Decode(t, g).Known?
    ensures Decode(t, Inverse(g)).Known? && IsInverseOp(Decode(t, Inverse(g)).op, Decode(t, g).op, Erases(g))
  {
    var k := KindOf(g);
    SameKind(g);
    assert Param(Inverse(g)) == if k in {KRX, KRZ, KCphase} then -Param(g) else Param(g);
    match k
    case KH => HadamardUndone(t.invSqrt2);
    case KX | KZ => ReflectionsUndone();
    case KRX | KRZ =>
      RotationsUndone(t, Param(g));
      UnpairedRotations(t, Param(g));
    case KCphase => PhaseUndone(t, Param(g));
    case _ =>
  }

  lemma PhaseUndone(t: Trig, a: real)
    requires IsTrig(t)
    ensures Norm2(Phase(t, a)) == 1.0 && Mul(Phase(t, a), Phase(t, -a)) == ONE
  {
    assert t.cos(-a) == t.cos(a) && t.sin(-a) == -t.sin(a);
  }

  /** A rotation without a pair is a phase. */
  lemma UnpairedRotations(t: Trig, a: real)
    requires IsTrig(t)
    ensures Add(RxMatrix(t, a).m10, RxMatrix(t, a).m11) == Phase(t, -(a / 2.0))
    ensures Add(RzMatrix(t, a).m10, RzMatrix(t, a).m11) == Phase(t, a / 2.0)
    ensures Norm2(Phase(t, a / 2.0)) == 1.0 == Norm2(Phase(t, -(a / 2.0)))
    ensures Mul(Phase(t, a / 2.0), Phase(t, (-a) / 2.0)) == ONE
    ensures Mul(Phase(t, -(a / 2.0)), Phase(t, -((-a) / 2.0))) == ONE
  {
    assert (-a) / 2.0 == -(a / 2.0);
    assert -(-(a / 2.0)) == a / 2.0;
    PhaseUndone(t, a / 2.0);
    PhaseUndone(t, -(a / 2.0));
  }

  lemma SameKind(g: Gate)
    ensures KindOf(Inverse(g)) == KindOf(g)
  {
    assert Inverse(g).name == g.name;
  }

  lemma RotationsUndone(t: Trig, a: real)
    requires IsTrig(t)
    ensures Undoes(RxMatrix(t, -a), RxMatrix(t, a))
    ensures Undoes(RzMatrix(t, -a), RzMatrix(t, a))
  {
    var x := a / 2.0;
    assert (-a) / 2.0 == -x;
    assert t.cos(-x) == t.cos(x) && t.sin(-x) == -t.sin(x);
    RxUndone(t.cos(x), t.sin(x));
    RzUndone(t.cos(x), t.sin(x));
  }

  lemma RxUndone(c: real, s: real)
    requires c * c + s * s == 1.0
    ensures Undoes(Rx(c, s), Rx(c, -s))
  {
    RowsUndoPairs(Rx(c, s), Rx(c, -s));
  }

  lemma RzUndone(c: real, s: real)
    requires c * c + s * s == 1.0
    ensures Undoes(Rz(c, s), Rz(c, -s))
  {
    RowsUndoPairs(Rz(c, s), Rz(c, -s));
  }

  lemma RxUnitary(c: real, s: real)
    requires c * c + s * s == 1.0
    ensures Unitary(Rx(c, -s))
  {
    OrthonormalIsUnitary(Rx(c, -s));
  }

  lemma RzUnitary(c: real, s: real)
    requires c * c + s * s == 1.0
    ensures Unitary(Rz(c, -s))
  {
    OrthonormalIsUnitary(Rz(c, -s));
  }

  lemma HadamardUndone(h: real)
    requires 2.0 * h * h == 1.0
    ensures Undoes(Hadamard(h), Hadamard(h))
  {
    RowsUndoPairs(Hadamard(h), Hadamard(h));
  }

  lemma HadamardUnitary(h: real)
    requires 2.0 * h * h == 1.0
    ensures Unitary(Hadamard(h))
  {
    OrthonormalIsUnitary(Hadamard(h));
  }

  lemma ReflectionsUndone()
    ensures Undoes(X_MATRIX, X_MATRIX) && Undoes(Z_MATRIX, Z_MATRIX)
    ensures Unitary(X_MATRIX) && Unitary(Z_MATRIX)
  {
    forall a, b
      ensures Upper(X_MATRIX, a, b) == b && Lower(X_MATRIX, a, b) == a
    {
      XActs(a, b);
    }
    forall a, b
      ensures Upper(Z_MATRIX, a, b) == a && Lower(Z_MATRIX, a, b) == Complex(-b.re, -b.im)
      ensures Norm2(Complex(-b.re, -b.im)) == Norm2(b)
    {
      ZActs(a, b);
    }
  }

  lemma XActs(a: Complex, b: Complex)
    ensures Upper(X_MATRIX, a, b) == b && Lower(X_MATRIX, a, b) == a
  {
  }

  lemma ZActs(a: Complex, b: Complex)
    ensures Upper(Z_MATRIX, a, b) == a && Lower(Z_MATRIX, a, b) == Complex(-b.re, -b.im)
    ensures Norm2(Complex(-b.re, -b.im)) == Norm2(b)
  {
  }

  // ---------- norm ----------

  function Probabilities(s: seq<Complex>): seq<real> {
    seq(|s|, i requires 0 <= i < |s| => Norm2(s[i]))
  }

  function TotalProbability(s: seq<Complex>): real {
    Sum(Probabilities(s))
  }

  /** Every pair {i, i with bit k flipped} has the same sum in u and v. */
  ghost predicate PairsAgree(u: seq<real>, v: seq<real>, k: nat) {
    && |u| == |v|
    && forall i: nat {:trigger Flip(i, k)} :: i < |u| ==>
      Flip(i, k) < |u| && u[i] + u[Flip(i, k)] == v[i] + v[Flip(i, k)]
  }

  lemma {:induction false} HalvesAgree(u: seq<real>, v: seq<real>, n: nat, k: nat)
    requires |u| == Pow2(n) && 0 < k < n && PairsAgree(u, v, k)
    ensures PairsAgree(Evens(u), Evens(v), k - 1)
    ensures PairsAgree(Odds(u), Odds(v), k - 1)
  {
    forall i: nat {:trigger Flip(i, k - 1)} | i < |u| / 2
      ensures Flip(i, k - 1) < |u| / 2
      ensures Evens(u)[i] + Evens(u)[Flip(i, k - 1)] == Evens(v)[i] + Evens(v)[Flip(i, k - 1)]
      ensures Odds(u)[i] + Odds(u)[Flip(i, k - 1)] == Odds(v)[i] + Odds(v)[Flip(i, k - 1)]
    {
      HalvesAgreeAt(u, v, n, k, i);
    }
  }

  lemma HalvesAgreeAt(u: seq<real>, v: seq<real>, n: nat, k: nat, i: nat)
    requires |u| == Pow2(n) && 0 < k < n && PairsAgree(u, v, k) && i < |u| / 2
    ensures Flip(i, k - 1) < |u| / 2
    ensures Evens(u)[i] + Evens(u)[Flip(i, k - 1)] == Evens(v)[i] + Evens(v)[Flip(i, k - 1)]
    ensures Odds(u)[i] + Odds(u)[Flip(i, k - 1)] == Odds(v)[i] + Odds(v)[Flip(i, k - 1)]
  {
    FlipBound(i, k - 1, n - 1);
    FlipOfDouble(i, k);
    AgreeAt(u, v, k, 2 * i);
    AgreeAt(u, v, k, 2 * i + 1);
  }

  lemma {:induction false} AgreeAt(u: seq<real>, v: seq<real>, k: nat, i: nat)
    requires PairsAgree(u, v, k) && i < |u|
    ensures |u| == |v| && Flip(i, k) < |u| && u[i] + u[Flip(i, k)] == v[i] + v[Flip(i, k)]
  {
  }

  lemma {:induction false} FlipOfDouble(i: nat, k: nat)
    requires k > 0
    ensures Flip(2 * i, k) == 2 * Flip(i, k - 1) && Flip(2 * i + 1, k) == 2 * Flip(i, k - 1) + 1
  {
    FlipHalves(2 * i, k);
    FlipHalves(2 * i + 1, k);
    HalvesOfDouble(i);
    HalvesOfDouble(Flip(i, k - 1));
    SameHalves(Flip(2 * i, k), 2 * Flip(i, k - 1));
    SameHalves(Flip(2 * i + 1, k), 2 * Flip(i, k - 1) + 1);
  }

  lemma HalvesOfDouble(i: nat)
    ensures 2 * i / 2 == i && 2 * i % 2 == 0 && (2 * i + 1) / 2 == i && (2 * i + 1) % 2 == 1
  {
  }

  lemma NeighboursAgree(u: seq<real>, v: seq<real>)
    requires |u| % 2 == 0 && PairsAgree(u, v, 0)
    ensures Sum(Evens(u)) + Sum(Odds(u)) == Sum(Evens(v)) + Sum(Odds(v))
  {
    forall i: nat | i < |u| / 2
      ensures Evens(u)[i] + Odds(u)[i] == Evens(v)[i] + Odds(v)[i]
    {
      AgreeAt(u, v, 0, 2 * i);
      assert Flip(2 * i, 0) == 2 * i + 1;
    }
    SumPointwise(Evens(u), Odds(u), Evens(v), Odds(v));
  }

  lemma {:induction false} PairSumsDecide(u: seq<real>, v: seq<real>, n: nat, k: nat)
    requires |u| == Pow2(n) && k < n && PairsAgree(u, v, k)
    ensures Sum(u) == Sum(v)
    decreases n
  {
    if k == 0 {
      NeighboursAgree(u, v);
    } else {
      HalvesAgree(u, v, n, k);
      PairSumsDecide(Evens(u), Evens(v), n - 1, k - 1);
      PairSumsDecide(Odds(u), Odds(v), n - 1, k - 1);
    }
    SumOfHalves(u, v);
  }

  lemma {:induction false} SumOfHalves(u: seq<real>, v: seq<real>)
    requires |u| % 2 == 0 && |v| % 2 == 0
    requires Sum(Evens(u)) + Sum(Odds(u)) == Sum(Evens(v)) + Sum(Odds(v))
    ensures Sum(u) == Sum(v)
  {
    SumEvenOdd(u);
    SumEvenOdd(v);
  }

  lemma {:induction false} SumPointwise(a: seq<real>, b: seq<real>, c: seq<real>, d: seq<real>)
    requires |a| == |b| == |c| == |d|
    requires forall i :: 0 <= i < |a| ==> a[i] + b[i] == c[i] + d[i]
    ensures Sum(a) + Sum(b) == Sum(c) + Sum(d)
  {
    var n := |a|;
    if n > 0 {
      SumPointwise(a[..n - 1], b[..n - 1], c[..n - 1], d[..n - 1]);
    }
  }

  lemma PairNorm(s: seq<Complex>, n: nat, k: nat, m: Matrix)
    requires IsState(s, n) && k < n && Unitary(m)
    ensures TotalProbability(ApplyPair(s, k, m)) == TotalProbability(s)
  {
    var r := ApplyPair(s, k, m);
    var u, v := Probabilities(r), Probabilities(s);
    forall i: nat | i < |u|
      ensures Flip(i, k) < |u| && u[i] + u[Flip(i, k)] == v[i] + v[Flip(i, k)]
    {
      var j := Flip(i, k);
      FlipBound(i, k, n);
      FlipTwice(i, k);
      BitOfFlip(i, k, k);
      if Bit(i, k) == 0 {
        assert r[i] == Upper(m, s[i], s[j]);
      } else {
        assert r[j] == Upper(m, s[j], s[i]);
      }
    }
    PairSumsDecide(u, v, n, k);
  }

  lemma CnotNorm(s: seq<Complex>, n: nat, c: nat, t: nat)
    requires IsState(s, n) && IndexSafe(Cnot(c, t), n)
    ensures TotalProbability(ApplyCnot(s, c, t)) == TotalProbability(s)
  {
    var r := ApplyCnot(s, c, t);
    if c == t || c >= n {
      forall i: nat | i < |s|
        ensures r[i] == s[i]
      {
        if c >= n {
          HighBitClear(i, c, n);
        }
      }
      assert r == s;
    } else {
      var u, v := Probabilities(r), Probabilities(s);
      forall i: nat | i < |u|
        ensures Flip(i, t) < |u| && u[i] + u[Flip(i, t)] == v[i] + v[Flip(i, t)]
      {
        FlipBound(i, t, n);
        FlipTwice(i, t);
        BitOfFlip(i, t, c);
      }
      PairSumsDecide(u, v, n, t);
    }
  }

  /** Exchanging two qubits is three controlled-nots, on every state. */
  lemma SwapIsThreeCnots(s: seq<Complex>, n: nat, a: nat, b: nat)
    requires IsState(s, n) && a < n && b < n && a != b
    ensures ApplySwap(s, a, b) == ApplyCnot(ApplyCnot(ApplyCnot(s, a, b), b, a), a, b)
  {
    var s1 := ApplyCnot(s, a, b);
    var s2 := ApplyCnot(s1, b, a);
    forall i: nat | i < |s|
      ensures At(s2, CnotIndex(a, b, i)) == At(s, SwapIndex(a, b, i))
    {
      var j := CnotIndex(a, b, i);
      var k := CnotIndex(b, a, j);
      CnotIndexFacts(n, a, b, i);
      CnotIndexFacts(n, b, a, j);
      CnotIndexFacts(n, a, b, k);
      assert At(s2, j) == At(s, CnotIndex(a, b, k));
      ThreeCnotIndices(a, b, i);
    }
  }

  lemma ThreeCnotIndices(a: nat, b: nat, i: nat)
    requires a != b
    ensures CnotIndex(a, b, CnotIndex(b, a, CnotIndex(a, b, i))) == SwapIndex(a, b, i)
  {
    var x, y := Flip(i, a), Flip(i, b);
    BitOfFlip(i, b, a);
    BitOfFlip(i, b, b);
    BitOfFlip(i, a, a);
    BitOfFlip(i, a, b);
    BitOfFlip(y, a, a);
    BitOfFlip(y, a, b);
    FlipTwice(i, b);
    FlipCommutes(i, a, b);
  }

  lemma SwapNorm(s: seq<Complex>, n: nat, a: nat, b: nat)
    requires IsState(s, n) && IndexSafe(Swap(a, b), n)
    ensures TotalProbability(ApplySwap(s, a, b)) == TotalProbability(s)
  {
    if a == b || a >= n {
      forall i: nat | i < |s|
        ensures ApplySwap(s, a, b)[i] == s[i]
      {
        if a >= n {
          HighBitClear(i, a, n);
          HighBitClear(i, b, n);
        }
      }
      assert ApplySwap(s, a, b) == s;
    } else {
      SwapIsThreeCnots(s, n, a, b);
      CnotNorm(s, n, a, b);
      CnotNorm(ApplyCnot(s, a, b), n, b, a);
      CnotNorm(ApplyCnot(ApplyCnot(s, a, b), b, a), n, a, b);
    }
  }

  lemma CphaseNorm(t: Trig, s: seq<Complex>, c: nat, tg: nat, angle: real)
    requires IsTrig(t)
    ensures TotalProbability(ApplyCphase(s, c, tg, Phase(t, angle))) == TotalProbability(s)
  {
    var r := ApplyCphase(s, c, tg, Phase(t, angle));
    forall i: nat | i < |s|
      ensures Norm2(r[i]) == Norm2(s[i])
    {
      MulNorm2(s[i], Phase(t, angle));
    }
    assert Probabilities(r) == Probabilities(s);
  }

  function Overlaps(s: seq<Complex>, m: Complex): seq<real> {
    seq(|s|, i requires 0 <= i < |s| => 4.0 * Dot(m, s[i]))
  }

  lemma {:induction false} SumOverlaps(s: seq<Complex>, m: Complex)
    ensures Sum(Overlaps(s, m)) == 4.0 * Dot(m, SumComplex(s))
  {
    if s != [] {
      var p := s[..|s| - 1];
      SumOverlaps(p, m);
      assert Overlaps(s, m)[..|s| - 1] == Overlaps(p, m);
      DotOfSum(m, SumComplex(p), s[|s| - 1]);
    }
  }

  lemma DotOfSum(m: Complex, x: Complex, y: Complex)
    ensures Dot(m, Add(x, y)) == Dot(m, x) + Dot(m, y)
  {
  }

  /** The total of |2m - s_i|^2, for any m. */
  lemma {:induction false} ReflectedProbability(s: seq<Complex>, m: Complex, c: real)
    requires c == 4.0 * Norm2(m)
    ensures TotalProbability(Reflect(s, m)) == TotalProbability(s) + Times(|s|, c) - 4.0 * Dot(m, SumComplex(s))
  {
    var u, v, w := Probabilities(Reflect(s, m)), Probabilities(s), Overlaps(s, m);
    assert forall i :: 0 <= i < |u| ==> u[i] == v[i] + c - w[i] by {
      forall i: nat | i < |u|
        ensures u[i] == v[i] + c - w[i]
      {
        ReflectedTerm(s, m, i);
      }
    }
    SumAffine(u, v, w, c);
    SumOverlaps(s, m);
  }

  lemma ReflectedTerm(s: seq<Complex>, m: Complex, i: nat)
    requires i < |s|
    ensures Probabilities(Reflect(s, m))[i] == Probabilities(s)[i] + 4.0 * Norm2(m) - Overlaps(s, m)[i]
  {
    ReflectNorm2(m, s[i]);
  }

  lemma ReflectNorm2(m: Complex, z: Complex)
    ensures Norm2(Sub(Mul(Real(2.0), m), z)) == Norm2(z) + 4.0 * Norm2(m) - 4.0 * Dot(m, z)
  {
  }

  /** Inversion about the mean keeps the norm of the whole state, though no single pair of it. */
  lemma DiffuseNorm(s: seq<Complex>)
    ensures TotalProbability(Diffuse(s)) == TotalProbability(s)
  {
    if s != [] {
      var m, n := Mean(s), |s| as real;
      ReflectedProbability(s, m, 4.0 * Norm2(m));
      TimesIsProduct(|s|, 4.0 * Norm2(m));
      MeanTimesLength(SumComplex(s).re, n);
      MeanTimesLength(SumComplex(s).im, n);
      DotWithMultiple(m, SumComplex(s), n);
    }
  }

  lemma DotWithMultiple(m: Complex, sum: Complex, n: real)
    requires m.re * n == sum.re && m.im * n == sum.im
    ensures 4.0 * Dot(m, sum) == n * (4.0 * Norm2(m))
  {
  }

  lemma DecodedUnitary(t: Trig, g: Gate)
    requires IsTrig(t) && Decode(t, g).Known? && Decode(t, g).op.Single?
    ensures Unitary(Decode(t, g).op.matrix)
  {
    var x := Param(g) / 2.0;
    match KindOf(g)
    case KH => HadamardUnitary(t.invSqrt2);
    case KX | KZ => ReflectionsUndone();
    case KRX => RxUnitary(t.cos(x), t.sin(x));
    case KRZ => RzUnitary(t.cos(x), t.sin(x));
    case _ =>
  }

  lemma ScaleNorm(s: seq<Complex>, f: Complex)
    requires Norm2(f) == 1.0
    ensures TotalProbability(ApplyScale(s, f)) == TotalProbability(s)
  {
    forall i: nat | i < |s|
      ensures Norm2(Mul(s[i], f)) == Norm2(s[i])
    {
      MulNorm2(s[i], f);
    }
    assert Probabilities(ApplyScale(s, f)) == Probabilities(s);
  }

  lemma {:induction false} NothingLeft(s: seq<Complex>)
    ensures TotalProbability(ApplyScale(s, ZERO)) == 0.0
  {
    var u := Probabilities(ApplyScale(s, ZERO));
    if s != [] {
      NothingLeft(s[..|s| - 1]);
      assert u[..|u| - 1] == Probabilities(ApplyScale(s[..|s| - 1], ZERO));
    }
  }

  /** Every decoded gate with safe indices keeps the total probability of every state, except that one which erases
      leaves none. */
  lemma GateNorm(t: Trig, g: Gate, n: nat, s: seq<Complex>)
    requires IsTrig(t) && IsState(s, n)
    requires Decode(t, g).Known? && IndexSafe(Decode(t, g).op, n)
    ensures TotalProbability(Apply(t, s, Decode(t, g).op)) == if Erases(g) then 0.0 else TotalProbability(s)
  {
    match Decode(t, g).op
    case Scale(f) =>
      InverseDecodes(t, g);
      if Erases(g) {
        NothingLeft(s);
      } else {
        ScaleNorm(s, f);
      }
    case Single(q, m) =>
      DecodedUnitary(t, g);
      PairNorm(s, n, q, m);
    case Cnot(c, tg) => CnotNorm(s, n, c, tg);
    case Cphase(c, tg, angle) => CphaseNorm(t, s, c, tg, angle);
    case Swap(a, b) => SwapNorm(s, n, a, b);
    case Diffusion => DiffuseNorm(s);
    case Ignored =>
  }
}
