/** The state-vector interpreter: in-place gate loops, whole circuits and measurement. */
module Circuits {
  import opened Bits
  import opened ComplexNumbers
  import opened Gates

  const MAX_QUBITS := 24
  const DEFAULT_SHOTS := 1024

  // ---------- in-place gate loops ----------

  /** The member of the pair {i, i with bit k flipped} at which the loop handles the pair. */
  function PairBase(i: nat, k: nat): nat {
    if Bit(i, k) == 0 then i else Flip(i, k)
  }

  /** The pair loop; where the mask is zero each index is its own partner. */
  method ApplySingleQubitUnitary(ghost t: Trig, state: array<Complex>, ghost n: nat, target: int, m: Matrix)
    requires state.Length == Pow2(n) && IndexSafe(SingleOn(target, m), n)
    modifies state
    ensures state[..] == Apply(t, old(state[..]), SingleOn(target, m))
  {
    ghost var s := state[..];
    for i := 0 to state.Length
      invariant forall x: nat :: x < state.Length ==>
        state[x] == if Handled(x, target) < i then SingleAt(s, target, m, x) else s[x]
    {
      if HasMask(target) {
        FlipBound(i, target, n);
        FlipTwice(i, target);
        BitOfFlip(i, target, target);
        FlipIsMask(i, target);
      }
      if !HasMask(target) || Bit(i, target) == 0 {
        var j := if HasMask(target) then Flip(i, target) else i;
        var a, b := state[i], state[j];
        state[i] := Upper(m, a, b);
        state[j] := Lower(m, a, b);
      }
      forall x: nat | x < state.Length && Handled(x, target) == i
        ensures (!HasMask(target) && x == i)
             || (HasMask(target) && Bit(i, target) == 0 && (x == i || x == Flip(i, target)))
      {
        HandledAt(x, target);
      }
    }
    forall x: nat | x < state.Length
      ensures state[x] == Apply(t, s, SingleOn(target, m))[x]
    {
      if HasMask(target) {
        FlipBound(x, target, n);
      }
      UnpairedIsScale(m, s[x]);
    }
  }

  /** The index at which the loop handles x. */
  function Handled(x: nat, target: int): nat {
    if HasMask(target) then PairBase(x, target) else x
  }

  function SingleAt(s: seq<Complex>, target: int, m: Matrix, x: nat): Complex
    requires x < |s|
  {
    if HasMask(target) then PairAt(s, target, m, x) else Lower(m, s[x], s[x])
  }

  lemma {:induction false} HandledAt(x: nat, target: int)
    ensures HasMask(target) ==> Bit(Handled(x, target), target) == 0
    ensures HasMask(target) ==> x == Handled(x, target) || x == Flip(Handled(x, target), target)
  {
    if HasMask(target) {
      FlipTwice(x, target);
      BitOfFlip(x, target, target);
    }
  }

  lemma UnpairedIsScale(m: Matrix, a: Complex)
    ensures Lower(m, a, a) == Mul(a, Add(m.m10, m.m11))
  {
  }

  /** Where the exchange loops put the amplitude of x. */
  function CnotSource(c: int, t: int, x: nat): nat {
    if HasMask(c) && HasMask(t) then CnotIndex(c, t, x) else x
  }

  method ApplyCnotInPlace(ghost trig: Trig, state: array<Complex>, ghost n: nat, control: int, target: int)
    requires state.Length == Pow2(n) && IndexSafe(CnotOn(control, target), n)
    modifies state
    ensures state[..] == Apply(trig, old(state[..]), CnotOn(control, target))
  {
    ghost var s := state[..];
    for i := 0 to state.Length
      invariant forall x: nat :: x < state.Length ==>
        state[x] == if Handled(x, target) < i then At(s, CnotSource(control, target, x)) else s[x]
    {
      CnotRound(n, control, target, i);
      if HasMask(control) && Bit(i, control) != 0 {
        if !HasMask(target) || Bit(i, target) == 0 {
          var j := if HasMask(target) then Flip(i, target) else i;
          var tmp := state[i];
          state[i] := state[j];
          state[j] := tmp;
        }
      }
      forall x: nat | x < state.Length && Handled(x, target) == i
        ensures x == i || (HasMask(target) && x == Flip(i, target))
        ensures HasMask(target) ==> Bit(i, target) == 0
      {
        HandledAt(x, target);
      }
    }
    forall x: nat | x < state.Length
      ensures Handled(x, target) < state.Length
      ensures state[x] == Apply(trig, s, CnotOn(control, target))[x]
    {
      CnotCovers(n, control, target, x);
    }
  }

  lemma {:induction false} CnotRound(n: nat, control: int, target: int, i: nat)
    requires i < Pow2(n) && IndexSafe(CnotOn(control, target), n)
    ensures HasMask(control) && control >= n ==> Bit(i, control) == 0
    ensures HasMask(control) && HasMask(target) && control != target ==>
              Bit(Flip(i, target), control) == Bit(i, control)
    ensures HasMask(target) ==> Bit(Flip(i, target), target) == 1 - Bit(i, target) && Flip(Flip(i, target), target) == i
    ensures HasMask(control) && HasMask(target) && Bit(i, control) != 0 && Bit(i, target) == 0 ==>
              Flip(i, target) < Pow2(n)
  {
    if HasMask(control) && control >= n {
      HighBitClear(i, control, n);
    }
    if HasMask(target) {
      if HasMask(control) {
        BitOfFlip(i, target, control);
      }
      BitOfFlip(i, target, target);
      FlipTwice(i, target);
      if target < n {
        FlipBound(i, target, n);
      }
    }
  }

  /** The loop handles every index, also where the target's bit is beyond the state. */
  lemma {:induction false} CnotCovers(n: nat, control: int, target: int, x: nat)
    requires x < Pow2(n) && IndexSafe(CnotOn(control, target), n)
    ensures Handled(x, target) < Pow2(n) && CnotSource(control, target, x) < Pow2(n)
  {
    if HasMask(control) && HasMask(target) {
      CnotIndexFacts(n, control, target, x);
    }
    if HasMask(target) {
      if target < n {
        FlipBound(x, target, n);
      } else {
        HighBitClear(x, target, n);
      }
    }
  }

  /** A set bit, as the phase loop's comparison with the mask finds it: a zero mask counts as set. */
  predicate SetOrNoMask(i: nat, q: int) { !HasMask(q) || Bit(i, q) == 1 }

  method ApplyControlledPhase(t: Trig, state: array<Complex>, control: int, target: int, angle: real)
    modifies state
    ensures state[..] == Apply(t, old(state[..]), CphaseOn(t, control, target, angle))
  {
    ghost var s := state[..];
    var phase := Complex(t.cos(angle), t.sin(angle));
    for i := 0 to state.Length
      invariant forall x: nat :: x < state.Length ==>
        state[x] == if x < i && SetOrNoMask(x, control) && SetOrNoMask(x, target) then Mul(s[x], phase) else s[x]
    {
      if SetOrNoMask(i, control) && SetOrNoMask(i, target) {
        state[i] := Mul(state[i], phase);
      }
    }
  }

  /** Bit q of an index, as the shift by uint(q) gives it. */
  function ShiftedBit(i: nat, q: int): nat {
    if HasMask(q) then Bit(i, q) else 0
  }

  /** `i ^ (1 << uint(a)) ^ (1 << uint(b))`; with one sign bit the result is negative. */
  function Exchanged(i: nat, a: int, b: int): int {
    var j := if LowMask(a) then Flip(i, a) else i;
    var k := if LowMask(b) then Flip(j, b) else j;
    if (a == INT_BITS - 1) != (b == INT_BITS - 1) then k - Pow2(INT_BITS - 1) else k
  }

  function SwapSource(a: int, b: int, x: nat): nat {
    if LowMask(a) && LowMask(b) then SwapIndex(a, b, x) else x
  }

  /** Where a mask is missing or is the sign bit, nothing is exchanged. */
  lemma {:induction false} NothingExchanged(n: nat, a: int, b: int, i: nat)
    requires n < INT_BITS && i < Pow2(n) && !(LowMask(a) && LowMask(b))
    requires ShiftedBit(i, a) != ShiftedBit(i, b)
    ensures Exchanged(i, a, b) < i
  {
    var q := if LowMask(a) then a else b;
    if HasMask(a) && !LowMask(a) {
      HighBitClear(i, a, n);
    }
    if HasMask(b) && !LowMask(b) {
      HighBitClear(i, b, n);
    }
    assert LowMask(q) && Bit(i, q) == 1;
    FlipIsMask(i, q);
  }

  method ApplySwapInPlace(ghost t: Trig, state: array<Complex>, ghost n: nat, a: int, b: int)
    requires state.Length == Pow2(n) && n < INT_BITS && IndexSafe(SwapOn(a, b), n)
    modifies state
    ensures state[..] == Apply(t, old(state[..]), SwapOn(a, b))
  {
    ghost var s := state[..];
    if a == b {
      assert state[..] == Apply(t, s, SwapOn(a, b));
      return;
    }
    for i := 0 to state.Length
      invariant forall x: nat :: x < state.Length ==>
        state[x] == if Min(x, SwapSource(a, b, x)) < i then At(s, SwapSource(a, b, x)) else s[x]
    {
      if LowMask(a) && LowMask(b) {
        SwapIndexFacts(n, a, b, i);
      }
      if ShiftedBit(i, a) != ShiftedBit(i, b) {
        if !(LowMask(a) && LowMask(b)) {
          NothingExchanged(n, a, b, i);
        }
        var j := Exchanged(i, a, b);
        if i < j {
          var tmp := state[i];
          state[i] := state[j];
          state[j] := tmp;
        }
      }
      forall x: nat | x < state.Length && Min(x, SwapSource(a, b, x)) == i
        ensures x == i || x == SwapSource(a, b, i)
        ensures i <= SwapSource(a, b, i)
      {
        if LowMask(a) && LowMask(b) {
          SwapIndexFacts(n, a, b, x);
        }
      }
    }
    forall x: nat | x < state.Length
      ensures state[x] == Apply(t, s, SwapOn(a, b))[x]
    {
      if LowMask(a) && LowMask(b) {
        SwapIndexFacts(n, a, b, x);
      }
    }
  }

  function Min(x: nat, y: nat): nat {
    if x < y then x else y
  }

  method InversionAboutMean(state: array<Complex>)
    requires state.Length > 0
    modifies state
    ensures state[..] == Diffuse(old(state[..]))
  {
    ghost var s := state[..];
    var sum := ZERO;
    for i := 0 to state.Length
      invariant sum == SumComplex(s[..i])
    {
      assert s[..i + 1][..i] == s[..i];
      sum := Add(sum, state[i]);
    }
    assert s[..state.Length] == s;
    var mean := Complex(sum.re / state.Length as real, sum.im / state.Length as real);
    for i := 0 to state.Length
      invariant forall x: nat :: x < state.Length ==> state[x] == if x < i then Reflect(s, mean)[x] else s[x]
    {
      state[i] := Sub(Mul(Real(2.0), mean), state[i]);
    }
  }

  // ---------- circuits ----------

  datatype Fault = NoQubits | TooManyQubits | Cancelled | Arity

  datatype Outcome = State(amplitudes: seq<Complex>) | Failed(fault: Fault) | IndexPanic

  function Ground(n: nat): (s: seq<Complex>)
    ensures |s| == Pow2(n)
  {
    [ONE] + seq(Pow2(n) - 1, i => ZERO)
  }

  function Step(t: Trig, n: nat, s: seq<Complex>, g: Gate, cancelled: bool): Outcome {
    if cancelled then Failed(Cancelled)
    else match Decode(t, g)
      case BadArity => Failed(Arity)
      case Known(op) => if IndexSafe(op, n) then State(Apply(t, s, op)) else IndexPanic
  }

  /** The outcome after the first k gates; `done(i)` says whether the context is over before gate i. */
  function RunPrefix(t: Trig, n: nat, s: seq<Complex>, gates: seq<Gate>, done: nat -> bool, k: nat): (o: Outcome)
    requires k <= |gates|
    ensures o.State? ==> |o.amplitudes| == |s|
  {
    if k == 0 then State(s)
    else match RunPrefix(t, n, s, gates, done, k - 1)
      case State(r) => Step(t, n, r, gates[k - 1], done(k - 1))
      case fault => fault
  }

  function Run(t: Trig, nQubits: int, gates: seq<Gate>, done: nat -> bool): Outcome {
    if nQubits <= 0 then Failed(NoQubits)
    else if nQubits > MAX_QUBITS then Failed(TooManyQubits)
    else RunPrefix(t, nQubits, Ground(nQubits), gates, done, |gates|)
  }

  /** The interpreter's arity checks. */
  method ArityFits(g: Gate) returns (ok: bool)
    ensures forall t :: ok <==> Decode(t, g).Known?
  {
    match KindOf(g) {
      case KH | KX | KZ | KRX | KRZ => ok := |g.qubits| == 1;
      case KCnot | KCphase | KSwap => ok := |g.qubits| == 2;
      case _ => ok := true;
    }
  }

  /** The interpreter's cases. */
  method ApplyInPlace(t: Trig, state: array<Complex>, n: nat, g: Gate)
    requires 0 < n <= MAX_QUBITS && state.Length == Pow2(n)
    requires Decode(t, g).Known? && IndexSafe(Decode(t, g).op, n)
    modifies state
    ensures state[..] == Apply(t, old(state[..]), Decode(t, g).op)
  {
    match KindOf(g) {
      case KH => ApplySingleQubitUnitary(t, state, n, g.qubits[0], HMatrix(t));
      case KX => ApplySingleQubitUnitary(t, state, n, g.qubits[0], X_MATRIX);
      case KZ => ApplySingleQubitUnitary(t, state, n, g.qubits[0], Z_MATRIX);
      case KRX => ApplySingleQubitUnitary(t, state, n, g.qubits[0], RxMatrix(t, Param(g)));
      case KRZ => ApplySingleQubitUnitary(t, state, n, g.qubits[0], RzMatrix(t, Param(g)));
      case KCnot => ApplyCnotInPlace(t, state, n, g.qubits[0], g.qubits[1]);
      case KCphase => ApplyControlledPhase(t, state, g.qubits[0], g.qubits[1], Param(g));
      case KSwap => ApplySwapInPlace(t, state, n, g.qubits[0], g.qubits[1]);
      case KDiffusion => InversionAboutMean(state);
      case KOther =>
    }
  }

  method RunStatevector(t: Trig, nQubits: int, gates: seq<Gate>, done: nat -> bool) returns (o: Outcome)
    ensures o == Run(t, nQubits, gates, done)
  {
    if nQubits <= 0 {
      return Failed(NoQubits);
    }
    if nQubits > MAX_QUBITS {
      return Failed(TooManyQubits);
    }
    var state := new Complex[Pow2(nQubits)](_ => ZERO);
    state[0] := ONE;
    assert state[..] == Ground(nQubits);
    for i := 0 to |gates|
      invariant State(state[..]) == RunPrefix(t, nQubits, Ground(nQubits), gates, done, i)
    {
      ghost var next := RunPrefix(t, nQubits, Ground(nQubits), gates, done, i + 1);
      if done(i) {
        StopsAt(t, nQubits, Ground(nQubits), gates, done, i + 1);
        return Failed(Cancelled);
      }
      var arity := ArityFits(gates[i]);
      if !arity {
        StopsAt(t, nQubits, Ground(nQubits), gates, done, i + 1);
        return Failed(Arity);
      }
      if !IndexSafe(Decode(t, gates[i]).op, nQubits) {
        StopsAt(t, nQubits, Ground(nQubits), gates, done, i + 1);
        return IndexPanic;
      }
      ApplyInPlace(t, state, nQubits, gates[i]);
      assert next == State(state[..]);
    }
    return State(state[..]);
  }

  lemma {:induction false} StopsAt(t: Trig, n: nat, s: seq<Complex>, gates: seq<Gate>, done: nat -> bool, k: nat)
    requires k <= |gates| && !RunPrefix(t, n, s, gates, done, k).State?
    ensures RunPrefix(t, n, s, gates, done, |gates|) == RunPrefix(t, n, s, gates, done, k)
    decreases |gates| - k
  {
    if k < |gates| {
      StopsAt(t, n, s, gates, done, k + 1);
    }
  }

  /** An operation whose indices are not safe makes some loop iteration leave the state: the partner's bit is set
      beyond it, or is the sign. */
  lemma {:induction false} UnsafeIndexIsReached(op: Op, n: nat)
    requires !IndexSafe(op, n)
    ensures op.Single? ==> exists i: nat :: i < Pow2(n) && Bit(i, op.qubit) == 0 && Flip(i, op.qubit) >= Pow2(n)
    ensures op.Cnot? ==> exists i: nat :: i < Pow2(n) && Bit(i, op.control) == 1 && Bit(i, op.target) == 0
                                       && Flip(i, op.target) >= Pow2(n)
    ensures op.Swap? ==> exists i: nat :: i < Pow2(n) && Bit(i, op.a) != Bit(i, op.b)
                                       && Flip(Flip(i, op.a), op.b) >= Pow2(n)
  {
    match op
    case Single(q, _) =>
      HighBitClear(0, q, n);
    case Cnot(c, tg) =>
      var i := Flip(0, c);
      ZeroBits(c);
      BitOfFlip(0, c, c);
      FlipBound(0, c, n);
      HighBitClear(i, tg, n);
    case Swap(a, b) =>
      var low, high := if a < n then a else b, if a < n then b else a;
      var i := Flip(0, low);
      ZeroBits(low);
      BitOfFlip(0, low, low);
      FlipBound(0, low, n);
      HighBitClear(i, high, n);
      FlipTwice(0, low);
      FlipCommutes(i, low, high);
      HighBitClear(0, high, n);
      assert Flip(Flip(i, a), b) >= Pow2(n);
    case _ =>
  }

  /** All qubits of the gate are qubits of the register. */
  predicate InRange(g: Gate, n: nat) {
    forall i :: 0 <= i < |g.qubits| ==> 0 <= g.qubits[i] < n
  }

  /** The gate runs, and can be undone. */
  predicate WellFormed(t: Trig, g: Gate, n: nat) {
    Decode(t, g).Known? && IndexSafe(Decode(t, g).op, n) && !Erases(g)
  }

  lemma InRangeIsWellFormed(t: Trig, g: Gate, n: nat)
    requires InRange(g, n) && n < INT_BITS && Decode(t, g).Known?
    ensures WellFormed(t, g, n)
  {
  }

  /** Gates with qubits in the register never index outside the state, whatever the gates before them. */
  lemma {:induction false} InRangeNeverPanics(t: Trig, n: nat, s: seq<Complex>, gates: seq<Gate>, done: nat -> bool,
                                              k: nat)
    requires n < INT_BITS && k <= |gates| && forall i :: 0 <= i < k ==> InRange(gates[i], n)
    ensures !RunPrefix(t, n, s, gates, done, k).IndexPanic?
  {
    if k > 0 {
      InRangeNeverPanics(t, n, s, gates, done, k - 1);
      if Decode(t, gates[k - 1]).Known? {
        InRangeIsWellFormed(t, gates[k - 1], n);
      }
    }
  }

  // ---------- norm ----------

  lemma GroundProbability(n: nat)
    ensures TotalProbability(Ground(n)) == 1.0
  {
    var u := Probabilities(Ground(n));
    assert u[0] == Norm2(ONE) == 1.0;
    forall i: nat | 1 <= i < |u|
      ensures u[i] == 0.0
    {
      assert Ground(n)[i] == ZERO;
    }
    ZeroTail(u, |u|);
    assert u[..|u|] == u;
  }

  lemma {:induction false} ZeroTail(u: seq<real>, k: nat)
    requires 1 <= k <= |u| && u[0] == 1.0 && forall i :: 1 <= i < |u| ==> u[i] == 0.0
    ensures Sum(u[..k]) == 1.0
  {
    assert u[..k][..k - 1] == u[..k - 1];
    if k > 1 {
      ZeroTail(u, k - 1);
    }
  }

  /** One of the first k gates erases. */
  predicate Erased(gates: seq<Gate>, k: nat)
    requires k <= |gates|
  {
    exists i :: 0 <= i < k && Erases(gates[i])
  }

  lemma ErasedMore(gates: seq<Gate>, k: nat)
    requires 0 < k <= |gates|
    ensures Erased(gates, k) <==> Erased(gates, k - 1) || Erases(gates[k - 1])
  {
  }

  lemma StepNorm(t: Trig, n: nat, s: seq<Complex>, g: Gate, cancelled: bool)
    requires IsTrig(t) && IsState(s, n) && Step(t, n, s, g, cancelled).State?
    ensures TotalProbability(Step(t, n, s, g, cancelled).amplitudes)
         == if Erases(g) then 0.0 else TotalProbability(s)
  {
    GateNorm(t, g, n, s);
  }

  /** After every prefix of every circuit the state reached has total probability 1, unless a gate of it erased the
      state; then it stays 0. */
  lemma {:induction false} PrefixNorm(t: Trig, n: nat, gates: seq<Gate>, done: nat -> bool, k: nat)
    requires IsTrig(t) && k <= |gates|
    requires RunPrefix(t, n, Ground(n), gates, done, k).State?
    ensures TotalProbability(RunPrefix(t, n, Ground(n), gates, done, k).amplitudes)
         == if Erased(gates, k) then 0.0 else 1.0
  {
    if k == 0 {
      GroundProbability(n);
    } else {
      PrefixNorm(t, n, gates, done, k - 1);
      StepNorm(t, n, RunPrefix(t, n, Ground(n), gates, done, k - 1).amplitudes, gates[k - 1], done(k - 1));
      ErasedMore(gates, k);
    }
  }

  // ---------- inverse circuits ----------

  function ApplyGate(t: Trig, s: seq<Complex>, g: Gate): (r: seq<Complex>)
    ensures |r| == |s|
  {
    match Decode(t, g)
    case Known(op) => Apply(t, s, op)
    case BadArity => s
  }

  function ApplyGates(t: Trig, s: seq<Complex>, gates: seq<Gate>): (r: seq<Complex>)
    ensures |r| == |s|
    decreases gates
  {
    if gates == [] then s else ApplyGates(t, ApplyGate(t, s, gates[0]), gates[1..])
  }

  /** Inverses in reverse order. */
  function InverseCircuit(gates: seq<Gate>): seq<Gate> {
    if gates == [] then [] else InverseCircuit(gates[1..]) + [Inverse(gates[0])]
  }

  lemma {:induction false} ApplyGatesAppend(t: Trig, s: seq<Complex>, a: seq<Gate>, b: seq<Gate>)
    ensures ApplyGates(t, s, a + b) == ApplyGates(t, ApplyGates(t, s, a), b)
    decreases a
  {
    if a == [] {
      assert a + b == b;
    } else {
      ApplyGatesAppend(t, ApplyGate(t, s, a[0]), a[1..], b);
      assert (a + b)[1..] == a[1..] + b;
    }
  }

  ghost predicate AllWellFormed(t: Trig, gates: seq<Gate>, n: nat) {
    forall g :: g in gates ==> WellFormed(t, g, n)
  }

  lemma {:induction false} InverseWellFormed(t: Trig, gates: seq<Gate>, n: nat)
    requires IsTrig(t) && AllWellFormed(t, gates, n)
    ensures AllWellFormed(t, InverseCircuit(gates), n)
  {
    if gates != [] {
      assert gates[0] in gates;
      InverseWellFormed(t, gates[1..], n);
      GateUndone(t, gates[0], n, Ground(n));
    }
  }

  /** A circuit followed by its inverse circuit is the identity on every state. */
  lemma {:induction false} CircuitUndone(t: Trig, n: nat, s: seq<Complex>, gates: seq<Gate>)
    requires IsTrig(t) && IsState(s, n) && AllWellFormed(t, gates, n)
    ensures ApplyGates(t, ApplyGates(t, s, gates), InverseCircuit(gates)) == s
    decreases gates
  {
    if gates != [] {
      assert gates[0] in gates;
      var g, rest := gates[0], gates[1..];
      var s1 := ApplyGate(t, s, g);
      CircuitUndone(t, n, s1, rest);
      ApplyGatesAppend(t, ApplyGates(t, s1, rest), InverseCircuit(rest), [Inverse(g)]);
      GateUndone(t, g, n, s);
      assert ApplyGates(t, s1, [Inverse(g)]) == ApplyGate(t, s1, Inverse(g)) by {
        assert [Inverse(g)][1..] == [];
      }
    }
  }

  lemma {:induction false} RunIsApply(t: Trig, n: nat, s: seq<Complex>, gates: seq<Gate>, done: nat -> bool, k: nat)
    requires k <= |gates| && AllWellFormed(t, gates, n) && forall i :: 0 <= i < |gates| ==> !done(i)
    ensures RunPrefix(t, n, s, gates, done, k) == State(ApplyGates(t, s, gates[..k]))
  {
    if k > 0 {
      RunIsApply(t, n, s, gates, done, k - 1);
      assert gates[k - 1] in gates;
      assert gates[..k] == gates[..k - 1] + [gates[k - 1]];
      ApplyGatesAppend(t, s, gates[..k - 1], [gates[k - 1]]);
      assert [gates[k - 1]][1..] == [];
    }
  }

  /** Running any well-formed circuit and then its inverse ends in |0...0> again. */
  lemma {:induction false} RunUndone(t: Trig, n: nat, gates: seq<Gate>, done: nat -> bool)
    requires IsTrig(t) && 0 < n <= MAX_QUBITS && AllWellFormed(t, gates, n)
    requires forall i: nat :: !done(i)
    ensures Run(t, n, gates + InverseCircuit(gates), done) == State(Ground(n))
  {
    var all := gates + InverseCircuit(gates);
    InverseWellFormed(t, gates, n);
    RunIsApply(t, n, Ground(n), all, done, |all|);
    assert all[..|all|] == all;
    ApplyGatesAppend(t, Ground(n), gates, InverseCircuit(gates));
    CircuitUndone(t, n, Ground(n), gates);
  }

  // ---------- measurement ----------

  datatype Sampled = Counts(counts: map<nat, nat>) | NotRun(fault: Fault) | RunPanic | ZeroProbability

  /** The first entry that reaches p, or the last entry. */
  function Find(cum: seq<real>, p: real): (i: nat)
    requires cum != []
    ensures i < |cum|
  {
    if |cum| == 1 || cum[0] >= p then 0 else 1 + Find(cum[1..], p)
  }

  lemma {:induction false} FindIs(cum: seq<real>, p: real, lo: nat)
    requires lo < |cum| && (forall j :: 0 <= j < lo ==> cum[j] < p)
    requires lo == |cum| - 1 || cum[lo] >= p
    ensures Find(cum, p) == lo
  {
    if lo > 0 {
      FindIs(cum[1..], p, lo - 1);
    }
  }

  /** Binary search for a draw in the cumulative distribution. */
  method Search(cum: array<real>, p: real) returns (lo: nat)
    requires cum.Length > 0
    requires forall i, j :: 0 <= i <= j < cum.Length ==> cum[..][i] <= cum[..][j]
    ensures lo == Find(cum[..], p)
  {
    ghost var c := cum[..];
    assert forall i, j :: 0 <= i <= j < cum.Length ==> cum[i] == c[i] <= c[j] == cum[j];
    lo := 0;
    var hi := cum.Length - 1;
    while lo < hi
      invariant 0 <= lo <= hi < cum.Length
      invariant forall j :: 0 <= j < lo ==> cum[j] < p
      invariant hi == cum.Length - 1 || cum[hi] >= p
    {
      var mid := (lo + hi) / 2;
      if cum[mid] < p {
        lo := mid + 1;
      } else {
        hi := mid;
      }
    }
    FindIs(cum[..], p, lo);
  }

  function Cumulative(u: seq<real>): seq<real> {
    seq(|u|, i requires 0 <= i < |u| => Sum(u[..i + 1]))
  }

  lemma {:induction false} SumPrefixMonotone(u: seq<real>, i: nat, j: nat)
    requires i <= j <= |u| && forall k :: 0 <= k < |u| ==> u[k] >= 0.0
    ensures Sum(u[..i]) <= Sum(u[..j])
  {
    if i < j {
      SumPrefixMonotone(u, i, j - 1);
      assert u[..j][..j - 1] == u[..j - 1];
    }
  }

  function Increment(m: map<nat, nat>, i: nat): map<nat, nat> {
    m[i := (if i in m then m[i] else 0) + 1]
  }

  /** Outcome counts of the first k draws. */
  function Tally(cum: seq<real>, draw: nat -> real, k: nat): map<nat, nat>
    requires cum != []
  {
    if k == 0 then map[] else Increment(Tally(cum, draw, k - 1), Find(cum, draw(k - 1)))
  }

  function Shots(shots: int): nat {
    if shots <= 0 then DEFAULT_SHOTS else shots
  }

  /** What sampling returns for a run, as a function of the random draws. */
  function Measure(o: Outcome, shots: int, draw: nat -> real): Sampled
    requires o.State? ==> o.amplitudes != []
  {
    match o
    case Failed(fault) => NotRun(fault)
    case IndexPanic => RunPanic
    case State(s) =>
      if TotalProbability(s) == 0.0 then ZeroProbability
      else Counts(Tally(Cumulative(Probabilities(s)), draw, Shots(shots)))
  }

  lemma RunHasStates(t: Trig, nQubits: int, gates: seq<Gate>, done: nat -> bool)
    requires IsTrig(t) && Run(t, nQubits, gates, done).State?
    ensures Run(t, nQubits, gates, done).amplitudes != []
    ensures TotalProbability(Run(t, nQubits, gates, done).amplitudes) == if Erased(gates, |gates|) then 0.0 else 1.0
  {
    PrefixNorm(t, nQubits, gates, done, |gates|);
  }

  method BornProbabilities(s: seq<Complex>) returns (probs: array<real>)
    ensures fresh(probs) && probs[..] == Probabilities(s)
  {
    probs := new real[|s|];
    for i := 0 to |s|
      invariant forall x: nat :: x < i ==> probs[x] == Norm2(s[x])
    {
      probs[i] := Norm2(s[i]);
    }
  }

  method Total(probs: array<real>) returns (sum: real)
    ensures sum == Sum(probs[..])
  {
    sum := 0.0;
    for i := 0 to probs.Length
      invariant sum == Sum(probs[..i])
    {
      assert probs[..i + 1][..i] == probs[..i];
      sum := sum + probs[i];
    }
    assert probs[..probs.Length] == probs[..];
  }

  method Normalise(probs: array<real>, sum: real)
    requires sum == 1.0
    modifies probs
    ensures probs[..] == old(probs[..])
  {
    for i := 0 to probs.Length
      invariant forall x: nat :: x < probs.Length ==> probs[x] == old(probs[x])
    {
      var p := probs[i];
      assert p / 1.0 == p;
      probs[i] := p / sum;
    }
  }

  method CumulativeSums(probs: array<real>) returns (cum: array<real>)
    ensures fresh(cum) && cum[..] == Cumulative(probs[..])
  {
    ghost var u := probs[..];
    cum := new real[probs.Length];
    var acc := 0.0;
    for i := 0 to probs.Length
      invariant acc == Sum(u[..i])
      invariant forall x: nat :: x < i ==> cum[x] == Cumulative(u)[x]
    {
      assert u[..i + 1][..i] == u[..i];
      acc := acc + probs[i];
      cum[i] := acc;
    }
  }

  lemma CumulativeIsMonotone(u: seq<real>)
    requires forall k :: 0 <= k < |u| ==> u[k] >= 0.0
    ensures forall i, j :: 0 <= i <= j < |u| ==> Cumulative(u)[i] <= Cumulative(u)[j]
  {
    forall i, j | 0 <= i <= j < |u|
      ensures Cumulative(u)[i] <= Cumulative(u)[j]
    {
      SumPrefixMonotone(u, i + 1, j + 1);
    }
  }

  /** Sampling meets a zero vector exactly if a gate of the circuit erased the state; the answer is `Measure` of the
      run. */
  method RunCircuit(t: Trig, nQubits: int, gates: seq<Gate>, done: nat -> bool, shots: int, draw: nat -> real)
    returns (r: Sampled)
    requires IsTrig(t)
    ensures Run(t, nQubits, gates, done).State? ==> Run(t, nQubits, gates, done).amplitudes != []
    ensures r == Measure(Run(t, nQubits, gates, done), shots, draw)
    ensures r.ZeroProbability? <==> Run(t, nQubits, gates, done).State? && Erased(gates, |gates|)
  {
    var o := RunStatevector(t, nQubits, gates, done);
    if o.Failed? {
      return NotRun(o.fault);
    }
    if o.IndexPanic? {
      return RunPanic;
    }
    RunHasStates(t, nQubits, gates, done);
    var probs := BornProbabilities(o.amplitudes);
    var sum := Total(probs);
    if sum == 0.0 {
      return ZeroProbability;
    }
    Normalise(probs, sum);
    var cum := CumulativeSums(probs);
    NormsNonNegative(o.amplitudes);
    CumulativeIsMonotone(Probabilities(o.amplitudes));
    var out := DrawShots(cum, if shots <= 0 then DEFAULT_SHOTS else shots, draw);
    return Counts(out);
  }

  lemma NormsNonNegative(s: seq<Complex>)
    ensures forall k :: 0 <= k < |s| ==> Probabilities(s)[k] >= 0.0
  {
  }

  method DrawShots(cum: array<real>, shots: nat, draw: nat -> real) returns (out: map<nat, nat>)
    requires cum.Length > 0
    requires forall i, j :: 0 <= i <= j < cum.Length ==> cum[..][i] <= cum[..][j]
    ensures out == Tally(cum[..], draw, shots)
  {
    out := map[];
    for k := 0 to shots
      invariant out == Tally(cum[..], draw, k)
    {
      var lo := Search(cum, draw(k));
      out := out[lo := (if lo in out then out[lo] else 0) + 1];
    }
  }

  /** A positive draw never selects an outcome of probability zero. */
  lemma {:induction false} PositiveDraw(s: seq<Complex>, p: real)
    requires s != [] && TotalProbability(s) == 1.0 && 0.0 < p < 1.0
    ensures Norm2(s[Find(Cumulative(Probabilities(s)), p)]) > 0.0
  {
    var u := Probabilities(s);
    var cum := Cumulative(u);
    var i := Find(cum, p);
    FindBounds(cum, p);
    assert u[..|u|] == u;
    assert Sum(u[..i + 1]) == cum[i] >= p;
    assert u[..i + 1][..i] == u[..i];
    assert Sum(u[..i]) < p by {
      if i > 0 {
        assert cum[i - 1] == Sum(u[..i]);
      }
    }
    assert u[i] == Norm2(s[i]);
  }

  lemma {:induction false} FindBounds(cum: seq<real>, p: real)
    requires cum != []
    ensures Find(cum, p) == |cum| - 1 || cum[Find(cum, p)] >= p
    ensures Find(cum, p) > 0 ==> cum[Find(cum, p) - 1] < p
  {
    if |cum| > 1 && cum[0] < p {
      FindBounds(cum[1..], p);
    }
  }

  /** The draw 0 selects outcome 0, whatever its probability. */
  lemma ZeroDraw(s: seq<Complex>)
    requires s != []
    ensures Find(Cumulative(Probabilities(s)), 0.0) == 0
  {
    NormsNonNegative(s);
    var u := Probabilities(s);
    assert u[..0 + 1] == [u[0]] && [u[0]][..0] == [];
    assert Sum([u[0]]) == u[0] >= 0.0;
    assert Cumulative(u)[0] == Sum(u[..0 + 1]);
  }

  /** A draw selects an outcome that can occur exactly if it is positive or outcome 0 can occur. */
  lemma {:induction false} SampleHasProbability(s: seq<Complex>, p: real)
    requires s != [] && TotalProbability(s) == 1.0 && 0.0 <= p < 1.0
    ensures Norm2(s[Find(Cumulative(Probabilities(s)), p)]) > 0.0 <==> p > 0.0 || Norm2(s[0]) > 0.0
  {
    if p > 0.0 {
      PositiveDraw(s, p);
    } else {
      ZeroDraw(s);
    }
  }

  function Count(m: map<nat, nat>, n: nat): nat {
    if n == 0 then 0 else Count(m, n - 1) + if n - 1 in m then m[n - 1] else 0
  }

  lemma {:induction false} CountIncrement(m: map<nat, nat>, i: nat, n: nat)
    ensures Count(Increment(m, i), n) == Count(m, n) + if i < n then 1 else 0
  {
    if n > 0 {
      CountIncrement(m, i, n - 1);
    }
  }

  /** Every shot is counted once, at an index of the state. */
  lemma {:induction false} TallyCountsEveryShot(cum: seq<real>, draw: nat -> real, k: nat)
    requires cum != []
    ensures Count(Tally(cum, draw, k), |cum|) == k
    ensures forall i :: i in Tally(cum, draw, k) ==> i < |cum|
  {
    if k == 0 {
      EmptyCount(|cum|);
    } else {
      TallyCountsEveryShot(cum, draw, k - 1);
      CountIncrement(Tally(cum, draw, k - 1), Find(cum, draw(k - 1)), |cum|);
    }
  }

  lemma {:induction false} EmptyCount(n: nat)
    ensures Count(map[], n) == 0
  {
    if n > 0 {
      EmptyCount(n - 1);
    }
  }
}
