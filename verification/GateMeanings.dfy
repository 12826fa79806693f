/** What each gate does to the amplitudes, by its name as a caller writes it, and laws between named gates. */
module GateMeanings {
  import opened Bits
  import opened ComplexNumbers
  import opened Gates
  import opened Circuits

  /** c is read as the capital letter u. */
  predicate SpellsChar(c: char, u: char) {
    || c == u
    || ('a' <= c <= 'z' && c as int - u as int == 'a' as int - 'A' as int)
    || (u == 'I' && c == '\U{0131}')
    || (u == 'S' && c == '\U{017F}')
  }

  /** The name in any mixture of cases. */
  predicate Spells(name: string, upper: string) {
    |name| == |upper| && forall i :: 0 <= i < |name| ==> SpellsChar(name[i], upper[i])
  }

  predicate Capitals(s: string) {
    forall i :: 0 <= i < |s| ==> 'A' <= s[i] <= 'Z'
  }

  lemma SpelledCapital(c: char, u: char)
    requires 'A' <= u <= 'Z'
    ensures SpellsChar(c, u) <==> UpperChar(c) == u
  {
  }

  lemma SpelledCapitals(name: string, upper: string)
    requires Capitals(upper)
    ensures Spells(name, upper) <==> ToUpper(name) == upper
  {
    if |name| == |upper| {
      forall i | 0 <= i < |name|
        ensures SpellsChar(name[i], upper[i]) <==> ToUpper(name)[i] == upper[i]
      {
        SpelledCapital(name[i], upper[i]);
      }
    }
  }

  lemma Decoded(g: Gate, upper: string)
    requires Spells(g.name, upper) && Capitals(upper)
    ensures KindOf(g) == if upper in KINDS then KINDS[upper] else KOther
  {
    SpelledCapitals(g.name, upper);
  }

  /** The amplitudes after one gate. */
  predicate Leads(t: Trig, n: nat, s: seq<Complex>, g: Gate, r: seq<Complex>) {
    Step(t, n, s, g, false) == State(r) && |r| == |s|
  }

  /** The gate g, spelled in any case, on qubit q of the register. */
  predicate On(g: Gate, upper: string, q: nat, n: nat) {
    Spells(g.name, upper) && g.qubits == [q] && q < n < INT_BITS
  }

  predicate OnTwo(g: Gate, upper: string, a: nat, b: nat, n: nat) {
    Spells(g.name, upper) && g.qubits == [a, b] && a < n && b < n && n < INT_BITS
  }

  function FirstParam(g: Gate): real {
    if |g.params| > 0 then g.params[0] else 0.0
  }

  /** The pair {i, i with bit q inverted} after a pair loop, seen from i. */
  lemma PairLeads(t: Trig, n: nat, s: seq<Complex>, g: Gate, q: nat, m: Matrix) returns (r: seq<Complex>)
    requires IsState(s, n) && q < n < INT_BITS && Decode(t, g) == Known(SingleOn(q, m))
    ensures Leads(t, n, s, g, r) && r == ApplyPair(s, q, m)
    ensures forall i: nat :: i < |s| ==>
              Flip(i, q) < |s| && r[i] == if Bit(i, q) == 0 then Upper(m, s[i], s[Flip(i, q)])
                                          else Lower(m, s[Flip(i, q)], s[i])
  {
    r := ApplyPair(s, q, m);
    forall i: nat | i < |s|
      ensures Flip(i, q) < |s|
    {
      FlipBound(i, q, n);
    }
  }

  /** X moves the amplitude of each index to the index with bit q inverted. */
  lemma XMoves(t: Trig, n: nat, s: seq<Complex>, g: Gate, q: nat) returns (r: seq<Complex>)
    requires IsState(s, n) && On(g, "X", q, n)
    ensures Leads(t, n, s, g, r)
    ensures forall i: nat :: i < |s| ==> Flip(i, q) < |s| && r[i] == s[Flip(i, q)]
  {
    Decoded(g, "X");
    r := PairLeads(t, n, s, g, q, X_MATRIX);
    forall i: nat | i < |s|
      ensures r[i] == s[Flip(i, q)]
    {
      XActs(s[i], s[Flip(i, q)]);
      XActs(s[Flip(i, q)], s[i]);
    }
  }

  function Minus(a: Complex): Complex { Complex(-a.re, -a.im) }

  /** Z negates exactly the amplitudes with bit q set. */
  lemma ZNegates(t: Trig, n: nat, s: seq<Complex>, g: Gate, q: nat) returns (r: seq<Complex>)
    requires IsState(s, n) && On(g, "Z", q, n)
    ensures Leads(t, n, s, g, r)
    ensures forall i: nat :: i < |s| ==> r[i] == if Bit(i, q) == 1 then Minus(s[i]) else s[i]
  {
    Decoded(g, "Z");
    r := PairLeads(t, n, s, g, q, Z_MATRIX);
    forall i: nat | i < |s|
      ensures r[i] == if Bit(i, q) == 1 then Minus(s[i]) else s[i]
    {
      ZActs(s[i], s[Flip(i, q)]);
      ZActs(s[Flip(i, q)], s[i]);
    }
  }

  function ScaledSum(h: real, a: Complex, b: Complex): Complex { Complex(h * (a.re + b.re), h * (a.im + b.im)) }

  function ScaledDifference(h: real, a: Complex, b: Complex): Complex {
    Complex(h * (a.re - b.re), h * (a.im - b.im))
  }

  lemma HActs(h: real, a: Complex, b: Complex)
    ensures Upper(Hadamard(h), a, b) == ScaledSum(h, a, b)
    ensures Lower(Hadamard(h), a, b) == ScaledDifference(h, a, b)
  {
  }

  /** H turns a pair a, b into (a + b) / sqrt 2 and (a - b) / sqrt 2. */
  lemma HMixes(t: Trig, n: nat, s: seq<Complex>, g: Gate, q: nat) returns (r: seq<Complex>)
    requires IsState(s, n) && On(g, "H", q, n)
    ensures Leads(t, n, s, g, r)
    ensures forall i: nat :: i < |s| ==>
              Flip(i, q) < |s| && r[i] == if Bit(i, q) == 0 then ScaledSum(t.invSqrt2, s[i], s[Flip(i, q)])
                                          else ScaledDifference(t.invSqrt2, s[Flip(i, q)], s[i])
  {
    Decoded(g, "H");
    r := PairLeads(t, n, s, g, q, HMatrix(t));
    forall i: nat | i < |s|
      ensures r[i] == if Bit(i, q) == 0 then ScaledSum(t.invSqrt2, s[i], s[Flip(i, q)])
                      else ScaledDifference(t.invSqrt2, s[Flip(i, q)], s[i])
    {
      HActs(t.invSqrt2, s[i], s[Flip(i, q)]);
      HActs(t.invSqrt2, s[Flip(i, q)], s[i]);
    }
  }

  /** c a - i d b. */
  function TurnedWith(c: real, d: real, a: Complex, b: Complex): Complex {
    Complex(c * a.re + d * b.im, c * a.im - d * b.re)
  }

  lemma RxActs(c: real, d: real, a: Complex, b: Complex)
    ensures Upper(Rx(c, -d), a, b) == TurnedWith(c, d, a, b)
    ensures Lower(Rx(c, -d), a, b) == TurnedWith(c, d, b, a)
  {
  }

  /** RX turns each amplitude of a pair by half the angle towards -i times the other. */
  lemma RxTurns(t: Trig, n: nat, s: seq<Complex>, g: Gate, q: nat) returns (r: seq<Complex>)
    requires IsState(s, n) && On(g, "RX", q, n)
    ensures Leads(t, n, s, g, r)
    ensures var c, d := t.cos(FirstParam(g) / 2.0), t.sin(FirstParam(g) / 2.0);
            forall i: nat :: i < |s| ==> Flip(i, q) < |s| && r[i] == TurnedWith(c, d, s[i], s[Flip(i, q)])
  {
    Decoded(g, "RX");
    var c, d := t.cos(FirstParam(g) / 2.0), t.sin(FirstParam(g) / 2.0);
    r := PairLeads(t, n, s, g, q, Rx(c, -d));
    forall i: nat | i < |s|
      ensures r[i] == TurnedWith(c, d, s[i], s[Flip(i, q)])
    {
      RxActs(c, d, s[i], s[Flip(i, q)]);
      RxActs(c, d, s[Flip(i, q)], s[i]);
    }
  }

  /** (c + i d) a. */
  function TurnedBy(c: real, d: real, a: Complex): Complex {
    Complex(c * a.re - d * a.im, c * a.im + d * a.re)
  }

  lemma RzActs(c: real, d: real, a: Complex, b: Complex)
    ensures Upper(Rz(c, -d), a, b) == TurnedBy(c, -d, a)
    ensures Lower(Rz(c, -d), a, b) == TurnedBy(c, d, b)
  {
  }

  /** RZ turns the phase by half the angle: forward where bit q is set, back where it is not. */
  lemma RzTurns(t: Trig, n: nat, s: seq<Complex>, g: Gate, q: nat) returns (r: seq<Complex>)
    requires IsState(s, n) && On(g, "RZ", q, n)
    ensures Leads(t, n, s, g, r)
    ensures var c, d := t.cos(FirstParam(g) / 2.0), t.sin(FirstParam(g) / 2.0);
            forall i: nat :: i < |s| ==> r[i] == TurnedBy(c, if Bit(i, q) == 1 then d else -d, s[i])
  {
    Decoded(g, "RZ");
    var c, d := t.cos(FirstParam(g) / 2.0), t.sin(FirstParam(g) / 2.0);
    r := PairLeads(t, n, s, g, q, Rz(c, -d));
    forall i: nat | i < |s|
      ensures r[i] == TurnedBy(c, if Bit(i, q) == 1 then d else -d, s[i])
    {
      RzActs(c, d, s[i], s[Flip(i, q)]);
      RzActs(c, d, s[Flip(i, q)], s[i]);
    }
  }

  /** CNOT inverts the target bit exactly where the control bit is set. */
  lemma CnotInverts(t: Trig, n: nat, s: seq<Complex>, g: Gate, control: nat, target: nat) returns (r: seq<Complex>)
    requires IsState(s, n) && OnTwo(g, "CNOT", control, target, n) && control != target
    ensures Leads(t, n, s, g, r)
    ensures forall i: nat :: i < |s| ==>
              Flip(i, target) < |s| && r[i] == s[if Bit(i, control) == 1 then Flip(i, target) else i]
  {
    Decoded(g, "CNOT");
    r := ApplyCnot(s, control, target);
    forall i: nat | i < |s|
      ensures Flip(i, target) < |s| && r[i] == s[if Bit(i, control) == 1 then Flip(i, target) else i]
    {
      FlipBound(i, target, n);
    }
  }

  /** The phase loop looks at both masks together: a qubit without one counts as set, one beyond the register as
      clear. */
  predicate CountsAsSet(i: nat, q: int) { q < 0 || q > 63 || Bit(i, q) == 1 }

  lemma MulTurns(a: Complex, c: real, d: real)
    ensures Mul(a, Complex(c, d)) == TurnedBy(c, d, a)
  {
  }

  lemma CphaseAt(t: Trig, s: seq<Complex>, a: int, b: int, angle: real, i: nat)
    requires i < |s|
    ensures Apply(t, s, CphaseOn(t, a, b, angle))[i]
         == if CountsAsSet(i, a) && CountsAsSet(i, b) then TurnedBy(t.cos(angle), t.sin(angle), s[i]) else s[i]
  {
    var phase := Phase(t, angle);
    MulTurns(s[i], phase.re, phase.im);
    if !CountsAsSet(i, a) || !CountsAsSet(i, b) {
      assert Apply(t, s, CphaseOn(t, a, b, angle))[i] == s[i];
    } else {
      assert Apply(t, s, CphaseOn(t, a, b, angle))[i] == Mul(s[i], phase);
    }
  }

  /** For any integers as qubits, CPHASE turns the phase exactly where both count as set. */
  lemma CphaseAnywhere(t: Trig, n: nat, s: seq<Complex>, g: Gate, a: int, b: int) returns (r: seq<Complex>)
    requires Spells(g.name, "CPHASE") && g.qubits == [a, b]
    ensures Leads(t, n, s, g, r)
    ensures var c, d := t.cos(FirstParam(g)), t.sin(FirstParam(g));
            forall i: nat :: i < |s| ==>
              r[i] == if CountsAsSet(i, a) && CountsAsSet(i, b) then TurnedBy(c, d, s[i]) else s[i]
  {
    Decoded(g, "CPHASE");
    r := Apply(t, s, CphaseOn(t, a, b, FirstParam(g)));
    forall i: nat | i < |s|
      ensures var c, d := t.cos(FirstParam(g)), t.sin(FirstParam(g));
              r[i] == if CountsAsSet(i, a) && CountsAsSet(i, b) then TurnedBy(c, d, s[i]) else s[i]
    {
      CphaseAt(t, s, a, b, FirstParam(g), i);
    }
  }

  /** CPHASE turns the phase by the angle exactly where both bits are set. */
  lemma CphaseTurns(t: Trig, n: nat, s: seq<Complex>, g: Gate, a: nat, b: nat) returns (r: seq<Complex>)
    requires IsState(s, n) && OnTwo(g, "CPHASE", a, b, n)
    ensures Leads(t, n, s, g, r)
    ensures var c, d := t.cos(FirstParam(g)), t.sin(FirstParam(g));
            forall i: nat :: i < |s| ==>
              r[i] == if Bit(i, a) == 1 && Bit(i, b) == 1 then TurnedBy(c, d, s[i]) else s[i]
  {
    r := CphaseAnywhere(t, n, s, g, a, b);
  }

  /** SWAP exchanges two bits of every index. */
  lemma SwapExchanges(t: Trig, n: nat, s: seq<Complex>, g: Gate, a: nat, b: nat) returns (r: seq<Complex>)
    requires IsState(s, n) && OnTwo(g, "SWAP", a, b, n)
    ensures Leads(t, n, s, g, r)
    ensures forall i: nat :: i < |s| ==>
              Flip(Flip(i, a), b) < |s| && r[i] == s[if Bit(i, a) != Bit(i, b) then Flip(Flip(i, a), b) else i]
  {
    Decoded(g, "SWAP");
    r := ApplySwap(s, a, b);
    forall i: nat | i < |s|
      ensures Flip(Flip(i, a), b) < |s|
      ensures r[i] == s[if Bit(i, a) != Bit(i, b) then Flip(Flip(i, a), b) else i]
    {
      FlipBound(i, a, n);
      FlipBound(Flip(i, a), b, n);
    }
  }

  // ---------- qubits that the register does not have ----------

  /** The kinds of gates that take one qubit. */
  const SINGLES := ["H", "X", "Z", "RX", "RZ"]

  /** A gate for one qubit beyond the register, but within the word, indexes outside the state. */
  lemma SinglePanics(t: Trig, n: nat, s: seq<Complex>, g: Gate, k: nat, q: nat)
    requires IsState(s, n) && k < 5 && Spells(g.name, SINGLES[k]) && g.qubits == [q] && n <= q <= 63
    ensures Step(t, n, s, g, false) == IndexPanic
  {
    Decoded(g, SINGLES[k]);
  }

  /** What a gate for one qubit makes of an amplitude that is its own partner. */
  function OnItself(t: Trig, g: Gate, k: nat, a: Complex): Complex {
    var c, d := t.cos(FirstParam(g) / 2.0), t.sin(FirstParam(g) / 2.0);
    match k
    case 0 => ZERO
    case 1 => a
    case 2 => Minus(a)
    case 3 => TurnedWith(c, d, a, a)
    case _ => TurnedBy(c, d, a)
  }

  /** With a negative qubit, or one beyond the word, every amplitude is its own partner: H wipes all of them out, X
      leaves them, Z negates them, RX and RZ turn them. */
  lemma SingleWithoutMask(t: Trig, n: nat, s: seq<Complex>, g: Gate, k: nat, q: int) returns (r: seq<Complex>)
    requires IsState(s, n) && k < 5 && Spells(g.name, SINGLES[k]) && g.qubits == [q] && (q < 0 || q > 63)
    ensures Leads(t, n, s, g, r)
    ensures forall i: nat :: i < |s| ==> r[i] == OnItself(t, g, k, s[i])
  {
    Decoded(g, SINGLES[k]);
    var half := FirstParam(g) / 2.0;
    var m := [HMatrix(t), X_MATRIX, Z_MATRIX, RxMatrix(t, FirstParam(g)), RzMatrix(t, FirstParam(g))][k];
    assert Decode(t, g) == Known(Scale(Add(m.m10, m.m11)));
    r := ApplyScale(s, Add(m.m10, m.m11));
    forall i: nat | i < |s|
      ensures Mul(s[i], Add(m.m10, m.m11)) == OnItself(t, g, k, s[i])
    {
      Scaled(t, g, k, s[i], m);
    }
  }

  lemma Scaled(t: Trig, g: Gate, k: nat, a: Complex, m: Matrix)
    requires k < 5
    requires m == [HMatrix(t), X_MATRIX, Z_MATRIX, RxMatrix(t, FirstParam(g)), RzMatrix(t, FirstParam(g))][k]
    ensures Mul(a, Add(m.m10, m.m11)) == OnItself(t, g, k, a)
  {
    var c, d := t.cos(FirstParam(g) / 2.0), t.sin(FirstParam(g) / 2.0);
    match k {
      case 0 => assert Add(m.m10, m.m11) == ZERO;
      case 1 => assert Add(m.m10, m.m11) == ONE;
      case 2 => assert Add(m.m10, m.m11) == Real(-1.0);
      case 3 => assert Add(m.m10, m.m11) == Complex(c, -d);
      case _ => assert Add(m.m10, m.m11) == Complex(c, d);
    }
  }

  /** In all other cases a CNOT indexes outside the state, where the register has the control but not the target, and
      otherwise changes nothing. */
  lemma CnotElsewhere(t: Trig, n: nat, s: seq<Complex>, g: Gate, control: int, target: int)
    requires IsState(s, n) && Spells(g.name, "CNOT") && g.qubits == [control, target] && n < INT_BITS
    requires !(0 <= control < n && 0 <= target < n && control != target)
    ensures Step(t, n, s, g, false)
         == if 0 <= control < n && n <= target <= 63 then IndexPanic else State(s)
  {
    Decoded(g, "CNOT");
    if 0 <= control <= 63 && 0 <= target <= 63 && !(control < n && n <= target) {
      forall i: nat | i < |s|
        ensures CnotIndex(control, target, i) == i
      {
        if control != target {
          HighBitClear(i, control, n);
        }
      }
      assert ApplyCnot(s, control, target) == s;
    }
  }

  /** In all other cases a SWAP indexes outside the state, where the register has one of two different qubits and the
      other is within the word but not its sign, and otherwise changes nothing. */
  lemma SwapElsewhere(t: Trig, n: nat, s: seq<Complex>, g: Gate, a: int, b: int)
    requires IsState(s, n) && Spells(g.name, "SWAP") && g.qubits == [a, b] && n < INT_BITS
    requires !(0 <= a < n && 0 <= b < n)
    ensures Step(t, n, s, g, false)
         == if (0 <= a < n && n <= b <= 62) || (0 <= b < n && n <= a <= 62) then IndexPanic else State(s)
  {
    Decoded(g, "SWAP");
    if 0 <= a <= 62 && 0 <= b <= 62 && (a >= n <==> b >= n) {
      forall i: nat | i < |s|
        ensures SwapIndex(a, b, i) == i
      {
        HighBitClear(i, a, n);
        HighBitClear(i, b, n);
      }
      assert ApplySwap(s, a, b) == s;
    }
  }

  lemma {:induction false} PrefixFaults(t: Trig, n: nat, s: seq<Complex>, gates: seq<Gate>, done: nat -> bool, k: nat)
    requires k <= |gates|
    ensures var o := RunPrefix(t, n, s, gates, done, k); o != Failed(NoQubits) && o != Failed(TooManyQubits)
  {
    if k > 0 {
      PrefixFaults(t, n, s, gates, done, k - 1);
    }
  }

  /** A circuit is refused for its size exactly on no qubits or more than 24; otherwise it starts from the first basis
      state. */
  lemma {:induction false} SizesExactly(t: Trig, nQubits: int, gates: seq<Gate>, done: nat -> bool)
    ensures Run(t, nQubits, gates, done) == Failed(NoQubits) <==> nQubits <= 0
    ensures Run(t, nQubits, gates, done) == Failed(TooManyQubits) <==> nQubits > 24
    ensures 0 < nQubits <= 24 ==>
              exists s: seq<Complex> ::
                |s| == Pow2(nQubits) && Basis(s)
                && Run(t, nQubits, gates, done) == RunPrefix(t, nQubits, s, gates, done, |gates|)
  {
    if 0 < nQubits <= 24 {
      PrefixFaults(t, nQubits, Ground(nQubits), gates, done, |gates|);
      assert Basis(Ground(nQubits));
    }
  }

  predicate Basis(s: seq<Complex>) {
    forall i :: 0 <= i < |s| ==> s[i] == if i == 0 then Complex(1.0, 0.0) else Complex(0.0, 0.0)
  }

  /** The laws that the functions called are supposed to obey can be obeyed. */
  lemma LawsCanHold(h: real)
    requires 2.0 * h * h == 1.0
    ensures IsTrig(Trig(x => 1.0, x => 0.0, h))
  {
  }

  /** The sums of the real and of the imaginary parts. */
  lemma {:induction false} SumOfParts(s: seq<Complex>)
    ensures SumComplex(s).re == Sum(seq(|s|, i requires 0 <= i < |s| => s[i].re))
    ensures SumComplex(s).im == Sum(seq(|s|, i requires 0 <= i < |s| => s[i].im))
  {
    if s != [] {
      var p := s[..|s| - 1];
      SumOfParts(p);
      var u, v := seq(|s|, i requires 0 <= i < |s| => s[i].re), seq(|s|, i requires 0 <= i < |s| => s[i].im);
      assert u[..|u| - 1] == seq(|p|, i requires 0 <= i < |p| => p[i].re);
      assert v[..|v| - 1] == seq(|p|, i requires 0 <= i < |p| => p[i].im);
    }
  }

  /** DIFFUSION reflects every amplitude about the mean of all, whatever qubits are given. */
  lemma DiffusionReflects(t: Trig, n: nat, s: seq<Complex>, g: Gate) returns (r: seq<Complex>)
    requires IsState(s, n) && Spells(g.name, "DIFFUSION")
    ensures Leads(t, n, s, g, r)
    ensures var re, im := Sum(seq(|s|, i requires 0 <= i < |s| => s[i].re)),
                          Sum(seq(|s|, i requires 0 <= i < |s| => s[i].im));
            forall i: nat :: i < |s| ==>
              r[i] == Complex(2.0 * (re / |s| as real) - s[i].re, 2.0 * (im / |s| as real) - s[i].im)
  {
    Decoded(g, "DIFFUSION");
    SumOfParts(s);
    r := Diffuse(s);
  }

  const NAMES := ["H", "X", "Z", "RX", "RZ", "CNOT", "CPHASE", "SWAP", "DIFFUSION"]

  /** A name that spells none of these changes nothing, whatever its qubits and parameters. */
  lemma OtherNamesDoNothing(t: Trig, n: nat, s: seq<Complex>, g: Gate)
    requires forall k :: 0 <= k < |NAMES| ==> !Spells(g.name, NAMES[k])
    ensures Leads(t, n, s, g, s)
  {
    forall k | 0 <= k < |NAMES|
      ensures ToUpper(g.name) != NAMES[k]
    {
      SpelledCapitals(g.name, NAMES[k]);
    }
    assert ToUpper(g.name) != NAMES[0] && ToUpper(g.name) != NAMES[1] && ToUpper(g.name) != NAMES[2];
    assert ToUpper(g.name) != NAMES[3] && ToUpper(g.name) != NAMES[4] && ToUpper(g.name) != NAMES[5];
    assert ToUpper(g.name) != NAMES[6] && ToUpper(g.name) != NAMES[7] && ToUpper(g.name) != NAMES[8];
  }

  /** The number of qubits a named gate takes. */
  function Takes(k: nat): nat { if k < 5 then 1 else 2 }

  /** Any other number of qubits ends the run with an error; the diffusion alone takes any. */
  lemma WrongArity(t: Trig, n: nat, s: seq<Complex>, g: Gate, k: nat)
    requires k < 8 && Spells(g.name, NAMES[k])
    ensures Step(t, n, s, g, false) == Failed(Arity) <==> |g.qubits| != Takes(k)
  {
    Decoded(g, NAMES[k]);
  }

  // ---------- laws between named gates ----------

  function Never(i: nat): bool { false }

  /** The state after a list of gates that all run. */
  predicate Yields(t: Trig, n: nat, s: seq<Complex>, gates: seq<Gate>, r: seq<Complex>) {
    RunPrefix(t, n, s, gates, Never, |gates|) == State(r)
  }

  lemma {:induction false} SamePrefix(t: Trig, n: nat, s: seq<Complex>, a: seq<Gate>, b: seq<Gate>, k: nat)
    requires k <= |a| && k <= |b| && a[..k] == b[..k]
    ensures RunPrefix(t, n, s, a, Never, k) == RunPrefix(t, n, s, b, Never, k)
  {
    if k > 0 {
      assert a[..k][k - 1] == b[..k][k - 1];
      assert a[..k - 1] == a[..k][..k - 1] && b[..k - 1] == b[..k][..k - 1];
      SamePrefix(t, n, s, a, b, k - 1);
    }
  }

  lemma {:induction false} OneMore(t: Trig, n: nat, s: seq<Complex>, gates: seq<Gate>, mid: seq<Complex>, g: Gate,
                                   r: seq<Complex>)
    requires Yields(t, n, s, gates, mid) && Leads(t, n, mid, g, r)
    ensures Yields(t, n, s, gates + [g], r)
  {
    assert (gates + [g])[..|gates|] == gates[..|gates|];
    SamePrefix(t, n, s, gates + [g], gates, |gates|);
  }

  lemma {:induction false} InTurn(t: Trig, n: nat, s: seq<Complex>, f: Gate, a: seq<Complex>, g: Gate, b: seq<Complex>,
                                  h: Gate, r: seq<Complex>)
    requires Leads(t, n, s, f, a) && Leads(t, n, a, g, b) && Leads(t, n, b, h, r)
    ensures Yields(t, n, s, [f, g, h], r)
  {
    OneMore(t, n, s, [], s, f, a);
    OneMore(t, n, s, [] + [f], a, g, b);
    OneMore(t, n, s, [] + [f] + [g], b, h, r);
    assert [] + [f] + [g] + [h] == [f, g, h];
  }

  lemma {:induction false} Alone(t: Trig, n: nat, s: seq<Complex>, g: Gate, r: seq<Complex>)
    requires Leads(t, n, s, g, r)
    ensures Yields(t, n, s, [g], r)
  {
    OneMore(t, n, s, [], s, g, r);
    assert [] + [g] == [g];
  }

  /** On every qubit and state, H X H runs to what Z runs to. */
  lemma HxhIsZ(t: Trig, n: nat, s: seq<Complex>, q: nat) returns (r: seq<Complex>)
    requires IsTrig(t) && IsState(s, n) && q < n < INT_BITS
    ensures Yields(t, n, s, [Gate("H", [q], []), Gate("X", [q], []), Gate("H", [q], [])], r)
    ensures Yields(t, n, s, [Gate("Z", [q], [])], r)
  {
    var h, x, z := Gate("H", [q], []), Gate("X", [q], []), Gate("Z", [q], []);
    var a := HMixes(t, n, s, h, q);
    var b := XMoves(t, n, a, x, q);
    var c := HMixes(t, n, b, h, q);
    r := ZNegates(t, n, s, z, q);
    forall i: nat | i < |s|
      ensures c[i] == r[i]
    {
      HxhAt(t.invSqrt2, n, s, a, b, c, q, i);
    }
    assert c == r;
    InTurn(t, n, s, h, a, x, b, h, c);
    Alone(t, n, s, z, r);
  }

  /** The amplitude at i after an H, from those before. */
  function Mixed(h: real, s: seq<Complex>, q: nat, i: nat): Complex
    requires i < |s| && Flip(i, q) < |s|
  {
    if Bit(i, q) == 0 then ScaledSum(h, s[i], s[Flip(i, q)]) else ScaledDifference(h, s[Flip(i, q)], s[i])
  }

  lemma {:induction false} HxhAt(h: real, n: nat, s: seq<Complex>, a: seq<Complex>, b: seq<Complex>, c: seq<Complex>,
                                 q: nat, i: nat)
    requires 2.0 * h * h == 1.0 && q < n && |s| == |a| == |b| == |c| == Pow2(n) && i < |s| && Flip(i, q) < |s|
    requires a[i] == Mixed(h, s, q, i) && Flip(Flip(i, q), q) < |s| && a[Flip(i, q)] == Mixed(h, s, q, Flip(i, q))
    requires b[i] == a[Flip(i, q)] && b[Flip(i, q)] == a[Flip(Flip(i, q), q)] && c[i] == Mixed(h, b, q, i)
    ensures c[i] == if Bit(i, q) == 1 then Minus(s[i]) else s[i]
  {
    FlipTwice(i, q);
    BitOfFlip(i, q, q);
    if Bit(i, q) == 0 {
      HxhOnPair(h, s[i], s[Flip(i, q)]);
    } else {
      HxhOnPair(h, s[Flip(i, q)], s[i]);
    }
  }

  /** The two H's on a pair whose halves are exchanged between them. */
  lemma HxhOnPair(h: real, x: Complex, y: Complex)
    requires 2.0 * h * h == 1.0
    ensures ScaledSum(h, ScaledDifference(h, x, y), ScaledSum(h, x, y)) == x
    ensures ScaledDifference(h, ScaledDifference(h, x, y), ScaledSum(h, x, y)) == Minus(y)
  {
    HalfTwice(h, x.re, y.re);
    HalfTwice(h, x.im, y.im);
  }

  lemma HalfTwice(h: real, x: real, y: real)
    requires 2.0 * h * h == 1.0
    ensures h * (h * (x - y) + h * (x + y)) == x
    ensures h * (h * (x - y) - h * (x + y)) == -y
  {
    assert h * (h * (x - y) + h * (x + y)) == (2.0 * h * h) * x;
    assert h * (h * (x - y) - h * (x + y)) == -((2.0 * h * h) * y);
  }

  /** On every pair of qubits and state, three CNOTs in turn run to what SWAP runs to. */
  lemma ThreeCnotsSwap(t: Trig, n: nat, s: seq<Complex>, a: nat, b: nat) returns (r: seq<Complex>)
    requires IsState(s, n) && a < n && b < n && a != b && n < INT_BITS
    ensures Yields(t, n, s, [Gate("CNOT", [a, b], []), Gate("CNOT", [b, a], []), Gate("CNOT", [a, b], [])], r)
    ensures Yields(t, n, s, [Gate("SWAP", [a, b], [])], r)
  {
    var ab, ba, swap := Gate("CNOT", [a, b], []), Gate("CNOT", [b, a], []), Gate("SWAP", [a, b], []);
    var x := CnotInverts(t, n, s, ab, a, b);
    var y := CnotInverts(t, n, x, ba, b, a);
    var z := CnotInverts(t, n, y, ab, a, b);
    r := SwapExchanges(t, n, s, swap, a, b);
    forall i: nat | i < |s|
      ensures z[i] == r[i]
    {
      ThreeSources(n, a, b, i);
    }
    assert z == r;
    InTurn(t, n, s, ab, x, ba, y, ab, z);
    Alone(t, n, s, swap, r);
  }

  /** Where a CNOT takes the amplitude of i from. */
  function Source(control: nat, target: nat, i: nat): nat { if Bit(i, control) == 1 then Flip(i, target) else i }

  lemma {:induction false} ThreeSources(n: nat, a: nat, b: nat, i: nat)
    requires a < n && b < n && a != b && i < Pow2(n)
    ensures var j := Source(a, b, i);
            var k := Source(b, a, j);
            && j < Pow2(n) && k < Pow2(n)
            && Source(a, b, k) == if Bit(i, a) != Bit(i, b) then Flip(Flip(i, a), b) else i
  {
    FlipBound(i, b, n);
    FlipBound(Source(a, b, i), a, n);
    ThreeCnotIndices(a, b, i);
  }
}
