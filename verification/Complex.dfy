/** Exact complex arithmetic over the reals, and real sums over sequences. */
module ComplexNumbers {
  datatype Complex = Complex(re: real, im: real)

  const ZERO := Complex(0.0, 0.0)
  const ONE := Complex(1.0, 0.0)

  function Add(x: Complex, y: Complex): Complex {
    Complex(x.re + y.re, x.im + y.im)
  }

  function Sub(x: Complex, y: Complex): Complex {
    Complex(x.re - y.re, x.im - y.im)
  }

  function Mul(x: Complex, y: Complex): Complex {
    Complex(x.re * y.re - x.im * y.im, x.re * y.im + x.im * y.re)
  }

  function Real(r: real): Complex {
    Complex(r, 0.0)
  }

  /** Squared magnitude. */
  function Norm2(x: Complex): real {
    x.re * x.re + x.im * x.im
  }

  lemma MulAssociative(x: Complex, y: Complex, z: Complex)
    ensures Mul(Mul(x, y), z) == Mul(x, Mul(y, z))
  {
  }

  lemma MulDistributesLeft(x: Complex, y: Complex, z: Complex)
    ensures Mul(x, Add(y, z)) == Add(Mul(x, y), Mul(x, z))
  {
  }

  lemma MulDistributesRight(x: Complex, y: Complex, z: Complex)
    ensures Mul(Add(x, y), z) == Add(Mul(x, z), Mul(y, z))
  {
  }

  lemma MulDistributes(x: Complex, y: Complex, z: Complex)
    ensures Mul(x, Add(y, z)) == Add(Mul(x, y), Mul(x, z))
    ensures Mul(Add(x, y), z) == Add(Mul(x, z), Mul(y, z))
  {
    MulDistributesLeft(x, y, z);
    MulDistributesRight(x, y, z);
  }

  lemma MulNorm2(x: Complex, y: Complex)
    ensures Norm2(Mul(x, y)) == Norm2(x) * Norm2(y)
  {
  }

  /** A 2x2 complex matrix, row by row. */
  datatype Matrix = Matrix(m00: Complex, m01: Complex, m10: Complex, m11: Complex)

  function Upper(m: Matrix, a: Complex, b: Complex): Complex {
    Add(Mul(m.m00, a), Mul(m.m01, b))
  }

  function Lower(m: Matrix, a: Complex, b: Complex): Complex {
    Add(Mul(m.m10, a), Mul(m.m11, b))
  }

  /** l undoes m on every amplitude pair. */
  ghost predicate Undoes(l: Matrix, m: Matrix) {
    forall a, b {:trigger Upper(m, a, b)} ::
      Upper(l, Upper(m, a, b), Lower(m, a, b)) == a && Lower(l, Upper(m, a, b), Lower(m, a, b)) == b
  }

  /** The product of l and m is the identity matrix. */
  ghost predicate RowsUndo(l: Matrix, m: Matrix) {
    && Add(Mul(l.m00, m.m00), Mul(l.m01, m.m10)) == ONE
    && Add(Mul(l.m00, m.m01), Mul(l.m01, m.m11)) == ZERO
    && Add(Mul(l.m10, m.m00), Mul(l.m11, m.m10)) == ZERO
    && Add(Mul(l.m10, m.m01), Mul(l.m11, m.m11)) == ONE
  }

  lemma RowUndone(p: Complex, q: Complex, m: Matrix, a: Complex, b: Complex)
    ensures Add(Mul(p, Upper(m, a, b)), Mul(q, Lower(m, a, b)))
         == Add(Mul(Add(Mul(p, m.m00), Mul(q, m.m10)), a), Mul(Add(Mul(p, m.m01), Mul(q, m.m11)), b))
  {
    MulDistributes(p, Mul(m.m00, a), Mul(m.m01, b));
    MulDistributes(q, Mul(m.m10, a), Mul(m.m11, b));
    MulAssociative(p, m.m00, a);
    MulAssociative(p, m.m01, b);
    MulAssociative(q, m.m10, a);
    MulAssociative(q, m.m11, b);
    MulDistributes(Mul(p, m.m00), Mul(q, m.m10), a);
    MulDistributes(Mul(p, m.m01), Mul(q, m.m11), b);
  }

  lemma RowsUndoPairs(l: Matrix, m: Matrix)
    requires RowsUndo(l, m)
    ensures Undoes(l, m)
  {
    forall a, b
      ensures Upper(l, Upper(m, a, b), Lower(m, a, b)) == a
      ensures Lower(l, Upper(m, a, b), Lower(m, a, b)) == b
    {
      RowUndone(l.m00, l.m01, m, a, b);
      RowUndone(l.m10, l.m11, m, a, b);
    }
  }

  /** m keeps the squared magnitude of every amplitude pair. */
  ghost predicate Unitary(m: Matrix) {
    forall a, b {:trigger Upper(m, a, b)} ::
      Norm2(Upper(m, a, b)) + Norm2(Lower(m, a, b)) == Norm2(a) + Norm2(b)
  }

  /** The columns of m are orthonormal. */
  ghost predicate OrthonormalColumns(m: Matrix) {
    && Norm2(m.m00) + Norm2(m.m10) == 1.0
    && Norm2(m.m01) + Norm2(m.m11) == 1.0
    && Dot(m.m00, m.m01) + Dot(m.m10, m.m11) == 0.0
    && Cross(m.m00, m.m01) + Cross(m.m10, m.m11) == 0.0
  }

  /** Real and imaginary part of conj(x) * y. */
  function Dot(x: Complex, y: Complex): real {
    x.re * y.re + x.im * y.im
  }

  function Cross(x: Complex, y: Complex): real {
    x.re * y.im - x.im * y.re
  }

  lemma AddNorm2(x: Complex, y: Complex)
    ensures Norm2(Add(x, y)) == Norm2(x) + Norm2(y) + 2.0 * Dot(x, y)
  {
  }

  lemma DotOfProducts(p: Complex, q: Complex, a: Complex, b: Complex)
    ensures Dot(Mul(p, a), Mul(q, b)) == Dot(p, q) * Dot(a, b) - Cross(p, q) * Cross(a, b)
  {
  }

  lemma OrthonormalIsUnitary(m: Matrix)
    requires OrthonormalColumns(m)
    ensures Unitary(m)
  {
    forall a, b
      ensures Norm2(Upper(m, a, b)) + Norm2(Lower(m, a, b)) == Norm2(a) + Norm2(b)
    {
      OrthonormalPair(m, a, b);
    }
  }

  lemma OrthonormalPair(m: Matrix, a: Complex, b: Complex)
    requires OrthonormalColumns(m)
    ensures Norm2(Upper(m, a, b)) + Norm2(Lower(m, a, b)) == Norm2(a) + Norm2(b)
  {
    AddNorm2(Mul(m.m00, a), Mul(m.m01, b));
    AddNorm2(Mul(m.m10, a), Mul(m.m11, b));
    MulNorm2(m.m00, a);
    MulNorm2(m.m01, b);
    MulNorm2(m.m10, a);
    MulNorm2(m.m11, b);
    DotOfProducts(m.m00, m.m01, a, b);
    DotOfProducts(m.m10, m.m11, a, b);
    Factor(Norm2(m.m00), Norm2(m.m10), Norm2(a));
    Factor(Norm2(m.m01), Norm2(m.m11), Norm2(b));
    Factor(Dot(m.m00, m.m01), Dot(m.m10, m.m11), Dot(a, b));
    Factor(Cross(m.m00, m.m01), Cross(m.m10, m.m11), Cross(a, b));
  }

  lemma Factor(x: real, y: real, z: real)
    ensures x * z + y * z == (x + y) * z
  {
  }

  /** Sum of a sequence of reals, in the order the loops add it up. */
  function Sum(u: seq<real>): real {
    if u == [] then 0.0 else Sum(u[..|u| - 1]) + u[|u| - 1]
  }

  function Evens(u: seq<real>): seq<real> {
    seq(|u| / 2, i requires 0 <= i < |u| / 2 => u[2 * i])
  }

  function Odds(u: seq<real>): seq<real> {
    seq(|u| / 2, i requires 0 <= i < |u| / 2 => u[2 * i + 1])
  }

  lemma {:induction false} SumEvenOdd(u: seq<real>)
    requires |u| % 2 == 0
    ensures Sum(u) == Sum(Evens(u)) + Sum(Odds(u))
  {
    var n := |u|;
    if n > 0 {
      var v := u[..n - 2];
      SumEvenOdd(v);
      assert u[..n - 1][..n - 2] == v;
      assert Evens(u)[..n / 2 - 1] == Evens(v);
      assert Odds(u)[..n / 2 - 1] == Odds(v);
    }
  }

  /** x added n times. */
  function Times(n: nat, x: real): real {
    if n == 0 then 0.0 else Times(n - 1, x) + x
  }

  lemma {:induction false} TimesIsProduct(n: nat, x: real)
    ensures Times(n, x) == n as real * x
  {
    if n > 0 {
      TimesIsProduct(n - 1, x);
      assert n as real == (n - 1) as real + 1.0;
      Factor((n - 1) as real, 1.0, x);
    }
  }

  lemma {:induction false} TimesAdd(a: nat, b: nat, x: real)
    ensures Times(a + b, x) == Times(a, x) + Times(b, x)
  {
    if b > 0 {
      TimesAdd(a, b - 1, x);
    }
  }

  lemma {:induction false} TimesOfSum(n: nat, x: real, y: real)
    ensures Times(n, x + y) == Times(n, x) + Times(n, y)
  {
    if n > 0 {
      TimesOfSum(n - 1, x, y);
    }
  }

  lemma {:induction false} SumAffine(u: seq<real>, v: seq<real>, w: seq<real>, c: real)
    requires |u| == |v| == |w|
    requires forall i :: 0 <= i < |u| ==> u[i] == v[i] + c - w[i]
    ensures Sum(u) == Sum(v) + Times(|u|, c) - Sum(w)
  {
    var n := |u|;
    if n > 0 {
      SumAffine(u[..n - 1], v[..n - 1], w[..n - 1], c);
    }
  }
}
