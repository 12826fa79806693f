/** Basis indices of an n-qubit state seen as bit strings.
    `Bit` and `Flip` recurse on the index, so every proof about masks is linear arithmetic;
    `BitIsShift` and `FlipIsMask` tie them back to shifts and masks. */
module Bits {
  function Pow2(n: nat): (p: nat)
    ensures p >= 1
  {
    if n == 0 then 1 else 2 * Pow2(n - 1)
  }

  /** Bit k of i. */
  function Bit(i: nat, k: nat): (b: nat)
    ensures b <= 1
  {
    if k == 0 then i % 2 else Bit(i / 2, k - 1)
  }

  /** i with bit k inverted: `i ^ (1 << k)`. */
  function Flip(i: nat, k: nat): nat {
    if k == 0 then (if i % 2 == 0 then i + 1 else i - 1)
    else 2 * Flip(i / 2, k - 1) + i % 2
  }

  lemma {:induction false} BitIsShift(i: nat, k: nat)
    ensures Bit(i, k) == i / Pow2(k) % 2
  {
    if k > 0 {
      BitIsShift(i / 2, k - 1);
      var p := Pow2(k - 1);
      assert i / 2 / p == i / (2 * p) by { HalfThenDivide(i, p); }
    }
  }

  lemma HalfThenDivide(i: nat, p: nat)
    requires p > 0
    ensures i / 2 / p == i / (2 * p)
  {
    var q := i / (2 * p);
    var r := i % (2 * p);
    assert i == q * (2 * p) + r;
    assert i / 2 == q * p + r / 2 by {
      assert q * (2 * p) == 2 * (q * p);
    }
    assert (q * p + r / 2) / p == q by { QuotientUnique(q, p, r / 2); }
  }

  lemma QuotientUnique(q: nat, p: nat, r: nat)
    requires r < p
    ensures (q * p + r) / p == q
  {
    var x := q * p + r;
    var z := x / p;
    assert z * p <= x < z * p + p;
    if z < q {
      Multiply(z + 1, q, p);
      Multiply(z, z, p);
    } else if q < z {
      Multiply(q + 1, z, p);
      Multiply(q, q, p);
    }
  }

  lemma Multiply(a: nat, b: nat, p: nat)
    requires a <= b
    ensures a * p <= b * p
    ensures (a + 1) * p == a * p + p
  {
  }

  /** On a clear bit, `Flip` is `i | mask`; on a set bit it clears the mask. */
  lemma {:induction false} FlipIsMask(i: nat, k: nat)
    ensures Bit(i, k) == 0 ==> Flip(i, k) == i + Pow2(k)
    ensures Bit(i, k) == 1 ==> Flip(i, k) + Pow2(k) == i
  {
    if k > 0 {
      FlipIsMask(i / 2, k - 1);
    }
  }

  lemma FlipHalves(i: nat, k: nat)
    requires k > 0
    ensures Flip(i, k) / 2 == Flip(i / 2, k - 1) && Flip(i, k) % 2 == i % 2
  {
  }

  lemma SameHalves(a: nat, b: nat)
    requires a / 2 == b / 2 && a % 2 == b % 2
    ensures a == b
  {
  }

  lemma {:induction false} FlipLowest(i: nat)
    ensures Flip(i, 0) / 2 == i / 2 && Flip(i, 0) % 2 == 1 - i % 2
  {
  }

  lemma {:induction false} FlipLowestCommutes(i: nat, l: nat)
    requires l > 0
    ensures Flip(Flip(i, 0), l) == Flip(Flip(i, l), 0)
  {
    FlipLowest(i);
    FlipHalves(i, l);
    FlipHalves(Flip(i, 0), l);
    FlipLowest(Flip(i, l));
    SameHalves(Flip(Flip(i, 0), l), Flip(Flip(i, l), 0));
  }

  lemma FlipTwoHalves(i: nat, k: nat, l: nat)
    requires k > 0 && l > 0
    ensures var x := Flip(Flip(i, k), l); x / 2 == Flip(Flip(i / 2, k - 1), l - 1) && x % 2 == i % 2
  {
    FlipHalves(i, k);
    FlipHalves(Flip(i, k), l);
  }

  lemma {:induction false} FlipTwice(i: nat, k: nat)
    ensures Flip(Flip(i, k), k) == i
  {
    if k > 0 {
      FlipTwice(i / 2, k - 1);
      FlipTwoHalves(i, k, k);
      SameHalves(Flip(Flip(i, k), k), i);
    }
  }

  lemma {:induction false} FlipCommutes(i: nat, k: nat, l: nat)
    ensures Flip(Flip(i, k), l) == Flip(Flip(i, l), k)
  {
    if k > 0 && l > 0 {
      FlipCommutes(i / 2, k - 1, l - 1);
      FlipTwoHalves(i, k, l);
      FlipTwoHalves(i, l, k);
      SameHalves(Flip(Flip(i, k), l), Flip(Flip(i, l), k));
    } else if k > 0 {
      FlipLowestCommutes(i, k);
    } else if l > 0 {
      FlipLowestCommutes(i, l);
    }
  }

  lemma {:induction false} BitOfFlip(i: nat, k: nat, l: nat)
    ensures Bit(Flip(i, k), l) == if k == l then 1 - Bit(i, l) else Bit(i, l)
  {
    if k > 0 && l > 0 {
      BitOfFlip(i / 2, k - 1, l - 1);
    }
  }

  lemma HalfBelow(i: nat, p: nat)
    ensures i < 2 * p <==> i / 2 < p
  {
  }

  lemma {:induction false} FlipBound(i: nat, k: nat, n: nat)
    requires k < n
    ensures i < Pow2(n) <==> Flip(i, k) < Pow2(n)
  {
    HalfBelow(i, Pow2(n - 1));
    HalfBelow(Flip(i, k), Pow2(n - 1));
    if k > 0 {
      FlipHalves(i, k);
      FlipBound(i / 2, k - 1, n - 1);
    } else {
      FlipLowest(i);
    }
  }

  /** A bit at or above n is clear in every index below 2^n, and setting it leaves that range. */
  lemma {:induction false} HighBitClear(i: nat, k: nat, n: nat)
    requires n <= k && i < Pow2(n)
    ensures Bit(i, k) == 0 && Flip(i, k) >= Pow2(n)
  {
    if n == 0 {
      ZeroBits(k);
      FlipIsMask(0, k);
    } else {
      HighBitClear(i / 2, k - 1, n - 1);
    }
  }

  lemma {:induction false} ZeroBits(k: nat)
    ensures Bit(0, k) == 0
  {
    if k > 0 {
      ZeroBits(k - 1);
    }
  }

  /** Below 2^(k+1), bit k says which half the index lies in. */
  lemma {:induction false} TopBit(i: nat, k: nat)
    requires i < Pow2(k + 1)
    ensures Bit(i, k) == 0 <==> i < Pow2(k)
  {
    if k > 0 {
      TopBit(i / 2, k - 1);
    }
  }
}
