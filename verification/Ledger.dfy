/** Per-resource amounts: maps from resource types to reals read with a default of zero, as Go's maps are. */
module Ledger {
  type RType = string

  function Get(m: map<RType, real>, rt: RType): real {
    if rt in m then m[rt] else 0.0
  }

  function Max(a: real, b: real): real {
    if a < b then b else a
  }

  /** m[rt] += reqs[rt] for every required type. */
  function Plus(m: map<RType, real>, reqs: map<RType, real>): map<RType, real> {
    map rt | rt in m.Keys + reqs.Keys :: Get(m, rt) + Get(reqs, rt)
  }

  /** m[rt] -= reqs[rt] for every required type. */
  function Minus(m: map<RType, real>, reqs: map<RType, real>): map<RType, real> {
    map rt | rt in m.Keys + reqs.Keys :: Get(m, rt) - Get(reqs, rt)
  }

  /** m[rt] = max(0, m[rt] - reqs[rt]) for every required type. */
  function MinusClamped(m: map<RType, real>, reqs: map<RType, real>): map<RType, real> {
    map rt | rt in m.Keys + reqs.Keys :: if rt in reqs then Max(0.0, Get(m, rt) - reqs[rt]) else m[rt]
  }

  ghost predicate NonNeg(m: map<RType, real>) {
    forall rt :: rt in m ==> m[rt] >= 0.0
  }

  predicate Fits(avail: map<RType, real>, reqs: map<RType, real>) {
    forall rt :: rt in reqs ==> Get(avail, rt) >= reqs[rt]
  }

  lemma PlusOne(m: map<RType, real>, reqs: map<RType, real>, rt: RType, amt: real)
    requires rt !in reqs
    ensures Plus(m, reqs[rt := amt]) == Plus(m, reqs)[rt := Get(Plus(m, reqs), rt) + amt]
  {
  }

  lemma MinusOne(m: map<RType, real>, reqs: map<RType, real>, rt: RType, amt: real)
    requires rt !in reqs
    ensures Minus(m, reqs[rt := amt]) == Minus(m, reqs)[rt := Get(Minus(m, reqs), rt) - amt]
  {
  }

  lemma MinusClampedOne(m: map<RType, real>, reqs: map<RType, real>, rt: RType, amt: real)
    requires rt !in reqs
    ensures MinusClamped(m, reqs[rt := amt])
         == MinusClamped(m, reqs)[rt := Max(0.0, Get(MinusClamped(m, reqs), rt) - amt)]
  {
  }

  // ---------- sums over the values of a map ----------

  ghost function Pick<K>(m: map<K, real>): (k: K)
    requires m != map[]
    ensures k in m
  {
    var k :| k in m;
    k
  }

  ghost function SumOf<K>(m: map<K, real>): real {
    if m == map[] then 0.0
    else
      var k := Pick(m);
      m[k] + SumOf(m - {k})
  }

  /** Any entry may be taken out first. */
  lemma {:induction false} SumWithout<K>(m: map<K, real>, k: K)
    requires k in m
    ensures SumOf(m) == m[k] + SumOf(m - {k})
  {
    var first := Pick(m);
    if k != first {
      SumWithout(m - {first}, k);
      SumWithout(m - {k}, first);
      assert m - {first} - {k} == m - {k} - {first};
    }
  }

  lemma SumWith<K>(m: map<K, real>, k: K, v: real)
    requires k !in m
    ensures SumOf(m[k := v]) == SumOf(m) + v
  {
    SumWithout(m[k := v], k);
    assert m[k := v] - {k} == m;
  }

  lemma {:induction false} SumBounds<K>(m: map<K, real>, k: K)
    requires k in m && forall x :: x in m ==> m[x] >= 0.0
    ensures 0.0 <= m[k] <= SumOf(m)
  {
    SumWithout(m, k);
    if m - {k} != map[] {
      var other := Pick(m - {k});
      SumBounds(m - {k}, other);
    }
  }
}
