/** Policy selection: Pareto dominance over score vectors, the front, and the two built-in ways to pick from it. */
module Pareto {
  import opened Ledger
  import opened Pools
  import opened Options

  type Vec = map<string, real>

  /** At least as good in every dimension of b, and better in one. A dimension missing from a counts as worse. */
  predicate Dominates(a: Vec, b: Vec) {
    && (forall k :: k in b ==> k in a && a[k] >= b[k])
    && exists k :: k in b && k in a && a[k] > b[k]
  }

  /** The comparison loop; it stops at the first dimension in which a is worse. */
  method DominatesScan(a: Vec, b: Vec) returns (d: bool)
    ensures d == Dominates(a, b)
  {
    var anyGreater := false;
    var todo := b.Keys;
    while todo != {}
      invariant todo <= b.Keys
      invariant forall k :: k in b && k !in todo ==> k in a && a[k] >= b[k]
      invariant anyGreater <==> exists k :: k in b && k !in todo && k in a && a[k] > b[k]
    {
      var k :| k in todo;
      if k !in a || a[k] < b[k] {
        return false;
      }
      if a[k] > b[k] {
        anyGreater := true;
      }
      todo := todo - {k};
    }
    return anyGreater;
  }

  lemma DominatesTransitive(a: Vec, b: Vec, c: Vec)
    requires Dominates(a, b) && Dominates(b, c)
    ensures Dominates(a, c)
  {
    var k :| k in c && k in b && b[k] > c[k];
    assert k in a && a[k] > c[k];
  }

  ghost predicate Undominated(vecs: seq<Vec>, i: nat)
    requires i < |vecs|
  {
    forall j :: 0 <= j < |vecs| ==> !Dominates(vecs[j], vecs[i])
  }

  /** The indices no other candidate dominates, in order, found with one flag per candidate. */
  method ParetoFrontIndices(vecs: seq<Vec>) returns (front: seq<nat>)
    ensures forall i :: i in front <==> 0 <= i < |vecs| && Undominated(vecs, i)
    ensures forall x, y :: 0 <= x < y < |front| ==> front[x] < front[y]
    ensures vecs != [] ==> front != []
  {
    var n := |vecs|;
    var isDominated := new bool[n](_ => false);
    for i := 0 to n
      invariant forall k :: 0 <= k < i ==> (isDominated[k] <==> !Undominated(vecs, k))
      invariant forall k :: i <= k < n ==> !isDominated[k]
    {
      for j := 0 to n
        invariant forall k :: 0 <= k < i ==> (isDominated[k] <==> !Undominated(vecs, k))
        invariant forall k :: i <= k < n ==> !isDominated[k]
        invariant forall k :: 0 <= k < j ==> !Dominates(vecs[k], vecs[i])
      {
        if i == j {
          continue;
        }
        var d := DominatesScan(vecs[j], vecs[i]);
        if d {
          isDominated[i] := true;
          break;
        }
      }
    }
    front := [];
    for i := 0 to n
      invariant forall k :: k in front <==> 0 <= k < i && Undominated(vecs, k)
      invariant forall x :: 0 <= x < |front| ==> front[x] < i
      invariant forall x, y :: 0 <= x < y < |front| ==> front[x] < front[y]
    {
      ghost var before := front;
      if !isDominated[i] {
        front := front + [i];
        assert forall k :: k in front <==> k in before || k == i;
      }
    }
    if vecs != [] {
      var m := Above(vecs, 0);
      assert m in front;
    }
  }

  ghost function Dominators(vecs: seq<Vec>, i: nat): set<nat>
    requires i < |vecs|
  {
    set j: nat | j < |vecs| && Dominates(vecs[j], vecs[i])
  }

  /** Above every candidate there is one on the front: itself, or one that dominates it. */
  lemma {:induction false} Above(vecs: seq<Vec>, i: nat) returns (m: nat)
    requires i < |vecs|
    ensures m < |vecs| && Undominated(vecs, m) && (m == i || Dominates(vecs[m], vecs[i]))
    decreases |Dominators(vecs, i)|
  {
    if Undominated(vecs, i) {
      m := i;
    } else {
      var j :| 0 <= j < |vecs| && Dominates(vecs[j], vecs[i]);
      forall k | k in Dominators(vecs, j)
        ensures k in Dominators(vecs, i)
      {
        DominatesTransitive(vecs[k], vecs[j], vecs[i]);
      }
      assert j in Dominators(vecs, i) && j !in Dominators(vecs, j);
      Smaller(Dominators(vecs, j), Dominators(vecs, i), j);
      m := Above(vecs, j);
      if m != j {
        DominatesTransitive(vecs[m], vecs[j], vecs[i]);
      }
    }
  }

  lemma Smaller(a: set<nat>, b: set<nat>, x: nat)
    requires a <= b && x in b && x !in a
    ensures |a| < |b|
  {
    assert b == (b - a) + a;
    assert x in b - a;
  }

  // ---------- the weighted pick of ExprPolicy ----------

  function Term(weights: Vec, v: Vec, d: string): real
    requires d in v
  {
    Get(weights, d) * v[d]
  }

  ghost function Weighted(weights: Vec, v: Vec): real {
    SumOf(map d | d in v :: Term(weights, v, d))
  }

  lemma TimesMonotone(w: real, x: real, y: real)
    requires w >= 0.0 && x >= y
    ensures w * x >= w * y
  {
  }

  lemma {:induction false} SumMonotone<K>(a: map<K, real>, b: map<K, real>)
    requires a.Keys == b.Keys && forall k :: k in b ==> a[k] >= b[k]
    ensures SumOf(a) >= SumOf(b)
  {
    if b == map[] {
      assert a == map[];
    } else {
      var k := Pick(b);
      SumWithout(a, k);
      SumMonotone(a - {k}, b - {k});
    }
  }

  /** No dimension has a negative weight. */
  predicate NonNegOn(weights: Vec, dims: set<string>) {
    forall d :: d in dims ==> Get(weights, d) >= 0.0
  }

  /** Dominance can only raise a weighted sum, over one set of dimensions and with weights that are not negative. */
  lemma DominatesWeighs(weights: Vec, a: Vec, b: Vec)
    requires Dominates(a, b) && a.Keys == b.Keys && NonNegOn(weights, b.Keys)
    ensures Weighted(weights, a) >= Weighted(weights, b)
  {
    forall d | d in b
      ensures Term(weights, a, d) >= Term(weights, b, d)
    {
      TimesMonotone(Get(weights, d), a[d], b[d]);
    }
    SumMonotone(map d | d in a :: Term(weights, a, d), map d | d in b :: Term(weights, b, d));
  }

  method WeightedSum(weights: Vec, v: Vec) returns (sum: real)
    ensures sum == Weighted(weights, v)
  {
    sum := 0.0;
    var todo := v.Keys;
    assert (map d | d in v && d !in todo :: Term(weights, v, d)) == map[];
    while todo != {}
      invariant todo <= v.Keys
      invariant sum == SumOf(map d | d in v && d !in todo :: Term(weights, v, d))
    {
      var d :| d in todo;
      ghost var before := map x | x in v && x !in todo :: Term(weights, v, x);
      SumWith(before, d, Term(weights, v, d));
      assert (map x | x in v && x !in todo - {d} :: Term(weights, v, x)) == before[d := Term(weights, v, d)];
      sum := sum + Get(weights, d) * v[d];
      todo := todo - {d};
    }
    assert (map d | d in v && d !in todo :: Term(weights, v, d)) == map d | d in v :: Term(weights, v, d);
  }

  /** The loop over the front: the first position with the largest weighted sum. */
  method LargestSum(vecs: seq<Vec>, weights: Vec, front: seq<nat>) returns (pos: nat)
    requires front != [] && forall x :: 0 <= x < |front| ==> front[x] < |vecs|
    ensures pos < |front|
    ensures forall x :: 0 <= x < |front| ==> Weighted(weights, vecs[front[x]]) <= Weighted(weights, vecs[front[pos]])
    ensures forall x :: 0 <= x < pos ==> Weighted(weights, vecs[front[x]]) < Weighted(weights, vecs[front[pos]])
  {
    pos := 0;
    var bestScore := None;
    for k := 0 to |front|
      invariant pos < |front| && (k == 0 ==> bestScore.None?)
      invariant k > 0 ==> pos < k && bestScore == Some(Weighted(weights, vecs[front[pos]]))
      invariant forall x :: 0 <= x < k ==> Weighted(weights, vecs[front[x]]) <= Weighted(weights, vecs[front[pos]])
      invariant forall x :: 0 <= x < pos ==> Weighted(weights, vecs[front[x]]) < Weighted(weights, vecs[front[pos]])
    {
      var sum := WeightedSum(weights, vecs[front[k]]);
      if bestScore.None? || sum > bestScore.value {
        bestScore := Some(sum);
        pos := k;
      }
    }
  }

  /** The pick among scored candidates: the front's only member, or the first of the largest weighted sum on it. */
  method PickWeighted(vecs: seq<Vec>, weights: Vec) returns (best: nat)
    requires vecs != []
    ensures best < |vecs| && Undominated(vecs, best)
    ensures forall i :: 0 <= i < |vecs| && Undominated(vecs, i) ==>
              Weighted(weights, vecs[i]) <= Weighted(weights, vecs[best])
    ensures forall i :: 0 <= i < best && Undominated(vecs, i) ==>
              Weighted(weights, vecs[i]) < Weighted(weights, vecs[best])
  {
    var front := ParetoFrontIndices(vecs);
    assert forall x :: 0 <= x < |front| ==> front[x] in front;
    var pos := 0;
    if |front| != 1 {
      pos := LargestSum(vecs, weights, front);
    }
    best := front[pos];
    forall i | 0 <= i < |vecs| && Undominated(vecs, i)
      ensures exists x :: 0 <= x < |front| && front[x] == i && (i < best ==> x < pos)
    {
      var x :| 0 <= x < |front| && front[x] == i;
    }
  }

  /** A member of the front with the largest weighted sum on it. */
  ghost predicate BestOfFront(vecs: seq<Vec>, weights: Vec, best: nat) {
    && best < |vecs| && Undominated(vecs, best)
    && forall i :: 0 <= i < |vecs| && Undominated(vecs, i) ==>
         Weighted(weights, vecs[i]) <= Weighted(weights, vecs[best])
  }

  ghost predicate BestOfAll(vecs: seq<Vec>, weights: Vec, best: nat)
    requires best < |vecs|
  {
    forall i :: 0 <= i < |vecs| ==> Weighted(weights, vecs[i]) <= Weighted(weights, vecs[best])
  }

  ghost predicate ScoredIn(vecs: seq<Vec>, dims: set<string>) {
    forall i :: 0 <= i < |vecs| ==> vecs[i].Keys == dims
  }

  /** Looking only at the front misses nothing: with weights that are not negative, a best front member
      has the largest weighted sum of all scored candidates. */
  lemma FrontHasTheBest(vecs: seq<Vec>, dims: set<string>, weights: Vec, best: nat)
    requires NonNegOn(weights, dims) && ScoredIn(vecs, dims) && BestOfFront(vecs, weights, best)
    ensures BestOfAll(vecs, weights, best)
  {
    forall i | 0 <= i < |vecs|
      ensures Weighted(weights, vecs[i]) <= Weighted(weights, vecs[best])
    {
      var m := Above(vecs, i);
      if m != i {
        DominatesWeighs(weights, vecs[m], vecs[i]);
      }
    }
  }

  /** Whatever candidates are scored in these dimensions, a best front member is best of all. */
  ghost predicate FrontSuffices(dims: set<string>, weights: Vec) {
    forall vecs: seq<Vec>, best: nat | ScoredIn(vecs, dims) && BestOfFront(vecs, weights, best) ::
      BestOfAll(vecs, weights, best)
  }

  function Zeros(dims: set<string>): Vec { map d | d in dims :: 0.0 }

  lemma {:induction false} SumOfZeros(dims: set<string>)
    ensures SumOf(Zeros(dims)) == 0.0
  {
    if dims == {} {
      assert Zeros(dims) == map[];
    } else {
      assert Zeros(dims).Keys == dims;
      var d := Pick(Zeros(dims));
      SumOfZeros(dims - {d});
      assert Zeros(dims) - {d} == Zeros(dims - {d});
    }
  }

  /** A candidate that has one unit of a dimension and nothing else weighs as much as that dimension. */
  lemma UnitWeighs(dims: set<string>, weights: Vec, d: string)
    requires d in dims
    ensures Weighted(weights, Zeros(dims)) == 0.0
    ensures Weighted(weights, Zeros(dims)[d := 1.0]) == Get(weights, d)
  {
    var zeros := Zeros(dims);
    SumOfZeros(dims);
    assert (map x | x in zeros :: Term(weights, zeros, x)) == zeros;
    var unit := zeros[d := 1.0];
    SumOfZeros(dims - {d});
    SumWith(Zeros(dims - {d}), d, Get(weights, d));
    assert (map x | x in unit :: Term(weights, unit, x)) == Zeros(dims - {d})[d := Get(weights, d)];
  }

  /** A negative weight lets the front miss the largest sum. */
  lemma NegativeWeightMisses(dims: set<string>, weights: Vec, d: string) returns (vecs: seq<Vec>)
    requires d in dims && Get(weights, d) < 0.0
    ensures |vecs| == 2 && ScoredIn(vecs, dims) && BestOfFront(vecs, weights, 0) && !BestOfAll(vecs, weights, 0)
  {
    var zeros := Zeros(dims);
    var unit := zeros[d := 1.0];
    vecs := [unit, zeros];
    UnitWeighs(dims, weights, d);
    assert unit[d] > zeros[d];
    assert Dominates(unit, zeros) && !Dominates(zeros, unit) && !Dominates(unit, unit);
    assert Weighted(weights, vecs[1]) > Weighted(weights, vecs[0]);
  }

  /** Picking on the front alone is right exactly when no dimension has a negative weight. */
  lemma FrontSufficesExactly(dims: set<string>, weights: Vec)
    ensures FrontSuffices(dims, weights) <==> NonNegOn(weights, dims)
  {
    if NonNegOn(weights, dims) {
      forall vecs: seq<Vec>, best: nat | ScoredIn(vecs, dims) && BestOfFront(vecs, weights, best)
        ensures BestOfAll(vecs, weights, best)
      {
        FrontHasTheBest(vecs, dims, weights, best);
      }
    } else {
      var d :| d in dims && Get(weights, d) < 0.0;
      var vecs := NegativeWeightMisses(dims, weights, d);
    }
  }

  // ---------- candidates and policies ----------

  /** The scan over the pool's nodes, in any order, for those that could take the request. */
  method Candidates(p: Pool, req: Reservation) returns (cands: seq<NodeId>)
    ensures forall id :: id in cands <==> id in p.nodes && Candidate(id, p.nodes[id], req)
    ensures forall i, j :: 0 <= i < j < |cands| ==> cands[i] != cands[j]
  {
    cands := [];
    var todo := p.nodes.Keys;
    while todo != {}
      invariant todo <= p.nodes.Keys
      invariant forall id :: id in cands <==> id in p.nodes && id !in todo && Candidate(id, p.nodes[id], req)
      invariant forall i :: 0 <= i < |cands| ==> cands[i] !in todo
      invariant forall i, j :: 0 <= i < j < |cands| ==> cands[i] != cands[j]
    {
      var id :| id in todo;
      ghost var before := cands;
      if Candidate(id, p.nodes[id], req) {
        cands := cands + [id];
        assert forall x :: x in cands <==> x in before || x == id;
      }
      todo := todo - {id};
    }
  }

  /** An empty vector is beaten by anything; otherwise plain dominance. */
  predicate DominatesVec(a: Vec, b: Vec) {
    b == map[] || Dominates(a, b)
  }

  function FairVec(n: Node): Vec {
    map["free_capacity" := Get(n.res, "CPU") + Get(n.res, "GPU") + Get(n.res, "RAM"),
        "energy_score" := -(n.tdp as real)]
  }

  /** What the default policy sees of a node: everything free of the three main types, and its power draw. */
  function FreeMain(n: Node): real { Get(n.res, "CPU") + Get(n.res, "GPU") + Get(n.res, "RAM") }

  /** One node beats another if it has at least as much free and draws no more power, and not both the same. */
  lemma BeatsExactly(n: Node, m: Node)
    ensures Dominates(FairVec(n), FairVec(m))
        <==> FreeMain(n) >= FreeMain(m) && n.tdp <= m.tdp && !(FreeMain(n) == FreeMain(m) && n.tdp == m.tdp)
  {
    var a, b := FairVec(n), FairVec(m);
    assert b.Keys == {"free_capacity", "energy_score"};
    assert a["free_capacity"] == FreeMain(n) && b["free_capacity"] == FreeMain(m);
    assert a["energy_score"] > b["energy_score"] <==> n.tdp < m.tdp;
  }

  /** The one-pass scan of the default policy: its choice is a candidate that no candidate dominates. */
  method DefaultFairShare(p: Pool, req: Reservation) returns (r: Option<NodeId>)
    ensures r.None? <==> forall id :: id in p.nodes ==> !Candidate(id, p.nodes[id], req)
    ensures r.Some? ==> r.value in p.nodes && Candidate(r.value, p.nodes[r.value], req)
    ensures r.Some? ==> forall id :: id in p.nodes && Candidate(id, p.nodes[id], req) ==>
                          var n, m := p.nodes[id], p.nodes[r.value];
                          FreeMain(n) < FreeMain(m) || n.tdp > m.tdp || (FreeMain(n) == FreeMain(m) && n.tdp == m.tdp)
  {
    var cands := Candidates(p, req);
    if cands == [] {
      return None;
    }
    var best := ScanFair(p, cands);
    assert cands[best] in cands;
    forall id | id in cands
      ensures !Dominates(FairVec(p.nodes[id]), FairVec(p.nodes[cands[best]]))
      ensures var n, m := p.nodes[id], p.nodes[cands[best]];
              FreeMain(n) < FreeMain(m) || n.tdp > m.tdp || (FreeMain(n) == FreeMain(m) && n.tdp == m.tdp)
    {
      BeatsExactly(p.nodes[id], p.nodes[cands[best]]);
    }
    return Some(cands[best]);
  }

  method ScanFair(p: Pool, cands: seq<NodeId>) returns (best: nat)
    requires cands != [] && forall id :: id in cands ==> id in p.nodes
    ensures best < |cands|
    ensures forall id :: id in cands ==> !Dominates(FairVec(p.nodes[id]), FairVec(p.nodes[cands[best]]))
  {
    best := 0;
    var bestVec: Vec := map[];
    for i := 0 to |cands|
      invariant best < |cands| && (i > 0 ==> bestVec == FairVec(p.nodes[cands[best]]))
      invariant i > 0 ==> forall j :: 0 <= j < i ==> !Dominates(FairVec(p.nodes[cands[j]]), bestVec)
    {
      var vec := FairVec(p.nodes[cands[i]]);
      if i == 0 || DominatesVec(vec, bestVec) {
        forall j | 0 <= j < i
          ensures !Dominates(FairVec(p.nodes[cands[j]]), vec)
        {
          if Dominates(FairVec(p.nodes[cands[j]]), vec) {
            DominatesTransitive(FairVec(p.nodes[cands[j]]), vec, bestVec);
          }
        }
        bestVec := vec;
        best := i;
      }
    }
  }

  // ---------- ExprPolicy ----------

  /** A policy expression evaluated on a node and request; None where evaluation fails or gives no number. */
  type Eval = (string, Node, Reservation) -> Option<real>

  predicate Scored(dims: set<string>, eval: Eval, n: Node, req: Reservation) {
    forall d :: d in dims ==> eval(d, n, req).Some?
  }

  function Score(dims: set<string>, eval: Eval, n: Node, req: Reservation): Vec
    requires Scored(dims, eval, n, req)
  {
    map d | d in dims :: eval(d, n, req).value
  }

  /** The candidates whose dimensions all evaluate, in order. */
  method ScoreAll(p: Pool, cands: seq<NodeId>, dims: set<string>, eval: Eval, req: Reservation)
    returns (scored: seq<NodeId>, vecs: seq<Vec>)
    requires forall id :: id in cands ==> id in p.nodes
    ensures |vecs| == |scored|
    ensures forall id :: id in scored <==> id in cands && Scored(dims, eval, p.nodes[id], req)
    ensures forall i :: 0 <= i < |scored| ==> scored[i] in cands && Scored(dims, eval, p.nodes[scored[i]], req)
                                              && vecs[i] == Score(dims, eval, p.nodes[scored[i]], req)
  {
    scored, vecs := [], [];
    for k := 0 to |cands|
      invariant |vecs| == |scored|
      invariant forall id :: id in scored <==> id in cands[..k] && Scored(dims, eval, p.nodes[id], req)
      invariant forall i :: 0 <= i < |scored| ==> scored[i] in cands && Scored(dims, eval, p.nodes[scored[i]], req)
                                                  && vecs[i] == Score(dims, eval, p.nodes[scored[i]], req)
    {
      var id := cands[k];
      assert cands[..k + 1] == cands[..k] + [id];
      if Scored(dims, eval, p.nodes[id], req) {
        scored, vecs := scored + [id], vecs + [Score(dims, eval, p.nodes[id], req)];
      }
    }
    assert cands[..|cands|] == cands;
  }

  function WeightsFor(given: Vec, dims: set<string>): Vec {
    if |given| > 0 then given else map d | d in dims :: 1.0
  }

  lemma {:induction false} SameTerms(weights: Vec, v: Vec)
    requires forall d :: d in v ==> Term(weights, v, d) == v[d]
    ensures Weighted(weights, v) == SumOf(v)
  {
    assert (map d | d in v :: Term(weights, v, d)) == v;
  }

  /** A score times its weight, or nothing where there is no weight. */
  function Portion(given: Vec, d: string, score: real): real {
    if d in given then given[d] * score else 0.0
  }

  lemma TermIsPortion(given: Vec, v: Vec, d: string)
    requires d in v
    ensures Term(given, v, d) == Portion(given, d, v[d])
  {
  }

  /** What a candidate weighs: the sum of its scores where no weights are given, and otherwise what each score
      adds to it. */
  ghost function Weight(given: Vec, v: Vec): real {
    if given == map[] then SumOf(v)
    else SumOf(map d | d in v :: Portion(given, d, v[d]))
  }

  lemma WeighedByGiven(given: Vec, v: Vec)
    ensures Weighted(WeightsFor(given, v.Keys), v) == Weight(given, v)
  {
    if given == map[] {
      SameTerms(WeightsFor(given, v.Keys), v);
    } else {
      forall d | d in v
        ensures Term(given, v, d) == Portion(given, d, v[d])
      {
        TermIsPortion(given, v, d);
      }
      assert (map d | d in v :: Term(given, v, d)) == map d | d in v :: Portion(given, d, v[d]);
    }
  }

  /** The expression policy: its choice is scored, undominated and, unless a weight is negative,
      has the largest weighted sum over all scored candidates. */
  method ExprPolicy(p: Pool, req: Reservation, dims: set<string>, eval: Eval, given: Vec) returns (r: Option<NodeId>)
    ensures r.None? <==> forall id :: id in p.nodes && Candidate(id, p.nodes[id], req) ==>
              !Scored(dims, eval, p.nodes[id], req)
    ensures r.Some? ==> r.value in p.nodes && Candidate(r.value, p.nodes[r.value], req)
    ensures r.Some? ==> Scored(dims, eval, p.nodes[r.value], req)
    ensures r.Some? ==>
              forall id :: id in p.nodes && Candidate(id, p.nodes[id], req) && Scored(dims, eval, p.nodes[id], req) ==>
                !Dominates(Score(dims, eval, p.nodes[id], req), Score(dims, eval, p.nodes[r.value], req))
    ensures r.Some? && (forall d :: d in dims && d in given ==> given[d] >= 0.0) ==>
              forall id :: id in p.nodes && Candidate(id, p.nodes[id], req) && Scored(dims, eval, p.nodes[id], req) ==>
                Weight(given, Score(dims, eval, p.nodes[id], req))
                <= Weight(given, Score(dims, eval, p.nodes[r.value], req))
  {
    var cands := Candidates(p, req);
    if cands == [] {
      return None;
    }
    var scored, vecs := ScoreAll(p, cands, dims, eval, req);
    if scored == [] {
      return None;
    }
    var weights := WeightsFor(given, dims);
    var best := PickWeighted(vecs, weights);
    if NonNegOn(weights, dims) {
      FrontHasTheBest(vecs, dims, weights, best);
    }
    WeighedByGiven(given, vecs[best]);
    forall id | id in scored
      ensures !Dominates(Score(dims, eval, p.nodes[id], req), vecs[best])
      ensures NonNegOn(weights, dims) ==>
                Weight(given, Score(dims, eval, p.nodes[id], req)) <= Weight(given, vecs[best])
    {
      var i :| 0 <= i < |scored| && scored[i] == id;
      assert vecs[i] == Score(dims, eval, p.nodes[id], req);
      WeighedByGiven(given, vecs[i]);
    }
    assert scored[best] in scored;
    return Some(scored[best]);
  }
}
