/** The Merkle root over shard data: the level-by-level loop, the tree it computes, and what equal roots mean.
    The hash is a parameter; roots are compared as bytes, before the hex encoding that is one-to-one. */
module Merkle {
  type Bytes = seq<bv8>
  type Hash = Bytes -> Bytes

  const HASH_SIZE := 32

  /** How many nodes a tree over n leaves has at level l. */
  function Count(n: nat, l: nat): (c: nat)
    ensures n > 0 ==> c > 0
    ensures n == 1 ==> c == 1
  {
    if l == 0 then n else (Count(n, l - 1) + 1) / 2
  }

  /** The right child of node i; the last node of an odd level is paired with itself. */
  function Right(count: nat, i: nat): nat
    requires i < (count + 1) / 2
  {
    if 2 * i + 1 < count then 2 * i + 1 else 2 * i
  }

  /** Node i at level l, top down: hashed data at the bottom, hashed pairs of children above. */
  function Node(h: Hash, data: seq<Bytes>, l: nat, i: nat): Bytes
    requires i < Count(|data|, l)
    decreases l, 1
  {
    h(Input(h, data, l, i))
  }

  /** What is hashed for a node. */
  function Input(h: Hash, data: seq<Bytes>, l: nat, i: nat): Bytes
    requires i < Count(|data|, l)
    decreases l, 0
  {
    if l == 0 then data[i]
    else Node(h, data, l - 1, 2 * i) + Node(h, data, l - 1, Right(Count(|data|, l - 1), i))
  }

  /** The level at which one node is left. */
  function Height(n: nat): (l: nat)
    requires n > 0
  {
    if n == 1 then 0 else 1 + Height((n + 1) / 2)
  }

  lemma {:induction false} CountShift(n: nat, l: nat)
    ensures Count(n, l + 1) == Count((n + 1) / 2, l)
  {
    if l > 0 {
      CountShift(n, l - 1);
    }
  }

  lemma {:induction false} OneAtTheTop(n: nat)
    requires n > 0
    ensures Count(n, Height(n)) == 1
  {
    if n > 1 {
      CountShift(n, Height((n + 1) / 2));
      OneAtTheTop((n + 1) / 2);
    }
  }

  /** The root of the tree, or the hash of nothing for no data. */
  function Root(h: Hash, data: seq<Bytes>): Bytes {
    if data == [] then h([])
    else
      OneAtTheTop(|data|);
      Node(h, data, Height(|data|), 0)
  }

  /** The nodes of one level, in order. */
  ghost predicate IsLevel(h: Hash, data: seq<Bytes>, l: nat, nodes: seq<Bytes>) {
    |nodes| == Count(|data|, l) && forall i :: 0 <= i < |nodes| ==> nodes[i] == Node(h, data, l, i)
  }

  /** Before the level with one node every level has more. */
  lemma {:induction false} AboveOne(n: nat, l: nat)
    requires n > 0 && l <= Height(n)
    ensures Count(n, l) == 1 <==> l == Height(n)
  {
    if l > 0 {
      CountShift(n, l - 1);
      if n == 1 {
        assert false;
      } else {
        AboveOne((n + 1) / 2, l - 1);
      }
    }
  }

  /** One round of the loop: an odd level repeats its last node, then neighbours are hashed together. */
  method NextLevel(h: Hash, leaves: seq<Bytes>) returns (next: seq<Bytes>)
    requires |leaves| > 1
    ensures |next| == (|leaves| + 1) / 2
    ensures forall i :: 0 <= i < |next| ==> next[i] == h(leaves[2 * i] + leaves[Right(|leaves|, i)])
  {
    var padded := leaves;
    if |padded| % 2 == 1 {
      padded := padded + [padded[|padded| - 1]];
    }
    next := [];
    var i := 0;
    while i < |padded|
      invariant i == 2 * |next| && i <= |padded|
      invariant forall k :: 0 <= k < |next| ==> next[k] == h(leaves[2 * k] + leaves[Right(|leaves|, k)])
    {
      next := next + [h(padded[i] + padded[i + 1])];
      i := i + 2;
    }
  }

  /** The iterative computation gives the root of the tree. */
  method ComputeMerkleRoot(h: Hash, data: seq<Bytes>) returns (root: Bytes)
    ensures root == Root(h, data)
  {
    if |data| == 0 {
      return h([]);
    }
    var leaves := [];
    for k := 0 to |data|
      invariant |leaves| == k && forall i :: 0 <= i < k ==> leaves[i] == h(data[i])
    {
      leaves := leaves + [h(data[k])];
    }
    ghost var l := 0;
    while |leaves| > 1
      invariant l <= Height(|data|) && IsLevel(h, data, l, leaves)
      decreases |leaves|
    {
      AboveOne(|data|, l);
      leaves := NextLevel(h, leaves);
      l := l + 1;
    }
    AboveOne(|data|, l);
    return leaves[0];
  }

  // ---------- equal roots ----------

  /** x is among the strings hashed to compute the root of data. */
  ghost predicate Hashed(h: Hash, data: seq<Bytes>, x: Bytes) {
    exists l: nat, i: nat :: i < Count(|data|, l) && Input(h, data, l, i) == x
  }

  /** If x is hashed for a and y for b, they have hashes of the fixed size, and different ones if they differ. */
  ghost predicate Separate(h: Hash, a: seq<Bytes>, b: seq<Bytes>, x: Bytes, y: Bytes) {
    Hashed(h, a, x) && Hashed(h, b, y) ==> (h(x) == h(y) ==> x == y) && |h(x)| == |h(y)| == HASH_SIZE
  }

  ghost predicate CollisionFree(h: Hash, a: seq<Bytes>, b: seq<Bytes>) {
    forall x, y :: Separate(h, a, b, x, y)
  }

  lemma {:induction false} InputsEqual(h: Hash, a: seq<Bytes>, b: seq<Bytes>, l: nat, m: nat, i: nat, j: nat)
    requires CollisionFree(h, a, b) && i < Count(|a|, l) && j < Count(|b|, m)
    ensures Node(h, a, l, i) == Node(h, b, m, j) <==> Input(h, a, l, i) == Input(h, b, m, j)
    ensures |Node(h, a, l, i)| == HASH_SIZE && |Node(h, b, m, j)| == HASH_SIZE
  {
    assert Hashed(h, a, Input(h, a, l, i)) && Hashed(h, b, Input(h, b, m, j));
    assert Separate(h, a, b, Input(h, a, l, i), Input(h, b, m, j));
  }

  lemma PairsEqual<T>(x: seq<T>, y: seq<T>, u: seq<T>, v: seq<T>)
    requires |x| == |u|
    ensures x + y == u + v <==> x == u && y == v
  {
    if x + y == u + v {
      assert x == (x + y)[..|x|] && u == (u + v)[..|u|];
      assert y == (x + y)[|x|..] && v == (u + v)[|u|..];
    }
  }

  /** Inner nodes are equal exactly if their children are. */
  lemma ChildrenEqual(h: Hash, a: seq<Bytes>, b: seq<Bytes>, l: nat, m: nat, i: nat, j: nat)
    requires CollisionFree(h, a, b) && l > 0 && m > 0 && i < Count(|a|, l) && j < Count(|b|, m)
    ensures Node(h, a, l, i) == Node(h, b, m, j)
            <==> && Node(h, a, l - 1, 2 * i) == Node(h, b, m - 1, 2 * j)
                 && Node(h, a, l - 1, Right(Count(|a|, l - 1), i)) == Node(h, b, m - 1, Right(Count(|b|, m - 1), j))
  {
    InputsEqual(h, a, b, l, m, i, j);
    InputsEqual(h, a, b, l - 1, m - 1, 2 * i, 2 * j);
    PairsEqual(Node(h, a, l - 1, 2 * i), Node(h, a, l - 1, Right(Count(|a|, l - 1), i)),
               Node(h, b, m - 1, 2 * j), Node(h, b, m - 1, Right(Count(|b|, m - 1), j)));
  }

  /** What is hashed at level d below node i of level l, once for every path down: a node paired with itself
      is passed twice. At level 0 that is the data, padded. */
  function Inputs(h: Hash, data: seq<Bytes>, d: nat, l: nat, i: nat): seq<Bytes>
    requires d <= l && i < Count(|data|, l)
    decreases l
  {
    if l == d then [Input(h, data, d, i)]
    else Inputs(h, data, d, l - 1, 2 * i) + Inputs(h, data, d, l - 1, Right(Count(|data|, l - 1), i))
  }

  lemma {:induction false} SameLength(h: Hash, a: seq<Bytes>, b: seq<Bytes>, d: nat, l: nat, i: nat, j: nat)
    requires i < Count(|a|, l) && j < Count(|b|, l + d)
    ensures |Inputs(h, a, 0, l, i)| == |Inputs(h, b, d, l + d, j)|
    decreases l
  {
    if l > 0 {
      SameLength(h, a, b, d, l - 1, 2 * i, 2 * j);
      SameLength(h, a, b, d, l - 1, Right(Count(|a|, l - 1), i), Right(Count(|b|, l + d - 1), j));
    }
  }

  lemma HalvesEqual(h: Hash, a: seq<Bytes>, b: seq<Bytes>, d: nat, l: nat, i: nat, j: nat)
    requires l > 0 && i < Count(|a|, l) && j < Count(|b|, l + d)
    ensures Inputs(h, a, 0, l, i) == Inputs(h, b, d, l + d, j)
            <==> && Inputs(h, a, 0, l - 1, 2 * i) == Inputs(h, b, d, l + d - 1, 2 * j)
                 && Inputs(h, a, 0, l - 1, Right(Count(|a|, l - 1), i))
                    == Inputs(h, b, d, l + d - 1, Right(Count(|b|, l + d - 1), j))
  {
    SameLength(h, a, b, d, l - 1, 2 * i, 2 * j);
    PairsEqual(Inputs(h, a, 0, l - 1, 2 * i), Inputs(h, a, 0, l - 1, Right(Count(|a|, l - 1), i)),
               Inputs(h, b, d, l + d - 1, 2 * j), Inputs(h, b, d, l + d - 1, Right(Count(|b|, l + d - 1), j)));
  }

  /** Nodes l levels above the data of a and above level d of b are equal exactly if the same strings are hashed
      at those levels, path by path. */
  lemma {:induction false} NodesEqual(h: Hash, a: seq<Bytes>, b: seq<Bytes>, d: nat, l: nat, i: nat, j: nat)
    requires CollisionFree(h, a, b) && i < Count(|a|, l) && j < Count(|b|, l + d)
    ensures Node(h, a, l, i) == Node(h, b, l + d, j) <==> Inputs(h, a, 0, l, i) == Inputs(h, b, d, l + d, j)
    decreases l
  {
    if l == 0 {
      InputsEqual(h, a, b, 0, d, i, j);
      assert Inputs(h, a, 0, l, i)[0] == Input(h, a, 0, i) && Inputs(h, b, d, l + d, j)[0] == Input(h, b, d, j);
    } else {
      ChildrenEqual(h, a, b, l, l + d, i, j);
      HalvesEqual(h, a, b, d, l, i, j);
      NodesEqual(h, a, b, d, l - 1, 2 * i, 2 * j);
      NodesEqual(h, a, b, d, l - 1, Right(Count(|a|, l - 1), i), Right(Count(|b|, l + d - 1), j));
    }
  }

  /** What is hashed at level d of a tree, path by path. */
  function Padded(h: Hash, data: seq<Bytes>, d: nat): seq<Bytes>
    requires data != [] && d <= Height(|data|)
  {
    OneAtTheTop(|data|);
    Inputs(h, data, d, Height(|data|), 0)
  }

  /** Two lists have equal roots exactly if the padded data of the lower tree is what is hashed at that height below
      the root of the other. For trees of one height: exactly if the padded data is the same. */
  lemma {:induction false} RootsEqual(h: Hash, a: seq<Bytes>, b: seq<Bytes>)
    requires CollisionFree(h, a, b) && a != [] && b != [] && Height(|a|) <= Height(|b|)
    ensures Root(h, a) == Root(h, b) <==> Padded(h, a, 0) == Padded(h, b, Height(|b|) - Height(|a|))
  {
    var l, d := Height(|a|), Height(|b|) - Height(|a|);
    assert Height(|b|) == l + d;
    OneAtTheTop(|a|);
    OneAtTheTop(|b|);
    NodesEqual(h, a, b, d, l, 0, 0);
  }

  lemma {:induction false} FirstInput(h: Hash, data: seq<Bytes>, d: nat, l: nat)
    requires data != [] && d <= l
    ensures Inputs(h, data, d, l, 0) != [] && Inputs(h, data, d, l, 0)[0] == Input(h, data, d, 0)
    decreases l
  {
    if l > d {
      FirstInput(h, data, d, l - 1);
    }
  }

  lemma {:induction false} InnerInputSize(h: Hash, a: seq<Bytes>, b: seq<Bytes>, l: nat)
    requires CollisionFree(h, a, b) && a != [] && b != [] && l > 0
    ensures |Input(h, b, l, 0)| == 2 * HASH_SIZE
  {
    InputsEqual(h, a, b, 0, l - 1, 0, 0);
    InputsEqual(h, a, b, 0, l - 1, 0, Right(Count(|b|, l - 1), 0));
  }

  /** Lists whose trees differ in height have different roots, unless the first element of the lower one has the size
      of two hashes. */
  lemma {:induction false} HigherTreeDiffers(h: Hash, a: seq<Bytes>, b: seq<Bytes>)
    requires CollisionFree(h, a, b) && a != [] && b != [] && Height(|a|) < Height(|b|) && |a[0]| != 2 * HASH_SIZE
    ensures Root(h, a) != Root(h, b)
  {
    var d := Height(|b|) - Height(|a|);
    RootsEqual(h, a, b);
    FirstInput(h, a, 0, Height(|a|));
    FirstInput(h, b, d, Height(|b|));
    InnerInputSize(h, a, b, d);
  }

  /** The node l levels above leaf k. */
  function Up(k: nat, l: nat): nat {
    if l == 0 then k else Up(k, l - 1) / 2
  }

  lemma {:induction false} UpInside(n: nat, k: nat, l: nat)
    requires k < n
    ensures Up(k, l) < Count(n, l)
    ensures l > 0 ==> Up(k, l - 1) == 2 * Up(k, l) || Up(k, l - 1) == Right(Count(n, l - 1), Up(k, l))
  {
    if l > 0 {
      UpInside(n, k, l - 1);
    }
  }

  /** Lists of one length with the same padded data agree at every position. */
  lemma {:induction false} LeafEqual(h: Hash, a: seq<Bytes>, b: seq<Bytes>, l: nat, k: nat)
    requires |a| == |b| && k < |a| && Up(k, l) < Count(|a|, l)
    requires Inputs(h, a, 0, l, Up(k, l)) == Inputs(h, b, 0, l, Up(k, l))
    ensures a[k] == b[k]
  {
    if l == 0 {
      assert Inputs(h, a, 0, 0, k)[0] == a[k] && Inputs(h, b, 0, 0, k)[0] == b[k];
    } else {
      UpInside(|a|, k, l);
      HalvesEqual(h, a, b, 0, l, Up(k, l), Up(k, l));
      LeafEqual(h, a, b, l - 1, k);
    }
  }

  lemma SamePaddedData(h: Hash, a: seq<Bytes>, b: seq<Bytes>)
    requires a != [] && |a| == |b| && Padded(h, a, 0) == Padded(h, b, 0)
    ensures a == b
  {
    forall k | 0 <= k < |a|
      ensures a[k] == b[k]
    {
      UpInside(|a|, k, Height(|a|));
      OneAtTheTop(|a|);
      LeafEqual(h, a, b, Height(|a|), k);
    }
  }

  /** Shard lists of one length have equal roots only if they hold the same data in the same order. */
  lemma EqualRootsEqualData(h: Hash, a: seq<Bytes>, b: seq<Bytes>)
    requires CollisionFree(h, a, b) && |a| == |b|
    ensures Root(h, a) == Root(h, b) <==> a == b
  {
    if a != [] && Root(h, a) == Root(h, b) {
      RootsEqual(h, a, b);
      SamePaddedData(h, a, b);
    }
  }

  /** Every element is on some path. */
  lemma {:induction false} OnSomePath(h: Hash, data: seq<Bytes>, l: nat, k: nat)
    requires k < |data| && Up(k, l) < Count(|data|, l)
    ensures data[k] in Inputs(h, data, 0, l, Up(k, l))
  {
    if l > 0 {
      UpInside(|data|, k, l);
      OnSomePath(h, data, l - 1, k);
    }
  }

  lemma {:induction false} PathsEndInData(h: Hash, data: seq<Bytes>, l: nat, i: nat, x: Bytes)
    requires i < Count(|data|, l) && x in Inputs(h, data, 0, l, i)
    ensures x in data
    decreases l
  {
    if l > 0 {
      if x in Inputs(h, data, 0, l - 1, 2 * i) {
        PathsEndInData(h, data, l - 1, 2 * i, x);
      } else {
        PathsEndInData(h, data, l - 1, Right(Count(|data|, l - 1), i), x);
      }
    }
  }

  /** Padding neither adds nor drops an element. */
  lemma PaddedMembers(h: Hash, data: seq<Bytes>, x: Bytes)
    requires data != []
    ensures x in Padded(h, data, 0) <==> x in data
  {
    OneAtTheTop(|data|);
    if x in data {
      var k :| 0 <= k < |data| && data[k] == x;
      UpInside(|data|, k, Height(|data|));
      OnSomePath(h, data, Height(|data|), k);
    }
    if x in Padded(h, data, 0) {
      PathsEndInData(h, data, Height(|data|), 0, x);
    }
  }

  /** Two lists whose trees agree from level 1 up. */
  lemma {:induction false} SameAbove(h: Hash, a: seq<Bytes>, b: seq<Bytes>, l: nat, i: nat)
    requires Count(|a|, 1) == Count(|b|, 1)
    requires forall k :: 0 <= k < Count(|a|, 1) ==> Node(h, a, 1, k) == Node(h, b, 1, k)
    requires l >= 1 && i < Count(|a|, l)
    ensures Count(|b|, l) == Count(|a|, l) && Node(h, b, l, i) == Node(h, a, l, i)
    decreases l
  {
    SameCounts(|a|, |b|, l);
    if l > 1 {
      SameCounts(|a|, |b|, l - 1);
      SameAbove(h, a, b, l - 1, 2 * i);
      SameAbove(h, a, b, l - 1, Right(Count(|a|, l - 1), i));
    }
  }

  lemma {:induction false} SameCounts(n: nat, m: nat, l: nat)
    requires Count(n, 1) == Count(m, 1) && l >= 1
    ensures Count(n, l) == Count(m, l)
  {
    if l > 1 {
      SameCounts(n, m, l - 1);
    }
  }

  /** A list of odd length from three up has the root of that list with its last element repeated. */
  lemma RepeatedLastSameRoot(h: Hash, data: seq<Bytes>)
    requires |data| % 2 == 1 && |data| >= 3
    ensures Root(h, data + [data[|data| - 1]]) == Root(h, data)
  {
    var n := |data|;
    var more := data + [data[n - 1]];
    forall k | 0 <= k < Count(n, 1)
      ensures Node(h, data, 1, k) == Node(h, more, 1, k)
    {
      assert Count(n, 0) == n && Count(n + 1, 0) == n + 1;
      assert Node(h, data, 0, 2 * k) == Node(h, more, 0, 2 * k);
      assert Node(h, data, 0, Right(n, k)) == Node(h, more, 0, Right(n + 1, k));
    }
    OneAtTheTop(n);
    SameAbove(h, data, more, Height(n), 0);
    assert Height(n + 1) == Height(n);
  }

  /** Six elements have the root of the eight that repeat the last two. */
  lemma RepeatedPairSameRoot(h: Hash, six: seq<Bytes>)
    requires |six| == 6
    ensures Root(h, six + six[4..]) == Root(h, six)
  {
    var eight := six + six[4..];
    forall k | 0 <= k < 3
      ensures Node(h, six, 1, k) == Node(h, eight, 1, k)
    {
      assert Node(h, six, 0, 2 * k) == Node(h, eight, 0, 2 * k);
      assert Node(h, six, 0, 2 * k + 1) == Node(h, eight, 0, 2 * k + 1);
    }
    assert Node(h, eight, 1, 3) == Node(h, eight, 1, 2) by {
      assert Node(h, eight, 0, 6) == Node(h, eight, 0, 4) && Node(h, eight, 0, 7) == Node(h, eight, 0, 5);
    }
    assert Node(h, six, 2, 0) == Node(h, eight, 2, 0) && Node(h, six, 2, 1) == Node(h, eight, 2, 1);
    assert Height(6) == 3 && Height(8) == 3;
  }

  // ---------- a list against the same list with every element repeated ----------

  function Repeat(x: Bytes, r: nat): (s: seq<Bytes>)
    ensures |s| == r && forall i :: 0 <= i < r ==> s[i] == x
  {
    if r == 0 then [] else [x] + Repeat(x, r - 1)
  }

  function RepeatEach(data: seq<Bytes>, r: nat): seq<Bytes> {
    if data == [] then [] else RepeatEach(data[..|data| - 1], r) + Repeat(data[|data| - 1], r)
  }

  lemma {:induction false} RepeatEachOnce(data: seq<Bytes>)
    ensures RepeatEach(data, 1) == data
  {
    if data != [] {
      RepeatEachOnce(data[..|data| - 1]);
    }
  }

  lemma {:induction false} RepeatEachStarts(data: seq<Bytes>, r: nat)
    requires data != [] && r >= 1
    ensures RepeatEach(data, r) != [] && RepeatEach(data, r)[0] == data[0]
    ensures r >= 2 ==> |RepeatEach(data, r)| >= |data| + |data|
  {
    if |data| > 1 {
      RepeatEachStarts(data[..|data| - 1], r);
    } else {
      assert RepeatEach(data[..0], r) == [];
    }
  }

  lemma {:induction false} HeightMonotone(n: nat, m: nat)
    requires 0 < n <= m
    ensures Height(n) <= Height(m)
  {
    if n > 1 {
      HeightMonotone((n + 1) / 2, (m + 1) / 2);
    }
  }

  lemma {:induction false} HeightOfDouble(n: nat, m: nat)
    requires 0 < n && 2 * n <= m
    ensures Height(m) > Height(n)
  {
    HeightMonotone(n, (m + 1) / 2);
  }
}
