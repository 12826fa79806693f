/** XOR parity placement: splitting a file into data parts plus one parity part, and rebuilding a lost part. */
module XorParity {
  import opened Merkle
  import opened Options
  import opened Shards

  // ---------- XOR of byte strings, the shorter padded with zeros ----------

  function At(x: Bytes, k: nat): bv8 { if k < |x| then x[k] else 0 }

  function MaxLen(x: Bytes, y: Bytes): nat { if |x| < |y| then |y| else |x| }

  function Xor(x: Bytes, y: Bytes): (z: Bytes)
    ensures |z| == MaxLen(x, y)
  {
    seq(MaxLen(x, y), k requires k >= 0 => At(x, k) ^ At(y, k))
  }

  lemma AtXor(x: Bytes, y: Bytes, k: nat)
    ensures At(Xor(x, y), k) == At(x, k) ^ At(y, k)
  {
  }

  function XorAll(parts: seq<Bytes>): Bytes {
    if parts == [] then [] else Xor(XorAll(parts[..|parts| - 1]), parts[|parts| - 1])
  }

  lemma XorCancels(a: bv8, b: bv8, c: bv8)
    ensures (a ^ b) ^ c == (a ^ c) ^ b
    ensures (a ^ b) ^ a == b
    ensures a ^ b == b ^ a
  {
  }

  /** All parts but part j. */
  function Without(parts: seq<Bytes>, j: nat): seq<Bytes>
    requires j < |parts|
  {
    parts[..j] + parts[j + 1..]
  }

  lemma WithoutPrefix(parts: seq<Bytes>, j: nat)
    requires j < |parts|
    ensures j == |parts| - 1 ==> Without(parts, j) == parts[..|parts| - 1]
    ensures j < |parts| - 1 ==> Without(parts, j) == Without(parts[..|parts| - 1], j) + [parts[|parts| - 1]]
  {
  }

  lemma {:induction false} XorAllMore(parts: seq<Bytes>, part: Bytes, k: nat)
    ensures At(XorAll(parts + [part]), k) == At(XorAll(parts), k) ^ At(part, k)
  {
    assert (parts + [part])[..|parts|] == parts;
    AtXor(XorAll(parts), part, k);
  }

  /** One part may be pulled out of the sum, whatever its position. */
  lemma {:induction false} PullOut(parts: seq<Bytes>, j: nat, k: nat)
    requires j < |parts|
    ensures At(XorAll(parts), k) == At(XorAll(Without(parts, j)), k) ^ At(parts[j], k)
  {
    var n := |parts| - 1;
    var front := parts[..n];
    assert parts == front + [parts[n]];
    XorAllMore(front, parts[n], k);
    WithoutPrefix(parts, j);
    if j < n {
      PullOut(front, j, k);
      XorAllMore(Without(front, j), parts[n], k);
      XorCancels(At(XorAll(Without(front, j)), k), At(parts[j], k), At(parts[n], k));
    }
  }

  lemma {:induction false} LongEnough(parts: seq<Bytes>, j: nat)
    requires j < |parts|
    ensures |XorAll(parts)| >= |parts[j]|
  {
    if j < |parts| - 1 {
      LongEnough(parts[..|parts| - 1], j);
    }
  }

  /** Any one lost part is the XOR of the parity and the other parts, cut to its length. */
  lemma LostPartRecovered(parts: seq<Bytes>, j: nat)
    requires j < |parts|
    ensures var others := XorAll([XorAll(parts)] + parts[..j] + parts[j + 1..]);
            |others| >= |parts[j]| && others[..|parts[j]|] == parts[j]
  {
    var all := [XorAll(parts)] + parts[..j] + parts[j + 1..];
    assert all == [XorAll(parts)] + Without(parts, j);
    assert Without(all, 0) == Without(parts, j);
    LongEnough(all, 0);
    LongEnough(parts, j);
    forall k | 0 <= k < |parts[j]|
      ensures XorAll(all)[k] == parts[j][k]
    {
      PullOut(parts, j, k);
      PullOut(all, 0, k);
      var rest := At(XorAll(Without(parts, j)), k);
      XorCancels(rest, At(parts[j], k), 0);
      assert At(XorAll(all), k) == At(parts[j], k);
    }
  }

  // ---------- the split ----------

  /** The hash, the ids that are drawn for the shards, and how many backends there are. */
  datatype Placing = Placing(h: Hash, ids: nat -> ShardId, backends: nat)

  /** `Panics`: the program asks for a slice of negative length. */
  datatype Placement = Placed(shards: seq<Shard>) | NoBackends | Panics

  function DataShards(opt: Option<int>): (n: nat)
    ensures n >= 2
  {
    if opt.Some? && opt.value > 1 then opt.value else 2
  }

  /** As many data parts as asked for, if those are at least two, and otherwise two. */
  lemma PartsAsAsked(k: int)
    ensures DataShards(None) == 2 && DataShards(Some(k)) == if k <= 1 then 2 else k
  {
  }

  function ChunkSize(len: nat, n: nat): nat
    requires n > 0
  {
    (len + n - 1) / n
  }

  function Min(a: int, b: int): int { if a < b then a else b }

  /** Shard i as placed: on backend i modulo their number, with its checksum. */
  function PlacedShard(p: Placing, i: nat, data: Bytes, parity: bool): Shard
    requires p.backends > 0
  {
    Shard(p.ids(i), Some(i % p.backends), data, p.h(data), parity, i)
  }

  function DataShardsOf(p: Placing, parts: seq<Bytes>): (shards: seq<Shard>)
    requires p.backends > 0
    ensures |shards| == |parts|
  {
    if parts == [] then []
    else
      var i := |parts| - 1;
      DataShardsOf(p, parts[..i]) + [PlacedShard(p, i, parts[i], false)]
  }

  lemma {:induction false} DataShardsInPlace(p: Placing, parts: seq<Bytes>, n: nat)
    requires p.backends > 0 && |parts| <= n
    ensures forall i :: 0 <= i < |parts| ==> InPlace(p, DataShardsOf(p, parts)[i], i, n)
    ensures Data(DataShardsOf(p, parts)) == parts
  {
    if parts != [] {
      DataShardsInPlace(p, parts[..|parts| - 1], n);
    }
  }

  lemma {:induction false} OneMore(p: Placing, parts: seq<Bytes>, part: Bytes)
    requires p.backends > 0
    ensures XorAll(parts + [part]) == Xor(XorAll(parts), part)
    ensures DataShardsOf(p, parts + [part]) == DataShardsOf(p, parts) + [PlacedShard(p, |parts|, part, false)]
  {
    assert (parts + [part])[..|parts|] == parts;
  }

  /** The XOR of a part into the parity buffer, which first grows if the part is longer. */
  method XorInto(parity: array<bv8>, part: Bytes) returns (p: array<bv8>)
    modifies parity
    ensures p == parity || fresh(p)
    ensures p[..] == Xor(old(parity[..]), part)
  {
    p := parity;
    ghost var was := parity[..];
    if |part| > p.Length {
      p := new bv8[|part|](i requires 0 <= i < |part| reads parity => if i < parity.Length then parity[i] else 0);
    }
    assert forall k :: 0 <= k < p.Length ==> p[k] == At(was, k);
    for j := 0 to |part|
      invariant p == parity || fresh(p)
      invariant p.Length == MaxLen(was, part)
      invariant forall k :: 0 <= k < j ==> p[k] == At(was, k) ^ part[k]
      invariant forall k :: j <= k < p.Length ==> p[k] == At(was, k)
    {
      p[j] := p[j] ^ part[j];
    }
    forall k | 0 <= k < p.Length
      ensures p[k] == Xor(was, part)[k]
    {
      AtXor(was, part, k);
    }
  }

  /** Where part i starts: i times the chunk size. */
  function Start(i: nat, c: nat): nat {
    if i == 0 then 0 else Start(i - 1, c) + c
  }

  lemma {:induction false} StartIsProduct(i: nat, c: nat)
    ensures Start(i, c) == i * c
  {
    if i > 0 {
      StartIsProduct(i - 1, c);
    }
  }

  lemma {:induction false} EarlierStarts(i: int, j: nat, c: nat)
    requires i <= j
    ensures i >= 0 ==> Start(i, c) <= Start(j, c)
    decreases j
  {
    if 0 <= i < j {
      EarlierStarts(i, j - 1, c);
    }
  }

  /** The last part would start beyond the end of the file. */
  predicate Overruns(len: nat, n: nat)
    requires n > 0
  {
    Start(n - 1, ChunkSize(len, n)) > len
  }

  /** n chunks of the rounded-up size cover the file. */
  lemma {:induction false} Covered(len: nat, n: nat)
    requires n > 0
    ensures Start(n, ChunkSize(len, n)) >= len
  {
    StartIsProduct(n, ChunkSize(len, n));
  }

  /** Part i of the file. */
  function PartOf(file: Bytes, c: nat, i: nat): Bytes
    requires Start(i, c) <= |file|
  {
    file[Start(i, c)..Min(Start(i, c) + c, |file|)]
  }

  /** The first n parts of the file. */
  function Parts(file: Bytes, c: nat, n: nat): (ps: seq<Bytes>)
    requires n > 0 ==> Start(n - 1, c) <= |file|
    ensures |ps| == n
  {
    if n == 0 then [] else
      EarlierStarts(n - 2, n - 1, c);
      Parts(file, c, n - 1) + [PartOf(file, c, n - 1)]
  }

  /** Every part but the last has the full size. */
  lemma {:induction false} PartSizes(file: Bytes, c: nat, n: nat, i: nat)
    requires n > 0 && Start(n - 1, c) <= |file| && i < n
    ensures i < n - 1 ==> |Parts(file, c, n)[i]| == c
  {
    EarlierStarts(n - 2, n - 1, c);
    if i < n - 1 {
      PartSizes(file, c, n - 1, i);
    }
  }

  lemma {:induction false} PartsFlatten(file: Bytes, c: nat, n: nat)
    requires n > 0 ==> Start(n - 1, c) <= |file|
    ensures Flatten(Parts(file, c, n)) == file[..Min(Start(n, c), |file|)]
  {
    if n > 0 {
      EarlierStarts(n - 2, n - 1, c);
      PartsFlatten(file, c, n - 1);
      FlattenAppend(Parts(file, c, n - 1), PartOf(file, c, n - 1));
    }
  }

  method Copied(part: Bytes) returns (a: array<bv8>)
    ensures fresh(a) && a[..] == Xor([], part)
  {
    a := new bv8[|part|](k requires 0 <= k < |part| => part[k]);
    forall k | 0 <= k < |part|
      ensures Xor([], part)[k] == part[k]
    {
      AtXor([], part, k);
    }
  }

  /** The shard's place in the list decides its index, backend and role. */
  predicate InPlace(p: Placing, sh: Shard, i: nat, n: nat)
    requires p.backends > 0
  {
    && sh.id == p.ids(i) && sh.index == i && sh.backend == Some(i % p.backends)
    && sh.checksum == p.h(sh.data) && sh.parity == (i == n)
  }

  /** Part i, or nothing where its length would be negative. */
  method CutPart(file: Bytes, c: nat, i: nat) returns (part: Option<Bytes>)
    ensures part.None? <==> Start(i, c) > |file|
    ensures part.Some? ==> part.value == PartOf(file, c, i)
  {
    StartIsProduct(i, c);
    var start := i * c;
    var end := start + c;
    if end > |file| {
      end := |file|;
    }
    if end < start {
      return None;
    }
    return Some(file[start..end]);
  }

  /** The first part is the parity so far; later ones are added. */
  method AddToParity(parity: array<bv8>, part: Bytes, first: bool) returns (p: array<bv8>)
    requires first ==> parity.Length == 0
    modifies parity
    ensures p == parity || fresh(p)
    ensures p[..] == Xor(old(parity[..]), part)
  {
    if first {
      p := Copied(part);
    } else {
      p := XorInto(parity, part);
    }
  }

  /** One data part: cut, stored as a shard and added to the parity, unless its length would be negative. */
  method PlacePart(p: Placing, file: Bytes, c: nat, i: nat, parity: array<bv8>)
    returns (sh: Option<Shard>, next: array<bv8>)
    requires p.backends > 0 && (i == 0 ==> parity.Length == 0)
    modifies parity
    ensures next == parity || fresh(next)
    ensures sh.None? <==> Start(i, c) > |file|
    ensures sh.Some? ==> sh.value == PlacedShard(p, i, PartOf(file, c, i), false)
    ensures sh.Some? ==> next[..] == Xor(old(parity[..]), PartOf(file, c, i))
  {
    var cut := CutPart(file, c, i);
    if cut.None? {
      return None, parity;
    }
    next := AddToParity(parity, cut.value, i == 0);
    sh := Some(PlacedShard(p, i, cut.value, false));
  }

  /** The loop over the data parts. */
  method SplitFile(p: Placing, file: Bytes, n: nat, c: nat)
    returns (ok: bool, shards: seq<Shard>, parity: array<bv8>)
    requires p.backends > 0 && n > 0
    ensures ok <==> Start(n - 1, c) <= |file|
    ensures ok ==> shards == DataShardsOf(p, Parts(file, c, n)) && parity[..] == XorAll(Parts(file, c, n))
  {
    shards := [];
    parity := new bv8[0];
    for i := 0 to n
      invariant i > 0 ==> Start(i - 1, c) <= |file|
      invariant shards == DataShardsOf(p, Parts(file, c, i))
      invariant fresh(parity) && parity[..] == XorAll(Parts(file, c, i)) && (i == 0 ==> parity.Length == 0)
    {
      var sh;
      sh, parity := PlacePart(p, file, c, i, parity);
      if sh.None? {
        EarlierStarts(i, n - 1, c);
        return false, shards, parity;
      }
      OneMore(p, Parts(file, c, i), PartOf(file, c, i));
      shards := shards + [sh.value];
    }
    return true, shards, parity;
  }

  /** Data parts that concatenate to the file, then their XOR, each on its backend. */
  ghost predicate WellPlaced(p: Placing, shards: seq<Shard>, file: Bytes, n: nat)
    requires p.backends > 0
  {
    && |shards| == n + 1
    && (forall i :: 0 <= i <= n ==> InPlace(p, shards[i], i, n))
    && Flatten(Data(shards[..n])) == file
    && (forall i :: 0 <= i < n - 1 ==> |shards[i].data| == (|file| + n - 1) / n)
    && shards[n].data == XorAll(Data(shards[..n]))
  }

  lemma Assembled(p: Placing, file: Bytes, n: nat, c: nat, par: Shard)
    requires p.backends > 0 && n > 0 && c == (|file| + n - 1) / n && Start(n - 1, c) <= |file| <= Start(n, c)
    requires InPlace(p, par, n, n) && par.data == XorAll(Parts(file, c, n))
    ensures WellPlaced(p, DataShardsOf(p, Parts(file, c, n)) + [par], file, n)
  {
    var shards := DataShardsOf(p, Parts(file, c, n));
    DataShardsInPlace(p, Parts(file, c, n), n);
    PartsFlatten(file, c, n);
    assert file[..|file|] == file;
    forall i | 0 <= i < n - 1
      ensures |(shards + [par])[i].data| == c
    {
      PartSizes(file, c, n, i);
      assert Data(shards)[i] == shards[i].data;
    }
    assert (shards + [par])[..n] == shards;
  }

  /** The shards of the file; or the failing cases, exactly. */
  method PlaceShards(p: Placing, file: Bytes, opt: Option<int>) returns (r: Placement)
    ensures r.NoBackends? <==> p.backends == 0
    ensures r.Panics? <==> p.backends > 0 && Overruns(|file|, DataShards(opt))
    ensures r.Placed? ==> WellPlaced(p, r.shards, file, DataShards(opt))
  {
    if p.backends == 0 {
      return NoBackends;
    }
    var n := DataShards(opt);
    var c := ChunkSize(|file|, n);
    Covered(|file|, n);
    var ok, shards, parity := SplitFile(p, file, n, c);
    if !ok {
      return Panics;
    }
    var par := PlacedShard(p, n, parity[..], true);
    Assembled(p, file, n, c, par);
    r := Placed(shards + [par]);
  }

  /** The failing case as the program computes it. */
  lemma OverrunsMeans(len: nat, n: nat)
    requires n > 0
    ensures Overruns(len, n) <==> (n - 1) * ((len + n - 1) / n) > len
  {
    StartIsProduct(n - 1, ChunkSize(len, n));
  }

  /** Long files are never split badly: from the square of one less than the number of parts on. */
  lemma LongFilesAreSafe(len: nat, n: nat)
    requires n >= 2 && len >= (n - 1) * (n - 1)
    ensures !Overruns(len, n)
  {
    StartIsProduct(n - 1, ChunkSize(len, n));
    var c := ChunkSize(len, n);
    assert n * c <= len + n - 1;
    Scale(n - 1, n * c, len + n - 1);
    Rearranged(len, n, c);
    Unscale(n, (n - 1) * c, len);
  }

  lemma Rearranged(len: nat, n: nat, c: nat)
    requires n >= 2 && len >= (n - 1) * (n - 1) && (n - 1) * (n * c) <= (n - 1) * (len + n - 1)
    ensures n * ((n - 1) * c) <= n * len
  {
    assert n * ((n - 1) * c) == (n - 1) * (n * c);
    assert (n - 1) * (len + n - 1) == n * len - len + (n - 1) * (n - 1);
  }

  lemma Scale(k: nat, x: int, y: int)
    requires x <= y
    ensures k * x <= k * y
  {
  }

  lemma Unscale(k: nat, x: int, y: int)
    requires k > 0 && k * x <= k * y
    ensures x <= y
  {
    assert k * (y + 1) == k * y + k;
    if x > y {
      Scale(k, y + 1, x);
    }
  }

  /** Five bytes in four parts is such a bad split. */
  lemma FiveBytesInFourPartsPanics()
    ensures DataShards(Some(4)) == 4 && Overruns(5, 4)
  {
    StartIsProduct(3, 2);
  }
}
