/** Chunked upload and concurrent download over backends that store what they are given. */
module Chunks {
  import opened Merkle
  import opened Options
  import opened Shards

  datatype Outcome = Ok(data: Bytes) | NotFound | MerkleMismatch

  // ---------- cutting into chunks ----------

  function Chunks(data: Bytes, size: nat): seq<Bytes>
    requires size > 0
  {
    if data == [] then []
    else if |data| <= size then [data]
    else [data[..size]] + Chunks(data[size..], size)
  }

  lemma {:induction false} ChunksFlatten(data: Bytes, size: nat)
    requires size > 0
    ensures Flatten(Chunks(data, size)) == data
  {
    if |data| > size {
      ChunksFlatten(data[size..], size);
      assert Chunks(data, size)[1..] == Chunks(data[size..], size);
      assert data == data[..size] + data[size..];
    } else if data != [] {
      assert [data][1..] == [];
    }
  }

  /** Every chunk but the last has the full size, and the last at least one byte. */
  lemma {:induction false} ChunkSizes(data: Bytes, size: nat)
    requires size > 0
    ensures var chunks := Chunks(data, size);
            && (chunks == [] <==> data == [])
            && (forall i :: 0 <= i < |chunks| - 1 ==> |chunks[i]| == size)
            && (chunks != [] ==> 1 <= |chunks[|chunks| - 1]| <= size)
  {
    if |data| > size {
      ChunkSizes(data[size..], size);
    }
  }

  // ---------- what is stored ----------

  predicate Stored(bs: Store, si: ShardInfo, data: Bytes) {
    si.key in bs && bs[si.key] == data
  }

  /** A shard that can be fetched and has the recorded checksum. */
  predicate Intact(h: Hash, bs: Store, si: ShardInfo) {
    si.key in bs && h(bs[si.key]) == si.checksum
  }

  /** The data of the intact shards, in manifest order. */
  function Fetched(h: Hash, bs: Store, infos: seq<ShardInfo>): seq<Bytes> {
    if infos == [] then []
    else
      var last := infos[|infos| - 1];
      Fetched(h, bs, infos[..|infos| - 1]) + if Intact(h, bs, last) then [bs[last.key]] else []
  }

  predicate Ascending(infos: seq<ShardInfo>) {
    forall i, j :: 0 <= i < j < |infos| ==> infos[i].index < infos[j].index
  }

  /** What a download gives: the intact data joined, if it has the recorded root. */
  function Downloaded(h: Hash, bs: Store, manifests: map<FileName, Manifest>, name: FileName): Outcome {
    if name !in manifests then NotFound
    else
      var found := Fetched(h, bs, manifests[name].shards);
      if Root(h, found) == manifests[name].root then Ok(Flatten(found)) else MerkleMismatch
  }

  // ---------- found shards in any completion order ----------

  /** A fetched shard with the index its manifest gives it. */
  datatype Piece = Piece(index: nat, data: Bytes)

  /** The fetched pieces in manifest order. */
  function Pieces(h: Hash, bs: Store, infos: seq<ShardInfo>): seq<Piece> {
    if infos == [] then []
    else
      var last := infos[|infos| - 1];
      Pieces(h, bs, infos[..|infos| - 1]) + if Intact(h, bs, last) then [Piece(last.index, bs[last.key])] else []
  }

  ghost predicate Sorted(ps: seq<Piece>) {
    forall i, j :: 0 <= i < j < |ps| ==> ps[i].index < ps[j].index
  }

  function DataOf(ps: seq<Piece>): seq<Bytes> {
    if ps == [] then [] else DataOf(ps[..|ps| - 1]) + [ps[|ps| - 1].data]
  }

  ghost predicate IsPiece(h: Hash, bs: Store, infos: seq<ShardInfo>, p: Piece) {
    exists si :: si in infos && Intact(h, bs, si) && p == Piece(si.index, bs[si.key])
  }

  lemma IsPieceMore(h: Hash, bs: Store, infos: seq<ShardInfo>, p: Piece)
    requires infos != []
    ensures var n := |infos| - 1;
            IsPiece(h, bs, infos, p) <==>
              IsPiece(h, bs, infos[..n], p) || (Intact(h, bs, infos[n]) && p == Piece(infos[n].index, bs[infos[n].key]))
  {
    assert infos == infos[..|infos| - 1] + [infos[|infos| - 1]];
    assert forall si :: si in infos <==> si in infos[..|infos| - 1] || si == infos[|infos| - 1];
  }

  lemma {:induction false} PiecesMembers(h: Hash, bs: Store, infos: seq<ShardInfo>, p: Piece)
    ensures p in Pieces(h, bs, infos) <==> IsPiece(h, bs, infos, p)
  {
    if infos != [] {
      PiecesMembers(h, bs, infos[..|infos| - 1], p);
      IsPieceMore(h, bs, infos, p);
    }
  }

  lemma {:induction false} PiecesData(h: Hash, bs: Store, infos: seq<ShardInfo>)
    ensures DataOf(Pieces(h, bs, infos)) == Fetched(h, bs, infos)
  {
    if infos != [] {
      var n := |infos| - 1;
      PiecesData(h, bs, infos[..n]);
      if Intact(h, bs, infos[n]) {
        var ps := Pieces(h, bs, infos[..n]);
        assert (ps + [Piece(infos[n].index, bs[infos[n].key])])[..|ps|] == ps;
      } else {
        assert Pieces(h, bs, infos) == Pieces(h, bs, infos[..n]);
      }
    }
  }

  lemma {:induction false} PiecesSorted(h: Hash, bs: Store, infos: seq<ShardInfo>)
    requires Ascending(infos)
    ensures Sorted(Pieces(h, bs, infos))
  {
    if infos != [] {
      var n := |infos| - 1;
      var ps := Pieces(h, bs, infos[..n]);
      PiecesSorted(h, bs, infos[..n]);
      forall i | 0 <= i < |ps|
        ensures ps[i].index < infos[n].index
      {
        PiecesMembers(h, bs, infos[..n], ps[i]);
        var si :| si in infos[..n] && Intact(h, bs, si) && ps[i] == Piece(si.index, bs[si.key]);
        var j :| 0 <= j < n && infos[..n][j] == si;
      }
    }
  }

  ghost predicate SameMembers(a: seq<Piece>, b: seq<Piece>) {
    forall p :: p in a <==> p in b
  }

  lemma LastsEqual(a: seq<Piece>, b: seq<Piece>)
    requires Sorted(a) && Sorted(b) && SameMembers(a, b) && a != [] && b != []
    ensures a[|a| - 1] == b[|b| - 1]
  {
    assert a[|a| - 1] in b && b[|b| - 1] in a;
    var i :| 0 <= i < |b| && b[i] == a[|a| - 1];
    var j :| 0 <= j < |a| && a[j] == b[|b| - 1];
  }

  lemma FrontMember(a: seq<Piece>, p: Piece)
    requires Sorted(a) && a != []
    ensures p in a[..|a| - 1] <==> p in a && p != a[|a| - 1]
  {
    var n := |a| - 1;
    if p in a && p != a[n] {
      var k :| 0 <= k < |a| && a[k] == p;
      assert a[..n][k] == p;
    }
  }

  lemma NotEmpty(a: seq<Piece>, b: seq<Piece>)
    requires (SameMembers(a, b) || SameMembers(b, a)) && a != []
    ensures b != []
  {
    assert a[0] in a;
  }

  lemma FrontsSame(a: seq<Piece>, b: seq<Piece>)
    requires Sorted(a) && Sorted(b) && SameMembers(a, b) && a != [] && b != [] && a[|a| - 1] == b[|b| - 1]
    ensures SameMembers(a[..|a| - 1], b[..|b| - 1])
  {
    var n, m := |a| - 1, |b| - 1;
    forall p
      ensures p in a[..n] <==> p in b[..m]
    {
      FrontMember(a, p);
      FrontMember(b, p);
    }
  }

  /** Sorting leaves no freedom: pieces with distinct indices have one ascending order. */
  lemma {:induction false} OneOrder(a: seq<Piece>, b: seq<Piece>)
    requires Sorted(a) && Sorted(b) && SameMembers(a, b)
    ensures a == b
  {
    if a != [] {
      NotEmpty(a, b);
    } else if b != [] {
      NotEmpty(b, a);
    }
    if a != [] {
      LastsEqual(a, b);
      var n, m := |a| - 1, |b| - 1;
      FrontsSame(a, b);
      OneOrder(a[..n], b[..m]);
      assert a == a[..n] + [a[n]] && b == b[..m] + [b[m]];
    }
  }

  /** Puts a piece into its place. */
  method Insert(ps: seq<Piece>, p: Piece) returns (r: seq<Piece>)
    requires Sorted(ps) && forall q :: q in ps ==> q.index != p.index
    ensures Sorted(r) && forall q :: q in r <==> q in ps || q == p
  {
    var i := 0;
    while i < |ps| && ps[i].index < p.index
      invariant i <= |ps| && forall k :: 0 <= k < i ==> ps[k].index < p.index
    {
      i := i + 1;
    }
    if i < |ps| {
      assert ps[i] in ps;
    }
    Inserted(ps, p, i);
    r := ps[..i] + [p] + ps[i..];
  }

  lemma Inserted(ps: seq<Piece>, p: Piece, i: nat)
    requires Sorted(ps) && i <= |ps| && (forall k :: 0 <= k < i ==> ps[k].index < p.index)
    requires i < |ps| ==> p.index < ps[i].index
    ensures Sorted(ps[..i] + [p] + ps[i..])
    ensures forall q :: q in ps[..i] + [p] + ps[i..] <==> q in ps || q == p
  {
    assert ps == ps[..i] + ps[i..];
  }

  method SortByIndex(found: seq<Piece>) returns (r: seq<Piece>)
    requires forall i, j :: 0 <= i < j < |found| ==> found[i].index != found[j].index
    ensures Sorted(r) && forall p :: p in r <==> p in found
  {
    r := [];
    for k := 0 to |found|
      invariant Sorted(r) && forall p :: p in r <==> p in found[..k]
    {
      assert found[..k + 1] == found[..k] + [found[k]];
      r := Insert(r, found[k]);
    }
    assert found[..|found|] == found;
  }

  // ---------- upload and download ----------

  const DEFAULT_CHUNK_SIZE := 64 * 1024 * 1024

  function ChunkSize(opt: Option<int>): (n: nat)
    ensures n > 0
  {
    if opt.Some? && opt.value > 0 then opt.value else DEFAULT_CHUNK_SIZE
  }

  /** One replica per backend, unless the caller asks for another number. */
  function Replicas(opt: Option<int>, backends: nat): (n: nat)
    ensures backends > 0 ==> n > 0
  {
    if opt.Some? && opt.value > 0 then opt.value else backends
  }

  /** A positive option is taken as it is; otherwise chunks have 64 MiB, with one replica on each backend. */
  lemma AsAsked(n: int, backends: nat)
    ensures ChunkSize(None) == 67108864 && Replicas(None, backends) == backends
    ensures ChunkSize(Some(n)) == if n >= 1 then n else 67108864
    ensures Replicas(Some(n), backends) == if n >= 1 then n else backends
  {
  }

  function InfoOf(sh: Shard): ShardInfo { ShardInfo(KeyOf(sh, 0), sh.index, sh.checksum) }

  /** Nothing stored before is lost or changed. */
  predicate Extends(before: Store, after: Store) {
    forall k :: k in before ==> k in after && after[k] == before[k]
  }

  predicate FreshFrom(bs: Store, next: ShardId) {
    forall k :: k in bs ==> k.id < next
  }

  predicate IsReplica(h: Hash, bs: Store, sh: Shard, chunk: Bytes, index: nat) {
    sh.index == index && sh.data == chunk && sh.checksum == h(chunk) && Stored(bs, InfoOf(sh), chunk)
  }

  /** A written shard of one of the chunks. */
  predicate Written(h: Hash, bs: Store, chunks: seq<Bytes>, sh: Shard) {
    sh.index < |chunks| && sh.data == chunks[sh.index] && sh.checksum == h(sh.data) && Stored(bs, InfoOf(sh), sh.data)
  }

  /** Shard indices start at zero and go up by at most one. */
  predicate Steps(shards: seq<Shard>) {
    && (shards != [] ==> shards[0].index == 0)
    && forall p :: 0 < p < |shards| ==>
         shards[p].index == shards[p - 1].index || shards[p].index == shards[p - 1].index + 1
  }

  function NextIndex(shards: seq<Shard>): nat {
    if shards == [] then 0 else shards[|shards| - 1].index + 1
  }

  /** No earlier shard has the same index. */
  predicate IsFirst(shards: seq<Shard>, p: nat)
    requires p < |shards|
  {
    forall q :: 0 <= q < p ==> shards[q].index != shards[p].index
  }

  /** One of the first q shards, with no earlier one of its index. */
  ghost predicate FromFirst(shards: seq<Shard>, q: nat, info: ShardInfo)
    requires q <= |shards|
  {
    exists p :: 0 <= p < q && info == InfoOf(shards[p]) && IsFirst(shards, p)
  }

  lemma FromFirstMore(shards: seq<Shard>, q: nat, info: ShardInfo)
    requires q < |shards| && FromFirst(shards, q, info)
    ensures FromFirst(shards, q + 1, info)
  {
  }

  lemma IndexOfNext(shards: seq<Shard>, q: nat)
    requires q < |shards| && Steps(shards)
    ensures NextIndex(shards[..q + 1]) == shards[q].index + 1
    ensures shards[q].index <= NextIndex(shards[..q]) <= shards[q].index + 1
  {
  }

  /** The loop that keeps the first shard of every index for the manifest. */
  method FirstPerIndex(shards: seq<Shard>) returns (infos: seq<ShardInfo>)
    requires Steps(shards)
    ensures |infos| == NextIndex(shards)
    ensures forall k :: 0 <= k < |infos| ==> infos[k].index == k && FromFirst(shards, |shards|, infos[k])
  {
    infos := [];
    var indexMap: set<nat> := {};
    for q := 0 to |shards|
      invariant |infos| == NextIndex(shards[..q])
      invariant forall i: nat :: i in indexMap <==> i < |infos|
      invariant forall k :: 0 <= k < |infos| ==> infos[k].index == k && FromFirst(shards, q, infos[k])
      invariant forall p :: 0 <= p < q ==> shards[p].index in indexMap
    {
      var sh := shards[q];
      IndexOfNext(shards, q);
      forall k | 0 <= k < |infos|
        ensures FromFirst(shards, q + 1, infos[k])
      {
        FromFirstMore(shards, q, infos[k]);
      }
      if sh.index in indexMap {
        continue;
      }
      assert IsFirst(shards, q);
      indexMap := indexMap + {sh.index};
      infos := infos + [InfoOf(sh)];
    }
    assert shards[..|shards|] == shards;
  }

  lemma {:induction false} FetchedAll(h: Hash, bs: Store, infos: seq<ShardInfo>, chunks: seq<Bytes>)
    requires |infos| == |chunks|
    requires forall k :: 0 <= k < |infos| ==> infos[k].checksum == h(chunks[k]) && Stored(bs, infos[k], chunks[k])
    ensures Fetched(h, bs, infos) == chunks
  {
    if infos != [] {
      var n := |infos| - 1;
      FetchedAll(h, bs, infos[..n], chunks[..n]);
      assert chunks == chunks[..n] + [chunks[n]];
    }
  }

  lemma {:induction false} ChunksStep(rest: Bytes, size: nat)
    requires size > 0 && rest != []
    ensures var n := if |rest| < size then |rest| else size;
            Chunks(rest, size) == [rest[..n]] + Chunks(rest[n..], size)
  {
    if |rest| <= size {
      assert rest[..|rest|] == rest && rest[|rest|..] == [];
    }
  }

  /** Moving one chunk from the rest to those done. */
  lemma {:induction false} OneChunk(data: Bytes, rest: Bytes, chunks: seq<Bytes>, size: nat)
    requires size > 0 && rest != [] && chunks + Chunks(rest, size) == Chunks(data, size)
    ensures var n := if |rest| < size then |rest| else size;
            chunks + [rest[..n]] + Chunks(rest[n..], size) == Chunks(data, size)
  {
    var n := if |rest| < size then |rest| else size;
    ChunksStep(rest, size);
    assert chunks + [rest[..n]] + Chunks(rest[n..], size) == chunks + ([rest[..n]] + Chunks(rest[n..], size));
  }

  /** What an upload leaves: one stored and recorded shard per chunk, and a root over all replicas. */
  ghost predicate Recorded(h: Hash, bs: Store, m: Manifest, chunks: seq<Bytes>, replicas: nat) {
    && |m.shards| == |chunks|
    && (forall k :: 0 <= k < |chunks| ==>
          m.shards[k].index == k && m.shards[k].checksum == h(chunks[k]) && Stored(bs, m.shards[k], chunks[k]))
    && m.root == Root(h, RepeatEach(chunks, replicas))
  }

  /** A file whose shards are all still stored is downloaded the same, whatever else is uploaded. */
  lemma LaterUploadsKeep(h: Hash, bs: Store, more: Store, m: Manifest, chunks: seq<Bytes>, r: nat)
    requires Recorded(h, bs, m, chunks, r) && Extends(bs, more)
    ensures Recorded(h, more, m, chunks, r)
  {
  }

  // ---------- downloads of what is left ----------

  /** The manifest lists these chunks, with their checksums and the root over them. */
  ghost predicate Lists(h: Hash, m: Manifest, chunks: seq<Bytes>) {
    && |m.shards| == |chunks| && m.root == Root(h, chunks)
    && forall k :: 0 <= k < |chunks| ==> m.shards[k].checksum == h(chunks[k])
  }

  /** No data at all has the root of one empty chunk. */
  function OneAtLeast(data: seq<Bytes>): (r: seq<Bytes>)
    ensures r != []
  {
    if data == [] then [[]] else data
  }

  lemma RootOfNothing(h: Hash, data: seq<Bytes>)
    ensures Root(h, OneAtLeast(data)) == Root(h, data)
  {
  }

  lemma {:induction false} FetchedFewer(h: Hash, bs: Store, infos: seq<ShardInfo>)
    ensures |Fetched(h, bs, infos)| <= |infos|
  {
    if infos != [] {
      FetchedFewer(h, bs, infos[..|infos| - 1]);
    }
  }

  /** The tree over what is left is no higher than that over what was listed, and the padded data of the first is
      what is hashed at that height below the root of the other. */
  ghost predicate PassesCheck(h: Hash, left: seq<Bytes>, listed: seq<Bytes>) {
    var a, b := OneAtLeast(left), OneAtLeast(listed);
    && Height(|a|) <= Height(|b|)
    && Padded(h, a, 0) == Padded(h, b, Height(|b|) - Height(|a|))
  }

  /** Whatever was lost or altered since, for a root over any chunks: the download succeeds exactly if what is left
      passes the check, and then gives what is left. */
  lemma {:induction false} DegradedDownload(h: Hash, bs: Store, manifests: map<FileName, Manifest>, name: FileName,
                                            listed: seq<Bytes>)
    requires name in manifests && manifests[name].root == Root(h, listed) && |manifests[name].shards| <= |listed|
    requires CollisionFree(h, OneAtLeast(Fetched(h, bs, manifests[name].shards)), OneAtLeast(listed))
    ensures var left := Fetched(h, bs, manifests[name].shards);
            Downloaded(h, bs, manifests, name) ==
              if PassesCheck(h, left, listed) then Ok(Flatten(left)) else MerkleMismatch
  {
    var left := Fetched(h, bs, manifests[name].shards);
    FetchedFewer(h, bs, manifests[name].shards);
    RootOfNothing(h, left);
    RootOfNothing(h, listed);
    HeightMonotone(|OneAtLeast(left)|, |OneAtLeast(listed)|);
    RootsEqual(h, OneAtLeast(left), OneAtLeast(listed));
  }

  /** Unless the first chunk left has the size of two hashes, only trees of one height with the same padded data
      pass the check. */
  lemma {:induction false} PassesAtOneHeight(h: Hash, left: seq<Bytes>, listed: seq<Bytes>)
    requires CollisionFree(h, OneAtLeast(left), OneAtLeast(listed)) && |OneAtLeast(left)[0]| != 2 * HASH_SIZE
    ensures PassesCheck(h, left, listed)
            <==> && Height(|OneAtLeast(left)|) == Height(|OneAtLeast(listed)|)
                 && Padded(h, OneAtLeast(left), 0) == Padded(h, OneAtLeast(listed), 0)
  {
    var a, b := OneAtLeast(left), OneAtLeast(listed);
    if Height(|a|) < Height(|b|) {
      RootsEqual(h, a, b);
      HigherTreeDiffers(h, a, b);
    }
  }

  /** With several replicas per chunk the recorded root is over all replicas: the list of chunks passes only if
      its first chunk is two hashes. */
  lemma {:induction false} ReplicatedFails(h: Hash, chunks: seq<Bytes>, r: nat)
    requires r > 1 && chunks != [] && CollisionFree(h, chunks, RepeatEach(chunks, r))
    requires |chunks[0]| != 2 * HASH_SIZE
    ensures !PassesCheck(h, chunks, RepeatEach(chunks, r))
  {
    RepeatEachStarts(chunks, r);
    HeightOfDouble(|chunks|, |RepeatEach(chunks, r)|);
    PassesAtOneHeight(h, chunks, RepeatEach(chunks, r));
  }

  /** Downloading what was uploaded gives the same bytes for every input and chunk size with one replica per chunk.
      With more, it gives them only if the chunks pass the check against all replicas; unless the first chunk has the
      size of two hashes, they never do. */
  lemma {:induction false} DownloadAfterUpload(h: Hash, bs: Store, manifests: map<FileName, Manifest>, name: FileName,
                                               data: Bytes, size: nat, r: nat)
    requires size > 0 && r >= 1 && name in manifests && Recorded(h, bs, manifests[name], Chunks(data, size), r)
    requires r > 1 && data != [] ==> CollisionFree(h, Chunks(data, size), RepeatEach(Chunks(data, size), r))
    ensures r == 1 || data == [] ==> Downloaded(h, bs, manifests, name) == Ok(data)
    ensures r > 1 && data != [] ==>
              var chunks := Chunks(data, size);
              && Downloaded(h, bs, manifests, name)
                 == (if PassesCheck(h, chunks, RepeatEach(chunks, r)) then Ok(data) else MerkleMismatch)
              && (|chunks[0]| != 2 * HASH_SIZE ==> !PassesCheck(h, chunks, RepeatEach(chunks, r)))
  {
    var chunks := Chunks(data, size);
    FetchedAll(h, bs, manifests[name].shards, chunks);
    ChunksFlatten(data, size);
    if r == 1 {
      RepeatEachOnce(chunks);
    } else if data != [] {
      RepeatEachStarts(chunks, r);
      DegradedDownload(h, bs, manifests, name, RepeatEach(chunks, r));
      if |chunks[0]| != 2 * HASH_SIZE {
        ReplicatedFails(h, chunks, r);
      }
    }
  }

  /** So a download never hides the loss of content: with one chunk's bytes in no shard that is left, it fails. */
  lemma {:induction false} LossNoticed(h: Hash, bs: Store, manifests: map<FileName, Manifest>, name: FileName,
                                       listed: seq<Bytes>, lost: Bytes)
    requires name in manifests && manifests[name].root == Root(h, listed) && |manifests[name].shards| <= |listed|
    requires var left := Fetched(h, bs, manifests[name].shards);
             && CollisionFree(h, OneAtLeast(left), OneAtLeast(listed)) && |OneAtLeast(left)[0]| != 2 * HASH_SIZE
             && lost in listed && lost !in left && lost != []
    ensures Downloaded(h, bs, manifests, name) == MerkleMismatch
  {
    var left := Fetched(h, bs, manifests[name].shards);
    DegradedDownload(h, bs, manifests, name, listed);
    PassesAtOneHeight(h, left, listed);
    PaddedMembers(h, OneAtLeast(left), lost);
    PaddedMembers(h, OneAtLeast(listed), lost);
  }

  lemma {:induction false} FetchedPrefix(h: Hash, bs: Store, infos: seq<ShardInfo>, n: nat)
    requires n <= |infos| && forall k :: n <= k < |infos| ==> !Intact(h, bs, infos[k])
    ensures Fetched(h, bs, infos) == Fetched(h, bs, infos[..n])
  {
    if n == |infos| {
      assert infos[..n] == infos;
    } else {
      assert infos[..|infos| - 1][..n] == infos[..n];
      FetchedPrefix(h, bs, infos[..|infos| - 1], n);
    }
  }

  /** Only the first n listed shards are left, unchanged. */
  ghost predicate OnlyFirst(h: Hash, bs: Store, m: Manifest, chunks: seq<Bytes>, n: nat) {
    && Lists(h, m, chunks) && n <= |chunks|
    && (forall k :: 0 <= k < n ==> Stored(bs, m.shards[k], chunks[k]))
    && (forall k :: n <= k < |chunks| ==> !Intact(h, bs, m.shards[k]))
  }

  lemma {:induction false} FirstLeft(h: Hash, bs: Store, m: Manifest, chunks: seq<Bytes>, n: nat)
    requires OnlyFirst(h, bs, m, chunks, n)
    ensures Fetched(h, bs, m.shards) == chunks[..n]
  {
    FetchedPrefix(h, bs, m.shards, n);
    FetchedAll(h, bs, m.shards[..n], chunks[..n]);
  }

  /** A lost last chunk that repeats the one before it, after an odd number of others from three up, passes: the
      download then succeeds with the end of the file missing. */
  lemma {:induction false} LostDuplicateUnnoticed(h: Hash, bs: Store, manifests: map<FileName, Manifest>,
                                                  name: FileName, fewer: seq<Bytes>)
    requires |fewer| >= 3 && |fewer| % 2 == 1 && name in manifests
    requires OnlyFirst(h, bs, manifests[name], fewer + [fewer[|fewer| - 1]], |fewer|)
    ensures Downloaded(h, bs, manifests, name) == Ok(Flatten(fewer))
    ensures Flatten(fewer + [fewer[|fewer| - 1]]) == Flatten(fewer) + fewer[|fewer| - 1]
  {
    FirstLeft(h, bs, manifests[name], fewer + [fewer[|fewer| - 1]], |fewer|);
    assert (fewer + [fewer[|fewer| - 1]])[..|fewer|] == fewer;
    RepeatedLastSameRoot(h, fewer);
    FlattenAppend(fewer, fewer[|fewer| - 1]);
  }

  /** So do two lost last chunks of eight that repeat the two before them. */
  lemma {:induction false} LostPairUnnoticed(h: Hash, bs: Store, manifests: map<FileName, Manifest>, name: FileName,
                                             six: seq<Bytes>)
    requires |six| == 6 && name in manifests && OnlyFirst(h, bs, manifests[name], six + six[4..], 6)
    ensures Downloaded(h, bs, manifests, name) == Ok(Flatten(six))
  {
    FirstLeft(h, bs, manifests[name], six + six[4..], 6);
    assert (six + six[4..])[..6] == six;
    RepeatedPairSameRoot(h, six);
  }

  lemma RepeatMore(x: Bytes, r: nat)
    ensures Repeat(x, r + 1) == Repeat(x, r) + [x]
  {
    assert Repeat(x, r + 1) == [x] + Repeat(x, r);
  }

  lemma StepsMore(shards: seq<Shard>, written: seq<Shard>, index: nat)
    requires Steps(shards) && NextIndex(shards) == index && written != []
    requires forall i :: 0 <= i < |written| ==> written[i].index == index
    ensures Steps(shards + written) && NextIndex(shards + written) == index + 1
  {
  }

  lemma WrittenKept(h: Hash, before: Store, after: Store, chunks: seq<Bytes>, chunk: Bytes, sh: Shard)
    requires Extends(before, after) && Written(h, before, chunks, sh)
    ensures Written(h, after, chunks + [chunk], sh)
  {
  }

  /** The state between chunks: every replica of every chunk so far is written and listed in order. */
  ghost predicate Progress(h: Hash, bs: Store, chunks: seq<Bytes>, shards: seq<Shard>, r: nat) {
    && Data(shards) == RepeatEach(chunks, r)
    && Steps(shards) && NextIndex(shards) == |chunks|
    && forall p :: 0 <= p < |shards| ==> Written(h, bs, chunks, shards[p])
  }

  /** The shard list grows by the replicas of one more chunk. */
  lemma {:induction false} ProgressMore(h: Hash, before: Store, after: Store, chunks: seq<Bytes>, chunk: Bytes,
                     shards: seq<Shard>, written: seq<Shard>, r: nat)
    requires Extends(before, after) && Progress(h, before, chunks, shards, r) && r >= 1
    requires |written| == r && Data(written) == Repeat(chunk, r)
    requires forall i :: 0 <= i < r ==> IsReplica(h, after, written[i], chunk, |chunks|)
    ensures Progress(h, after, chunks + [chunk], shards + written, r)
  {
    DataConcat(shards, written);
    assert (chunks + [chunk])[..|chunks|] == chunks;
    StepsMore(shards, written, |chunks|);
    forall p | 0 <= p < |shards + written|
      ensures Written(h, after, chunks + [chunk], (shards + written)[p])
    {
      if p < |shards| {
        WrittenKept(h, before, after, chunks, chunk, shards[p]);
      } else {
        assert IsReplica(h, after, written[p - |shards|], chunk, |chunks|);
      }
    }
  }

  /** The first shard of every index is a stored shard of that chunk. */
  lemma {:induction false} ProgressRecorded(h: Hash, bs: Store, chunks: seq<Bytes>, shards: seq<Shard>, r: nat,
                                            infos: seq<ShardInfo>)
    requires Progress(h, bs, chunks, shards, r) && |infos| == NextIndex(shards)
    requires forall k :: 0 <= k < |infos| ==> infos[k].index == k && FromFirst(shards, |shards|, infos[k])
    ensures Recorded(h, bs, Manifest(infos, 1, Root(h, Data(shards))), chunks, r)
  {
    forall k | 0 <= k < |chunks|
      ensures infos[k].index == k && infos[k].checksum == h(chunks[k]) && Stored(bs, infos[k], chunks[k])
    {
      var p :| 0 <= p < |shards| && infos[k] == InfoOf(shards[p]);
      assert Written(h, bs, chunks, shards[p]);
    }
  }

  /** The Merkle root over the data of a shard list. */
  method MerkleOfShards(h: Hash, shards: seq<Shard>) returns (root: Bytes)
    ensures root == Root(h, Data(shards))
  {
    var data: seq<Bytes> := [];
    for i := 0 to |shards|
      invariant data == Data(shards[..i])
    {
      DataMore(shards[..i], shards[i]);
      assert shards[..i + 1] == shards[..i] + [shards[i]];
      data := data + [shards[i].data];
    }
    assert shards[..|shards|] == shards;
    root := ComputeMerkleRoot(h, data);
  }

  /** The backend of replica i of a chunk: i places after the one with the chunk's number, in turn. */
  function Turn(index: nat, i: nat, count: nat): (b: nat)
    requires count > 0
    ensures b < count
  {
    (index + i) % count
  }

  /** With no more replicas than backends, the replicas of a chunk are all on different ones. */
  lemma ReplicasSpread(index: nat, count: nat, i: nat, j: nat)
    requires i < j < count
    ensures Turn(index, i, count) != Turn(index, j, count)
  {
    var a, b := (index + i) / count, (index + j) / count;
    assert index + i == a * count + (index + i) % count && index + j == b * count + (index + j) % count;
    assert (b - a) * count == b * count - a * count;
    AtLeastOnce(b - a, count);
  }

  lemma AtLeastOnce(d: int, count: nat)
    ensures d >= 1 ==> d * count >= count
    ensures d <= -1 ==> d * count + count <= 0
  {
    assert (d - 1) * count == d * count - count && (d + 1) * count == d * count + count;
  }

  /** The shards are replicas of the chunk on the backends in turn. */
  predicate ReplicasOk(h: Hash, bs: Store, shards: seq<Shard>, chunk: Bytes, index: nat, count: nat)
    requires count > 0
  {
    forall k :: 0 <= k < |shards| ==>
      IsReplica(h, bs, shards[k], chunk, index) && shards[k].backend == Some(Turn(index, k, count))
  }

  lemma ReplicasMore(h: Hash, before: Store, after: Store, shards: seq<Shard>, sh: Shard, chunk: Bytes, index: nat,
                     count: nat)
    requires count > 0 && Extends(before, after) && ReplicasOk(h, before, shards, chunk, index, count)
    requires IsReplica(h, after, sh, chunk, index) && sh.backend == Some(Turn(index, |shards|, count))
    ensures ReplicasOk(h, after, shards + [sh], chunk, index, count)
  {
  }

  /** No two shards of one chunk are on the same backend. */
  ghost predicate Apart(shards: seq<Shard>) {
    forall p, q :: 0 <= p < q < |shards| && shards[p].index == shards[q].index ==>
      shards[p].backend.Some? && shards[q].backend.Some? && shards[p].backend != shards[q].backend
  }

  lemma {:induction false} ApartMore(shards: seq<Shard>, written: seq<Shard>, index: nat, count: nat)
    requires Apart(shards) && count > 0 && |written| <= count
    requires forall p :: 0 <= p < |shards| ==> shards[p].index < index
    requires forall i :: 0 <= i < |written| ==>
               written[i].index == index && written[i].backend == Some(Turn(index, i, count))
    ensures Apart(shards + written)
  {
    var all := shards + written;
    forall p, q | 0 <= p < q < |all| && all[p].index == all[q].index
      ensures all[p].backend.Some? && all[q].backend.Some? && all[p].backend != all[q].backend
    {
      if q >= |shards| {
        assert all[q] == written[q - |shards|];
        assert p >= |shards|;
        ReplicasSpread(index, count, p - |shards|, q - |shards|);
      }
    }
  }

  lemma {:induction false} ReplicasApart(h: Hash, before: Store, after: Store, chunks: seq<Bytes>, chunk: Bytes,
                                         shards: seq<Shard>, written: seq<Shard>, count: nat)
    requires Apart(shards) && count > 0 && |written| <= count
    requires forall p :: 0 <= p < |shards| ==> Written(h, before, chunks, shards[p])
    requires forall i :: 0 <= i < |written| ==> IsReplica(h, after, written[i], chunk, |chunks|)
    requires forall i :: 0 <= i < |written| ==> written[i].backend == Some(Turn(|chunks|, i, count))
    ensures Apart(shards + written)
  {
    ApartMore(shards, written, |chunks|, count);
  }

  class DistributedStorage {
    const h: Hash
    const count: nat
    var backends: Store
    var manifests: map<FileName, Manifest>
    var nextId: ShardId

    constructor (hash: Hash, number: nat)
      ensures h == hash && count == number && backends == map[] && Valid() && manifests == map[]
    {
      h, count := hash, number;
      backends, manifests, nextId := map[], map[], 0;
    }

    predicate Valid()
      reads this
    {
      FreshFrom(backends, nextId) && forall name :: name in manifests ==> Ascending(manifests[name].shards)
    }

    /** An honest backend stores the shard under its new id. */
    method PutShard(b: nat, data: Bytes) returns (id: ShardId)
      requires b < count && FreshFrom(backends, nextId)
      modifies `backends, `nextId
      ensures FreshFrom(backends, nextId) && Extends(old(backends), backends)
      ensures Key(b, id) in backends && backends[Key(b, id)] == data
    {
      id := nextId;
      backends := backends[Key(b, id) := data];
      nextId := nextId + 1;
    }

    /** Stores one replica under a new id, on a backend counted on from the chunk's own. */
    method PutReplica(chunk: Bytes, index: nat, i: nat) returns (sh: Shard)
      requires count > 0 && FreshFrom(backends, nextId)
      modifies `backends, `nextId
      ensures FreshFrom(backends, nextId) && Extends(old(backends), backends)
      ensures IsReplica(h, backends, sh, chunk, index) && sh.backend == Some(Turn(index, i, count))
    {
      var b := Turn(index, i, count);
      var id := PutShard(b, chunk);
      sh := Shard(id, Some(b), chunk, h(chunk), false, index);
    }

    /** Stores the replicas of one chunk, each under a new id on the next backend in turn. */
    method PutReplicas(chunk: Bytes, index: nat, replicas: nat) returns (shards: seq<Shard>)
      requires count > 0 && FreshFrom(backends, nextId)
      modifies `backends, `nextId
      ensures FreshFrom(backends, nextId) && Extends(old(backends), backends)
      ensures |shards| == replicas && Data(shards) == Repeat(chunk, replicas)
      ensures forall i :: 0 <= i < replicas ==> IsReplica(h, backends, shards[i], chunk, index)
      ensures forall i :: 0 <= i < replicas ==> shards[i].backend == Some(Turn(index, i, count))
    {
      shards := [];
      for i := 0 to replicas
        invariant FreshFrom(backends, nextId) && Extends(old(backends), backends)
        invariant |shards| == i && Data(shards) == Repeat(chunk, i)
        invariant ReplicasOk(h, backends, shards, chunk, index, count)
      {
        ghost var before := backends;
        var sh := PutReplica(chunk, index, i);
        ReplicasMore(h, before, backends, shards, sh, chunk, index, count);
        DataMore(shards, sh);
        RepeatMore(chunk, i);
        shards := shards + [sh];
      }
    }

    /** The loop that reads a chunk, writes its replicas and goes on to the next. */
    method WriteChunks(data: Bytes, size: nat, r: nat) returns (ok: bool, shards: seq<Shard>)
      requires size > 0 && FreshFrom(backends, nextId) && (count > 0 ==> r > 0)
      modifies `backends, `nextId
      ensures FreshFrom(backends, nextId) && Extends(old(backends), backends)
      ensures !ok <==> data != [] && count == 0
      ensures ok ==> Progress(h, backends, Chunks(data, size), shards, r)
      ensures ok && r <= count ==> Apart(shards)
    {
      var rest := data;
      var chunkIndex := 0;
      shards := [];
      ghost var chunks: seq<Bytes> := [];
      while true
        invariant FreshFrom(backends, nextId) && Extends(old(backends), backends)
        invariant |chunks| == chunkIndex && chunks + Chunks(rest, size) == Chunks(data, size)
        invariant Progress(h, backends, chunks, shards, r)
        invariant r <= count ==> Apart(shards)
        invariant count == 0 ==> rest == data
        decreases |rest|
      {
        var n := if |rest| < size then |rest| else size;
        if n == 0 {
          break;
        }
        if count == 0 {
          return false, shards;
        }
        ghost var before := backends;
        var chunk := rest[..n];
        var written := PutReplicas(chunk, chunkIndex, r);
        OneChunk(data, rest, chunks, size);
        if r <= count {
          ReplicasApart(h, before, backends, chunks, chunk, shards, written, count);
        }
        ProgressMore(h, before, backends, chunks, chunk, shards, written, r);
        shards := shards + written;
        chunks := chunks + [chunk];
        rest := rest[n..];
        chunkIndex := chunkIndex + 1;
        if n < size {
          break;
        }
      }
      assert chunks + [] == chunks;
      return true, shards;
    }

    /** The chunked upload. It fails only where there is data but no backend, and then records nothing. */
    method UploadStream(name: FileName, data: Bytes, chunkSize: Option<int>, replicas: Option<int>) returns (ok: bool)
      requires Valid()
      modifies this
      ensures Valid() && Extends(old(backends), backends)
      ensures !ok <==> data != [] && count == 0
      ensures !ok ==> manifests == old(manifests)
      ensures ok ==> name in manifests && manifests == old(manifests)[name := manifests[name]]
      ensures ok ==> Recorded(h, backends, manifests[name], Chunks(data, ChunkSize(chunkSize)),
                              Replicas(replicas, count))
    {
      var size, r := ChunkSize(chunkSize), Replicas(replicas, count);
      var shardsAll: seq<Shard>;
      ok, shardsAll := WriteChunks(data, size, r);
      if !ok {
        return;
      }
      var infos := FirstPerIndex(shardsAll);
      var root := MerkleOfShards(h, shardsAll);
      ProgressRecorded(h, backends, Chunks(data, size), shardsAll, r, infos);
      manifests := manifests[name := Manifest(infos, 1, root)];
    }

    /** The concurrent download: shards are fetched and checked in any order, put in index order,
        joined and checked against the recorded root. */
    method Download(name: FileName) returns (r: Outcome)
      requires Valid()
      ensures r == Downloaded(h, backends, manifests, name)
    {
      if name !in manifests {
        return NotFound;
      }
      var m := manifests[name];
      var found := FetchAll(h, backends, m.shards);
      var sorted := SortByIndex(found);
      PiecesSorted(h, backends, m.shards);
      forall p
        ensures p in sorted <==> p in Pieces(h, backends, m.shards)
      {
        PiecesMembers(h, backends, m.shards, p);
      }
      OneOrder(sorted, Pieces(h, backends, m.shards));
      PiecesData(h, backends, m.shards);
      var agg, data := Join(sorted);
      var calculated := ComputeMerkleRoot(h, data);
      if calculated != m.root {
        return MerkleMismatch;
      }
      return Ok(agg);
    }
  }

  lemma DistinctIndices(infos: seq<ShardInfo>, a: ShardInfo, b: ShardInfo)
    requires Ascending(infos) && a in infos && b in infos && a != b
    ensures a.index != b.index
  {
    var i :| 0 <= i < |infos| && infos[i] == a;
    var j :| 0 <= j < |infos| && infos[j] == b;
  }

  /** Fetches every shard, each at its own time; those missing or with another checksum are dropped. */
  method FetchAll(h: Hash, bs: Store, infos: seq<ShardInfo>) returns (found: seq<Piece>)
    requires Ascending(infos)
    ensures forall i, j :: 0 <= i < j < |found| ==> found[i].index != found[j].index
    ensures forall p :: p in found <==> IsPiece(h, bs, infos, p)
  {
    found := [];
    var todo := set si | si in infos;
    while todo != {}
      invariant forall si :: si in todo ==> si in infos
      invariant forall i, j :: 0 <= i < j < |found| ==> found[i].index != found[j].index
      invariant forall p :: p in found <==> FoundSoFar(h, bs, infos, todo, p)
    {
      var si :| si in todo;
      FoundNext(h, bs, infos, todo, si, found);
      todo := todo - {si};
      if si.key !in bs {
        continue;
      }
      var data := bs[si.key];
      if h(data) != si.checksum {
        continue;
      }
      ghost var before := found;
      found := found + [Piece(si.index, data)];
      assert forall p :: p in found <==> p in before || p == Piece(si.index, data);
    }
    assert forall p :: FoundSoFar(h, bs, infos, todo, p) <==> IsPiece(h, bs, infos, p);
  }

  ghost predicate Gives(h: Hash, bs: Store, si: ShardInfo, p: Piece) {
    Intact(h, bs, si) && p == Piece(si.index, bs[si.key])
  }

  ghost predicate FoundSoFar(h: Hash, bs: Store, infos: seq<ShardInfo>, todo: set<ShardInfo>, p: Piece) {
    exists si :: si in infos && si !in todo && Intact(h, bs, si) && p == Piece(si.index, bs[si.key])
  }

  /** Taking up one more shard adds its piece, if it is intact, and none with an index seen before. */
  lemma FoundNext(h: Hash, bs: Store, infos: seq<ShardInfo>, todo: set<ShardInfo>, si: ShardInfo, found: seq<Piece>)
    requires Ascending(infos) && si in todo && si in infos
    requires forall p :: p in found <==> FoundSoFar(h, bs, infos, todo, p)
    ensures forall p :: FoundSoFar(h, bs, infos, todo - {si}, p) <==>
              FoundSoFar(h, bs, infos, todo, p) || Gives(h, bs, si, p)
    ensures forall i :: 0 <= i < |found| ==> found[i].index != si.index
  {
    forall i | 0 <= i < |found|
      ensures found[i].index != si.index
    {
      assert FoundSoFar(h, bs, infos, todo, found[i]);
      var other :| other in infos && other !in todo && Intact(h, bs, other)
                   && found[i] == Piece(other.index, bs[other.key]);
      DistinctIndices(infos, other, si);
    }
    forall p
      ensures FoundSoFar(h, bs, infos, todo - {si}, p) <==> FoundSoFar(h, bs, infos, todo, p) || Gives(h, bs, si, p)
    {
      FoundOne(h, bs, infos, todo, si, p);
    }
  }

  lemma FoundOne(h: Hash, bs: Store, infos: seq<ShardInfo>, todo: set<ShardInfo>, si: ShardInfo, p: Piece)
    requires si in todo && si in infos
    ensures FoundSoFar(h, bs, infos, todo - {si}, p) <==> FoundSoFar(h, bs, infos, todo, p) || Gives(h, bs, si, p)
  {
    if FoundSoFar(h, bs, infos, todo, p) {
      var other :| other in infos && other !in todo && Intact(h, bs, other) && p == Piece(other.index, bs[other.key]);
      assert other !in todo - {si};
    }
    if Gives(h, bs, si, p) {
      assert si !in todo - {si};
    }
  }

  method Join(ps: seq<Piece>) returns (agg: Bytes, data: seq<Bytes>)
    ensures data == DataOf(ps) && agg == Flatten(data)
  {
    agg, data := [], [];
    for i := 0 to |ps|
      invariant data == DataOf(ps[..i]) && agg == Flatten(data)
    {
      assert ps[..i + 1][..i] == ps[..i];
      FlattenAppend(data, ps[i].data);
      agg := agg + ps[i].data;
      data := data + [ps[i].data];
    }
    assert ps[..|ps|] == ps;
  }
}
