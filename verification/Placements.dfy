/** From placement over upload to download: what comes back of a file that a placement plugin split. */
module Placements {
  import opened Merkle
  import opened Options
  import opened Shards
  import opened XorParity
  import Chunks
  import Persist

  // ---------- replication ----------

  function ReplicaCount(opt: Option<int>): (n: nat)
    ensures n > 0
  {
    if opt.Some? && opt.value > 0 then opt.value else 1
  }

  /** Every replica holds the whole file, and has an index of its own. */
  ghost predicate WellReplicated(p: Placing, shards: seq<Shard>, file: Bytes)
    requires p.backends > 0
  {
    forall i :: 0 <= i < |shards| ==>
      && shards[i].data == file && shards[i].checksum == p.h(file) && !shards[i].parity
      && shards[i].id == p.ids(i) && shards[i].index == i && shards[i].backend == Some(i % p.backends)
  }

  method ReplicateShards(p: Placing, file: Bytes, opt: Option<int>) returns (r: Option<seq<Shard>>)
    ensures r.None? <==> p.backends == 0
    ensures r.Some? ==> |r.value| == (if opt.Some? && opt.value >= 1 then opt.value else 1)
    ensures r.Some? ==> WellReplicated(p, r.value, file)
  {
    if p.backends == 0 {
      return None;
    }
    var shards: seq<Shard> := [];
    for i := 0 to ReplicaCount(opt)
      invariant |shards| == i && WellReplicated(p, shards, file)
    {
      shards := shards + [PlacedShard(p, i, file, false)];
    }
    return Some(shards);
  }

  // ---------- upload and download ----------

  ghost predicate IndexOrder(shards: seq<Shard>) {
    forall i :: 0 <= i < |shards| ==> shards[i].index == i
  }

  /** The manifest lists the shards as they were handed in, and each is stored. */
  lemma {:induction false} PersistedIsListed(c: Persist.Config, d: Persist.Disk, name: FileName, shards: seq<Shard>,
                                             env: Persist.Env)
    requires Persist.Fresh(d, Persist.Keys(shards, c.backends))
    requires Persist.Persist(c, d, name, shards, env).1 == Persist.Done
    ensures var e := Persist.Persist(c, d, name, shards, env).0;
            && name in e.manifests && Chunks.Lists(c.h, e.manifests[name], Data(shards))
            && (forall i :: 0 <= i < |shards| ==>
                  && e.manifests[name].shards[i].index == shards[i].index
                  && Chunks.Stored(e.store, e.manifests[name].shards[i], Data(shards)[i]))
  {
    Persist.SuccessRecordsWritten(c, d, name, shards, env);
  }

  /** Shards persisted in index order are downloaded as their data joined, and the root is over just that data. */
  lemma {:induction false} PersistedDownload(c: Persist.Config, d: Persist.Disk, name: FileName, shards: seq<Shard>,
                                             env: Persist.Env)
    requires Persist.Fresh(d, Persist.Keys(shards, c.backends)) && IndexOrder(shards)
    requires Persist.Persist(c, d, name, shards, env).1 == Persist.Done
    ensures var e := Persist.Persist(c, d, name, shards, env).0;
            && name in e.manifests && Chunks.Ascending(e.manifests[name].shards)
            && Chunks.Lists(c.h, e.manifests[name], Data(shards))
            && Chunks.Downloaded(c.h, e.store, e.manifests, name) == Chunks.Ok(Flatten(Data(shards)))
  {
    var e := Persist.Persist(c, d, name, shards, env).0;
    PersistedIsListed(c, d, name, shards, env);
    Chunks.FetchedAll(c.h, e.store, e.manifests[name].shards, Data(shards));
  }

  /** The parity is empty exactly if the file is. */
  lemma {:induction false} EmptyTogether(parts: seq<Bytes>)
    ensures XorAll(parts) == [] <==> Flatten(parts) == []
  {
    if parts != [] {
      var front, last := parts[..|parts| - 1], parts[|parts| - 1];
      EmptyTogether(front);
      FlattenAppend(front, last);
      assert parts == front + [last];
    }
  }

  lemma {:induction false} PlacedData(p: Placing, shards: seq<Shard>, file: Bytes, n: nat)
    requires p.backends > 0 && WellPlaced(p, shards, file, n)
    ensures Flatten(Data(shards)) == file + shards[n].data && IndexOrder(shards)
    ensures shards[n].data == [] <==> file == []
  {
    assert shards == shards[..n] + [shards[n]];
    DataMore(shards[..n], shards[n]);
    FlattenAppend(Data(shards[..n]), shards[n].data);
    EmptyTogether(Data(shards[..n]));
    forall i | 0 <= i < |shards|
      ensures shards[i].index == i
    {
      assert InPlace(p, shards[i], i, n);
    }
  }

  /** A file placed with XOR parity comes back with the parity at its end, under a matching root. Without an erasure
      coder the download is the file only if the file is empty. */
  lemma {:induction false} ParityIsDownloaded(p: Placing, c: Persist.Config, d: Persist.Disk, name: FileName,
                                              file: Bytes, n: nat, shards: seq<Shard>, env: Persist.Env)
    requires p.backends > 0 && WellPlaced(p, shards, file, n)
    requires Persist.Fresh(d, Persist.Keys(shards, c.backends))
    requires Persist.Persist(c, d, name, shards, env).1 == Persist.Done
    ensures var e := Persist.Persist(c, d, name, shards, env).0;
            && Chunks.Downloaded(c.h, e.store, e.manifests, name) == Chunks.Ok(file + shards[n].data)
            && (Chunks.Downloaded(c.h, e.store, e.manifests, name) == Chunks.Ok(file) <==> file == [])
  {
    PlacedData(p, shards, file, n);
    PersistedDownload(c, d, name, shards, env);
  }

  lemma {:induction false} ReplicatedData(p: Placing, shards: seq<Shard>, file: Bytes)
    requires p.backends > 0 && WellReplicated(p, shards, file)
    ensures IndexOrder(shards) && Data(shards) == Repeat(file, |shards|)
  {
  }

  lemma {:induction false} RepeatedLength(file: Bytes, r: nat)
    ensures r >= 1 ==> |Flatten(Repeat(file, r))| >= |file|
    ensures r >= 2 ==> |Flatten(Repeat(file, r))| >= |file| + |file|
    ensures r == 1 ==> Flatten(Repeat(file, r)) == file
    ensures file == [] ==> Flatten(Repeat(file, r)) == []
  {
    if r > 0 {
      assert Repeat(file, r)[1..] == Repeat(file, r - 1);
      RepeatedLength(file, r - 1);
    }
  }

  /** A file placed as whole replicas comes back once per replica, and is the file only with one replica or if
      it is empty. */
  lemma {:induction false} ReplicasAreJoined(p: Placing, c: Persist.Config, d: Persist.Disk, name: FileName,
                                             file: Bytes, shards: seq<Shard>, env: Persist.Env)
    requires p.backends > 0 && shards != [] && WellReplicated(p, shards, file)
    requires Persist.Fresh(d, Persist.Keys(shards, c.backends))
    requires Persist.Persist(c, d, name, shards, env).1 == Persist.Done
    ensures var e := Persist.Persist(c, d, name, shards, env).0;
            && Chunks.Downloaded(c.h, e.store, e.manifests, name) == Chunks.Ok(Flatten(Repeat(file, |shards|)))
            && (Chunks.Downloaded(c.h, e.store, e.manifests, name) == Chunks.Ok(file)
                <==> |shards| == 1 || file == [])
  {
    ReplicatedData(p, shards, file);
    PersistedDownload(c, d, name, shards, env);
    RepeatedLength(file, |shards|);
  }
}
