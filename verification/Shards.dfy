/** Shards, what a manifest records of them, and the backends that hold them: shared by the placement of shards,
    the two upload paths and the download. */
module Shards {
  import opened Merkle
  import opened Options

  type ShardId = nat
  type FileName = string

  /** A shard on a backend; backend k is the k-th in name order. */
  datatype Key = Key(backend: nat, id: ShardId)

  /** What all backends hold. */
  type Store = map<Key, Bytes>

  /** A shard without a backend is given one when it is stored. */
  datatype Shard = Shard(id: ShardId, backend: Option<nat>, data: Bytes, checksum: Bytes, parity: bool, index: nat)

  datatype ShardInfo = ShardInfo(key: Key, index: nat, checksum: Bytes)

  datatype Manifest = Manifest(shards: seq<ShardInfo>, version: nat, root: Bytes)

  /** The backend a shard goes to: the one it names, or its index modulo their number. */
  function KeyOf(sh: Shard, backends: nat): Key {
    Key(if sh.backend.Some? then sh.backend.value else if backends == 0 then 0 else sh.index % backends, sh.id)
  }

  /** The data of a list of shards, in list order. */
  function Data(shards: seq<Shard>): (r: seq<Bytes>)
    ensures |r| == |shards| && forall i :: 0 <= i < |r| ==> r[i] == shards[i].data
  {
    if shards == [] then [] else Data(shards[..|shards| - 1]) + [shards[|shards| - 1].data]
  }

  lemma {:induction false} DataMore(shards: seq<Shard>, sh: Shard)
    ensures Data(shards + [sh]) == Data(shards) + [sh.data]
  {
    assert (shards + [sh])[..|shards|] == shards;
  }

  lemma {:induction false} DataConcat(a: seq<Shard>, b: seq<Shard>)
    ensures Data(a + b) == Data(a) + Data(b)
  {
  }

  function Flatten(parts: seq<Bytes>): Bytes {
    if parts == [] then [] else parts[0] + Flatten(parts[1..])
  }

  lemma {:induction false} FlattenAppend(parts: seq<Bytes>, last: Bytes)
    ensures Flatten(parts + [last]) == Flatten(parts) + last
  {
    if parts == [] {
      assert ([] + [last])[1..] == [];
    } else {
      FlattenAppend(parts[1..], last);
      assert (parts + [last])[1..] == parts[1..] + [last];
    }
  }
}
