/** persistShardsWithCtx: writing shards with retries, recording them in a manifest, and cleaning up on failure.
    What the outside does - each put attempt, each delete, cancellation, signing, saving - is a parameter. */
module Persist {
  import opened Merkle
  import opened Options
  import opened Shards

  /** What the backends hold, the abandoned puts that may still store their shard, the orphan registry,
      and the manifests on disk and in memory. */
  datatype Disk = Disk(store: Store, lingering: set<Key>, orphans: set<Key>,
                       saved: map<FileName, Manifest>, manifests: map<FileName, Manifest>)

  datatype Config = Config(h: Hash, backends: nat, registry: bool, persistent: bool)

  /** One put attempt: accepted, answered with an error that may come after storing, or given up on while running. */
  datatype Attempt = Accepted | Rejected(stored: bool) | TimedOut

  /** A delete: done, or answered with an error after which the shard is still there or not. */
  datatype Delete = Removed | Kept | RemovedWithError

  /** What happens outside; position i is the i-th shard. Fewer than three attempts without success: cancelled. */
  datatype Env = Env(cancelled: nat -> bool, tries: nat -> seq<Attempt>, deletes: nat -> Delete,
                     loads: bool, signs: bool, saves: bool)

  datatype Exit = Done | Cancelled | PutFailed | NoBackends | SignFailed | SaveFailed

  const ATTEMPTS := 3

  // ---------- putShardWithRetry ----------

  /** The first n attempts contain an accepted one. */
  predicate Accepts(tries: seq<Attempt>, n: nat) {
    n > 0 && tries != [] && (tries[0].Accepted? || Accepts(tries[1..], n - 1))
  }

  /** Some attempt made before the accepted one, or before giving up, was abandoned while still running. */
  predicate Lingers(tries: seq<Attempt>, n: nat) {
    n > 0 && tries != [] && !tries[0].Accepted? && (tries[0].TimedOut? || Lingers(tries[1..], n - 1))
  }

  function Put(d: Disk, k: Key, data: Bytes, tries: seq<Attempt>, n: nat): (Disk, bool)
    decreases n
  {
    if n == 0 || tries == [] then (d, false)
    else match tries[0]
      case Accepted => (d.(store := d.store[k := data]), true)
      case Rejected(stored) => Put(if stored then d.(store := d.store[k := data]) else d, k, data, tries[1..], n - 1)
      case TimedOut => Put(d.(lingering := d.lingering + {k}), k, data, tries[1..], n - 1)
  }

  /** A put touches nothing but its own shard. */
  ghost predicate OnlyTouches(d: Disk, e: Disk, k: Key) {
    && (forall x :: x != k ==> (x in e.store <==> x in d.store) && (x in e.lingering <==> x in d.lingering))
    && (forall x :: x != k && x in d.store ==> e.store[x] == d.store[x])
    && e.orphans == d.orphans && e.saved == d.saved && e.manifests == d.manifests
  }

  lemma {:induction false} PutIs(d: Disk, k: Key, data: Bytes, tries: seq<Attempt>, n: nat)
    ensures var (e, ok) := Put(d, k, data, tries, n);
            && (ok <==> Accepts(tries, n))
            && OnlyTouches(d, e, k)
            && (ok ==> k in e.store && e.store[k] == data)
            && (k in e.lingering <==> k in d.lingering || Lingers(tries, n))
    decreases n
  {
    if n > 0 && tries != [] {
      match tries[0]
      case Accepted =>
      case Rejected(stored) => PutIs(if stored then d.(store := d.store[k := data]) else d, k, data, tries[1..], n - 1);
      case TimedOut => PutIs(d.(lingering := d.lingering + {k}), k, data, tries[1..], n - 1);
    }
  }

  // ---------- clean-up ----------

  /** One delete of the clean-up loop; a failed one is registered where the exit path does that. */
  function DeleteOne(d: Disk, k: Key, r: Delete, register: bool): Disk {
    d.(store := if r.Kept? then d.store else d.store - {k},
       orphans := d.orphans + if register && !r.Removed? then {k} else {})
  }

  function Clean(d: Disk, keys: seq<Key>, deletes: nat -> Delete, register: bool): Disk {
    if keys == [] then d
    else
      var i := |keys| - 1;
      DeleteOne(Clean(d, keys[..i], deletes, register), keys[i], deletes(i), register)
  }

  ghost predicate Distinct(keys: seq<Key>) {
    forall i, j :: 0 <= i < j < |keys| ==> keys[i] != keys[j]
  }

  /** Exactly what a clean-up does to each key. */
  ghost predicate CleanedKey(d: Disk, e: Disk, k: Key, r: Delete, register: bool) {
    && (k in e.store <==> k in d.store && r.Kept?)
    && (k in e.orphans <==> k in d.orphans || (register && !r.Removed?))
  }

  ghost predicate Untouched(d: Disk, e: Disk, k: Key) {
    && (k in e.store <==> k in d.store) && (k in d.store ==> e.store[k] == d.store[k])
    && (k in e.orphans <==> k in d.orphans)
  }

  lemma {:induction false} CleanIs(d: Disk, keys: seq<Key>, deletes: nat -> Delete, register: bool)
    requires Distinct(keys)
    ensures var e := Clean(d, keys, deletes, register);
            && (forall i :: 0 <= i < |keys| ==> CleanedKey(d, e, keys[i], deletes(i), register))
            && (forall k :: k !in keys ==> Untouched(d, e, k))
            && e.lingering == d.lingering && e.saved == d.saved && e.manifests == d.manifests
  {
    if keys != [] {
      var n := |keys| - 1;
      CleanIs(d, keys[..n], deletes, register);
      var m := Clean(d, keys[..n], deletes, register);
      var e := Clean(d, keys, deletes, register);
      assert keys[n] !in keys[..n];
      assert Untouched(d, m, keys[n]);
      forall i | 0 <= i < |keys|
        ensures CleanedKey(d, e, keys[i], deletes(i), register)
      {
        if i < n {
          assert keys[i] == keys[..n][i];
          assert CleanedKey(d, m, keys[..n][i], deletes(i), register);
        }
      }
      forall k | k !in keys
        ensures Untouched(d, e, k)
      {
        assert Untouched(d, m, k);
      }
    }
  }

  // ---------- the write loop ----------

  predicate Placeable(sh: Shard, backends: nat) { sh.backend.Some? || backends > 0 }

  function Keys(shards: seq<Shard>, backends: nat): (keys: seq<Key>)
    ensures |keys| == |shards| && forall i :: 0 <= i < |keys| ==> keys[i] == KeyOf(shards[i], backends)
  {
    if shards == [] then []
    else Keys(shards[..|shards| - 1], backends) + [KeyOf(shards[|shards| - 1], backends)]
  }

  /** The loop over the shards, up to and including its failing exits. */
  function WriteAll(c: Config, d: Disk, shards: seq<Shard>, env: Env): (Disk, Exit) {
    if shards == [] then (d, Done)
    else
      var i := |shards| - 1;
      var (p, exit) := WriteAll(c, d, shards[..i], env);
      if exit != Done then (p, exit) else WriteOne(c, p, shards[i], Keys(shards[..i], c.backends), env)
  }

  /** One step of the loop, after the shards with the given keys were written. */
  function WriteOne(c: Config, p: Disk, sh: Shard, written: seq<Key>, env: Env): (Disk, Exit) {
    var i := |written|;
    if !Placeable(sh, c.backends) then (Clean(p, written, env.deletes, false), NoBackends)
    else if env.cancelled(i) then (p, Cancelled)
    else
      var k := KeyOf(sh, c.backends);
      var (q, ok) := Put(p, k, sh.data, env.tries(i), ATTEMPTS);
      if ok then (q, Done)
      else
        var r := Clean(q, written, env.deletes, c.registry);
        (if c.registry then r.(orphans := r.orphans + {k}) else r, PutFailed)
  }

  function Infos(c: Config, shards: seq<Shard>): (infos: seq<ShardInfo>)
    ensures |infos| == |shards|
    ensures forall i :: 0 <= i < |infos| ==>
              infos[i] == ShardInfo(KeyOf(shards[i], c.backends), shards[i].index, c.h(shards[i].data))
  {
    if shards == [] then []
    else
      var sh := shards[|shards| - 1];
      Infos(c, shards[..|shards| - 1]) + [ShardInfo(KeyOf(sh, c.backends), sh.index, c.h(sh.data))]
  }

  /** The new manifest; a stored predecessor that can be loaded gives it the next version. */
  function NewManifest(c: Config, d: Disk, name: FileName, shards: seq<Shard>, env: Env): Manifest {
    Manifest(Infos(c, shards),
             if c.persistent && env.loads && name in d.saved then d.saved[name].version + 1 else 1,
             Root(c.h, Data(shards)))
  }

  function Record(c: Config, p: Disk, name: FileName, shards: seq<Shard>, env: Env): (Disk, Exit) {
    var m := NewManifest(c, p, name, shards, env);
    var keys := Keys(shards, c.backends);
    if c.persistent && !env.signs then (Clean(p, keys, env.deletes, false), SignFailed)
    else if c.persistent && !env.saves then (Clean(p, keys, env.deletes, c.registry), SaveFailed)
    else (p.(saved := if c.persistent then p.saved[name := m] else p.saved, manifests := p.manifests[name := m]), Done)
  }

  function Persist(c: Config, d: Disk, name: FileName, shards: seq<Shard>, env: Env): (Disk, Exit) {
    var (p, exit) := WriteAll(c, d, shards, env);
    if exit != Done then (p, exit) else Record(c, p, name, shards, env)
  }

  // ---------- what the call leaves behind ----------

  /** Shard ids are new: nothing is known of these shards before the call. */
  ghost predicate Fresh(d: Disk, keys: seq<Key>) {
    Distinct(keys) && forall k :: k in keys ==> k !in d.store && k !in d.lingering && k !in d.orphans
  }

  ghost predicate WroteKey(p: Disk, k: Key, data: Bytes, tries: seq<Attempt>) {
    k in p.store && p.store[k] == data && k !in p.orphans && (k in p.lingering <==> Lingers(tries, ATTEMPTS))
  }

  ghost predicate SameKey(d: Disk, e: Disk, k: Key) {
    Untouched(d, e, k) && (k in e.lingering <==> k in d.lingering)
  }

  /** All shards are written, and nothing else is touched. */
  ghost predicate Wrote(c: Config, d: Disk, p: Disk, shards: seq<Shard>, env: Env) {
    var keys := Keys(shards, c.backends);
    && (forall i :: 0 <= i < |shards| ==> WroteKey(p, keys[i], shards[i].data, env.tries(i)))
    && (forall k :: k !in keys ==> SameKey(d, p, k))
    && p.saved == d.saved && p.manifests == d.manifests
  }

  lemma FreshPrefix(d: Disk, keys: seq<Key>, n: nat)
    requires Fresh(d, keys) && n < |keys|
    ensures Fresh(d, keys[..n]) && keys[n] !in keys[..n] && keys[n] in keys
  {
  }

  lemma {:induction false} KeysPrefix(shards: seq<Shard>, backends: nat, n: nat)
    requires n <= |shards|
    ensures Keys(shards[..n], backends) == Keys(shards, backends)[..n]
  {
  }

  lemma {:induction false} WroteOneMore(c: Config, d: Disk, p: Disk, shards: seq<Shard>, env: Env)
    requires shards != [] && Fresh(d, Keys(shards, c.backends))
    requires Wrote(c, d, p, shards[..|shards| - 1], env)
    requires WriteOne(c, p, shards[|shards| - 1], Keys(shards[..|shards| - 1], c.backends), env).1 == Done
    ensures Wrote(c, d, WriteOne(c, p, shards[|shards| - 1], Keys(shards[..|shards| - 1], c.backends), env).0, shards,
                  env)
  {
    var n := |shards| - 1;
    var keys := Keys(shards, c.backends);
    KeysPrefix(shards, c.backends, n);
    FreshPrefix(d, keys, n);
    PutIs(p, keys[n], shards[n].data, env.tries(n), ATTEMPTS);
    var q := Put(p, keys[n], shards[n].data, env.tries(n), ATTEMPTS).0;
    forall i | 0 <= i < |shards|
      ensures WroteKey(q, keys[i], shards[i].data, env.tries(i))
    {
      if i < n {
        assert WroteKey(p, keys[..n][i], shards[..n][i].data, env.tries(i));
      } else {
        assert SameKey(d, p, keys[n]);
      }
    }
    forall k | k !in keys
      ensures SameKey(d, q, k)
    {
      assert SameKey(d, p, k);
    }
  }

  lemma {:induction false} WriteAllIs(c: Config, d: Disk, shards: seq<Shard>, env: Env)
    requires Fresh(d, Keys(shards, c.backends)) && WriteAll(c, d, shards, env).1 == Done
    ensures Wrote(c, d, WriteAll(c, d, shards, env).0, shards, env)
  {
    if shards != [] {
      var n := |shards| - 1;
      KeysPrefix(shards, c.backends, n);
      FreshPrefix(d, Keys(shards, c.backends), n);
      WriteAllIs(c, d, shards[..n], env);
      WroteOneMore(c, d, WriteAll(c, d, shards[..n], env).0, shards, env);
    }
  }

  /** Nothing stopped the loop at shard i. */
  predicate Reached(c: Config, sh: Shard, env: Env, i: nat) {
    Placeable(sh, c.backends) && !env.cancelled(i) && Accepts(env.tries(i), ATTEMPTS)
  }

  lemma OneReached(c: Config, p: Disk, sh: Shard, written: seq<Key>, env: Env)
    ensures WriteOne(c, p, sh, written, env).1 == Done <==> Reached(c, sh, env, |written|)
    ensures WriteOne(c, p, sh, written, env).1 == Cancelled <==> Placeable(sh, c.backends) && env.cancelled(|written|)
    ensures WriteOne(c, p, sh, written, env).1 == NoBackends <==> !Placeable(sh, c.backends)
    ensures WriteOne(c, p, sh, written, env).1 != SignFailed && WriteOne(c, p, sh, written, env).1 != SaveFailed
  {
    PutIs(p, KeyOf(sh, c.backends), sh.data, env.tries(|written|), ATTEMPTS);
  }

  /** The loop ends well exactly if nothing stops it at any shard. */
  lemma {:induction false} DoneMeansReached(c: Config, d: Disk, shards: seq<Shard>, env: Env)
    ensures WriteAll(c, d, shards, env).1 == Done <==> forall i :: 0 <= i < |shards| ==> Reached(c, shards[i], env, i)
  {
    if shards != [] {
      var n := |shards| - 1;
      DoneMeansReached(c, d, shards[..n], env);
      OneReached(c, WriteAll(c, d, shards[..n], env).0, shards[n], Keys(shards[..n], c.backends), env);
      assert forall i :: 0 <= i < n ==> shards[..n][i] == shards[i];
    }
  }

  /** Where the loop stopped: before it everything was written, and the exit is that of this shard. */
  lemma {:induction false} StopsAt(c: Config, d: Disk, shards: seq<Shard>, env: Env) returns (j: nat)
    requires WriteAll(c, d, shards, env).1 != Done
    ensures j < |shards| && WriteAll(c, d, shards[..j], env).1 == Done && !Reached(c, shards[j], env, j)
    ensures WriteAll(c, d, shards, env)
         == WriteOne(c, WriteAll(c, d, shards[..j], env).0, shards[j], Keys(shards[..j], c.backends), env)
  {
    var n := |shards| - 1;
    if WriteAll(c, d, shards[..n], env).1 == Done {
      j := n;
      OneReached(c, WriteAll(c, d, shards[..n], env).0, shards[n], Keys(shards[..n], c.backends), env);
    } else {
      j := StopsAt(c, d, shards[..n], env);
      assert shards[..n][..j] == shards[..j] && shards[..n][j] == shards[j];
    }
  }

  /** A shard the call may have stored, now or later, that nothing accounts for. */
  ghost predicate Unaccounted(e: Disk, k: Key) {
    (k in e.store || k in e.lingering) && k !in e.orphans
  }

  // ---------- the clean-up after each exit, key by key ----------

  lemma {:induction false} CleanedWritten(p: Disk, keys: seq<Key>, env: Env, register: bool, i: nat, data: Bytes)
    requires Distinct(keys) && i < |keys| && WroteKey(p, keys[i], data, env.tries(i))
    ensures Unaccounted(Clean(p, keys, env.deletes, register), keys[i])
            <==> if register then env.deletes(i).Removed? && Lingers(env.tries(i), ATTEMPTS)
                 else env.deletes(i).Kept? || Lingers(env.tries(i), ATTEMPTS)
  {
    CleanIs(p, keys, env.deletes, register);
    assert CleanedKey(p, Clean(p, keys, env.deletes, register), keys[i], env.deletes(i), register);
  }

  /** The state in which the loop stops at shard j: the earlier shards are written, nothing else is touched. */
  ghost predicate Stopped(c: Config, d: Disk, p: Disk, shards: seq<Shard>, env: Env, j: nat) {
    && j < |shards| && Fresh(d, Keys(shards, c.backends))
    && Wrote(c, d, p, shards[..j], env)
  }

  lemma {:induction false} StoppedKeys(c: Config, d: Disk, p: Disk, shards: seq<Shard>, env: Env, j: nat, i: nat)
    requires Stopped(c, d, p, shards, env, j) && i < |shards|
    ensures var keys := Keys(shards, c.backends);
            && Keys(shards[..j], c.backends) == keys[..j] && Distinct(keys[..j]) && keys[i] in keys
            && (i < j ==>
                  WroteKey(p, keys[i], shards[i].data, env.tries(i)) && keys[i] != keys[j] && keys[..j][i] == keys[i])
            && (i >= j ==> SameKey(d, p, keys[i]) && keys[i] !in keys[..j] && (i > j ==> keys[i] != keys[j]))
  {
    var keys := Keys(shards, c.backends);
    KeysPrefix(shards, c.backends, j);
    if i < j {
      assert WroteKey(p, keys[..j][i], shards[..j][i].data, env.tries(i));
    } else {
      assert keys[i] !in keys[..j];
    }
  }

  /** What stays unaccounted for when a put fails with a registry at hand. */
  lemma {:induction false} PutFailedAt(c: Config, d: Disk, p: Disk, shards: seq<Shard>, env: Env, j: nat, i: nat)
    requires Stopped(c, d, p, shards, env, j) && i < |shards| && c.registry
    requires WriteOne(c, p, shards[j], Keys(shards[..j], c.backends), env).1 == PutFailed
    ensures var e := WriteOne(c, p, shards[j], Keys(shards[..j], c.backends), env).0;
            Unaccounted(e, Keys(shards, c.backends)[i])
            <==> i < j && env.deletes(i).Removed? && Lingers(env.tries(i), ATTEMPTS)
  {
    var keys := Keys(shards, c.backends);
    var k := keys[j];
    StoppedKeys(c, d, p, shards, env, j, i);
    PutIs(p, k, shards[j].data, env.tries(j), ATTEMPTS);
    var q := Put(p, k, shards[j].data, env.tries(j), ATTEMPTS).0;
    if i < j {
      CleanedWritten(q, keys[..j], env, true, i, shards[i].data);
    } else {
      CleanedOther(q, keys[..j], env, true, keys[i]);
    }
  }

  lemma {:induction false} CleanedOther(q: Disk, keys: seq<Key>, env: Env, register: bool, k: Key)
    requires Distinct(keys) && k !in keys
    ensures var e := Clean(q, keys, env.deletes, register);
            Untouched(q, e, k) && (k in e.lingering <==> k in q.lingering)
  {
    CleanIs(q, keys, env.deletes, register);
  }

  /** An exit for cancellation is an exit from the loop. */
  lemma {:induction false} StoppedInLoop(c: Config, d: Disk, name: FileName, shards: seq<Shard>, env: Env)
    requires Persist(c, d, name, shards, env).1 == Cancelled
    ensures Persist(c, d, name, shards, env) == WriteAll(c, d, shards, env)
    ensures WriteAll(c, d, shards, env).1 == Cancelled
  {
  }

  /** The written prefix at the shard where the loop stopped. */
  lemma {:induction false} StoppedThere(c: Config, d: Disk, shards: seq<Shard>, env: Env, j: nat)
    requires Fresh(d, Keys(shards, c.backends)) && j < |shards| && WriteAll(c, d, shards[..j], env).1 == Done
    ensures Stopped(c, d, WriteAll(c, d, shards[..j], env).0, shards, env, j)
    ensures forall k :: 0 <= k < j ==> Reached(c, shards[k], env, k)
  {
    KeysPrefix(shards, c.backends, j);
    FreshPrefix(d, Keys(shards, c.backends), j);
    WriteAllIs(c, d, shards[..j], env);
    DoneMeansReached(c, d, shards[..j], env);
    assert forall k :: 0 <= k < j ==> shards[..j][k] == shards[k];
  }

  /** A put failure leaves unaccounted for exactly the written shards whose delete succeeded while an abandoned
      attempt to store them was still running. */
  lemma {:induction false} PutFailureLeaves(c: Config, d: Disk, name: FileName, shards: seq<Shard>, env: Env, i: nat)
    requires Fresh(d, Keys(shards, c.backends)) && c.registry && i < |shards|
    requires Persist(c, d, name, shards, env).1 == PutFailed
    ensures Unaccounted(Persist(c, d, name, shards, env).0, Keys(shards, c.backends)[i])
            <==> (forall k :: 0 <= k <= i ==> Accepts(env.tries(k), ATTEMPTS))
                 && env.deletes(i).Removed? && Lingers(env.tries(i), ATTEMPTS)
  {
    var j := StopsAt(c, d, shards, env);
    var p := WriteAll(c, d, shards[..j], env).0;
    StoppedThere(c, d, shards, env, j);
    PutFailedAt(c, d, p, shards, env, j, i);
    PutFailedMeans(c, p, shards[j], Keys(shards[..j], c.backends), env);
    assert forall k :: 0 <= k < j ==> Reached(c, shards[k], env, k);
  }

  lemma PutFailedMeans(c: Config, p: Disk, sh: Shard, written: seq<Key>, env: Env)
    requires WriteOne(c, p, sh, written, env).1 == PutFailed
    ensures !Accepts(env.tries(|written|), ATTEMPTS)
  {
    PutIs(p, KeyOf(sh, c.backends), sh.data, env.tries(|written|), ATTEMPTS);
  }

  /** A failure to save the manifest leaves the same, over all shards. */
  lemma {:induction false} SaveFailureLeaves(c: Config, d: Disk, name: FileName, shards: seq<Shard>, env: Env, i: nat)
    requires Fresh(d, Keys(shards, c.backends)) && c.registry && i < |shards|
    requires Persist(c, d, name, shards, env).1 == SaveFailed
    ensures Unaccounted(Persist(c, d, name, shards, env).0, Keys(shards, c.backends)[i])
            <==> env.deletes(i).Removed? && Lingers(env.tries(i), ATTEMPTS)
  {
    DoneBeforeRecord(c, d, name, shards, env);
    var p := WriteAll(c, d, shards, env).0;
    WriteAllIs(c, d, shards, env);
    CleanedWritten(p, Keys(shards, c.backends), env, true, i, shards[i].data);
  }

  lemma {:induction false} DoneBeforeRecord(c: Config, d: Disk, name: FileName, shards: seq<Shard>, env: Env)
    requires var exit := Persist(c, d, name, shards, env).1; exit == SaveFailed || exit == SignFailed || exit == Done
    ensures WriteAll(c, d, shards, env).1 == Done
  {
    if WriteAll(c, d, shards, env).1 != Done {
      var j := StopsAt(c, d, shards, env);
      OneReached(c, WriteAll(c, d, shards[..j], env).0, shards[j], Keys(shards[..j], c.backends), env);
    }
  }

  /** A failure to sign also leaves every shard whose delete failed: that exit ignores delete errors. */
  lemma {:induction false} SignFailureLeaves(c: Config, d: Disk, name: FileName, shards: seq<Shard>, env: Env, i: nat)
    requires Fresh(d, Keys(shards, c.backends)) && i < |shards|
    requires Persist(c, d, name, shards, env).1 == SignFailed
    ensures Unaccounted(Persist(c, d, name, shards, env).0, Keys(shards, c.backends)[i])
            <==> env.deletes(i).Kept? || Lingers(env.tries(i), ATTEMPTS)
  {
    DoneBeforeRecord(c, d, name, shards, env);
    var p := WriteAll(c, d, shards, env).0;
    WriteAllIs(c, d, shards, env);
    CleanedWritten(p, Keys(shards, c.backends), env, false, i, shards[i].data);
  }

  lemma {:induction false} CancelledAt(c: Config, d: Disk, p: Disk, shards: seq<Shard>, env: Env, j: nat, i: nat)
    requires Stopped(c, d, p, shards, env, j) && i < |shards|
    requires WriteOne(c, p, shards[j], Keys(shards[..j], c.backends), env).1 == Cancelled
    ensures env.cancelled(j)
    ensures var e := WriteOne(c, p, shards[j], Keys(shards[..j], c.backends), env).0;
            Unaccounted(e, Keys(shards, c.backends)[i]) <==> i < j
  {
    StoppedKeys(c, d, p, shards, env, j, i);
    OneReached(c, p, shards[j], Keys(shards[..j], c.backends), env);
  }

  lemma {:induction false} CancelledWhere(c: Config, d: Disk, shards: seq<Shard>, env: Env) returns (j: nat)
    requires Fresh(d, Keys(shards, c.backends)) && WriteAll(c, d, shards, env).1 == Cancelled
    ensures j < |shards| && env.cancelled(j) && forall k :: 0 <= k < j ==> !env.cancelled(k)
    ensures forall i :: 0 <= i < |shards| ==>
              (Unaccounted(WriteAll(c, d, shards, env).0, Keys(shards, c.backends)[i]) <==> i < j)
  {
    j := StopsAt(c, d, shards, env);
    var p := WriteAll(c, d, shards[..j], env).0;
    StoppedThere(c, d, shards, env, j);
    forall k | 0 <= k < j
      ensures !env.cancelled(k)
    {
      assert Reached(c, shards[k], env, k);
    }
    forall i | 0 <= i < |shards|
      ensures env.cancelled(j) && (Unaccounted(WriteAll(c, d, shards, env).0, Keys(shards, c.backends)[i]) <==> i < j)
    {
      CancelledAt(c, d, p, shards, env, j, i);
    }
  }

  /** Cancellation between shards leaves every shard written so far: that exit does not clean up at all. */
  lemma {:induction false} CancellationLeaves(c: Config, d: Disk, name: FileName, shards: seq<Shard>, env: Env, i: nat)
    requires Fresh(d, Keys(shards, c.backends)) && i < |shards|
    requires Persist(c, d, name, shards, env).1 == Cancelled
    ensures Unaccounted(Persist(c, d, name, shards, env).0, Keys(shards, c.backends)[i])
            <==> forall k :: 0 <= k <= i ==> !env.cancelled(k)
  {
    StoppedInLoop(c, d, name, shards, env);
    var j := CancelledWhere(c, d, shards, env);
  }

  /** With a registry, and no attempt abandoned while still running, a failed put or save leaves every shard
      of the call deleted or registered as an orphan. */
  lemma {:induction false} NothingLost(c: Config, d: Disk, name: FileName, shards: seq<Shard>, env: Env, i: nat)
    requires Fresh(d, Keys(shards, c.backends)) && c.registry && i < |shards|
    requires Persist(c, d, name, shards, env).1 == PutFailed || Persist(c, d, name, shards, env).1 == SaveFailed
    requires forall k :: 0 <= k < |shards| ==> TimedOut !in env.tries(k)
    ensures !Unaccounted(Persist(c, d, name, shards, env).0, Keys(shards, c.backends)[i])
  {
    NoneLingers(env.tries(i), ATTEMPTS);
    if Persist(c, d, name, shards, env).1 == PutFailed {
      PutFailureLeaves(c, d, name, shards, env, i);
    } else {
      SaveFailureLeaves(c, d, name, shards, env, i);
    }
  }

  lemma {:induction false} NoneLingers(tries: seq<Attempt>, n: nat)
    requires TimedOut !in tries
    ensures !Lingers(tries, n)
  {
    if n > 0 && tries != [] {
      assert tries[0] in tries;
      NoneLingers(tries[1..], n - 1);
    }
  }

  // ---------- what stays, and what success records ----------

  /** No exit touches a shard the call did not write: every manifest saved before still resolves. */
  lemma {:induction false} OthersStay(c: Config, d: Disk, name: FileName, shards: seq<Shard>, env: Env, k: Key)
    requires Fresh(d, Keys(shards, c.backends)) && k in d.store
    ensures var e := Persist(c, d, name, shards, env).0; k in e.store && e.store[k] == d.store[k]
  {
    var keys := Keys(shards, c.backends);
    assert k !in keys;
    if WriteAll(c, d, shards, env).1 == Done {
      WriteAllIs(c, d, shards, env);
      var p := WriteAll(c, d, shards, env).0;
      assert SameKey(d, p, k);
      CleanIs(p, keys, env.deletes, false);
      CleanIs(p, keys, env.deletes, c.registry);
      assert Untouched(p, Clean(p, keys, env.deletes, false), k);
      assert Untouched(p, Clean(p, keys, env.deletes, c.registry), k);
    } else {
      var j := StopsAt(c, d, shards, env);
      var p := WriteAll(c, d, shards[..j], env).0;
      KeysPrefix(shards, c.backends, j);
      FreshPrefix(d, keys, j);
      WriteAllIs(c, d, shards[..j], env);
      assert SameKey(d, p, k);
      StoppedOthers(c, p, shards[j], keys[..j], env, k);
    }
  }

  lemma StoppedOthers(c: Config, p: Disk, sh: Shard, written: seq<Key>, env: Env, k: Key)
    requires Distinct(written) && k !in written && k != KeyOf(sh, c.backends) && k in p.store
    ensures var e := WriteOne(c, p, sh, written, env).0; k in e.store && e.store[k] == p.store[k]
  {
    PutIs(p, KeyOf(sh, c.backends), sh.data, env.tries(|written|), ATTEMPTS);
    var q := Put(p, KeyOf(sh, c.backends), sh.data, env.tries(|written|), ATTEMPTS).0;
    CleanIs(p, written, env.deletes, false);
    CleanIs(q, written, env.deletes, c.registry);
    assert Untouched(p, Clean(p, written, env.deletes, false), k);
    assert Untouched(q, Clean(q, written, env.deletes, c.registry), k);
  }

  lemma {:induction false} OneKeepsManifests(c: Config, p: Disk, sh: Shard, written: seq<Key>, env: Env)
    ensures var e := WriteOne(c, p, sh, written, env).0; e.saved == p.saved && e.manifests == p.manifests
  {
    PutIs(p, KeyOf(sh, c.backends), sh.data, env.tries(|written|), ATTEMPTS);
    CleanManifests(p, written, env.deletes, false);
    var q := Put(p, KeyOf(sh, c.backends), sh.data, env.tries(|written|), ATTEMPTS).0;
    CleanManifests(q, written, env.deletes, c.registry);
  }

  lemma {:induction false} ManifestsUntilRecorded(c: Config, d: Disk, shards: seq<Shard>, env: Env)
    ensures var e := WriteAll(c, d, shards, env).0; e.saved == d.saved && e.manifests == d.manifests
  {
    if shards != [] {
      var n := |shards| - 1;
      ManifestsUntilRecorded(c, d, shards[..n], env);
      OneKeepsManifests(c, WriteAll(c, d, shards[..n], env).0, shards[n], Keys(shards[..n], c.backends), env);
    }
  }

  lemma {:induction false} CleanManifests(d: Disk, keys: seq<Key>, deletes: nat -> Delete, register: bool)
    ensures Clean(d, keys, deletes, register).saved == d.saved
    ensures Clean(d, keys, deletes, register).manifests == d.manifests
  {
    if keys != [] {
      CleanManifests(d, keys[..|keys| - 1], deletes, register);
    }
  }

  /** A call that fails records no manifest. */
  lemma FailureRecordsNothing(c: Config, d: Disk, name: FileName, shards: seq<Shard>, env: Env)
    requires Persist(c, d, name, shards, env).1 != Done
    ensures var e := Persist(c, d, name, shards, env).0; e.saved == d.saved && e.manifests == d.manifests
  {
    ManifestsUntilRecorded(c, d, shards, env);
    var p := WriteAll(c, d, shards, env).0;
    CleanManifests(p, Keys(shards, c.backends), env.deletes, false);
    CleanManifests(p, Keys(shards, c.backends), env.deletes, c.registry);
  }

  /** After the loop exactly the shards of the call are stored beyond what was there. */
  lemma {:induction false} WrittenExactly(c: Config, d: Disk, p: Disk, shards: seq<Shard>, env: Env)
    requires Fresh(d, Keys(shards, c.backends)) && Wrote(c, d, p, shards, env)
    ensures var keys := Keys(shards, c.backends);
            && (forall i :: 0 <= i < |keys| ==> keys[i] in p.store && p.store[keys[i]] == shards[i].data)
            && (forall k :: k in p.store && k !in d.store ==> k in keys)
  {
    var keys := Keys(shards, c.backends);
    forall i | 0 <= i < |keys|
      ensures keys[i] in p.store && p.store[keys[i]] == shards[i].data
    {
      assert WroteKey(p, keys[i], shards[i].data, env.tries(i));
    }
    forall k | k in p.store && k !in d.store
      ensures k in keys
    {
      assert k !in keys ==> SameKey(d, p, k);
    }
  }

  /** What the recorded manifest says of the call's shards. */
  ghost predicate Describes(c: Config, m: Manifest, shards: seq<Shard>) {
    && |m.shards| == |shards| && m.root == Root(c.h, Data(shards))
    && forall i :: 0 <= i < |shards| ==>
         && m.shards[i].key == KeyOf(shards[i], c.backends) && m.shards[i].index == shards[i].index
         && m.shards[i].checksum == c.h(shards[i].data)
  }

  /** Recording changes the two manifest tables alone. */
  lemma {:induction false} SuccessState(c: Config, d: Disk, name: FileName, shards: seq<Shard>, env: Env)
    requires Persist(c, d, name, shards, env).1 == Done
    ensures var e := Persist(c, d, name, shards, env).0;
            && WriteAll(c, d, shards, env).1 == Done && e.store == WriteAll(c, d, shards, env).0.store
            && name in e.manifests && e.manifests == d.manifests[name := e.manifests[name]]
            && e.saved == (if c.persistent then d.saved[name := e.manifests[name]] else d.saved)
            && Describes(c, e.manifests[name], shards)
            && e.manifests[name].version
               == (if c.persistent && env.loads && name in d.saved then d.saved[name].version + 1 else 1)
  {
    DoneBeforeRecord(c, d, name, shards, env);
    ManifestsUntilRecorded(c, d, shards, env);
  }

  ghost predicate Names(m: Manifest, k: Key) {
    exists i :: 0 <= i < |m.shards| && m.shards[i].key == k
  }

  lemma {:induction false} DescribedKeys(c: Config, m: Manifest, shards: seq<Shard>, k: Key)
    requires Describes(c, m, shards) && k in Keys(shards, c.backends)
    ensures Names(m, k)
  {
    var keys := Keys(shards, c.backends);
    var i :| 0 <= i < |keys| && keys[i] == k;
    assert m.shards[i].key == k;
  }

  /** A call that succeeds records exactly the shards it wrote, each stored with its data under its checksum. */
  lemma {:induction false} SuccessRecordsWritten(c: Config, d: Disk, name: FileName, shards: seq<Shard>, env: Env)
    requires Fresh(d, Keys(shards, c.backends)) && Persist(c, d, name, shards, env).1 == Done
    ensures var e := Persist(c, d, name, shards, env).0;
            && name in e.manifests && e.manifests == d.manifests[name := e.manifests[name]]
            && e.saved == (if c.persistent then d.saved[name := e.manifests[name]] else d.saved)
            && Describes(c, e.manifests[name], shards)
            && (forall i :: 0 <= i < |shards| ==>
                  var k := e.manifests[name].shards[i].key; k in e.store && e.store[k] == shards[i].data)
            && (forall k :: k in e.store && k !in d.store ==> Names(e.manifests[name], k))
            && e.manifests[name].version
               == (if c.persistent && env.loads && name in d.saved then d.saved[name].version + 1 else 1)
  {
    SuccessState(c, d, name, shards, env);
    WriteAllIs(c, d, shards, env);
    var e := Persist(c, d, name, shards, env).0;
    WrittenExactly(c, d, WriteAll(c, d, shards, env).0, shards, env);
    forall k | k in e.store && k !in d.store
      ensures Names(e.manifests[name], k)
    {
      DescribedKeys(c, e.manifests[name], shards, k);
    }
  }

  const LOST_SHARDS: seq<Shard> := [Shard(0, Some(0), [], [], false, 0), Shard(1, Some(0), [], [], false, 1)]

  /** The first shard's put is given up on while running and then retried; the second shard's put fails. */
  function LossyEnv(): Env {
    Env(_ => false, i => if i == 0 then [TimedOut, Accepted] else [], _ => Removed, true, true, true)
  }

  lemma LossyTries()
    ensures Accepts([TimedOut, Accepted], ATTEMPTS) && Lingers([TimedOut, Accepted], ATTEMPTS) && !Accepts([], ATTEMPTS)
  {
    assert [TimedOut, Accepted][1..] == [Accepted];
    assert Accepts([Accepted], 2);
  }

  lemma {:induction false} LossyOutcome(c: Config, d: Disk)
    requires c.backends == 1
    ensures Persist(c, d, "file", LOST_SHARDS, LossyEnv()).1 == PutFailed
  {
    var env := LossyEnv();
    LossyTries();
    assert Reached(c, LOST_SHARDS[0], env, 0) && !Reached(c, LOST_SHARDS[1], env, 1);
    DoneMeansReached(c, d, LOST_SHARDS, env);
    var j := StopsAt(c, d, LOST_SHARDS, env);
    assert j == 1;
    OneReached(c, WriteAll(c, d, LOST_SHARDS[..j], env).0, LOST_SHARDS[j], Keys(LOST_SHARDS[..j], c.backends), env);
  }

  /** Such a loss: the clean-up deletes what the abandoned attempt may store again, and registers nothing. */
  lemma {:induction false} RetriedTimeoutIsLost(c: Config)
    requires c.backends == 1 && c.registry
    ensures var d := Disk(map[], {}, {}, map[], map[]);
            && Persist(c, d, "file", LOST_SHARDS, LossyEnv()).1 == PutFailed
            && Unaccounted(Persist(c, d, "file", LOST_SHARDS, LossyEnv()).0, Keys(LOST_SHARDS, 1)[0])
  {
    var d := Disk(map[], {}, {}, map[], map[]);
    LossyTries();
    LossyOutcome(c, d);
    PutFailureLeaves(c, d, "file", LOST_SHARDS, LossyEnv(), 0);
  }

  // ---------- the program's own methods ----------

  class DistributedStorage {
    const c: Config
    var store: Store
    var lingering: set<Key>
    var orphans: set<Key>
    var saved: map<FileName, Manifest>
    var manifests: map<FileName, Manifest>

    constructor (config: Config)
      ensures c == config && View() == Disk(map[], {}, {}, map[], map[])
    {
      c := config;
      store, lingering, orphans, saved, manifests := map[], {}, {}, map[], map[];
    }

    function View(): Disk
      reads this
    {
      Disk(store, lingering, orphans, saved, manifests)
    }

    /** Up to three attempts, stopping at the first accepted one or at cancellation. */
    method PutShardWithRetry(k: Key, data: Bytes, tries: seq<Attempt>) returns (ok: bool)
      modifies `store, `lingering
      ensures (View(), ok) == Put(old(View()), k, data, tries, ATTEMPTS)
    {
      var i := 0;
      while i < ATTEMPTS && i < |tries|
        decreases |tries| - i
        invariant i <= ATTEMPTS && i <= |tries|
        invariant Put(View(), k, data, tries[i..], ATTEMPTS - i) == Put(old(View()), k, data, tries, ATTEMPTS)
      {
        assert tries[i..][1..] == tries[i + 1..];
        match tries[i] {
          case Accepted =>
            store := store[k := data];
            return true;
          case Rejected(stored) =>
            if stored {
              store := store[k := data];
            }
          case TimedOut =>
            lingering := lingering + {k};
        }
        i := i + 1;
      }
      return false;
    }

    /** The clean-up loop of the failing exits. */
    method CleanUp(keys: seq<Key>, deletes: nat -> Delete, register: bool)
      modifies `store, `orphans
      ensures View() == Clean(old(View()), keys, deletes, register)
    {
      for i := 0 to |keys|
        invariant View() == Clean(old(View()), keys[..i], deletes, register)
      {
        assert keys[..i + 1][..i] == keys[..i];
        if !deletes(i).Kept? {
          store := store - {keys[i]};
        }
        if !deletes(i).Removed? && register {
          orphans := orphans + {keys[i]};
        }
      }
      assert keys[..|keys|] == keys;
    }

    /** The step for one shard, with its clean-up when the put fails. */
    method WriteShard(sh: Shard, written: seq<Key>, env: Env) returns (exit: Exit)
      modifies `store, `lingering, `orphans
      ensures (View(), exit) == WriteOne(c, old(View()), sh, written, env)
    {
      if !Placeable(sh, c.backends) {
        CleanUp(written, env.deletes, false);
        return NoBackends;
      }
      if env.cancelled(|written|) {
        return Cancelled;
      }
      var k := KeyOf(sh, c.backends);
      var ok := PutShardWithRetry(k, sh.data, env.tries(|written|));
      if !ok {
        CleanUp(written, env.deletes, c.registry);
        if c.registry {
          orphans := orphans + {k};
        }
        return PutFailed;
      }
      return Done;
    }

    /** After the loop: the manifest is signed, saved and published, or the shards are cleaned up. */
    method RecordManifest(name: FileName, shards: seq<Shard>, written: seq<Key>, env: Env) returns (exit: Exit)
      requires written == Keys(shards, c.backends)
      modifies this
      ensures (View(), exit) == Record(c, old(View()), name, shards, env)
    {
      var m := NewManifest(c, View(), name, shards, env);
      if c.persistent {
        if !env.signs {
          CleanUp(written, env.deletes, false);
          return SignFailed;
        }
        if !env.saves {
          CleanUp(written, env.deletes, c.registry);
          return SaveFailed;
        }
        saved := saved[name := m];
      }
      manifests := manifests[name := m];
      return Done;
    }

    method PersistShards(name: FileName, shards: seq<Shard>, env: Env) returns (exit: Exit)
      modifies this
      ensures (View(), exit) == Persist(c, old(View()), name, shards, env)
    {
      var written: seq<Key> := [];
      for i := 0 to |shards|
        invariant written == Keys(shards[..i], c.backends)
        invariant (View(), Done) == WriteAll(c, old(View()), shards[..i], env)
      {
        assert shards[..i + 1][..i] == shards[..i];
        exit := WriteShard(shards[i], written, env);
        if exit != Done {
          StaysStopped(c, old(View()), shards, env, i + 1);
          return;
        }
        written := written + [KeyOf(shards[i], c.backends)];
      }
      assert shards[..|shards|] == shards;
      exit := RecordManifest(name, shards, written, env);
    }
  }

  /** Once stopped, the loop's outcome is final. */
  lemma {:induction false} StaysStopped(c: Config, d: Disk, shards: seq<Shard>, env: Env, n: nat)
    requires n <= |shards| && WriteAll(c, d, shards[..n], env).1 != Done
    ensures WriteAll(c, d, shards, env) == WriteAll(c, d, shards[..n], env)
  {
    if n == |shards| {
      assert shards[..n] == shards;
    } else {
      assert shards[..|shards| - 1][..n] == shards[..n];
      StaysStopped(c, d, shards[..|shards| - 1], env, n);
    }
  }
}
