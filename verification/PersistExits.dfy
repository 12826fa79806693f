/** Which exit an upload takes, and what is left behind where there is no orphan registry or no backend. */
module PersistExits {
  import opened Merkle
  import opened Options
  import opened Shards
  import opened Persist

  /** A shard is stored under its id, on the backend that it names, or else on the one at its index, in turn. */
  lemma KeyExactly(sh: Shard, backends: nat)
    requires backends > 0
    ensures KeyOf(sh, backends).id == sh.id
    ensures KeyOf(sh, backends).backend == match sh.backend case Some(b) => b case None => sh.index % backends
  {
  }

  /** Within the first three attempts one that came back with an error had stored the shard all the same. */
  predicate StoredAnyway(tries: seq<Attempt>, n: nat) {
    n > 0 && tries != [] && !tries[0].Accepted?
    && ((tries[0].Rejected? && tries[0].stored) || StoredAnyway(tries[1..], n - 1))
  }

  lemma {:induction false} FailedPutStores(d: Disk, k: Key, data: Bytes, tries: seq<Attempt>, n: nat)
    requires !Put(d, k, data, tries, n).1
    ensures k in Put(d, k, data, tries, n).0.store <==> k in d.store || StoredAnyway(tries, n)
    decreases n
  {
    if n > 0 && tries != [] {
      match tries[0]
      case Accepted =>
      case Rejected(stored) =>
        FailedPutStores(if stored then d.(store := d.store[k := data]) else d, k, data, tries[1..], n - 1);
      case TimedOut => FailedPutStores(d.(lingering := d.lingering + {k}), k, data, tries[1..], n - 1);
    }
  }

  /** At most three attempts are made, and a put succeeds exactly if one of them is accepted. */
  lemma {:induction false} AcceptedWithin(tries: seq<Attempt>, n: nat)
    ensures Accepts(tries, n) <==> exists i :: 0 <= i < |tries| && i < n && tries[i].Accepted?
  {
    if n > 0 && tries != [] && !tries[0].Accepted? {
      AcceptedWithin(tries[1..], n - 1);
      assert forall i :: 0 < i < |tries| ==> tries[i] == tries[1..][i - 1];
      if i :| 0 <= i < |tries[1..]| && i < n - 1 && tries[1..][i].Accepted? {
        assert tries[i + 1].Accepted?;
      }
    }
  }

  lemma {:induction false} LingersWithin(tries: seq<Attempt>, n: nat)
    ensures Lingers(tries, n)
        <==> exists i :: 0 <= i < |tries| && i < n && tries[i].TimedOut? && NoneAccepted(tries[..i])
  {
    if n > 0 && tries != [] && !tries[0].Accepted? {
      LingersWithin(tries[1..], n - 1);
      assert tries[..0] == [];
      forall i | 0 < i < |tries|
        ensures tries[i] == tries[1..][i - 1] && (NoneAccepted(tries[..i]) <==> NoneAccepted(tries[1..][..i - 1]))
      {
        assert tries[..i] == [tries[0]] + tries[1..][..i - 1];
      }
      if i :| 0 <= i < |tries[1..]| && i < n - 1 && tries[1..][i].TimedOut? && NoneAccepted(tries[1..][..i]) {
        assert tries[i + 1].TimedOut? && NoneAccepted(tries[..i + 1]);
      }
    } else if tries != [] && tries[0].Accepted? {
      assert forall i :: 0 < i <= |tries| ==> tries[..i][0] == tries[0];
    }
  }

  predicate NoneAccepted(tries: seq<Attempt>) {
    forall i :: 0 <= i < |tries| ==> !tries[i].Accepted?
  }

  // ---------- exits ----------

  /** The put of the shard at i is accepted, after at most three attempts. */
  predicate PutsAt(env: Env, i: nat) {
    exists a :: 0 <= a < |env.tries(i)| && a < 3 && env.tries(i)[a].Accepted?
  }

  /** The shard at i is written: it has a backend, nothing was cancelled before it, and its put is accepted. */
  predicate Written(c: Config, shards: seq<Shard>, env: Env, i: nat)
    requires i < |shards|
  {
    (shards[i].backend.Some? || c.backends > 0) && !env.cancelled(i) && PutsAt(env, i)
  }

  /** The exit of the upload: at the first shard that is not written, by what kept it; and after all of them by the
      signing and the saving of the manifest, if manifests are stored. */
  lemma {:induction false} ExitExactly(c: Config, d: Disk, name: FileName, shards: seq<Shard>, env: Env, j: nat)
    requires j <= |shards| && (forall i :: 0 <= i < j ==> Written(c, shards, env, i))
    requires j < |shards| ==> !Written(c, shards, env, j)
    ensures Persist.Persist(c, d, name, shards, env).1
         == if j < |shards| then
              if shards[j].backend.None? && c.backends == 0 then NoBackends
              else if env.cancelled(j) then Cancelled else PutFailed
            else if c.persistent && !env.signs then SignFailed
            else if c.persistent && !env.saves then SaveFailed
            else Done
  {
    forall i | 0 <= i < |shards|
      ensures Reached(c, shards[i], env, i) <==> Written(c, shards, env, i)
    {
      AcceptedWithin(env.tries(i), ATTEMPTS);
    }
    DoneMeansReached(c, d, shards, env);
    if j < |shards| {
      var k := StopsAt(c, d, shards, env);
      DoneMeansReached(c, d, shards[..k], env);
      assert forall i :: 0 <= i < k ==> shards[..k][i] == shards[i] && Reached(c, shards[i], env, i);
      assert k == j;
      OneReached(c, WriteAll(c, d, shards[..j], env).0, shards[j], Keys(shards[..j], c.backends), env);
    }
  }

  // ---------- what is left without a registry, or without backends ----------

  /** What a clean-up without registration leaves of a written shard. */
  lemma {:induction false} PutFailedUnregistered(c: Config, d: Disk, p: Disk, shards: seq<Shard>, env: Env, j: nat,
                                                 i: nat)
    requires Stopped(c, d, p, shards, env, j) && i < |shards| && !c.registry
    requires WriteOne(c, p, shards[j], Keys(shards[..j], c.backends), env).1 == PutFailed
    ensures var e := WriteOne(c, p, shards[j], Keys(shards[..j], c.backends), env).0;
            Unaccounted(e, Keys(shards, c.backends)[i])
            <==> if i < j then env.deletes(i).Kept? || Lingers(env.tries(i), ATTEMPTS)
                 else i == j && (StoredAnyway(env.tries(j), ATTEMPTS) || Lingers(env.tries(j), ATTEMPTS))
  {
    var keys := Keys(shards, c.backends);
    var k := keys[j];
    StoppedKeys(c, d, p, shards, env, j, i);
    StoppedKeys(c, d, p, shards, env, j, j);
    PutIs(p, k, shards[j].data, env.tries(j), ATTEMPTS);
    FailedPutStores(p, k, shards[j].data, env.tries(j), ATTEMPTS);
    var q := Put(p, k, shards[j].data, env.tries(j), ATTEMPTS).0;
    if i < j {
      CleanedWritten(q, keys[..j], env, false, i, shards[i].data);
    } else {
      CleanedOther(q, keys[..j], env, false, keys[i]);
    }
  }

  /** Without a registry a failed put leaves, of the shards before the failing one, exactly those whose delete did not
      remove them or that an abandoned attempt may still store, and the failing one if an attempt stored it all the
      same or may still do so. */
  lemma {:induction false} UnregisteredFailureLeaves(c: Config, d: Disk, name: FileName, shards: seq<Shard>, env: Env,
                                                     i: nat) returns (j: nat)
    requires Fresh(d, Keys(shards, c.backends)) && !c.registry && i < |shards|
    requires Persist.Persist(c, d, name, shards, env).1 == PutFailed
    ensures j < |shards| && !Accepts(env.tries(j), ATTEMPTS) && forall k :: 0 <= k < j ==> Reached(c, shards[k], env, k)
    ensures Unaccounted(Persist.Persist(c, d, name, shards, env).0, Keys(shards, c.backends)[i])
            <==> if i < j then env.deletes(i).Kept? || Lingers(env.tries(i), ATTEMPTS)
                 else i == j && (StoredAnyway(env.tries(j), ATTEMPTS) || Lingers(env.tries(j), ATTEMPTS))
  {
    j := StopsAt(c, d, shards, env);
    var p := WriteAll(c, d, shards[..j], env).0;
    StoppedThere(c, d, shards, env, j);
    PutFailedMeans(c, p, shards[j], Keys(shards[..j], c.backends), env);
    PutFailedUnregistered(c, d, p, shards, env, j, i);
  }

  /** Where a shard finds no backend, the shards before it are deleted; those whose delete did not remove them stay,
      registered nowhere, as do those that an abandoned attempt may still store. */
  lemma {:induction false} NoBackendLeaves(c: Config, d: Disk, name: FileName, shards: seq<Shard>, env: Env, i: nat)
    returns (j: nat)
    requires Fresh(d, Keys(shards, c.backends)) && i < |shards|
    requires Persist.Persist(c, d, name, shards, env).1 == NoBackends
    ensures j < |shards| && shards[j].backend.None? && c.backends == 0
    ensures Unaccounted(Persist.Persist(c, d, name, shards, env).0, Keys(shards, c.backends)[i])
            <==> i < j && (env.deletes(i).Kept? || Lingers(env.tries(i), ATTEMPTS))
    ensures forall k :: 0 <= k < j ==> Reached(c, shards[k], env, k)
  {
    j := StopsAt(c, d, shards, env);
    var p := WriteAll(c, d, shards[..j], env).0;
    var keys := Keys(shards, c.backends);
    StoppedThere(c, d, shards, env, j);
    StoppedKeys(c, d, p, shards, env, j, i);
    OneReached(c, p, shards[j], Keys(shards[..j], c.backends), env);
    if i < j {
      CleanedWritten(p, keys[..j], env, false, i, shards[i].data);
    } else {
      CleanedOther(p, keys[..j], env, false, keys[i]);
    }
  }

  lemma {:induction false} OrphansOfCleanUp(q: Disk, keys: seq<Key>, env: Env, i: nat)
    requires Distinct(keys) && i < |keys|
    ensures keys[i] in Clean(q, keys, env.deletes, true).orphans <==> keys[i] in q.orphans || !env.deletes(i).Removed?
  {
    CleanIs(q, keys, env.deletes, true);
    assert CleanedKey(q, Clean(q, keys, env.deletes, true), keys[i], env.deletes(i), true);
  }

  lemma {:induction false} RegisteredAt(c: Config, d: Disk, p: Disk, shards: seq<Shard>, env: Env, j: nat, i: nat)
    requires Stopped(c, d, p, shards, env, j) && i < |shards| && c.registry
    requires WriteOne(c, p, shards[j], Keys(shards[..j], c.backends), env).1 == PutFailed
    ensures Keys(shards, c.backends)[i] in WriteOne(c, p, shards[j], Keys(shards[..j], c.backends), env).0.orphans
            <==> i == j || (i < j && !env.deletes(i).Removed?)
  {
    var keys := Keys(shards, c.backends);
    StoppedKeys(c, d, p, shards, env, j, i);
    PutIs(p, keys[j], shards[j].data, env.tries(j), ATTEMPTS);
    var q := Put(p, keys[j], shards[j].data, env.tries(j), ATTEMPTS).0;
    if i < j {
      OrphansOfCleanUp(q, keys[..j], env, i);
    } else {
      CleanedOther(q, keys[..j], env, true, keys[i]);
    }
  }

  /** With a registry a failed put registers the failing shard, and every written one whose delete failed. */
  lemma {:induction false} RegisteredAfterFailure(c: Config, d: Disk, name: FileName, shards: seq<Shard>, env: Env,
                                                  i: nat) returns (j: nat)
    requires Fresh(d, Keys(shards, c.backends)) && c.registry && i < |shards|
    requires Persist.Persist(c, d, name, shards, env).1 == PutFailed
    ensures j < |shards| && !Accepts(env.tries(j), ATTEMPTS) && forall k :: 0 <= k < j ==> Reached(c, shards[k], env, k)
    ensures Keys(shards, c.backends)[i] in Persist.Persist(c, d, name, shards, env).0.orphans
            <==> i == j || (i < j && !env.deletes(i).Removed?)
  {
    j := StopsAt(c, d, shards, env);
    var p := WriteAll(c, d, shards[..j], env).0;
    StoppedThere(c, d, shards, env, j);
    PutFailedMeans(c, p, shards[j], Keys(shards[..j], c.backends), env);
    RegisteredAt(c, d, p, shards, env, j, i);
  }
}
