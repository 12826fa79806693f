/** Which key a file is kept under: what a put writes, what a read needs, and that after a rotation the key service
    keeps every file. */
module SecstoreKeys {
  import opened Secstore
  import opened Options

  /** A file with this header and wrapped key, whose ciphertext is that of the contents under the file key. */
  predicate Holds(c: Crypto, b: Bytes, h: Header, wrapped: Bytes, d: Draw, plain: Bytes) {
    HeaderOf(c, b) == Some(h) && Parse(b) == Some(Parts(c.encode(h), wrapped, Head(c.seal(d.dek, d.dataNonce, plain))))
  }

  /** A put with a key service set: it succeeds exactly if the service wraps the file key, and then the file names the
      service and holds the key as the service wrapped it. The master key plays no part. */
  lemma PutUnderService(c: Crypto, k: Kms, s: Store, key: FileKey, plain: Bytes, d: Draw)
    requires Laws(c) && s.keys.kms.Some?
    ensures var r, w := After(c, k, s, PutFile(key, plain, d)), s.keys.kms.value.wrap(d.dek, d.r);
            && r.keys == s.keys
            && (w.None? ==> r == s)
            && (w.Some? ==>
                  && r.last == s.last[key := plain] && key in r.files && r.files == s.files[key := r.files[key]]
                  && (Safe(w.value.0) && NoSep(w.value.1) ==>
                        Holds(c, r.files[key], Header(1, "AES-GCM", 12, w.value.1, "kms:default"), w.value.0, d, plain)
                        && UnderKms(c, r.files[key])))
  {
    var w := s.keys.kms.value.wrap(d.dek, d.r);
    OwnTexts();
    if w.Some? && Safe(w.value.0) && NoSep(w.value.1) {
      FramedHeader(c, PutHeader(w.value.1, "kms:default"), w.value.0, c.seal(d.dek, d.dataNonce, plain));
    }
  }

  /** Without a key service it succeeds exactly with a master key, and the file names the local key. */
  lemma PutLocally(c: Crypto, k: Kms, s: Store, key: FileKey, plain: Bytes, d: Draw)
    requires Laws(c) && s.keys.kms.None?
    ensures var r := After(c, k, s, PutFile(key, plain, d));
            && r.keys == s.keys
            && (s.keys.masterKey.None? ==> r == s)
            && (s.keys.masterKey.Some? ==>
                  var w := c.seal(s.keys.masterKey.value, d.keyNonce, d.dek);
                  && r.last == s.last[key := plain] && key in r.files && r.files == s.files[key := r.files[key]]
                  && (Safe(w) ==>
                        Holds(c, r.files[key], Header(1, "AES-GCM", 12, "", "local"), w, d, plain)
                        && !UnderKms(c, r.files[key])))
  {
    OwnTexts();
    if s.keys.masterKey.Some? {
      var w := c.seal(s.keys.masterKey.value, d.keyNonce, d.dek);
      if Safe(w) {
        FramedHeader(c, PutHeader("", "local"), w, c.seal(d.dek, d.dataNonce, plain));
        assert "local"[..4][0] != "kms:"[0];
      }
    }
  }

  /** The key that a file's header names opens its wrapped key. */
  predicate Unlocks(c: Crypto, keys: Keys, h: Header, wrapped: Bytes, dek: Bytes) {
    if keys.kms.Some? && "kms:" <= h.kekId then keys.kms.value.unwrap(wrapped) == Some(dek)
    else keys.masterKey.Some? && |wrapped| >= 12 && c.open(keys.masterKey.value, wrapped) == Some(dek)
  }

  /** A file is read exactly if it splits into three fields, its header decodes, the key it names opens the file key,
      that has an AES length, and it opens the ciphertext. */
  lemma ReadExactly(c: Crypto, keys: Keys, b: Bytes, plain: Bytes)
    ensures ReadFile(c, keys, b) == Value(plain)
        <==> Parse(b).Some? && HeaderOf(c, b).Some?
             && exists dek :: Unlocks(c, keys, HeaderOf(c, b).value, Parse(b).value.wrapped, dek)
                              && (|dek| == 16 || |dek| == 24 || |dek| == 32)
                              && |Parse(b).value.ct| >= 12 && c.open(dek, Parse(b).value.ct) == Some(plain)
  {
    if Parse(b).Some? && HeaderOf(c, b).Some? {
      var h, parts := HeaderOf(c, b).value, Parse(b).value;
      PrefixIsNamed(h);
      var u := GetDek(c, keys, h, parts.wrapped);
      forall dek
        ensures Unlocks(c, keys, h, parts.wrapped, dek) <==> u == Dek(dek)
      {
      }
      if u.Dek? {
        assert Unlocks(c, keys, h, parts.wrapped, u.dek);
      }
    }
  }

  lemma PrefixIsNamed(h: Header)
    ensures ByKms(h) <==> "kms:" <= h.kekId
  {
    if |h.kekId| >= 4 {
      assert "kms:" <= h.kekId <==> h.kekId[..4] == "kms:";
    }
  }

  /** A file that does not parse, or whose key is not there, is reported as such. */
  lemma ReadErrors(c: Crypto, keys: Keys, files: map<FileKey, Bytes>, key: FileKey)
    ensures Get(c, keys, files, key) == Missing <==> key !in files
    ensures key in files ==> (Get(c, keys, files, key) == BadFormat <==> Parse(files[key]).None?)
    ensures key in files ==>
              (Get(c, keys, files, key) == BadHeader <==> Parse(files[key]).Some? && HeaderOf(c, files[key]).None?)
  {
  }

  // ---------- rotation ----------

  /** A safe rewrap keeps the version, the algorithm and the nonce size, names the key service, and holds the file's own
      key as the service wrapped it and its own ciphertext. */
  lemma RewrapExactly(c: Crypto, keys: Keys, b: Bytes, r: nat, plain: Bytes)
    requires Laws(c) && keys.kms.Some? && ReadFile(c, keys, b) == Value(plain) && Rewrapped(c, keys, b, r).Some?
    requires RewrapSafe(c, keys, b, r)
    ensures var n, h := Rewrapped(c, keys, b, r).value, HeaderOf(c, b).value;
            exists dek ::
              && Unlocks(c, keys, h, Parse(b).value.wrapped, dek) && keys.kms.value.wrap(dek, r).Some?
              && var w := keys.kms.value.wrap(dek, r).value;
                 Parse(n) == Some(Parts(c.encode(Header(h.version, h.alg, h.nonceSize, w.1, "kms:default")), w.0,
                                        Parse(b).value.ct))
  {
    var parts, h := Parse(b).value, HeaderOf(c, b).value;
    RotationFindsKey(c, keys, h, parts.wrapped);
    PrefixIsNamed(h);
    var dek := GetDek(c, keys, h, parts.wrapped).dek;
    assert Unlocks(c, keys, h, parts.wrapped, dek);
    var w := keys.kms.value.wrap(dek, r).value;
    OwnTexts();
    ParsedIsClean(b);
    HeadIsAll(parts.ct);
    FramedHeader(c, RotatedHeader(h, w.1), w.0, parts.ct);
  }

  /** A rotation that fails stops at one file: those before it were all rewrapped, and none after it is touched. */
  lemma {:induction false} WalkStopsAt(c: Crypto, keys: Keys, files: map<FileKey, Bytes>, names: seq<FileKey>,
                                       io: nat -> bool, draw: nat -> nat)
    returns (n: nat)
    requires keys.kms.Some? && !Walk(c, keys, files, names, io, draw).1
    ensures n < |names|
    ensures var (done, ok) := Walk(c, keys, files, names[..n], io, draw);
            && ok && Walk(c, keys, files, names, io, draw).0 == done
            && (names[n] in done && io(n) ==> Rewrapped(c, keys, done[names[n]], draw(n)).None?)
    ensures forall key :: key in files && key !in names[..n] ==>
              key in Walk(c, keys, files, names, io, draw).0
              && Walk(c, keys, files, names, io, draw).0[key] == files[key]
  {
    var i := |names| - 1;
    if Walk(c, keys, files, names[..i], io, draw).1 {
      n := i;
    } else {
      n := WalkStopsAt(c, keys, files, names[..i], io, draw);
      assert names[..i][..n] == names[..n];
    }
    forall key | key in files && key !in names[..n]
      ensures key in Walk(c, keys, files, names, io, draw).0
      ensures Walk(c, keys, files, names, io, draw).0[key] == files[key]
    {
      WalkKeepsOthers(c, keys, files, names[..n], io, draw, key);
    }
  }

  // ---------- after a rotation ----------

  ghost predicate KeptUnder(c: Crypto, s: Store, key: FileKey) {
    key in s.files ==> UnderKms(c, s.files[key])
  }

  lemma {:induction false} WalkKeepsUnder(c: Crypto, keys: Keys, files: map<FileKey, Bytes>, names: seq<FileKey>,
                                          io: nat -> bool, draw: nat -> nat, key: FileKey)
    requires Laws(c) && keys.kms.Some? && key in files && UnderKms(c, files[key])
    requires SafeFor(c, keys, files, names, io, draw, key)
    ensures var done := Walk(c, keys, files, names, io, draw).0; key in done && UnderKms(c, done[key])
  {
    if names != [] {
      var i := |names| - 1;
      WalkKeepsUnder(c, keys, files, names[..i], io, draw, key);
      var (done, ok) := Walk(c, keys, files, names[..i], io, draw);
      if ok && names[i] == key && RewrapOne(c, keys, done, key, io(i), draw(i)).1 {
        RewrapHeader(c, keys, done[key], draw(i));
      }
    }
  }

  lemma EventKeepsUnder(c: Crypto, k: Kms, s: Store, e: Event, key: FileKey)
    requires Laws(c) && s.keys.kms == Some(k) && KeptUnder(c, s, key) && SafeEvent(c, s, e, key)
    ensures KeptUnder(c, After(c, k, s, e), key) && After(c, k, s, e).keys.kms == Some(k)
  {
    match e {
      case PutFile(x, plain, d) =>
        PutUnderService(c, k, s, x, plain, d);
      case UseKms =>
      case Rotate(names, io, draws) =>
        WalkKeepsKeys(c, s.keys, s.files, names, io, draws);
        if key in s.files {
          WalkKeepsUnder(c, s.keys, s.files, names, io, draws, key);
        }
    }
  }

  /** The store after more events. */
  function RunOn(c: Crypto, k: Kms, s: Store, events: seq<Event>): Store {
    if events == [] then s else After(c, k, RunOn(c, k, s, events[..|events| - 1]), events[|events| - 1])
  }

  lemma {:induction false} RunStoreIsRunOn(c: Crypto, master: Option<Bytes>, k: Kms, events: seq<Event>)
    ensures RunStore(c, master, k, events) == RunOn(c, k, Store(Keys(master, None), map[], map[]), events)
  {
    if events != [] {
      RunStoreIsRunOn(c, master, k, events[..|events| - 1]);
    }
  }

  /** Once set, the key service stays. */
  lemma {:induction false} OnceSet(c: Crypto, k: Kms, s: Store, events: seq<Event>, i: nat)
    requires i < |events| && events[i] == UseKms
    ensures RunOn(c, k, s, events).keys == s.keys.(kms := Some(k))
  {
    var n := |events| - 1;
    KeysAfter(c, k, s, events[..n]);
    if i < n {
      OnceSet(c, k, s, events[..n], i);
    }
  }

  lemma {:induction false} KeysAfter(c: Crypto, k: Kms, s: Store, events: seq<Event>)
    ensures RunOn(c, k, s, events).keys.masterKey == s.keys.masterKey
  {
    if events != [] {
      KeysAfter(c, k, s, events[..|events| - 1]);
    }
  }

  /** Each of these events writes the key's file safely. */
  predicate SafeOn(c: Crypto, k: Kms, s: Store, events: seq<Event>, key: FileKey) {
    events == [] ||
    var before := events[..|events| - 1];
    SafeOn(c, k, s, before, key) && SafeEvent(c, RunOn(c, k, s, before), events[|events| - 1], key)
  }

  /** A rotation that walks over every file and completes. */
  ghost predicate RotatesAll(c: Crypto, k: Kms, s: Store, e: Event) {
    && e.Rotate? && s.keys.kms == Some(k) && (forall x :: x in s.files ==> x in e.names)
    && Walk(c, s.keys, s.files, e.names, e.io, e.draws).1
  }

  lemma AfterRotation(c: Crypto, k: Kms, s: Store, e: Event, key: FileKey)
    requires Laws(c) && RotatesAll(c, k, s, e) && SafeEvent(c, s, e, key)
    ensures KeptUnder(c, After(c, k, s, e), key) && After(c, k, s, e).keys == s.keys
  {
    RotationReaches(c, s.keys, s.files, e.names, e.io, e.draws, key);
  }

  /** The key's file, if there is one, is under the key service, which is set. */
  ghost predicate Settled(c: Crypto, k: Kms, s: Store, key: FileKey) {
    KeptUnder(c, s, key) && s.keys.kms == Some(k)
  }

  lemma {:induction false} SettledStays(c: Crypto, k: Kms, s: Store, events: seq<Event>, key: FileKey)
    requires Laws(c) && Settled(c, k, s, key) && SafeOn(c, k, s, events, key)
    ensures Settled(c, k, RunOn(c, k, s, events), key)
  {
    if events != [] {
      var i := |events| - 1;
      SettledStays(c, k, s, events[..i], key);
      EventKeepsUnder(c, k, RunOn(c, k, s, events[..i]), events[i], key);
    }
  }

  /** Once the key service is set and a rotation over all files has completed, every file written safely since is and
      stays under the key service, whatever is put and rotated later. */
  lemma {:induction false} RotatedStaysUnder(c: Crypto, k: Kms, s: Store, rotation: Event, later: seq<Event>,
                                             key: FileKey)
    requires Laws(c) && RotatesAll(c, k, s, rotation)
    requires SafeEvent(c, s, rotation, key) && SafeOn(c, k, After(c, k, s, rotation), later, key)
    ensures Settled(c, k, RunOn(c, k, After(c, k, s, rotation), later), key)
  {
    AfterRotation(c, k, s, rotation, key);
    SettledStays(c, k, After(c, k, s, rotation), later, key);
  }
}
