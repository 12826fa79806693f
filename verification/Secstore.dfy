/** The encrypted file store: framing of header, wrapped key and ciphertext, and rewrapping all files under a new
    key service. Encryption and the header's JSON form are parameters with their round-trip laws. */
module Secstore {
  import opened Options

  // One character per byte.
  type Bytes = string
  type FileKey = string

  datatype Header = Header(version: int, alg: string, nonceSize: int, meta: Bytes, kekId: string)

  datatype Parts = Parts(header: Bytes, wrapped: Bytes, ct: Bytes)

  const NONCE_SIZE := 12

  // ---------- framing ----------

  /** "||" starts at i. */
  predicate SepAt(b: Bytes, i: nat) {
    i + 1 < |b| && b[i] == '|' && b[i + 1] == '|'
  }

  lemma SepExactly(b: Bytes, i: nat)
    ensures SepAt(b, i) <==> i + 2 <= |b| && b[i..i + 2] == "||"
  {
    if i + 2 <= |b| {
      assert b[i..i + 2][0] == b[i] && b[i..i + 2][1] == b[i + 1];
    }
  }

  predicate NoSep(b: Bytes) {
    forall i: nat :: i < |b| ==> !SepAt(b, i)
  }

  predicate EndsInBar(b: Bytes) { b != [] && b[|b| - 1] == '|' }

  /** A field that keeps its end when a separator follows it. */
  predicate Safe(b: Bytes) { NoSep(b) && !EndsInBar(b) }

  /** Where the first separator starts, or the length if there is none. */
  function FirstSep(b: Bytes): (i: nat)
    ensures i <= |b| && (i < |b| ==> SepAt(b, i)) && forall j: nat :: j < i ==> !SepAt(b, j)
  {
    if b == [] then 0
    else if SepAt(b, 0) then 0
    else
      var i := FirstSep(b[1..]);
      assert forall j: nat :: 0 < j < 1 + i ==> SepAt(b, j) == SepAt(b[1..], j - 1);
      1 + i
  }

  /** The text before the first separator. */
  function Head(b: Bytes): Bytes { b[..FirstSep(b)] }

  /** The text after the first separator, if there is one. */
  function Tail(b: Bytes): Option<Bytes> {
    var i := FirstSep(b);
    if i < |b| then Some(b[i + 2..]) else None
  }

  /** The first three fields of the split; later ones are ignored. */
  function Parse(b: Bytes): Option<Parts> {
    match Tail(b)
    case None => None
    case Some(rest) =>
      match Tail(rest)
      case None => None
      case Some(last) => Some(Parts(Head(b), Head(rest), Head(last)))
  }

  function Frame(header: Bytes, wrapped: Bytes, ct: Bytes): Bytes {
    header + "||" + wrapped + "||" + ct
  }

  /** The first separator after a field is the intended one just if the field is safe. */
  lemma {:induction false} FirstSepAfter(f: Bytes, rest: Bytes)
    ensures FirstSep(f + "||" + rest) == |f| <==> Safe(f)
  {
    var b := f + "||" + rest;
    assert SepAt(b, |f|);
    if Safe(f) {
      forall j: nat | j < |f|
        ensures !SepAt(b, j)
      {
        assert !SepAt(f, j);
      }
    } else if EndsInBar(f) {
      assert SepAt(b, |f| - 1);
    } else {
      var i: nat :| i < |f| && SepAt(f, i);
      assert SepAt(b, i);
    }
  }

  lemma SplitAfter(f: Bytes, rest: Bytes)
    requires Safe(f)
    ensures Head(f + "||" + rest) == f && Tail(f + "||" + rest) == Some(rest)
  {
    FirstSepAfter(f, rest);
  }

  /** A field that is not safe is cut short when it is split off again. */
  lemma CutField(f: Bytes, rest: Bytes)
    requires !Safe(f)
    ensures exists i: nat :: i < |f| && Head(f + "||" + rest) == f[..i]
  {
    var b := f + "||" + rest;
    FirstSepAfter(f, rest);
    assert SepAt(b, |f|);
    assert Head(b) == f[..FirstSep(b)];
  }

  /** So is a last field with a separator. */
  lemma CutLast(f: Bytes)
    requires !NoSep(f)
    ensures exists i: nat :: i < |f| && Head(f) == f[..i]
  {
    HeadIsAll(f);
    assert Head(f) == f[..FirstSep(f)];
  }

  lemma HeadIsAll(b: Bytes)
    ensures Head(b) == b <==> NoSep(b)
  {
    if !NoSep(b) {
      var i: nat :| i < |b| && SepAt(b, i);
    }
  }

  /** A framed file parses back to its three fields exactly when the wrapped key has no separator and does not end
      in a bar, and the ciphertext has no separator. */
  lemma ParseFrame(h: Bytes, w: Bytes, c: Bytes)
    requires Safe(h)
    ensures Parse(Frame(h, w, c)) == Some(Parts(h, w, c)) <==> Safe(w) && NoSep(c)
  {
    var rest := w + "||" + c;
    assert Frame(h, w, c) == h + "||" + rest;
    SplitAfter(h, rest);
    FirstSepAfter(w, c);
    if Safe(w) {
      SplitAfter(w, c);
      HeadIsAll(c);
    }
  }

  lemma ParseCuts(h: Bytes, w: Bytes, ct: Bytes)
    requires Safe(h) && Safe(w)
    ensures Parse(Frame(h, w, ct)) == Some(Parts(h, w, Head(ct)))
  {
    assert Frame(h, w, ct) == h + "||" + (w + "||" + ct);
    SplitAfter(h, w + "||" + ct);
    SplitAfter(w, ct);
  }

  lemma HeadIsClean(b: Bytes)
    ensures NoSep(Head(b))
  {
    forall i: nat | i < |Head(b)|
      ensures !SepAt(Head(b), i)
    {
      assert !SepAt(b, i);
    }
  }

  /** What a parse returns never holds a separator in its ciphertext. */
  lemma ParsedIsClean(b: Bytes)
    requires Parse(b).Some?
    ensures NoSep(Parse(b).value.ct)
  {
    HeadIsClean(Tail(Tail(b).value).value);
  }

  // ---------- keys and encryption ----------

  /** AES-GCM with the nonce in front, and the JSON form of headers. */
  datatype Crypto = Crypto(
    seal: (Bytes, Bytes, Bytes) -> Bytes,
    open: (Bytes, Bytes) -> Option<Bytes>,
    encode: Header -> Bytes,
    decode: Bytes -> Option<Header>)

  ghost predicate Laws(c: Crypto) {
    && (forall k, n, p :: |n| == NONCE_SIZE ==>
         c.open(k, c.seal(k, n, p)) == Some(p) && |c.seal(k, n, p)| >= NONCE_SIZE)
    && (forall h :: c.decode(c.encode(h)) == Some(h) && (Safe(c.encode(h)) <==> BarFree(h)))
  }

  /** JSON writes bars as they are, quotes each text and ends in a brace: a header's encoding can be split off again
      exactly when none of its texts holds a separator. */
  predicate BarFree(h: Header) { NoSep(h.alg) && NoSep(h.meta) && NoSep(h.kekId) }

  /** A ciphertext that was cut short is not authentic, and a JSON object that was cut short is none. */
  ghost predicate DetectsCuts(c: Crypto) {
    && (forall k, n, p, i: nat :: |n| == NONCE_SIZE && i < |c.seal(k, n, p)| ==> c.open(k, c.seal(k, n, p)[..i]).None?)
    && (forall h, i: nat :: i < |c.encode(h)| ==> c.decode(c.encode(h)[..i]).None?)
  }

  /** A key service; wrapping may fail, and is randomised by its second argument. */
  datatype Kms = Kms(wrap: (Bytes, nat) -> Option<(Bytes, Bytes)>, unwrap: Bytes -> Option<Bytes>)

  ghost predicate KmsLaw(k: Kms) {
    forall d, r :: k.wrap(d, r).Some? ==> k.unwrap(k.wrap(d, r).value.0) == Some(d)
  }

  ghost predicate KmsDetectsCuts(k: Kms) {
    forall d, r, i: nat :: k.wrap(d, r).Some? && i < |k.wrap(d, r).value.0| ==>
      k.unwrap(k.wrap(d, r).value.0[..i]).None?
  }

  datatype Keys = Keys(masterKey: Option<Bytes>, kms: Option<Kms>)

  predicate ByKms(h: Header) { |h.kekId| >= 4 && h.kekId[..4] == "kms:" }

  predicate KeyLength(d: Bytes) { |d| == 16 || |d| == 24 || |d| == 32 }

  datatype Outcome = Value(plain: Bytes) | Missing | BadFormat | BadHeader | NoKey | KeyRefused | DataRefused | Panics

  datatype Unwrapped = Dek(dek: Bytes) | NoMasterKey | Refused | TooShort

  function LocalUnwrap(c: Crypto, keys: Keys, wrapped: Bytes): Unwrapped {
    if keys.masterKey.None? then NoMasterKey
    else if |wrapped| < NONCE_SIZE then TooShort
    else match c.open(keys.masterKey.value, wrapped)
      case Some(d) => Dek(d)
      case None => Refused
  }

  /** How Get recovers the file key. */
  function GetDek(c: Crypto, keys: Keys, h: Header, wrapped: Bytes): Unwrapped {
    if keys.kms.Some? && ByKms(h) then
      match keys.kms.value.unwrap(wrapped)
      case Some(d) => Dek(d)
      case None => Refused
    else LocalUnwrap(c, keys, wrapped)
  }

  /** How rotation recovers it: a refusal by the key service still leaves the local attempt. */
  function RotationDek(c: Crypto, keys: Keys, h: Header, wrapped: Bytes): Unwrapped {
    if keys.kms.Some? && ByKms(h) && keys.kms.value.unwrap(wrapped).Some?
    then Dek(keys.kms.value.unwrap(wrapped).value)
    else LocalUnwrap(c, keys, wrapped)
  }

  function OpenData(c: Crypto, dek: Bytes, ct: Bytes): Outcome {
    if !KeyLength(dek) || |ct| < NONCE_SIZE then Panics
    else match c.open(dek, ct)
      case Some(p) => Value(p)
      case None => DataRefused
  }

  function ReadFile(c: Crypto, keys: Keys, b: Bytes): Outcome {
    match Parse(b)
    case None => BadFormat
    case Some(parts) =>
      match c.decode(parts.header)
      case None => BadHeader
      case Some(h) =>
        match GetDek(c, keys, h, parts.wrapped)
        case NoMasterKey => NoKey
        case Refused => KeyRefused
        case TooShort => Panics
        case Dek(d) => OpenData(c, d, parts.ct)
  }

  function Get(c: Crypto, keys: Keys, files: map<FileKey, Bytes>, key: FileKey): Outcome {
    if key in files then ReadFile(c, keys, files[key]) else Missing
  }

  function HeaderOf(c: Crypto, b: Bytes): Option<Header> {
    match Parse(b)
    case None => None
    case Some(parts) => c.decode(parts.header)
  }

  // ---------- writing ----------

  /** The randomness of one Put. */
  datatype Draw = Draw(dek: Bytes, keyNonce: Bytes, dataNonce: Bytes, r: nat)

  predicate Sized(d: Draw) {
    |d.dek| == 32 && |d.keyNonce| == NONCE_SIZE && |d.dataNonce| == NONCE_SIZE
  }

  /** The wrapped key with its header fields, or nothing where Put returns an error. */
  function WrapDek(c: Crypto, keys: Keys, d: Draw): Option<(Bytes, Bytes, string)> {
    if keys.kms.Some? then
      match keys.kms.value.wrap(d.dek, d.r)
      case Some(w) => Some((w.0, w.1, "kms:default"))
      case None => None
    else if keys.masterKey.Some? then Some((c.seal(keys.masterKey.value, d.keyNonce, d.dek), "", "local"))
    else None
  }

  function PutHeader(meta: Bytes, kekId: string): Header {
    Header(1, "AES-GCM", NONCE_SIZE, meta, kekId)
  }

  function NewFile(c: Crypto, keys: Keys, d: Draw, plain: Bytes): Option<Bytes> {
    match WrapDek(c, keys, d)
    case None => None
    case Some(w) => Some(Frame(c.encode(PutHeader(w.1, w.2)), w.0, c.seal(d.dek, d.dataNonce, plain)))
  }

  ghost predicate KmsLaws(keys: Keys) { keys.kms.Some? ==> KmsLaw(keys.kms.value) }

  /** Every cut of a header, a wrapped key or a ciphertext is noticed. */
  ghost predicate CutsNoticed(c: Crypto, keys: Keys) {
    DetectsCuts(c) && (keys.kms.Some? ==> KmsDetectsCuts(keys.kms.value))
  }

  /** w is a wrapping of the file key of the kind that the header names. */
  ghost predicate Wraps(c: Crypto, keys: Keys, h: Header, w: Bytes, dek: Bytes) {
    if keys.kms.Some? && ByKms(h) then
      exists r :: keys.kms.value.wrap(dek, r).Some? && keys.kms.value.wrap(dek, r).value.0 == w
    else
      keys.masterKey.Some? && exists n :: |n| == NONCE_SIZE && c.seal(keys.masterKey.value, n, dek) == w
  }

  lemma WrappedKeyIsFound(c: Crypto, keys: Keys, h: Header, w: Bytes, dek: Bytes)
    requires Laws(c) && KmsLaws(keys) && Wraps(c, keys, h, w, dek)
    ensures GetDek(c, keys, h, w) == Dek(dek)
    ensures CutsNoticed(c, keys) ==> forall i: nat :: i < |w| ==> !GetDek(c, keys, h, w[..i]).Dek?
  {
  }

  lemma FramedHeader(c: Crypto, h: Header, w: Bytes, ct: Bytes)
    requires Laws(c) && BarFree(h) && Safe(w)
    ensures Parse(Frame(c.encode(h), w, ct)) == Some(Parts(c.encode(h), w, Head(ct)))
    ensures HeaderOf(c, Frame(c.encode(h), w, ct)) == Some(h)
  {
    ParseCuts(c.encode(h), w, ct);
  }

  lemma CutHeaderIsRefused(c: Crypto, keys: Keys, h: Header, rest: Bytes)
    requires DetectsCuts(c) && !Safe(c.encode(h))
    ensures !ReadFile(c, keys, c.encode(h) + "||" + rest).Value?
  {
    CutField(c.encode(h), rest);
  }

  lemma CutKeyIsRefused(c: Crypto, keys: Keys, h: Header, w: Bytes, ct: Bytes)
    requires Laws(c) && Safe(c.encode(h)) && !Safe(w)
    requires forall i: nat :: i < |w| ==> !GetDek(c, keys, h, w[..i]).Dek?
    ensures !ReadFile(c, keys, c.encode(h) + "||" + (w + "||" + ct)).Value?
  {
    SplitAfter(c.encode(h), w + "||" + ct);
    CutField(w, ct);
  }

  /** A written file opens with its key and its ciphertext up to a separator, if header and wrapped key are free of
      separators; otherwise nothing is read. */
  lemma FrameIsRead(c: Crypto, keys: Keys, h: Header, w: Bytes, ct: Bytes, dek: Bytes)
    requires Laws(c) && KmsLaws(keys) && Wraps(c, keys, h, w, dek)
    ensures BarFree(h) && Safe(w) ==> ReadFile(c, keys, Frame(c.encode(h), w, ct)) == OpenData(c, dek, Head(ct))
    ensures CutsNoticed(c, keys) && !(BarFree(h) && Safe(w)) ==>
              !ReadFile(c, keys, Frame(c.encode(h), w, ct)).Value?
  {
    WrappedKeyIsFound(c, keys, h, w, dek);
    if BarFree(h) && Safe(w) {
      FramedHeader(c, h, w, ct);
    } else if CutsNoticed(c, keys) {
      assert Frame(c.encode(h), w, ct) == c.encode(h) + "||" + (w + "||" + ct);
      if BarFree(h) {
        CutKeyIsRefused(c, keys, h, w, ct);
      } else {
        CutHeaderIsRefused(c, keys, h, w + "||" + ct);
      }
    }
  }

  /** The file a Put writes can be split again. */
  predicate PutSafe(c: Crypto, keys: Keys, d: Draw, plain: Bytes) {
    match WrapDek(c, keys, d)
    case None => true
    case Some(w) => NoSep(w.1) && Safe(w.0) && NoSep(c.seal(d.dek, d.dataNonce, plain))
  }

  lemma OwnTexts()
    ensures NoSep("AES-GCM") && NoSep("kms:default") && NoSep("local") && NoSep("")
  {
  }

  /** What was put is read back exactly when the framing is safe; otherwise nothing is read, never other data. */
  lemma PutThenGet(c: Crypto, keys: Keys, d: Draw, plain: Bytes)
    requires Laws(c) && KmsLaws(keys) && Sized(d) && NewFile(c, keys, d, plain).Some?
    ensures PutSafe(c, keys, d, plain) ==> ReadFile(c, keys, NewFile(c, keys, d, plain).value) == Value(plain)
    ensures CutsNoticed(c, keys) ==>
              (ReadFile(c, keys, NewFile(c, keys, d, plain).value).Value? <==> PutSafe(c, keys, d, plain))
  {
    var w := WrapDek(c, keys, d).value;
    var h, ct := PutHeader(w.1, w.2), c.seal(d.dek, d.dataNonce, plain);
    OwnTexts();
    assert Wraps(c, keys, h, w.0, d.dek);
    FrameIsRead(c, keys, h, w.0, ct, d.dek);
    HeadIsAll(ct);
    assert c.open(d.dek, ct) == Some(plain);
    if !NoSep(ct) {
      CutLast(ct);
    }
  }

  // ---------- rotation ----------

  /** The new contents of one file, or nothing where rotation stops with an error. */
  function Rewrapped(c: Crypto, keys: Keys, b: Bytes, r: nat): Option<Bytes>
    requires keys.kms.Some?
  {
    match Parse(b)
    case None => None
    case Some(parts) =>
      match c.decode(parts.header)
      case None => None
      case Some(h) =>
        match RotationDek(c, keys, h, parts.wrapped)
        case NoMasterKey => None
        case Refused => None
        case TooShort => None
        case Dek(d) =>
          match keys.kms.value.wrap(d, r)
          case None => None
          case Some(w) => Some(Frame(c.encode(RotatedHeader(h, w.1)), w.0, parts.ct))
  }

  function RotatedHeader(h: Header, meta: Bytes): Header { h.(meta := meta, kekId := "kms:default") }

  /** The rewrap of a file can be split again. */
  predicate RewrapSafe(c: Crypto, keys: Keys, b: Bytes, r: nat)
    requires keys.kms.Some? && Rewrapped(c, keys, b, r).Some?
  {
    var parts := Parse(b).value;
    var h := c.decode(parts.header).value;
    var w := keys.kms.value.wrap(RotationDek(c, keys, h, parts.wrapped).dek, r).value;
    NoSep(h.alg) && NoSep(w.1) && Safe(w.0)
  }

  /** Rotation finds every key that Get finds. It finds more exactly where the key service refuses a file marked as
      its own that the local key opens. */
  lemma RotationFindsKey(c: Crypto, keys: Keys, h: Header, wrapped: Bytes)
    ensures GetDek(c, keys, h, wrapped).Dek? ==> RotationDek(c, keys, h, wrapped) == GetDek(c, keys, h, wrapped)
    ensures RotationDek(c, keys, h, wrapped).Dek? && !GetDek(c, keys, h, wrapped).Dek?
        <==> keys.kms.Some? && ByKms(h) && keys.kms.value.unwrap(wrapped).None? && LocalUnwrap(c, keys, wrapped).Dek?
  {
  }

  /** A readable file reads the same after its rewrap exactly when the rewrap is safe; otherwise nothing is read. */
  lemma RewrapKeepsContents(c: Crypto, keys: Keys, b: Bytes, r: nat, plain: Bytes)
    requires Laws(c) && keys.kms.Some? && KmsLaw(keys.kms.value)
    requires ReadFile(c, keys, b) == Value(plain) && Rewrapped(c, keys, b, r).Some?
    ensures RewrapSafe(c, keys, b, r) ==> ReadFile(c, keys, Rewrapped(c, keys, b, r).value) == Value(plain)
    ensures CutsNoticed(c, keys) ==>
              (ReadFile(c, keys, Rewrapped(c, keys, b, r).value).Value? <==> RewrapSafe(c, keys, b, r))
  {
    var parts := Parse(b).value;
    var h := c.decode(parts.header).value;
    RotationFindsKey(c, keys, h, parts.wrapped);
    var d := GetDek(c, keys, h, parts.wrapped).dek;
    var w := keys.kms.value.wrap(d, r).value;
    OwnTexts();
    assert Wraps(c, keys, RotatedHeader(h, w.1), w.0, d);
    FrameIsRead(c, keys, RotatedHeader(h, w.1), w.0, parts.ct, d);
    ParsedIsClean(b);
    HeadIsAll(parts.ct);
  }

  /** A readable file is never the one at which rotation stops, unless wrapping itself fails. */
  lemma ReadableIsRewrapped(c: Crypto, keys: Keys, b: Bytes, r: nat)
    requires keys.kms.Some? && ReadFile(c, keys, b).Value?
    requires forall d :: keys.kms.value.wrap(d, r).Some?
    ensures Rewrapped(c, keys, b, r).Some?
  {
    var parts := Parse(b).value;
    RotationFindsKey(c, keys, c.decode(parts.header).value, parts.wrapped);
  }

  /** Whatever stood after a separator inside the ciphertext is gone once the file is rewrapped: the new file is
      that of the cut ciphertext. */
  lemma RewrapDropsTail(c: Crypto, keys: Keys, h: Bytes, w: Bytes, ct: Bytes, r: nat)
    requires keys.kms.Some? && Safe(h) && Safe(w)
    ensures Rewrapped(c, keys, Frame(h, w, ct), r) == Rewrapped(c, keys, Frame(h, w, Head(ct)), r)
    ensures Head(ct) == ct <==> NoSep(ct)
  {
    ParseCuts(h, w, ct);
    ParseCuts(h, w, Head(ct));
    HeadIsClean(ct);
    HeadIsAll(Head(ct));
    HeadIsAll(ct);
  }

  /** A wrapped key shorter than a nonce, on a locally wrapped file: Get panics where rotation returns an error. */
  lemma ShortKeyPanics(c: Crypto, keys: Keys, b: Bytes, r: nat)
    requires keys.kms.Some? && keys.masterKey.Some? && Parse(b).Some? && c.decode(Parse(b).value.header).Some?
    requires !ByKms(c.decode(Parse(b).value.header).value) && |Parse(b).value.wrapped| < NONCE_SIZE
    ensures ReadFile(c, keys, b) == Panics && Rewrapped(c, keys, b, r) == None
  {
  }

  /** One file of the walk; reading or writing it may also fail. */
  function RewrapOne(c: Crypto, keys: Keys, files: map<FileKey, Bytes>, name: FileKey, io: bool, r: nat):
    (map<FileKey, Bytes>, bool)
    requires keys.kms.Some?
  {
    if name !in files || !io then (files, false)
    else match Rewrapped(c, keys, files[name], r)
      case None => (files, false)
      case Some(b) => (files[name := b], true)
  }

  /** The walk over the files in name order, stopping at the first error. */
  function Walk(c: Crypto, keys: Keys, files: map<FileKey, Bytes>, names: seq<FileKey>, io: nat -> bool,
                draw: nat -> nat):
    (map<FileKey, Bytes>, bool)
    requires keys.kms.Some?
  {
    if names == [] then (files, true)
    else
      var i := |names| - 1;
      var (done, ok) := Walk(c, keys, files, names[..i], io, draw);
      if ok then RewrapOne(c, keys, done, names[i], io(i), draw(i)) else (done, false)
  }

  /** One file's rewrap, if it happens, is safe for the key. */
  predicate SafeOne(c: Crypto, keys: Keys, files: map<FileKey, Bytes>, name: FileKey, io: bool, r: nat, key: FileKey)
    requires keys.kms.Some?
  {
    name == key && RewrapOne(c, keys, files, name, io, r).1 ==> RewrapSafe(c, keys, files[name], r)
  }

  lemma OneKeepsReads(c: Crypto, keys: Keys, files: map<FileKey, Bytes>, name: FileKey, io: bool, r: nat, key: FileKey)
    requires Laws(c) && keys.kms.Some? && KmsLaw(keys.kms.value) && Get(c, keys, files, key).Value?
    ensures SafeOne(c, keys, files, name, io, r, key) ==>
              Get(c, keys, RewrapOne(c, keys, files, name, io, r).0, key) == Get(c, keys, files, key)
    ensures CutsNoticed(c, keys) ==>
              (Get(c, keys, RewrapOne(c, keys, files, name, io, r).0, key).Value?
               <==> SafeOne(c, keys, files, name, io, r, key))
  {
    if name == key && RewrapOne(c, keys, files, name, io, r).1 {
      RewrapKeepsContents(c, keys, files[key], r, Get(c, keys, files, key).plain);
    }
  }

  /** Every rewrap of the named file in a walk is safe. */
  predicate SafeFor(c: Crypto, keys: Keys, files: map<FileKey, Bytes>, names: seq<FileKey>, io: nat -> bool,
                    draw: nat -> nat, key: FileKey)
    requires keys.kms.Some?
  {
    names == [] ||
    var i := |names| - 1;
    var (done, ok) := Walk(c, keys, files, names[..i], io, draw);
    && SafeFor(c, keys, files, names[..i], io, draw, key)
    && (ok ==> SafeOne(c, keys, done, names[i], io(i), draw(i), key))
  }

  predicate Distinct(names: seq<FileKey>) {
    forall i, j :: 0 <= i < j < |names| ==> names[i] != names[j]
  }

  /** After any part of a rotation, completed or aborted, a key that could be read still reads the same if its rewrap
      was safe. As a walk meets each file once, a file whose rewrap was not safe is lost. */
  lemma {:induction false} RotationKeepsReads(c: Crypto, keys: Keys, files: map<FileKey, Bytes>, names: seq<FileKey>,
                                              io: nat -> bool, draw: nat -> nat, key: FileKey)
    requires Laws(c) && keys.kms.Some? && KmsLaw(keys.kms.value) && Get(c, keys, files, key).Value?
    ensures SafeFor(c, keys, files, names, io, draw, key) ==>
              Get(c, keys, Walk(c, keys, files, names, io, draw).0, key) == Get(c, keys, files, key)
    ensures CutsNoticed(c, keys) && Distinct(names) ==>
              (Get(c, keys, Walk(c, keys, files, names, io, draw).0, key).Value?
               <==> SafeFor(c, keys, files, names, io, draw, key))
  {
    if names != [] {
      var i := |names| - 1;
      RotationKeepsReads(c, keys, files, names[..i], io, draw, key);
      var (done, ok) := Walk(c, keys, files, names[..i], io, draw);
      if Get(c, keys, done, key).Value? {
        OneKeepsReads(c, keys, done, names[i], io(i), draw(i), key);
      } else if Distinct(names) && ok && names[i] == key {
        assert key !in names[..i];
        WalkKeepsOthers(c, keys, files, names[..i], io, draw, key);
      }
    }
  }

  lemma {:induction false} WalkKeepsOthers(c: Crypto, keys: Keys, files: map<FileKey, Bytes>, names: seq<FileKey>,
                                           io: nat -> bool, draw: nat -> nat, key: FileKey)
    requires keys.kms.Some? && key !in names
    ensures var done := Walk(c, keys, files, names, io, draw).0;
            done.Keys == files.Keys && (key in files ==> done[key] == files[key])
            && SafeFor(c, keys, files, names, io, draw, key)
  {
    if names != [] {
      var i := |names| - 1;
      assert names[i] in names;
      WalkKeepsOthers(c, keys, files, names[..i], io, draw, key);
    }
  }

  predicate UnderKms(c: Crypto, b: Bytes) { HeaderOf(c, b).Some? && ByKms(HeaderOf(c, b).value) }

  /** A safe rewrap can be split again, and only the key's fields of its header are new. */
  lemma RewrapHeader(c: Crypto, keys: Keys, b: Bytes, r: nat)
    requires Laws(c) && keys.kms.Some? && Rewrapped(c, keys, b, r).Some? && RewrapSafe(c, keys, b, r)
    ensures HeaderOf(c, b).Some? && UnderKms(c, Rewrapped(c, keys, b, r).value)
    ensures HeaderOf(c, Rewrapped(c, keys, b, r).value).value.alg == HeaderOf(c, b).value.alg
  {
    var parts := Parse(b).value;
    var h := c.decode(parts.header).value;
    var w := keys.kms.value.wrap(RotationDek(c, keys, h, parts.wrapped).dek, r).value;
    OwnTexts();
    FramedHeader(c, RotatedHeader(h, w.1), w.0, parts.ct);
  }

  /** A completed rotation leaves every walked file whose rewrap was safe under the key service, and no other file
      changed. */
  lemma {:induction false} RotationReaches(c: Crypto, keys: Keys, files: map<FileKey, Bytes>, names: seq<FileKey>,
                                           io: nat -> bool, draw: nat -> nat, key: FileKey)
    requires Laws(c) && keys.kms.Some? && Walk(c, keys, files, names, io, draw).1
    ensures var done := Walk(c, keys, files, names, io, draw).0;
            && done.Keys == files.Keys
            && (key !in names && key in files ==> done[key] == files[key])
            && (key in names && SafeFor(c, keys, files, names, io, draw, key) ==>
                  key in done && UnderKms(c, done[key]))
  {
    if names != [] {
      var i := |names| - 1;
      RotationReaches(c, keys, files, names[..i], io, draw, key);
      var done := Walk(c, keys, files, names[..i], io, draw).0;
      assert key in names <==> key in names[..i] || key == names[i];
      if names[i] == key && SafeFor(c, keys, files, names, io, draw, key) {
        RewrapHeader(c, keys, done[key], draw(i));
      }
    }
  }

  // ---------- runs of a store ----------

  /** A put, the key service being set, or a rotation that may stop anywhere. */
  datatype Event =
    | PutFile(key: FileKey, plain: Bytes, draw: Draw)
    | UseKms
    | Rotate(names: seq<FileKey>, io: nat -> bool, draws: nat -> nat)

  /** `last` is history: the contents each key was last put with. */
  datatype Store = Store(keys: Keys, files: map<FileKey, Bytes>, last: map<FileKey, Bytes>)

  function After(c: Crypto, k: Kms, s: Store, e: Event): Store {
    match e
    case PutFile(key, plain, d) =>
      (match NewFile(c, s.keys, d, plain)
       case None => s
       case Some(b) => s.(files := s.files[key := b], last := s.last[key := plain]))
    case UseKms => s.(keys := s.keys.(kms := Some(k)))
    case Rotate(names, io, draws) =>
      if s.keys.kms.None? then s else s.(files := Walk(c, s.keys, s.files, names, io, draws).0)
  }

  /** The store after the events, from an empty one with at most a master key. */
  function RunStore(c: Crypto, master: Option<Bytes>, k: Kms, events: seq<Event>): Store {
    if events == [] then Store(Keys(master, None), map[], map[])
    else After(c, k, RunStore(c, master, k, events[..|events| - 1]), events[|events| - 1])
  }

  /** What an event writes for a key can be split again. */
  predicate SafeEvent(c: Crypto, s: Store, e: Event, key: FileKey) {
    match e
    case PutFile(x, plain, d) => x == key ==> Sized(d) && PutSafe(c, s.keys, d, plain)
    case UseKms => true
    case Rotate(names, io, draws) => s.keys.kms.Some? ==> SafeFor(c, s.keys, s.files, names, io, draws, key)
  }

  predicate SafeRun(c: Crypto, master: Option<Bytes>, k: Kms, events: seq<Event>, key: FileKey) {
    events == [] ||
    var before := events[..|events| - 1];
    SafeRun(c, master, k, before, key) && SafeEvent(c, RunStore(c, master, k, before), events[|events| - 1], key)
  }

  /** Every put of the key could be split again. */
  predicate SafePuts(c: Crypto, master: Option<Bytes>, k: Kms, events: seq<Event>, key: FileKey) {
    events == [] ||
    var before, e := events[..|events| - 1], events[|events| - 1];
    && SafePuts(c, master, k, before, key)
    && (e.PutFile? ==> SafeEvent(c, RunStore(c, master, k, before), e, key))
  }

  /** A file as Put and rotation write it: the algorithm is Put's, and before a key service is set none is named. */
  predicate OwnFile(c: Crypto, keys: Keys, b: Bytes) {
    && HeaderOf(c, b).Some? && HeaderOf(c, b).value.alg == "AES-GCM"
    && (keys.kms.None? ==> !ByKms(HeaderOf(c, b).value))
  }

  ghost predicate KeyOk(c: Crypto, s: Store, key: FileKey) {
    && s.files.Keys == s.last.Keys
    && (key in s.last ==> OwnFile(c, s.keys, s.files[key]) && Get(c, s.keys, s.files, key) == Value(s.last[key]))
  }

  /** Every wrapped key that this key service makes can be split off again. */
  ghost predicate WrapsSafely(k: Kms) {
    forall d, r :: k.wrap(d, r).Some? ==> Safe(k.wrap(d, r).value.0) && NoSep(k.wrap(d, r).value.1)
  }

  lemma OneOwnsFile(c: Crypto, keys: Keys, files: map<FileKey, Bytes>, name: FileKey, io: bool, r: nat, key: FileKey)
    requires Laws(c) && keys.kms.Some? && key in files && OwnFile(c, keys, files[key])
    requires WrapsSafely(keys.kms.value) || SafeOne(c, keys, files, name, io, r, key)
    ensures SafeOne(c, keys, files, name, io, r, key)
    ensures var done := RewrapOne(c, keys, files, name, io, r).0; key in done && OwnFile(c, keys, done[key])
  {
    if name == key && RewrapOne(c, keys, files, name, io, r).1 {
      OwnTexts();
      RewrapHeader(c, keys, files[key], r);
    }
  }

  /** A walk keeps the algorithm of a file it rewraps safely, so a key service that wraps safely makes all its rewraps
      safe. */
  lemma {:induction false} WalkOwnsFile(c: Crypto, keys: Keys, files: map<FileKey, Bytes>, names: seq<FileKey>,
                                        io: nat -> bool, draw: nat -> nat, key: FileKey)
    requires Laws(c) && keys.kms.Some? && key in files && OwnFile(c, keys, files[key])
    requires WrapsSafely(keys.kms.value) || SafeFor(c, keys, files, names, io, draw, key)
    ensures SafeFor(c, keys, files, names, io, draw, key)
    ensures var done := Walk(c, keys, files, names, io, draw).0; key in done && OwnFile(c, keys, done[key])
  {
    if names != [] {
      var i := |names| - 1;
      WalkOwnsFile(c, keys, files, names[..i], io, draw, key);
      var (done, ok) := Walk(c, keys, files, names[..i], io, draw);
      if ok {
        OneOwnsFile(c, keys, done, names[i], io(i), draw(i), key);
      }
    }
  }

  lemma NewFileIsOwn(c: Crypto, keys: Keys, d: Draw, plain: Bytes)
    requires Laws(c) && NewFile(c, keys, d, plain).Some? && PutSafe(c, keys, d, plain)
    ensures OwnFile(c, keys, NewFile(c, keys, d, plain).value)
  {
    var w := WrapDek(c, keys, d).value;
    var h := PutHeader(w.1, w.2);
    OwnTexts();
    FramedHeader(c, h, w.0, c.seal(d.dek, d.dataNonce, plain));
    assert "local"[..4][0] != "kms:"[0];
  }

  lemma {:induction false} WalkKeepsKeys(c: Crypto, keys: Keys, files: map<FileKey, Bytes>, names: seq<FileKey>,
                                         io: nat -> bool, draw: nat -> nat)
    requires keys.kms.Some?
    ensures Walk(c, keys, files, names, io, draw).0.Keys == files.Keys
  {
    if names != [] {
      WalkKeepsKeys(c, keys, files, names[..|names| - 1], io, draw);
    }
  }

  lemma PutKeeps(c: Crypto, k: Kms, s: Store, e: Event, key: FileKey)
    requires Laws(c) && KmsLaw(k) && (s.keys.kms == None || s.keys.kms == Some(k))
    requires e.PutFile? && KeyOk(c, s, key) && SafeEvent(c, s, e, key)
    ensures KeyOk(c, After(c, k, s, e), key)
  {
    if e.key == key && NewFile(c, s.keys, e.draw, e.plain).Some? {
      PutThenGet(c, s.keys, e.draw, e.plain);
      NewFileIsOwn(c, s.keys, e.draw, e.plain);
    }
  }

  /** Setting the key service hides no file: before, none was under one. */
  lemma UseKmsKeeps(c: Crypto, k: Kms, s: Store, key: FileKey)
    requires (s.keys.kms == None || s.keys.kms == Some(k)) && KeyOk(c, s, key)
    ensures KeyOk(c, After(c, k, s, UseKms), key)
  {
  }

  lemma RotateKeeps(c: Crypto, k: Kms, s: Store, e: Event, key: FileKey)
    requires Laws(c) && KmsLaw(k) && s.keys.kms == Some(k)
    requires e.Rotate? && KeyOk(c, s, key) && SafeEvent(c, s, e, key)
    ensures KeyOk(c, After(c, k, s, e), key)
  {
    WalkKeepsKeys(c, s.keys, s.files, e.names, e.io, e.draws);
    if key in s.files {
      RotationKeepsReads(c, s.keys, s.files, e.names, e.io, e.draws, key);
      WalkOwnsFile(c, s.keys, s.files, e.names, e.io, e.draws, key);
    }
  }

  lemma EventKeeps(c: Crypto, k: Kms, s: Store, e: Event, key: FileKey)
    requires Laws(c) && KmsLaw(k) && (s.keys.kms == None || s.keys.kms == Some(k))
    requires KeyOk(c, s, key) && SafeEvent(c, s, e, key)
    ensures KeyOk(c, After(c, k, s, e), key)
  {
    if e.PutFile? {
      PutKeeps(c, k, s, e, key);
    } else if e.UseKms? {
      UseKmsKeeps(c, k, s, key);
    } else if s.keys.kms.Some? {
      RotateKeeps(c, k, s, e, key);
    }
  }

  /** Over every run of puts and rotations, with the key service set at some time and rotations stopped anywhere, a key
      whose file was always written safely reads back what it was last put with. */
  lemma {:induction false} LastPutIsRead(c: Crypto, master: Option<Bytes>, k: Kms, events: seq<Event>, key: FileKey)
    requires Laws(c) && KmsLaw(k) && SafeRun(c, master, k, events, key)
    ensures var s := RunStore(c, master, k, events);
            && KeyOk(c, s, key) && (s.keys == Keys(master, None) || s.keys == Keys(master, Some(k)))
            && Get(c, s.keys, s.files, key) == if key in s.last then Value(s.last[key]) else Missing
  {
    if events != [] {
      var i := |events| - 1;
      LastPutIsRead(c, master, k, events[..i], key);
      EventKeeps(c, k, RunStore(c, master, k, events[..i]), events[i], key);
    }
  }

  /** With a key service that wraps safely, only puts can be unsafe. */
  lemma {:induction false} SafePutsAreEnough(c: Crypto, master: Option<Bytes>, k: Kms, events: seq<Event>, key: FileKey)
    requires Laws(c) && KmsLaw(k) && WrapsSafely(k) && SafePuts(c, master, k, events, key)
    ensures SafeRun(c, master, k, events, key)
  {
    if events != [] {
      var i := |events| - 1;
      SafePutsAreEnough(c, master, k, events[..i], key);
      LastPutIsRead(c, master, k, events[..i], key);
      RotationIsSafe(c, k, RunStore(c, master, k, events[..i]), events[i], key);
    }
  }

  lemma RotationIsSafe(c: Crypto, k: Kms, s: Store, e: Event, key: FileKey)
    requires Laws(c) && WrapsSafely(k) && KeyOk(c, s, key) && (s.keys.kms == None || s.keys.kms == Some(k))
    ensures e.PutFile? || SafeEvent(c, s, e, key)
  {
    if e.Rotate? && s.keys.kms.Some? {
      if key in s.files {
        WalkOwnsFile(c, s.keys, s.files, e.names, e.io, e.draws, key);
      } else {
        MissingIsSafe(c, s.keys, s.files, e.names, e.io, e.draws, key);
      }
    }
  }

  lemma {:induction false} MissingIsSafe(c: Crypto, keys: Keys, files: map<FileKey, Bytes>, names: seq<FileKey>,
                                         io: nat -> bool, draw: nat -> nat, key: FileKey)
    requires keys.kms.Some? && key !in files
    ensures SafeFor(c, keys, files, names, io, draw, key)
  {
    if names != [] {
      MissingIsSafe(c, keys, files, names[..|names| - 1], io, draw, key);
      WalkKeepsKeys(c, keys, files, names[..|names| - 1], io, draw);
    }
  }

  // ---------- the store ----------

  class SimpleEncryptedStore {
    const c: Crypto
    var files: map<FileKey, Bytes>
    const masterKey: Option<Bytes>
    var kms: Option<Kms>

    constructor (crypto: Crypto, master: Option<Bytes>)
      ensures c == crypto && masterKey == master && files == map[] && kms == None
    {
      c, masterKey := crypto, master;
      files, kms := map[], None;
    }

    function Held(): Keys
      reads `kms
    {
      Keys(masterKey, kms)
    }

    method SetKMS(k: Kms)
      modifies `kms
      ensures kms == Some(k)
    {
      kms := Some(k);
    }

    /** Overwrites a key buffer once it is no longer needed. */
    static method Zero(b: array<char>)
      modifies b
      ensures forall i :: 0 <= i < b.Length ==> b[i] == '\0'
    {
      for i := 0 to b.Length
        invariant forall k :: 0 <= k < i ==> b[k] == '\0'
      {
        b[i] := '\0';
      }
    }

    method Put(key: FileKey, plain: Bytes, draw: Draw) returns (ok: bool)
      modifies `files
      ensures ok <==> NewFile(c, Held(), draw, plain).Some?
      ensures ok <==> if kms.Some? then kms.value.wrap(draw.dek, draw.r).Some? else masterKey.Some?
      ensures files == if ok then old(files)[key := NewFile(c, Held(), draw, plain).value] else old(files)
    {
      var wrapped, meta, kekId := "", "", "";
      match kms {
        case Some(k) =>
          var w := k.wrap(draw.dek, draw.r);
          kekId := "kms:default";
          if w.None? {
            return false;
          }
          wrapped, meta := w.value.0, w.value.1;
        case None =>
          if masterKey.None? {
            return false;
          }
          wrapped, kekId := c.seal(masterKey.value, draw.keyNonce, draw.dek), "local";
      }
      var ciphertext := c.seal(draw.dek, draw.dataNonce, plain);
      var out := c.encode(Header(1, "AES-GCM", NONCE_SIZE, meta, kekId));
      out := out + "||";
      out := out + wrapped;
      out := out + "||";
      out := out + ciphertext;
      files := files[key := out];
      return true;
    }

    /** Rewraps the walked files one by one until one fails. */
    method RewrapAllFiles(names: seq<FileKey>, io: nat -> bool, draw: nat -> nat) returns (ok: bool)
      modifies `files
      ensures kms.None? ==> !ok && files == old(files)
      ensures kms.Some? ==> (files, ok) == Walk(c, Held(), old(files), names, io, draw)
    {
      if kms.None? {
        return false;
      }
      for i := 0 to |names|
        invariant (files, true) == Walk(c, Held(), old(files), names[..i], io, draw)
      {
        assert names[..i + 1][..i] == names[..i];
        if names[i] !in files || !io(i) {
          WalkStopped(c, Held(), old(files), names, io, draw, i + 1);
          return false;
        }
        var b := Rewrapped(c, Held(), files[names[i]], draw(i));
        if b.None? {
          WalkStopped(c, Held(), old(files), names, io, draw, i + 1);
          return false;
        }
        files := files[names[i] := b.value];
      }
      assert names[..|names|] == names;
      return true;
    }
  }

  lemma {:induction false} WalkStopped(c: Crypto, keys: Keys, files: map<FileKey, Bytes>, names: seq<FileKey>,
                                       io: nat -> bool, draw: nat -> nat, n: nat)
    requires keys.kms.Some? && n <= |names| && !Walk(c, keys, files, names[..n], io, draw).1
    ensures Walk(c, keys, files, names, io, draw) == Walk(c, keys, files, names[..n], io, draw)
  {
    if n == |names| {
      assert names[..n] == names;
    } else {
      assert names[..|names| - 1][..n] == names[..n];
      WalkStopped(c, keys, files, names[..|names| - 1], io, draw, n);
    }
  }
}
