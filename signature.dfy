/** Cartridge trust verification: the trusted-key store (a QMap from a public key
    to its label and official flag, persisted as an array of settings records),
    the size guards in front of Ed25519 verification, and the ordered chain of
    checks that turns a cartridge into a trust level. */
module Signature {
  import opened Primitives
  import opened Text

  datatype TrustLevel = Official | Verified | Unverified | Homebrew | Invalid

  datatype TrustedKey = TrustedKey(publicKey: Bytes, keyLabel: string, isOfficial: bool)

  /** One element of the persisted "trustedKeys" settings array; the key is
      stored base64-encoded. */
  datatype KeyRecord = KeyRecord(publicKeyBase64: Bytes, keyLabel: string, isOfficial: bool)

  // ---------------------------------------------------------------------------
  // QByteArray ordering, which fixes the iteration order of the QMap

  /** QByteArray's operator<: unsigned bytewise comparison, a proper prefix
      ordering first. */
  predicate ByteLess(a: Bytes, b: Bytes) {
    if a == [] then b != []
    else if b == [] then false
    else a[0] < b[0] || (a[0] == b[0] && ByteLess(a[1..], b[1..]))
  }

  lemma {:induction false} ByteLessIrreflexive(a: Bytes)
    ensures !ByteLess(a, a)
  {
    if a != [] { ByteLessIrreflexive(a[1..]); }
  }

  lemma {:induction false} ByteLessTransitive(a: Bytes, b: Bytes, c: Bytes)
    requires ByteLess(a, b) && ByteLess(b, c)
    ensures ByteLess(a, c)
  {
    if a != [] && a[0] == b[0] && b[0] == c[0] {
      ByteLessTransitive(a[1..], b[1..], c[1..]);
    }
  }

  lemma {:induction false} ByteLessTotal(a: Bytes, b: Bytes)
    requires a != b
    ensures ByteLess(a, b) != ByteLess(b, a)
  {
    if a != [] && b != [] && a[0] == b[0] {
      assert a == [a[0]] + a[1..] && b == [b[0]] + b[1..];
      ByteLessTotal(a[1..], b[1..]);
    }
  }

  // ---------------------------------------------------------------------------
  // The store: a QMap<QByteArray, TrustedKey>, i.e. entries in ascending key order

  predicate Sorted(s: seq<TrustedKey>) {
    forall i, j :: 0 <= i < j < |s| ==> ByteLess(s[i].publicKey, s[j].publicKey)
  }

  /** The store invariant: ordered by key, and every key is an Ed25519 public
      key of 32 bytes. */
  predicate StoreValid(s: seq<TrustedKey>) {
    Sorted(s) && forall i :: 0 <= i < |s| ==> |s[i].publicKey| == 32
  }

  /** QMap::value / QMap::contains: the entry stored under `k`, if any. */
  function Lookup(s: seq<TrustedKey>, k: Bytes): (r: Option<TrustedKey>)
    ensures r.Some? ==> r.value in s && r.value.publicKey == k
    ensures r.None? <==> forall i :: 0 <= i < |s| ==> s[i].publicKey != k
  {
    if s == [] then None
    else if s[0].publicKey == k then Some(s[0])
    else Lookup(s[1..], k)
  }

  /** In an ordered store a key is held at most once, so lookup finds the very
      entry that carries it. */
  lemma {:induction false} LookupFinds(s: seq<TrustedKey>, i: nat)
    requires Sorted(s) && i < |s|
    ensures Lookup(s, s[i].publicKey) == Some(s[i])
  {
    if i > 0 {
      if s[0].publicKey == s[i].publicKey {
        ByteLessIrreflexive(s[0].publicKey);
        assert false;
      }
      LookupFinds(s[1..], i - 1);
    }
  }

  /** `m[e.publicKey] = e`: insert, or overwrite the entry with the same key. */
  function Put(s: seq<TrustedKey>, e: TrustedKey): (r: seq<TrustedKey>)
    ensures Lookup(r, e.publicKey) == Some(e)
    ensures forall k :: k != e.publicKey ==> Lookup(r, k) == Lookup(s, k)
    ensures forall x :: x in r ==> x == e || x in s
  {
    if s == [] then [e]
    else if s[0].publicKey == e.publicKey then [e] + s[1..]
    else if ByteLess(e.publicKey, s[0].publicKey) then [e] + s
    else [s[0]] + Put(s[1..], e)
  }

  /** The entries after the first all have greater keys. */
  lemma HeadBelowTail(s: seq<TrustedKey>)
    requires Sorted(s) && s != []
    ensures Sorted(s[1..])
    ensures forall x :: x in s[1..] ==> ByteLess(s[0].publicKey, x.publicKey)
  {
    forall x | x in s[1..] ensures ByteLess(s[0].publicKey, x.publicKey) {
      var k :| 0 <= k < |s[1..]| && s[1..][k] == x;
      assert s[k + 1] == x;
    }
  }

  /** An entry below every entry of a sorted store can go in front. */
  lemma ConsSorted(h: TrustedKey, t: seq<TrustedKey>)
    requires Sorted(t)
    requires forall x :: x in t ==> ByteLess(h.publicKey, x.publicKey)
    ensures Sorted([h] + t)
  {
    var r := [h] + t;
    forall i, j | 0 <= i < j < |r| ensures ByteLess(r[i].publicKey, r[j].publicKey) {
      assert r[j] == t[j - 1];
      if i > 0 {
        assert r[i] == t[i - 1];
      } else {
        assert t[j - 1] in t;
      }
    }
  }

  lemma {:induction false} PutSorted(s: seq<TrustedKey>, e: TrustedKey)
    requires Sorted(s)
    ensures Sorted(Put(s, e))
  {
    if s == [] {
    } else if s[0].publicKey == e.publicKey {
      HeadBelowTail(s);
      ConsSorted(e, s[1..]);
    } else if ByteLess(e.publicKey, s[0].publicKey) {
      HeadBelowTail(s);
      forall x | x in s ensures ByteLess(e.publicKey, x.publicKey) {
        if x != s[0] {
          assert x in s[1..] by {
            assert s == [s[0]] + s[1..];
          }
          ByteLessTransitive(e.publicKey, s[0].publicKey, x.publicKey);
        }
      }
      ConsSorted(e, s);
    } else {
      HeadBelowTail(s);
      PutSorted(s[1..], e);
      ByteLessTotal(s[0].publicKey, e.publicKey);
      ConsSorted(s[0], Put(s[1..], e));
    }
  }

  /** A key above every stored key goes to the end. */
  lemma {:induction false} PutGreatest(s: seq<TrustedKey>, e: TrustedKey)
    requires forall i :: 0 <= i < |s| ==> ByteLess(s[i].publicKey, e.publicKey)
    ensures Put(s, e) == s + [e]
  {
    if s != [] {
      var t := s[1..];
      forall i | 0 <= i < |t| ensures ByteLess(t[i].publicKey, e.publicKey) {
        assert t[i] == s[i + 1];
      }
      ByteLessIrreflexive(e.publicKey);
      assert s[0].publicKey != e.publicKey;
      ByteLessTotal(s[0].publicKey, e.publicKey);
      assert Put(s, e) == [s[0]] + Put(t, e);
      PutGreatest(t, e);
      assert [s[0]] + (t + [e]) == s + [e];
    }
  }

  /** QMap::remove: the entry under `k` is dropped, nothing else changes. */
  function Delete(s: seq<TrustedKey>, k: Bytes): (r: seq<TrustedKey>)
    ensures forall j :: j != k ==> Lookup(r, j) == Lookup(s, j)
    ensures Lookup(s, k).None? ==> r == s
    ensures Lookup(s, k).Some? ==> |r| == |s| - 1
    ensures forall x :: x in r ==> x in s
  {
    if s == [] then []
    else if s[0].publicKey == k then s[1..]
    else [s[0]] + Delete(s[1..], k)
  }

  lemma {:induction false} DeleteSorted(s: seq<TrustedKey>, k: Bytes)
    requires Sorted(s)
    ensures Sorted(Delete(s, k))
    ensures Lookup(Delete(s, k), k).None?
  {
    if s == [] {
    } else if s[0].publicKey == k {
      HeadBelowTail(s);
      var r := s[1..];
      forall i | 0 <= i < |r| ensures r[i].publicKey != k {
        assert r[i] in s[1..];
        ByteLessIrreflexive(k);
      }
    } else {
      HeadBelowTail(s);
      var t := Delete(s[1..], k);
      DeleteSorted(s[1..], k);
      ConsSorted(s[0], t);
      var r := [s[0]] + t;
      assert Delete(s, k) == r;
      forall i | 0 <= i < |r| ensures r[i].publicKey != k {
        if i > 0 {
          assert r[i] == t[i - 1];
        }
      }
    }
  }

  /** Trust level of the key as the store holds it. */
  function LevelOf(s: seq<TrustedKey>, k: Bytes): TrustLevel {
    match Lookup(s, k)
    case None => Unverified
    case Some(e) => if e.isOfficial then Official else Verified
  }

  /** getKeyTrustLevel in terms of the store's entries: Unverified exactly when
      no entry carries the key, Official exactly when the entry carrying it is
      flagged official, and Verified otherwise. */
  lemma LevelOfEntries(s: seq<TrustedKey>, k: Bytes)
    requires Sorted(s)
    ensures LevelOf(s, k) == Unverified <==> forall i :: 0 <= i < |s| ==> s[i].publicKey != k
    ensures LevelOf(s, k) == Official <==>
      exists i :: 0 <= i < |s| && s[i].publicKey == k && s[i].isOfficial
    ensures LevelOf(s, k) == Verified <==>
      exists i :: 0 <= i < |s| && s[i].publicKey == k && !s[i].isOfficial
  {
    forall i | 0 <= i < |s| && s[i].publicKey == k ensures Lookup(s, k) == Some(s[i]) {
      LookupFinds(s, i);
    }
  }

  // ---------------------------------------------------------------------------
  // Persistence

  function Record(suite: Suite, e: TrustedKey): KeyRecord {
    KeyRecord(suite.toBase64(e.publicKey), e.keyLabel, e.isOfficial)
  }

  /** What saveTrustedKeys writes: one record per entry, in key order. */
  function Saved(suite: Suite, s: seq<TrustedKey>): (r: seq<KeyRecord>)
    ensures |r| == |s|
    ensures forall i :: 0 <= i < |s| ==> r[i] == Record(suite, s[i])
  {
    seq(|s|, i requires 0 <= i < |s| => Record(suite, s[i]))
  }

  /** One step of loadTrustedKeys: the record is decoded and kept only when the
      decoded key is 32 bytes. */
  function Admit(suite: Suite, s: seq<TrustedKey>, rec: KeyRecord): seq<TrustedKey> {
    var key := suite.fromBase64(rec.publicKeyBase64);
    if |key| == 32 then Put(s, TrustedKey(key, rec.keyLabel, rec.isOfficial)) else s
  }

  /** What loadTrustedKeys builds from the records, read in order into an
      empty store. */
  function Loaded(suite: Suite, records: seq<KeyRecord>): seq<TrustedKey> {
    if records == [] then []
    else Admit(suite, Loaded(suite, records[..|records| - 1]), records[|records| - 1])
  }

  /** Whatever the settings hold, the loaded store satisfies the invariant. */
  lemma {:induction false} LoadedValid(suite: Suite, records: seq<KeyRecord>)
    ensures StoreValid(Loaded(suite, records))
  {
    if records != [] {
      var prev := Loaded(suite, records[..|records| - 1]);
      LoadedValid(suite, records[..|records| - 1]);
      var rec := records[|records| - 1];
      var key := suite.fromBase64(rec.publicKeyBase64);
      if |key| == 32 {
        var e := TrustedKey(key, rec.keyLabel, rec.isOfficial);
        PutSorted(prev, e);
        var r := Put(prev, e);
        forall i | 0 <= i < |r| ensures |r[i].publicKey| == 32 {
          assert r[i] in r;
          if r[i] != e { var m :| 0 <= m < |prev| && prev[m] == r[i]; }
        }
      }
    }
  }

  /** Saving a valid store and loading it back gives the same store. */
  lemma {:induction false} SaveLoadRoundTrip(suite: Suite, s: seq<TrustedKey>)
    requires Sound(suite) && StoreValid(s)
    ensures Loaded(suite, Saved(suite, s)) == s
  {
    if s != [] {
      var n := |s| - 1;
      var recs := Saved(suite, s);
      assert recs[..n] == Saved(suite, s[..n]);
      SaveLoadRoundTrip(suite, s[..n]);
      assert suite.fromBase64(suite.toBase64(s[n].publicKey)) == s[n].publicKey;
      PutGreatest(s[..n], s[n]);
      assert s[..n] + [s[n]] == s;
    }
  }

  // ---------------------------------------------------------------------------
  // Pure steps of verification

  /** verifySignature: false, without consulting Ed25519, when the library is
      unavailable, the signature is not 64 bytes or the key is not 32 bytes;
      otherwise the library's verdict. */
  function VerifySignature(suite: Suite, cryptoAvailable: bool, message: Bytes,
                           signature: Bytes, publicKey: Bytes): (ok: bool)
    ensures ok ==> cryptoAvailable && |signature| == 64 && |publicKey| == 32
    ensures cryptoAvailable && |signature| == 64 && |publicKey| == 32 ==>
      ok == suite.ed25519Verify(signature, message, publicKey)
  {
    if !cryptoAvailable then false
    else if |signature| != 64 || |publicKey| != 32 then false
    else suite.ed25519Verify(signature, message, publicKey)
  }

  /** extractSignature / extractPublicKey: the base64 decoding of the named
      string field of the manifest object, or empty on a parse error or a
      missing field. */
  function ExtractField(suite: Suite, manifest: Bytes, field: string): (r: Bytes)
    ensures suite.parseJson(manifest) == ParseError ==> r == []
  {
    match suite.parseJson(manifest)
    case ParseError => []
    case NonObjectDoc => []
    case ObjectDoc(fields) =>
      if field !in fields then []
      else
        var text := match fields[field] case JString(t) => t case JNonString => "";
        suite.fromBase64(suite.utf8(text))
  }

  function ExtractSignature(suite: Suite, manifest: Bytes): Bytes {
    ExtractField(suite, manifest, "signature")
  }

  function ExtractPublicKey(suite: Suite, manifest: Bytes): Bytes {
    ExtractField(suite, manifest, "publicKey")
  }

  /** A manifest that carries `b` base64-encoded under `field` yields `b` back. */
  lemma ExtractRoundTrip(suite: Suite, manifest: Bytes, field: string, text: string, b: Bytes)
    requires Sound(suite)
    requires suite.parseJson(manifest).ObjectDoc?
    requires field in suite.parseJson(manifest).fields
    requires suite.parseJson(manifest).fields[field] == JString(text)
    requires suite.utf8(text) == suite.toBase64(b)
    ensures ExtractField(suite, manifest, field) == b
  {
  }

  /** A manifest that lacks the field, or is not a JSON object, yields nothing. */
  lemma ExtractAbsent(suite: Suite, manifest: Bytes, field: string)
    requires Sound(suite)
    requires !suite.parseJson(manifest).ObjectDoc? || field !in suite.parseJson(manifest).fields
    ensures ExtractField(suite, manifest, field) == []
  {
  }

  /** A field that is present but not a string converts to "" and so also
      yields nothing. */
  lemma ExtractNonString(suite: Suite, manifest: Bytes, field: string)
    requires Sound(suite)
    requires suite.parseJson(manifest).ObjectDoc?
    requires field in suite.parseJson(manifest).fields
    requires suite.parseJson(manifest).fields[field] == JNonString
    ensures ExtractField(suite, manifest, field) == []
  {
    DecodeEmpty(suite);
  }

  /** computeCartridgeHash: SHA-256 of the manifest followed by the file's bytes;
      empty when the manifest is empty or the file cannot be opened. */
  function CartridgeHash(suite: Suite, manifest: Bytes, contents: Option<Bytes>): (h: Bytes)
    ensures manifest == [] || contents.None? ==> h == []
  {
    if manifest == [] then []
    else match contents
      case None => []
      case Some(data) => suite.sha256(manifest + data)
  }

  /** Under a sound suite the hash is empty exactly when one of its inputs is
      missing, and otherwise it is the digest of the manifest first, then the
      file. */
  lemma CartridgeHashShape(suite: Suite, manifest: Bytes, contents: Option<Bytes>)
    requires Sound(suite)
    ensures CartridgeHash(suite, manifest, contents) == [] <==> manifest == [] || contents.None?
    ensures manifest != [] && contents.Some? ==>
      CartridgeHash(suite, manifest, contents) == suite.sha256(manifest + contents.value)
  {
    if manifest != [] && contents.Some? {
      assert |suite.sha256(manifest + contents.value)| == 32;
    }
  }

  // ---------------------------------------------------------------------------
  // The cartridge as verifyCartridge sees it

  /** `fileExists` is QFile::exists; `manifest` is what the manifest reader returns;
      `contents` is the file's bytes, or None when it cannot be opened. */
  datatype Cartridge = Cartridge(fileExists: bool, manifest: Bytes, contents: Option<Bytes>)

  /** The signal emitted alongside the result. */
  datatype Signal = CartridgeVerified(level: TrustLevel) | VerificationFailed(reason: string)

  datatype Verdict = Verdict(level: TrustLevel, signal: Signal)

  /** The checks of verifyCartridge in order, each with whether it fires and
      what it then returns; the last always fires. */
  function Checks(suite: Suite, cryptoAvailable: bool, store: seq<TrustedKey>, c: Cartridge)
    : seq<(bool, Verdict)>
  {
    var sig := ExtractSignature(suite, c.manifest);
    var key := ExtractPublicKey(suite, c.manifest);
    var hash := CartridgeHash(suite, c.manifest, c.contents);
    [ (!c.fileExists, Verdict(Invalid, VerificationFailed("Cartridge file does not exist"))),
      (c.manifest == [], Verdict(Invalid, VerificationFailed("Failed to read manifest"))),
      (sig == [] || key == [], Verdict(Homebrew, CartridgeVerified(Homebrew))),
      (hash == [], Verdict(Invalid, VerificationFailed("Failed to compute cartridge hash"))),
      (!cryptoAvailable,
        Verdict(Unverified, VerificationFailed("Signature verification library not available"))),
      (!VerifySignature(suite, cryptoAvailable, hash, sig, key),
        Verdict(Invalid, VerificationFailed("Invalid signature"))),
      (true, Verdict(LevelOf(store, key), CartridgeVerified(LevelOf(store, key)))) ]
  }

  /** The verdict of the first check that fires. */
  function FirstFiring(checks: seq<(bool, Verdict)>): Verdict
    requires checks != [] && checks[|checks| - 1].0
  {
    if checks[0].0 then checks[0].1 else FirstFiring(checks[1..])
  }

  lemma {:induction false} FirstFiringAt(checks: seq<(bool, Verdict)>, i: nat)
    requires checks != [] && checks[|checks| - 1].0
    requires i < |checks| && checks[i].0 && forall j :: 0 <= j < i ==> !checks[j].0
    ensures FirstFiring(checks) == checks[i].1
  {
    if i > 0 { FirstFiringAt(checks[1..], i - 1); }
  }

  class SignatureService {
    const suite: Suite
    /** Whether libsodium initialised. */
    const cryptoAvailable: bool
    /** m_trustedKeys */
    var trustedKeys: seq<TrustedKey>
    /** The persisted "trustedKeys" settings array. */
    var settings: seq<KeyRecord>

    ghost predicate Valid()
      reads this
    {
      StoreValid(trustedKeys)
    }

    /** Construction with a settings store loads the keys it holds. */
    constructor (suite: Suite, cryptoAvailable: bool, settings: seq<KeyRecord>)
      ensures Valid()
      ensures this.suite == suite && this.cryptoAvailable == cryptoAvailable
      ensures this.settings == settings
      ensures trustedKeys == Loaded(suite, settings)
    {
      this.suite := suite;
      this.cryptoAvailable := cryptoAvailable;
      this.settings := settings;
      trustedKeys := [];
      new;
      LoadTrustedKeys();
    }

    /** loadTrustedKeys: clear the store, then admit each record in order. */
    method LoadTrustedKeys()
      modifies this`trustedKeys
      ensures trustedKeys == Loaded(suite, settings)
      ensures Valid()
    {
      var store: seq<TrustedKey> := [];
      var i := 0;
      while i < |settings|
        invariant 0 <= i <= |settings|
        invariant store == Loaded(suite, settings[..i])
      {
        var rec := settings[i];
        var key := suite.fromBase64(rec.publicKeyBase64);
        if |key| == 32 {
          store := Put(store, TrustedKey(key, rec.keyLabel, rec.isOfficial));
        }
        assert settings[..i + 1][..i] == settings[..i];
        i := i + 1;
      }
      assert settings[..i] == settings;
      trustedKeys := store;
      LoadedValid(suite, settings);
    }

    /** saveTrustedKeys: rewrite the settings array from the store, in key order. */
    method SaveTrustedKeys()
      modifies this`settings
      ensures settings == Saved(suite, trustedKeys)
    {
      var out: seq<KeyRecord> := [];
      var i := 0;
      while i < |trustedKeys|
        invariant 0 <= i <= |trustedKeys|
        invariant out == Saved(suite, trustedKeys[..i])
      {
        out := out + [Record(suite, trustedKeys[i])];
        i := i + 1;
      }
      assert trustedKeys[..i] == trustedKeys;
      settings := out;
    }

    /** addTrustedKey: a key that is not 32 bytes is refused and nothing changes;
        otherwise its entry is inserted or overwritten and the store saved. */
    method AddTrustedKey(publicKey: Bytes, keyLabel: string, isOfficial: bool)
      requires Valid()
      modifies this
      ensures Valid()
      ensures |publicKey| != 32 ==>
        trustedKeys == old(trustedKeys) && settings == old(settings)
      ensures |publicKey| == 32 ==>
        trustedKeys == Put(old(trustedKeys), TrustedKey(publicKey, keyLabel, isOfficial))
        && settings == Saved(suite, trustedKeys)
    {
      if |publicKey| != 32 {
        return;
      }
      var e := TrustedKey(publicKey, keyLabel, isOfficial);
      PutSorted(trustedKeys, e);
      ghost var r := Put(trustedKeys, e);
      forall i | 0 <= i < |r| ensures |r[i].publicKey| == 32 {
        assert r[i] in r;
        if r[i] != e { var m :| 0 <= m < |trustedKeys| && trustedKeys[m] == r[i]; }
      }
      trustedKeys := Put(trustedKeys, e);
      SaveTrustedKeys();
    }

    /** removeTrustedKey: drops the key's entry; the settings are rewritten only
        when an entry was actually removed. */
    method RemoveTrustedKey(publicKey: Bytes)
      requires Valid()
      modifies this
      ensures Valid()
      ensures trustedKeys == Delete(old(trustedKeys), publicKey)
      ensures Lookup(trustedKeys, publicKey).None?
      ensures Lookup(old(trustedKeys), publicKey).None? ==>
        trustedKeys == old(trustedKeys) && settings == old(settings)
      ensures Lookup(old(trustedKeys), publicKey).Some? ==> settings == Saved(suite, trustedKeys)
    {
      var removed := Lookup(trustedKeys, publicKey).Some?;
      DeleteSorted(trustedKeys, publicKey);
      ghost var r := Delete(trustedKeys, publicKey);
      forall i | 0 <= i < |r| ensures |r[i].publicKey| == 32 {
        assert r[i] in r;
        var m :| 0 <= m < |trustedKeys| && trustedKeys[m] == r[i];
      }
      trustedKeys := Delete(trustedKeys, publicKey);
      if removed {
        SaveTrustedKeys();
      }
    }

    /** getKeyTrustLevel */
    function GetKeyTrustLevel(publicKey: Bytes): (level: TrustLevel)
      reads this
      requires Valid()
      ensures level == Unverified <==>
        forall i :: 0 <= i < |trustedKeys| ==> trustedKeys[i].publicKey != publicKey
      ensures level == Official <==>
        exists i :: 0 <= i < |trustedKeys| && trustedKeys[i].publicKey == publicKey
          && trustedKeys[i].isOfficial
      ensures level == Verified <==>
        exists i :: 0 <= i < |trustedKeys| && trustedKeys[i].publicKey == publicKey
          && !trustedKeys[i].isOfficial
    {
      LevelOfEntries(trustedKeys, publicKey);
      LevelOf(trustedKeys, publicKey)
    }

    /** verifyCartridge: the chain of checks, first match wins. */
    function VerifyCartridge(c: Cartridge): (v: Verdict)
      reads this
      ensures v.signal.CartridgeVerified? ==> v.signal.level == v.level
      ensures v.signal.VerificationFailed? ==> v.level in {Invalid, Unverified}
      ensures v.level in {Official, Verified, Homebrew} ==> v.signal.CartridgeVerified?
    {
      if !c.fileExists then
        Verdict(Invalid, VerificationFailed("Cartridge file does not exist"))
      else if c.manifest == [] then
        Verdict(Invalid, VerificationFailed("Failed to read manifest"))
      else
        var signature := ExtractSignature(suite, c.manifest);
        var publicKey := ExtractPublicKey(suite, c.manifest);
        if signature == [] || publicKey == [] then
          Verdict(Homebrew, CartridgeVerified(Homebrew))
        else
          var message := CartridgeHash(suite, c.manifest, c.contents);
          if message == [] then
            Verdict(Invalid, VerificationFailed("Failed to compute cartridge hash"))
          else if !cryptoAvailable then
            Verdict(Unverified, VerificationFailed("Signature verification library not available"))
          else if !VerifySignature(suite, cryptoAvailable, message, signature, publicKey) then
            Verdict(Invalid, VerificationFailed("Invalid signature"))
          else
            var level := LevelOf(trustedKeys, publicKey);
            Verdict(level, CartridgeVerified(level))
    }
  }

  /** verifyCartridge returns the verdict of the first of its checks that fires. */
  lemma VerifyCartridgeFirstFiring(svc: SignatureService, c: Cartridge)
    ensures svc.VerifyCartridge(c) == FirstFiring(Checks(svc.suite, svc.cryptoAvailable, svc.trustedKeys, c))
  {
    var checks := Checks(svc.suite, svc.cryptoAvailable, svc.trustedKeys, c);
    var i := if checks[0].0 then 0 else if checks[1].0 then 1 else if checks[2].0 then 2
      else if checks[3].0 then 3 else if checks[4].0 then 4 else if checks[5].0 then 5 else 6;
    FirstFiringAt(checks, i);
  }

  /** A cartridge is reported Official or Verified only when it carries a
      signature that Ed25519 accepts over the cartridge hash, under a key the
      store holds with that flag. */
  lemma TrustedOnlyIfVerified(svc: SignatureService, c: Cartridge)
    requires svc.Valid()
    ensures svc.VerifyCartridge(c).level in {Official, Verified} ==>
      var key := ExtractPublicKey(svc.suite, c.manifest);
      var hash := CartridgeHash(svc.suite, c.manifest, c.contents);
      svc.cryptoAvailable && c.fileExists
      && svc.suite.ed25519Verify(ExtractSignature(svc.suite, c.manifest), hash, key)
      && (exists i :: 0 <= i < |svc.trustedKeys| && svc.trustedKeys[i].publicKey == key
            && svc.trustedKeys[i].isOfficial == (svc.VerifyCartridge(c).level == Official))
  {
    var key := ExtractPublicKey(svc.suite, c.manifest);
    LevelOfEntries(svc.trustedKeys, key);
  }

  /** An unsigned cartridge that exists and has a manifest is Homebrew, never
      Invalid, whatever the file's bytes and the library's state. */
  lemma UnsignedIsHomebrew(svc: SignatureService, c: Cartridge)
    requires c.fileExists && c.manifest != []
    requires ExtractSignature(svc.suite, c.manifest) == [] || ExtractPublicKey(svc.suite, c.manifest) == []
    ensures svc.VerifyCartridge(c) == Verdict(Homebrew, CartridgeVerified(Homebrew))
  {
  }

  /** With the manifest reader as shipped, which always returns an empty
      manifest, every cartridge is Invalid. */
  lemma StubReaderMakesInvalid(svc: SignatureService, fileExists: bool, contents: Option<Bytes>)
    ensures svc.VerifyCartridge(Cartridge(fileExists, [], contents)).level == Invalid
  {
  }

  /** Without the library, a signed cartridge with a hash is Unverified. */
  lemma NoCryptoIsUnverified(svc: SignatureService, c: Cartridge)
    requires Sound(svc.suite) && !svc.cryptoAvailable
    requires c.fileExists && c.manifest != [] && c.contents.Some?
    requires ExtractSignature(svc.suite, c.manifest) != [] && ExtractPublicKey(svc.suite, c.manifest) != []
    ensures svc.VerifyCartridge(c).level == Unverified
  {
    CartridgeHashShape(svc.suite, c.manifest, c.contents);
  }

  /** A key added as official is then reported Official, and one added as not
      official Verified; adding leaves every other key's level alone. */
  lemma LevelAfterPut(s: seq<TrustedKey>, e: TrustedKey, k: Bytes)
    ensures LevelOf(Put(s, e), e.publicKey) == (if e.isOfficial then Official else Verified)
    ensures k != e.publicKey ==> LevelOf(Put(s, e), k) == LevelOf(s, k)
  {
  }

  /** A removed key is reported Unverified; removal leaves every other key's
      level alone. */
  lemma LevelAfterDelete(s: seq<TrustedKey>, k: Bytes, j: Bytes)
    requires Sorted(s)
    ensures LevelOf(Delete(s, k), k) == Unverified
    ensures j != k ==> LevelOf(Delete(s, k), j) == LevelOf(s, j)
  {
    DeleteSorted(s, k);
  }
}
