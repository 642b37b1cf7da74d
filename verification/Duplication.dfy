/** Duplicate, Rewrap and Import: how a sensitive area travels between parents
  (Part 1 section 20.3.2). */
module Duplication {
  import opened Prelude
  import opened Marshal

  const MAX_DIGEST_SIZE := 64
  const MAX_SYM_KEY_BYTES := 64
  const MAX_SENSITIVE_SIZE := 2 + (2 + 64) + (2 + 64) + (2 + 256 * 5)
  const MAX_PRIVATE_SIZE := (2 + MAX_DIGEST_SIZE) + 2 + MAX_SENSITIVE_SIZE

  const ALG_NULL := 0x10

  datatype Symmetric = Symmetric(algorithm: uint16, keyBits: uint16) {
    function KeyBytes(): nat {
      keyBits / 8
    }
  }

  /** A storage parent, as far as protecting a child goes. `seedValue` protects its
    own children; a seed sealed to it only it can open. */
  datatype Parent = Parent(
    id: nat, nameAlg: uint16, symmetric: Option<Symmetric>, isStorage: bool, hasSensitive: bool, seedValue: Bytes)

  /** The same key, seen by one who may hold its public area only. */
  predicate SameKey(p: Parent, q: Parent) {
    p == q.(hasSensitive := p.hasSensitive, seedValue := p.seedValue)
  }

  datatype Public = Public(
    nameAlg: uint16, name: Bytes,
    fixedTpm: bool, fixedParent: bool, firmwareLimited: bool, svnLimited: bool, encryptedDuplication: bool)

  /** The cryptography, as functions. */
  datatype Crypto = Crypto(
    digestSize: uint16 -> Option<nat>,
    digest: (uint16, Bytes) -> Bytes,
    hmac: (uint16, Bytes, Bytes) -> Bytes,
    storageKey: (uint16, Bytes, Bytes, nat) -> Bytes,
    integrityKey: (uint16, Bytes) -> Bytes,
    blockSize: uint16 -> Result<nat>,
    encrypt: (Bytes, Bytes, Bytes) -> Result<Bytes>,
    decrypt: (Bytes, Bytes, Bytes) -> Result<Bytes>,
    weakKey: (uint16, Bytes) -> bool,
    seal: (Parent, Bytes) -> Result<(Bytes, Bytes)>,
    open: (Parent, Bytes) -> Result<Bytes>,
    validPublic: Public -> Result<()>,
    binds: (Public, Bytes) -> Result<()>,
    readSensitive: Bytes -> Option<Bytes>)

  /** Digests and HMACs have the size of their hash, decryption undoes encryption
    and keeps the length, and what is sealed to a parent that parent opens. */
  ghost predicate Lawful(c: Crypto) {
    && (forall alg :: c.digestSize(alg).Some? ==> c.digestSize(alg).value <= MAX_DIGEST_SIZE)
    && (forall alg, data :: c.digestSize(alg).Some? ==> |c.digest(alg, data)| == c.digestSize(alg).value)
    && (forall alg, key, data :: c.digestSize(alg).Some? ==> |c.hmac(alg, key, data)| == c.digestSize(alg).value)
    && (forall key, iv, data :: c.encrypt(key, iv, data).Ok? ==>
          && |c.encrypt(key, iv, data).value| == |data|
          && c.decrypt(key, iv, c.encrypt(key, iv, data).value) == Ok(data))
    && (forall p, random :: c.seal(p, random).Ok? ==> c.seal(p, random).value.1 != [])
    && (forall p: Parent, q: Parent, random :: c.seal(p, random).Ok? && q.hasSensitive && SameKey(p, q) ==>
          c.open(q, c.seal(p, random).value.1) == Ok(c.seal(p, random).value.0))
  }

  function DigestOf(c: Crypto, alg: uint16, data: Bytes): Result<Bytes> {
    if c.digestSize(alg).None? then Fail(RC_HASH) else Ok(c.digest(alg, data))
  }

  function HmacOf(c: Crypto, alg: uint16, key: Bytes, data: Bytes): Result<Bytes> {
    if c.digestSize(alg).None? then Fail(RC_HASH) else Ok(c.hmac(alg, key, data))
  }

  // ---- The inner wrap ----

  function InnerWrap(c: Crypto, nameAlg: uint16, symmetric: Symmetric, key: Bytes, name: Bytes, body: Bytes): Result<Bytes> {
    var digest :- DigestOf(c, nameAlg, body + name);
    var block :- c.blockSize(symmetric.algorithm);
    c.encrypt(key, Filled(0, block), Field(digest) + body)
  }

  function InnerUnwrap(c: Crypto, nameAlg: uint16, symmetric: Symmetric, key: Bytes, name: Bytes, data: Bytes): Result<Bytes> {
    var block :- c.blockSize(symmetric.algorithm);
    var plain :- c.decrypt(key, Filled(0, block), data);
    match ReadSized(plain, 0xFFFF)
    case Refused(_) => Fail(RC_INTEGRITY)
    case Got(digest, body) =>
      var expected :- DigestOf(c, nameAlg, body + name);
      if digest == expected then Ok(body) else Fail(RC_INTEGRITY)
  }

  // ---- The outer wrap ----

  function OuterIntegrity(c: Crypto, nameAlg: uint16, seed: Bytes, encrypted: Bytes, name: Bytes): Result<Bytes> {
    HmacOf(c, nameAlg, c.integrityKey(nameAlg, seed), encrypted + name)
  }

  /** TPM2B_DIGEST(outerHMAC) in front of the encrypted body. */
  function OuterWrap(c: Crypto, nameAlg: uint16, seed: Bytes, symmetric: Symmetric, name: Bytes, body: Bytes): Result<Bytes> {
    var _ :- if symmetric.algorithm == ALG_NULL then Fail(RC_SYMMETRIC) else Ok(());
    var block :- c.blockSize(symmetric.algorithm);
    var encrypted :- c.encrypt(c.storageKey(nameAlg, seed, name, symmetric.keyBits), Filled(0, block), body);
    var integrity :- OuterIntegrity(c, nameAlg, seed, encrypted, name);
    if |integrity| > MAX_DIGEST_SIZE then Fail(RC_SIZE) else Ok(Field(integrity) + encrypted)
  }

  function OuterUnwrap(c: Crypto, nameAlg: uint16, seed: Bytes, symmetric: Symmetric, name: Bytes, blob: Bytes): Result<Bytes> {
    match ReadSized(blob, MAX_DIGEST_SIZE)
    case Refused(_) => Fail(RC_INTEGRITY)
    case Got(integrity, encrypted) =>
      if encrypted == [] then Fail(RC_INTEGRITY)
      else
        var expected :- OuterIntegrity(c, nameAlg, seed, encrypted, name);
        if integrity != expected then Fail(RC_INTEGRITY)
        else if symmetric.algorithm == ALG_NULL then Fail(RC_SYMMETRIC)
        else
          var block :- c.blockSize(symmetric.algorithm);
          c.decrypt(c.storageKey(nameAlg, seed, name, symmetric.keyBits), Filled(0, block), encrypted)
  }

  /** The TPMT_SENSITIVE inside a TPM2B_SENSITIVE that is nothing else. */
  function SensitiveFromBody(body: Bytes): Result<Bytes> {
    match ReadSized(body, 0xFFFF)
    case Refused(_) => Fail(RC_SENSITIVE)
    case Got(sensitive, rest) => if rest == [] then Ok(sensitive) else Fail(RC_SENSITIVE)
  }

  /** What unwrapping a private area under its own parent gives. */
  function UnwrapPrivate(c: Crypto, parent: Parent, name: Bytes, private: Bytes): Result<Bytes> {
    if parent.symmetric.None? then Fail(RC_SYMMETRIC)
    else
      var plain :- OuterUnwrap(c, parent.nameAlg, parent.seedValue, parent.symmetric.value, name, private);
      match ReadSized(plain, 0xFFFF) case Refused(_) => Fail(RC_SENSITIVE) case Got(sensitive, _) => Ok(sensitive)
  }

  // ---- The commands ----

  /** A duplicate on its way, and the secret that carries its seed. */
  datatype Wrapped = Wrapped(blob: Bytes, secret: Bytes)

  function AtHandle<T>(r: Result<T>, n: nat): Result<T> {
    match r case Ok(v) => Ok(v) case Err(e) => Err(e.WithHandle(n))
  }

  function AtParameter<T>(r: Result<T>, n: nat): Result<T> {
    match r case Ok(v) => Ok(v) case Err(e) => Err(e.WithParameter(n))
  }

  /** The outer wrap for a new parent, or none for TPM_RH_NULL. */
  function WrappedFor(c: Crypto, parent: Option<Parent>, random: Bytes, name: Bytes, body: Bytes): Result<Wrapped> {
    if parent.None? then Ok(Wrapped(body, []))
    else if parent.value.symmetric.None? then Err(TpmRc(RC_TYPE, Nowhere).WithHandle(2))
    else
      var sealed :- AtHandle(c.seal(parent.value, random), 2);
      var blob :- OuterWrap(c, parent.value.nameAlg, sealed.0, parent.value.symmetric.value, name, body);
      Ok(Wrapped(blob, sealed.1))
  }

  /** A response carries a TPM2B_PRIVATE. */
  function Sent(w: Wrapped): Result<Wrapped> {
    if |w.blob| > MAX_PRIVATE_SIZE then Fail(RC_SIZE) else Ok(w)
  }

  datatype Duplicated = Duplicated(encryptionKeyOut: Bytes, wrapped: Wrapped)

  /** The key of the inner wrap: the caller's, or one drawn and handed back. */
  function InnerKey(symmetric: Symmetric, keyIn: Bytes, drawn: Bytes): Result<(Bytes, Bytes)> {
    if keyIn == [] then Ok((drawn, drawn))
    else if |keyIn| != symmetric.KeyBytes() then Err(TpmRc(RC_SIZE, Nowhere).WithParameter(1))
    else Ok((keyIn, []))
  }

  /** Phase one: the TPM2B_SENSITIVE, under the inner wrap if one was asked for. */
  function PhaseOne(c: Crypto, public: Public, sensitive: Bytes, symmetric: Option<Symmetric>, keyIn: Bytes, drawn: Bytes): Result<(Bytes, Bytes)> {
    if |sensitive| >= 0x1_0000 then Fail(RC_SIZE)
    else if symmetric.None? then Ok((Field(sensitive), []))
    else
      var key :- InnerKey(symmetric.value, keyIn, drawn);
      var body :- InnerWrap(c, public.nameAlg, symmetric.value, key.0, public.name, Field(sensitive));
      Ok((body, key.1))
  }

  function Duplicate(c: Crypto, public: Public, sensitive: Option<Bytes>, newParent: Option<Parent>,
                     symmetric: Option<Symmetric>, keyIn: Bytes, drawn: Bytes, random: Bytes): Result<Duplicated>
  {
    if public.fixedParent then Err(TpmRc(RC_ATTRIBUTES, Nowhere).WithHandle(1))
    else if sensitive.None? then Err(TpmRc(RC_HANDLE, Nowhere).WithHandle(1))
    else if public.encryptedDuplication && symmetric.None? then Err(TpmRc(RC_SYMMETRIC, Nowhere).WithParameter(2))
    else if public.encryptedDuplication && newParent.None? then Err(TpmRc(RC_HIERARCHY, Nowhere).WithHandle(2))
    else
      var phase :- PhaseOne(c, public, sensitive.value, symmetric, keyIn, drawn);
      if newParent.Some? && !newParent.value.isStorage then Err(TpmRc(RC_TYPE, Nowhere).WithHandle(2))
      else
        var wrapped :- WrappedFor(c, newParent, random, public.name, phase.0);
        if |phase.1| > MAX_SYM_KEY_BYTES then Fail(RC_SIZE)
        else
          var sent :- Sent(wrapped);
          Ok(Duplicated(phase.1, sent))
  }

  /** What the old parent's outer wrap held. */
  function Unwrapped(c: Crypto, parent: Option<Parent>, name: Bytes, w: Wrapped, secretAt: nat): Result<Bytes> {
    if parent.None? then Ok(w.blob)
    else if parent.value.symmetric.None? then Err(TpmRc(RC_TYPE, Nowhere).WithHandle(1))
    else
      var seed :- AtParameter(if parent.value.hasSensitive then c.open(parent.value, w.secret) else Fail(RC_HANDLE), secretAt);
      OuterUnwrap(c, parent.value.nameAlg, seed, parent.value.symmetric.value, name, w.blob)
  }

  /** A Name is absent, a handle, or a hash algorithm with a digest of its size. */
  predicate WellFormedName(c: Crypto, name: Bytes) {
    || |name| == 0
    || |name| == 4
    || (|name| >= 2 && c.digestSize(FromBe16(name[..2])) == Some(|name| - 2))
  }

  function Rewrap(c: Crypto, oldParent: Option<Parent>, newParent: Option<Parent>, w: Wrapped, name: Bytes, random: Bytes): Result<Wrapped> {
    if !WellFormedName(c, name) then Err(TpmRc(RC_SIZE, Nowhere).WithParameter(2))
    else
      var body :- Unwrapped(c, oldParent, name, w, 3);
      var wrapped :- WrappedFor(c, newParent, random, name, body);
      Sent(wrapped)
  }

  /** The checks on a symmetric key that undoes an inner wrap. */
  function InnerKeyAnswer(c: Crypto, symmetric: Symmetric, key: Bytes): Result<()> {
    if |key| != symmetric.KeyBytes() then Err(TpmRc(RC_SIZE, Nowhere).WithParameter(1))
    else if c.weakKey(symmetric.algorithm, key) then Err(TpmRc(RC_KEY, Nowhere).WithParameter(1))
    else Ok(())
  }

  function ImportAnswer(c: Crypto, public: Public, key: Bytes, secret: Bytes): Result<()> {
    var _ :- AtParameter(c.validPublic(public), 2);
    if public.fixedTpm || public.fixedParent || public.firmwareLimited || public.svnLimited then
      Err(TpmRc(RC_ATTRIBUTES, Nowhere).WithParameter(2))
    else if public.encryptedDuplication && secret == [] then Err(TpmRc(RC_ATTRIBUTES, Nowhere).WithParameter(4))
    else if public.encryptedDuplication && key == [] then Err(TpmRc(RC_ATTRIBUTES, Nowhere).WithParameter(1))
    else Ok(())
  }

  /** The TPM2B_SENSITIVE that phase one worked on. */
  function PhaseOneUndone(c: Crypto, public: Public, symmetric: Option<Symmetric>, key: Bytes, body: Bytes): Result<Bytes> {
    if symmetric.None? then Ok(body)
    else
      var _ :- InnerKeyAnswer(c, symmetric.value, key);
      InnerUnwrap(c, public.nameAlg, symmetric.value, key, public.name, body)
  }

  /** The sensitive area a duplicate holds, once every wrap is off it. */
  function Recovered(c: Crypto, parent: Parent, key: Bytes, public: Public, w: Wrapped, symmetric: Option<Symmetric>): Result<Bytes> {
    if !parent.isStorage || parent.symmetric.None? then Err(TpmRc(RC_TYPE, Nowhere).WithHandle(1))
    else
      var _ :- ImportAnswer(c, public, key, w.secret);
      var body :- if w.secret == [] then Ok(w.blob) else Unwrapped(c, Some(parent), public.name, w, 4);
      var plain :- PhaseOneUndone(c, public, symmetric, key, body);
      var octets :- SensitiveFromBody(plain);
      match c.readSensitive(octets)
      case None => Fail(RC_SENSITIVE)
      case Some(sensitive) =>
        var _ :- AtParameter(c.binds(public, sensitive), 3);
        Ok(sensitive)
  }

  /** The private area a child of `parent` is stored in. */
  function WrapPrivate(c: Crypto, parent: Parent, name: Bytes, sensitive: Bytes): Result<Bytes> {
    if parent.symmetric.None? || |sensitive| >= 0x1_0000 then Fail(RC_SIZE)
    else
      var private :- OuterWrap(c, parent.nameAlg, parent.seedValue, parent.symmetric.value, name, Field(sensitive));
      if |private| > MAX_PRIVATE_SIZE then Fail(RC_SIZE) else Ok(private)
  }

  function Import(c: Crypto, parent: Parent, key: Bytes, public: Public, w: Wrapped, symmetric: Option<Symmetric>): Result<Bytes> {
    var sensitive :- Recovered(c, parent, key, public, w, symmetric);
    WrapPrivate(c, parent, public.name, sensitive)
  }

  /** The import as it runs, taking one wrap off after another. */
  method RunImport(c: Crypto, parent: Parent, key: Bytes, public: Public, w: Wrapped, symmetric: Option<Symmetric>)
    returns (r: Result<Bytes>)
    ensures r == Import(c, parent, key, public, w, symmetric)
  {
    if !parent.isStorage || parent.symmetric.None? {
      return Err(TpmRc(RC_TYPE, Nowhere).WithHandle(1));
    }
    var _ :- ImportAnswer(c, public, key, w.secret);
    var body := w.blob;
    if w.secret != [] {
      body :- Unwrapped(c, Some(parent), public.name, w, 4);
    }
    if symmetric.Some? {
      var _ :- InnerKeyAnswer(c, symmetric.value, key);
      body :- InnerUnwrap(c, public.nameAlg, symmetric.value, key, public.name, body);
    }
    body :- SensitiveFromBody(body);
    var sensitive := c.readSensitive(body);
    if sensitive.None? {
      return Fail(RC_SENSITIVE);
    }
    var _ :- AtParameter(c.binds(public, sensitive.value), 3);
    return WrapPrivate(c, parent, public.name, sensitive.value);
  }

  // ---- Each wrap comes off again ----

  lemma FieldReads(body: Bytes, max: nat, rest: Bytes)
    requires |body| <= max < 0x1_0000
    ensures ReadSized(Field(body) + rest, max) == Got(body, rest)
  {
    ReadSizedExact(Field(body) + rest, max, body, rest);
  }

  /** Undoing the inner wrap under any Name and hash: it gives the body back exactly
    when the integrity digest of that Name is the one that went in. */
  lemma InnerUnwrapExact(c: Crypto, nameAlg: uint16, name: Bytes, otherAlg: uint16, other: Bytes,
                         symmetric: Symmetric, key: Bytes, body: Bytes)
    requires Lawful(c) && InnerWrap(c, nameAlg, symmetric, key, name, body).Ok?
    ensures InnerUnwrap(c, otherAlg, symmetric, key, other, InnerWrap(c, nameAlg, symmetric, key, name, body).value)
         == if c.digestSize(otherAlg).None? then Fail(RC_HASH)
            else if c.digest(otherAlg, body + other) == c.digest(nameAlg, body + name) then Ok(body)
            else Fail(RC_INTEGRITY)
  {
    var digest := c.digest(nameAlg, body + name);
    FieldReads(digest, 0xFFFF, body);
    hide ReadSized, Field;
  }

  /** The same of the outer wrap, whose Name is under the HMAC. */
  lemma OuterUnwrapExact(c: Crypto, nameAlg: uint16, seed: Bytes, symmetric: Symmetric, name: Bytes, other: Bytes, body: Bytes)
    requires Lawful(c) && body != [] && OuterWrap(c, nameAlg, seed, symmetric, name, body).Ok?
    ensures var encrypted := c.encrypt(c.storageKey(nameAlg, seed, name, symmetric.keyBits),
                                       Filled(0, c.blockSize(symmetric.algorithm).value), body).value;
            var integrity := c.integrityKey(nameAlg, seed);
            var blob := OuterWrap(c, nameAlg, seed, symmetric, name, body).value;
            && (other == name ==> OuterUnwrap(c, nameAlg, seed, symmetric, other, blob) == Ok(body))
            && (c.hmac(nameAlg, integrity, encrypted + other) != c.hmac(nameAlg, integrity, encrypted + name) ==>
                  OuterUnwrap(c, nameAlg, seed, symmetric, other, blob) == Fail(RC_INTEGRITY))
  {
    var encrypted := c.encrypt(c.storageKey(nameAlg, seed, name, symmetric.keyBits),
                               Filled(0, c.blockSize(symmetric.algorithm).value), body).value;
    FieldReads(c.hmac(nameAlg, c.integrityKey(nameAlg, seed), encrypted + name), MAX_DIGEST_SIZE, encrypted);
    hide ReadSized, Field;
  }

  // ---- The journey ----

  /** `w` holds `body` for `parent`: in the clear for TPM_RH_NULL, else for that parent to unwrap. */
  ghost predicate Carries(c: Crypto, parent: Option<Parent>, name: Bytes, w: Wrapped, body: Bytes) {
    if parent.None? then w == Wrapped(body, [])
    else w.secret != [] && forall at: nat :: Unwrapped(c, parent, name, w, at) == Ok(body)
  }

  /** The parent as its owner has it: the same key, with its sensitive area. */
  predicate OwnerOf(owner: Option<Parent>, seen: Option<Parent>) {
    if seen.None? then owner.None?
    else owner.Some? && owner.value.hasSensitive && SameKey(seen.value, owner.value)
  }

  lemma WrappedCarries(c: Crypto, parent: Option<Parent>, owner: Option<Parent>, random: Bytes, name: Bytes, body: Bytes)
    requires Lawful(c) && body != [] && OwnerOf(owner, parent)
    requires WrappedFor(c, parent, random, name, body).Ok?
    ensures Carries(c, owner, name, WrappedFor(c, parent, random, name, body).value, body)
  {
    if parent.Some? {
      var p, q := parent.value, owner.value;
      var sealed := c.seal(p, random).value;
      OuterUnwrapExact(c, p.nameAlg, sealed.0, p.symmetric.value, name, name, body);
      assert c.open(q, sealed.1) == Ok(sealed.0);
      hide OuterWrap, OuterUnwrap;
    }
  }

  /** A genuine duplicate is never refused by the unwrapping half of a Rewrap: the
    command does exactly what wrapping the same body for the new parent would. */
  lemma RewrapIsWrap(c: Crypto, oldParent: Option<Parent>, newParent: Option<Parent>, w: Wrapped, name: Bytes, random: Bytes, body: Bytes)
    requires WellFormedName(c, name) && Carries(c, oldParent, name, w, body)
    ensures Rewrap(c, oldParent, newParent, w, name, random)
         == match WrappedFor(c, newParent, random, name, body) case Err(e) => Err(e) case Ok(v) => Sent(v)
  {
  }

  /** One Rewrap under `name`: to `parent`, which its owner holds as `owner`. */
  datatype Hop = Hop(parent: Option<Parent>, owner: Option<Parent>, name: Bytes, random: Bytes)

  function Journey(c: Crypto, w: Wrapped, at: Option<Parent>, hops: seq<Hop>): Result<(Wrapped, Option<Parent>)>
    decreases |hops|
  {
    if hops == [] then Ok((w, at))
    else
      var next :- Rewrap(c, at, hops[0].parent, w, hops[0].name, hops[0].random);
      Journey(c, next, hops[0].owner, hops[1..])
  }

  predicate Owned(hops: seq<Hop>) {
    forall i :: 0 <= i < |hops| ==> OwnerOf(hops[i].owner, hops[i].parent)
  }

  lemma {:induction false} JourneyCarries(c: Crypto, name: Bytes, w: Wrapped, at: Option<Parent>, hops: seq<Hop>, body: Bytes)
    requires Lawful(c) && body != [] && WellFormedName(c, name) && Carries(c, at, name, w, body)
    requires Owned(hops) && forall i :: 0 <= i < |hops| ==> hops[i].name == name
    requires Journey(c, w, at, hops).Ok?
    ensures var end := Journey(c, w, at, hops).value; Carries(c, end.1, name, end.0, body)
    decreases |hops|
  {
    if hops != [] {
      hide WrappedFor, Carries, Rewrap, WellFormedName, Lawful, OwnerOf;
      var hop := hops[0];
      assert OwnerOf(hop.owner, hop.parent) && hop.name == name;
      RewrapIsWrap(c, at, hop.parent, w, name, hop.random, body);
      WrappedCarries(c, hop.parent, hop.owner, hop.random, name, body);
      JourneyCarries(c, name, Rewrap(c, at, hop.parent, w, name, hop.random).value, hop.owner, hops[1..], body);
    }
  }

  // ---- Duplicate, any number of Rewraps, Import ----

  /** The key that undoes the inner wrap. */
  function KeyOf(d: Duplicated, keyIn: Bytes): Bytes {
    if keyIn == [] then d.encryptionKeyOut else keyIn
  }

  lemma PhaseOneUndoes(c: Crypto, public: Public, sensitive: Bytes, symmetric: Option<Symmetric>, keyIn: Bytes, drawn: Bytes, key: Bytes)
    requires Lawful(c) && PhaseOne(c, public, sensitive, symmetric, keyIn, drawn).Ok?
    requires symmetric.Some? ==>
      && |drawn| == symmetric.value.KeyBytes() && key == (if keyIn == [] then drawn else keyIn)
      && !c.weakKey(symmetric.value.algorithm, key)
    ensures var body := PhaseOne(c, public, sensitive, symmetric, keyIn, drawn).value.0;
            body != [] && PhaseOneUndone(c, public, symmetric, key, body) == Ok(Field(sensitive))
    ensures SensitiveFromBody(Field(sensitive)) == Ok(sensitive)
  {
    FieldReads(sensitive, 0xFFFF, []);
    assert Field(sensitive) + [] == Field(sensitive);
    assert |Field(sensitive)| >= 2;
    if symmetric.Some? {
      InnerUnwrapExact(c, public.nameAlg, public.name, public.nameAlg, public.name, symmetric.value, key, Field(sensitive));
      InnerWrapLength(c, public.nameAlg, symmetric.value, key, public.name, Field(sensitive));
      hide InnerWrap, InnerUnwrap;
    }
    hide Field;
  }

  lemma InnerWrapLength(c: Crypto, nameAlg: uint16, symmetric: Symmetric, key: Bytes, name: Bytes, body: Bytes)
    requires Lawful(c) && InnerWrap(c, nameAlg, symmetric, key, name, body).Ok?
    ensures |InnerWrap(c, nameAlg, symmetric, key, name, body).value| >= |body|
  {
  }

  /** What a duplicate can be imported with: nothing its public area rules out, and the key it went out under. */
  predicate Importable(c: Crypto, public: Public, sensitive: Bytes, symmetric: Option<Symmetric>, key: Bytes, last: Option<Parent>, parent: Parent) {
    && parent.isStorage && parent.symmetric.Some? && (last.Some? ==> last.value == parent)
    && c.validPublic(public).Ok?
    && !public.fixedTpm && !public.fixedParent && !public.firmwareLimited && !public.svnLimited
    && (public.encryptedDuplication ==> last.Some? && key != [])
    && (symmetric.Some? ==> !c.weakKey(symmetric.value.algorithm, key))
    && c.readSensitive(sensitive) == Some(sensitive) && c.binds(public, sensitive).Ok?
  }

  /** Duplicate, then any finite chain of Rewraps through real or null parents
    carrying the object's Name, then Import at the last parent, gives exactly the
    original sensitive area, with or without the inner wrap. */
  lemma ImportUndoesDuplicate(
    c: Crypto, public: Public, sensitive: Bytes, newParent: Option<Parent>, owner: Option<Parent>,
    symmetric: Option<Symmetric>, keyIn: Bytes, drawn: Bytes, random: Bytes, hops: seq<Hop>, parent: Parent, key: Bytes)
    requires Lawful(c) && WellFormedName(c, public.name)
    requires var d := Duplicate(c, public, Some(sensitive), newParent, symmetric, keyIn, drawn, random);
             && d.Ok? && OwnerOf(owner, newParent)
             && Journey(c, d.value.wrapped, owner, hops).Ok?
             && (symmetric.Some? ==> |drawn| == symmetric.value.KeyBytes() && key == KeyOf(d.value, keyIn))
             && Importable(c, public, sensitive, symmetric, key, Journey(c, d.value.wrapped, owner, hops).value.1, parent)
    requires Owned(hops) && forall i :: 0 <= i < |hops| ==> hops[i].name == public.name
    ensures var d := Duplicate(c, public, Some(sensitive), newParent, symmetric, keyIn, drawn, random).value;
            var w := Journey(c, d.wrapped, owner, hops).value.0;
            var imported := Import(c, parent, key, public, w, symmetric);
            && Recovered(c, parent, key, public, w, symmetric) == Ok(sensitive)
            && imported == WrapPrivate(c, parent, public.name, sensitive)
            && (imported.Ok? ==> UnwrapPrivate(c, parent, public.name, imported.value) == Ok(sensitive))
  {
    var phase := PhaseOne(c, public, sensitive, symmetric, keyIn, drawn).value;
    var d := Duplicate(c, public, Some(sensitive), newParent, symmetric, keyIn, drawn, random).value;
    var end := Journey(c, d.wrapped, owner, hops).value;
    DuplicateParts(c, public, sensitive, newParent, symmetric, keyIn, drawn, random);
    hide Duplicate, Lawful, WellFormedName, Journey, WrappedFor, PhaseOne, Carries, PhaseOneUndone, SensitiveFromBody, WrapPrivate, UnwrapPrivate;
    PhaseOneUndoes(c, public, sensitive, symmetric, keyIn, drawn, key);
    WrappedCarries(c, newParent, owner, random, public.name, phase.0);
    JourneyCarries(c, public.name, d.wrapped, owner, hops, phase.0);
    CarriedIsRecovered(c, public, sensitive, symmetric, key, end.1, parent, end.0, phase.0);
    if WrapPrivate(c, parent, public.name, sensitive).Ok? {
      PrivateUnwraps(c, parent, public.name, sensitive);
    }
  }

  lemma DuplicateParts(c: Crypto, public: Public, sensitive: Bytes, newParent: Option<Parent>,
                       symmetric: Option<Symmetric>, keyIn: Bytes, drawn: Bytes, random: Bytes)
    requires Duplicate(c, public, Some(sensitive), newParent, symmetric, keyIn, drawn, random).Ok?
    ensures var d := Duplicate(c, public, Some(sensitive), newParent, symmetric, keyIn, drawn, random).value;
            var phase := PhaseOne(c, public, sensitive, symmetric, keyIn, drawn);
            && phase.Ok?
            && WrappedFor(c, newParent, random, public.name, phase.value.0) == Ok(d.wrapped)
            && (symmetric.Some? ==> KeyOf(d, keyIn) == if keyIn == [] then drawn else keyIn)
  {
  }

  lemma CarriedIsRecovered(c: Crypto, public: Public, sensitive: Bytes, symmetric: Option<Symmetric>, key: Bytes,
                           last: Option<Parent>, parent: Parent, w: Wrapped, body: Bytes)
    requires Importable(c, public, sensitive, symmetric, key, last, parent)
    requires Carries(c, last, public.name, w, body)
    requires PhaseOneUndone(c, public, symmetric, key, body) == Ok(Field(sensitive))
    requires SensitiveFromBody(Field(sensitive)) == Ok(sensitive)
    ensures Recovered(c, parent, key, public, w, symmetric) == Ok(sensitive)
  {
  }

  lemma PrivateUnwraps(c: Crypto, parent: Parent, name: Bytes, sensitive: Bytes)
    requires Lawful(c) && WrapPrivate(c, parent, name, sensitive).Ok?
    ensures UnwrapPrivate(c, parent, name, WrapPrivate(c, parent, name, sensitive).value) == Ok(sensitive)
  {
    assert |Field(sensitive)| >= 2;
    OuterUnwrapExact(c, parent.nameAlg, parent.seedValue, parent.symmetric.value, name, name, Field(sensitive));
    FieldReads(sensitive, 0xFFFF, []);
    assert Field(sensitive) + [] == Field(sensitive);
    hide OuterWrap, OuterUnwrap, Field, ReadSized;
  }

  // ---- A different Name ----

  /** Whatever outer wraps a duplicate has been through, if unwrapping it for `other`
    comes to the body an inner wrap was made of under another Name, the import is
    refused: the inner digest binds the Name. */
  lemma InnerDigestBindsName(c: Crypto, public: Public, other: Public, sensitive: Bytes, symmetric: Symmetric, key: Bytes,
                             parent: Parent, w: Wrapped)
    requires Lawful(c) && InnerWrap(c, public.nameAlg, symmetric, key, public.name, Field(sensitive)).Ok?
    requires var body := InnerWrap(c, public.nameAlg, symmetric, key, public.name, Field(sensitive)).value;
             if w.secret == [] then w.blob == body else Unwrapped(c, Some(parent), other.name, w, 4) == Ok(body)
    requires c.digest(other.nameAlg, Field(sensitive) + other.name) != c.digest(public.nameAlg, Field(sensitive) + public.name)
    ensures Import(c, parent, key, other, w, Some(symmetric)).Err?
  {
    InnerUnwrapExact(c, public.nameAlg, public.name, other.nameAlg, other.name, symmetric, key, Field(sensitive));
    hide InnerWrap, InnerUnwrap, Unwrapped, Field;
  }

  /** The outer HMAC of `w` takes two Names to one value. */
  predicate OuterCollides(c: Crypto, at: Option<Parent>, w: Wrapped, name: Bytes, other: Bytes) {
    && at.Some? && name != other
    && c.open(at.value, w.secret).Ok? && ReadSized(w.blob, MAX_DIGEST_SIZE).Got?
    && var key := c.integrityKey(at.value.nameAlg, c.open(at.value, w.secret).value);
       var encrypted := ReadSized(w.blob, MAX_DIGEST_SIZE).rest;
       c.hmac(at.value.nameAlg, key, encrypted + name) == c.hmac(at.value.nameAlg, key, encrypted + other)
  }

  /** Unwrapping under another Name gives the same body or is refused. */
  lemma OtherNameUnwraps(c: Crypto, at: Option<Parent>, name: Bytes, other: Bytes, w: Wrapped, body: Bytes, secretAt: nat)
    requires Carries(c, at, name, w, body) && !OuterCollides(c, at, w, name, other)
    ensures Unwrapped(c, at, other, w, secretAt).Ok? ==> Unwrapped(c, at, other, w, secretAt) == Ok(body)
  {
    if at.Some? {
      assert Unwrapped(c, at, name, w, secretAt) == Ok(body);
      hide ReadSized;
    }
  }

  /** Somewhere on the way, or at the import under `last`, an outer HMAC collides. */
  predicate Collided(c: Crypto, name: Bytes, w: Wrapped, at: Option<Parent>, hops: seq<Hop>, last: Bytes)
    decreases |hops|
  {
    if hops == [] then OuterCollides(c, at, w, name, last)
    else
      var hop := hops[0];
      var next := Rewrap(c, at, hop.parent, w, hop.name, hop.random);
      || OuterCollides(c, at, w, name, hop.name)
      || (next.Ok? && Collided(c, hop.name, next.value, hop.owner, hops[1..], last))
  }

  function NameAfter(name: Bytes, hops: seq<Hop>): Bytes {
    if hops == [] then name else hops[|hops| - 1].name
  }

  /** A chain of Rewraps under any Names carries the body, under the Name of its last leg. */
  lemma {:induction false} AnyJourneyCarries(
    c: Crypto, name: Bytes, w: Wrapped, at: Option<Parent>, hops: seq<Hop>, body: Bytes, last: Bytes)
    requires Lawful(c) && body != [] && Carries(c, at, name, w, body) && Owned(hops)
    requires Journey(c, w, at, hops).Ok? && !Collided(c, name, w, at, hops, last)
    ensures var end := Journey(c, w, at, hops).value;
            Carries(c, end.1, NameAfter(name, hops), end.0, body) && !OuterCollides(c, end.1, end.0, NameAfter(name, hops), last)
    decreases |hops|
  {
    if hops != [] {
      var hop := hops[0];
      assert OwnerOf(hop.owner, hop.parent);
      OtherNameUnwraps(c, at, name, hop.name, w, body, 3);
      hide WrappedFor, Carries, Unwrapped, WellFormedName, Lawful, OwnerOf, OuterCollides;
      WrappedCarries(c, hop.parent, hop.owner, hop.random, hop.name, body);
      AnyJourneyCarries(c, hop.name, Rewrap(c, at, hop.parent, w, hop.name, hop.random).value, hop.owner, hops[1..], body, last);
      assert NameAfter(name, hops) == NameAfter(hop.name, hops[1..]);
    }
  }

  /** Duplicate with an inner wrap, then any chain of Rewraps under any Names through
    real or null parents, then Import under a public area with another Name: refused,
    unless an outer HMAC collided on the way. Only the inner digest is assumed to
    tell the two Names apart. */
  lemma OtherNameIsRefused(
    c: Crypto, public: Public, other: Public, sensitive: Bytes, newParent: Option<Parent>, owner: Option<Parent>,
    symmetric: Symmetric, keyIn: Bytes, drawn: Bytes, random: Bytes, hops: seq<Hop>, parent: Parent, key: Bytes)
    requires Lawful(c) && OwnerOf(owner, newParent) && Owned(hops)
    requires var d := Duplicate(c, public, Some(sensitive), newParent, Some(symmetric), keyIn, drawn, random);
             && d.Ok? && key == KeyOf(d.value, keyIn)
             && var end := Journey(c, d.value.wrapped, owner, hops);
                end.Ok? && (end.value.1.Some? ==> end.value.1.value == parent)
    requires c.digest(other.nameAlg, Field(sensitive) + other.name) != c.digest(public.nameAlg, Field(sensitive) + public.name)
    ensures var d := Duplicate(c, public, Some(sensitive), newParent, Some(symmetric), keyIn, drawn, random).value;
            || Import(c, parent, key, other, Journey(c, d.wrapped, owner, hops).value.0, Some(symmetric)).Err?
            || Collided(c, public.name, d.wrapped, owner, hops, other.name)
  {
    DuplicateParts(c, public, sensitive, newParent, Some(symmetric), keyIn, drawn, random);
    var d := Duplicate(c, public, Some(sensitive), newParent, Some(symmetric), keyIn, drawn, random).value;
    var body := InnerWrap(c, public.nameAlg, symmetric, key, public.name, Field(sensitive)).value;
    InnerWrapLength(c, public.nameAlg, symmetric, key, public.name, Field(sensitive));
    assert |Field(sensitive)| >= 2;
    if !Collided(c, public.name, d.wrapped, owner, hops, other.name) {
      WrappedCarries(c, newParent, owner, random, public.name, body);
      AnyJourneyCarries(c, public.name, d.wrapped, owner, hops, body, other.name);
      var end := Journey(c, d.wrapped, owner, hops).value;
      OtherNameUnwraps(c, end.1, NameAfter(public.name, hops), other.name, end.0, body, 4);
      OtherLegIsRefused(c, public, other, sensitive, symmetric, key, parent, end.0, end.1, NameAfter(public.name, hops), body);
    }
  }

  lemma OtherLegIsRefused(c: Crypto, public: Public, other: Public, sensitive: Bytes, symmetric: Symmetric, key: Bytes,
                          parent: Parent, w: Wrapped, at: Option<Parent>, name: Bytes, body: Bytes)
    requires Lawful(c) && InnerWrap(c, public.nameAlg, symmetric, key, public.name, Field(sensitive)) == Ok(body)
    requires Carries(c, at, name, w, body) && (at.Some? ==> at.value == parent)
    requires Unwrapped(c, at, other.name, w, 4).Ok? ==> Unwrapped(c, at, other.name, w, 4) == Ok(body)
    requires c.digest(other.nameAlg, Field(sensitive) + other.name) != c.digest(public.nameAlg, Field(sensitive) + public.name)
    ensures Import(c, parent, key, other, w, Some(symmetric)).Err?
  {
    hide InnerWrap, InnerUnwrap, Unwrapped, Field, Lawful;
    if Unwrapped(c, at, other.name, w, 4).Ok? || at.None? {
      InnerDigestBindsName(c, public, other, sensitive, symmetric, key, parent, w);
    }
  }
}
