/** Saved contexts: sealing and opening them (Part 1 section 27.3.1), the window a
  sequence number has to fall in, and the sequence objects they carry. */
module Context {
  import opened Prelude
  import opened Marshal

  const MAX_CONTEXT_SIZE := 2048
  const MAX_CONTEXT_DATA := (2 + 66) + 2 + MAX_CONTEXT_SIZE
  const INTEGRITY_SIZE := 64
  const TRANSIENT_STCLEAR := 0x8000_0002
  const CONTEXT_GAP_MAX := 0xFFFF
  const MAX_SEQUENCE_BYTES := 1024 * 1024

  /** What sealing reads of the TPM. */
  datatype Vault = Vault(proof: uint32 -> Result<Bytes>, resetValue: Bytes, clearCount: uint32)

  datatype Crypto = Crypto(
    hmac: (Bytes, Bytes) -> Bytes,
    key: (Bytes, uint64, uint32) -> (Bytes, Bytes),
    encrypt: (Bytes, Bytes, Bytes) -> Result<Bytes>,
    decrypt: (Bytes, Bytes, Bytes) -> Result<Bytes>)

  ghost predicate Lawful(c: Crypto) {
    && (forall key, data :: |c.hmac(key, data)| == INTEGRITY_SIZE)
    && (forall key, iv, data :: c.encrypt(key, iv, data).Ok? ==>
          && |c.encrypt(key, iv, data).value| == |data|
          && c.decrypt(key, iv, c.encrypt(key, iv, data).value) == Ok(data))
  }

  datatype Saved = Saved(sequence: uint64, handle: uint32, hierarchy: uint32, blob: Bytes)

  // ---- Sealing and opening ----

  /** resetValue, and clearCount for an object with the stateClear property alone. */
  function Counters(v: Vault, handle: uint32): Bytes {
    if handle == TRANSIENT_STCLEAR then v.resetValue + Be32(v.clearCount) else v.resetValue
  }

  /** resetValue {|| clearCount} || sequence || handle || encContext */
  function Covered(v: Vault, sequence: uint64, handle: uint32, encrypted: Bytes): Bytes {
    Counters(v, handle) + Be64(sequence) + Be32(handle) + encrypted
  }

  /** The length goes in as sixteen bits, whatever it was. */
  function Sensitive(sequence: uint64, body: Bytes): Bytes {
    var plain := Be64(sequence) + body;
    Be16(|plain| % 0x1_0000) + plain
  }

  function Seal(c: Crypto, v: Vault, hierarchy: uint32, sequence: uint64, handle: uint32, body: Bytes): Result<Saved> {
    var proof :- v.proof(hierarchy);
    var k := c.key(proof, sequence, handle);
    var encrypted :- c.encrypt(k.0, k.1, Sensitive(sequence, body));
    var integrity := c.hmac(proof, Covered(v, sequence, handle, encrypted));
    if |encrypted| > MAX_CONTEXT_SIZE then Fail(RC_SIZE)
    else
      var blob := Field(integrity) + Field(encrypted);
      if |blob| > MAX_CONTEXT_DATA then Fail(RC_SIZE) else Ok(Saved(sequence, handle, hierarchy, blob))
  }

  /** The TPMS_CONTEXT_DATA in a blob: the integrity value and the encrypted context. */
  function ReadData(blob: Bytes): Option<(Bytes, Bytes)> {
    match ReadSized(blob, INTEGRITY_SIZE) case Refused(_) => None case Got(integrity, b1) =>
    match ReadSized(b1, MAX_CONTEXT_SIZE) case Refused(_) => None case Got(encrypted, rest) =>
    if rest == [] then Some((integrity, encrypted)) else None
  }

  function EncryptedIn(blob: Bytes): Bytes {
    match ReadData(blob) case None => [] case Some(data) => data.1
  }

  const BAD_CONTEXT := TpmRc(RC_BAD_CONTEXT, Nowhere).WithParameter(1)

  /** The body, and whether the TPM enters failure mode. */
  datatype Opening = Opening(result: Result<Bytes>, fails: bool)

  /** The decrypted context holds its own length and the sequence it was sealed with. */
  function Judged(sized: Bytes, sequence: uint64): Opening {
    if |sized| < 2 then Opening(Err(BAD_CONTEXT), false)
    else
      var inner := FromBe16(sized[..2]);
      if inner + 2 != |sized| || inner < 8 then Opening(Err(BAD_CONTEXT), false)
      else if FromBe64(sized[2..10]) != sequence then Opening(Fail(RC_FAILURE), true)
      else Opening(Ok(sized[10..]), false)
  }

  function Open(c: Crypto, v: Vault, saved: Saved): Opening {
    match ReadData(saved.blob)
    case None => Opening(Err(BAD_CONTEXT), false)
    case Some(data) =>
      match v.proof(saved.hierarchy) case Err(e) => Opening(Err(e), false) case Ok(proof) =>
      if c.hmac(proof, Covered(v, saved.sequence, saved.handle, data.1)) != data.0
      then Opening(Err(TpmRc(RC_INTEGRITY, Nowhere).WithParameter(1)), false)
      else
        var k := c.key(proof, saved.sequence, saved.handle);
        match c.decrypt(k.0, k.1, data.1) case Err(e) => Opening(Err(e), false) case Ok(sized) =>
        Judged(sized, saved.sequence)
  }

  // ---- Opening undoes sealing ----

  lemma DataReads(integrity: Bytes, encrypted: Bytes)
    requires |integrity| == INTEGRITY_SIZE && |encrypted| <= MAX_CONTEXT_SIZE
    ensures ReadData(Field(integrity) + Field(encrypted)) == Some((integrity, encrypted))
  {
    ReadSizedExact(Field(integrity) + Field(encrypted), INTEGRITY_SIZE, integrity, Field(encrypted));
    assert Field(encrypted) == Field(encrypted) + [];
    ReadSizedExact(Field(encrypted), MAX_CONTEXT_SIZE, encrypted, []);
  }

  lemma SensitiveJudged(sequence: uint64, body: Bytes)
    requires 8 + |body| < 0x1_0000
    ensures Judged(Sensitive(sequence, body), sequence) == Opening(Ok(body), false)
  {
    hide FromBe16, FromBe64;
    var sized := Sensitive(sequence, body);
    assert |Be64(sequence)| == 8;
    assert sized[..2] == Be16(8 + |body|) && sized[2..10] == Be64(sequence) && sized[10..] == body;
    Be16Inverse(8 + |body|, sized[..2]);
    Be64Inverse(sequence, sized[2..10]);
  }

  /** Whenever sealing succeeds, opening gives the body back: the length never
    truncates, and the TPM does not enter failure mode. */
  lemma OpenUndoesSeal(c: Crypto, v: Vault, hierarchy: uint32, sequence: uint64, handle: uint32, body: Bytes)
    requires Lawful(c) && Seal(c, v, hierarchy, sequence, handle, body).Ok?
    ensures Open(c, v, Seal(c, v, hierarchy, sequence, handle, body).value) == Opening(Ok(body), false)
    ensures 2 + 8 + |body| <= MAX_CONTEXT_SIZE
  {
    SealParts(c, v, hierarchy, sequence, handle, body);
    SensitiveJudged(sequence, body);
    hide ReadData, Covered, Sensitive, Judged;
  }

  lemma SealParts(c: Crypto, v: Vault, hierarchy: uint32, sequence: uint64, handle: uint32, body: Bytes)
    requires Lawful(c) && Seal(c, v, hierarchy, sequence, handle, body).Ok?
    ensures v.proof(hierarchy).Ok?
    ensures var proof := v.proof(hierarchy).value;
            var k := c.key(proof, sequence, handle);
            var encrypted := c.encrypt(k.0, k.1, Sensitive(sequence, body));
            && encrypted.Ok?
            && |encrypted.value| == 10 + |body| <= MAX_CONTEXT_SIZE
            && ReadData(Seal(c, v, hierarchy, sequence, handle, body).value.blob)
               == Some((c.hmac(proof, Covered(v, sequence, handle, encrypted.value)), encrypted.value))
  {
    var proof := v.proof(hierarchy).value;
    var k := c.key(proof, sequence, handle);
    var encrypted := c.encrypt(k.0, k.1, Sensitive(sequence, body)).value;
    DataReads(c.hmac(proof, Covered(v, sequence, handle, encrypted)), encrypted);
    hide ReadData, Covered, Field;
  }

  // ---- What the blob is bound to ----

  /** Everything the integrity value covers besides the blob itself. */
  predicate SameBinding(v: Vault, sequence: uint64, handle: uint32, v': Vault, sequence': uint64, handle': uint32) {
    && v'.resetValue == v.resetValue && sequence' == sequence && handle' == handle
    && (handle == TRANSIENT_STCLEAR ==> v'.clearCount == v.clearCount)
  }

  lemma CoveredParts(v: Vault, sequence: uint64, handle: uint32, encrypted: Bytes)
    ensures var x := Covered(v, sequence, handle, encrypted);
            var n := |Counters(v, handle)|;
            && |x| == n + 12 + |encrypted|
            && x[..n] == Counters(v, handle) && x[n..n + 8] == Be64(sequence) && x[n + 8..n + 12] == Be32(handle)
  {
  }

  /** What is covered tells all of it apart. */
  lemma CoveredIsInjective(v: Vault, sequence: uint64, handle: uint32, v': Vault, sequence': uint64, handle': uint32, encrypted: Bytes)
    requires |v'.resetValue| == |v.resetValue|
    ensures Covered(v', sequence', handle', encrypted) == Covered(v, sequence, handle, encrypted)
       <==> SameBinding(v, sequence, handle, v', sequence', handle')
  {
    var x, x' := Covered(v, sequence, handle, encrypted), Covered(v', sequence', handle', encrypted);
    CoveredParts(v, sequence, handle, encrypted);
    CoveredParts(v', sequence', handle', encrypted);
    if x == x' {
      var n := |Counters(v, handle)|;
      assert |Counters(v', handle')| == n;
      Be64Inverse(sequence, x[n..n + 8]);
      Be64Inverse(sequence', x[n..n + 8]);
      Be32Inverse(handle, x[n + 8..n + 12]);
      Be32Inverse(handle', x[n + 8..n + 12]);
      var m := |v.resetValue|;
      assert x[..n][..m] == v.resetValue && x'[..n][..m] == v'.resetValue;
      if handle == TRANSIENT_STCLEAR {
        assert x[..n][m..] == Be32(v.clearCount) && x'[..n][m..] == Be32(v'.clearCount);
        Be32Inverse(v.clearCount, x[..n][m..]);
        Be32Inverse(v'.clearCount, x[..n][m..]);
      }
    }
  }

  /** Two different inputs of the HMAC, key and data, that it takes to one value. */
  predicate Collides(c: Crypto, key: Bytes, data: Bytes, key': Bytes, data': Bytes) {
    (key, data) != (key', data') && c.hmac(key, data) == c.hmac(key', data')
  }

  /** The same blob presented with another sequence, savedHandle or hierarchy, after a
    TPM Reset, or for a stateClear object after a TPM Restart, is refused for its
    integrity, unless the HMAC collides. */
  lemma OtherBindingIsRefused(c: Crypto, v: Vault, hierarchy: uint32, sequence: uint64, handle: uint32, body: Bytes,
                              v': Vault, hierarchy': uint32, sequence': uint64, handle': uint32)
    requires Lawful(c) && Seal(c, v, hierarchy, sequence, handle, body).Ok?
    requires v'.proof(hierarchy').Ok? && |v'.resetValue| == |v.resetValue|
    requires v'.proof(hierarchy').value != v.proof(hierarchy).value
          || !SameBinding(v, sequence, handle, v', sequence', handle')
    ensures var saved := Seal(c, v, hierarchy, sequence, handle, body).value;
            var encrypted := EncryptedIn(saved.blob);
            || Open(c, v', Saved(sequence', handle', hierarchy', saved.blob))
               == Opening(Err(TpmRc(RC_INTEGRITY, Nowhere).WithParameter(1)), false)
            || Collides(c, v.proof(hierarchy).value, Covered(v, sequence, handle, encrypted),
                        v'.proof(hierarchy').value, Covered(v', sequence', handle', encrypted))
  {
    SealParts(c, v, hierarchy, sequence, handle, body);
    var saved := Seal(c, v, hierarchy, sequence, handle, body).value;
    CoveredIsInjective(v, sequence, handle, v', sequence', handle', EncryptedIn(saved.blob));
    hide Seal, ReadData, Covered, SameBinding;
  }

  /** A TPM Restart, which only moves clearCount, leaves every other context loadable:
    a changed clearCount refuses exactly the stateClear objects. */
  lemma RestartRefusesStateClearOnly(c: Crypto, v: Vault, hierarchy: uint32, sequence: uint64, handle: uint32, body: Bytes, clearCount: uint32)
    requires Lawful(c) && Seal(c, v, hierarchy, sequence, handle, body).Ok? && clearCount != v.clearCount
    ensures var saved := Seal(c, v, hierarchy, sequence, handle, body).value;
            var v' := v.(clearCount := clearCount);
            var encrypted := EncryptedIn(saved.blob);
            var proof := v.proof(hierarchy).value;
            if handle != TRANSIENT_STCLEAR then Open(c, v', saved) == Opening(Ok(body), false)
            else
              || Open(c, v', saved) == Opening(Err(TpmRc(RC_INTEGRITY, Nowhere).WithParameter(1)), false)
              || Collides(c, proof, Covered(v, sequence, handle, encrypted), proof, Covered(v', sequence, handle, encrypted))
  {
    var v' := v.(clearCount := clearCount);
    SealParts(c, v, hierarchy, sequence, handle, body);
    if handle == TRANSIENT_STCLEAR {
      OtherBindingIsRefused(c, v, hierarchy, sequence, handle, body, v', hierarchy, sequence, handle);
    } else {
      OpenUndoesSeal(c, v, hierarchy, sequence, handle, body);
      assert Covered(v', sequence, handle, EncryptedIn(Seal(c, v, hierarchy, sequence, handle, body).value.blob))
          == Covered(v, sequence, handle, EncryptedIn(Seal(c, v, hierarchy, sequence, handle, body).value.blob));
      hide Seal, ReadData, Covered, Judged;
    }
  }

  // ---- The window of TPM2_ContextLoad ----

  function SaturatingSub(a: nat, b: nat): nat {
    if a < b then 0 else a - b
  }

  function SaturatingAdd64(a: uint64, b: nat): nat {
    if a + b > U64_MAX then U64_MAX else a + b
  }

  predicate Viable(isSession: bool, sequence: uint64, contextCounter: uint64, objectCounter: uint64) {
    if isSession then
      var current := SaturatingSub(contextCounter, 1);
      sequence <= current && SaturatingAdd64(sequence, CONTEXT_GAP_MAX) >= current
    else sequence < objectCounter
  }

  /** No saturation shows: a session's number is one already given out and at most the gap behind the last. */
  lemma WindowIsExact(isSession: bool, sequence: uint64, contextCounter: uint64, objectCounter: uint64)
    requires contextCounter >= 1
    ensures Viable(isSession, sequence, contextCounter, objectCounter)
       <==> if isSession then contextCounter - 1 - CONTEXT_GAP_MAX <= sequence < contextCounter
            else sequence < objectCounter
  {
  }

  // ---- A session context loads once ----

  /** The numbers of the sessions in memory and of those put away, the next number,
    and the next one for an object context. */
  datatype Ids = Ids(loaded: map<uint32, uint64>, saved: map<uint32, uint64>, next: uint64, objects: uint64) {
    /** A counter at its end can give out no number that was not given out before. */
    predicate Exhausted() {
      next == U64_MAX || objects == U64_MAX
    }
  }

  datatype Move = Start(h: uint32) | Save(h: uint32) | SaveObject | Restore(h: uint32, version: uint64) | Flush(h: uint32)

  predicate Allowed(s: Ids, m: Move) {
    match m
    case Start(h) => h !in s.loaded && h !in s.saved && !s.Exhausted()
    case Save(h) => h in s.loaded && !s.Exhausted()
    case SaveObject => !s.Exhausted()
    case Restore(h, version) => h in s.saved && s.saved[h] == version
    case Flush(h) => h in s.loaded || h in s.saved
  }

  function Stepped(n: uint64): uint64 {
    if n == U64_MAX then n else n + 1
  }

  function Moved(s: Ids, m: Move): Ids
    requires Allowed(s, m)
  {
    match m
    case Start(h) => s.(loaded := s.loaded[h := s.next], next := Stepped(s.next))
    case Save(h) => s.(loaded := s.loaded - {h}, saved := s.saved[h := s.loaded[h]])
    case SaveObject => s.(objects := Stepped(s.objects))
    case Restore(h, _) => s.(loaded := s.loaded[h := s.next], saved := s.saved - {h}, next := Stepped(s.next))
    case Flush(h) => s.(loaded := s.loaded - {h}, saved := s.saved - {h})
  }

  predicate Runs(s: Ids, moves: seq<Move>)
    decreases |moves|
  {
    moves == [] || (Allowed(s, moves[0]) && Runs(Moved(s, moves[0]), moves[1..]))
  }

  function After(s: Ids, moves: seq<Move>): Ids
    requires Runs(s, moves)
    decreases |moves|
  {
    if moves == [] then s else After(Moved(s, moves[0]), moves[1..])
  }

  /** The number `version` was given out and no session carries it. */
  ghost predicate Spent(s: Ids, version: uint64) {
    && version < s.next
    && (forall h :: h in s.loaded ==> s.loaded[h] != version)
    && (forall h :: h in s.saved ==> s.saved[h] != version)
  }

  lemma {:induction false} SpentStaysSpent(s: Ids, moves: seq<Move>, version: uint64)
    requires Runs(s, moves) && Spent(s, version)
    ensures Spent(After(s, moves), version)
    decreases |moves|
  {
    if moves != [] {
      SpentStaysSpent(Moved(s, moves[0]), moves[1..], version);
    }
  }

  /** Every number was given out once, but for the last one of all: that goes to each
    session loaded when the numbers have run out, and none of those can be saved again. */
  ghost predicate Numbered(s: Ids) {
    && s.loaded.Keys !! s.saved.Keys
    && (forall h :: h in s.loaded ==> s.loaded[h] < s.next || s.next == U64_MAX)
    && (forall h :: h in s.saved ==> s.saved[h] < s.next)
    && (forall h, g :: h in s.loaded && g in s.loaded && h != g ==> s.loaded[h] != s.loaded[g] || s.loaded[h] == U64_MAX)
    && (forall h, g :: h in s.saved && g in s.saved && h != g ==> s.saved[h] != s.saved[g])
    && (forall h, g :: h in s.loaded && g in s.saved ==> s.loaded[h] != s.saved[g])
  }

  lemma MoveStaysNumbered(s: Ids, m: Move)
    requires Numbered(s) && Allowed(s, m)
    ensures Numbered(Moved(s, m))
  {
  }

  lemma {:induction false} StaysNumbered(s: Ids, moves: seq<Move>)
    requires Numbered(s) && Runs(s, moves)
    ensures Numbered(After(s, moves))
    decreases |moves|
  {
    hide Numbered, Allowed, Moved;
    if moves != [] {
      MoveStaysNumbered(s, moves[0]);
      StaysNumbered(Moved(s, moves[0]), moves[1..]);
    }
  }

  /** From no sessions at all: once a saved session context has been loaded, that version
    of it is refused whatever happens to its session or its handle afterwards. */
  lemma SavedSessionLoadsOnce(next: uint64, objects: uint64, before: seq<Move>, h: uint32, version: uint64, moves: seq<Move>)
    requires Runs(Ids(map[], map[], next, objects), before)
    requires var s := After(Ids(map[], map[], next, objects), before);
             Allowed(s, Restore(h, version)) && Runs(Moved(s, Restore(h, version)), moves)
    ensures var s := After(Ids(map[], map[], next, objects), before);
            !Allowed(After(Moved(s, Restore(h, version)), moves), Restore(h, version))
  {
    hide Runs, After;
    StaysNumbered(Ids(map[], map[], next, objects), before);
    var s := After(Ids(map[], map[], next, objects), before);
    SpentStaysSpent(Moved(s, Restore(h, version)), moves, version);
  }

  // ---- Sequence objects ----

  datatype SequenceKind = Hash(hashAlg: uint16) | Hmac(hashAlg: uint16, key: Bytes) | Event

  datatype Sequence = Sequence(kind: SequenceKind, auth: Bytes, buffer: Bytes, shortFirstBuffer: bool)

  function PrintKind(kind: SequenceKind): Bytes {
    match kind
    case Hash(alg) => [0] + Be16(alg)
    case Hmac(alg, key) => [1] + (Be16(alg) + Field(key))
    case Event => [2]
  }

  /** The lengths a context body can hold. */
  predicate Bounded(s: Sequence) {
    && (s.kind.Hmac? ==> |s.kind.key| < 0x1_0000)
    && |s.auth| < 0x1_0000
    && |s.buffer| <= MAX_SEQUENCE_BYTES
  }

  function PrintSequence(s: Sequence): Bytes {
    PrintKind(s.kind) + Field(s.auth) + Be32(|s.buffer| % 0x1_0000_0000) + s.buffer + [if s.shortFirstBuffer then 1 else 0]
  }

  method MarshalSequence(s: Sequence) returns (r: Result<Bytes>)
    ensures r == if (s.kind.Hmac? && |s.kind.key| >= 0x1_0000) || |s.auth| >= 0x1_0000 then Fail(RC_SIZE)
                 else Ok(PrintSequence(s))
  {
    hide Be16, Be32, Field;
    var w := new Writer();
    match s.kind {
      case Hash(alg) =>
        w.Octets([0]);
        w.Octets(Be16(alg));
      case Hmac(alg, key) =>
        w.Octets([1]);
        w.Octets(Be16(alg));
        w.Sized16(key);
      case Event =>
        w.Octets([2]);
    }
    assert w.buf == PrintKind(s.kind);
    w.Sized16(s.auth);
    w.Octets(Be32(|s.buffer| % 0x1_0000_0000));
    w.Octets(s.buffer);
    w.Octets([if s.shortFirstBuffer then 1 else 0]);
    r := w.Finish();
  }

  function ReadKind(b: Bytes): Read<SequenceKind> {
    match ReadU8(b) case Refused(e) => Refused(e) case Got(tag, b1) =>
    if tag == 0 then
      match ReadU16(b1) case Refused(e) => Refused(e) case Got(alg, rest) => Got(Hash(alg), rest)
    else if tag == 1 then
      match ReadU16(b1) case Refused(e) => Refused(e) case Got(alg, b2) =>
      match ReadSized(b2, 0xFFFF) case Refused(e) => Refused(e) case Got(key, rest) => Got(Hmac(alg, key), rest)
    else if tag == 2 then Got(Event, b1)
    else Refused(TpmRc(RC_BAD_CONTEXT, Nowhere))
  }

  /** What follows the kind. */
  function ReadTail(kind: SequenceKind, b1: Bytes): Result<Sequence> {
    match ReadSized(b1, 0xFFFF) case Refused(e) => Err(e) case Got(auth, b2) =>
    match ReadU32(b2) case Refused(e) => Err(e) case Got(len, b3) =>
    if len > MAX_SEQUENCE_BYTES then Fail(RC_BAD_CONTEXT) else
    match ReadBytes(b3, len) case Refused(e) => Err(e) case Got(buffer, b4) =>
    match ReadU8(b4) case Refused(e) => Err(e) case Got(short, _) =>
    Ok(Sequence(kind, auth, buffer, short != 0))
  }

  function ReadSequence(body: Bytes): Result<Sequence> {
    match ReadKind(body) case Refused(e) => Err(e) case Got(kind, b1) => ReadTail(kind, b1)
  }

  method UnmarshalKind(r: Reader) returns (k: Result<SequenceKind>)
    requires r.Valid()
    modifies r
    ensures r.Valid() && Follows(ReadKind(old(r.Rest())), k, r.Rest())
  {
    hide ReadU8, ReadU16, ReadSized;
    var tag :- r.U8();
    if tag == 0 {
      var alg :- r.U16();
      return Ok(Hash(alg));
    } else if tag == 1 {
      var alg :- r.U16();
      var key :- r.Tpm2b(0xFFFF);
      return Ok(Hmac(alg, key));
    } else if tag == 2 {
      return Ok(Event);
    }
    return Fail(RC_BAD_CONTEXT);
  }

  method UnmarshalTail(r: Reader, kind: SequenceKind) returns (s: Result<Sequence>)
    requires r.Valid()
    modifies r
    ensures s == ReadTail(kind, old(r.Rest()))
  {
    hide ReadU8, ReadU32, ReadBytes, ReadSized;
    var auth :- r.Tpm2b(0xFFFF);
    var len :- r.U32();
    if len > MAX_SEQUENCE_BYTES {
      return Fail(RC_BAD_CONTEXT);
    }
    var buffer :- r.Take(len);
    var short :- r.U8();
    return Ok(Sequence(kind, auth, buffer, short != 0));
  }

  method UnmarshalSequence(body: Bytes) returns (s: Result<Sequence>)
    ensures s == ReadSequence(body)
  {
    hide ReadKind, ReadTail;
    var r := new Reader(body);
    var kind :- UnmarshalKind(r);
    s := UnmarshalTail(r, kind);
  }

  lemma KindReads(kind: SequenceKind, rest: Bytes)
    requires kind.Hmac? ==> |kind.key| < 0x1_0000
    ensures ReadKind(PrintKind(kind) + rest) == Got(kind, rest)
  {
    hide Be16, Field, ReadU8, ReadU16, ReadSized;
    var b := PrintKind(kind) + rest;
    match kind {
      case Hash(alg) =>
        assert b == [0] + (Be16(alg) + rest);
        ReadU8Exact(b, 0, Be16(alg) + rest);
        ReadU16Exact(Be16(alg) + rest, alg, rest);
      case Hmac(alg, key) =>
        assert b == [1] + (Be16(alg) + (Field(key) + rest));
        ReadU8Exact(b, 1, Be16(alg) + (Field(key) + rest));
        ReadU16Exact(Be16(alg) + (Field(key) + rest), alg, Field(key) + rest);
        ReadSizedExact(Field(key) + rest, 0xFFFF, key, rest);
      case Event =>
        ReadU8Exact(b, 2, rest);
    }
  }

  lemma TailReads(s: Sequence)
    requires |s.auth| < 0x1_0000 && |s.buffer| <= U32_MAX
    ensures var tail := Field(s.auth) + (Be32(|s.buffer|) + (s.buffer + [if s.shortFirstBuffer then 1 else 0]));
            ReadTail(s.kind, tail) == if |s.buffer| > MAX_SEQUENCE_BYTES then Fail(RC_BAD_CONTEXT) else Ok(s)
  {
    var flag: Bytes := [if s.shortFirstBuffer then 1 else 0];
    hide ReadU8, ReadU32, ReadBytes, ReadSized, Field, Be32;
    ReadSizedExact(Field(s.auth) + (Be32(|s.buffer|) + (s.buffer + flag)), 0xFFFF, s.auth, Be32(|s.buffer|) + (s.buffer + flag));
    ReadU32Exact(Be32(|s.buffer|) + (s.buffer + flag), |s.buffer|, s.buffer + flag);
    ReadBytesExact(s.buffer + flag, |s.buffer|, s.buffer, flag);
    assert flag == [flag[0]] + [];
    ReadU8Exact(flag, flag[0], []);
  }

  /** Reading undoes writing exactly within the bounds: a longer buffer is written but not read back. */
  lemma SequenceReadsBack(s: Sequence)
    requires (s.kind.Hmac? ==> |s.kind.key| < 0x1_0000) && |s.auth| < 0x1_0000 && |s.buffer| <= U32_MAX
    ensures ReadSequence(PrintSequence(s)) == Ok(s) <==> Bounded(s)
  {
    hide ReadTail, ReadKind, PrintKind, Field, Be32;
    var flag: Bytes := [if s.shortFirstBuffer then 1 else 0];
    Regroup(PrintKind(s.kind), Field(s.auth), Be32(|s.buffer|), s.buffer, flag);
    KindReads(s.kind, Field(s.auth) + (Be32(|s.buffer|) + (s.buffer + flag)));
    TailReads(s);
  }
}
