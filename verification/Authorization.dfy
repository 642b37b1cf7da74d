/** Checking one authorization: lockout, PIN counters, passwords, HMACs and policies. */
module Authorization {
  import opened Prelude
  import opened Commands
  import opened State

  // ---- Keys and digests ----

  /** An authValue without its trailing zero octets. */
  function TrimAuth(auth: Bytes): Bytes {
    if auth != [] && auth[|auth| - 1] == 0 then TrimAuth(auth[..|auth| - 1]) else auth
  }

  predicate IsBoundTo(s: Session, name: Bytes, auth: Bytes) {
    s.bind != RH_NULL && s.bindName != [] && s.bindName == name + TrimAuth(auth)
  }

  function HmacKey(s: Session, name: Bytes, auth: Bytes): Bytes {
    var wantsAuth := if s.IsPolicy() then s.policy.authValueNeeded else !IsBoundTo(s, name, auth);
    if wantsAuth then s.sessionKey + TrimAuth(auth) else s.sessionKey
  }

  function Joined(parts: seq<Bytes>): Bytes {
    if parts == [] then [] else parts[0] + Joined(parts[1..])
  }

  function DigestOf(w: World, alg: uint16, data: Bytes): Result<Bytes> {
    if w.digestSize(alg).None? then Fail(RC_HASH) else Ok(w.digest(alg, data))
  }

  function CpHash(w: World, alg: uint16, code: uint32, names: seq<Bytes>, parameters: Bytes): Result<Bytes> {
    DigestOf(w, alg, Be32(code) + Joined(names) + parameters)
  }

  /** Only successful responses are hashed here, so the response code is zero. */
  function RpHash(w: World, alg: uint16, code: uint32, parameters: Bytes): Result<Bytes> {
    DigestOf(w, alg, Be32(0) + Be32(code) + parameters)
  }

  function AuthHmac(w: World, alg: uint16, key: Bytes, pHash: Bytes, newer: Bytes, older: Bytes,
                    aux: (Bytes, Bytes), attributes: byte): Result<Bytes>
  {
    if w.digestSize(alg).None? then Fail(RC_HASH)
    else Ok(w.hmac(alg, key, pHash + newer + older + aux.0 + aux.1 + [attributes]))
  }

  /** An HMAC may be left out only when its key is empty, and one that is sent is always checked. */
  predicate HmacAccepted(key: Bytes, expected: Bytes, supplied: Bytes) {
    (key == [] && supplied == []) || expected == supplied
  }

  /** The first session at or after `i` that carries the attribute. */
  function FirstWith(sessions: seq<SessionInput>, bit: int, i: nat): (r: Option<nat>)
    requires bit > 0 && i <= |sessions|
    ensures r.Some? ==> r.value < |sessions| && Has(sessions[r.value].attributes, bit)
    decreases |sessions| - i
  {
    if i == |sessions| then None
    else if Has(sessions[i].attributes, bit) then Some(i)
    else FirstWith(sessions, bit, i + 1)
  }

  function NonceAt(s: Tpm, q: Request, index: Option<nat>): Bytes
    requires index.Some? ==> index.value < |q.sessions|
  {
    if index.Some? && q.sessions[index.value].handle in s.sessions
    then s.sessions[q.sessions[index.value].handle].nonceTpm
    else []
  }

  /** The nonces of the decrypt and encrypt sessions, which the first session's HMAC covers. */
  function AuxiliaryNonces(s: Tpm, q: Request, index: nat): (Bytes, Bytes) {
    if index != 0 then ([], [])
    else
      var decrypt := FirstWith(q.sessions, DECRYPT, 0);
      var encrypt := FirstWith(q.sessions, ENCRYPT, 0);
      (NonceAt(s, q, decrypt), if encrypt.Some? && encrypt != decrypt then NonceAt(s, q, encrypt) else [])
  }

  // ---- The entity a handle names ----

  function EntityAt(w: World, s: Tpm, h: uint32): Result<Entity> {
    match w.name(s.store, h) case Err(e) => Err(e) case Ok(name) =>
    if h == RH_LOCKOUT then
      var held := w.lockoutEntity(s.store);
      Ok(Entity(name, held.0, held.1, true, true, true, None))
    else if IsNvHandle(h) then
      match IndexAt(s, h) case Err(e) => Err(e) case Ok(index) =>
      if !w.nvReachable(s.store, index.platformCreated) then Fail(RC_HANDLE)
      else Ok(Entity(name, index.auth, index.policy, !index.noDa, true, true,
                     if index.pin.Some? then Some(h) else None))
    else
      match w.entity(s.store, h) case Err(e) => Err(e) case Ok(entity) =>
      Ok(entity.(name := name, pin := None))
  }

  // ---- Lockout ----

  predicate Protected(s: Tpm, q: Request, index: nat, entity: Entity)
    requires index < |q.sessions|
  {
    || entity.usesLockout
    || (q.sessions[index].handle != RS_PW
        && q.sessions[index].handle in s.sessions
        && s.sessions[q.sessions[index].handle].bindUsesLockout)
  }

  /** The authorization would put an authValue to use. */
  predicate UsesAuthValue(s: Tpm, q: Request, index: nat)
    requires index < |q.sessions|
  {
    var h := q.sessions[index].handle;
    if h == RS_PW || h !in s.sessions then true
    else
      var session := s.sessions[h];
      session.bindUsesLockout || !session.IsPolicy() || session.policy.authValueNeeded || session.policy.passwordNeeded
  }

  function LockoutAnswer(s: Tpm, q: Request, index: nat, isProtected: bool): Result<()>
    requires index < |q.sessions|
  {
    var barred := (isProtected && s.lockout.LockedOut()) || (s.lockout.inLockout && q.HandleIs(index, RH_LOCKOUT));
    if !barred || q.code == CC_DICTIONARY_ATTACK_LOCK_RESET || !UsesAuthValue(s, q, index) then Ok(())
    else Fail(RC_LOCKOUT)
  }

  function SaturatingAdd(a: nat, b: nat, most: nat): nat {
    if a + b > most then most else a + b
  }

  function AfterFailure(s: Tpm, usesLockout: bool): Tpm {
    if !usesLockout || s.lockout.ProtectionOff() then s
    else s.(lockout := s.lockout.(
      failedTries := SaturatingAdd(s.lockout.failedTries, 1, U32_MAX),
      nextRecovery := SaturatingAdd(s.clock.time, s.lockout.recoveryTime * 1000, U64_MAX)))
  }

  /** When the special lockout ends of itself; zero if it takes a restart. */
  function SpecialDeadline(s: Tpm): uint64 {
    if s.lockout.lockoutRecovery == 0 then 0
    else SaturatingAdd(s.clock.time, s.lockout.lockoutRecovery * 1000, U64_MAX)
  }

  function AfterLockoutFailure(s: Tpm): Tpm {
    s.(lockout := s.lockout.(inLockout := true, lockoutUntil := SpecialDeadline(s)))
  }

  // ---- PIN Indices ----

  function PinAnswer(s: Tpm, entity: Entity): Result<()> {
    if entity.pin.None? then Ok(())
    else match IndexAt(s, entity.pin.value) case Err(e) => Err(e) case Ok(index) =>
      if !index.written then Fail(RC_AUTH_UNAVAILABLE)
      else match index.PinCounters() case Err(e) => Err(e) case Ok(p) =>
        if p.count >= p.limit then Fail(RC_AUTH_FAIL) else Ok(())
  }

  /** PIN counters are read from the store alone. */
  lemma PinAnswerReadsStore(s: Tpm, t: Tpm, entity: Entity)
    requires t.store == s.store
    ensures PinAnswer(t, entity) == PinAnswer(s, entity)
  {
  }

  function MovedCount(kind: PinKind, accepted: bool, count: uint32): uint32 {
    match (kind, accepted)
    case (PinFail, true) => 0
    case (PinFail, false) => SaturatingAdd(count, 1, U32_MAX)
    case (PinPass, true) => SaturatingAdd(count, 1, U32_MAX)
    case (PinPass, false) => count
  }

  function AfterPin(s: Tpm, entity: Entity, accepted: bool): Step<()> {
    if entity.pin.None? then Step(s, Ok(()))
    else match IndexAt(s, entity.pin.value) case Err(e) => Step(s, Err(e)) case Ok(index) =>
      match index.PinCounters() case Err(e) => Step(s, Err(e)) case Ok(p) =>
        var moved := index.(counters := Some(p.(count := MovedCount(index.pin.value, accepted, p.count))), written := true);
        Step(s.(store := s.store.(nv := s.store.nv[entity.pin.value := moved])), Ok(()))
  }

  // ---- Comparisons ----

  function FailureCode(isProtected: bool): nat {
    if isProtected then RC_AUTH_FAIL else RC_BAD_AUTH
  }

  function AtSession(r: Result<()>, position: nat): Result<()> {
    match r case Ok(u) => Ok(u) case Err(e) => Err(e.WithSession(position))
  }

  function AfterCompare(s: Tpm, accepted: bool, usesLockout: bool, isLockoutAuth: bool): Step<()> {
    if accepted then Step(s, Ok(()))
    else Step(AfterFailure(if isLockoutAuth then AfterLockoutFailure(s) else s, usesLockout),
              Fail(FailureCode(usesLockout)))
  }

  /** The handle an authorization is for, when the handle area reaches it. */
  function HandleAt(q: Request, index: nat): uint32 {
    if index < |q.handles| then q.handles[index] else RH_NULL
  }

  /** A value given in the clear, by a password session or a policy that calls for one. */
  function ByPassword(s: Tpm, q: Request, index: nat, entity: Entity, isProtected: bool, use: Use): Step<()>
    requires index < |q.sessions|
  {
    match AtSession(PinAnswer(s, entity), index + 1) case Err(e) => Step(s, Err(e)) case Ok(_) =>
    var accepted := TrimAuth(q.sessions[index].hmac) == TrimAuth(entity.auth);
    var s1 := s.Note(Compared(HandleAt(q, index), use, isProtected, entity.pin, accepted));
    var compared := AfterCompare(s1, accepted, isProtected, q.HandleIs(index, RH_LOCKOUT));
    var moved := AfterPin(compared.tpm, entity, accepted);
    if moved.result.Err? then moved else Step(moved.tpm, AtSession(compared.result, index + 1))
  }

  function ExpectedHmac(w: World, s: Tpm, q: Request, index: nat, session: Session, key: Bytes, cp: Bytes): Result<Bytes>
    requires index < |q.sessions|
  {
    var input := q.sessions[index];
    AuthHmac(w, session.authHash, key, cp, input.nonceCaller, session.nonceTpm,
             AuxiliaryNonces(s, q, index), input.attributes)
  }

  /** The HMAC of a session. `guarded` says that it proves a protected value. */
  function ByHmac(w: World, s: Tpm, q: Request, index: nat, entity: Entity, key: Bytes, cp: Bytes, session: Session,
                  use: Use, isProtected: bool, guarded: bool): Step<()>
    requires index < |q.sessions|
  {
    match ExpectedHmac(w, s, q, index, session, key, cp) case Err(e) => Step(s, Err(e)) case Ok(expected) =>
    match AtSession(PinAnswer(s, entity), index + 1) case Err(e) => Step(s, Err(e)) case Ok(_) =>
    var accepted := HmacAccepted(key, expected, q.sessions[index].hmac);
    var s1 := s.Note(Compared(HandleAt(q, index), use, guarded, entity.pin, accepted));
    var moved := AfterPin(s1, entity, accepted);
    if moved.result.Err? then moved
    else
      // only an HMAC session that fails against lockoutAuth enters the special lockout
      var compared := AfterCompare(moved.tpm, accepted, isProtected, use == Hmac && q.HandleIs(index, RH_LOCKOUT));
      Step(compared.tpm, AtSession(compared.result, index + 1))
  }

  // ---- Policies ----

  predicate LocalityAllowed(mask: byte, locality: nat) {
    locality < 5 && Has(mask, [1, 2, 4, 8, 16][locality])
  }

  /** The body of the TPM2B at the front of a parameter area. */
  function FirstSized(parameters: Bytes): Option<Bytes> {
    if |parameters| < 2 || |parameters| < 2 + FromBe16(parameters[..2]) then None
    else Some(parameters[2..2 + FromBe16(parameters[..2])])
  }

  function SecondSized(parameters: Bytes): Option<Bytes> {
    match FirstSized(parameters)
    case None => None
    case Some(body) => FirstSized(parameters[2 + |body|..])
  }

  function NamesOf(w: World, s: Tpm, handles: seq<uint32>): Result<seq<Bytes>> {
    if handles == [] then Ok([])
    else match w.name(s.store, handles[0]) case Err(e) => Err(e) case Ok(name) =>
      match NamesOf(w, s, handles[1..]) case Err(e) => Err(e) case Ok(rest) => Ok([name] + rest)
  }

  /** A recorded digest, when there is one, is the digest of `data`. */
  function DigestAnswer(w: World, recorded: Option<Bytes>, alg: uint16, data: Bytes, refused: TpmRc): Result<()> {
    if recorded.None? then Ok(())
    else match DigestOf(w, alg, data) case Err(e) => Err(e) case Ok(got) =>
      if got == recorded.value then Ok(()) else Err(refused)
  }

  /** What the policy digest and the immediate restrictions say. */
  function PolicyStands(w: World, s: Tpm, q: Request, entity: Entity, cp: Bytes, session: Session, position: nat): Result<()> {
    var p := session.policy;
    var refused := TpmRc(RC_POLICY_FAIL, Nowhere).WithSession(position);
    if entity.policy.None? then Err(TpmRc(RC_AUTH_UNAVAILABLE, Nowhere).WithSession(position))
    else if entity.policy.value.0 != session.authHash || p.digest != entity.policy.value.1 then Err(refused)
    else if p.commandCode.Some? && p.commandCode.value != q.code then
      Err(TpmRc(RC_POLICY_CC, Nowhere).WithSession(position))
    else if p.cpHash.Some? && p.cpHash.value != cp then Err(refused)
    else if p.locality.Some? && !LocalityAllowed(p.locality.value, q.locality) then Fail(RC_LOCALITY)
    else if p.pcrUpdateCounter.Some? && p.pcrUpdateCounter.value != w.pcrCounter(s.store) then
      Err(TpmRc(RC_PCR_CHANGED, Nowhere).WithSession(position))
    else if p.expiration.Some? && (session.timeEpoch != s.clock.epoch || s.clock.time > p.expiration.value) then
      Err(TpmRc(RC_EXPIRED, Nowhere).WithSession(position))
    else if p.secureChannelRequired then Fail(RC_CHANNEL)
    else if p.physicalPresenceRequired && !s.mode.physicalPresence then Fail(RC_PP)
    else Ok(())
  }

  /** What the restrictions on the entities and parameters named say. */
  function PolicyBinds(w: World, s: Tpm, q: Request, session: Session, position: nat): Result<()> {
    var p := session.policy;
    var refused := TpmRc(RC_POLICY_FAIL, Nowhere).WithSession(position);
    if p.nvWritten.Some? && (IndexAt(s, if q.handles == [] then 0 else q.handles[0]).Err?
                             || IndexAt(s, if q.handles == [] then 0 else q.handles[0]).value.written != p.nvWritten.value) then Err(refused)
    else
      var _ :- if p.nameHash.None? then Ok(())
               else if w.digestSize(session.authHash).None? then Fail(RC_HASH)
               else match NamesOf(w, s, q.handles)
                 case Err(e) => Err(e)
                 case Ok(names) => DigestAnswer(w, p.nameHash, session.authHash, Joined(names), refused);
      var _ :- if p.templateHash.None? then Ok(())
               else match SecondSized(q.parameters)
                 case None => Err(refused)
                 case Some(template) => DigestAnswer(w, p.templateHash, session.authHash, template, refused);
      DigestAnswer(w, p.parametersHash, session.authHash, Be32(q.code) + q.parameters, refused)
  }

  /** The entity a policy HMAC answers for: the PIN counters only when the authValue is called for. */
  function PolicyEntity(entity: Entity, session: Session): Entity {
    if session.policy.authValueNeeded then entity else entity.(pin := None)
  }

  function ByPolicy(w: World, s: Tpm, q: Request, index: nat, entity: Entity, cp: Bytes, session: Session, isProtected: bool): Step<()>
    requires index < |q.sessions|
  {
    match PolicyStands(w, s, q, entity, cp, session, index + 1) case Err(e) => Step(s, Err(e)) case Ok(_) =>
    match PolicyBinds(w, s, q, session, index + 1) case Err(e) => Step(s, Err(e)) case Ok(_) =>
    if session.policy.passwordNeeded then ByPassword(s, q, index, entity, isProtected, PolicyPassword)
    else ByHmac(w, s, q, index, PolicyEntity(entity, session), HmacKey(session, entity.name, entity.auth), cp, session,
                PolicyHmac, isProtected, isProtected && (session.policy.authValueNeeded || session.bindUsesLockout))
  }

  // ---- One authorization ----

  function RoleAnswer(role: Role, entity: Entity, position: nat): Result<()> {
    if role == Dup || (role == Admin && entity.adminWithPolicy)
    then Err(TpmRc(RC_AUTH_TYPE, Nowhere).WithSession(position))
    else if !entity.userWithAuth then Err(TpmRc(RC_POLICY_FAIL, Nowhere).WithSession(position))
    else Ok(())
  }

  predicate AuthIsPolicy(s: Tpm, q: Request, index: nat)
    requires index < |q.sessions|
  {
    var h := q.sessions[index].handle;
    h != RS_PW && h in s.sessions && s.sessions[h].IsPolicy()
  }

  /** Whether the kind of authorization chosen is one the Index offers. */
  function NvAnswer(w: World, s: Tpm, q: Request, index: nat, role: Role): Result<()>
    requires index < |q.sessions|
  {
    var access := w.nvAccess(q.code);
    if role != User || access.None? then Ok(())
    else if index >= |q.handles| then Fail(RC_VALUE)
    else
      var h := q.handles[index];
      var position := w.nvIndexHandle(q.code);
      if !IsNvHandle(h) || (position.Some? && !q.HandleIs(position.value, h)) then Ok(())
      else match IndexAt(s, h) case Err(e) => Err(e) case Ok(nv) =>
        var offered := match (access.value, AuthIsPolicy(s, q, index))
          case (Writes, true) => nv.policyWrite
          case (Writes, false) => nv.authWrite
          case (Reads, true) => nv.policyRead
          case (Reads, false) => nv.authRead;
        if offered then Ok(()) else Err(TpmRc(RC_AUTH_UNAVAILABLE, Nowhere).WithSession(index + 1))
  }

  function Authorized(w: World, s: Tpm, q: Request, index: nat, entity: Entity, cp: Bytes): Step<()>
    requires index < |q.sessions|
  {
    var h := q.sessions[index].handle;
    var isProtected := Protected(s, q, index, entity);
    var role := w.role(q.code, index);
    match LockoutAnswer(s, q, index, isProtected) case Err(e) => Step(s, Err(e)) case Ok(_) =>
    match NvAnswer(w, s, q, index, role) case Err(e) => Step(s, Err(e)) case Ok(_) =>
    if h == RS_PW then
      match RoleAnswer(role, entity, index + 1) case Err(e) => Step(s, Err(e)) case Ok(_) =>
      ByPassword(s, q, index, entity, isProtected, Password)
    else match SessionAt(s, h) case Err(e) => Step(s, Err(e)) case Ok(session) =>
      if session.kind == TrialSession then Step(s, Err(TpmRc(RC_AUTH_TYPE, Nowhere).WithSession(index + 1)))
      else if session.IsPolicy() then
        if (role == Admin || role == Dup) && session.policy.commandCode != Some(q.code)
        then Step(s, Err(TpmRc(RC_POLICY_FAIL, Nowhere).WithSession(index + 1)))
        else ByPolicy(w, s, q, index, entity, cp, session, isProtected)
      else
        match RoleAnswer(role, entity, index + 1) case Err(e) => Step(s, Err(e)) case Ok(_) =>
        ByHmac(w, s, q, index, entity, HmacKey(session, entity.name, entity.auth), cp, session,
               Hmac, isProtected, isProtected)
  }
}
