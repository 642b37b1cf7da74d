/** One command from its buffer to its answer, as a function of the state. */
module Pipeline {
  import opened Prelude
  import opened Commands
  import opened CommandParse
  import opened State
  import opened Authorization
  import opened Audit
  import opened Actions

  const ALG_SHA256 := 0x000B

  /** The answer to a command that succeeded. */
  datatype Reply = Reply(handle: Option<uint32>, parameters: Bytes, attributes: seq<byte>)

  // ---- Before any authorization ----

  predicate WritesNv(q: Request) {
    q.info.nv || q.info.authHandles > 0
  }

  /** Any command other than another TPM2_Shutdown undoes the shutdown indication. */
  function Nullified(s: Tpm, q: Request): Tpm {
    if s.mode.started && q.code != CC_SHUTDOWN && s.mode.shutdownType != SU_NONE
    then s.(mode := s.mode.(shutdownType := SU_NONE, orderly := false))
    else s
  }

  predicate NeedsPresence(s: Tpm, q: Request) {
    || q.code == CC_PP_COMMANDS
    || (q.code in s.mode.ppCommands && RH_PLATFORM in q.handles[..Least(q.info.authHandles, |q.handles|)])
  }

  function HandlesAllowed(w: World, q: Request, i: nat): Result<()>
    requires i <= |q.handles|
    decreases |q.handles| - i
  {
    if i == |q.handles| then Ok(())
    else if !w.handleAllowed(q.code, i, q.handles[i]) then Err(TpmRc(RC_VALUE, Nowhere).WithHandle(i + 1))
    else HandlesAllowed(w, q, i + 1)
  }

  function ReadOnlyAnswer(w: World, s: Tpm, q: Request): Result<()> {
    if !s.mode.readOnly then Ok(())
    else if w.refusedWhenReadOnly(q.code) then Fail(RC_READ_ONLY)
    else
      var _ :- if !w.needsVolatileIndex(q.code) then Ok(())
               else if q.handles == [] then Fail(RC_VALUE)
               else match IndexAt(s, if |q.handles| > 1 then q.handles[1] else q.handles[0])
                 case Err(e) => Err(e.WithHandle(1))
                 case Ok(index) => if index.staysVolatile then Ok(()) else Fail(RC_READ_ONLY);
      if q.code != CC_POLICY_SECRET then Ok(())
      else if q.handles == [] then Fail(RC_VALUE)
      else if IsNvHandle(q.handles[0]) && q.handles[0] in s.store.nv && s.store.nv[q.handles[0]].pin.Some?
      then Fail(RC_READ_ONLY)
      else Ok(())
  }

  /** The checks that need no session, in the order they are made. */
  function Gated(w: World, s: Tpm, q: Request): Step<()> {
    if !s.mode.started && q.code != CC_STARTUP then Step(s, Fail(RC_INITIALIZE))
    else if (!s.mode.nvAvailable || s.mode.nvWriteFailed) && WritesNv(q) then Step(s, Fail(RC_NV_UNAVAILABLE))
    else if s.mode.started && q.code == CC_STARTUP then Step(s, Fail(RC_INITIALIZE))
    else
      var s1 := Nullified(s, q);
      if NeedsPresence(s1, q) && !s1.mode.physicalPresence then Step(s1, Fail(RC_PP))
      else if w.takesNoParameters(q.code) && q.parameters != [] then Step(s1, Fail(RC_SIZE))
      else match HandlesAllowed(w, q, 0) case Err(e) => Step(s1, Err(e)) case Ok(_) =>
      Step(s1, ReadOnlyAnswer(w, s1, q))
  }

  predicate HandlePresent(w: World, s: Tpm, h: uint32) {
    if IsSessionHandle(h) then h in s.sessions else w.present(s.store, h)
  }

  /** The Names of the handle area, from position `i`. */
  function Names(w: World, s: Tpm, q: Request, i: nat): Result<seq<Bytes>>
    requires i <= |q.handles|
    decreases |q.handles| - i
  {
    if i == |q.handles| then Ok([])
    else
      var h := q.handles[i];
      if !HandlePresent(w, s, h) then Fail(RC_REFERENCE_H0 + i)
      else match w.available(s.store, h) case Err(e) => Err(e.WithHandle(i + 1)) case Ok(_) =>
      match w.name(s.store, h) case Err(e) => Err(e.WithHandle(i + 1)) case Ok(name) =>
      match Names(w, s, q, i + 1) case Err(e) => Err(e) case Ok(rest) =>
      Ok([name] + rest)
  }

  function SessionHandlesAnswer(s: Tpm, q: Request, i: nat): Result<()>
    requires i <= |q.sessions|
    decreases |q.sessions| - i
  {
    if i == |q.sessions| then Ok(())
    else
      var h := q.sessions[i].handle;
      if h == RS_PW then SessionHandlesAnswer(s, q, i + 1)
      else if !IsSessionHandle(h) then Err(TpmRc(RC_HANDLE, Nowhere).WithSession(i + 1))
      else if h !in s.sessions then Fail(RC_REFERENCE_S0 + i)
      else SessionHandlesAnswer(s, q, i + 1)
  }

  /** Which of the three jobs a session before this one already took. */
  datatype Taken = Taken(audit: bool, decrypt: bool, encrypt: bool)

  predicate HasAny(attributes: byte) {
    Has(attributes, DECRYPT) || Has(attributes, ENCRYPT) || Has(attributes, AUDIT)
  }

  predicate AttributesAllowed(q: Request, i: nat, taken: Taken)
    requires i < |q.sessions|
  {
    var a := q.sessions[i].attributes;
    && !(q.sessions[i].handle == RS_PW && HasAny(a))
    && !(!Has(a, AUDIT) && (Has(a, AUDIT_EXCLUSIVE) || Has(a, AUDIT_RESET)))
    && !(Has(a, AUDIT) && (taken.audit || i < q.info.authHandles))
    && !(Has(a, DECRYPT) && taken.decrypt)
    && !(Has(a, ENCRYPT) && taken.encrypt)
    && !(i >= q.info.authHandles && !HasAny(a))
  }

  function SessionAttributesAnswer(q: Request, i: nat, taken: Taken): Result<()>
    requires i <= |q.sessions|
    decreases |q.sessions| - i
  {
    if i == |q.sessions| then Ok(())
    else if !AttributesAllowed(q, i, taken) then Err(TpmRc(RC_ATTRIBUTES, Nowhere).WithSession(i + 1))
    else
      var a := q.sessions[i].attributes;
      SessionAttributesAnswer(q, i + 1, Taken(
        taken.audit || Has(a, AUDIT), taken.decrypt || Has(a, DECRYPT), taken.encrypt || Has(a, ENCRYPT)))
  }

  // ---- Authorizing ----

  /** The hash the cpHash of session `i` is taken with. */
  function SessionHash(s: Tpm, q: Request, i: nat): Result<uint16>
    requires i < |q.sessions|
  {
    if q.sessions[i].handle == RS_PW then Ok(ALG_SHA256)
    else match SessionAt(s, q.sessions[i].handle) case Err(e) => Err(e) case Ok(session) => Ok(session.authHash)
  }

  /** The authorization of handle `i`. It yields the authValue it was judged against. */
  function AuthorizedAt(w: World, s: Tpm, q: Request, names: seq<Bytes>, i: nat): Step<Bytes> {
    if i >= |q.sessions| then Step(s, Err(TpmRc(RC_AUTH_MISSING, Nowhere).WithSession(i + 1)))
    else if i >= |q.handles| then Step(s, Fail(RC_VALUE))
    else match EntityAt(w, s, q.handles[i]) case Err(e) => Step(s, Err(e.WithHandle(i + 1))) case Ok(entity) =>
    match SessionHash(s, q, i) case Err(e) => Step(s, Err(e)) case Ok(alg) =>
    match CpHash(w, alg, q.code, names, q.parameters) case Err(e) => Step(s, Err(e)) case Ok(cp) =>
    match Authorized(w, s, q, i, entity, cp)
    case Step(s1, Err(e)) => Step(s1, Err(e))
    case Step(s1, Ok(_)) => Step(s1, Ok(entity.auth))
  }

  function AuthorizedFrom(w: World, s: Tpm, q: Request, names: seq<Bytes>, i: nat): Step<seq<Bytes>>
    requires i <= q.info.authHandles
    decreases q.info.authHandles - i
  {
    if i == q.info.authHandles then Step(s, Ok([]))
    else match AuthorizedAt(w, s, q, names, i)
      case Step(s1, Err(e)) => Step(s1, Err(e))
      case Step(s1, Ok(auth)) =>
        match AuthorizedFrom(w, s1, q, names, i + 1)
        case Step(s2, Err(e)) => Step(s2, Err(e))
        case Step(s2, Ok(rest)) => Step(s2, Ok([auth] + rest))
  }

  /** The HMAC of a session that authorizes nothing, keyed by its session key alone. */
  function KeyHmac(w: World, s: Tpm, q: Request, names: seq<Bytes>, i: nat): Result<Bytes>
    requires i < |q.sessions| && q.sessions[i].handle in s.sessions
  {
    var session := s.sessions[q.sessions[i].handle];
    var cp :- CpHash(w, session.authHash, q.code, names, q.parameters);
    ExpectedHmac(w, s, q, i, session, session.sessionKey, cp)
  }

  /** A session that authorizes nothing still proves its session key. Neither the
    lockout nor its record is looked at, although the key of a bound session
    carries the authValue it was bound with. No session is ever bound to a PIN Index. */
  function ExtraSession(w: World, s: Tpm, q: Request, names: seq<Bytes>, i: nat): Step<()>
    requires i < |q.sessions|
  {
    var input := q.sessions[i];
    match SessionAt(s, input.handle) case Err(e) => Step(s, Err(e)) case Ok(session) =>
    if session.sessionKey == [] && input.hmac == [] then Step(s, Ok(()))
    else match KeyHmac(w, s, q, names, i) case Err(e) => Step(s, Err(e)) case Ok(expected) =>
    var accepted := expected == input.hmac;
    Step(s.Note(Compared(RH_NULL, KeyOnly, session.bindUsesLockout, None, accepted)),
         if accepted then Ok(()) else Err(TpmRc(RC_AUTH_FAIL, Nowhere).WithSession(i + 1)))
  }

  function ExtraSessions(w: World, s: Tpm, q: Request, names: seq<Bytes>, i: nat): Step<()>
    decreases |q.sessions| - i
  {
    if i >= |q.sessions| then Step(s, Ok(()))
    else match ExtraSession(w, s, q, names, i)
      case Step(s1, Err(e)) => Step(s1, Err(e))
      case Step(s1, Ok(_)) => ExtraSessions(w, s1, q, names, i + 1)
  }

  // ---- Parameter encryption ----

  function Spliced(parameters: Bytes, body: Bytes): Bytes {
    if 2 + |body| <= |parameters| then parameters[..2] + body + parameters[2 + |body|..] else parameters
  }

  function AuthOf(auths: seq<Bytes>, i: nat): Bytes {
    if i < |auths| then auths[i] else []
  }

  function Decrypted(w: World, s: Tpm, q: Request, auths: seq<Bytes>): Result<Bytes> {
    var index := FirstWith(q.sessions, DECRYPT, 0);
    if index.None? then Ok(q.parameters)
    else
      var i := index.value;
      var input := q.sessions[i];
      if input.handle == RS_PW then Err(TpmRc(RC_ATTRIBUTES, Nowhere).WithSession(i + 1))
      else match SessionAt(s, input.handle) case Err(e) => Err(e.WithSession(i + 1)) case Ok(session) =>
      match FirstSized(q.parameters) case None => Err(TpmRc(RC_SIZE, Nowhere).WithParameter(1)) case Some(body) =>
      match w.transform(session, input, AuthOf(auths, i), body, false) case Err(e) => Err(e) case Ok(plain) =>
      Ok(Spliced(q.parameters, plain))
  }

  function Encrypted(w: World, s: Tpm, q: Request, parameters: Bytes, auths: seq<Bytes>): Result<Bytes> {
    var index := FirstWith(q.sessions, ENCRYPT, 0);
    if index.None? then Ok(parameters)
    else
      var i := index.value;
      var input := q.sessions[i];
      if input.handle == RS_PW then Err(TpmRc(RC_ATTRIBUTES, Nowhere).WithSession(i + 1))
      else match SessionAt(s, input.handle) case Err(e) => Err(e) case Ok(session) =>
      match FirstSized(parameters) case None => Ok(parameters) case Some(body) =>
      match w.transform(session, input, AuthOf(auths, i), body, true) case Err(e) => Err(e) case Ok(cipher) =>
      Ok(Spliced(parameters, cipher))
  }

  // ---- Everything before the command runs ----

  datatype Admission = Admission(names: seq<Bytes>, auths: seq<Bytes>, parameters: Bytes)

  /** The checks between the gates and the authorizations, and the Names they give. */
  function Resolved(w: World, s: Tpm, q: Request): Result<seq<Bytes>> {
    var names :- Names(w, s, q, 0);
    var _ :- SessionHandlesAnswer(s, q, 0);
    var _ :- SessionAttributesAnswer(q, 0, Taken(false, false, false));
    Ok(names)
  }

  /** The checks after the authorizations, and the parameters in the clear. */
  function FinalChecks(w: World, s: Tpm, q: Request, names: seq<Bytes>, auths: seq<Bytes>): Step<Admission> {
    match ExtraSessions(w, s, q, names, q.info.authHandles)
    case Step(s1, Err(e)) => Step(s1, Err(e))
    case Step(s1, Ok(_)) =>
      match AuditSessionAnswer(s1, q) case Err(e) => Step(s1, Err(e)) case Ok(_) =>
      match Decrypted(w, s1, q, auths) case Err(e) => Step(s1, Err(e)) case Ok(parameters) =>
      Step(s1, Ok(Admission(names, auths, parameters)))
  }

  function Admitted(w: World, s: Tpm, q: Request): Step<Admission> {
    match Gated(w, s, q)
    case Step(s1, Err(e)) => Step(s1, Err(e))
    case Step(s1, Ok(_)) =>
      match Resolved(w, s1, q) case Err(e) => Step(s1, Err(e)) case Ok(names) =>
      match AuthorizedFrom(w, s1, q, names, 0)
      case Step(s2, Err(e)) => Step(s2, Err(e))
      case Step(s2, Ok(auths)) => FinalChecks(w, s2, q, names, auths)
  }

  // ---- After it ran ----

  /** The nonces of session `i` roll forward. */
  function RolledAt(w: World, s: Tpm, q: Request, i: nat): Step<()>
    requires i < |q.sessions|
  {
    var h := q.sessions[i].handle;
    if h == RS_PW || h !in s.sessions then Step(s, Ok(()))
    else
      var drawn := w.random(s.store, |s.sessions[h].nonceTpm|);
      var s1 := s.(store := s.store.(rest := drawn.0.rest));
      match drawn.1 case Err(e) => Step(s1, Err(e)) case Ok(nonce) =>
      Step(s1.(sessions := s1.sessions[h := s1.sessions[h].(
        nonceTpm := nonce, nonceCaller := q.sessions[i].nonceCaller)]), Ok(()))
  }

  function RolledFrom(w: World, s: Tpm, q: Request, i: nat): Step<()>
    requires i <= |q.sessions|
    decreases |q.sessions| - i
  {
    if i == |q.sessions| then Step(s, Ok(()))
    else match RolledAt(w, s, q, i)
      case Step(s1, Err(e)) => Step(s1, Err(e))
      case Step(s1, Ok(_)) => RolledFrom(w, s1, q, i + 1)
  }

  /** auditExclusive answers for the status the session holds now. */
  function ResponseAttributes(s: Tpm, q: Request): seq<byte> {
    seq(|q.sessions|, i requires 0 <= i < |q.sessions| => ResponseAttribute(s, q.sessions[i]))
  }

  function ResponseAttribute(s: Tpm, input: SessionInput): byte {
    var cleared := if Has(input.attributes, AUDIT_EXCLUSIVE) then input.attributes - AUDIT_EXCLUSIVE else input.attributes;
    if input.handle == RS_PW then CONTINUE_SESSION
    else if Has(input.attributes, AUDIT) && s.exclusive == input.handle then cleared + AUDIT_EXCLUSIVE
    else cleared
  }

  function Flushed(w: World, s: Tpm, q: Request): Tpm {
    var i := if q.code == CC_EVENT_SEQUENCE_COMPLETE then 1 else 0;
    if !q.info.flushed || i >= |q.handles| then s
    else s.(store := s.store.(rest := w.removeObject(s.store, q.handles[i]).rest))
  }

  /** From the action's answer to the audit update, and the response parameters. */
  function Accounted(w: World, s: Tpm, q: Request, a: Admission): Step<Response> {
    var ran := RunCommand(w, s.(suppressed := false), q.(parameters := a.parameters));
    match ran.result case Err(e) => Step(ran.tpm, Err(e)) case Ok(response) =>
    if ran.consumed < |a.parameters| then Step(ran.tpm, Fail(RC_SIZE)) else
    match RolledFrom(w, ran.tpm, q, 0)
    case Step(s2, Err(e)) => Step(s2, Err(e))
    case Step(s2, Ok(_)) =>
      match Encrypted(w, s2, q, response.parameters, a.auths) case Err(e) => Step(s2, Err(e)) case Ok(parameters) =>
      match AfterAudit(w, s2, q, a.names, q.parameters, parameters)
      case Step(s3, Err(e)) => Step(s3, Err(e))
      case Step(s3, Ok(_)) => Step(s3, Ok(Response(response.handle, parameters)))
  }

  /** Only a response with a session area can fail to be built. */
  function ResponseAnswer(w: World, s: Tpm, q: Request): Result<()> {
    if q.tag == ST_SESSIONS then w.response(s.Visible(), q) else Ok(())
  }

  function Completed(w: World, s: Tpm, q: Request, a: Admission): Step<Reply> {
    match Accounted(w, s, q, a)
    case Step(s1, Err(e)) => Step(s1, Err(e))
    case Step(s1, Ok(response)) =>
      match ResponseAnswer(w, s1, q) case Err(e) => Step(s1, Err(e)) case Ok(_) =>
      var s2 := Flushed(w, AfterSessions(w, s1, q, 0), q);
      Step(s2, Ok(Reply(response.handle, response.parameters, ResponseAttributes(s1, q))))
  }

  /** In failure mode only two commands are read at all, and only without sessions. */
  function ModeAnswer(s: Tpm, buf: Bytes): Result<()> {
    if !s.mode.failureMode then Ok(())
    else match HeaderOf(buf) case Err(e) => Err(e) case Ok(header) =>
      if !AllowedInFailureMode(header.code) || header.tag != ST_NO_SESSIONS then Fail(RC_FAILURE) else Ok(())
  }

  function Handled(w: World, s: Tpm, q: Request): Step<Reply> {
    match Admitted(w, s, q)
    case Step(s1, Err(e)) => Step(s1, Err(e))
    case Step(s1, Ok(a)) => Completed(w, s1, q, a)
  }

  /** The request in a buffer, if the TPM reads it. */
  function Received(w: World, s: Tpm, buf: Bytes, locality: nat): Result<Request> {
    match ModeAnswer(s, buf) case Err(e) => Err(e) case Ok(_) => Parsed(w.table, buf, locality)
  }

  function Executed(w: World, s: Tpm, buf: Bytes, locality: nat): Step<Reply> {
    match Received(w, s, buf, locality) case Err(e) => Step(s, Err(e)) case Ok(q) => Handled(w, s, q)
  }
}
