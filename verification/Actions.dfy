/** What running a command does to sessions, lockout and the audit log. The
  commands that touch those are followed exactly; any other acts through an
  `Effect`, which reaches nothing else. */
module Actions {
  import opened Prelude
  import opened Commands
  import opened Marshal
  import opened State
  import opened Authorization
  import opened Audit

  const SESSION_INDEX := 0x100_0000
  const TRANSIENT_FIRST := 0x8000_0000
  const TRANSIENT_LAST := 0x8000_001F
  const MAX_CAP_CC := 254

  /** The state a command left, its answer, and how far it read its parameters. */
  datatype Ran = Ran(tpm: Tpm, result: Result<Response>, consumed: nat)

  const EMPTY_RESPONSE := Response(None, [])

  // ---- Session handles ----

  /** The low three octets of a session handle are unique over both kinds. */
  predicate IdTaken(s: Tpm, i: nat) {
    exists h :: h in s.sessions.Keys + s.saved.Keys && h % SESSION_INDEX == i
  }

  function FirstFree(s: Tpm, i: nat): (r: Option<nat>)
    requires i <= MAX_ACTIVE_SESSIONS
    ensures r.Some? ==> r.value < MAX_ACTIVE_SESSIONS && !IdTaken(s, r.value)
    decreases MAX_ACTIVE_SESSIONS - i
  {
    if i == MAX_ACTIVE_SESSIONS then None
    else if !IdTaken(s, i) then Some(i)
    else FirstFree(s, i + 1)
  }

  function SessionBase(kind: SessionKind): uint32 {
    if kind == HmacSession then HMAC_SESSION_FIRST else POLICY_SESSION_FIRST
  }

  /** The handle of a new session names no other, loaded or saved, of either kind. */
  function NewHandle(s: Tpm, kind: SessionKind): (r: Option<uint32>)
    ensures r.Some? ==> IsSessionHandle(r.value) && !s.Open(r.value)
    ensures r.Some? ==> forall h: uint32 :: s.Open(h) ==> h % SESSION_INDEX != r.value % SESSION_INDEX
  {
    var id := FirstFree(s, 0);
    if id.None? then None
    else
      assert forall h: uint32 :: s.Open(h) ==> h in s.sessions.Keys + s.saved.Keys;
      Some(SessionBase(kind) + id.value)
  }

  // ---- The commands that open, close and move sessions ----

  function AfterOpen(w: World, s: Tpm, session: Session): Step<uint32> {
    var h := NewHandle(s, session.kind);
    if w.digestSize(session.authHash).None? then Step(s, Err(TpmRc(RC_HASH, Nowhere).WithParameter(5)))
    else if h.None? then Step(s, Fail(RC_SESSION_HANDLES))
    else if |s.sessions| >= MAX_LOADED_SESSIONS then Step(s, Fail(RC_SESSION_MEMORY))
    else if |s.sessions| + |s.saved| >= MAX_ACTIVE_SESSIONS then Step(s, Fail(RC_SESSION_HANDLES))
    else
      var begun := session.(
        policy := EmptyPolicy(w.digestSize(session.authHash).value), isAudit := false, auditDigest := []);
      Step(s.(sessions := s.sessions[h.value := begun]).Note(Opened(h.value)), Ok(h.value))
  }

  predicate IsTransient(h: uint32) {
    TRANSIENT_FIRST <= h <= TRANSIENT_LAST
  }

  predicate IsFlushableSession(h: uint32) {
    IsSessionHandle(h) || (!IsTransient(h) && h % SESSION_INDEX < MAX_ACTIVE_SESSIONS)
  }

  /** The session a flush means: the handle as written, or one with the same low octets. */
  function FlushTarget(s: Tpm, h: uint32): Option<uint32> {
    var index := h % SESSION_INDEX;
    if s.Open(h) then Some(h)
    else if s.Open(HMAC_SESSION_FIRST + index) then Some(HMAC_SESSION_FIRST + index)
    else if s.Open(POLICY_SESSION_FIRST + index) then Some(POLICY_SESSION_FIRST + index)
    else None
  }

  function AfterFlush(s: Tpm, h: uint32): Step<()> {
    match FlushTarget(s, h)
    case None => Step(s, Err(TpmRc(RC_HANDLE, Nowhere).WithParameter(1)))
    case Some(target) => Step(AfterClose(s, target), Ok(()))
  }

  /** A session put away keeps its handle. */
  function AfterSave(s: Tpm, h: uint32): Step<()> {
    if h !in s.sessions then Step(s, Err(TpmRc(RC_HANDLE, Nowhere).WithHandle(1)))
    else Step(s.(sessions := Without(s.sessions, h), saved := s.saved[h := s.sessions[h]]), Ok(()))
  }

  function AfterRestore(s: Tpm, h: uint32): Step<()> {
    if h !in s.saved then Step(s, Err(TpmRc(RC_HANDLE, Nowhere).WithParameter(1)))
    else if |s.sessions| >= MAX_LOADED_SESSIONS then Step(s, Fail(RC_SESSION_MEMORY))
    else Step(s.(sessions := s.sessions[h := s.saved[h]], saved := Without(s.saved, h)), Ok(()))
  }

  // ---- Lockout ----

  function LockoutCleared(l: Lockout): Lockout {
    l.(failedTries := 0, nextRecovery := 0, inLockout := false, lockoutUntil := 0)
  }

  /** A startup that follows no orderly shutdown counts the failure that may have been lost. */
  function PendingCounted(l: Lockout): Lockout {
    if !l.ProtectionOff() && l.failedTries < l.maxTries then l.(failedTries := l.failedTries + 1) else l
  }

  function LockoutStarted(l: Lockout): Lockout {
    var l1 := l.(nextRecovery := if l.failedTries > 0 then l.recoveryTime * 1000 else 0);
    if !l1.inLockout then l1
    else if l1.lockoutRecovery == 0 then l1.(inLockout := false, lockoutUntil := 0)
    else l1.(lockoutUntil := l1.lockoutRecovery * 1000)
  }

  function ReadParameters(parameters: Bytes): Result<(uint32, uint32, uint32)> {
    match ReadU32(parameters) case Refused(e) => Err(e.WithParameter(1)) case Got(max, b1) =>
    match ReadU32(b1) case Refused(e) => Err(e.WithParameter(2)) case Got(recovery, b2) =>
    match ReadU32(b2) case Refused(e) => Err(e.WithParameter(3)) case Got(lockout, rest) =>
    if rest != [] then Fail(RC_SIZE) else Ok((max, recovery, lockout))
  }

  // ---- Startup ----

  predicate IsResume(q: Request) {
    |q.parameters| >= 2 && FromBe16(q.parameters[..2]) == SU_STATE
  }

  /** Every startup drops the loaded sessions; only a TPM Reset drops the saved
    ones, the exclusive status and the audit digest with them. */
  function AfterStartup(s: Tpm, e: Effect, q: Request): Tpm {
    var disorderly := s.mode.shutdownType == SU_NONE;
    var s1 := s.(store := e.store, sessions := map[], mode := s.mode.(
      started := true, shutdownType := SU_NONE, orderly := !disorderly, readOnly := IsResume(q) && s.mode.readOnly));
    if IsResume(q) || s.mode.shutdownType == SU_STATE then s1.(lockout := LockoutStarted(s.lockout))
    else
      var counted := if disorderly && e.everStarted then PendingCounted(s.lockout) else s.lockout;
      s1.(saved := map[], exclusive := RH_UNASSIGNED, audit := s.audit.(digest := []), lockout := LockoutStarted(counted))
        .Note(LogEnded)
  }

  // ---- Every other command ----

  function WithPolicies(sessions: map<uint32, Session>, policies: map<uint32, PolicyState>): map<uint32, Session> {
    map h | h in sessions ::
      if h in policies && sessions[h].IsPolicy() then sessions[h].(policy := policies[h]) else sessions[h]
  }

  function AfterOther(s: Tpm, e: Effect): Tpm {
    s.(store := e.store,
       sessions := WithPolicies(s.sessions, e.policies),
       mode := e.mode.(started := s.mode.started, failureMode := s.mode.failureMode || e.mode.failureMode,
                       nvAvailable := s.mode.nvAvailable, nvWriteFailed := s.mode.nvWriteFailed))
  }

  function Answer<T>(s: Step<T>, response: Response, consumed: nat): Ran {
    match s.result
    case Ok(_) => Ran(s.tpm, Ok(response), consumed)
    case Err(e) => Ran(s.tpm, Err(e), consumed)
  }

  // ---- The commands ----

  function DictionaryAttackParameters(s: Tpm, q: Request): Ran {
    match ReadParameters(q.parameters)
    case Err(e) => Ran(s, Err(e), 0)
    case Ok(p) =>
      Ran(s.(lockout := s.lockout.(maxTries := p.0, recoveryTime := p.1, lockoutRecovery := p.2)),
          Ok(EMPTY_RESPONSE), |q.parameters|)
  }

  function SetStatus(w: World, s: Tpm, q: Request): Ran {
    match ReadU16(q.parameters) case Refused(e) => Ran(s, Err(e.WithParameter(1)), 0) case Got(alg, b1) =>
    match GetList(b1, MAX_CAP_CC, ReadU32) case Refused(e) => Ran(s, Err(e.WithParameter(2)), 0) case Got(setList, b2) =>
    match GetList(b2, MAX_CAP_CC, ReadU32) case Refused(e) => Ran(s, Err(e.WithParameter(3)), 0) case Got(clearList, rest) =>
    if rest != [] then Ran(s, Fail(RC_SIZE), 0)
    else Answer(AfterSetStatus(w, s, alg, setList, clearList), EMPTY_RESPONSE, |q.parameters|)
  }

  /** A signed report ends the log; one taken with TPM_RH_NULL leaves it running. */
  function Report(s: Tpm, q: Request, e: Effect): Ran {
    var after := AfterOther(s, e);
    if |q.handles| < 2 then Ran(s, Fail(RC_VALUE), 0)
    else if e.result.Ok? && q.handles[1] != RH_NULL
    then Ran(after.(audit := after.audit.(digest := [])).Note(LogEnded), e.result, e.consumed)
    else Ran(after, e.result, e.consumed)
  }

  function Clear(s: Tpm, e: Effect): Ran {
    var after := AfterOther(s, e);
    if e.result.Err? then Ran(after, e.result, e.consumed)
    else Ran(after.(lockout := MANUFACTURED_LOCKOUT, audit := after.audit.(counter := 0)).Note(CounterCleared),
             e.result, e.consumed)
  }

  function FlushContext(s: Tpm, q: Request, e: Effect): Ran {
    match ReadU32(q.parameters) case Refused(err) => Ran(s, Err(err.WithParameter(1)), 0) case Got(h, rest) =>
    if rest != [] then Ran(s, Fail(RC_SIZE), 0)
    else if IsFlushableSession(h) then Answer(AfterFlush(s, h), EMPTY_RESPONSE, 4)
    else Ran(AfterOther(s, e), e.result, e.consumed)
  }

  function ContextSave(w: World, s: Tpm, q: Request, e: Effect): Ran {
    if q.handles == [] then Ran(s, Fail(RC_VALUE), 0)
    else if w.contextsExhausted(s.store) then Ran(s, Fail(RC_TOO_MANY_CONTEXTS), 0)
    else if IsSessionHandle(q.handles[0]) then
      var put := AfterSave(s, q.handles[0]);
      if put.result.Err? then Ran(put.tpm, Err(put.result.error), 0) else Ran(put.tpm, e.result, e.consumed)
    else Ran(AfterOther(s, e), e.result, e.consumed)
  }

  function ContextLoad(s: Tpm, e: Effect): Ran {
    var after := AfterOther(s, e);
    if e.result.Ok? && e.result.value.handle.Some? && IsSessionHandle(e.result.value.handle.value) then
      Answer(AfterRestore(after, e.result.value.handle.value), e.result.value, e.consumed)
    else Ran(after, e.result, e.consumed)
  }

  function StartAuthSession(w: World, s: Tpm, e: Effect): Ran {
    var after := AfterOther(s, e);
    if e.result.Ok? && e.newSession.Some? then
      var began := AfterOpen(w, after, e.newSession.value);
      match began.result
      case Err(err) => Ran(began.tpm, Err(err), e.consumed)
      case Ok(h) => Ran(began.tpm, Ok(Response(Some(h), e.result.value.parameters)), e.consumed)
    else Ran(after, e.result, e.consumed)
  }

  function Dispatched(w: World, s: Tpm, q: Request): Ran {
    var e := w.action(s.Visible(), q);
    if q.code == CC_DICTIONARY_ATTACK_LOCK_RESET then
      Ran(s.(lockout := LockoutCleared(s.lockout)), Ok(EMPTY_RESPONSE), 0)
    else if q.code == CC_DICTIONARY_ATTACK_PARAMETERS then DictionaryAttackParameters(s, q)
    else if q.code == CC_CLEAR then Clear(s, e)
    else if q.code == CC_SET_COMMAND_CODE_AUDIT_STATUS then SetStatus(w, s, q)
    else if q.code == CC_GET_COMMAND_AUDIT_DIGEST then Report(s, q, e)
    else if q.code == CC_FLUSH_CONTEXT then FlushContext(s, q, e)
    else if q.code == CC_CONTEXT_SAVE then ContextSave(w, s, q, e)
    else if q.code == CC_CONTEXT_LOAD then ContextLoad(s, e)
    else if q.code == CC_START_AUTH_SESSION then StartAuthSession(w, s, e)
    else if q.code == CC_STARTUP then
      if e.result.Ok? then Ran(AfterStartup(s, e, q), e.result, e.consumed)
      else Ran(AfterOther(s, e), e.result, e.consumed)
    else Ran(AfterOther(s, e), e.result, e.consumed)
  }

  /** An action that answers TPM_RC_FAILURE puts the TPM in failure mode. */
  function RunCommand(w: World, s: Tpm, q: Request): Ran {
    var ran := Dispatched(w, s, q);
    if ran.result.Err? && ran.result.error.code == RC_FAILURE
    then ran.(tpm := ran.tpm.(mode := ran.tpm.mode.(failureMode := true)))
    else ran
  }
}
