/** What the command pipeline reads and changes: sessions, lockout, NV Indices,
  the audit log, and a history of what was compared and answered. */
module State {
  import opened Prelude
  import opened Commands

  const MAX_LOADED_SESSIONS := 32
  const MAX_ACTIVE_SESSIONS := 64
  const HMAC_SESSION_FIRST := 0x0200_0000
  const POLICY_SESSION_FIRST := 0x0300_0000
  const NV_INDEX_FIRST := 0x0100_0000
  const NV_INDEX_LAST := 0x01FF_FFFF

  const SU_STATE := 1
  const SU_NONE := 0xFFFF

  datatype SessionKind = HmacSession | PolicySession | TrialSession

  datatype PolicyState = PolicyState(
    digest: Bytes, commandCode: Option<uint32>, cpHash: Option<Bytes>, nameHash: Option<Bytes>,
    locality: Option<byte>, pcrUpdateCounter: Option<uint32>,
    authValueNeeded: bool, passwordNeeded: bool, nvWritten: Option<bool>,
    templateHash: Option<Bytes>, parametersHash: Option<Bytes>,
    physicalPresenceRequired: bool, secureChannelRequired: bool, expiration: Option<uint64>)

  function EmptyPolicy(digestSize: nat): PolicyState {
    PolicyState(Filled(0, digestSize), None, None, None, None, None, false, false, None, None, None, false, false, None)
  }

  datatype Session = Session(
    kind: SessionKind, authHash: uint16,
    nonceTpm: Bytes, nonceCaller: Bytes, sessionKey: Bytes,
    bind: uint32, bindName: Bytes, bindUsesLockout: bool, timeEpoch: uint64,
    policy: PolicyState, isAudit: bool, auditDigest: Bytes)
  {
    predicate IsPolicy() {
      kind != HmacSession
    }
  }

  /** Dictionary attack protection, Part 1 section 16.8. */
  datatype Lockout = Lockout(
    failedTries: uint32, maxTries: uint32, recoveryTime: uint32, lockoutRecovery: uint32,
    inLockout: bool, nextRecovery: uint64, lockoutUntil: uint64)
  {
    predicate LockedOut() {
      maxTries == 0 || failedTries >= maxTries
    }

    predicate ProtectionOff() {
      recoveryTime == 0
    }
  }

  const MANUFACTURED_LOCKOUT := Lockout(0, 32, 1000, 1000, false, 0, 0)

  datatype PinKind = PinFail | PinPass

  datatype Pin = Pin(count: uint32, limit: uint32)

  /** An NV Index. `counters` is what its data reads as, when it reads as PIN counters. */
  datatype NvIndex = NvIndex(
    auth: Bytes, policy: Option<(uint16, Bytes)>, noDa: bool, platformCreated: bool, written: bool,
    pin: Option<PinKind>, counters: Option<Pin>, staysVolatile: bool,
    policyWrite: bool, authWrite: bool, policyRead: bool, authRead: bool)
  {
    function PinCounters(): Result<Pin> {
      if pin.None? then Fail(RC_ATTRIBUTES)
      else if !written then Ok(Pin(0, 0))
      else match counters case Some(p) => Ok(p) case None => Fail(RC_NV_UNINITIALIZED)
    }
  }

  /** The NV Indices, and everything the pipeline only passes to other code. */
  datatype Store = Store(nv: map<uint32, NvIndex>, rest: Bytes)

  /** The command audit, Part 1 section 32. */
  datatype AuditLog = AuditLog(alg: uint16, digest: Bytes, counter: uint64, commands: seq<uint32>)

  datatype Mode = Mode(
    started: bool, failureMode: bool, readOnly: bool, orderly: bool, shutdownType: uint16,
    physicalPresence: bool, ppCommands: seq<uint32>, nvAvailable: bool, nvWriteFailed: bool)

  datatype Clock = Clock(time: uint64, epoch: uint64)

  datatype Entity = Entity(
    name: Bytes, auth: Bytes, policy: Option<(uint16, Bytes)>,
    usesLockout: bool, userWithAuth: bool, adminWithPolicy: bool, pin: Option<uint32>)

  datatype Role = NoRole | User | Admin | Dup
  datatype Access = Reads | Writes

  datatype Response = Response(handle: Option<uint32>, parameters: Bytes)

  // ---- The history a run leaves behind; no operation reads it ----

  /** How a value was put to use; `KeyOnly` by a session that authorizes no handle. */
  datatype Use = Password | Hmac | PolicyPassword | PolicyHmac | KeyOnly

  datatype Event =
      /** A supplied value was compared. `guarded` when what it proves is protected by the lockout. */
    | Compared(entity: uint32, use: Use, guarded: bool, pin: Option<uint32>, accepted: bool)
      /** One failed try was taken off as time passed. */
    | Recovered
      /** A command reached the audit update: it succeeded. */
    | Answered(code: uint32, audit: Option<uint32>, reset: bool, logged: bool,
               names: seq<Bytes>, parameters: Bytes, response: Bytes)
    | Opened(session: uint32)
    | Closed(session: uint32)
      /** The command audit digest was emptied. */
    | LogEnded
      /** The audit counter was put back to zero. */
    | CounterCleared

  datatype History = Beginning | Then(past: History, last: Event)

  datatype Tpm = Tpm(
    lockout: Lockout,
    sessions: map<uint32, Session>,
    saved: map<uint32, Session>,
    store: Store,
    audit: AuditLog,
    exclusive: uint32,
    suppressed: bool,
    mode: Mode,
    clock: Clock,
    history: History)
  {
    function Note(e: Event): Tpm {
      this.(history := Then(history, e))
    }

    /** The state without its history, which is all other code can depend on. */
    function Visible(): Tpm {
      this.(history := Beginning)
    }

    predicate Open(h: uint32) {
      h in sessions || h in saved
    }
  }

  /** A new state and an answer. */
  datatype Step<+T> = Step(tpm: Tpm, result: Result<T>)

  /** What a command whose body is not modelled did. */
  datatype Effect = Effect(
    result: Result<Response>,
    store: Store,
    policies: map<uint32, PolicyState>,
    newSession: Option<Session>,
    mode: Mode,
    everStarted: bool,
    consumed: nat)

  /** The code around the pipeline, as functions. */
  datatype World = World(
    table: CommandTable,
    role: (uint32, nat) -> Role,
    handleAllowed: (uint32, nat, uint32) -> bool,
    takesNoParameters: uint32 -> bool,
    refusedWhenReadOnly: uint32 -> bool,
    needsVolatileIndex: uint32 -> bool,
    nvAccess: uint32 -> Option<Access>,
    nvIndexHandle: uint32 -> Option<nat>,
    present: (Store, uint32) -> bool,
    available: (Store, uint32) -> Result<()>,
    nvReachable: (Store, bool) -> bool,
    name: (Store, uint32) -> Result<Bytes>,
    lockoutEntity: Store -> (Bytes, Option<(uint16, Bytes)>),
    entity: (Store, uint32) -> Result<Entity>,
    pcrCounter: Store -> uint32,
    digestSize: uint16 -> Option<nat>,
    digest: (uint16, Bytes) -> Bytes,
    hmac: (uint16, Bytes, Bytes) -> Bytes,
    transform: (Session, SessionInput, Bytes, Bytes, bool) -> Result<Bytes>,
    random: (Store, nat) -> (Store, Result<Bytes>),
    action: (Tpm, Request) -> Effect,
    contextsExhausted: Store -> bool,
    response: (Tpm, Request) -> Result<()>,
    removeObject: (Store, uint32) -> Store)

  /** A supported hash gives digests of its own size, and that size is not zero. */
  ghost predicate Lawful(w: World) {
    forall alg, data :: w.digestSize(alg).Some? ==>
      |w.digest(alg, data)| == w.digestSize(alg).value && w.digestSize(alg).value > 0
  }

  predicate IsSessionHandle(h: uint32) {
    || HMAC_SESSION_FIRST <= h < HMAC_SESSION_FIRST + MAX_ACTIVE_SESSIONS
    || POLICY_SESSION_FIRST <= h < POLICY_SESSION_FIRST + MAX_ACTIVE_SESSIONS
  }

  predicate IsNvHandle(h: uint32) {
    NV_INDEX_FIRST <= h <= NV_INDEX_LAST
  }

  function SessionAt(s: Tpm, h: uint32): Result<Session> {
    if h in s.sessions then Ok(s.sessions[h]) else Fail(RC_HANDLE)
  }

  function IndexAt(s: Tpm, h: uint32): Result<NvIndex> {
    if h in s.store.nv then Ok(s.store.nv[h]) else Fail(RC_HANDLE)
  }

  /** The state object the commands update in place. The history only records the run: no check reads it. */
  class TpmState {
    var lockout: Lockout
    var sessions: map<uint32, Session>
    var saved: map<uint32, Session>
    var store: Store
    var audit: AuditLog
    var exclusive: uint32
    var suppressed: bool
    var mode: Mode
    var clock: Clock
    var history: History

    function Value(): Tpm
      reads this
    {
      Tpm(lockout, sessions, saved, store, audit, exclusive, suppressed, mode, clock, history)
    }
  }
}
