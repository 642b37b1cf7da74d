/** The device around the pipeline: memory, the state file and the power, with a
  store whose writes and reads may fail at any point. */
module Device {
  import opened Prelude
  import opened Commands
  import opened CommandParse
  import Marshal
  import Audit
  import opened State
  import opened Authorization
  import opened Actions
  import opened Pipeline
  import opened Execute
  import opened Frames
  import opened Recovery

  /** The code around the device: marshalling the state, time, and _TPM_Init. */
  datatype Around = Around(
    w: World,
    save: Tpm -> Option<Bytes>,
    load: Bytes -> Option<Tpm>,
    advance: (Store, Clock, nat) -> Option<(Bytes, uint64, bool)>,
    init: Store -> Bytes,
    carried: (Store, Store) -> Bytes)

  /** What the state file keeps of the modelled state. */
  datatype Lasting = Lasting(failedTries: uint32, maxTries: uint32, recoveryTime: uint32, lockoutRecovery: uint32,
                             inLockout: bool, nv: map<uint32, NvIndex>, audit: AuditLog)

  function LastingOf(s: Tpm): Lasting {
    Lasting(s.lockout.failedTries, s.lockout.maxTries, s.lockout.recoveryTime, s.lockout.lockoutRecovery,
            s.lockout.inLockout, s.store.nv, s.audit)
  }

  /** Loading what was saved gives the same lasting state, in a TPM whose storage works. */
  ghost predicate Lawful(a: Around) {
    forall s :: a.save(s).Some? && a.load(a.save(s).value).Some? ==>
      var loaded := a.load(a.save(s).value).value;
      LastingOf(loaded) == LastingOf(s) && loaded.mode.nvAvailable && !loaded.mode.nvWriteFailed && !loaded.mode.failureMode
  }

  /** The device. `written` is the state the last write that succeeded put in the file; nothing reads it. */
  datatype Box = Box(tpm: Tpm, powered: bool, file: Bytes, written: Tpm)

  // ---- Writing the state ----

  function Persisted(a: Around, b: Box, storeWorks: bool): (Box, bool) {
    if b.tpm.mode.nvWriteFailed then (b, false)
    else match a.save(b.tpm.Visible())
      case None => (b, false)
      case Some(bytes) => if storeWorks then (b.(file := bytes, written := b.tpm), true) else (b, false)
  }

  /** The NV state a command may change without the table saying so. */
  datatype Witness = Witness(failedTries: uint32, inLockout: bool, auditCounter: uint64, auditDigest: Bytes)

  function WitnessOf(s: Tpm): Witness {
    Witness(s.lockout.failedTries, s.lockout.inLockout, s.audit.counter, s.audit.digest)
  }

  function Advanced(a: Around, s: Tpm, elapsed: nat): (Tpm, bool) {
    match a.advance(s.store, s.clock, elapsed)
    case None => (s, false)
    case Some(t) => (OnTime(s.(store := s.store.(rest := t.0)), t.1), t.2)
  }

  predicate MarkedNv(a: Around, buf: Bytes) {
    HeaderOf(buf).Ok? && a.w.table(HeaderOf(buf).value.code).Some? && a.w.table(HeaderOf(buf).value.code).value.nv
  }

  /** A write that failed after the command ran: storage is off and the TPM answers for nothing. */
  function Confined(s: Tpm): Tpm {
    s.(mode := s.mode.(nvAvailable := false, nvWriteFailed := true, failureMode := true))
  }

  function CommandRun(a: Around, b: Box, buf: Bytes, locality: nat, elapsed: nat, storeWorks: bool): (Box, Result<Reply>) {
    if !b.powered then (b, Fail(RC_INITIALIZE))
    else
      var before := WitnessOf(b.tpm);
      var (advanced, rolled) := Advanced(a, b.tpm, elapsed);
      var ran := Executed(a.w, advanced, buf, locality);
      var b1 := b.(tpm := ran.tpm);
      var writes := MarkedNv(a, buf) || WitnessOf(ran.tpm) != before;
      if !writes && !rolled then (b1, ran.result)
      else
        var (b2, kept) := Persisted(a, b1, storeWorks);
        if kept then (b2, ran.result)
        else (b2.(tpm := Confined(b2.tpm)), if writes then Fail(RC_NV_UNAVAILABLE) else ran.result)
  }

  // ---- Power ----

  /** The file is read again when a write has failed; without that the TPM stays confined. */
  function Reread(a: Around, s: Tpm, file: Bytes, storeReads: bool): Tpm {
    if !s.mode.nvWriteFailed then s
    else match if storeReads then a.load(file) else None
      case None => s.(mode := s.mode.(failureMode := true))
      case Some(loaded) => loaded.(store := loaded.store.(rest := a.carried(loaded.store, s.store)))
  }

  function Initialized(a: Around, s: Tpm, testsPass: bool): Tpm {
    s.(store := s.store.(rest := a.init(s.store)),
       sessions := map[],
       clock := s.clock.(time := 0),
       mode := s.mode.(started := false, physicalPresence := false,
                       failureMode := (s.mode.nvWriteFailed && s.mode.failureMode) || !testsPass))
  }

  function PoweredOn(a: Around, b: Box, storeReads: bool, testsPass: bool): Box {
    b.(powered := true, tpm := Initialized(a, Reread(a, b.tpm, b.file, storeReads), testsPass))
  }

  function PoweredOff(a: Around, b: Box, storeWorks: bool): Box {
    var (b1, _) := Persisted(a, b, storeWorks);
    b1.(powered := false, tpm := b1.tpm.(sessions := map[], mode := b1.tpm.mode.(started := false)))
  }

  datatype Input =
    | Command(buf: Bytes, locality: nat, elapsed: nat, storeWorks: bool)
    | PowerOn(storeReads: bool, testsPass: bool)
    | PowerOff(storeWorks: bool)
    | Nv(available: bool)
    | PhysicalPresence(asserted: bool)
    | Persist(storeWorks: bool)

  function After(a: Around, b: Box, input: Input): Box {
    match input
    case Command(buf, locality, elapsed, storeWorks) => CommandRun(a, b, buf, locality, elapsed, storeWorks).0
    case PowerOn(storeReads, testsPass) => PoweredOn(a, b, storeReads, testsPass)
    case PowerOff(storeWorks) => PoweredOff(a, b, storeWorks)
    case Nv(available) => b.(tpm := b.tpm.(mode := b.tpm.mode.(nvAvailable := available)))
    case PhysicalPresence(asserted) => b.(tpm := b.tpm.(mode := b.tpm.mode.(physicalPresence := asserted)))
    case Persist(storeWorks) => Persisted(a, b, storeWorks).0
  }

  function AfterAll(a: Around, b: Box, inputs: seq<Input>): Box
    decreases |inputs|
  {
    if inputs == [] then b else AfterAll(a, After(a, b, inputs[0]), inputs[1..])
  }

  /** The device object. */
  class TpmDevice {
    const tpm: TpmState
    var powered: bool
    var file: Bytes
    var written: Tpm

    function Value(): Box
      reads this, tpm
    {
      Box(tpm.Value(), powered, file, written)
    }

    constructor (tpm: TpmState, file: Bytes)
      ensures this.tpm == tpm && !powered && this.file == file
    {
      this.tpm, powered, this.file, written := tpm, false, file, tpm.Value();
    }

    method Write(a: Around, storeWorks: bool) returns (kept: bool)
      modifies this
      ensures (Value(), kept) == Persisted(a, old(Value()), storeWorks)
    {
      if tpm.mode.nvWriteFailed {
        return false;
      }
      match a.save(tpm.Value().Visible()) {
        case None =>
          return false;
        case Some(bytes) =>
          if storeWorks {
            file, written := bytes, tpm.Value();
          }
          return storeWorks;
      }
    }

    method Run(a: Around, buf: Bytes, locality: nat, elapsed: nat, storeWorks: bool) returns (r: Result<Reply>)
      modifies this, tpm
      ensures (Value(), r) == CommandRun(a, old(Value()), buf, locality, elapsed, storeWorks)
    {
      hide Advanced, Executed, MarkedNv, WitnessOf, Persisted;
      if !powered {
        return Fail(RC_INITIALIZE);
      }
      var before := WitnessOf(tpm.Value());
      var (advanced, rolled) := Advanced(a, tpm.Value(), elapsed);
      Load(tpm, advanced);
      r := Execute.Execute(a.w, tpm, buf, locality);
      var writes := MarkedNv(a, buf) || WitnessOf(tpm.Value()) != before;
      if writes || rolled {
        var kept := Write(a, storeWorks);
        if !kept {
          tpm.mode := tpm.mode.(nvAvailable := false, nvWriteFailed := true, failureMode := true);
          if writes {
            return Fail(RC_NV_UNAVAILABLE);
          }
        }
      }
    }

    method Reload(a: Around, storeReads: bool)
      modifies tpm
      ensures tpm.Value() == Reread(a, old(tpm.Value()), file, storeReads)
    {
      if tpm.mode.nvWriteFailed {
        var loaded := if storeReads then a.load(file) else None;
        match loaded {
          case Some(s) =>
            Load(tpm, s.(store := s.store.(rest := a.carried(s.store, tpm.store))));
          case None =>
            tpm.mode := tpm.mode.(failureMode := true);
        }
      }
    }

    method Initialize(a: Around, testsPass: bool)
      modifies tpm
      ensures tpm.Value() == Initialized(a, old(tpm.Value()), testsPass)
    {
      tpm.store := tpm.store.(rest := a.init(tpm.store));
      tpm.sessions := map[];
      tpm.clock := tpm.clock.(time := 0);
      tpm.mode := tpm.mode.(started := false, physicalPresence := false);
      if !tpm.mode.nvWriteFailed {
        tpm.mode := tpm.mode.(failureMode := false);
      }
      if !testsPass {
        tpm.mode := tpm.mode.(failureMode := true);
      }
    }

    method TurnOn(a: Around, storeReads: bool, testsPass: bool)
      modifies this, tpm
      ensures Value() == PoweredOn(a, old(Value()), storeReads, testsPass)
    {
      hide Reread, Initialized;
      powered := true;
      Reload(a, storeReads);
      Initialize(a, testsPass);
    }

    method TurnOff(a: Around, storeWorks: bool)
      modifies this, tpm
      ensures Value() == PoweredOff(a, old(Value()), storeWorks)
    {
      var _ := Write(a, storeWorks);
      powered := false;
      tpm.mode := tpm.mode.(started := false);
      tpm.sessions := map[];
    }
  }

  // ---- Failure mode is never left by a command ----

  lemma OtherKeepsFailure(s: Tpm, e: Effect)
    ensures KeepsFailure(s, AfterOther(s, e))
  {
  }

  /** Storage flags as they were, and failure mode not left. */
  ghost predicate KeepsFailure(s: Tpm, t: Tpm) {
    && t.mode.nvWriteFailed == s.mode.nvWriteFailed && t.mode.nvAvailable == s.mode.nvAvailable
    && (s.mode.failureMode ==> t.mode.failureMode)
  }

  lemma AuditActionsKeepFailure(w: World, s: Tpm, q: Request, e: Effect)
    ensures KeepsFailure(s, SetStatus(w, s, q).tpm)
    ensures KeepsFailure(s, Report(s, q, e).tpm)
    ensures KeepsFailure(s, Clear(s, e).tpm)
  {
    OtherKeepsFailure(s, e);
    hide AfterOther, Audit.Ordered, Audit.Removed, Audit.Added, Marshal.GetList, Marshal.ReadU16, Marshal.ReadU32;
  }

  lemma FlushKeepsFailure(w: World, s: Tpm, q: Request, e: Effect)
    ensures KeepsFailure(s, FlushContext(s, q, e).tpm)
    ensures KeepsFailure(s, DictionaryAttackParameters(s, q).tpm)
  {
    OtherKeepsFailure(s, e);
    hide AfterOther, FlushTarget, IsFlushableSession, Marshal.ReadU32, ReadParameters;
  }

  lemma SaveKeepsFailure(w: World, s: Tpm, q: Request, e: Effect)
    ensures KeepsFailure(s, ContextSave(w, s, q, e).tpm)
    ensures KeepsFailure(s, ContextLoad(s, e).tpm)
  {
    OtherKeepsFailure(s, e);
    hide AfterOther, IsSessionHandle;
  }

  lemma StartKeepsFailure(w: World, s: Tpm, e: Effect)
    ensures KeepsFailure(s, StartAuthSession(w, s, e).tpm)
  {
    OtherKeepsFailure(s, e);
    hide AfterOther, NewHandle, EmptyPolicy;
  }

  lemma StartupKeepsFailure(s: Tpm, q: Request, e: Effect)
    ensures KeepsFailure(s, AfterStartup(s, e, q))
  {
    hide LockoutStarted, PendingCounted;
  }

  lemma ActionKeepsFailure(w: World, s: Tpm, q: Request)
    ensures KeepsFailure(s, RunCommand(w, s, q).tpm)
  {
    hide Clear, LockoutCleared, DictionaryAttackParameters, AfterStartup, SetStatus, Report, FlushContext,
         ContextSave, ContextLoad, StartAuthSession, AfterOther;
    var e := w.action(s.Visible(), q);
    AuditActionsKeepFailure(w, s, q, e);
    FlushKeepsFailure(w, s, q, e);
    SaveKeepsFailure(w, s, q, e);
    StartKeepsFailure(w, s, e);
    StartupKeepsFailure(s, q, e);
    OtherKeepsFailure(s, e);
  }

  lemma CompletedKeepsFailure(w: World, s: Tpm, q: Request, p: Admission)
    ensures KeepsFailure(s, Completed(w, s, q, p).tpm)
  {
    hide RunCommand, RolledFrom, Encrypted, Audit.AfterAudit, Audit.AfterSessions, ResponseAttributes;
    var q1 := q.(parameters := p.parameters);
    ActionKeepsFailure(w, s.(suppressed := false), q1);
    var ran := RunCommand(w, s.(suppressed := false), q1);
    RolledFrame(w, ran.tpm, q, 0);
    AfterSessionsFrame(w, Accounted(w, s, q, p).tpm, q, 0);
    if ran.result.Ok? {
      var s2 := RolledFrom(w, ran.tpm, q, 0).tpm;
      var parameters := Encrypted(w, s2, q, ran.result.value.parameters, p.auths);
      if parameters.Ok? {
        AfterAuditFrame(w, s2, q, p.names, q.parameters, parameters.value);
      }
    }
  }

  lemma ExecutedKeepsFailure(w: World, s: Tpm, buf: Bytes, locality: nat)
    ensures KeepsFailure(s, Executed(w, s, buf, locality).tpm)
  {
    hide HeaderOf, Parsed, Admitted, Completed;
    if Parsed(w.table, buf, locality).Ok? {
      var q := Parsed(w.table, buf, locality).value;
      GatedFrame(w, s, q);
      AdmittedFrame(w, s, q);
      var admitted := Admitted(w, s, q);
      if admitted.result.Ok? {
        CompletedKeepsFailure(w, admitted.tpm, q, admitted.result.value);
      }
      hide Gated, Records, SameIndices;
    }
  }

  lemma {:induction false} RecoveringKeepsMode(s: Tpm, time: uint64)
    ensures Recovering(s, time).mode == s.mode
    decreases s.lockout.failedTries
  {
    if s.lockout.failedTries > 0 && time >= s.lockout.nextRecovery {
      RecoveringKeepsMode(s.(lockout := s.lockout.(
        failedTries := s.lockout.failedTries - 1,
        nextRecovery := SaturatingAdd(s.lockout.nextRecovery, s.lockout.recoveryTime * 1000, U64_MAX))).Note(Recovered), time);
    }
  }

  lemma AdvancedKeepsMode(a: Around, s: Tpm, elapsed: nat)
    ensures Advanced(a, s, elapsed).0.mode == s.mode
  {
    match a.advance(s.store, s.clock, elapsed) {
      case None =>
      case Some(t) =>
        var s1 := s.(store := s.store.(rest := t.0));
        RecoveringKeepsMode(s1.(clock := s1.clock.(time := t.1)), t.1);
        hide Recovering, LockoutEnded;
    }
  }

  // ---- What holds in every reachable state ----

  /** A failed write is always accompanied by failure mode, and the file holds the state last written. */
  ghost predicate Sound(a: Around, b: Box) {
    && (b.tpm.mode.nvWriteFailed ==> b.tpm.mode.failureMode)
    && a.save(b.written.Visible()) == Some(b.file)
  }

  lemma CommandKeepsSound(a: Around, b: Box, buf: Bytes, locality: nat, elapsed: nat, storeWorks: bool)
    requires Sound(a, b)
    ensures Sound(a, CommandRun(a, b, buf, locality, elapsed, storeWorks).0)
  {
    AdvancedKeepsMode(a, b.tpm, elapsed);
    ExecutedKeepsFailure(a.w, Advanced(a, b.tpm, elapsed).0, buf, locality);
    hide Advanced, Executed, MarkedNv, WitnessOf;
  }

  lemma StepKeepsSound(a: Around, b: Box, input: Input)
    requires Lawful(a) && Sound(a, b)
    ensures Sound(a, After(a, b, input))
  {
    hide CommandRun;
    match input {
      case Command(buf, locality, elapsed, storeWorks) =>
        CommandKeepsSound(a, b, buf, locality, elapsed, storeWorks);
      case PowerOn(storeReads, testsPass) =>
        assert b.tpm.mode.nvWriteFailed && storeReads && a.load(b.file).Some? ==>
          a.load(a.save(b.written.Visible()).value).Some?;
      case _ =>
    }
  }

  lemma {:induction false} DeviceStaysSound(a: Around, b: Box, inputs: seq<Input>)
    requires Lawful(a) && Sound(a, b)
    ensures Sound(a, AfterAll(a, b, inputs))
    decreases |inputs|
  {
    hide After, Sound, Lawful;
    if inputs != [] {
      StepKeepsSound(a, b, inputs[0]);
      DeviceStaysSound(a, After(a, b, inputs[0]), inputs[1..]);
    }
  }

  // ---- A write that failed ----

  /** The input reads the file again. */
  predicate Reloads(a: Around, b: Box, input: Input) {
    input.PowerOn? && input.storeReads && a.load(b.file).Some?
  }

  predicate NeverReloads(a: Around, b: Box, inputs: seq<Input>)
    decreases |inputs|
  {
    inputs == [] || (!Reloads(a, b, inputs[0]) && NeverReloads(a, After(a, b, inputs[0]), inputs[1..]))
  }

  lemma FailedCommandKeepsFile(a: Around, b: Box, buf: Bytes, locality: nat, elapsed: nat, storeWorks: bool)
    requires b.tpm.mode.nvWriteFailed
    ensures var t := CommandRun(a, b, buf, locality, elapsed, storeWorks).0;
            t.file == b.file && t.written == b.written && t.tpm.mode.nvWriteFailed
  {
    AdvancedKeepsMode(a, b.tpm, elapsed);
    ExecutedKeepsFailure(a.w, Advanced(a, b.tpm, elapsed).0, buf, locality);
    hide Advanced, Executed, MarkedNv, WitnessOf;
  }

  lemma FailedStepKeepsFile(a: Around, b: Box, input: Input)
    requires b.tpm.mode.nvWriteFailed && !Reloads(a, b, input)
    ensures var t := After(a, b, input);
            t.file == b.file && t.written == b.written && t.tpm.mode.nvWriteFailed
  {
    hide CommandRun;
    match input {
      case Command(buf, locality, elapsed, storeWorks) =>
        FailedCommandKeepsFile(a, b, buf, locality, elapsed, storeWorks);
      case _ =>
    }
  }

  /** After a failed write the file never changes, whatever commands, power cycles
    and writes follow, until it is read again. */
  lemma {:induction false} FailedWriteFreezesFile(a: Around, b: Box, inputs: seq<Input>)
    requires b.tpm.mode.nvWriteFailed && NeverReloads(a, b, inputs)
    ensures var t := AfterAll(a, b, inputs);
            t.file == b.file && t.written == b.written && t.tpm.mode.nvWriteFailed
    decreases |inputs|
  {
    hide After, Reloads;
    if inputs != [] {
      FailedStepKeepsFile(a, b, inputs[0]);
      FailedWriteFreezesFile(a, After(a, b, inputs[0]), inputs[1..]);
    }
  }

  lemma ConfinedAnswers(w: World, s: Tpm, buf: Bytes, locality: nat)
    requires s.mode.failureMode && Executed(w, s, buf, locality).result.Ok?
    ensures HeaderOf(buf).Ok? && HeaderOf(buf).value.tag == ST_NO_SESSIONS && AllowedInFailureMode(HeaderOf(buf).value.code)
  {
    hide HeaderOf, Parsed, Handled;
  }

  /** Meanwhile only GetTestResult and GetCapability, without sessions, succeed. */
  lemma FailedWriteConfines(a: Around, b: Box, inputs: seq<Input>, buf: Bytes, locality: nat, elapsed: nat, storeWorks: bool)
    requires Lawful(a) && Sound(a, b) && b.tpm.mode.nvWriteFailed && NeverReloads(a, b, inputs)
    requires CommandRun(a, AfterAll(a, b, inputs), buf, locality, elapsed, storeWorks).1.Ok?
    ensures HeaderOf(buf).Ok? && HeaderOf(buf).value.tag == ST_NO_SESSIONS && AllowedInFailureMode(HeaderOf(buf).value.code)
  {
    DeviceStaysSound(a, b, inputs);
    FailedWriteFreezesFile(a, b, inputs);
    var t := AfterAll(a, b, inputs);
    AdvancedKeepsMode(a, t.tpm, elapsed);
    hide Advanced, Executed, MarkedNv, WitnessOf, Persisted, AfterAll, NeverReloads, HeaderOf;
    ConfinedAnswers(a.w, Advanced(a, t.tpm, elapsed).0, buf, locality);
  }

  /** A powered command that the table marks, or that moved the lockout or the audit
    log, and is not answered TPM_RC_NV_UNAVAILABLE has its state in the file. */
  lemma AnsweredIsDurable(a: Around, b: Box, buf: Bytes, locality: nat, elapsed: nat, storeWorks: bool)
    requires b.powered
    requires var (t, r) := CommandRun(a, b, buf, locality, elapsed, storeWorks);
             && (MarkedNv(a, buf) || WitnessOf(t.tpm) != WitnessOf(b.tpm))
             && !(r.Err? && r.error.code == RC_NV_UNAVAILABLE)
    ensures var (t, _) := CommandRun(a, b, buf, locality, elapsed, storeWorks);
            a.save(t.tpm.Visible()) == Some(t.file) && t.written == t.tpm
  {
    hide Advanced, Executed, MarkedNv;
  }

  /** A command whose write failed and that had something to write says so, and leaves the file as it was. */
  lemma FailedWriteIsReported(a: Around, b: Box, buf: Bytes, locality: nat, elapsed: nat)
    requires b.powered
    ensures var (t, r) := CommandRun(a, b, buf, locality, elapsed, false);
            && t.file == b.file
            && (MarkedNv(a, buf) ==> r == Fail(RC_NV_UNAVAILABLE) && t.tpm.mode.nvWriteFailed && t.tpm.mode.failureMode)
  {
    hide Advanced, Executed, MarkedNv, WitnessOf;
  }

  /** Reading the file again after a failed write gives back the lasting state that
    was last written, and the TPM comes up out of failure mode if its tests pass. */
  lemma ReloadRestoresWritten(a: Around, b: Box, testsPass: bool)
    requires Lawful(a) && Sound(a, b) && b.tpm.mode.nvWriteFailed && a.load(b.file).Some?
    ensures var t := PoweredOn(a, b, true, testsPass);
            && LastingOf(t.tpm) == LastingOf(b.written)
            && !t.tpm.mode.nvWriteFailed && t.tpm.mode.nvAvailable && t.tpm.mode.failureMode == !testsPass
            && t.file == b.file && Sound(a, t)
  {
  }
}
