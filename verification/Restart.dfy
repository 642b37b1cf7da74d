/** The exclusive audit session from one power cycle to the next. */
module Restart {
  import opened Prelude
  import opened Commands
  import opened CommandParse
  import opened State
  import opened Authorization
  import opened Audit
  import opened Actions
  import opened Pipeline
  import opened Frames
  import opened LockoutBudget
  import opened Recovery
  import opened AuditTrail
  import opened AuditRuns
  import opened AuditProperties
  import Device

  /** The TPM once the power has gone and come back with storage that works. */
  function PowerCycled(a: Device.Around, s: Tpm, file: Bytes, storeWorks: bool, testsPass: bool): Tpm {
    Device.PoweredOn(a, Device.PoweredOff(a, Device.Box(s, true, file, s), storeWorks), true, testsPass).tpm
  }

  /** _TPM_Init drops what is loaded and keeps what is saved, the exclusive status and the shutdown indication. */
  lemma CycleKeeps(a: Device.Around, s: Tpm, file: Bytes, storeWorks: bool, testsPass: bool)
    requires !s.mode.nvWriteFailed
    ensures var t := PowerCycled(a, s, file, storeWorks, testsPass);
            && t.sessions == map[] && t.saved == s.saved && t.exclusive == s.exclusive
            && !t.mode.started && t.mode.shutdownType == s.mode.shutdownType
  {
  }

  /** The startup starts from scratch: no Resume, and no state was saved for a Restart. */
  predicate IsReset(s: Tpm, q: Request) {
    !IsResume(q) && s.mode.shutdownType != SU_STATE
  }

  /** Once the action has run, a command without sessions touches neither sessions nor their status. */
  lemma WithoutSessionsKeepsStatus(w: World, s: Tpm, q: Request, a: Admission)
    requires q.code == CC_STARTUP && q.sessions == [] && Completed(w, s, q, a).result.Ok?
    ensures var ran := RunCommand(w, s.(suppressed := false), q.(parameters := a.parameters));
            var t := Completed(w, s, q, a).tpm;
            ran.result.Ok? && t.sessions == ran.tpm.sessions && t.saved == ran.tpm.saved && t.exclusive == ran.tpm.exclusive
  {
    hide RunCommand, CommandAuditApplies, Extended;
  }

  lemma StartupRan(w: World, s: Tpm, q: Request, a: Admission)
    requires q.code == CC_STARTUP && q.sessions == [] && Completed(w, s, q, a).result.Ok?
    ensures var t := Completed(w, s, q, a).tpm;
            && t.sessions == map[]
            && t.saved == (if IsReset(s, q.(parameters := a.parameters)) then map[] else s.saved)
            && t.exclusive == (if IsReset(s, q.(parameters := a.parameters)) then RH_UNASSIGNED else s.exclusive)
  {
    WithoutSessionsKeepsStatus(w, s, q, a);
    hide Completed, LockoutStarted, PendingCounted, IsResume;
  }

  lemma OnlyStartupPasses(w: World, s: Tpm, q: Request)
    requires !s.mode.started && Admitted(w, s, q).result.Ok?
    ensures q.code == CC_STARTUP
  {
    AdmittedWasGated(w, s, q);
    hide ReadOnlyAnswer, HandlesAllowed, NeedsPresence;
  }

  lemma StartupAdmitted(w: World, s: Tpm, q: Request)
    requires q.code == CC_STARTUP && q.sessions == [] && Admitted(w, s, q).result.Ok?
    ensures Admitted(w, s, q).result.value.parameters == q.parameters
    ensures var t := Admitted(w, s, q).tpm;
            t.saved == s.saved && t.exclusive == s.exclusive && t.mode == s.mode
  {
    AdmittedFrame(w, s, q);
    AdmittedWasGated(w, s, q);
    GatedFrame(w, s, q);
    hide Resolved, AuthorizedFrom, ExtraSessions, AuditSessionAnswer, SameIndices, Records, NeedsPresence, HandlesAllowed, ReadOnlyAnswer;
  }

  /** From the last state of a power cycle through _TPM_Init and the startup that follows:
    the exclusive status then names no session or an open one if and only if it was a TPM
    Reset, or the status named no session or one that was put away before the power went. */
  lemma RestartKeepsExclusiveOpen(a: Device.Around, s: Tpm, inputs: seq<Input>, file: Bytes, storeWorks: bool, testsPass: bool,
                                  buf: Bytes, locality: nat)
    requires Lawful(a.w) && Sound(a.w, s, Here(s)) && s.mode.started
    requires var t := AfterAll(a.w, s, inputs);
             !t.mode.nvWriteFailed && Executed(a.w, PowerCycled(a, t, file, storeWorks, testsPass), buf, locality).result.Ok?
    ensures var t := AfterAll(a.w, s, inputs);
            var on := PowerCycled(a, t, file, storeWorks, testsPass);
            var u := Executed(a.w, on, buf, locality).tpm;
            Received(a.w, on, buf, locality).value.code == CC_STARTUP
            && (u.exclusive == RH_UNASSIGNED || OpenAudit(u, u.exclusive)
                <==> IsReset(t, Received(a.w, on, buf, locality).value) || t.exclusive == RH_UNASSIGNED || t.exclusive in t.saved)
  {
    hide AfterAll, PowerCycled, Admitted, Completed, Parsed, ModeAnswer, IsResume, SessionSound, LogSound, Uninterrupted;
    AuditStaysSound(a.w, s, inputs, Here(s));
    var t := AfterAll(a.w, s, inputs);
    CycleKeeps(a, t, file, storeWorks, testsPass);
    var on := PowerCycled(a, t, file, storeWorks, testsPass);
    var q := Received(a.w, on, buf, locality).value;
    OnlyStartupPasses(a.w, on, q);
    SomeCarryNoSessions(a.w.table, buf, locality);
    StartupAdmitted(a.w, on, q);
    StartupRan(a.w, Admitted(a.w, on, q).tpm, q, Admitted(a.w, on, q).result.value);
  }

  // ---- The registers over any number of power cycles ----

  /** No input reads the state file into memory: it does so only after a write that failed. */
  predicate KeepsMemory(a: Device.Around, b: Device.Box, inputs: seq<Device.Input>)
    decreases |inputs|
  {
    inputs == []
    || (!(b.tpm.mode.nvWriteFailed && Device.Reloads(a, b, inputs[0]))
        && KeepsMemory(a, Device.After(a, b, inputs[0]), inputs[1..]))
  }

  lemma AdvancedKeepsSound(a: Device.Around, s: Tpm, elapsed: nat, start: Origin)
    requires Lawful(a.w) && Sound(a.w, s, start)
    ensures Sound(a.w, Device.Advanced(a, s, elapsed).0, start)
  {
    hide Sound, OnTime, Records;
    match a.advance(s.store, s.clock, elapsed) {
      case None =>
      case Some(t) =>
        var s1 := s.(store := s.store.(rest := t.0));
        SameAuditKeepsSound(a.w, s, s1, start);
        OnTimeKeepsSound(a.w, s1, t.1, start);
    }
  }

  lemma ExecutedKeepsSound(w: World, s: Tpm, buf: Bytes, locality: nat, start: Origin)
    requires Lawful(w) && Sound(w, s, start) && (start.exclusive ==> s.mode.started)
    ensures Sound(w, Executed(w, s, buf, locality).tpm, start)
  {
    hide Sound, Handled, Parsed, ModeAnswer;
    if Received(w, s, buf, locality).Ok? {
      SomeCarryNoSessions(w.table, buf, locality);
      HandledKeepsSound(w, s, Received(w, s, buf, locality).value, start);
    }
  }

  lemma CommandKeepsSound(a: Device.Around, b: Device.Box, buf: Bytes, locality: nat, elapsed: nat, storeWorks: bool, start: Origin)
    requires Lawful(a.w) && Sound(a.w, b.tpm, start) && !start.exclusive
    ensures Sound(a.w, Device.CommandRun(a, b, buf, locality, elapsed, storeWorks).0.tpm, start)
  {
    hide Sound, Executed, Device.Advanced, Device.MarkedNv, Device.WitnessOf;
    AdvancedKeepsSound(a, b.tpm, elapsed, start);
    var advanced := Device.Advanced(a, b.tpm, elapsed).0;
    ExecutedKeepsSound(a.w, advanced, buf, locality, start);
    var ran := Executed(a.w, advanced, buf, locality).tpm;
    ModeKeepsSound(a.w, ran, Device.Confined(ran).mode, start);
  }

  lemma StepKeepsFolds(a: Device.Around, b: Device.Box, input: Device.Input, start: Origin)
    requires Lawful(a.w) && Sound(a.w, b.tpm, start) && !start.exclusive
    requires !(b.tpm.mode.nvWriteFailed && Device.Reloads(a, b, input))
    ensures Sound(a.w, Device.After(a, b, input).tpm, start)
  {
    hide Sound, Device.CommandRun;
    var t := Device.After(a, b, input).tpm;
    match input {
      case Command(buf, locality, elapsed, storeWorks) =>
        CommandKeepsSound(a, b, buf, locality, elapsed, storeWorks, start);
      case PowerOn(_, _) =>
        LoadedGone(a.w, b.tpm, t, start);
      case PowerOff(_) =>
        LoadedGone(a.w, b.tpm, t, start);
      case _ =>
        ModeKeepsSound(a.w, b.tpm, t.mode, start);
    }
  }

  lemma {:induction false} DeviceKeepsSound(a: Device.Around, b: Device.Box, inputs: seq<Device.Input>, start: Origin)
    requires Lawful(a.w) && Sound(a.w, b.tpm, start) && !start.exclusive && KeepsMemory(a, b, inputs)
    ensures Sound(a.w, Device.AfterAll(a, b, inputs).tpm, start)
    decreases |inputs|
  {
    if inputs != [] {
      hide Sound, Device.After, Device.Reloads;
      StepKeepsFolds(a, b, inputs[0], start);
      DeviceKeepsSound(a, Device.After(a, b, inputs[0]), inputs[1..], start);
    }
  }

  /** Over any run of the device, with any number of startups, restarts and resets in it
    and writes that may fail: the register of every open audit session, loaded or put
    away, is the fold over what it audited, and so is the command audit digest. */
  lemma DigestsOutlivePower(a: Device.Around, b: Device.Box, inputs: seq<Device.Input>, h: uint32)
    requires Lawful(a.w) && Sound(a.w, b.tpm, Here(b.tpm)) && KeepsMemory(a, b, inputs)
    ensures var t := Device.AfterAll(a, b, inputs).tpm;
            && (h in t.sessions ==> Folds(a.w, t.history, h, t.sessions[h]))
            && (h in t.saved ==> Folds(a.w, t.history, h, t.saved[h]))
            && LogFolds(a.w, t, b.tpm.audit.counter)
  {
    hide SessionsSound, LogSound, ExclusiveSound, Lawful, Folds, LogFolds, KeepsMemory, Device.AfterAll;
    var start := Origin(b.tpm.audit.counter, false);
    LogReadsCounter(a.w, b.tpm, start);
    DeviceKeepsSound(a, b, inputs, start);
    SessionsSoundMeans(a.w, Device.AfterAll(a, b, inputs).tpm, h);
    LogSoundMeans(a.w, Device.AfterAll(a, b, inputs).tpm, start);
  }

  lemma LogReadsCounter(w: World, s: Tpm, start: Origin)
    requires Lawful(w) && LogSound(w, s, Here(s)) && start.counter == s.audit.counter
    ensures LogSound(w, s, start)
  {
  }
}
