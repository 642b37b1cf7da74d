/** What holds of the audit over every run within one power cycle. */
module AuditProperties {
  import opened Prelude
  import opened Commands
  import Marshal
  import opened CommandParse
  import opened State
  import opened Authorization
  import opened Audit
  import opened Actions
  import opened Pipeline
  import opened Frames
  import opened LockoutBudget
  import opened Recovery
  import opened AuditTrail
  import opened AuditRuns

  // ---- A started TPM stays started ----

  lemma AuditActionsStayStarted(w: World, s: Tpm, q: Request, e: Effect)
    ensures SetStatus(w, s, q).tpm.mode == s.mode
    ensures Report(s, q, e).tpm.mode.started == s.mode.started
    ensures Clear(s, e).tpm.mode.started == s.mode.started
  {
    hide WithPolicies, Ordered, Removed, Added, Marshal.GetList, Marshal.ReadU16, Marshal.ReadU32;
  }

  lemma FlushStaysStarted(w: World, s: Tpm, q: Request, e: Effect)
    ensures FlushContext(s, q, e).tpm.mode.started == s.mode.started
    ensures DictionaryAttackParameters(s, q).tpm.mode == s.mode
  {
    hide WithPolicies, FlushTarget, IsFlushableSession, Marshal.ReadU32, ReadParameters;
  }

  lemma SaveStaysStarted(w: World, s: Tpm, q: Request, e: Effect)
    ensures ContextSave(w, s, q, e).tpm.mode.started == s.mode.started
    ensures ContextLoad(s, e).tpm.mode.started == s.mode.started
  {
    hide WithPolicies, IsSessionHandle;
  }

  lemma StartStaysStarted(w: World, s: Tpm, e: Effect)
    ensures StartAuthSession(w, s, e).tpm.mode.started == s.mode.started
    ensures AfterOther(s, e).mode.started == s.mode.started
  {
    hide WithPolicies, NewHandle, EmptyPolicy;
  }

  lemma ActionStaysStarted(w: World, s: Tpm, q: Request)
    requires q.code != CC_STARTUP
    ensures RunCommand(w, s, q).tpm.mode.started == s.mode.started
  {
    hide Clear, LockoutCleared, DictionaryAttackParameters, AfterStartup, SetStatus, Report, FlushContext,
         ContextSave, ContextLoad, StartAuthSession, AfterOther;
    var e := w.action(s.Visible(), q);
    AuditActionsStayStarted(w, s, q, e);
    FlushStaysStarted(w, s, q, e);
    SaveStaysStarted(w, s, q, e);
    StartStaysStarted(w, s, e);
  }

  lemma CompletedStaysStarted(w: World, s: Tpm, q: Request, a: Admission)
    requires q.code != CC_STARTUP
    ensures Completed(w, s, q, a).tpm.mode.started == s.mode.started
  {
    hide RunCommand, RolledFrom, Encrypted, AfterAudit, AfterSessions, ResponseAttributes;
    var q1 := q.(parameters := a.parameters);
    ActionStaysStarted(w, s.(suppressed := false), q1);
    var ran := RunCommand(w, s.(suppressed := false), q1);
    RolledFrame(w, ran.tpm, q, 0);
    AfterSessionsFrame(w, Accounted(w, s, q, a).tpm, q, 0);
    if ran.result.Ok? {
      var s2 := RolledFrom(w, ran.tpm, q, 0).tpm;
      var parameters := Encrypted(w, s2, q, ran.result.value.parameters, a.auths);
      if parameters.Ok? {
        AfterAuditFrame(w, s2, q, a.names, q.parameters, parameters.value);
      }
    }
  }

  // ---- Every step, every run ----

  lemma HandledKeepsSound(w: World, s: Tpm, q: Request, start: Origin)
    requires Lawful(w) && Sound(w, s, start) && (start.exclusive ==> s.mode.started)
    requires q.sessions != [] ==> !RequiresNoSessions(q.code)
    ensures var t := Handled(w, s, q).tpm; Sound(w, t, start) && (s.mode.started ==> t.mode.started)
  {
    hide Sound, Admitted, Completed, AuditLoaded;
    AdmittedKeepsSound(w, s, q, start);
    var admitted := Admitted(w, s, q);
    if admitted.result.Ok? {
      CompletedKeepsSound(w, admitted.tpm, q, admitted.result.value, start);
      if s.mode.started {
        CompletedStaysStarted(w, admitted.tpm, q, admitted.result.value);
      }
    }
  }

  lemma {:induction false} RecoveringKeepsSound(w: World, s: Tpm, time: uint64, start: Origin)
    requires Lawful(w) && Sound(w, s, start)
    ensures Sound(w, Recovering(s, time), start) && Recovering(s, time).mode == s.mode
    decreases s.lockout.failedTries
  {
    hide Sound;
    if s.lockout.failedTries > 0 && time >= s.lockout.nextRecovery {
      var s1 := s.(lockout := s.lockout.(
        failedTries := s.lockout.failedTries - 1,
        nextRecovery := SaturatingAdd(s.lockout.nextRecovery, s.lockout.recoveryTime * 1000, U64_MAX))).Note(Recovered);
      SameAuditKeepsSound(w, s, s1, start);
      RecoveringKeepsSound(w, s1, time, start);
    }
  }

  lemma OnTimeKeepsSound(w: World, s: Tpm, time: uint64, start: Origin)
    requires Lawful(w) && Sound(w, s, start)
    ensures Sound(w, OnTime(s, time), start) && OnTime(s, time).mode == s.mode
  {
    hide Sound, Recovering, LockoutEnded, Records;
    var s1 := s.(clock := s.clock.(time := time));
    SameAuditKeepsSound(w, s, s1, start);
    RecoveringKeepsSound(w, s1, time, start);
    SameAuditKeepsSound(w, if s1.lockout.ProtectionOff() then s1 else Recovering(s1, time), OnTime(s, time), start);
  }

  /** Whatever commands arrive within a power cycle, every audit register stays
    the fold of what its history says it audited, the exclusive status stays with
    the one session nothing interrupted, and the counter stays the number of logs begun. */
  lemma {:induction false} AuditStaysSound(w: World, s: Tpm, inputs: seq<Input>, start: Origin)
    requires Lawful(w) && Sound(w, s, start) && s.mode.started
    ensures var t := AfterAll(w, s, inputs); Sound(w, t, start) && t.mode.started
    decreases |inputs|
  {
    hide Sound, Handled, OnTime, Parsed, ModeAnswer;
    if inputs != [] {
      match inputs[0] {
        case Elapse(time) =>
          OnTimeKeepsSound(w, s, time, start);
        case Command(buf, locality) =>
          if Parsed(w.table, buf, locality).Ok? {
            SomeCarryNoSessions(w.table, buf, locality);
            HandledKeepsSound(w, s, Parsed(w.table, buf, locality).value, start);
          }
      }
      AuditStaysSound(w, After(w, s, inputs[0]), inputs[1..], start);
    }
  }

  // ---- What that says ----

  /** The session's register is the fold of (cpHash, rpHash) over what it audited since it began or was last reset. */
  ghost predicate Folds(w: World, history: History, h: uint32, session: Session)
    requires Lawful(w)
  {
    var trail := SessionTrail(history, h);
    && session.isAudit == (trail != []) && w.digestSize(session.authHash).Some?
    && (trail != [] ==> session.auditDigest == Chain(w, session.authHash, trail))
  }

  lemma SessionsSoundMeans(w: World, t: Tpm, h: uint32)
    requires Lawful(w) && SessionsSound(w, t)
    ensures (h in t.sessions ==> Folds(w, t.history, h, t.sessions[h])) && (h in t.saved ==> Folds(w, t.history, h, t.saved[h]))
  {
    hide SessionTrail, Chain, Lawful;
    if h in t.sessions {
      assert SessionSound(w, t.history, h, t.sessions[h]);
    }
    if h in t.saved {
      assert SessionSound(w, t.history, h, t.saved[h]);
    }
  }

  /** The register of every open audit session, loaded or put away, is the fold over what it audited. */
  lemma SessionDigestIsFold(w: World, s: Tpm, inputs: seq<Input>, h: uint32)
    requires Lawful(w) && Sound(w, s, Here(s)) && s.mode.started
    ensures var t := AfterAll(w, s, inputs);
            (h in t.sessions ==> Folds(w, t.history, h, t.sessions[h])) && (h in t.saved ==> Folds(w, t.history, h, t.saved[h]))
  {
    hide AfterAll, SessionsSound, LogSound, ExclusiveSound, Lawful, Folds;
    AuditStaysSound(w, s, inputs, Here(s));
    SessionsSoundMeans(w, AfterAll(w, s, inputs), h);
  }

  /** The command audit digest is empty or one digest of the current algorithm, the fold over the commands
    audited since the log began; the counter moved once for each log begun, modulo 2^64. */
  ghost predicate LogFolds(w: World, t: Tpm, counter: uint64)
    requires Lawful(w)
  {
    var trail := LogTrail(t.history);
    && w.digestSize(t.audit.alg).Some?
    && t.audit.digest == (if trail == [] then [] else Chain(w, t.audit.alg, trail))
    && (t.audit.digest == [] || |t.audit.digest| == w.digestSize(t.audit.alg).value)
    && t.audit.counter == (CounterBase(t.history, counter) + LogsBegun(t.history)) % (U64_MAX + 1)
  }

  lemma LogSoundMeans(w: World, t: Tpm, start: Origin)
    requires Lawful(w) && LogSound(w, t, start)
    ensures LogFolds(w, t, start.counter)
  {
  }

  lemma CommandDigestIsFold(w: World, s: Tpm, inputs: seq<Input>)
    requires Lawful(w) && Sound(w, s, Here(s)) && s.mode.started
    ensures LogFolds(w, AfterAll(w, s, inputs), s.audit.counter)
  {
    hide AfterAll, LogSound, SessionsSound, ExclusiveSound, Lawful, LogFolds;
    AuditStaysSound(w, s, inputs, Here(s));
    LogSoundMeans(w, AfterAll(w, s, inputs), Here(s));
  }

  /** A command admitted with auditExclusive names a session nothing has interrupted, and that is still open. */
  lemma ExclusiveMeansUninterrupted(w: World, s: Tpm, inputs: seq<Input>, q: Request)
    requires Lawful(w) && Sound(w, s, Here(s)) && s.mode.started
    requires AsksExclusive(q) && Admitted(w, AfterAll(w, s, inputs), q).result.Ok?
    ensures var t := AfterAll(w, s, inputs);
            var h := AuditHandle(q).value;
            Uninterrupted(t.history, h) && OpenAudit(t, h)
  {
    AuditStaysSound(w, s, inputs, Here(s));
    AdmittedWithExclusive(w, AfterAll(w, s, inputs), q, Here(s));
  }

  lemma AdmittedWithExclusive(w: World, s: Tpm, q: Request, start: Origin)
    requires Lawful(w) && Sound(w, s, start) && start.exclusive
    requires AsksExclusive(q) && Admitted(w, s, q).result.Ok?
    ensures Uninterrupted(s.history, AuditHandle(q).value) && OpenAudit(s, AuditHandle(q).value)
  {
    GatedFrame(w, s, q);
    AdmittedFrame(w, s, q);
    AdmittedKeepsSound(w, s, q, start);
    var h := AuditHandle(q).value;
    assert h in s.sessions;
    SessionHandleIsAssigned(w, s, h);
    hide Gated, Resolved, AuthorizedFrom, ExtraSessions, Decrypted, SessionsSound, LogSound, SameIndices, Records, FirstWith;
    assert s.exclusive == h;
  }

  lemma SessionHandleIsAssigned(w: World, s: Tpm, h: uint32)
    requires Lawful(w) && SessionsSound(w, s) && h in s.sessions
    ensures h != RH_UNASSIGNED
  {
  }

  // ---- The history is what happened ----

  /** A command that gets through the audit update leaves exactly one record of its answer,
    which says what was answered; one that does not leaves none. */
  lemma SuccessIsRecorded(w: World, s: Tpm, q: Request, a: Admission)
    ensures var t := Accounted(w, s, q, a);
            var ran := Acted(w, s, q, a);
            if t.result.Err? then t.tpm.history == ran.history
            else
              t.tpm.history == Then(ran.history, Answered(q.code, AuditHandle(q), AsksReset(q),
                t.tpm.history.last.logged, a.names, q.parameters, t.result.value.parameters))
              && !(t.tpm.history.last.logged && q.code == CC_SHUTDOWN)
  {
    hide RunCommand, Encrypted, Extended, AuditIndex, AsksReset, AuditHandle;
    var ran := RunCommand(w, s.(suppressed := false), q.(parameters := a.parameters));
    RolledFrame(w, ran.tpm, q, 0);
    hide RolledFrom;
  }

  function Events(history: History): seq<Event> {
    match history case Beginning => [] case Then(past, e) => Events(past) + [e]
  }

  /** The event neither closes `h` nor answers a command that takes the exclusive status. */
  predicate LeavesExclusive(e: Event, h: uint32) {
    e != Closed(h) && (e.Answered? ==> e.audit == None && KeepsExclusive(e.code))
  }

  /** Events `i` on left session `h` the exclusive one: it audited at `i` and nothing interrupted it. */
  predicate AuditedLastAt(events: seq<Event>, h: uint32, i: int) {
    && 0 <= i < |events|
    && events[i].Answered? && events[i].audit == Some(h)
    && forall j :: i < j < |events| ==> LeavesExclusive(events[j], h)
  }

  lemma AuditedLastStep(events: seq<Event>, e: Event, h: uint32, i: int)
    ensures AuditedLastAt(events + [e], h, i)
       <==> if i == |events| then e.Answered? && e.audit == Some(h)
            else AuditedLastAt(events, h, i) && LeavesExclusive(e, h)
  {
    var whole := events + [e];
    hide LeavesExclusive;
    if AuditedLastAt(whole, h, i) && i != |events| {
      assert whole[|events|] == e;
      assert forall j :: i <= j < |events| ==> whole[j] == events[j];
    }
  }

  /** Uninterrupted, position by position: after the last command `h` audited, every
    command that succeeded was one of the exempt ones, and `h` was not closed. */
  lemma {:induction false} UninterruptedMeans(history: History, h: uint32)
    ensures Uninterrupted(history, h) <==> exists i :: AuditedLastAt(Events(history), h, i)
  {
    if history.Then? {
      var past := Events(history.past);
      UninterruptedMeans(history.past, h);
      forall i: int
        ensures AuditedLastAt(Events(history), h, i)
           <==> if i == |past| then history.last.Answered? && history.last.audit == Some(h)
                else AuditedLastAt(past, h, i) && LeavesExclusive(history.last, h)
      {
        AuditedLastStep(past, history.last, h, i);
      }
      hide AuditedLastAt, KeepsExclusive;
      assert AuditedLastAt(Events(history), h, |past|) <==> history.last.Answered? && history.last.audit == Some(h);
      if i :| AuditedLastAt(Events(history), h, i) && i != |past| {
        assert AuditedLastAt(past, h, i);
      }
      if i :| AuditedLastAt(past, h, i) && i != |past| {
        assert AuditedLastAt(Events(history), h, i) <==> LeavesExclusive(history.last, h);
      }
      assert !AuditedLastAt(past, h, |past|) by {
        OutOfRange(past, h);
      }
    }
  }

  lemma OutOfRange(events: seq<Event>, h: uint32)
    ensures !AuditedLastAt(events, h, |events|)
  {
  }

  /** If a command with auditExclusive succeeds, then every command that succeeded
    since the last one its session audited was ContextSave, ContextLoad, FlushContext,
    Startup or ReadClock without an audit session, and that session is still open. */
  lemma ExclusiveSuccessIsUninterrupted(w: World, s: Tpm, inputs: seq<Input>, buf: Bytes, locality: nat)
    requires Lawful(w) && Sound(w, s, Here(s)) && s.mode.started
    requires var t := AfterAll(w, s, inputs);
             && Executed(w, t, buf, locality).result.Ok?
             && AsksExclusive(Received(w, t, buf, locality).value)
    ensures var t := AfterAll(w, s, inputs);
            var h := AuditHandle(Received(w, t, buf, locality).value).value;
            && OpenAudit(t, h)
            && exists i :: AuditedLastAt(Events(t.history), h, i)
  {
    hide AfterAll, Received, Admitted, Completed, Sound, AuditedLastAt, Uninterrupted;
    var t := AfterAll(w, s, inputs);
    var q := Received(w, t, buf, locality).value;
    ExclusiveMeansUninterrupted(w, s, inputs, q);
    UninterruptedMeans(t.history, AuditHandle(q).value);
  }
}
