/** Every step of a run keeps the audit sound. */
module AuditRuns {
  import opened Prelude
  import opened Commands
  import Marshal
  import opened CommandParse
  import opened State
  import opened Authorization
  import opened Audit
  import opened Actions
  import opened Pipeline
  import opened Frames
  import opened LockoutBudget
  import opened AuditTrail

  // ---- Opening, closing and moving sessions ----

  lemma TrailSkips(w: World, history: History, e: Event, h: uint32, session: Session)
    requires Lawful(w) && SessionSound(w, history, h, session)
    requires e != Opened(h) && e != Closed(h) && !(e.Answered? && e.audit == Some(h))
    ensures SessionSound(w, Then(history, e), h, session)
  {
  }

  /** The exclusive status over an event that answers no command. */
  lemma ExclusiveSkips(s: Tpm, t: Tpm, e: Event)
    requires ExclusiveSound(s) && !e.Answered? && t.history == Then(s.history, e)
    requires if e.Closed? && e.session == s.exclusive then t.exclusive == RH_UNASSIGNED else t.exclusive == s.exclusive
    requires forall h :: OpenAudit(s, h) && e != Closed(h) ==> OpenAudit(t, h)
    ensures ExclusiveSound(t)
  {
  }

  lemma OpenKeepsSessions(w: World, s: Tpm, session: Session, added: uint32)
    requires Lawful(w) && SessionsSound(w, s)
    requires IsSessionHandle(added) && !s.Open(added) && w.digestSize(session.authHash).Some? && !session.isAudit
    ensures SessionsSound(w, s.(sessions := s.sessions[added := session]).Note(Event.Opened(added)))
  {
    var t := s.(sessions := s.sessions[added := session]).Note(Event.Opened(added));
    NewSessionIsSound(w, s.history, added, session);
    hide SessionSound, IsSessionHandle;
    forall h | h in s.sessions ensures SessionSound(w, t.history, h, s.sessions[h]) {
      TrailSkips(w, s.history, Event.Opened(added), h, s.sessions[h]);
    }
    forall h | h in s.saved ensures SessionSound(w, t.history, h, s.saved[h]) {
      TrailSkips(w, s.history, Event.Opened(added), h, s.saved[h]);
    }
  }

  lemma NewSessionIsSound(w: World, history: History, h: uint32, session: Session)
    requires Lawful(w) && IsSessionHandle(h) && w.digestSize(session.authHash).Some? && !session.isAudit
    ensures SessionSound(w, Then(history, Event.Opened(h)), h, session)
  {
  }

  /** An event that is neither about the log nor an answer leaves it as it was. */
  lemma LogSkips(w: World, s: Tpm, t: Tpm, e: Event, start: Origin)
    requires Lawful(w) && LogSound(w, s, start) && t.audit == s.audit && t.history == Then(s.history, e)
    requires !e.Answered? && e != LogEnded && e != CounterCleared
    ensures LogSound(w, t, start)
  {
  }

  lemma OpenKeepsSound(w: World, s: Tpm, session: Session, start: Origin)
    requires Lawful(w) && Sound(w, s, start)
    ensures Sound(w, AfterOpen(w, s, session).tpm, start)
  {
    var t := AfterOpen(w, s, session).tpm;
    if t != s {
      var added := NewHandle(s, session.kind).value;
      hide SessionsSound, LogSound, ExclusiveSound, NewHandle, EmptyPolicy;
      OpenKeepsSessions(w, s, t.sessions[added], added);
      if start.exclusive {
        ExclusiveSkips(s, t, Event.Opened(added));
      }
      LogSkips(w, s, t, Event.Opened(added), start);
    }
  }

  lemma CloseKeepsSessions(w: World, s: Tpm, closed: uint32)
    requires Lawful(w) && SessionsSound(w, s)
    ensures SessionsSound(w, AfterClose(s, closed))
  {
    var t := AfterClose(s, closed);
    hide SessionSound;
    forall h | h in t.sessions ensures SessionSound(w, t.history, h, t.sessions[h]) {
      TrailSkips(w, s.history, Closed(closed), h, s.sessions[h]);
    }
    forall h | h in t.saved ensures SessionSound(w, t.history, h, t.saved[h]) {
      TrailSkips(w, s.history, Closed(closed), h, s.saved[h]);
    }
  }

  lemma CloseKeepsSound(w: World, s: Tpm, closed: uint32, start: Origin)
    requires Lawful(w) && Sound(w, s, start)
    ensures Sound(w, AfterClose(s, closed), start)
  {
    hide SessionsSound, LogSound, ExclusiveSound;
    CloseKeepsSessions(w, s, closed);
    if start.exclusive {
      ExclusiveSkips(s, AfterClose(s, closed), Closed(closed));
    }
    LogSkips(w, s, AfterClose(s, closed), Closed(closed), start);
  }

  lemma SaveKeepsSound(w: World, s: Tpm, h: uint32, start: Origin)
    requires Lawful(w) && Sound(w, s, start)
    ensures Sound(w, AfterSave(s, h).tpm, start)
  {
    hide SessionSound, LogSound, Uninterrupted;
    SameLog(w, s, AfterSave(s, h).tpm, start);
  }

  lemma RestoreKeepsSessions(w: World, s: Tpm, h: uint32)
    requires Lawful(w) && SessionsSound(w, s)
    ensures SessionsSound(w, AfterRestore(s, h).tpm)
  {
    hide SessionSound;
  }

  lemma RestoreKeepsExclusive(s: Tpm, h: uint32)
    requires ExclusiveSound(s) && s.sessions.Keys !! s.saved.Keys
    ensures ExclusiveSound(AfterRestore(s, h).tpm)
  {
  }

  lemma RestoreKeepsSound(w: World, s: Tpm, h: uint32, start: Origin)
    requires Lawful(w) && Sound(w, s, start)
    ensures Sound(w, AfterRestore(s, h).tpm, start)
  {
    hide SessionSound, ExclusiveSound, LogSound;
    RestoreKeepsSessions(w, s, h);
    if start.exclusive {
      RestoreKeepsExclusive(s, h);
    }
    SameLog(w, s, AfterRestore(s, h).tpm, start);
  }

  lemma SameLog(w: World, s: Tpm, t: Tpm, start: Origin)
    requires Lawful(w) && LogSound(w, s, start) && t.history == s.history
    requires t.audit == s.audit.(commands := t.audit.commands)
    ensures LogSound(w, t, start)
  {
  }

  // ---- The audit log ----

  lemma LogEndKeepsSound(w: World, s: Tpm, alg: uint16, suppressed: bool, start: Origin)
    requires Lawful(w) && Sound(w, s, start) && w.digestSize(alg).Some?
    ensures Sound(w, s.(audit := s.audit.(alg := alg, digest := []), suppressed := suppressed).Note(LogEnded), start)
  {
    var t := s.(audit := s.audit.(alg := alg, digest := []), suppressed := suppressed).Note(LogEnded);
    RecordKeepsSessions(w, s, t, LogEnded);
  }

  /** An event about no session leaves the sessions sound. */
  lemma RecordKeepsSessions(w: World, s: Tpm, t: Tpm, e: Event)
    requires Lawful(w) && SessionsSound(w, s)
    requires e == LogEnded || e == CounterCleared
    requires t.sessions == s.sessions && t.saved == s.saved && t.exclusive == s.exclusive
    requires t.history == Then(s.history, e)
    ensures SessionsSound(w, t) && (ExclusiveSound(s) ==> ExclusiveSound(t))
  {
    hide SessionSound, ExclusiveSound;
    forall h | h in t.sessions ensures SessionSound(w, t.history, h, t.sessions[h]) {
      TrailSkips(w, s.history, e, h, s.sessions[h]);
    }
    forall h | h in t.saved ensures SessionSound(w, t.history, h, t.saved[h]) {
      TrailSkips(w, s.history, e, h, s.saved[h]);
    }
    if ExclusiveSound(s) {
      ExclusiveSkips(s, t, e);
    }
  }

  lemma CounterClearKeepsSound(w: World, s: Tpm, lockout: Lockout, start: Origin)
    requires Lawful(w) && Sound(w, s, start)
    ensures Sound(w, s.(lockout := lockout, audit := s.audit.(counter := 0)).Note(CounterCleared), start)
  {
    var t := s.(lockout := lockout, audit := s.audit.(counter := 0)).Note(CounterCleared);
    RecordKeepsSessions(w, s, t, CounterCleared);
    hide SessionsSound, ExclusiveSound;
  }

  lemma ListKeepsSound(w: World, s: Tpm, commands: seq<uint32>, start: Origin)
    requires Lawful(w) && Sound(w, s, start)
    ensures Sound(w, s.(audit := s.audit.(commands := commands)), start)
  {
    hide SessionSound, Uninterrupted, LogSound;
    SameLog(w, s, s.(audit := s.audit.(commands := commands)), start);
  }

  lemma SetStatusKeepsSound(w: World, s: Tpm, alg: uint16, setList: seq<uint32>, clearList: seq<uint32>, start: Origin)
    requires Lawful(w) && Sound(w, s, start)
    ensures Sound(w, AfterSetStatus(w, s, alg, setList, clearList).tpm, start)
  {
    hide Sound, Ordered, Removed, Added;
    if alg != ALG_NULL && alg != s.audit.alg && w.digestSize(alg).Some? {
      LogEndKeepsSound(w, s, alg, true, start);
    }
    ListKeepsSound(w, s, Ordered(Removed(Added(w, s.audit.commands, setList), clearList)), start);
  }

  // ---- Updating the audit ----

  /** The session that audited, after it did. */
  lemma AuditedSessionSound(w: World, history: History, h: uint32, session: Session, e: Event, before: Bytes, digest: Bytes)
    requires Lawful(w) && SessionSound(w, history, h, session)
    requires e.Answered? && e.audit == Some(h)
    requires before == if e.reset || !session.isAudit then [] else session.auditDigest
    ensures Extended(w, session.authHash, before, e.code, e.names, e.parameters, e.response).Ok?
    ensures Extended(w, session.authHash, before, e.code, e.names, e.parameters, e.response) == Ok(digest) ==>
      SessionSound(w, Then(history, e), h, session.(isAudit := true, auditDigest := digest))
  {
    var trail := if e.reset then [] else SessionTrail(history, h);
    ExtendedIsChain(w, session.authHash, trail, EntryOf(e));
    hide Extended, Chain;
    assert [] + [EntryOf(e)] == [EntryOf(e)];
    assert SessionTrail(Then(history, e), h) == trail + [EntryOf(e)];
  }

  lemma SessionAuditExtends(w: World, s: Tpm, q: Request, names: seq<Bytes>, parameters: Bytes, response: Bytes, e: Event)
    requires Lawful(w) && SessionsSound(w, s)
    requires AuditHandle(q).Some? ==> AuditHandle(q).value in s.sessions
    requires e.Answered? && e.code == q.code && e.audit == AuditHandle(q) && e.reset == AsksReset(q)
    requires e.names == names && e.parameters == parameters && e.response == response
    ensures var audited := AfterSessionAudit(w, s, q, names, parameters, response);
            var t := audited.tpm;
            && audited.result.Ok?
            && t == s.(sessions := t.sessions)
            && t.sessions.Keys == s.sessions.Keys
            && (AuditHandle(q).Some? ==> t.sessions[AuditHandle(q).value].isAudit)
            && (forall h :: h in s.sessions && s.sessions[h].isAudit ==> t.sessions[h].isAudit)
            && SessionsSound(w, t.Note(e))
  {
    var t := AfterSessionAudit(w, s, q, names, parameters, response).tpm.Note(e);
    hide Extended, FirstWith, AsksReset, SessionSound;
    if AuditHandle(q).Some? {
      var h := AuditHandle(q).value;
      var session := s.sessions[h];
      assert SessionSound(w, s.history, h, session);
      var before := if AsksReset(q) || !session.isAudit then [] else session.auditDigest;
      var digest := Extended(w, session.authHash, before, q.code, names, parameters, response);
      AuditedSessionSound(w, s.history, h, session, e, before, if digest.Ok? then digest.value else []);
      assert SessionSound(w, t.history, h, t.sessions[h]);
    }
    forall h | h in t.sessions ensures SessionSound(w, t.history, h, t.sessions[h]) {
      if Some(h) != AuditHandle(q) {
        TrailSkips(w, s.history, e, h, s.sessions[h]);
      }
    }
    forall h | h in t.saved ensures SessionSound(w, t.history, h, t.saved[h]) {
      TrailSkips(w, s.history, e, h, s.saved[h]);
    }
  }

  lemma CommandAuditExtends(w: World, s: Tpm, q: Request, names: seq<Bytes>, parameters: Bytes, response: Bytes, start: Origin)
    requires Lawful(w) && LogSound(w, s, start)
    ensures var audited := AfterCommandAudit(w, s, q, names, parameters, response);
            && audited.result.Ok?
            && audited.tpm == s.(audit := audited.tpm.audit)
            && LogSound(w, audited.tpm.Note(Answered(q.code, AuditHandle(q), AsksReset(q),
                 CommandAuditApplies(s, q.code), names, parameters, response)), start)
  {
    var e := Answered(q.code, AuditHandle(q), AsksReset(q), CommandAuditApplies(s, q.code), names, parameters, response);
    hide Extended, AsksReset, CommandAuditApplies, AuditHandle, Chain;
    var trail := LogTrail(s.history);
    ExtendedIsChain(w, s.audit.alg, trail, EntryOf(e));
    RegisterLength(w, s.audit.alg, trail);
    WrapStep(CounterBase(s.history, start.counter) + LogsBegun(s.history));
    hide Register, Lawful, Wrapped64;
    assert LogTrail(Then(s.history, e)) == if e.logged then trail + [EntryOf(e)] else trail;
    assert LogsBegun(Then(s.history, e)) == LogsBegun(s.history) + if e.logged && trail == [] then 1 else 0;
    assert CounterBase(Then(s.history, e), start.counter) == CounterBase(s.history, start.counter);
  }

  lemma WrapStep(n: nat)
    ensures Wrapped64(Wrapped64(n) + 1) == Wrapped64(n + 1)
  {
  }

  /** The register has the size of a digest exactly when a log is running. */
  lemma RegisterLength(w: World, alg: uint16, trail: seq<Entry>)
    requires Lawful(w) && w.digestSize(alg).Some?
    ensures |Register(w, alg, trail)| == w.digestSize(alg).value <==> trail != []
  {
    assert w.digestSize(alg).Some? ==> |w.digest(alg, [])| == w.digestSize(alg).value && w.digestSize(alg).value > 0;
  }

  lemma ExclusivePasses(s: Tpm, t: Tpm, q: Request, e: Event)
    requires ExclusiveSound(s)
    requires e.Answered? && e.audit == AuditHandle(q) && e.code == q.code
    requires t.exclusive == ExclusiveAfter(q, s.exclusive) && t.history == Then(s.history, e)
    requires t.saved == s.saved && t.sessions.Keys == s.sessions.Keys
    requires forall h :: h in s.sessions && s.sessions[h].isAudit ==> t.sessions[h].isAudit
    requires AuditHandle(q).Some? ==>
      AuditHandle(q).value in t.sessions && t.sessions[AuditHandle(q).value].isAudit
    ensures ExclusiveSound(t)
  {
  }

  lemma AuditKeepsSound(w: World, s: Tpm, q: Request, names: seq<Bytes>, parameters: Bytes, response: Bytes, start: Origin)
    requires Lawful(w) && Sound(w, s, start)
    requires AuditHandle(q).Some? ==> AuditHandle(q).value in s.sessions
    ensures var t := AfterAudit(w, s, q, names, parameters, response);
            && t.result.Ok? && Sound(w, t.tpm, start)
            && t.tpm.sessions.Keys == s.sessions.Keys && t.tpm.saved == s.saved
  {
    var e := Answered(q.code, AuditHandle(q), AsksReset(q), CommandAuditApplies(s, q.code), names, parameters, response);
    hide AfterSessionAudit, AfterCommandAudit, AuditHandle, AsksReset, ExclusiveAfter,
         SessionsSound, LogSound, ExclusiveSound;
    SessionAuditExtends(w, s, q, names, parameters, response, e);
    var s1 := AfterSessionAudit(w, s, q, names, parameters, response).tpm;
    var s2 := s1.(exclusive := ExclusiveAfter(q, s1.exclusive));
    SameLog(w, s, s2, start);
    CommandAuditExtends(w, s2, q, names, parameters, response, start);
    var t := AfterAudit(w, s, q, names, parameters, response).tpm;
    assert t == AfterCommandAudit(w, s2, q, names, parameters, response).tpm.Note(e);
    hide CommandAuditApplies;
    if start.exclusive {
      ExclusivePasses(s, t, q, e);
    }
    SessionsSoundSame(w, s1.Note(e), t);
  }

  lemma SessionsSoundSame(w: World, s: Tpm, t: Tpm)
    requires Lawful(w) && SessionsSound(w, s)
    requires t.sessions == s.sessions && t.saved == s.saved && t.history == s.history
    ensures SessionsSound(w, t)
  {
  }

  // ---- Running a command ----

  lemma OtherKeepsSound(w: World, s: Tpm, e: Effect, start: Origin)
    requires Lawful(w) && Sound(w, s, start)
    ensures Sound(w, AfterOther(s, e), start) && AfterOther(s, e).sessions.Keys == s.sessions.Keys
  {
    hide Sound, Records;
    assert SameRegisters(s.sessions, WithPolicies(s.sessions, e.policies));
    SameAuditKeepsSound(w, s, AfterOther(s, e), start);
  }

  lemma SetStatusRunKeepsSound(w: World, s: Tpm, q: Request, start: Origin)
    requires Lawful(w) && Sound(w, s, start)
    ensures Sound(w, SetStatus(w, s, q).tpm, start) && SetStatus(w, s, q).tpm.sessions == s.sessions
  {
    hide Sound, AfterSetStatus, Marshal.GetList, Marshal.ReadU16;
    match Marshal.ReadU16(q.parameters) {
      case Refused(_) =>
      case Got(alg, b1) =>
        match Marshal.GetList(b1, MAX_CAP_CC, Marshal.ReadU32) {
          case Refused(_) =>
          case Got(setList, b2) =>
            match Marshal.GetList(b2, MAX_CAP_CC, Marshal.ReadU32) {
              case Refused(_) =>
              case Got(clearList, rest) =>
                SetStatusKeepsSound(w, s, alg, setList, clearList, start);
                SetStatusSessions(w, s, alg, setList, clearList);
            }
        }
    }
  }

  lemma SetStatusSessions(w: World, s: Tpm, alg: uint16, setList: seq<uint32>, clearList: seq<uint32>)
    ensures AfterSetStatus(w, s, alg, setList, clearList).tpm.sessions == s.sessions
  {
  }

  lemma ReportKeepsSound(w: World, s: Tpm, q: Request, e: Effect, start: Origin)
    requires Lawful(w) && Sound(w, s, start)
    ensures Sound(w, Report(s, q, e).tpm, start) && Report(s, q, e).tpm.sessions.Keys == s.sessions.Keys
  {
    OtherKeepsSound(w, s, e, start);
    var after := AfterOther(s, e);
    assert w.digestSize(after.audit.alg).Some?;
    hide Sound, AfterOther;
    LogEndKeepsSound(w, after, after.audit.alg, after.suppressed, start);
  }

  lemma ClearKeepsSound(w: World, s: Tpm, e: Effect, start: Origin)
    requires Lawful(w) && Sound(w, s, start)
    ensures Sound(w, Clear(s, e).tpm, start) && Clear(s, e).tpm.sessions.Keys == s.sessions.Keys
  {
    hide Sound, AfterOther;
    OtherKeepsSound(w, s, e, start);
    CounterClearKeepsSound(w, AfterOther(s, e), MANUFACTURED_LOCKOUT, start);
  }

  lemma SessionCommandsKeepSound(w: World, s: Tpm, q: Request, e: Effect, start: Origin)
    requires Lawful(w) && Sound(w, s, start)
    ensures Sound(w, FlushContext(s, q, e).tpm, start)
    ensures Sound(w, ContextSave(w, s, q, e).tpm, start)
    ensures Sound(w, ContextLoad(s, e).tpm, start)
  {
    hide Sound, AfterOther, AfterSave, AfterRestore, AfterClose, IsFlushableSession, IsSessionHandle, FlushTarget;
    OtherKeepsSound(w, s, e, start);
    match Marshal.ReadU32(q.parameters) {
      case Refused(_) =>
      case Got(h, _) =>
        if FlushTarget(s, h).Some? {
          CloseKeepsSound(w, s, FlushTarget(s, h).value, start);
        }
    }
    if q.handles != [] {
      SaveKeepsSound(w, s, q.handles[0], start);
    }
    if e.result.Ok? && e.result.value.handle.Some? {
      RestoreKeepsSound(w, AfterOther(s, e), e.result.value.handle.value, start);
    }
  }

  lemma StartKeepsSound(w: World, s: Tpm, e: Effect, start: Origin)
    requires Lawful(w) && Sound(w, s, start)
    ensures Sound(w, StartAuthSession(w, s, e).tpm, start)
    ensures s.sessions.Keys <= StartAuthSession(w, s, e).tpm.sessions.Keys
  {
    hide Sound, AfterOther, AfterOpen;
    OtherKeepsSound(w, s, e, start);
    if e.newSession.Some? {
      OpenKeepsSound(w, AfterOther(s, e), e.newSession.value, start);
      OpenAddsOnly(w, AfterOther(s, e), e.newSession.value);
    }
  }

  lemma OpenAddsOnly(w: World, s: Tpm, session: Session)
    ensures s.sessions.Keys <= AfterOpen(w, s, session).tpm.sessions.Keys
  {
    hide NewHandle, EmptyPolicy;
  }

  /** What an action keeps: the audit sound, and the loaded sessions unless it may carry none itself. */
  ghost predicate ActionSound(w: World, s: Tpm, code: uint32, t: Tpm, start: Origin)
    requires Lawful(w)
  {
    Sound(w, t, start) && (!RequiresNoSessions(code) ==> s.sessions.Keys <= t.sessions.Keys)
  }

  lemma DispatchedKeepsSound(w: World, s: Tpm, q: Request, start: Origin)
    requires Lawful(w) && Sound(w, s, start) && (q.code == CC_STARTUP ==> !start.exclusive)
    ensures ActionSound(w, s, q.code, Dispatched(w, s, q).tpm, start)
  {
    hide Sound, Clear, LockoutCleared, DictionaryAttackParameters, AfterStartup, SetStatus, Report, FlushContext,
         ContextSave, ContextLoad, StartAuthSession, AfterOther;
    var e := w.action(s.Visible(), q);
    OtherKeepsSound(w, s, e, start);
    SetStatusRunKeepsSound(w, s, q, start);
    ReportKeepsSound(w, s, q, e, start);
    ClearKeepsSound(w, s, e, start);
    SessionCommandsKeepSound(w, s, q, e, start);
    StartKeepsSound(w, s, e, start);
    LockoutActionsKeepSound(w, s, q, start);
    if q.code == CC_STARTUP {
      StartupKeepsSound(w, s, e, q, start);
    }
  }

  /** What is loaded may go without a word: the rest stays sound, if the exclusive status is not followed. */
  lemma LoadedGone(w: World, s: Tpm, t: Tpm, start: Origin)
    requires Lawful(w) && Sound(w, s, start) && !start.exclusive
    requires t.sessions == map[] && t.saved == s.saved && t.audit == s.audit && t.history == s.history
    ensures Sound(w, t, start)
  {
    hide SessionSound, LogTrail, LogsBegun, CounterBase, Register;
  }

  /** A TPM Restart or Resume carries the saved sessions and the log over; a TPM Reset ends both. */
  lemma StartupKeepsSound(w: World, s: Tpm, e: Effect, q: Request, start: Origin)
    requires Lawful(w) && Sound(w, s, start) && !start.exclusive
    ensures Sound(w, AfterStartup(s, e, q), start)
  {
    hide Sound, LockoutStarted, PendingCounted, IsResume, Records;
    var gone := s.(sessions := map[]);
    LoadedGone(w, s, gone, start);
    var none := gone.(saved := map[], exclusive := RH_UNASSIGNED);
    NoneIsSound(w, gone, none, start);
    LogEndKeepsSound(w, none, s.audit.alg, s.suppressed, start);
    var t := AfterStartup(s, e, q);
    if IsResume(q) || s.mode.shutdownType == SU_STATE {
      SameAuditKeepsSound(w, gone, t, start);
    } else {
      SameAuditKeepsSound(w, none.(audit := s.audit.(digest := [])).Note(LogEnded), t, start);
    }
  }

  lemma NoneIsSound(w: World, s: Tpm, t: Tpm, start: Origin)
    requires Lawful(w) && Sound(w, s, start) && !start.exclusive
    requires t.sessions == map[] && t.saved == map[] && t.audit == s.audit && t.history == s.history
    ensures Sound(w, t, start) && w.digestSize(t.audit.alg).Some?
  {
    hide SessionSound, LogTrail, LogsBegun, CounterBase, Register;
  }

  /** Within a power cycle an action keeps the audit sound, and only a command
    that carries no session can take one away. */
  lemma ActionKeepsSound(w: World, s: Tpm, q: Request, start: Origin)
    requires Lawful(w) && Sound(w, s, start) && (q.code == CC_STARTUP ==> !start.exclusive)
    ensures ActionSound(w, s, q.code, RunCommand(w, s, q).tpm, start)
  {
    hide Sound, Dispatched;
    DispatchedKeepsSound(w, s, q, start);
    var t := Dispatched(w, s, q).tpm;
    ModeKeepsSound(w, t, t.mode.(failureMode := true), start);
  }

  lemma ModeKeepsSound(w: World, s: Tpm, mode: Mode, start: Origin)
    requires Lawful(w) && Sound(w, s, start)
    ensures Sound(w, s.(mode := mode), start)
  {
    hide Sound, Records;
    SameAuditKeepsSound(w, s, s.(mode := mode), start);
  }

  lemma LockoutActionsKeepSound(w: World, s: Tpm, q: Request, start: Origin)
    requires Lawful(w) && Sound(w, s, start)
    ensures var t := DictionaryAttackParameters(s, q).tpm; Sound(w, t, start) && t.sessions == s.sessions
    ensures Sound(w, s.(lockout := LockoutCleared(s.lockout)), start)
  {
    hide Sound, Records, ReadParameters;
    SameAuditKeepsSound(w, s, DictionaryAttackParameters(s, q).tpm, start);
    SameAuditKeepsSound(w, s, s.(lockout := LockoutCleared(s.lockout)), start);
  }

  // ---- The rest of the pipeline ----

  lemma {:induction false} RolledKeepsSound(w: World, s: Tpm, q: Request, i: nat, start: Origin)
    requires Lawful(w) && Sound(w, s, start) && i <= |q.sessions|
    ensures var t := RolledFrom(w, s, q, i).tpm; Sound(w, t, start) && t.sessions.Keys == s.sessions.Keys
    decreases |q.sessions| - i
  {
    hide Sound, Records;
    if i < |q.sessions| {
      var t := RolledAt(w, s, q, i).tpm;
      assert SameRegisters(s.sessions, t.sessions);
      SameAuditKeepsSound(w, s, t, start);
      RolledKeepsSound(w, t, q, i + 1, start);
    }
  }

  lemma ClosingKeepsSound(w: World, s: Tpm, q: Request, i: nat, start: Origin)
    requires Lawful(w) && Sound(w, s, start) && i < |q.sessions|
    ensures Sound(w, AfterSession(w, s, q, i), start)
  {
    hide Sound, Records, AfterClose, EmptyPolicy;
    CloseKeepsSound(w, s, q.sessions[i].handle, start);
    var t := AfterSession(w, s, q, i);
    if t != s && t != AfterClose(s, q.sessions[i].handle) {
      assert SameRegisters(s.sessions, t.sessions);
      SameAuditKeepsSound(w, s, t, start);
    }
  }

  lemma {:induction false} ClosedKeepsSound(w: World, s: Tpm, q: Request, i: nat, start: Origin)
    requires Lawful(w) && Sound(w, s, start) && i <= |q.sessions|
    ensures Sound(w, AfterSessions(w, s, q, i), start)
    decreases |q.sessions| - i
  {
    hide Sound, AfterSession;
    if i < |q.sessions| {
      ClosingKeepsSound(w, s, q, i, start);
      ClosedKeepsSound(w, AfterSession(w, s, q, i), q, i + 1, start);
    }
  }

  lemma FlushedKeepsSound(w: World, s: Tpm, q: Request, start: Origin)
    requires Lawful(w) && Sound(w, s, start)
    ensures Sound(w, Flushed(w, s, q), start)
  {
    hide Sound, Records;
    SameAuditKeepsSound(w, s, Flushed(w, s, q), start);
  }

  /** The audit session of the request is one whose context is loaded. */
  predicate AuditLoaded(s: Tpm, q: Request) {
    AuditHandle(q).Some? ==> AuditHandle(q).value in s.sessions
  }

  lemma AuditNeedsSession(q: Request)
    ensures AuditHandle(q).Some? ==> q.sessions != []
  {
  }

  /** From the roll of the nonces on, once the action has succeeded. */
  lemma AnsweredKeepsSound(w: World, s: Tpm, q: Request, a: Admission, response: Response, start: Origin)
    requires Lawful(w) && Sound(w, s, start)
    requires AuditHandle(q).Some? ==> AuditHandle(q).value in s.sessions
    ensures Sound(w, RolledFrom(w, s, q, 0).tpm, start)
    ensures var s2 := RolledFrom(w, s, q, 0).tpm;
            var parameters := Encrypted(w, s2, q, response.parameters, a.auths);
            parameters.Ok? ==> Sound(w, AfterAudit(w, s2, q, a.names, q.parameters, parameters.value).tpm, start)
  {
    hide Sound, Lawful, RolledFrom, Encrypted, AfterAudit, AuditHandle;
    RolledKeepsSound(w, s, q, 0, start);
    var s2 := RolledFrom(w, s, q, 0).tpm;
    var parameters := Encrypted(w, s2, q, response.parameters, a.auths);
    if parameters.Ok? {
      AuditKeepsSound(w, s2, q, a.names, q.parameters, parameters.value, start);
    }
  }

  lemma SuppressedKeepsSound(w: World, s: Tpm, start: Origin)
    requires Lawful(w) && Sound(w, s, start)
    ensures Sound(w, s.(suppressed := false), start)
  {
    hide Sound, Records;
    SameAuditKeepsSound(w, s, s.(suppressed := false), start);
  }

  lemma AccountedKeepsSound(w: World, s: Tpm, q: Request, a: Admission, start: Origin)
    requires Lawful(w) && Sound(w, s, start) && (q.code == CC_STARTUP ==> !start.exclusive)
    requires AuditLoaded(s, q) && (q.sessions != [] ==> !RequiresNoSessions(q.code))
    ensures Sound(w, Accounted(w, s, q, a).tpm, start)
  {
    hide Sound, Lawful, RunCommand, RolledFrom, Encrypted, AfterAudit, AuditHandle, RequiresNoSessions;
    var s1 := s.(suppressed := false);
    var q1 := q.(parameters := a.parameters);
    AuditNeedsSession(q);
    SuppressedKeepsSound(w, s, start);
    ActionKeepsSound(w, s1, q1, start);
    var ran := RunCommand(w, s1, q1);
    if ran.result.Ok? {
      AnsweredKeepsSound(w, ran.tpm, q, a, ran.result.value, start);
    }
  }

  lemma CompletedKeepsSound(w: World, s: Tpm, q: Request, a: Admission, start: Origin)
    requires Lawful(w) && Sound(w, s, start) && (q.code == CC_STARTUP ==> !start.exclusive)
    requires AuditLoaded(s, q) && (q.sessions != [] ==> !RequiresNoSessions(q.code))
    ensures Sound(w, Completed(w, s, q, a).tpm, start)
  {
    hide Sound, Accounted, AfterSessions, ResponseAttributes, Flushed, AuditLoaded;
    AccountedKeepsSound(w, s, q, a, start);
    var s1 := Accounted(w, s, q, a).tpm;
    ClosedKeepsSound(w, s1, q, 0, start);
    FlushedKeepsSound(w, AfterSessions(w, s1, q, 0), q, start);
  }

  lemma AdmittedKeepsSound(w: World, s: Tpm, q: Request, start: Origin)
    requires Lawful(w) && Sound(w, s, start)
    ensures Sound(w, Admitted(w, s, q).tpm, start)
    ensures Admitted(w, s, q).tpm.mode.started == s.mode.started
    ensures Admitted(w, s, q).result.Ok? ==> AuditLoaded(Admitted(w, s, q).tpm, q) && (s.mode.started ==> q.code != CC_STARTUP)
  {
    GatedFrame(w, s, q);
    AdmittedFrame(w, s, q);
    var t := Admitted(w, s, q).tpm;
    assert SameAudit(s, t);
    hide Sound, Records;
    SameAuditKeepsSound(w, s, t, start);
    hide Resolved, AuthorizedFrom, SameIndices, NeedsPresence, HandlesAllowed, ReadOnlyAnswer, Decrypted, ExtraSessions, FirstWith;
  }
}
