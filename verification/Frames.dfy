/** What each stage of the pipeline leaves alone, and what a refused command may change. */
module Frames {
  import opened Prelude
  import opened Commands
  import opened Marshal
  import opened CommandParse
  import opened State
  import opened Authorization
  import opened Audit
  import opened Actions
  import opened Pipeline

  // ---- The two halves of a history ----

  /** The comparisons, and the tries that time took off. */
  function Judgements(h: History): History {
    match h
    case Beginning => Beginning
    case Then(past, e) => if e.Compared? || e.Recovered? then Then(Judgements(past), e) else Judgements(past)
  }

  /** Everything else. */
  function Records(h: History): History {
    match h
    case Beginning => Beginning
    case Then(past, e) => if e.Compared? || e.Recovered? then Records(past) else Then(Records(past), e)
  }

  // ---- Authorizing ----

  /** Two Indices differ in their PIN counters alone. */
  predicate SamePinIndex(a: NvIndex, b: NvIndex) {
    a == b || (a.pin.Some? && a.written && b == a.(counters := b.counters))
  }

  ghost predicate SameIndices(a: map<uint32, NvIndex>, b: map<uint32, NvIndex>) {
    a.Keys == b.Keys && forall h :: h in a ==> SamePinIndex(a[h], b[h])
  }

  /** `t` differs from `s` in what judging authorizations may touch. */
  ghost predicate OnlyJudged(s: Tpm, t: Tpm) {
    && t == s.(lockout := t.lockout, store := s.store.(nv := t.store.nv), history := t.history)
    && Records(t.history) == Records(s.history)
    && SameIndices(s.store.nv, t.store.nv)
  }

  /** A failed try is counted at most once, and only by an answer of TPM_RC_AUTH_FAIL. */
  ghost predicate CountsOnce<T>(s: Tpm, t: Tpm, r: Result<T>) {
    && t.lockout.failedTries in {s.lockout.failedTries as int, s.lockout.failedTries + 1}
    && t.lockout.maxTries == s.lockout.maxTries
    && t.lockout.recoveryTime == s.lockout.recoveryTime
    && (t.lockout.failedTries != s.lockout.failedTries ==> r.Err? && r.error.code == RC_AUTH_FAIL)
    && (r.Ok? ==> t.lockout == s.lockout)
  }

  lemma AfterPinFrame(s: Tpm, entity: Entity, accepted: bool)
    requires PinAnswer(s, entity).Ok?
    ensures var t := AfterPin(s, entity, accepted);
            && t.result.Ok?
            && t.tpm == s.(store := s.store.(nv := t.tpm.store.nv))
            && SameIndices(s.store.nv, t.tpm.store.nv)
  {
  }

  lemma AfterCompareFrame(s: Tpm, accepted: bool, usesLockout: bool, isLockoutAuth: bool, position: nat)
    ensures var t := AfterCompare(s, accepted, usesLockout, isLockoutAuth);
            && t.tpm == s.(lockout := t.tpm.lockout)
            && CountsOnce(s, t.tpm, t.result)
            && CountsOnce(s, t.tpm, AtSession(t.result, position))
  {
  }

  /** A comparison noted, the PIN counters moved and the failure counted, in either order. */
  lemma JudgedFrame(s: Tpm, e: Event, t: Tpm)
    requires e.Compared? && t == s.(lockout := t.lockout, store := s.store.(nv := t.store.nv), history := Then(s.history, e))
    requires SameIndices(s.store.nv, t.store.nv)
    ensures OnlyJudged(s, t)
  {
  }

  lemma UntouchedFrame<T>(s: Tpm, r: Result<T>)
    ensures OnlyJudged(s, s) && CountsOnce(s, s, r)
  {
  }

  lemma ByPasswordFrame(s: Tpm, q: Request, index: nat, entity: Entity, isProtected: bool, use: Use)
    requires index < |q.sessions|
    ensures var t := ByPassword(s, q, index, entity, isProtected, use);
            OnlyJudged(s, t.tpm) && CountsOnce(s, t.tpm, t.result)
  {
    hide TrimAuth, AfterPin, PinAnswer, AfterCompare, SameIndices, OnlyJudged;
    var t := ByPassword(s, q, index, entity, isProtected, use);
    var accepted := TrimAuth(q.sessions[index].hmac) == TrimAuth(entity.auth);
    var e := Compared(HandleAt(q, index), use, isProtected, entity.pin, accepted);
    var compared := AfterCompare(s.Note(e), accepted, isProtected, q.HandleIs(index, RH_LOCKOUT));
    AfterCompareFrame(s.Note(e), accepted, isProtected, q.HandleIs(index, RH_LOCKOUT), index + 1);
    UntouchedFrame(s, t.result);
    if PinAnswer(s, entity).Ok? {
      PinAnswerReadsStore(s, compared.tpm, entity);
      AfterPinFrame(compared.tpm, entity, accepted);
      JudgedFrame(s, e, t.tpm);
    }
  }

  lemma ByHmacFrame(w: World, s: Tpm, q: Request, index: nat, entity: Entity, key: Bytes, cp: Bytes, session: Session,
                    use: Use, isProtected: bool, guarded: bool)
    requires index < |q.sessions|
    ensures var t := ByHmac(w, s, q, index, entity, key, cp, session, use, isProtected, guarded);
            OnlyJudged(s, t.tpm) && CountsOnce(s, t.tpm, t.result)
  {
    hide ExpectedHmac, HmacAccepted, AfterPin, PinAnswer, AfterCompare, SameIndices, OnlyJudged;
    var expected := ExpectedHmac(w, s, q, index, session, key, cp);
    var t := ByHmac(w, s, q, index, entity, key, cp, session, use, isProtected, guarded);
    UntouchedFrame(s, t.result);
    if expected.Ok? && PinAnswer(s, entity).Ok? {
      var accepted := HmacAccepted(key, expected.value, q.sessions[index].hmac);
      var e := Compared(HandleAt(q, index), use, guarded, entity.pin, accepted);
      PinAnswerReadsStore(s, s.Note(e), entity);
      AfterPinFrame(s.Note(e), entity, accepted);
      var moved := AfterPin(s.Note(e), entity, accepted);
      AfterCompareFrame(moved.tpm, accepted, isProtected, use == Hmac && q.HandleIs(index, RH_LOCKOUT), index + 1);
      JudgedFrame(s, e, t.tpm);
    }
  }

  lemma ByPolicyFrame(w: World, s: Tpm, q: Request, index: nat, entity: Entity, cp: Bytes, session: Session, isProtected: bool)
    requires index < |q.sessions|
    ensures var t := ByPolicy(w, s, q, index, entity, cp, session, isProtected);
            OnlyJudged(s, t.tpm) && CountsOnce(s, t.tpm, t.result)
  {
    hide PolicyStands, PolicyBinds, ByPassword, ByHmac, HmacKey, OnlyJudged, CountsOnce;
    ByPasswordFrame(s, q, index, entity, isProtected, PolicyPassword);
    ByHmacFrame(w, s, q, index, PolicyEntity(entity, session), HmacKey(session, entity.name, entity.auth), cp, session,
                PolicyHmac, isProtected, isProtected && (session.policy.authValueNeeded || session.bindUsesLockout));
    UntouchedFrame(s, ByPolicy(w, s, q, index, entity, cp, session, isProtected).result);
  }

  lemma AuthorizedFrame(w: World, s: Tpm, q: Request, index: nat, entity: Entity, cp: Bytes)
    requires index < |q.sessions|
    ensures var t := Authorized(w, s, q, index, entity, cp);
            OnlyJudged(s, t.tpm) && CountsOnce(s, t.tpm, t.result)
  {
    hide Protected, LockoutAnswer, NvAnswer, RoleAnswer, ByPassword, ByHmac, ByPolicy, HmacKey, OnlyJudged, CountsOnce;
    var h := q.sessions[index].handle;
    var isProtected := Protected(s, q, index, entity);
    UntouchedFrame(s, Authorized(w, s, q, index, entity, cp).result);
    ByPasswordFrame(s, q, index, entity, isProtected, Password);
    if h in s.sessions {
      ByHmacFrame(w, s, q, index, entity, HmacKey(s.sessions[h], entity.name, entity.auth), cp, s.sessions[h],
                  Hmac, isProtected, isProtected);
      ByPolicyFrame(w, s, q, index, entity, cp, s.sessions[h], isProtected);
    }
  }

  lemma OnlyJudgedChains(s: Tpm, t: Tpm, u: Tpm)
    requires OnlyJudged(s, t) && OnlyJudged(t, u)
    ensures OnlyJudged(s, u)
  {
    var a, b, c := s.store.nv, t.store.nv, u.store.nv;
    forall h | h in a ensures SamePinIndex(a[h], c[h]) {
      assert SamePinIndex(a[h], b[h]) && SamePinIndex(b[h], c[h]);
    }
  }

  lemma AuthorizedAtFrame(w: World, s: Tpm, q: Request, names: seq<Bytes>, i: nat)
    ensures var t := AuthorizedAt(w, s, q, names, i);
            OnlyJudged(s, t.tpm) && CountsOnce(s, t.tpm, t.result)
  {
    hide EntityAt, SessionHash, CpHash, Authorized, OnlyJudged;
    UntouchedFrame(s, AuthorizedAt(w, s, q, names, i).result);
    if i < |q.sessions| && i < |q.handles| && EntityAt(w, s, q.handles[i]).Ok? && SessionHash(s, q, i).Ok? {
      var cp := CpHash(w, SessionHash(s, q, i).value, q.code, names, q.parameters);
      if cp.Ok? {
        AuthorizedFrame(w, s, q, i, EntityAt(w, s, q.handles[i]).value, cp.value);
      }
    }
  }

  lemma {:induction false} AuthorizedFromFrame(w: World, s: Tpm, q: Request, names: seq<Bytes>, i: nat)
    requires i <= q.info.authHandles
    ensures var t := AuthorizedFrom(w, s, q, names, i);
            OnlyJudged(s, t.tpm) && CountsOnce(s, t.tpm, t.result)
    decreases q.info.authHandles - i
  {
    if i == q.info.authHandles {
      UntouchedFrame(s, AuthorizedFrom(w, s, q, names, i).result);
    } else {
      hide AuthorizedAt, OnlyJudged;
      AuthorizedAtFrame(w, s, q, names, i);
      var at := AuthorizedAt(w, s, q, names, i);
      if at.result.Ok? {
        AuthorizedFromFrame(w, at.tpm, q, names, i + 1);
        OnlyJudgedChains(s, at.tpm, AuthorizedFrom(w, at.tpm, q, names, i + 1).tpm);
      }
    }
  }

  lemma {:induction false} ExtraSessionsFrame(w: World, s: Tpm, q: Request, names: seq<Bytes>, i: nat)
    ensures var t := ExtraSessions(w, s, q, names, i).tpm;
            t == s.(history := t.history) && Records(t.history) == Records(s.history)
    decreases |q.sessions| - i
  {
    if i < |q.sessions| {
      hide KeyHmac;
      ExtraSessionsFrame(w, ExtraSession(w, s, q, names, i).tpm, q, names, i + 1);
    }
  }

  lemma FinalChecksFrame(w: World, s: Tpm, q: Request, names: seq<Bytes>, auths: seq<Bytes>)
    ensures var t := FinalChecks(w, s, q, names, auths);
            && OnlyJudged(s, t.tpm) && CountsOnce(s, t.tpm, t.result) && t.tpm == s.(history := t.tpm.history)
  {
    hide ExtraSessions, AuditSessionAnswer, Decrypted;
    ExtraSessionsFrame(w, s, q, names, q.info.authHandles);
  }

  lemma GatedFrame(w: World, s: Tpm, q: Request)
    ensures Gated(w, s, q).tpm == s || Gated(w, s, q).tpm == Nullified(s, q)
    ensures q.code == CC_STARTUP && Gated(w, s, q).result.Ok? ==> Gated(w, s, q).tpm == s
  {
  }

  lemma AdmittedFrame(w: World, s: Tpm, q: Request)
    ensures var t := Admitted(w, s, q);
            && OnlyJudged(Gated(w, s, q).tpm, t.tpm)
            && CountsOnce(s, t.tpm, t.result)
  {
    hide Gated, Resolved, AuthorizedFrom, FinalChecks, OnlyJudged;
    GatedFrame(w, s, q);
    var gated := Gated(w, s, q).tpm;
    UntouchedFrame(gated, Admitted(w, s, q).result);
    if Resolved(w, gated, q).Ok? {
      var names := Resolved(w, gated, q).value;
      AuthorizedFromFrame(w, gated, q, names, 0);
      var authorized := AuthorizedFrom(w, gated, q, names, 0);
      if authorized.result.Ok? {
        FinalChecksFrame(w, authorized.tpm, q, names, authorized.result.value);
        OnlyJudgedChains(gated, authorized.tpm, FinalChecks(w, authorized.tpm, q, names, authorized.result.value).tpm);
      }
    }
  }

  lemma AdmittedWasGated(w: World, s: Tpm, q: Request)
    requires Admitted(w, s, q).result.Ok?
    ensures Gated(w, s, q).result.Ok?
    ensures q.code == CC_STARTUP ==> Admitted(w, s, q).tpm.mode == s.mode
  {
    hide Gated, Resolved, AuthorizedFrom, FinalChecks;
    GatedFrame(w, s, q);
    AdmittedFrame(w, s, q);
  }

  /** A command refused before its action runs leaves everything as it was but the
    shutdown type and the orderly bit, the lockout record and PIN counters. */
  lemma RefusedChangesLittle(w: World, s: Tpm, q: Request)
    requires Admitted(w, s, q).result.Err?
    ensures var t := Handled(w, s, q).tpm;
            && t == s.(mode := s.mode.(shutdownType := t.mode.shutdownType, orderly := t.mode.orderly),
                       lockout := t.lockout, store := s.store.(nv := t.store.nv), history := t.history)
            && (t.mode == s.mode || (t.mode.shutdownType == SU_NONE && !t.mode.orderly && q.code != CC_SHUTDOWN))
            && SameIndices(s.store.nv, t.store.nv)
            && Records(t.history) == Records(s.history)
  {
    AdmittedFrame(w, s, q);
    GatedFrame(w, s, q);
  }

  // ---- Completing ----

  /** `t` has the lockout record of `s`, and nothing was compared between them. */
  ghost predicate NothingJudged(s: Tpm, t: Tpm) {
    t.lockout == s.lockout && Judgements(t.history) == Judgements(s.history)
  }

  /** The commands whose action may settle the lockout record. */
  predicate SetsLockout(code: uint32) {
    || code == CC_DICTIONARY_ATTACK_LOCK_RESET
    || code == CC_DICTIONARY_ATTACK_PARAMETERS
    || code == CC_CLEAR
    || code == CC_STARTUP
  }

  /** A TPM2_Startup that is no Resume and follows no orderly shutdown counts the
    failure that may have been lost, if the protection is on and not yet exhausted. */
  predicate CountsPending(w: World, s: Tpm, q: Request) {
    var e := w.action(s.Visible(), q);
    && q.code == CC_STARTUP && e.result.Ok? && e.everStarted
    && !IsResume(q) && s.mode.shutdownType == SU_NONE
    && !s.lockout.ProtectionOff() && s.lockout.failedTries < s.lockout.maxTries
  }

  /** What an action may do to the lockout record, and that it compares nothing. */
  ghost predicate ActionJudges(s: Tpm, q: Request, t: Tpm, counts: bool) {
    && Judgements(t.history) == Judgements(s.history)
    && (!SetsLockout(q.code) ==> t.lockout == s.lockout)
    && (t.lockout.failedTries > s.lockout.failedTries <==> counts)
    && t.lockout.failedTries <= s.lockout.failedTries + 1
  }

  lemma OtherJudges(s: Tpm, q: Request, e: Effect)
    ensures NothingJudged(s, AfterOther(s, e)) && ActionJudges(s, q, s, false)
  {
  }

  lemma LockoutActionsJudge(s: Tpm, q: Request, e: Effect)
    ensures q.code == CC_DICTIONARY_ATTACK_PARAMETERS ==> ActionJudges(s, q, DictionaryAttackParameters(s, q).tpm, false)
    ensures q.code == CC_CLEAR ==> ActionJudges(s, q, Clear(s, e).tpm, false)
    ensures q.code == CC_DICTIONARY_ATTACK_LOCK_RESET ==> ActionJudges(s, q, s.(lockout := LockoutCleared(s.lockout)), false)
    ensures q.code == CC_STARTUP ==>
      ActionJudges(s, q, AfterStartup(s, e, q),
        e.everStarted && !IsResume(q) && s.mode.shutdownType == SU_NONE
        && !s.lockout.ProtectionOff() && s.lockout.failedTries < s.lockout.maxTries)
  {
    hide ReadParameters, WithPolicies, IsResume;
  }

  lemma AuditActionsJudge(w: World, s: Tpm, q: Request, e: Effect)
    ensures NothingJudged(s, SetStatus(w, s, q).tpm)
    ensures NothingJudged(s, Report(s, q, e).tpm)
  {
    hide GetList, Ordered, Removed, Added, WithPolicies, ReadU32, ReadU16;
  }

  lemma FlushJudges(w: World, s: Tpm, q: Request, e: Effect)
    ensures NothingJudged(s, FlushContext(s, q, e).tpm)
  {
    hide WithPolicies, FlushTarget, IsFlushableSession, ReadU32;
  }

  lemma SaveJudges(w: World, s: Tpm, q: Request, e: Effect)
    ensures NothingJudged(s, ContextSave(w, s, q, e).tpm)
    ensures NothingJudged(s, ContextLoad(s, e).tpm)
  {
    hide WithPolicies, IsSessionHandle;
  }

  lemma StartJudges(w: World, s: Tpm, e: Effect)
    ensures NothingJudged(s, StartAuthSession(w, s, e).tpm)
  {
    hide WithPolicies, NewHandle, EmptyPolicy;
  }

  lemma RunCommandJudges(w: World, s: Tpm, q: Request)
    ensures ActionJudges(s, q, RunCommand(w, s, q).tpm, CountsPending(w, s, q))
  {
    var e := w.action(s.Visible(), q);
    hide DictionaryAttackParameters, Clear, LockoutCleared, AfterStartup, SetStatus, Report, FlushContext, ContextSave,
         ContextLoad, StartAuthSession, AfterOther, IsResume;
    OtherJudges(s, q, e);
    LockoutActionsJudge(s, q, e);
    AuditActionsJudge(w, s, q, e);
    FlushJudges(w, s, q, e);
    SaveJudges(w, s, q, e);
    StartJudges(w, s, e);
  }

  lemma {:induction false} RolledFrame(w: World, s: Tpm, q: Request, i: nat)
    requires i <= |q.sessions|
    ensures var t := RolledFrom(w, s, q, i).tpm;
            t == s.(store := s.store.(rest := t.store.rest), sessions := t.sessions)
    decreases |q.sessions| - i
  {
    if i < |q.sessions| && RolledAt(w, s, q, i).result.Ok? {
      RolledFrame(w, RolledAt(w, s, q, i).tpm, q, i + 1);
    }
  }

  lemma AfterAuditFrame(w: World, s: Tpm, q: Request, names: seq<Bytes>, parameters: Bytes, response: Bytes)
    ensures var t := AfterAudit(w, s, q, names, parameters, response).tpm;
            && t == s.(sessions := t.sessions, audit := t.audit, exclusive := t.exclusive, history := t.history)
            && Judgements(t.history) == Judgements(s.history)
  {
    hide Extended, FirstWith, CommandAuditApplies;
  }

  lemma {:induction false} AfterSessionsFrame(w: World, s: Tpm, q: Request, i: nat)
    requires i <= |q.sessions|
    ensures var t := AfterSessions(w, s, q, i);
            && t == s.(sessions := t.sessions, saved := t.saved, exclusive := t.exclusive, history := t.history)
            && Judgements(t.history) == Judgements(s.history)
    decreases |q.sessions| - i
  {
    if i < |q.sessions| {
      AfterSessionsFrame(w, AfterSession(w, s, q, i), q, i + 1);
    }
  }

  /** The state the action of an admitted command leaves. */
  function Acted(w: World, s: Tpm, q: Request, a: Admission): Tpm {
    RunCommand(w, s.(suppressed := false), q.(parameters := a.parameters)).tpm
  }

  lemma AccountedJudges(w: World, s: Tpm, q: Request, a: Admission)
    ensures var t := Accounted(w, s, q, a).tpm;
            NothingJudged(Acted(w, s, q, a), t)
  {
    hide RunCommand, RolledFrom, Encrypted, AfterAudit;
    var ran := RunCommand(w, s.(suppressed := false), q.(parameters := a.parameters));
    RolledFrame(w, ran.tpm, q, 0);
    if ran.result.Ok? {
      var s2 := RolledFrom(w, ran.tpm, q, 0).tpm;
      var parameters := Encrypted(w, s2, q, ran.result.value.parameters, a.auths);
      if parameters.Ok? {
        AfterAuditFrame(w, s2, q, a.names, q.parameters, parameters.value);
      }
    }
  }

  lemma CompletedJudges(w: World, s: Tpm, q: Request, a: Admission)
    ensures var t := Completed(w, s, q, a).tpm;
            NothingJudged(Acted(w, s, q, a), t)
  {
    hide RunCommand, Accounted, AfterSessions, ResponseAttributes;
    AccountedJudges(w, s, q, a);
    AfterSessionsFrame(w, Accounted(w, s, q, a).tpm, q, 0);
  }

  // ---- When failedTries rises ----

  /** A TPM2_Startup that reaches its action and counts the failure that may have been lost. */
  predicate CountsLostTry(w: World, s: Tpm, q: Request) {
    var admitted := Admitted(w, s, q);
    admitted.result.Ok?
    && CountsPending(w, admitted.tpm.(suppressed := false), q.(parameters := admitted.result.value.parameters))
  }

  predicate Blames<T>(r: Result<T>) {
    r.Err? && (r.error.code == RC_AUTH_FAIL || r.error.code == RC_BAD_AUTH)
  }

  /** Once its action has succeeded, a command without sessions can fail for its size or for a hash alone. */
  lemma WithoutSessionsBlamesNobody(w: World, s: Tpm, q: Request, a: Admission)
    requires q.sessions == [] && q.tag == ST_NO_SESSIONS
    requires RunCommand(w, s.(suppressed := false), q.(parameters := a.parameters)).result.Ok?
    ensures !Blames(Completed(w, s, q, a).result)
  {
    hide RunCommand, AfterSessions;
  }

  lemma CountedRan(w: World, s: Tpm, q: Request)
    requires CountsPending(w, s, q)
    ensures RunCommand(w, s, q).result.Ok?
  {
    hide AfterStartup;
  }

  lemma AdmittedCounts(w: World, s: Tpm, q: Request)
    requires q.code == CC_STARTUP ==> q.sessions == [] && q.tag == ST_NO_SESSIONS
    ensures var t := Handled(w, s, q);
            && t.tpm.lockout.failedTries <= s.lockout.failedTries + 1
            && (t.tpm.lockout.failedTries > s.lockout.failedTries ==>
                  (t.result.Err? && t.result.error.code == RC_AUTH_FAIL) || CountsLostTry(w, s, q))
            && (CountsLostTry(w, s, q) ==> t.tpm.lockout.failedTries > s.lockout.failedTries && !Blames(t.result))
  {
    hide Admitted, Completed, RunCommand, CountsPending, Blames;
    AdmittedFrame(w, s, q);
    var admitted := Admitted(w, s, q);
    if admitted.result.Ok? {
      var a := admitted.result.value;
      var before, q1 := admitted.tpm.(suppressed := false), q.(parameters := a.parameters);
      RunCommandJudges(w, before, q1);
      CompletedJudges(w, admitted.tpm, q, a);
      if CountsPending(w, before, q1) {
        assert q.code == CC_STARTUP by {
          PendingIsStartup(w, before, q1);
        }
        CountedRan(w, before, q1);
        WithoutSessionsBlamesNobody(w, admitted.tpm, q, a);
      }
    }
  }

  lemma PendingIsStartup(w: World, s: Tpm, q: Request)
    requires CountsPending(w, s, q)
    ensures q.code == CC_STARTUP
  {
  }

  /** failedTries rises by at most one for a command, and never with TPM_RC_BAD_AUTH. It
    rises with an answer other than TPM_RC_AUTH_FAIL if and only if the command is a
    TPM2_Startup that counts the failure that may have been lost. */
  lemma FailedTriesRiseExactly(w: World, s: Tpm, buf: Bytes, locality: nat)
    ensures var t := Executed(w, s, buf, locality);
            var rises := t.tpm.lockout.failedTries > s.lockout.failedTries;
            && t.tpm.lockout.failedTries <= s.lockout.failedTries + 1
            && (rises && !(t.result.Err? && t.result.error.code == RC_AUTH_FAIL)
                <==> Received(w, s, buf, locality).Ok? && CountsLostTry(w, s, Received(w, s, buf, locality).value))
            && (t.result.Err? && t.result.error.code == RC_BAD_AUTH ==> !rises)
  {
    hide Handled, CountsLostTry, Parsed, HeaderOf;
    if Received(w, s, buf, locality).Ok? {
      var q := Received(w, s, buf, locality).value;
      SomeCarryNoSessions(w.table, buf, locality);
      AdmittedCounts(w, s, q);
    }
  }
}
