/** The special lockout of lockoutAuth (Part 1 section 16.8.5): what enters it, and
  what it holds back. */
module SpecialLockout {
  import opened Prelude
  import opened Commands
  import opened CommandParse
  import opened State
  import opened Authorization
  import opened Audit
  import opened Actions
  import opened Pipeline
  import opened Frames
  import opened Judging
  import opened Meaning
  import opened Recovery
  import opened LockoutBudget

  // ---- One authorization ----

  /** An authorization enters the special lockout exactly when it compares a value for
    lockoutAuth, the comparison fails, and it is not the HMAC of a policy session. */
  lemma SpecialLockoutIsExact(w: World, s: Tpm, q: Request, index: nat, entity: Entity, cp: Bytes)
    requires index < |q.sessions|
    ensures var t := Authorized(w, s, q, index, entity, cp).tpm;
            || t == s
            || (&& t.history.Then? && t.history.past == s.history && t.history.last.Compared?
                && var enters := q.HandleIs(index, RH_LOCKOUT) && !t.history.last.accepted && UseOf(s, q, index) != PolicyHmac;
                   && (t.lockout.inLockout <==> s.lockout.inLockout || enters)
                   && t.lockout.lockoutUntil == (if enters then SpecialDeadline(s) else s.lockout.lockoutUntil))
  {
    hide Authorized, Counted, PinCounted, Protected, UseOf;
    AuthorizationIsOneComparison(w, s, q, index, entity, cp);
  }

  // ---- Entering it, over a run ----

  function Entries(s: Tpm): nat {
    Tally(s.history, EntersSpecial)
  }

  /** From `s` to `t` the special lockout was entered by the comparisons that enter it and by nothing else. */
  ghost predicate Enters(s: Tpm, t: Tpm) {
    Entries(s) <= Entries(t) && (t.lockout.inLockout <==> s.lockout.inLockout || Entries(s) < Entries(t))
  }

  lemma EntersNothing(s: Tpm, t: Tpm)
    requires Judgements(t.history) == Judgements(s.history) && t.lockout.inLockout == s.lockout.inLockout
    ensures Enters(s, t)
  {
    TallyOfJudgements(s.history, EntersSpecial);
    TallyOfJudgements(t.history, EntersSpecial);
    hide Judgements, Tally;
  }

  lemma EntersChains(s: Tpm, t: Tpm, u: Tpm)
    requires Enters(s, t) && Enters(t, u)
    ensures Enters(s, u)
  {
  }

  lemma AuthorizedAtEnters(w: World, s: Tpm, q: Request, names: seq<Bytes>, i: nat)
    ensures Enters(s, AuthorizedAt(w, s, q, names, i).tpm)
  {
    hide EntityAt, SessionHash, CpHash, Authorized, Protected, Counted, PinCounted, Concerns;
    if i < |q.sessions| && i < |q.handles| && EntityAt(w, s, q.handles[i]).Ok? && SessionHash(s, q, i).Ok? {
      var entity := EntityAt(w, s, q.handles[i]).value;
      var cp := CpHash(w, SessionHash(s, q, i).value, q.code, names, q.parameters);
      if cp.Ok? {
        AuthorizationIsOneComparison(w, s, q, i, entity, cp.value);
      }
    }
  }

  lemma {:induction false} AuthorizedFromEnters(w: World, s: Tpm, q: Request, names: seq<Bytes>, i: nat)
    requires i <= q.info.authHandles
    ensures Enters(s, AuthorizedFrom(w, s, q, names, i).tpm)
    decreases q.info.authHandles - i
  {
    if i < q.info.authHandles {
      hide AuthorizedAt, Tally;
      AuthorizedAtEnters(w, s, q, names, i);
      var at := AuthorizedAt(w, s, q, names, i);
      if at.result.Ok? {
        AuthorizedFromEnters(w, at.tpm, q, names, i + 1);
      }
    }
  }

  /** A session that authorizes nothing compares nothing for lockoutAuth. */
  lemma {:induction false} ExtraSessionsEnterNothing(w: World, s: Tpm, q: Request, names: seq<Bytes>, i: nat)
    ensures var t := ExtraSessions(w, s, q, names, i).tpm;
            t == s.(history := t.history) && Entries(t) == Entries(s) && SpecialUses(t) == SpecialUses(s)
    decreases |q.sessions| - i
  {
    if i < |q.sessions| {
      hide KeyHmac;
      ExtraSessionsEnterNothing(w, ExtraSession(w, s, q, names, i).tpm, q, names, i + 1);
    }
  }

  lemma FinalChecksEnterNothing(w: World, s: Tpm, q: Request, names: seq<Bytes>, auths: seq<Bytes>)
    ensures var t := FinalChecks(w, s, q, names, auths).tpm;
            t.lockout == s.lockout && Entries(t) == Entries(s) && SpecialUses(t) == SpecialUses(s)
  {
    hide ExtraSessions, AuditSessionAnswer, Decrypted, Tally;
    ExtraSessionsEnterNothing(w, s, q, names, q.info.authHandles);
  }

  lemma AdmittedEnters(w: World, s: Tpm, q: Request)
    ensures Enters(s, Admitted(w, s, q).tpm)
  {
    hide Gated, Resolved, AuthorizedFrom, FinalChecks, Tally;
    GatedFrame(w, s, q);
    var gated := Gated(w, s, q).tpm;
    if Resolved(w, gated, q).Ok? {
      var names := Resolved(w, gated, q).value;
      AuthorizedFromEnters(w, gated, q, names, 0);
      var authorized := AuthorizedFrom(w, gated, q, names, 0);
      if authorized.result.Ok? {
        FinalChecksEnterNothing(w, authorized.tpm, q, names, authorized.result.value);
      }
    }
  }

  /** The command's own action, if it gets that far, neither enters nor leaves the special lockout. */
  predicate LeavesSpecial(w: World, s: Tpm, q: Request) {
    var admitted := Admitted(w, s, q);
    admitted.result.Ok? ==>
      Acted(w, admitted.tpm, q, admitted.result.value).lockout.inLockout == admitted.tpm.lockout.inLockout
  }

  lemma HandledEnters(w: World, s: Tpm, q: Request)
    requires LeavesSpecial(w, s, q)
    ensures Enters(s, Handled(w, s, q).tpm)
  {
    hide Admitted, Completed, RunCommand, Enters;
    AdmittedEnters(w, s, q);
    var admitted := Admitted(w, s, q);
    if admitted.result.Ok? {
      var a := admitted.result.value;
      RunCommandJudges(w, admitted.tpm.(suppressed := false), q.(parameters := a.parameters));
      CompletedJudges(w, admitted.tpm, q, a);
      var t := Completed(w, admitted.tpm, q, a).tpm;
      hide Judgements;
      EntersNothing(admitted.tpm, t);
      EntersChains(s, admitted.tpm, t);
    }
  }

  /** Nothing of the run ends the special lockout: no action, and no deadline that passes. */
  predicate NothingReleases(w: World, s: Tpm, inputs: seq<Input>)
    decreases |inputs|
  {
    inputs == []
    || (match inputs[0] {
          case Elapse(_) => After(w, s, inputs[0]).lockout.inLockout == s.lockout.inLockout
          case Command(_, _) => Asked(w, s, inputs[0]).Some? ==> LeavesSpecial(w, s, Asked(w, s, inputs[0]).value)
        }
        && NothingReleases(w, After(w, s, inputs[0]), inputs[1..]))
  }

  lemma {:induction false} RecoveringEntersNothing(s: Tpm, time: uint64)
    ensures Entries(Recovering(s, time)) == Entries(s) && SpecialUses(Recovering(s, time)) == SpecialUses(s)
    ensures Recovering(s, time).lockout.inLockout == s.lockout.inLockout
    decreases s.lockout.failedTries
  {
    if s.lockout.failedTries > 0 && time >= s.lockout.nextRecovery {
      RecoveringEntersNothing(s.(lockout := s.lockout.(
        failedTries := s.lockout.failedTries - 1,
        nextRecovery := SaturatingAdd(s.lockout.nextRecovery, s.lockout.recoveryTime * 1000, U64_MAX))).Note(Recovered), time);
    }
  }

  lemma OnTimeEntersNothing(s: Tpm, time: uint64)
    ensures Entries(OnTime(s, time)) == Entries(s) && SpecialUses(OnTime(s, time)) == SpecialUses(s)
  {
    RecoveringEntersNothing(s.(clock := s.clock.(time := time)), time);
    hide Recovering, LockoutEnded, Tally;
  }

  /** Over any run in which nothing ends it, the TPM is in the special lockout exactly
    when it was, or some comparison of lockoutAuth other than a policy HMAC has failed. */
  lemma {:induction false} SpecialLockoutIsEntered(w: World, s: Tpm, inputs: seq<Input>)
    requires NothingReleases(w, s, inputs)
    ensures var t := AfterAll(w, s, inputs);
            Entries(s) <= Entries(t) && (t.lockout.inLockout <==> s.lockout.inLockout || Entries(s) < Entries(t))
    decreases |inputs|
  {
    if inputs != [] {
      hide Asked, Executed, Handled, OnTime, LeavesSpecial, Tally;
      AfterIsHandled(w, s, inputs[0]);
      match inputs[0] {
        case Elapse(time) =>
          OnTimeEntersNothing(s, time);
        case Command(_, _) =>
          if Asked(w, s, inputs[0]).Some? {
            HandledEnters(w, s, Asked(w, s, inputs[0]).value);
          }
      }
      SpecialLockoutIsEntered(w, After(w, s, inputs[0]), inputs[1..]);
    }
  }

  // ---- What it holds back ----

  /** The value of lockoutAuth was put to use. */
  predicate IsSpecialUse(e: Event) {
    IsGuarded(e) && e.entity == RH_LOCKOUT
  }

  function SpecialUses(s: Tpm): nat {
    Tally(s.history, IsSpecialUse)
  }

  /** The authorization has everything it needs to put the value to use but a right value. */
  predicate Attempts(w: World, s: Tpm, q: Request, index: nat, entity: Entity, cp: Bytes)
    requires index < |q.sessions|
  {
    var h, role := q.sessions[index].handle, w.role(q.code, index);
    && NvAnswer(w, s, q, index, role).Ok?
    && if h == RS_PW then ValueAllowed(role, entity)
       else
         && h in s.sessions && s.sessions[h].kind != TrialSession
         && var session := s.sessions[h];
         if session.kind == HmacSession then ValueAllowed(role, entity) && w.digestSize(session.authHash).Some?
         else
           && (role == Admin || role == Dup ==> session.policy.commandCode == Some(q.code))
           && SatisfiesPolicy(w, s, q, entity, cp, session)
           && (session.policy.passwordNeeded
               || ((session.policy.authValueNeeded || session.bindUsesLockout) && w.digestSize(session.authHash).Some?))
  }

  /** The new state holds one more use of a protected value. */
  ghost predicate UsesValue(s: Tpm, t: Tpm) {
    t.history.Then? && t.history.past == s.history && IsGuarded(t.history.last)
  }

  lemma {:induction false} HistoryGrows(h: History)
    ensures h.Then? ==> h.past != h
  {
    if h.Then? {
      HistoryGrows(h.past);
    }
  }

  lemma SameUsesNothing(s: Tpm)
    ensures !UsesValue(s, s)
  {
    HistoryGrows(s.history);
  }

  lemma PasswordUses(s: Tpm, q: Request, index: nat, entity: Entity, use: Use)
    requires index < |q.sessions| && entity.pin.None?
    ensures UsesValue(s, ByPassword(s, q, index, entity, true, use).tpm)
  {
    hide TrimAuth;
  }

  lemma HmacUses(w: World, s: Tpm, q: Request, index: nat, entity: Entity, key: Bytes, cp: Bytes, session: Session, use: Use, guarded: bool)
    requires index < |q.sessions| && entity.pin.None?
    ensures UsesValue(s, ByHmac(w, s, q, index, entity, key, cp, session, use, true, guarded).tpm)
       <==> guarded && w.digestSize(session.authHash).Some?
  {
    hide AuxiliaryNonces, HmacAccepted;
    HistoryGrows(s.history);
  }

  /** The value of a protected entity is put to use exactly when the lockout does not hold it back and everything else is there. */
  lemma UseIsExact(w: World, s: Tpm, q: Request, index: nat, entity: Entity, cp: Bytes)
    requires index < |q.sessions| && entity.usesLockout && entity.pin.None?
    ensures UsesValue(s, Authorized(w, s, q, index, entity, cp).tpm) <==> !Barred(s, q, index, entity) && Attempts(w, s, q, index, entity, cp)
  {
    hide UsesAuthValue, NvAnswer, ByPassword, ByHmac, PolicyStands, PolicyBinds, SatisfiesPolicy, HmacKey, UsesValue;
    SameUsesNothing(s);
    var h := q.sessions[index].handle;
    PasswordUses(s, q, index, entity, Password);
    if h in s.sessions {
      var session := s.sessions[h];
      var key := HmacKey(session, entity.name, entity.auth);
      HmacUses(w, s, q, index, entity, key, cp, session, Hmac, true);
      PasswordUses(s, q, index, entity, PolicyPassword);
      PolicyIsExact(w, s, q, entity, cp, session, index + 1);
      HmacUses(w, s, q, index, PolicyEntity(entity, session), key, cp, session, PolicyHmac,
               session.policy.authValueNeeded || session.bindUsesLockout);
    }
  }

  /** Handle `i` is lockoutAuth, and its authorization attempts it. */
  predicate AttemptsAt(w: World, s: Tpm, q: Request, names: seq<Bytes>, i: nat) {
    && i < |q.sessions| && q.HandleIs(i, RH_LOCKOUT)
    && EntityAt(w, s, RH_LOCKOUT).Ok? && SessionHash(s, q, i).Ok?
    && var cp := CpHash(w, SessionHash(s, q, i).value, q.code, names, q.parameters);
       cp.Ok? && Attempts(w, s, q, i, EntityAt(w, s, RH_LOCKOUT).value, cp.value)
  }

  /** In the special lockout the value of lockoutAuth authorizes, or fails to, at a
    TPM2_DictionaryAttackLockReset that attempts it and nowhere else. */
  lemma AuthorizedAtUses(w: World, s: Tpm, q: Request, names: seq<Bytes>, i: nat)
    requires s.lockout.inLockout
    ensures var t := AuthorizedAt(w, s, q, names, i).tpm;
            && t.lockout.inLockout
            && SpecialUses(t) == SpecialUses(s)
                + (if q.code == CC_DICTIONARY_ATTACK_LOCK_RESET && AttemptsAt(w, s, q, names, i) then 1 else 0)
  {
    hide EntityAt, SessionHash, CpHash, Authorized, Protected, Counted, PinCounted, Attempts, UsesAuthValue;
    if i < |q.sessions| && i < |q.handles| && EntityAt(w, s, q.handles[i]).Ok? && SessionHash(s, q, i).Ok? {
      var entity := EntityAt(w, s, q.handles[i]).value;
      var cp := CpHash(w, SessionHash(s, q, i).value, q.code, names, q.parameters);
      if cp.Ok? {
        AuthorizationIsOneComparison(w, s, q, i, entity, cp.value);
        SameUsesNothing(s);
        if q.HandleIs(i, RH_LOCKOUT) {
          LockoutEntity(w, s);
          UseIsExact(w, s, q, i, entity, cp.value);
          if Attempts(w, s, q, i, entity, cp.value) {
            AttemptsUses(w, s, q, i, entity, cp.value);
          }
          var t := Authorized(w, s, q, i, entity, cp.value).tpm;
          assert UsesValue(s, t) <==> q.code == CC_DICTIONARY_ATTACK_LOCK_RESET && Attempts(w, s, q, i, entity, cp.value);
          assert SpecialUses(t) == SpecialUses(s) + if UsesValue(s, t) then 1 else 0;
        }
      }
    }
  }

  lemma LockoutEntity(w: World, s: Tpm)
    requires EntityAt(w, s, RH_LOCKOUT).Ok?
    ensures EntityAt(w, s, RH_LOCKOUT).value.usesLockout && EntityAt(w, s, RH_LOCKOUT).value.pin.None?
  {
  }

  /** An attempt is a use of the authValue. */
  lemma AttemptsUses(w: World, s: Tpm, q: Request, index: nat, entity: Entity, cp: Bytes)
    requires index < |q.sessions| && Attempts(w, s, q, index, entity, cp)
    ensures UsesAuthValue(s, q, index)
  {
    hide NvAnswer, SatisfiesPolicy;
  }

  /** How many of the authorizations from `i` on get as far as to attempt lockoutAuth. */
  function Attempted(w: World, s: Tpm, q: Request, names: seq<Bytes>, i: nat): nat
    requires i <= q.info.authHandles
    decreases q.info.authHandles - i
  {
    if i == q.info.authHandles then 0
    else
      var at := AuthorizedAt(w, s, q, names, i);
      (if AttemptsAt(w, s, q, names, i) then 1 else 0) + if at.result.Ok? then Attempted(w, at.tpm, q, names, i + 1) else 0
  }

  lemma {:induction false} AuthorizedFromUses(w: World, s: Tpm, q: Request, names: seq<Bytes>, i: nat)
    requires i <= q.info.authHandles && s.lockout.inLockout
    ensures var t := AuthorizedFrom(w, s, q, names, i).tpm;
            SpecialUses(t) == SpecialUses(s)
              + (if q.code == CC_DICTIONARY_ATTACK_LOCK_RESET then Attempted(w, s, q, names, i) else 0)
    decreases q.info.authHandles - i
  {
    if i < q.info.authHandles {
      hide AuthorizedAt, AttemptsAt, Tally;
      AuthorizedAtUses(w, s, q, names, i);
      var at := AuthorizedAt(w, s, q, names, i);
      if at.result.Ok? {
        AuthorizedFromUses(w, at.tpm, q, names, i + 1);
      }
    }
  }

  /** How often the command attempts lockoutAuth past the special lockout: at a
    TPM2_DictionaryAttackLockReset that gets to its authorizations. */
  function ResetAttempts(w: World, s: Tpm, q: Request): nat {
    var gated := Gated(w, s, q);
    if q.code == CC_DICTIONARY_ATTACK_LOCK_RESET && gated.result.Ok? && Resolved(w, gated.tpm, q).Ok?
    then Attempted(w, gated.tpm, q, Resolved(w, gated.tpm, q).value, 0)
    else 0
  }

  lemma NothingUsed(s: Tpm, t: Tpm)
    requires Judgements(t.history) == Judgements(s.history)
    ensures SpecialUses(t) == SpecialUses(s)
  {
    TallyOfJudgements(s.history, IsSpecialUse);
    TallyOfJudgements(t.history, IsSpecialUse);
  }

  lemma AdmittedUses(w: World, s: Tpm, q: Request)
    requires s.lockout.inLockout
    ensures SpecialUses(Admitted(w, s, q).tpm) == SpecialUses(s) + ResetAttempts(w, s, q)
  {
    hide Gated, Resolved, AuthorizedFrom, FinalChecks, Tally, Attempted;
    GatedFrame(w, s, q);
    var gated := Gated(w, s, q).tpm;
    if Resolved(w, gated, q).Ok? {
      var names := Resolved(w, gated, q).value;
      AuthorizedFromUses(w, gated, q, names, 0);
      var authorized := AuthorizedFrom(w, gated, q, names, 0);
      if authorized.result.Ok? {
        FinalChecksEnterNothing(w, authorized.tpm, q, names, authorized.result.value);
      }
    }
  }

  lemma HandledUses(w: World, s: Tpm, q: Request)
    requires s.lockout.inLockout
    ensures SpecialUses(Handled(w, s, q).tpm) == SpecialUses(s) + ResetAttempts(w, s, q)
  {
    hide Admitted, Completed, Tally, ResetAttempts;
    AdmittedUses(w, s, q);
    var admitted := Admitted(w, s, q);
    if admitted.result.Ok? {
      var a := admitted.result.value;
      RunCommandJudges(w, admitted.tpm.(suppressed := false), q.(parameters := a.parameters));
      CompletedJudges(w, admitted.tpm, q, a);
      hide RunCommand, Judgements;
      NothingUsed(admitted.tpm, Completed(w, admitted.tpm, q, a).tpm);
    }
  }

  /** The special lockout holds whenever an input of the run arrives. */
  predicate Secluded(w: World, s: Tpm, inputs: seq<Input>)
    decreases |inputs|
  {
    inputs == [] || (s.lockout.inLockout && Secluded(w, After(w, s, inputs[0]), inputs[1..]))
  }

  function AllAttempts(w: World, s: Tpm, inputs: seq<Input>): nat
    decreases |inputs|
  {
    if inputs == [] then 0
    else
      (if Asked(w, s, inputs[0]).Some? then ResetAttempts(w, s, Asked(w, s, inputs[0]).value) else 0)
      + AllAttempts(w, After(w, s, inputs[0]), inputs[1..])
  }

  /** Over any run, while the special lockout holds: the value of lockoutAuth is compared
    to authorize exactly as often as a TPM2_DictionaryAttackLockReset attempts it, so not
    at all by any other command. */
  lemma {:induction false} SpecialLockoutHoldsBack(w: World, s: Tpm, inputs: seq<Input>)
    requires Secluded(w, s, inputs)
    ensures SpecialUses(AfterAll(w, s, inputs)) == SpecialUses(s) + AllAttempts(w, s, inputs)
    decreases |inputs|
  {
    if inputs != [] {
      hide Asked, Executed, Handled, OnTime, ResetAttempts, Tally;
      AfterIsHandled(w, s, inputs[0]);
      match inputs[0] {
        case Elapse(time) =>
          OnTimeEntersNothing(s, time);
        case Command(_, _) =>
          if Asked(w, s, inputs[0]).Some? {
            HandledUses(w, s, Asked(w, s, inputs[0]).value);
          }
      }
      SpecialLockoutHoldsBack(w, After(w, s, inputs[0]), inputs[1..]);
    }
  }

  // ---- What it lets past ----

  /** A TPM2_DictionaryAttackLockReset that passes every check but that of the wrong password it carries. */
  predicate GuessesReset(w: World, s: Tpm, q: Request) {
    && q.code == CC_DICTIONARY_ATTACK_LOCK_RESET
    && q.handles == [RH_LOCKOUT] && q.info.authHandles == 1 && |q.sessions| == 1 && q.sessions[0].handle == RS_PW
    && Nullified(s, q) == s && Gated(w, s, q).result.Ok?
    && HandlePresent(w, s, RH_LOCKOUT) && w.available(s.store, RH_LOCKOUT).Ok? && w.name(s.store, RH_LOCKOUT).Ok?
    && AttributesAllowed(q, 0, Taken(false, false, false)) && w.digestSize(ALG_SHA256).Some?
    && NvAnswer(w, s, q, 0, w.role(q.code, 0)).Ok? && ValueAllowed(w.role(q.code, 0), EntityAt(w, s, RH_LOCKOUT).value)
    && TrimAuth(q.sessions[0].hmac) != TrimAuth(EntityAt(w, s, RH_LOCKOUT).value.auth)
  }

  const MISSED_RESET := Compared(RH_LOCKOUT, Password, true, None, false)

  /** The failure is counted and the special lockout entered anew. */
  function Missed(s: Tpm): Tpm {
    AfterFailure(AfterLockoutFailure(s.Note(MISSED_RESET)), true)
  }

  lemma ResetIsResolved(w: World, s: Tpm, q: Request)
    requires GuessesReset(w, s, q)
    ensures Gated(w, s, q).tpm == s && Resolved(w, s, q).Ok?
  {
    hide NeedsPresence, Has, HandlesAllowed, ReadOnlyAnswer, HandlePresent, NvAnswer, TrimAuth;
    assert Names(w, s, q, 1) == Ok([]);
    assert SessionHandlesAnswer(s, q, 1) == Ok(()) && SessionHandlesAnswer(s, q, 0) == Ok(());
    var a := q.sessions[0].attributes;
    assert SessionAttributesAnswer(q, 1, Taken(Has(a, AUDIT), Has(a, DECRYPT), Has(a, ENCRYPT))) == Ok(());
    assert SessionAttributesAnswer(q, 0, Taken(false, false, false)) == Ok(());
  }

  lemma ResetGuessIsCompared(w: World, s: Tpm, q: Request)
    requires GuessesReset(w, s, q)
    ensures Handled(w, s, q) == Step(Missed(s), Err(TpmRc(RC_AUTH_FAIL, Position.Session(1))))
  {
    ResetIsResolved(w, s, q);
    hide Gated, Resolved, Completed, AttributesAllowed, HandlePresent, NvAnswer, TrimAuth, Joined, FinalChecks;
    var names := Resolved(w, s, q).value;
    var entity := EntityAt(w, s, RH_LOCKOUT).value;
    LockoutEntity(w, s);
    assert CpHash(w, ALG_SHA256, q.code, names, q.parameters).Ok?;
    assert AuthorizedAt(w, s, q, names, 0) == Step(Missed(s), Err(TpmRc(RC_AUTH_FAIL, Position.Session(1))));
    assert AuthorizedFrom(w, s, q, names, 0) == Step(Missed(s), Err(TpmRc(RC_AUTH_FAIL, Position.Session(1))));
  }

  lemma ResetGuessCanBeRepeated(w: World, s: Tpm, q: Request)
    requires GuessesReset(w, s, q)
    ensures GuessesReset(w, Missed(s), q)
  {
    hide HandlesAllowed, Has, TrimAuth;
  }

  predicate IsResetGuess(w: World, s: Tpm, input: Input) {
    Asked(w, s, input).Some? && !s.mode.failureMode && GuessesReset(w, s, Asked(w, s, input).value)
  }

  lemma ResetGuessRuns(w: World, s: Tpm, input: Input)
    requires IsResetGuess(w, s, input)
    ensures After(w, s, input) == Missed(s) && IsResetGuess(w, Missed(s), input)
  {
    hide Parsed, GuessesReset, Handled;
    AfterIsHandled(w, s, input);
    ResetGuessIsCompared(w, s, Asked(w, s, input).value);
    ResetGuessCanBeRepeated(w, s, Asked(w, s, input).value);
  }

  /** However often it is made, in the special lockout and in Lockout mode too: each of
    `n` wrong guesses of lockoutAuth is compared. */
  lemma {:induction false} ResetGuessesAreUnlimited(w: World, s: Tpm, input: Input, n: nat)
    requires IsResetGuess(w, s, input)
    ensures var t := AfterAll(w, s, Repeated(input, n));
            SpecialUses(t) == SpecialUses(s) + n && (n > 0 ==> t.lockout.inLockout) && t.lockout.maxTries == s.lockout.maxTries
    decreases n
  {
    hide After, IsResetGuess;
    if n > 0 {
      ResetGuessRuns(w, s, input);
      assert Repeated(input, n)[1..] == Repeated(input, n - 1);
      ResetGuessesAreUnlimited(w, Missed(s), input, n - 1);
    }
  }
}
