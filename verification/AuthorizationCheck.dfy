/** The authorization check as it runs: it updates the lockout record and the PIN counters in place. */
module AuthorizationCheck {
  import opened Prelude
  import opened Commands
  import opened State
  import opened Authorization

  method RecordFailure(tpm: TpmState, usesLockout: bool)
    modifies tpm`lockout
    ensures tpm.Value() == AfterFailure(old(tpm.Value()), usesLockout)
  {
    if !usesLockout {
      return;
    }
    if tpm.lockout.ProtectionOff() {
      return;
    }
    tpm.lockout := tpm.lockout.(failedTries := SaturatingAdd(tpm.lockout.failedTries, 1, U32_MAX));
    tpm.lockout := tpm.lockout.(
      nextRecovery := SaturatingAdd(tpm.clock.time, tpm.lockout.recoveryTime * 1000, U64_MAX));
  }

  method RecordLockoutFailure(tpm: TpmState)
    modifies tpm`lockout
    ensures tpm.Value() == AfterLockoutFailure(old(tpm.Value()))
  {
    tpm.lockout := tpm.lockout.(inLockout := true);
    var until := 0;
    if tpm.lockout.lockoutRecovery != 0 {
      until := SaturatingAdd(tpm.clock.time, tpm.lockout.lockoutRecovery * 1000, U64_MAX);
    }
    tpm.lockout := tpm.lockout.(lockoutUntil := until);
  }

  method RecordPinAttempt(tpm: TpmState, entity: Entity, succeeded: bool) returns (r: Result<()>)
    modifies tpm`store
    ensures Step(tpm.Value(), r) == AfterPin(old(tpm.Value()), entity, succeeded)
  {
    if entity.pin.None? {
      return Ok(());
    }
    var index :- IndexAt(tpm.Value(), entity.pin.value);
    var counters :- index.PinCounters();
    match index.pin.value {
      case PinFail =>
        counters := counters.(count := if succeeded then 0 else SaturatingAdd(counters.count, 1, U32_MAX));
      case PinPass =>
        if succeeded {
          counters := counters.(count := SaturatingAdd(counters.count, 1, U32_MAX));
        }
    }
    index := index.(counters := Some(counters), written := true);
    tpm.store := tpm.store.(nv := tpm.store.nv[entity.pin.value := index]);
    return Ok(());
  }

  /** What follows a comparison that failed or succeeded. */
  method JudgeComparison(tpm: TpmState, accepted: bool, usesLockout: bool, isLockoutAuth: bool) returns (r: Result<()>)
    modifies tpm`lockout
    ensures Step(tpm.Value(), r) == AfterCompare(old(tpm.Value()), accepted, usesLockout, isLockoutAuth)
  {
    if accepted {
      return Ok(());
    }
    if isLockoutAuth {
      RecordLockoutFailure(tpm);
    }
    RecordFailure(tpm, usesLockout);
    return Fail(FailureCode(usesLockout));
  }

  method CheckPassword(tpm: TpmState, q: Request, index: nat, entity: Entity, isProtected: bool, use: Use)
    returns (r: Result<()>)
    requires index < |q.sessions|
    modifies tpm
    ensures Step(tpm.Value(), r) == ByPassword(old(tpm.Value()), q, index, entity, isProtected, use)
  {
    hide AfterCompare, AfterPin, TrimAuth, PinAnswer;
    var _ :- AtSession(PinAnswer(tpm.Value(), entity), index + 1);
    var accepted := TrimAuth(q.sessions[index].hmac) == TrimAuth(entity.auth);
    tpm.history := Then(tpm.history, Compared(HandleAt(q, index), use, isProtected, entity.pin, accepted));
    var outcome := JudgeComparison(tpm, accepted, isProtected, q.HandleIs(index, RH_LOCKOUT));
    var _ :- RecordPinAttempt(tpm, entity, accepted);
    return AtSession(outcome, index + 1);
  }

  method CheckHmac(w: World, tpm: TpmState, q: Request, index: nat, entity: Entity, key: Bytes, cp: Bytes, session: Session,
                   use: Use, isProtected: bool, guarded: bool)
    returns (r: Result<()>)
    requires index < |q.sessions|
    modifies tpm
    ensures Step(tpm.Value(), r) == ByHmac(w, old(tpm.Value()), q, index, entity, key, cp, session, use, isProtected, guarded)
  {
    hide AfterCompare, AfterPin, PinAnswer, ExpectedHmac, HmacAccepted;
    var expected :- ExpectedHmac(w, tpm.Value(), q, index, session, key, cp);
    var _ :- AtSession(PinAnswer(tpm.Value(), entity), index + 1);
    var accepted := HmacAccepted(key, expected, q.sessions[index].hmac);
    tpm.history := Then(tpm.history, Compared(HandleAt(q, index), use, guarded, entity.pin, accepted));
    var _ :- RecordPinAttempt(tpm, entity, accepted);
    var outcome := JudgeComparison(tpm, accepted, isProtected, use == Hmac && q.HandleIs(index, RH_LOCKOUT));
    return AtSession(outcome, index + 1);
  }

  method CheckPolicy(w: World, tpm: TpmState, q: Request, index: nat, entity: Entity, cp: Bytes, session: Session, isProtected: bool)
    returns (r: Result<()>)
    requires index < |q.sessions|
    modifies tpm
    ensures Step(tpm.Value(), r) == ByPolicy(w, old(tpm.Value()), q, index, entity, cp, session, isProtected)
  {
    hide PolicyStands, PolicyBinds, ByPassword, ByHmac, HmacKey;
    var _ :- PolicyStands(w, tpm.Value(), q, entity, cp, session, index + 1);
    var _ :- PolicyBinds(w, tpm.Value(), q, session, index + 1);
    if session.policy.passwordNeeded {
      r := CheckPassword(tpm, q, index, entity, isProtected, PolicyPassword);
    } else {
      r := CheckHmac(w, tpm, q, index, PolicyEntity(entity, session), HmacKey(session, entity.name, entity.auth), cp, session,
                     PolicyHmac, isProtected, isProtected && (session.policy.authValueNeeded || session.bindUsesLockout));
    }
  }

  method CheckAuthorization(w: World, tpm: TpmState, q: Request, index: nat, entity: Entity, cp: Bytes)
    returns (r: Result<()>)
    requires index < |q.sessions|
    modifies tpm
    ensures Step(tpm.Value(), r) == Authorized(w, old(tpm.Value()), q, index, entity, cp)
  {
    hide LockoutAnswer, NvAnswer, RoleAnswer, Protected, ByPassword, ByHmac, ByPolicy, HmacKey;
    var h := q.sessions[index].handle;
    var isProtected := Protected(tpm.Value(), q, index, entity);
    var role := w.role(q.code, index);

    var _ :- LockoutAnswer(tpm.Value(), q, index, isProtected);
    var _ :- NvAnswer(w, tpm.Value(), q, index, role);

    if h == RS_PW {
      var _ :- RoleAnswer(role, entity, index + 1);
      r := CheckPassword(tpm, q, index, entity, isProtected, Password);
      return;
    }

    var session :- SessionAt(tpm.Value(), h);
    if session.kind == TrialSession {
      return Err(TpmRc(RC_AUTH_TYPE, Nowhere).WithSession(index + 1));
    }
    if session.IsPolicy() {
      if (role == Admin || role == Dup) && session.policy.commandCode != Some(q.code) {
        return Err(TpmRc(RC_POLICY_FAIL, Nowhere).WithSession(index + 1));
      }
      r := CheckPolicy(w, tpm, q, index, entity, cp, session, isProtected);
    } else {
      var _ :- RoleAnswer(role, entity, index + 1);
      r := CheckHmac(w, tpm, q, index, entity, HmacKey(session, entity.name, entity.auth), cp, session,
                     Hmac, isProtected, isProtected);
    }
  }
}
