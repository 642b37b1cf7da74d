/** One authorization is at most one comparison, and exactly what it moves. */
module Judging {
  import opened Prelude
  import opened Commands
  import opened State
  import opened Authorization
  import opened Pipeline

  /** The Index can be authorized with: written, and its count short of its limit. */
  predicate PinReady(index: NvIndex) {
    && index.pin.Some? && index.written && index.counters.Some?
    && index.counters.value.count < index.counters.value.limit
  }

  function PinMoved(index: NvIndex, accepted: bool): NvIndex
    requires PinReady(index)
  {
    index.(counters := Some(index.counters.value.(
      count := MovedCount(index.pin.value, accepted, index.counters.value.count))))
  }

  /** The failed tries after a comparison. */
  ghost predicate Counted(before: Lockout, after: Lockout, accepted: bool, isProtected: bool) {
    && after.maxTries == before.maxTries
    && after.recoveryTime == before.recoveryTime
    && after.failedTries
       == (if accepted || !isProtected || before.ProtectionOff() then before.failedTries
           else SaturatingAdd(before.failedTries, 1, U32_MAX))
  }

  /** The Indices after a comparison that answers for `pin`, or for none. */
  ghost predicate PinCounted(before: map<uint32, NvIndex>, after: map<uint32, NvIndex>, pin: Option<uint32>, accepted: bool) {
    match pin
    case None => after == before
    case Some(h) => h in before && PinReady(before[h]) && after == before[h := PinMoved(before[h], accepted)]
  }

  /** A failed comparison of lockoutAuth that enters the special lockout: any but the HMAC of a policy session. */
  predicate EntersSpecial(e: Event) {
    e.Compared? && e.entity == RH_LOCKOUT && !e.accepted && e.use != PolicyHmac && e.use != KeyOnly
  }

  /** The special lockout after a comparison. */
  ghost predicate SpecialMoved(s: Tpm, after: Lockout, enters: bool) {
    && after.inLockout == (s.lockout.inLockout || enters)
    && after.lockoutUntil == (if enters then SpecialDeadline(s) else s.lockout.lockoutUntil)
  }

  /** `t` follows `s` by the one comparison `e`. */
  ghost predicate JudgedBy(s: Tpm, t: Tpm, isProtected: bool, e: Event) {
    && e.Compared? && e.use != KeyOnly
    && t.history == Then(s.history, e)
    && (e.guarded ==> isProtected)
    && Counted(s.lockout, t.lockout, e.accepted, isProtected)
    && SpecialMoved(s, t.lockout, EntersSpecial(e))
    && PinCounted(s.store.nv, t.store.nv, e.pin, e.accepted)
  }

  ghost predicate AtMostOne(s: Tpm, t: Tpm, isProtected: bool) {
    t == s || (t.history.Then? && JudgedBy(s, t, isProtected, t.history.last))
  }

  /** What is compared for whom. */
  ghost predicate Concerns(s: Tpm, t: Tpm, h: uint32, use: Use) {
    t != s ==> t.history.Then? && t.history.last.Compared? && t.history.last.entity == h && t.history.last.use == use
  }

  /** How session `index` puts a value to use. */
  function UseOf(s: Tpm, q: Request, index: nat): Use
    requires index < |q.sessions|
  {
    var h := q.sessions[index].handle;
    if h == RS_PW || h !in s.sessions then Password
    else if !s.sessions[h].IsPolicy() then Hmac
    else if s.sessions[h].policy.passwordNeeded then PolicyPassword
    else PolicyHmac
  }

  lemma PinMovesOnce(s: Tpm, entity: Entity, accepted: bool)
    requires PinAnswer(s, entity).Ok?
    ensures var t := AfterPin(s, entity, accepted);
            && t.result.Ok?
            && t.tpm == s.(store := s.store.(nv := t.tpm.store.nv))
            && PinCounted(s.store.nv, t.tpm.store.nv, entity.pin, accepted)
  {
  }

  lemma CompareCounts(s: Tpm, accepted: bool, isProtected: bool, isLockoutAuth: bool)
    ensures var t := AfterCompare(s, accepted, isProtected, isLockoutAuth).tpm;
            && t == s.(lockout := t.lockout)
            && Counted(s.lockout, t.lockout, accepted, isProtected)
            && SpecialMoved(s, t.lockout, !accepted && isLockoutAuth)
  {
  }

  lemma OneComparison(s: Tpm, e: Event, t: Tpm, isProtected: bool)
    requires e.Compared? && e.use != KeyOnly && (e.guarded ==> isProtected)
    requires t == s.(lockout := t.lockout, store := s.store.(nv := t.store.nv), history := Then(s.history, e))
    requires Counted(s.lockout, t.lockout, e.accepted, isProtected) && SpecialMoved(s, t.lockout, EntersSpecial(e))
    requires PinCounted(s.store.nv, t.store.nv, e.pin, e.accepted)
    ensures AtMostOne(s, t, isProtected)
  {
  }

  lemma ByPasswordJudges(s: Tpm, q: Request, index: nat, entity: Entity, isProtected: bool, use: Use)
    requires index < |q.sessions| && (use == Password || use == PolicyPassword)
    ensures var t := ByPassword(s, q, index, entity, isProtected, use).tpm;
            AtMostOne(s, t, isProtected) && Concerns(s, t, HandleAt(q, index), use)
  {
    hide TrimAuth, AfterPin, PinAnswer, AfterCompare, Counted, PinCounted, JudgedBy;
    var accepted := TrimAuth(q.sessions[index].hmac) == TrimAuth(entity.auth);
    var e := Compared(HandleAt(q, index), use, isProtected, entity.pin, accepted);
    CompareCounts(s.Note(e), accepted, isProtected, q.HandleIs(index, RH_LOCKOUT));
    var compared := AfterCompare(s.Note(e), accepted, isProtected, q.HandleIs(index, RH_LOCKOUT)).tpm;
    if PinAnswer(s, entity).Ok? {
      PinAnswerReadsStore(s, compared, entity);
      PinMovesOnce(compared, entity, accepted);
      OneComparison(s, e, AfterPin(compared, entity, accepted).tpm, isProtected);
    }
  }

  lemma ByHmacJudges(w: World, s: Tpm, q: Request, index: nat, entity: Entity, key: Bytes, cp: Bytes, session: Session,
                     use: Use, isProtected: bool, guarded: bool)
    requires index < |q.sessions| && (use == Hmac || use == PolicyHmac) && (guarded ==> isProtected)
    ensures var t := ByHmac(w, s, q, index, entity, key, cp, session, use, isProtected, guarded).tpm;
            && AtMostOne(s, t, isProtected) && Concerns(s, t, HandleAt(q, index), use)
            && (t != s && t.history.last.guarded ==> guarded)
  {
    hide ExpectedHmac, HmacAccepted, AfterPin, PinAnswer, AfterCompare, Counted, PinCounted, JudgedBy;
    var expected := ExpectedHmac(w, s, q, index, session, key, cp);
    if expected.Ok? && PinAnswer(s, entity).Ok? {
      var accepted := HmacAccepted(key, expected.value, q.sessions[index].hmac);
      var e := Compared(HandleAt(q, index), use, guarded, entity.pin, accepted);
      PinAnswerReadsStore(s, s.Note(e), entity);
      PinMovesOnce(s.Note(e), entity, accepted);
      var moved := AfterPin(s.Note(e), entity, accepted).tpm;
      var lockoutAuth := use == Hmac && q.HandleIs(index, RH_LOCKOUT);
      CompareCounts(moved, accepted, isProtected, lockoutAuth);
      OneComparison(s, e, AfterCompare(moved, accepted, isProtected, lockoutAuth).tpm, isProtected);
    }
  }

  lemma ByPolicyJudges(w: World, s: Tpm, q: Request, index: nat, entity: Entity, cp: Bytes, session: Session, isProtected: bool)
    requires index < |q.sessions|
    ensures var t := ByPolicy(w, s, q, index, entity, cp, session, isProtected).tpm;
            && AtMostOne(s, t, isProtected)
            && Concerns(s, t, HandleAt(q, index), if session.policy.passwordNeeded then PolicyPassword else PolicyHmac)
            && (t != s && t.history.last.guarded ==>
                  session.policy.authValueNeeded || session.bindUsesLockout || session.policy.passwordNeeded)
  {
    hide PolicyStands, PolicyBinds, ByPassword, ByHmac, JudgedBy, HmacKey;
    ByPasswordJudges(s, q, index, entity, isProtected, PolicyPassword);
    ByHmacJudges(w, s, q, index, PolicyEntity(entity, session), HmacKey(session, entity.name, entity.auth), cp, session,
                 PolicyHmac, isProtected, isProtected && (session.policy.authValueNeeded || session.bindUsesLockout));
  }

  /** An authorization makes at most one comparison. One of a protected value is
    made only where the lockout lets that value be used. */
  lemma AuthorizationIsOneComparison(w: World, s: Tpm, q: Request, index: nat, entity: Entity, cp: Bytes)
    requires index < |q.sessions|
    ensures var t := Authorized(w, s, q, index, entity, cp).tpm;
            && AtMostOne(s, t, Protected(s, q, index, entity))
            && Concerns(s, t, HandleAt(q, index), UseOf(s, q, index))
            && (t != s && t.history.last.guarded && q.code != CC_DICTIONARY_ATTACK_LOCK_RESET ==>
                  !s.lockout.LockedOut() && (s.lockout.inLockout ==> t.history.last.entity != RH_LOCKOUT))
  {
    hide NvAnswer, RoleAnswer, ByPassword, ByHmac, ByPolicy, HmacKey, JudgedBy, Protected;
    var isProtected := Protected(s, q, index, entity);
    var h := q.sessions[index].handle;
    ByPasswordJudges(s, q, index, entity, isProtected, Password);
    if h in s.sessions {
      var session := s.sessions[h];
      ByHmacJudges(w, s, q, index, entity, HmacKey(session, entity.name, entity.auth), cp, session,
                   Hmac, isProtected, isProtected);
      ByPolicyJudges(w, s, q, index, entity, cp, session, isProtected);
    }
    var t := Authorized(w, s, q, index, entity, cp).tpm;
    if t != s {
      GuardedIsProtected(s, t, isProtected);
      assert t.history.last.entity == RH_LOCKOUT ==> q.HandleIs(index, RH_LOCKOUT);
    }
  }

  lemma GuardedIsProtected(s: Tpm, t: Tpm, isProtected: bool)
    requires AtMostOne(s, t, isProtected) && t != s
    ensures t.history.Then? && t.history.last.Compared? && t.history.last.use != KeyOnly && (t.history.last.guarded ==> isProtected)
  {
  }
}
