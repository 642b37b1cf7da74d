/** What passing each check of the pipeline comes to, stated without its order. */
module Meaning {
  import opened Prelude
  import opened Commands
  import opened State
  import opened Authorization
  import opened Audit
  import opened Pipeline
  import opened Judging

  // ---- One authorization ----

  /** A digest that was recorded is the digest of `data`. */
  predicate Recorded(w: World, recorded: Option<Bytes>, alg: uint16, data: Bytes) {
    recorded.Some? ==> w.digestSize(alg).Some? && recorded.value == w.digest(alg, data)
  }

  /** The session has the entity's policy, and every restriction recorded on the way holds now. */
  predicate SatisfiesPolicy(w: World, s: Tpm, q: Request, entity: Entity, cp: Bytes, session: Session) {
    var p := session.policy;
    && entity.policy == Some((session.authHash, p.digest))
    && (p.commandCode.Some? ==> p.commandCode.value == q.code)
    && (p.cpHash.Some? ==> p.cpHash.value == cp)
    && (p.locality.Some? ==> LocalityAllowed(p.locality.value, q.locality))
    && (p.pcrUpdateCounter.Some? ==> p.pcrUpdateCounter.value == w.pcrCounter(s.store))
    && (p.expiration.Some? ==> session.timeEpoch == s.clock.epoch && s.clock.time <= p.expiration.value)
    && !p.secureChannelRequired
    && (p.physicalPresenceRequired ==> s.mode.physicalPresence)
    && (p.nvWritten.Some? ==>
         var first := if q.handles == [] then 0 else q.handles[0];
         first in s.store.nv && s.store.nv[first].written == p.nvWritten.value)
    && (p.nameHash.Some? ==>
         NamesOf(w, s, q.handles).Ok? && Recorded(w, p.nameHash, session.authHash, Joined(NamesOf(w, s, q.handles).value)))
    && (p.templateHash.Some? ==>
         SecondSized(q.parameters).Some? && Recorded(w, p.templateHash, session.authHash, SecondSized(q.parameters).value))
    && Recorded(w, p.parametersHash, session.authHash, Be32(q.code) + q.parameters)
  }

  lemma PolicyIsExact(w: World, s: Tpm, q: Request, entity: Entity, cp: Bytes, session: Session, position: nat)
    ensures PolicyStands(w, s, q, entity, cp, session, position).Ok? && PolicyBinds(w, s, q, session, position).Ok?
       <==> SatisfiesPolicy(w, s, q, entity, cp, session)
  {
    hide NamesOf, Joined, SecondSized, LocalityAllowed, Be32;
  }

  /** The PIN Index the entity is, if it is one, can still be authorized with. */
  predicate PinAllows(s: Tpm, entity: Entity) {
    entity.pin.Some? ==> entity.pin.value in s.store.nv && PinReady(s.store.nv[entity.pin.value])
  }

  lemma PinAnswerIsExact(s: Tpm, entity: Entity)
    ensures PinAnswer(s, entity).Ok? <==> PinAllows(s, entity)
  {
  }

  predicate GivesPassword(s: Tpm, q: Request, index: nat, entity: Entity)
    requires index < |q.sessions|
  {
    PinAllows(s, entity) && TrimAuth(q.sessions[index].hmac) == TrimAuth(entity.auth)
  }

  predicate GivesHmac(w: World, s: Tpm, q: Request, index: nat, entity: Entity, key: Bytes, cp: Bytes, session: Session)
    requires index < |q.sessions|
  {
    && PinAllows(s, entity)
    && ExpectedHmac(w, s, q, index, session, key, cp).Ok?
    && HmacAccepted(key, ExpectedHmac(w, s, q, index, session, key, cp).value, q.sessions[index].hmac)
  }

  /** The authValue may be used for this role. */
  predicate ValueAllowed(role: Role, entity: Entity) {
    role != Dup && !(role == Admin && entity.adminWithPolicy) && entity.userWithAuth
  }

  /** The lockout holds back the value the authorization would use. */
  predicate Barred(s: Tpm, q: Request, index: nat, entity: Entity)
    requires index < |q.sessions|
  {
    && q.code != CC_DICTIONARY_ATTACK_LOCK_RESET
    && UsesAuthValue(s, q, index)
    && ((Protected(s, q, index, entity) && s.lockout.LockedOut()) || (s.lockout.inLockout && q.HandleIs(index, RH_LOCKOUT)))
  }

  /** Everything an authorization has to show. */
  predicate Proven(w: World, s: Tpm, q: Request, index: nat, entity: Entity, cp: Bytes)
    requires index < |q.sessions|
  {
    var h, role := q.sessions[index].handle, w.role(q.code, index);
    && !Barred(s, q, index, entity)
    && NvAnswer(w, s, q, index, role).Ok?
    && if h == RS_PW then ValueAllowed(role, entity) && GivesPassword(s, q, index, entity)
       else
         && h in s.sessions && s.sessions[h].kind != TrialSession
         && var session := s.sessions[h];
         var key := HmacKey(session, entity.name, entity.auth);
         if session.kind == HmacSession then ValueAllowed(role, entity) && GivesHmac(w, s, q, index, entity, key, cp, session)
         else
           && (role == Admin || role == Dup ==> session.policy.commandCode == Some(q.code))
           && SatisfiesPolicy(w, s, q, entity, cp, session)
           && if session.policy.passwordNeeded then GivesPassword(s, q, index, entity)
              else GivesHmac(w, s, q, index, PolicyEntity(entity, session), key, cp, session)
  }

  lemma PasswordIsExact(s: Tpm, q: Request, index: nat, entity: Entity, isProtected: bool, use: Use)
    requires index < |q.sessions|
    ensures ByPassword(s, q, index, entity, isProtected, use).result.Ok? <==> GivesPassword(s, q, index, entity)
  {
    hide TrimAuth, PinAllows, PinAnswer, AfterPin;
    PinAnswerIsExact(s, entity);
    if PinAnswer(s, entity).Ok? {
      var accepted := TrimAuth(q.sessions[index].hmac) == TrimAuth(entity.auth);
      var s1 := s.Note(Compared(HandleAt(q, index), use, isProtected, entity.pin, accepted));
      var compared := AfterCompare(s1, accepted, isProtected, q.HandleIs(index, RH_LOCKOUT)).tpm;
      PinAnswerReadsStore(s, compared, entity);
      PinMovesOnce(compared, entity, accepted);
    }
  }

  lemma HmacIsExact(w: World, s: Tpm, q: Request, index: nat, entity: Entity, key: Bytes, cp: Bytes, session: Session,
                    use: Use, isProtected: bool, guarded: bool)
    requires index < |q.sessions|
    ensures ByHmac(w, s, q, index, entity, key, cp, session, use, isProtected, guarded).result.Ok?
       <==> GivesHmac(w, s, q, index, entity, key, cp, session)
  {
    hide ExpectedHmac, HmacAccepted, PinAllows, PinAnswer, AfterPin;
    PinAnswerIsExact(s, entity);
    var expected := ExpectedHmac(w, s, q, index, session, key, cp);
    if expected.Ok? && PinAnswer(s, entity).Ok? {
      var accepted := HmacAccepted(key, expected.value, q.sessions[index].hmac);
      var s1 := s.Note(Compared(HandleAt(q, index), use, guarded, entity.pin, accepted));
      PinAnswerReadsStore(s, s1, entity);
      PinMovesOnce(s1, entity, accepted);
    }
  }

  /** An authorization succeeds exactly when everything it has to show is shown. */
  lemma AuthorizedIsExact(w: World, s: Tpm, q: Request, index: nat, entity: Entity, cp: Bytes)
    requires index < |q.sessions|
    ensures Authorized(w, s, q, index, entity, cp).result.Ok? <==> Proven(w, s, q, index, entity, cp)
  {
    hide Protected, UsesAuthValue, NvAnswer, ByPassword, ByHmac, PolicyStands, PolicyBinds, SatisfiesPolicy,
         GivesPassword, GivesHmac, HmacKey;
    var h := q.sessions[index].handle;
    var isProtected := Protected(s, q, index, entity);
    PasswordIsExact(s, q, index, entity, isProtected, Password);
    if h in s.sessions {
      var session := s.sessions[h];
      var key := HmacKey(session, entity.name, entity.auth);
      HmacIsExact(w, s, q, index, entity, key, cp, session, Hmac, isProtected, isProtected);
      PasswordIsExact(s, q, index, entity, isProtected, PolicyPassword);
      PolicyIsExact(w, s, q, entity, cp, session, index + 1);
      HmacIsExact(w, s, q, index, PolicyEntity(entity, session), key, cp, session, PolicyHmac, isProtected,
                  isProtected && (session.policy.authValueNeeded || session.bindUsesLockout));
    }
  }

  // ---- The session attributes ----

  predicate Bit(q: Request, i: nat, bit: int)
    requires i < |q.sessions| && bit > 0
  {
    Has(q.sessions[i].attributes, bit)
  }

  /** What one session's attributes have to be by themselves. */
  predicate OwnAttributes(q: Request, i: nat)
    requires i < |q.sessions|
  {
    var any := Bit(q, i, DECRYPT) || Bit(q, i, ENCRYPT) || Bit(q, i, AUDIT);
    && (q.sessions[i].handle == RS_PW ==> !any)
    && (Bit(q, i, AUDIT_EXCLUSIVE) || Bit(q, i, AUDIT_RESET) ==> Bit(q, i, AUDIT))
    && (Bit(q, i, AUDIT) ==> i >= q.info.authHandles)
    && (i >= q.info.authHandles ==> any)
  }

  /** No session before `i` has the attribute. */
  predicate Free(q: Request, i: nat, bit: int)
    requires i <= |q.sessions| && bit > 0
  {
    forall j :: 0 <= j < i ==> !Bit(q, j, bit)
  }

  /** One session at most audits, one decrypts and one encrypts. */
  predicate Alone(q: Request, i: nat)
    requires i < |q.sessions|
  {
    && (Bit(q, i, AUDIT) ==> Free(q, i, AUDIT))
    && (Bit(q, i, DECRYPT) ==> Free(q, i, DECRYPT))
    && (Bit(q, i, ENCRYPT) ==> Free(q, i, ENCRYPT))
  }

  lemma FreeNext(q: Request, i: nat, bit: int)
    requires i < |q.sessions| && bit > 0
    ensures Free(q, i + 1, bit) <==> Free(q, i, bit) && !Bit(q, i, bit)
  {
  }

  lemma {:induction false} AttributesFrom(q: Request, i: nat, taken: Taken)
    requires i <= |q.sessions|
    requires taken == Taken(!Free(q, i, AUDIT), !Free(q, i, DECRYPT), !Free(q, i, ENCRYPT))
    ensures SessionAttributesAnswer(q, i, taken).Ok?
       <==> forall j :: i <= j < |q.sessions| ==> OwnAttributes(q, j) && Alone(q, j)
    decreases |q.sessions| - i
  {
    if i < |q.sessions| {
      FreeNext(q, i, AUDIT);
      FreeNext(q, i, DECRYPT);
      FreeNext(q, i, ENCRYPT);
      assert AttributesAllowed(q, i, taken) <==> OwnAttributes(q, i) && Alone(q, i) by {
        hide Has, Free;
      }
      hide Has, Free, OwnAttributes, Alone, AttributesAllowed;
      var a := q.sessions[i].attributes;
      AttributesFrom(q, i + 1, Taken(!Free(q, i + 1, AUDIT), !Free(q, i + 1, DECRYPT), !Free(q, i + 1, ENCRYPT)));
    }
  }

  /** The session area is accepted exactly when each session's attributes are sound by
    themselves and at most one session audits, one decrypts and one encrypts. */
  lemma SessionAttributesAreExact(q: Request)
    ensures SessionAttributesAnswer(q, 0, Taken(false, false, false)).Ok?
       <==> forall i :: 0 <= i < |q.sessions| ==> OwnAttributes(q, i) && Alone(q, i)
  {
    assert Free(q, 0, AUDIT) && Free(q, 0, DECRYPT) && Free(q, 0, ENCRYPT);
    hide OwnAttributes, Alone;
    AttributesFrom(q, 0, Taken(false, false, false));
  }

  // ---- Closing sessions ----

  lemma {:induction false} StaysClosed(w: World, s: Tpm, q: Request, i: nat, h: uint32)
    requires i <= |q.sessions| && !s.Open(h)
    ensures !AfterSessions(w, s, q, i).Open(h)
    decreases |q.sessions| - i
  {
    if i < |q.sessions| {
      StaysClosed(w, AfterSession(w, s, q, i), q, i + 1, h);
    }
  }

  /** A policy that is spent stays spent while the other sessions close. */
  lemma {:induction false} StaysSpent(w: World, s: Tpm, q: Request, i: nat, h: uint32, policy: PolicyState)
    requires i <= |q.sessions| && h in s.sessions && s.sessions[h].IsPolicy() && s.sessions[h].policy == policy
    requires w.digestSize(s.sessions[h].authHash).Some? && policy == EmptyPolicy(w.digestSize(s.sessions[h].authHash).value)
    ensures var t := AfterSessions(w, s, q, i); h in t.sessions ==> t.sessions[h].policy == policy
    decreases |q.sessions| - i
  {
    if i < |q.sessions| {
      hide EmptyPolicy;
      var next := AfterSession(w, s, q, i);
      if h in next.sessions {
        StaysSpent(w, next, q, i + 1, h, policy);
      } else {
        StaysGone(w, next, q, i + 1, h);
      }
    }
  }

  lemma {:induction false} StaysGone(w: World, s: Tpm, q: Request, i: nat, h: uint32)
    requires i <= |q.sessions| && h !in s.sessions
    ensures h !in AfterSessions(w, s, q, i).sessions
    decreases |q.sessions| - i
  {
    if i < |q.sessions| {
      StaysGone(w, AfterSession(w, s, q, i), q, i + 1, h);
    }
  }

  lemma {:induction false} SessionEnds(w: World, s: Tpm, q: Request, from: nat, i: nat)
    requires from <= i < |q.sessions| && q.sessions[i].handle != RS_PW
    ensures var t := AfterSessions(w, s, q, from);
            var h := q.sessions[i].handle;
            && (!Has(q.sessions[i].attributes, CONTINUE_SESSION) ==> !t.Open(h))
            && (i < q.info.authHandles && h in t.sessions && t.sessions[h].IsPolicy() && w.digestSize(t.sessions[h].authHash).Some? ==>
                  t.sessions[h].policy == EmptyPolicy(w.digestSize(t.sessions[h].authHash).value))
    decreases i - from
  {
    var next := AfterSession(w, s, q, from);
    var h := q.sessions[i].handle;
    hide EmptyPolicy, Has;
    if from < i {
      SessionEnds(w, next, q, from + 1, i);
    } else {
      if !next.Open(h) {
        StaysClosed(w, next, q, from + 1, h);
      }
      if h in next.sessions {
        KindStays(w, next, q, from + 1, h);
        if i < q.info.authHandles && next.sessions[h].IsPolicy() && w.digestSize(next.sessions[h].authHash).Some? {
          StaysSpent(w, next, q, from + 1, h, next.sessions[h].policy);
        }
      } else {
        StaysGone(w, next, q, from + 1, h);
      }
    }
  }

  lemma {:induction false} KindStays(w: World, s: Tpm, q: Request, i: nat, h: uint32)
    requires i <= |q.sessions| && h in s.sessions
    ensures var t := AfterSessions(w, s, q, i);
            h in t.sessions ==> t.sessions[h].kind == s.sessions[h].kind && t.sessions[h].authHash == s.sessions[h].authHash
    decreases |q.sessions| - i
  {
    if i < |q.sessions| {
      hide EmptyPolicy, Has;
      var next := AfterSession(w, s, q, i);
      if h in next.sessions {
        KindStays(w, next, q, i + 1, h);
      } else {
        StaysGone(w, next, q, i + 1, h);
      }
    }
  }

  /** After a command, a session it was not asked to keep is closed, and a policy that
    authorized a handle has to be satisfied again before it authorizes another. */
  lemma SessionsEnd(w: World, s: Tpm, q: Request, i: nat)
    requires i < |q.sessions| && q.sessions[i].handle != RS_PW
    ensures var t := AfterSessions(w, s, q, 0);
            var h := q.sessions[i].handle;
            && (!Has(q.sessions[i].attributes, CONTINUE_SESSION) ==> !t.Open(h))
            && (i < q.info.authHandles && h in t.sessions && t.sessions[h].IsPolicy() && w.digestSize(t.sessions[h].authHash).Some? ==>
                  t.sessions[h].policy == EmptyPolicy(w.digestSize(t.sessions[h].authHash).value))
  {
    SessionEnds(w, s, q, 0, i);
  }

  // ---- The gates ----

  /** What a command needs of the TPM before any session is looked at. */
  predicate Passes(w: World, s: Tpm, q: Request) {
    && (s.mode.started <==> q.code != CC_STARTUP)
    && (WritesNv(q) ==> s.mode.nvAvailable && !s.mode.nvWriteFailed)
    && (NeedsPresence(s, q) ==> s.mode.physicalPresence)
    && (w.takesNoParameters(q.code) ==> q.parameters == [])
    && (forall i :: 0 <= i < |q.handles| ==> w.handleAllowed(q.code, i, q.handles[i]))
    && ReadOnlyAnswer(w, Nullified(s, q), q).Ok?
  }

  lemma {:induction false} HandlesAreAllowed(w: World, q: Request, i: nat)
    requires i <= |q.handles|
    ensures HandlesAllowed(w, q, i).Ok? <==> forall j :: i <= j < |q.handles| ==> w.handleAllowed(q.code, j, q.handles[j])
    decreases |q.handles| - i
  {
    if i < |q.handles| {
      HandlesAreAllowed(w, q, i + 1);
    }
  }

  /** The gates pass exactly the commands the state allows; a command that needs NV
    storage never passes while it is off or a write has failed. */
  lemma GatesAreExact(w: World, s: Tpm, q: Request)
    ensures Gated(w, s, q).result.Ok? <==> Passes(w, s, q)
    ensures Gated(w, s, q).result.Ok? ==> Gated(w, s, q).tpm == Nullified(s, q)
  {
    HandlesAreAllowed(w, q, 0);
    hide ReadOnlyAnswer, HandlesAllowed;
  }

  // ---- The handle and session areas ----

  lemma {:induction false} NamesAreExact(w: World, s: Tpm, q: Request, i: nat)
    requires i <= |q.handles|
    ensures Names(w, s, q, i).Ok? <==> forall j :: i <= j < |q.handles| ==>
      HandlePresent(w, s, q.handles[j]) && w.available(s.store, q.handles[j]).Ok? && w.name(s.store, q.handles[j]).Ok?
    ensures Names(w, s, q, i).Ok? ==>
      && |Names(w, s, q, i).value| == |q.handles| - i
      && forall j :: i <= j < |q.handles| ==> Names(w, s, q, i).value[j - i] == w.name(s.store, q.handles[j]).value
    decreases |q.handles| - i
  {
    if i < |q.handles| {
      hide HandlePresent;
      NamesAreExact(w, s, q, i + 1);
    }
  }

  lemma {:induction false} SessionHandlesAreExact(s: Tpm, q: Request, i: nat)
    requires i <= |q.sessions|
    ensures SessionHandlesAnswer(s, q, i).Ok? <==> forall j :: i <= j < |q.sessions| ==>
      q.sessions[j].handle == RS_PW || (IsSessionHandle(q.sessions[j].handle) && q.sessions[j].handle in s.sessions)
    decreases |q.sessions| - i
  {
    if i < |q.sessions| {
      hide IsSessionHandle;
      SessionHandlesAreExact(s, q, i + 1);
    }
  }
}
