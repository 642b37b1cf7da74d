/** The pipeline as it runs, one command at a time, on the state object. */
module Execute {
  import opened Prelude
  import opened Commands
  import opened CommandParse
  import opened State
  import opened Authorization
  import opened AuthorizationCheck
  import opened Audit
  import opened Actions
  import opened Pipeline

  method Load(tpm: TpmState, s: Tpm)
    modifies tpm
    ensures tpm.Value() == s
  {
    tpm.lockout, tpm.sessions, tpm.saved, tpm.store := s.lockout, s.sessions, s.saved, s.store;
    tpm.audit, tpm.exclusive, tpm.suppressed := s.audit, s.exclusive, s.suppressed;
    tpm.mode, tpm.clock, tpm.history := s.mode, s.clock, s.history;
  }

  method Gate(w: World, tpm: TpmState, q: Request) returns (r: Result<()>)
    modifies tpm`mode
    ensures Step(tpm.Value(), r) == Gated(w, old(tpm.Value()), q)
  {
    hide HandlesAllowed, ReadOnlyAnswer, NeedsPresence;
    if !tpm.mode.started && q.code != CC_STARTUP {
      return Fail(RC_INITIALIZE);
    }
    if (!tpm.mode.nvAvailable || tpm.mode.nvWriteFailed) && WritesNv(q) {
      return Fail(RC_NV_UNAVAILABLE);
    }
    if tpm.mode.started && q.code == CC_STARTUP {
      return Fail(RC_INITIALIZE);
    }
    if tpm.mode.started && q.code != CC_SHUTDOWN && tpm.mode.shutdownType != SU_NONE {
      tpm.mode := tpm.mode.(shutdownType := SU_NONE, orderly := false);
    }
    if NeedsPresence(tpm.Value(), q) && !tpm.mode.physicalPresence {
      return Fail(RC_PP);
    }
    if w.takesNoParameters(q.code) && q.parameters != [] {
      return Fail(RC_SIZE);
    }
    var _ :- CheckHandlesAllowed(w, q);
    return ReadOnlyAnswer(w, tpm.Value(), q);
  }

  method CheckHandlesAllowed(w: World, q: Request) returns (r: Result<()>)
    ensures r == HandlesAllowed(w, q, 0)
  {
    for i := 0 to |q.handles|
      invariant HandlesAllowed(w, q, 0) == HandlesAllowed(w, q, i)
    {
      if !w.handleAllowed(q.code, i, q.handles[i]) {
        return Err(TpmRc(RC_VALUE, Nowhere).WithHandle(i + 1));
      }
    }
    return Ok(());
  }

  method ResolveNames(w: World, tpm: TpmState, q: Request) returns (r: Result<seq<Bytes>>)
    ensures r == Names(w, tpm.Value(), q, 0)
  {
    hide HandlePresent;
    var names: seq<Bytes> := [];
    ghost var s := tpm.Value();
    FollowingNothing([], Names(w, s, q, 0));
    for i := 0 to |q.handles|
      invariant Names(w, s, q, 0) == Following(names, Names(w, s, q, i))
    {
      var h := q.handles[i];
      if !HandlePresent(w, tpm.Value(), h) {
        return Fail(RC_REFERENCE_H0 + i);
      }
      var available := w.available(tpm.store, h);
      if available.Err? {
        return Err(available.error.WithHandle(i + 1));
      }
      var name := w.name(tpm.store, h);
      if name.Err? {
        return Err(name.error.WithHandle(i + 1));
      }
      assert Names(w, s, q, i) == Following([name.value], Names(w, s, q, i + 1));
      FollowingOne(names, name.value, Names(w, s, q, i + 1));
      names := names + [name.value];
    }
    FollowingNothing(names, Ok([]));
    return Ok(names);
  }

  method CheckSessionHandles(tpm: TpmState, q: Request) returns (r: Result<()>)
    ensures r == SessionHandlesAnswer(tpm.Value(), q, 0)
  {
    for i := 0 to |q.sessions|
      invariant SessionHandlesAnswer(tpm.Value(), q, 0) == SessionHandlesAnswer(tpm.Value(), q, i)
    {
      var h := q.sessions[i].handle;
      if h == RS_PW {
        continue;
      }
      if !IsSessionHandle(h) {
        return Err(TpmRc(RC_HANDLE, Nowhere).WithSession(i + 1));
      }
      if h !in tpm.sessions {
        return Fail(RC_REFERENCE_S0 + i);
      }
    }
    return Ok(());
  }

  method CheckSessionAttributes(q: Request) returns (r: Result<()>)
    ensures r == SessionAttributesAnswer(q, 0, Taken(false, false, false))
  {
    hide Has;
    var audit: Option<nat>, decrypt: Option<nat>, encrypt: Option<nat> := None, None, None;
    for i := 0 to |q.sessions|
      invariant SessionAttributesAnswer(q, 0, Taken(false, false, false))
             == SessionAttributesAnswer(q, i, Taken(audit.Some?, decrypt.Some?, encrypt.Some?))
    {
      var a := q.sessions[i].attributes;
      var refused := Err(TpmRc(RC_ATTRIBUTES, Nowhere).WithSession(i + 1));
      if q.sessions[i].handle == RS_PW && HasAny(a) {
        return refused;
      }
      if !Has(a, AUDIT) && (Has(a, AUDIT_EXCLUSIVE) || Has(a, AUDIT_RESET)) {
        return refused;
      }
      if Has(a, AUDIT) {
        if audit.Some? || i < q.info.authHandles {
          return refused;
        }
        audit := Some(i);
      }
      if Has(a, DECRYPT) {
        if decrypt.Some? {
          return refused;
        }
        decrypt := Some(i);
      }
      if Has(a, ENCRYPT) {
        if encrypt.Some? {
          return refused;
        }
        encrypt := Some(i);
      }
      if i >= q.info.authHandles && !HasAny(a) {
        return refused;
      }
    }
    return Ok(());
  }

  method AuthorizeHandle(w: World, tpm: TpmState, q: Request, names: seq<Bytes>, i: nat) returns (r: Result<Bytes>)
    modifies tpm
    ensures Step(tpm.Value(), r) == AuthorizedAt(w, old(tpm.Value()), q, names, i)
  {
    hide Authorized, EntityAt, CpHash, SessionHash;
    if i >= |q.sessions| {
      return Err(TpmRc(RC_AUTH_MISSING, Nowhere).WithSession(i + 1));
    }
    if i >= |q.handles| {
      return Fail(RC_VALUE);
    }
    var entity := EntityAt(w, tpm.Value(), q.handles[i]);
    if entity.Err? {
      return Err(entity.error.WithHandle(i + 1));
    }
    var alg :- SessionHash(tpm.Value(), q, i);
    var cp :- CpHash(w, alg, q.code, names, q.parameters);
    var _ :- CheckAuthorization(w, tpm, q, i, entity.value, cp);
    return Ok(entity.value.auth);
  }

  /** `auths` gathered so far, in front of what the rest of the loop gives. */
  function Gathered(auths: seq<Bytes>, rest: Step<seq<Bytes>>): Step<seq<Bytes>> {
    Step(rest.tpm, Following(auths, rest.result))
  }

  lemma AuthorizedStep(w: World, s: Tpm, q: Request, names: seq<Bytes>, i: nat)
    requires i < q.info.authHandles
    ensures AuthorizedAt(w, s, q, names, i).result.Err? ==>
      && AuthorizedFrom(w, s, q, names, i).tpm == AuthorizedAt(w, s, q, names, i).tpm
      && AuthorizedFrom(w, s, q, names, i).result == Err(AuthorizedAt(w, s, q, names, i).result.error)
    ensures AuthorizedAt(w, s, q, names, i).result.Ok? ==>
      AuthorizedFrom(w, s, q, names, i)
      == Gathered([AuthorizedAt(w, s, q, names, i).result.value],
                  AuthorizedFrom(w, AuthorizedAt(w, s, q, names, i).tpm, q, names, i + 1))
  {
    hide AuthorizedAt;
  }

  method AuthorizeHandles(w: World, tpm: TpmState, q: Request, names: seq<Bytes>) returns (r: Result<seq<Bytes>>)
    modifies tpm
    ensures Step(tpm.Value(), r) == AuthorizedFrom(w, old(tpm.Value()), q, names, 0)
  {
    var auths: seq<Bytes> := [];
    ghost var whole := AuthorizedFrom(w, tpm.Value(), q, names, 0);
    FollowingNothing([], whole.result);
    for i := 0 to q.info.authHandles
      invariant whole == Gathered(auths, AuthorizedFrom(w, tpm.Value(), q, names, i))
    {
      hide AuthorizedAt, AuthorizedFrom;
      AuthorizedStep(w, tpm.Value(), q, names, i);
      var auth :- AuthorizeHandle(w, tpm, q, names, i);
      FollowingOne(auths, auth, AuthorizedFrom(w, tpm.Value(), q, names, i + 1).result);
      auths := auths + [auth];
    }
    FollowingNothing(auths, Ok([]));
    return Ok(auths);
  }

  method CheckExtraSession(w: World, tpm: TpmState, q: Request, names: seq<Bytes>, i: nat) returns (r: Result<()>)
    requires i < |q.sessions|
    modifies tpm`history
    ensures Step(tpm.Value(), r) == ExtraSession(w, old(tpm.Value()), q, names, i)
  {
    hide KeyHmac;
    var input := q.sessions[i];
    var session :- SessionAt(tpm.Value(), input.handle);
    if session.sessionKey == [] && input.hmac == [] {
      return Ok(());
    }
    var expected :- KeyHmac(w, tpm.Value(), q, names, i);
    tpm.history := Then(tpm.history, Compared(RH_NULL, KeyOnly, session.bindUsesLockout, None, expected == input.hmac));
    if expected != input.hmac {
      return Err(TpmRc(RC_AUTH_FAIL, Nowhere).WithSession(i + 1));
    }
    return Ok(());
  }

  method CheckExtraSessions(w: World, tpm: TpmState, q: Request, names: seq<Bytes>) returns (r: Result<()>)
    modifies tpm`history
    ensures Step(tpm.Value(), r) == ExtraSessions(w, old(tpm.Value()), q, names, q.info.authHandles)
  {
    hide ExtraSession;
    var i := q.info.authHandles;
    while i < |q.sessions|
      invariant ExtraSessions(w, old(tpm.Value()), q, names, q.info.authHandles) == ExtraSessions(w, tpm.Value(), q, names, i)
    {
      var _ :- CheckExtraSession(w, tpm, q, names, i);
      i := i + 1;
    }
    return Ok(());
  }

  method Admit(w: World, tpm: TpmState, q: Request) returns (r: Result<Admission>)
    modifies tpm
    ensures Step(tpm.Value(), r) == Admitted(w, old(tpm.Value()), q)
  {
    hide Gated, Names, SessionHandlesAnswer, SessionAttributesAnswer, AuthorizedFrom,
         ExtraSessions, AuditSessionAnswer, Decrypted;
    var _ :- Gate(w, tpm, q);
    var names :- ResolveNames(w, tpm, q);
    var _ :- CheckSessionHandles(tpm, q);
    var _ :- CheckSessionAttributes(q);
    var auths :- AuthorizeHandles(w, tpm, q, names);
    var _ :- CheckExtraSessions(w, tpm, q, names);
    var _ :- AuditSessionAnswer(tpm.Value(), q);
    var parameters :- Decrypted(w, tpm.Value(), q, auths);
    return Ok(Admission(names, auths, parameters));
  }

  method RollNonce(w: World, tpm: TpmState, q: Request, i: nat) returns (r: Result<()>)
    requires i < |q.sessions|
    modifies tpm
    ensures Step(tpm.Value(), r) == RolledAt(w, old(tpm.Value()), q, i)
  {
    var h := q.sessions[i].handle;
    if h == RS_PW {
      return Ok(());
    }
    if h !in tpm.sessions {
      // the command may have closed the session it was given
      return Ok(());
    }
    var drawn := w.random(tpm.store, |tpm.sessions[h].nonceTpm|);
    tpm.store := tpm.store.(rest := drawn.0.rest);
    var nonce :- drawn.1;
    tpm.sessions := tpm.sessions[h := tpm.sessions[h].(
      nonceTpm := nonce, nonceCaller := q.sessions[i].nonceCaller)];
    return Ok(());
  }

  method RollNonces(w: World, tpm: TpmState, q: Request) returns (r: Result<()>)
    modifies tpm
    ensures Step(tpm.Value(), r) == RolledFrom(w, old(tpm.Value()), q, 0)
  {
    hide RolledAt;
    for i := 0 to |q.sessions|
      invariant RolledFrom(w, old(tpm.Value()), q, 0) == RolledFrom(w, tpm.Value(), q, i)
    {
      var _ :- RollNonce(w, tpm, q, i);
    }
    return Ok(());
  }

  method RunAndAccount(w: World, tpm: TpmState, q: Request, a: Admission) returns (r: Result<Response>)
    modifies tpm
    ensures Step(tpm.Value(), r) == Accounted(w, old(tpm.Value()), q, a)
  {
    hide RunCommand, RolledFrom, Encrypted, AfterAudit;
    tpm.suppressed := false;
    var ran := RunCommand(w, tpm.Value(), q.(parameters := a.parameters));
    Load(tpm, ran.tpm);
    var response :- ran.result;
    if ran.consumed < |a.parameters| {
      return Fail(RC_SIZE);
    }
    var _ :- RollNonces(w, tpm, q);
    var parameters :- Encrypted(w, tpm.Value(), q, response.parameters, a.auths);
    var _ :- UpdateAudit(w, tpm, q, a.names, q.parameters, parameters);
    return Ok(Response(response.handle, parameters));
  }

  method Complete(w: World, tpm: TpmState, q: Request, a: Admission) returns (r: Result<Reply>)
    modifies tpm
    ensures Step(tpm.Value(), r) == Completed(w, old(tpm.Value()), q, a)
  {
    hide Accounted, AfterSessions, ResponseAttributes, Flushed;
    var response :- RunAndAccount(w, tpm, q, a);
    var _ :- ResponseAnswer(w, tpm.Value(), q);
    var attributes := ResponseAttributes(tpm.Value(), q);
    CloseSessions(w, tpm, q);
    Load(tpm, Flushed(w, tpm.Value(), q));
    return Ok(Reply(response.handle, response.parameters, attributes));
  }

  method Execute(w: World, tpm: TpmState, buf: Bytes, locality: nat) returns (r: Result<Reply>)
    modifies tpm
    ensures Step(tpm.Value(), r) == Executed(w, old(tpm.Value()), buf, locality)
  {
    hide HeaderOf, Parsed, Admitted, Completed;
    if tpm.mode.failureMode {
      var header :- ParseHeader(buf);
      if !AllowedInFailureMode(header.code) || header.tag != ST_NO_SESSIONS {
        return Fail(RC_FAILURE);
      }
    }
    var q :- Parse(w.table, buf, locality);
    var admission :- Admit(w, tpm, q);
    r := Complete(w, tpm, q, admission);
  }
}
