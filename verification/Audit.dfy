/** The audit digests, the exclusive session, and closing sessions. */
module Audit {
  import opened Prelude
  import opened Commands
  import opened State
  import opened Authorization

  function AuditIndex(q: Request): (r: Option<nat>)
    ensures r.Some? ==> r.value < |q.sessions| && Has(q.sessions[r.value].attributes, AUDIT)
  {
    FirstWith(q.sessions, AUDIT, 0)
  }

  function AuditHandle(q: Request): Option<uint32> {
    var index := AuditIndex(q);
    if index.None? then None else Some(q.sessions[index.value].handle)
  }

  predicate AsksReset(q: Request) {
    AuditIndex(q).Some? && Has(q.sessions[AuditIndex(q).value].attributes, AUDIT_RESET)
  }

  predicate AsksExclusive(q: Request) {
    AuditIndex(q).Some? && Has(q.sessions[AuditIndex(q).value].attributes, AUDIT_EXCLUSIVE)
  }

  /** The audit session is an HMAC session, and holds the exclusive status if it claims it. */
  function AuditSessionAnswer(s: Tpm, q: Request): Result<()> {
    var index := AuditIndex(q);
    if index.None? then Ok(())
    else
      var h := q.sessions[index.value].handle;
      match SessionAt(s, h) case Err(e) => Err(e) case Ok(session) =>
      if session.kind != HmacSession then Err(TpmRc(RC_ATTRIBUTES, Nowhere).WithSession(index.value + 1))
      else if AsksExclusive(q) && s.exclusive != h then Fail(RC_EXCLUSIVE)
      else Ok(())
  }

  /** A digest of another size, the Empty Buffer above all, starts from zeros. */
  function ExtendAudit(w: World, alg: uint16, digest: Bytes, cp: Bytes, rp: Bytes): Result<Bytes> {
    if w.digestSize(alg).None? then Fail(RC_HASH)
    else
      var size := w.digestSize(alg).value;
      DigestOf(w, alg, (if |digest| == size then digest else Filled(0, size)) + cp + rp)
  }

  /** What one command adds to an audit digest. */
  function Extended(w: World, alg: uint16, digest: Bytes, code: uint32, names: seq<Bytes>,
                    parameters: Bytes, response: Bytes): Result<Bytes>
  {
    var cp :- CpHash(w, alg, code, names, parameters);
    var rp :- RpHash(w, alg, code, response);
    ExtendAudit(w, alg, digest, cp, rp)
  }

  /** The commands that never take the exclusive status away. */
  predicate KeepsExclusive(code: uint32) {
    RequiresNoSessions(code) || code == CC_READ_CLOCK
  }

  predicate CommandAuditApplies(s: Tpm, code: uint32) {
    if code == CC_SHUTDOWN || s.mode.failureMode || s.suppressed then false
    else code == CC_SET_COMMAND_CODE_AUDIT_STATUS || code in s.audit.commands
  }

  function AfterSessionAudit(w: World, s: Tpm, q: Request, names: seq<Bytes>, parameters: Bytes, response: Bytes): Step<()> {
    var index := AuditIndex(q);
    if index.None? || q.sessions[index.value].handle !in s.sessions then Step(s, Ok(()))
    else
      var h := q.sessions[index.value].handle;
      var session := s.sessions[h];
      var before := if AsksReset(q) || !session.isAudit then [] else session.auditDigest;
      match Extended(w, session.authHash, before, q.code, names, parameters, response)
      case Err(e) => Step(s, Err(e))
      case Ok(digest) =>
        Step(s.(sessions := s.sessions[h := session.(isAudit := true, auditDigest := digest)]), Ok(()))
  }

  function ExclusiveAfter(q: Request, before: uint32): uint32 {
    match AuditHandle(q)
    case Some(h) => h
    case None => if KeepsExclusive(q.code) then before else RH_UNASSIGNED
  }

  function Wrapped64(n: nat): uint64 {
    n % (U64_MAX + 1)
  }

  function AfterCommandAudit(w: World, s: Tpm, q: Request, names: seq<Bytes>, parameters: Bytes, response: Bytes): Step<()> {
    if !CommandAuditApplies(s, q.code) then Step(s, Ok(()))
    else match Extended(w, s.audit.alg, s.audit.digest, q.code, names, parameters, response)
      case Err(e) => Step(s, Err(e))
      case Ok(digest) =>
        var begins := Some(|s.audit.digest|) != w.digestSize(s.audit.alg);
        Step(s.(audit := s.audit.(
          counter := if begins then Wrapped64(s.audit.counter + 1) else s.audit.counter,
          digest := digest)), Ok(()))
  }

  function AfterAudit(w: World, s: Tpm, q: Request, names: seq<Bytes>, parameters: Bytes, response: Bytes): Step<()> {
    match AfterSessionAudit(w, s, q, names, parameters, response)
    case Step(s1, Err(e)) => Step(s1, Err(e))
    case Step(s1, Ok(_)) =>
      match AfterCommandAudit(w, s1.(exclusive := ExclusiveAfter(q, s1.exclusive)), q, names, parameters, response)
      case Step(s2, Err(e)) => Step(s2, Err(e))
      case Step(s2, Ok(_)) =>
        Step(s2.Note(Answered(q.code, AuditHandle(q), AsksReset(q), CommandAuditApplies(s1, q.code), names, parameters, response)),
             Ok(()))
  }

  method UpdateSessionAudit(w: World, tpm: TpmState, q: Request, names: seq<Bytes>, parameters: Bytes, response: Bytes)
    returns (r: Result<()>)
    modifies tpm`sessions
    ensures Step(tpm.Value(), r) == AfterSessionAudit(w, old(tpm.Value()), q, names, parameters, response)
  {
    hide Extended, FirstWith;
    var index := AuditIndex(q);
    if index.Some? && q.sessions[index.value].handle in tpm.sessions {
      var h := q.sessions[index.value].handle;
      var session := tpm.sessions[h];
      var before := session.auditDigest;
      if AsksReset(q) || !session.isAudit {
        before := [];
      }
      var digest :- Extended(w, session.authHash, before, q.code, names, parameters, response);
      tpm.sessions := tpm.sessions[h := session.(isAudit := true, auditDigest := digest)];
    }
    return Ok(());
  }

  method UpdateCommandAudit(w: World, tpm: TpmState, q: Request, names: seq<Bytes>, parameters: Bytes, response: Bytes)
    returns (r: Result<()>)
    modifies tpm`audit
    ensures Step(tpm.Value(), r) == AfterCommandAudit(w, old(tpm.Value()), q, names, parameters, response)
  {
    hide Extended;
    if CommandAuditApplies(tpm.Value(), q.code) {
      var digest :- Extended(w, tpm.audit.alg, tpm.audit.digest, q.code, names, parameters, response);
      if Some(|tpm.audit.digest|) != w.digestSize(tpm.audit.alg) {
        tpm.audit := tpm.audit.(counter := Wrapped64(tpm.audit.counter + 1));
      }
      tpm.audit := tpm.audit.(digest := digest);
    }
    return Ok(());
  }

  method UpdateAudit(w: World, tpm: TpmState, q: Request, names: seq<Bytes>, parameters: Bytes, response: Bytes)
    returns (r: Result<()>)
    modifies tpm
    ensures Step(tpm.Value(), r) == AfterAudit(w, old(tpm.Value()), q, names, parameters, response)
  {
    hide AfterSessionAudit, AfterCommandAudit, FirstWith, AsksReset;
    var _ :- UpdateSessionAudit(w, tpm, q, names, parameters, response);
    var applies := CommandAuditApplies(tpm.Value(), q.code);
    var index := AuditIndex(q);
    match index {
      case Some(i) =>
        tpm.exclusive := q.sessions[i].handle;
      case None =>
        if !KeepsExclusive(q.code) {
          tpm.exclusive := RH_UNASSIGNED;
        }
    }
    var _ :- UpdateCommandAudit(w, tpm, q, names, parameters, response);
    tpm.history := Then(tpm.history, Answered(q.code, AuditHandle(q), AsksReset(q), applies, names, parameters, response));
    return Ok(());
  }

  // ---- Closing sessions ----

  function Without<V>(m: map<uint32, V>, h: uint32): map<uint32, V> {
    m - {h}
  }

  function AfterClose(s: Tpm, h: uint32): Tpm {
    s.(sessions := Without(s.sessions, h), saved := Without(s.saved, h),
       exclusive := if s.exclusive == h then RH_UNASSIGNED else s.exclusive).Note(Closed(h))
  }

  /** What is left of a session that is kept: an audit session loses its binding,
    and a policy that authorized a handle has to be satisfied again. */
  function Kept(w: World, session: Session, audits: bool, authorized: bool): Session {
    var s1 := if audits then session.(bind := RH_NULL, bindName := []) else session;
    if authorized && s1.IsPolicy() && w.digestSize(s1.authHash).Some?
    then s1.(policy := EmptyPolicy(w.digestSize(s1.authHash).value))
    else s1
  }

  function AfterSession(w: World, s: Tpm, q: Request, i: nat): Tpm
    requires i < |q.sessions|
  {
    var input := q.sessions[i];
    if input.handle == RS_PW then s
    else if !Has(input.attributes, CONTINUE_SESSION) then AfterClose(s, input.handle)
    else if input.handle !in s.sessions then s
    else s.(sessions := s.sessions[input.handle :=
      Kept(w, s.sessions[input.handle], Has(input.attributes, AUDIT), i < q.info.authHandles)])
  }

  function AfterSessions(w: World, s: Tpm, q: Request, i: nat): Tpm
    requires i <= |q.sessions|
    decreases |q.sessions| - i
  {
    if i == |q.sessions| then s else AfterSessions(w, AfterSession(w, s, q, i), q, i + 1)
  }

  method CloseSession(w: World, tpm: TpmState, q: Request, i: nat)
    requires i < |q.sessions|
    modifies tpm
    ensures tpm.Value() == AfterSession(w, old(tpm.Value()), q, i)
  {
    var input := q.sessions[i];
    var h := input.handle;
    if h == RS_PW {
      return;
    }
    if !Has(input.attributes, CONTINUE_SESSION) {
      tpm.sessions, tpm.saved := Without(tpm.sessions, h), Without(tpm.saved, h);
      if tpm.exclusive == h {
        tpm.exclusive := RH_UNASSIGNED;
      }
      tpm.history := Then(tpm.history, Closed(h));
      return;
    }
    if h in tpm.sessions {
      tpm.sessions := tpm.sessions[h :=
        Kept(w, tpm.sessions[h], Has(input.attributes, AUDIT), i < q.info.authHandles)];
    }
  }

  method CloseSessions(w: World, tpm: TpmState, q: Request)
    modifies tpm
    ensures tpm.Value() == AfterSessions(w, old(tpm.Value()), q, 0)
  {
    hide AfterSession;
    for i := 0 to |q.sessions|
      invariant AfterSessions(w, old(tpm.Value()), q, 0) == AfterSessions(w, tpm.Value(), q, i)
    {
      CloseSession(w, tpm, q, i);
    }
  }

  // ---- The commands that read and set the command audit ----

  function Added(w: World, commands: seq<uint32>, codes: seq<uint32>): seq<uint32>
    decreases |codes|
  {
    if codes == [] then commands
    else if w.table(codes[0]).None? || codes[0] == CC_SHUTDOWN || codes[0] in commands then Added(w, commands, codes[1..])
    else Added(w, commands + [codes[0]], codes[1..])
  }

  function Retained(commands: seq<uint32>, code: uint32): seq<uint32> {
    if commands == [] then []
    else (if commands[0] == code then [] else [commands[0]]) + Retained(commands[1..], code)
  }

  function Removed(commands: seq<uint32>, codes: seq<uint32>): seq<uint32>
    decreases |codes|
  {
    if codes == [] then commands
    else if codes[0] == CC_SET_COMMAND_CODE_AUDIT_STATUS then Removed(commands, codes[1..])
    else Removed(Retained(commands, codes[0]), codes[1..])
  }

  function Inserted(sorted: seq<uint32>, code: uint32): seq<uint32> {
    if sorted == [] || code <= sorted[0] then [code] + sorted
    else [sorted[0]] + Inserted(sorted[1..], code)
  }

  function Ordered(commands: seq<uint32>): seq<uint32> {
    if commands == [] then [] else Inserted(Ordered(commands[1..]), commands[0])
  }

  const ALG_NULL := 0x10

  /** TPM2_SetCommandCodeAuditStatus once its parameters are read. */
  function AfterSetStatus(w: World, s: Tpm, alg: uint16, setList: seq<uint32>, clearList: seq<uint32>): Step<()> {
    if alg != ALG_NULL && w.digestSize(alg).None? then Step(s, Err(TpmRc(RC_HASH, Nowhere).WithParameter(1)))
    else if alg != ALG_NULL && alg != s.audit.alg then
      if setList != [] || clearList != [] then Step(s, Err(TpmRc(RC_VALUE, Nowhere).WithParameter(1)))
      else Step(s.(audit := s.audit.(alg := alg, digest := []), suppressed := true).Note(LogEnded), Ok(()))
    else
      Step(s.(audit := s.audit.(commands := Ordered(Removed(Added(w, s.audit.commands, setList), clearList)))), Ok(()))
  }

  method SetCommandCodeAuditStatus(w: World, tpm: TpmState, alg: uint16, setList: seq<uint32>, clearList: seq<uint32>)
    returns (r: Result<()>)
    modifies tpm
    ensures Step(tpm.Value(), r) == AfterSetStatus(w, old(tpm.Value()), alg, setList, clearList)
  {
    hide Ordered;
    if alg != ALG_NULL && w.digestSize(alg).None? {
      return Err(TpmRc(RC_HASH, Nowhere).WithParameter(1));
    }
    if alg != ALG_NULL && alg != tpm.audit.alg {
      if setList != [] || clearList != [] {
        return Err(TpmRc(RC_VALUE, Nowhere).WithParameter(1));
      }
      tpm.audit := tpm.audit.(alg := alg, digest := []);
      tpm.suppressed := true;
      tpm.history := Then(tpm.history, LogEnded);
      return Ok(());
    }

    var commands := tpm.audit.commands;
    for i := 0 to |setList|
      invariant Added(w, tpm.audit.commands, setList) == Added(w, commands, setList[i..])
    {
      var code := setList[i];
      assert setList[i..][1..] == setList[i + 1..];
      if w.table(code).None? || code == CC_SHUTDOWN {
        continue;
      }
      if code !in commands {
        commands := commands + [code];
      }
    }
    ghost var added := commands;
    for i := 0 to |clearList|
      invariant Removed(added, clearList) == Removed(commands, clearList[i..])
    {
      assert clearList[i..][1..] == clearList[i + 1..];
      if clearList[i] == CC_SET_COMMAND_CODE_AUDIT_STATUS {
        continue;
      }
      commands := Retained(commands, clearList[i]);
    }
    tpm.audit := tpm.audit.(commands := Ordered(commands));
    return Ok(());
  }

  // ---- What the list comes to ----

  predicate Ascending(commands: seq<uint32>) {
    forall i, j :: 0 <= i < j < |commands| ==> commands[i] < commands[j]
  }

  predicate Distinct(commands: seq<uint32>) {
    forall i, j :: 0 <= i < j < |commands| ==> commands[i] != commands[j]
  }

  lemma {:induction false} AddedMembers(w: World, commands: seq<uint32>, codes: seq<uint32>, code: uint32)
    ensures code in Added(w, commands, codes)
       <==> code in commands || (code in codes && w.table(code).Some? && code != CC_SHUTDOWN)
    ensures Distinct(commands) ==> Distinct(Added(w, commands, codes))
    decreases |codes|
  {
    if codes != [] {
      var skipped := w.table(codes[0]).None? || codes[0] == CC_SHUTDOWN || codes[0] in commands;
      AddedMembers(w, if skipped then commands else commands + [codes[0]], codes[1..], code);
      assert code in codes <==> code == codes[0] || code in codes[1..];
    }
  }

  lemma {:induction false} RetainedMembers(commands: seq<uint32>, removed: uint32, code: uint32)
    ensures code in Retained(commands, removed) <==> code in commands && code != removed
    decreases |commands|
  {
    if commands != [] {
      RetainedMembers(commands[1..], removed, code);
      assert code in commands <==> code == commands[0] || code in commands[1..];
    }
  }

  lemma {:induction false} RetainedDistinct(commands: seq<uint32>, removed: uint32)
    requires Distinct(commands)
    ensures Distinct(Retained(commands, removed))
    decreases |commands|
  {
    if commands != [] {
      var rest := Retained(commands[1..], removed);
      RetainedDistinct(commands[1..], removed);
      forall i | 0 <= i < |rest| ensures rest[i] in commands[1..] {
        RetainedMembers(commands[1..], removed, rest[i]);
      }
    }
  }

  lemma {:induction false} RemovedMembers(commands: seq<uint32>, codes: seq<uint32>, code: uint32)
    ensures code in Removed(commands, codes)
       <==> code in commands && (code in codes ==> code == CC_SET_COMMAND_CODE_AUDIT_STATUS)
    ensures Distinct(commands) ==> Distinct(Removed(commands, codes))
    decreases |codes|
  {
    if codes != [] {
      RetainedMembers(commands, codes[0], code);
      if Distinct(commands) {
        RetainedDistinct(commands, codes[0]);
      }
      var kept := codes[0] == CC_SET_COMMAND_CODE_AUDIT_STATUS;
      hide Distinct;
      RemovedMembers(if kept then commands else Retained(commands, codes[0]), codes[1..], code);
      assert code in codes <==> code == codes[0] || code in codes[1..];
    }
  }

  lemma {:induction false} InsertedMembers(sorted: seq<uint32>, code: uint32, c: uint32)
    ensures c in Inserted(sorted, code) <==> c == code || c in sorted
    decreases |sorted|
  {
    if sorted != [] && code > sorted[0] {
      InsertedMembers(sorted[1..], code, c);
      assert c in sorted <==> c == sorted[0] || c in sorted[1..];
    }
  }

  lemma {:induction false} InsertedAscends(sorted: seq<uint32>, code: uint32)
    requires Ascending(sorted) && code !in sorted
    ensures Ascending(Inserted(sorted, code))
    decreases |sorted|
  {
    if sorted != [] && code > sorted[0] {
      var rest := Inserted(sorted[1..], code);
      InsertedAscends(sorted[1..], code);
      forall i | 0 <= i < |rest| ensures sorted[0] < rest[i] {
        assert rest[i] in rest;
        InsertedMembers(sorted[1..], code, rest[i]);
      }
    }
  }

  lemma {:induction false} OrderedMembers(commands: seq<uint32>, c: uint32)
    ensures c in Ordered(commands) <==> c in commands
    decreases |commands|
  {
    if commands != [] {
      OrderedMembers(commands[1..], c);
      InsertedMembers(Ordered(commands[1..]), commands[0], c);
      assert c in commands <==> c == commands[0] || c in commands[1..];
    }
  }

  lemma {:induction false} OrderedAscends(commands: seq<uint32>)
    requires Distinct(commands)
    ensures Ascending(Ordered(commands))
    decreases |commands|
  {
    if commands != [] {
      OrderedAscends(commands[1..]);
      OrderedMembers(commands[1..], commands[0]);
      assert commands[0] !in commands[1..];
      hide Distinct, Ascending;
      InsertedAscends(Ordered(commands[1..]), commands[0]);
    }
  }

  /** The list after TPM2_SetCommandCodeAuditStatus: what was listed or is set and
    can be audited, less what is cleared, TPM2_SetCommandCodeAuditStatus never
    being cleared. It is in order and names each command once. */
  lemma AuditListIsOverride(w: World, commands: seq<uint32>, setList: seq<uint32>, clearList: seq<uint32>, code: uint32)
    ensures var list := Ordered(Removed(Added(w, commands, setList), clearList));
            && (code in list <==>
                 && (code in commands || (code in setList && w.table(code).Some? && code != CC_SHUTDOWN))
                 && (code in clearList ==> code == CC_SET_COMMAND_CODE_AUDIT_STATUS))
            && (Distinct(commands) ==> Ascending(list))
  {
    hide Distinct, Ascending, Ordered, Removed, Added;
    var added := Added(w, commands, setList);
    AddedMembers(w, commands, setList, code);
    RemovedMembers(added, clearList, code);
    OrderedMembers(Removed(added, clearList), code);
    if Distinct(commands) {
      OrderedAscends(Removed(added, clearList));
    }
  }
}
