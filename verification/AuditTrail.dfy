/** What the audit digests, the exclusive status and the audit counter say about a run. */
module AuditTrail {
  import opened Prelude
  import opened Commands
  import opened State
  import opened Authorization
  import opened Audit
  import opened Frames

  /** One audited command and its response. */
  datatype Entry = Entry(code: uint32, names: seq<Bytes>, parameters: Bytes, response: Bytes)

  function EntryOf(e: Event): Entry
    requires e.Answered?
  {
    Entry(e.code, e.names, e.parameters, e.response)
  }

  // ---- Reading a history ----

  /** What session `h` audited since it began or was last reset; nothing if it has not audited. */
  function SessionTrail(history: History, h: uint32): seq<Entry> {
    match history
    case Beginning => []
    case Then(past, e) =>
      if e == Opened(h) || e == Closed(h) then []
      else if e.Answered? && e.audit == Some(h) then
        if e.reset then [EntryOf(e)] else SessionTrail(past, h) + [EntryOf(e)]
      else SessionTrail(past, h)
  }

  /** `h` audited some command, was not closed since, and every command that
    succeeded since was one that keeps the exclusive status, without an audit session. */
  predicate Uninterrupted(history: History, h: uint32) {
    match history
    case Beginning => false
    case Then(past, e) =>
      if e == Closed(h) then false
      else if !e.Answered? then Uninterrupted(past, h)
      else e.audit == Some(h) || (e.audit == None && KeepsExclusive(e.code) && Uninterrupted(past, h))
  }

  /** The commands audited since the command audit log began. */
  function LogTrail(history: History): seq<Entry> {
    match history
    case Beginning => []
    case Then(past, e) =>
      if e == LogEnded then []
      else if e.Answered? && e.logged then LogTrail(past) + [EntryOf(e)]
      else LogTrail(past)
  }

  /** How many logs began since the counter was last cleared. */
  function LogsBegun(history: History): nat {
    match history
    case Beginning => 0
    case Then(past, e) =>
      if e == CounterCleared then 0
      else if e.Answered? && e.logged && LogTrail(past) == [] then LogsBegun(past) + 1
      else LogsBegun(past)
  }

  /** What the counter started from, unless it was cleared since. */
  function CounterBase(history: History, start: uint64): uint64 {
    match history
    case Beginning => start
    case Then(past, e) => if e == CounterCleared then 0 else CounterBase(past, start)
  }

  // ---- The digest a trail comes to ----

  /** auditDigest := H(auditDigest || cpHash || rpHash) over the trail, from the Zero Digest. */
  function Chain(w: World, alg: uint16, trail: seq<Entry>): (d: Bytes)
    requires Lawful(w) && w.digestSize(alg).Some?
    ensures |d| == w.digestSize(alg).value
    decreases |trail|
  {
    if trail == [] then Filled(0, w.digestSize(alg).value)
    else
      var last := trail[|trail| - 1];
      w.digest(alg, Chain(w, alg, trail[..|trail| - 1])
        + CpHash(w, alg, last.code, last.names, last.parameters).value
        + RpHash(w, alg, last.code, last.response).value)
  }

  /** The register for a trail: the Empty Buffer until something is audited. */
  function Register(w: World, alg: uint16, trail: seq<Entry>): Bytes
    requires Lawful(w) && w.digestSize(alg).Some?
  {
    if trail == [] then [] else Chain(w, alg, trail)
  }

  lemma ExtendedIsChain(w: World, alg: uint16, trail: seq<Entry>, e: Entry)
    requires Lawful(w) && w.digestSize(alg).Some?
    ensures Extended(w, alg, Register(w, alg, trail), e.code, e.names, e.parameters, e.response)
         == Ok(Register(w, alg, trail + [e]))
  {
    var whole := trail + [e];
    assert whole[..|whole| - 1] == trail && whole[|whole| - 1] == e;
    hide Joined;
    assert Extended(w, alg, Register(w, alg, trail), e.code, e.names, e.parameters, e.response).Ok?;
    assert Chain(w, alg, []) == Filled(0, w.digestSize(alg).value);
  }

  // ---- The invariant ----

  /** Where a history begins: what the counter was, and whether the exclusive status is
    followed from there on. A TPM Restart breaks off following it. */
  datatype Origin = Origin(counter: uint64, exclusive: bool)

  function Here(s: Tpm): Origin {
    Origin(s.audit.counter, true)
  }

  /** An open session that audits, in memory or put away. */
  predicate OpenAudit(s: Tpm, h: uint32) {
    if h in s.sessions then s.sessions[h].isAudit else h in s.saved && s.saved[h].isAudit
  }

  /** The session audits what its history says, and its register is the fold of it. */
  ghost predicate SessionSound(w: World, history: History, h: uint32, session: Session)
    requires Lawful(w)
  {
    && IsSessionHandle(h)
    && w.digestSize(session.authHash).Some?
    && session.isAudit == (SessionTrail(history, h) != [])
    && (session.isAudit ==> session.auditDigest == Register(w, session.authHash, SessionTrail(history, h)))
  }

  ghost predicate SessionsSound(w: World, s: Tpm)
    requires Lawful(w)
  {
    && s.sessions.Keys !! s.saved.Keys
    && (forall h :: h in s.sessions ==> SessionSound(w, s.history, h, s.sessions[h]))
    && (forall h :: h in s.saved ==> SessionSound(w, s.history, h, s.saved[h]))
  }

  ghost predicate LogSound(w: World, s: Tpm, start: Origin)
    requires Lawful(w)
  {
    && w.digestSize(s.audit.alg).Some?
    && s.audit.digest == Register(w, s.audit.alg, LogTrail(s.history))
    && s.audit.counter == Wrapped64(CounterBase(s.history, start.counter) + LogsBegun(s.history))
  }

  /** The exclusive status belongs to exactly the session nothing has interrupted, and that session is open. */
  ghost predicate ExclusiveSound(s: Tpm) {
    && (forall h: uint32 :: h != RH_UNASSIGNED ==> (s.exclusive == h <==> Uninterrupted(s.history, h)))
    && (s.exclusive != RH_UNASSIGNED ==> OpenAudit(s, s.exclusive))
  }

  ghost predicate Sound(w: World, s: Tpm, start: Origin)
    requires Lawful(w)
  {
    SessionsSound(w, s) && LogSound(w, s, start) && (start.exclusive ==> ExclusiveSound(s))
  }

  /** A TPM that has just gone through a TPM Reset is sound. */
  lemma ResetIsSound(w: World, s: Tpm)
    requires Lawful(w) && w.digestSize(s.audit.alg).Some?
    requires s.sessions == map[] && s.saved == map[] && s.exclusive == RH_UNASSIGNED
    requires s.audit.digest == [] && s.history == Beginning
    ensures Sound(w, s, Here(s))
  {
  }

  // ---- Comparisons do not matter to it ----

  lemma {:induction false} TrailsOfRecords(history: History, h: uint32, start: uint64)
    ensures SessionTrail(history, h) == SessionTrail(Records(history), h)
    ensures Uninterrupted(history, h) == Uninterrupted(Records(history), h)
    ensures LogTrail(history) == LogTrail(Records(history))
    ensures LogsBegun(history) == LogsBegun(Records(history))
    ensures CounterBase(history, start) == CounterBase(Records(history), start)
  {
    if history.Then? {
      TrailsOfRecords(history.past, h, start);
    }
  }

  predicate SameRegister(a: Session, b: Session) {
    a.authHash == b.authHash && a.isAudit == b.isAudit && a.auditDigest == b.auditDigest
  }

  /** The same sessions, with what they audited. */
  ghost predicate SameRegisters(a: map<uint32, Session>, b: map<uint32, Session>) {
    a.Keys == b.Keys && forall h :: h in a ==> SameRegister(a[h], b[h])
  }

  /** Two states that agree on the audit, and on all of their history but comparisons. */
  ghost predicate SameAudit(s: Tpm, t: Tpm) {
    && SameRegisters(s.sessions, t.sessions) && t.saved == s.saved
    && t.audit == s.audit && t.exclusive == s.exclusive
    && Records(t.history) == Records(s.history)
  }

  lemma SameTrails(s: Tpm, t: Tpm, h: uint32, start: uint64)
    requires Records(t.history) == Records(s.history)
    ensures SessionTrail(t.history, h) == SessionTrail(s.history, h)
    ensures Uninterrupted(t.history, h) == Uninterrupted(s.history, h)
    ensures LogTrail(t.history) == LogTrail(s.history)
    ensures LogsBegun(t.history) == LogsBegun(s.history)
    ensures CounterBase(t.history, start) == CounterBase(s.history, start)
  {
    TrailsOfRecords(s.history, h, start);
    TrailsOfRecords(t.history, h, start);
  }

  lemma SameSessionSound(w: World, s: Tpm, t: Tpm, h: uint32, a: Session, b: Session)
    requires Lawful(w) && Records(t.history) == Records(s.history) && SameRegister(a, b)
    requires SessionSound(w, s.history, h, a)
    ensures SessionSound(w, t.history, h, b)
  {
    SameTrails(s, t, h, 0);
    hide Register, SessionTrail;
  }

  lemma SameAuditKeepsSessions(w: World, s: Tpm, t: Tpm)
    requires Lawful(w) && SessionsSound(w, s) && SameAudit(s, t)
    ensures SessionsSound(w, t)
  {
    hide SessionSound, SameRegister;
    forall h | h in t.sessions ensures SessionSound(w, t.history, h, t.sessions[h]) {
      SameSessionSound(w, s, t, h, s.sessions[h], t.sessions[h]);
    }
    forall h | h in t.saved ensures SessionSound(w, t.history, h, t.saved[h]) {
      assert SameRegister(s.saved[h], s.saved[h]) by { ReflexiveRegister(s.saved[h]); }
      SameSessionSound(w, s, t, h, s.saved[h], t.saved[h]);
    }
  }

  lemma ReflexiveRegister(a: Session)
    ensures SameRegister(a, a)
  {
  }

  lemma SameAuditKeepsExclusive(s: Tpm, t: Tpm)
    requires ExclusiveSound(s) && SameAudit(s, t)
    ensures ExclusiveSound(t)
  {
    hide Uninterrupted, Records;
    forall h: uint32 ensures Uninterrupted(t.history, h) == Uninterrupted(s.history, h) {
      SameTrails(s, t, h, 0);
    }
    if t.exclusive != RH_UNASSIGNED && t.exclusive in s.sessions {
      assert SameRegister(s.sessions[t.exclusive], t.sessions[t.exclusive]);
    }
  }

  lemma SameAuditKeepsSound(w: World, s: Tpm, t: Tpm, start: Origin)
    requires Lawful(w) && Sound(w, s, start) && SameAudit(s, t)
    ensures Sound(w, t, start)
  {
    SameTrails(s, t, 0, start.counter);
    hide SessionsSound, ExclusiveSound, Records, Register, LogTrail, LogsBegun, CounterBase, Wrapped64;
    SameAuditKeepsSessions(w, s, t);
    if start.exclusive {
      SameAuditKeepsExclusive(s, t);
    }
  }
}
