/** What it takes for a command to run, all checks together. */
module Admittance {
  import opened Prelude
  import opened Commands
  import opened State
  import opened Authorization
  import opened Audit
  import opened Pipeline
  import opened Frames
  import opened Judging
  import opened Meaning
  import opened LockoutBudget
  import opened BoundSessions

  // ---- Authorizations ----

  /** Handle `i` is there and its authorization shows everything it has to. */
  predicate ProvenAt(w: World, s: Tpm, q: Request, names: seq<Bytes>, i: nat) {
    && i < |q.sessions| && i < |q.handles|
    && EntityAt(w, s, q.handles[i]).Ok? && SessionHash(s, q, i).Ok?
    && var cp := CpHash(w, SessionHash(s, q, i).value, q.code, names, q.parameters);
       cp.Ok? && Proven(w, s, q, i, EntityAt(w, s, q.handles[i]).value, cp.value)
  }

  /** So is every handle from `i` on, each after those before it have moved their PIN counters. */
  predicate ProvenFrom(w: World, s: Tpm, q: Request, names: seq<Bytes>, i: nat)
    requires i <= q.info.authHandles
    decreases q.info.authHandles - i
  {
    i == q.info.authHandles
    || (ProvenAt(w, s, q, names, i) && ProvenFrom(w, AuthorizedAt(w, s, q, names, i).tpm, q, names, i + 1))
  }

  lemma AuthorizedAtIsExact(w: World, s: Tpm, q: Request, names: seq<Bytes>, i: nat)
    ensures AuthorizedAt(w, s, q, names, i).result.Ok? <==> ProvenAt(w, s, q, names, i)
  {
    hide EntityAt, SessionHash, CpHash, Authorized, Proven;
    if i < |q.sessions| && i < |q.handles| && EntityAt(w, s, q.handles[i]).Ok? && SessionHash(s, q, i).Ok? {
      var cp := CpHash(w, SessionHash(s, q, i).value, q.code, names, q.parameters);
      if cp.Ok? {
        AuthorizedIsExact(w, s, q, i, EntityAt(w, s, q.handles[i]).value, cp.value);
      }
    }
  }

  lemma {:induction false} AuthorizedFromIsExact(w: World, s: Tpm, q: Request, names: seq<Bytes>, i: nat)
    requires i <= q.info.authHandles
    ensures AuthorizedFrom(w, s, q, names, i).result.Ok? <==> ProvenFrom(w, s, q, names, i)
    decreases q.info.authHandles - i
  {
    if i < q.info.authHandles {
      hide AuthorizedAt, ProvenAt;
      AuthorizedAtIsExact(w, s, q, names, i);
      if ProvenAt(w, s, q, names, i) {
        AuthorizedFromIsExact(w, AuthorizedAt(w, s, q, names, i).tpm, q, names, i + 1);
      }
    }
  }

  // ---- The other sessions ----

  /** Every session from `i` on proves its key. */
  predicate ProvesFrom(w: World, s: Tpm, q: Request, names: seq<Bytes>, i: nat) {
    forall j :: i <= j < |q.sessions| ==> Proves(w, s, q, names, j)
  }

  lemma ProofsReadSessions(w: World, s: Tpm, t: Tpm, q: Request, names: seq<Bytes>, i: nat)
    requires t.sessions == s.sessions
    ensures ProvesFrom(w, t, q, names, i) == ProvesFrom(w, s, q, names, i)
  {
    hide KeyHmac;
    forall j | i <= j < |q.sessions| ensures Proves(w, t, q, names, j) == Proves(w, s, q, names, j) {
      if q.sessions[j].handle in s.sessions {
        KeyReadsSessions(w, s, t, q, names, j);
      }
    }
  }

  lemma {:induction false} ExtraSessionsAreExact(w: World, s: Tpm, q: Request, names: seq<Bytes>, i: nat)
    ensures ExtraSessions(w, s, q, names, i).result.Ok? <==> ProvesFrom(w, s, q, names, i)
    decreases |q.sessions| - i
  {
    if i < |q.sessions| {
      FirstExtraSession(w, s, q, names, i);
      hide ExtraSession, Proves, Tally;
      var one := ExtraSession(w, s, q, names, i);
      ProofsReadSessions(w, s, one.tpm, q, names, i + 1);
      assert ProvesFrom(w, s, q, names, i) <==> Proves(w, s, q, names, i) && ProvesFrom(w, s, q, names, i + 1);
      if one.result.Ok? {
        ExtraSessionsAreExact(w, one.tpm, q, names, i + 1);
      }
    }
  }

  /** The audit session, if there is one, is a loaded HMAC session, exclusive if it claims to be. */
  predicate AuditFits(s: Tpm, q: Request) {
    AuditHandle(q).Some? ==>
      var h := AuditHandle(q).value;
      h in s.sessions && s.sessions[h].kind == HmacSession && (AsksExclusive(q) ==> s.exclusive == h)
  }

  lemma AuditIsExact(s: Tpm, q: Request)
    ensures AuditSessionAnswer(s, q).Ok? <==> AuditFits(s, q)
  {
    hide FirstWith;
  }

  lemma FinalChecksAreExact(w: World, s: Tpm, q: Request, names: seq<Bytes>, auths: seq<Bytes>)
    ensures FinalChecks(w, s, q, names, auths).result.Ok?
       <==> ProvesFrom(w, s, q, names, q.info.authHandles) && AuditFits(s, q) && Decrypted(w, s, q, auths).Ok?
  {
    hide ExtraSessions, AuditSessionAnswer, ProvesFrom, AuditFits, FirstWith;
    ExtraSessionsAreExact(w, s, q, names, q.info.authHandles);
    ExtraSessionsFrame(w, s, q, names, q.info.authHandles);
    var t := ExtraSessions(w, s, q, names, q.info.authHandles).tpm;
    AuditIsExact(t, q);
    assert AuditFits(t, q) == AuditFits(s, q) by {
      AuditReadsSessions(s, t, q);
    }
    assert Decrypted(w, t, q, auths) == Decrypted(w, s, q, auths);
  }

  lemma AuditReadsSessions(s: Tpm, t: Tpm, q: Request)
    requires t.sessions == s.sessions && t.exclusive == s.exclusive
    ensures AuditFits(t, q) == AuditFits(s, q)
  {
  }

  // ---- All together ----

  function NamesHeld(w: World, s: Tpm, q: Request): seq<Bytes>
    requires forall i :: 0 <= i < |q.handles| ==> w.name(s.store, q.handles[i]).Ok?
  {
    seq(|q.handles|, i requires 0 <= i < |q.handles| => w.name(s.store, q.handles[i]).value)
  }

  /** The handles are present, available and named, the sessions loaded, and their attributes go together. */
  predicate InOrder(w: World, s: Tpm, q: Request) {
    && (forall i :: 0 <= i < |q.handles| ==>
         HandlePresent(w, s, q.handles[i]) && w.available(s.store, q.handles[i]).Ok? && w.name(s.store, q.handles[i]).Ok?)
    && (forall i :: 0 <= i < |q.sessions| ==>
         q.sessions[i].handle == RS_PW || (IsSessionHandle(q.sessions[i].handle) && q.sessions[i].handle in s.sessions))
    && (forall i :: 0 <= i < |q.sessions| ==> OwnAttributes(q, i) && Alone(q, i))
  }

  lemma ResolvedIsExact(w: World, s: Tpm, q: Request)
    ensures Resolved(w, s, q).Ok? <==> InOrder(w, s, q)
    ensures Resolved(w, s, q).Ok? ==> Resolved(w, s, q).value == NamesHeld(w, s, q)
  {
    hide Names, SessionHandlesAnswer, SessionAttributesAnswer, HandlePresent, IsSessionHandle, OwnAttributes, Alone;
    NamesAreExact(w, s, q, 0);
    SessionHandlesAreExact(s, q, 0);
    SessionAttributesAreExact(q);
    if Resolved(w, s, q).Ok? {
      var names := Resolved(w, s, q).value;
      forall i | 0 <= i < |names| ensures names[i] == NamesHeld(w, s, q)[i] {
        assert names[i - 0] == w.name(s.store, q.handles[i]).value;
      }
    }
  }

  /** Everything a command has to show before its action runs. */
  predicate MayRun(w: World, s: Tpm, q: Request) {
    var s1 := Nullified(s, q);
    && Passes(w, s, q) && InOrder(w, s1, q)
    && var names := NamesHeld(w, s1, q);
       && ProvenFrom(w, s1, q, names, 0)
       && ProvesFrom(w, s, q, names, q.info.authHandles)
       && AuditFits(s, q)
       && var authorized := AuthorizedFrom(w, s1, q, names, 0);
          authorized.result.Ok? && Decrypted(w, authorized.tpm, q, authorized.result.value).Ok?
  }

  /** A command gets to its action exactly when the TPM's state allows it, its handles and
    sessions are in order, every authorization shows what it has to, every other session
    proves its key, the audit session fits, and its first parameter decrypts. */
  lemma AdmittedIsExact(w: World, s: Tpm, q: Request)
    ensures Admitted(w, s, q).result.Ok? <==> MayRun(w, s, q)
  {
    hide Gated, Resolved, InOrder, Passes, AuthorizedFrom, ProvenFrom, FinalChecks, ProvesFrom, AuditFits, Decrypted, Nullified;
    GatesAreExact(w, s, q);
    var s1 := Gated(w, s, q).tpm;
    if Gated(w, s, q).result.Ok? {
      NullifiedKeepsSessions(s, q);
      ResolvedIsExact(w, s1, q);
      if Resolved(w, s1, q).Ok? {
        var names := Resolved(w, s1, q).value;
        AuthorizedFromIsExact(w, s1, q, names, 0);
        AuthorizedFromFrame(w, s1, q, names, 0);
        var authorized := AuthorizedFrom(w, s1, q, names, 0);
        if authorized.result.Ok? {
          FinalChecksAreExact(w, authorized.tpm, q, names, authorized.result.value);
          ProofsReadSessions(w, s, authorized.tpm, q, names, q.info.authHandles);
          AuditReadsSessions(s, authorized.tpm, q);
        }
      }
    }
  }

  lemma NullifiedKeepsSessions(s: Tpm, q: Request)
    ensures Nullified(s, q).sessions == s.sessions && Nullified(s, q).exclusive == s.exclusive
  {
  }
}
