/** Sessions that authorize no handle. The key of a bound session carries the
  authValue of the entity it was bound to, and is compared with no look at the
  lockout: exactly when that happens, and what the budget is then worth. */
module BoundSessions {
  import opened Prelude
  import opened Commands
  import opened CommandParse
  import opened State
  import opened Authorization
  import opened Audit
  import opened Actions
  import opened Pipeline
  import opened Frames
  import opened Judging
  import opened Recovery
  import opened LockoutBudget

  // ---- One request ----

  /** Session `i` is loaded, is bound to an entity the lockout protects, and has a key or an HMAC to compare. */
  predicate Exposed(s: Tpm, q: Request, i: nat)
    requires i < |q.sessions|
  {
    var h := q.sessions[i].handle;
    h in s.sessions && s.sessions[h].bindUsesLockout && (s.sessions[h].sessionKey != [] || q.sessions[i].hmac != [])
  }

  /** Session `i` proves that its caller holds the session key. */
  predicate Proves(w: World, s: Tpm, q: Request, names: seq<Bytes>, i: nat)
    requires i < |q.sessions|
  {
    var h := q.sessions[i].handle;
    && h in s.sessions
    && ((s.sessions[h].sessionKey == [] && q.sessions[i].hmac == []) || KeyHmac(w, s, q, names, i) == Ok(q.sessions[i].hmac))
  }

  /** Session `i` puts a protected value to use: it is exposed, and those from `from` to it prove their keys. */
  predicate ExposesAt(w: World, s: Tpm, q: Request, names: seq<Bytes>, from: nat, i: nat) {
    && from <= i < |q.sessions| && Exposed(s, q, i) && KeyHmac(w, s, q, names, i).Ok?
    && forall j :: from <= j < i ==> Proves(w, s, q, names, j)
  }

  /** And it does so with the wrong HMAC. */
  predicate MissesAt(w: World, s: Tpm, q: Request, names: seq<Bytes>, from: nat, i: nat) {
    ExposesAt(w, s, q, names, from, i) && KeyHmac(w, s, q, names, i).value != q.sessions[i].hmac
  }

  lemma KeyReadsSessions(w: World, s: Tpm, t: Tpm, q: Request, names: seq<Bytes>, i: nat)
    requires t.sessions == s.sessions && i < |q.sessions| && q.sessions[i].handle in s.sessions
    ensures KeyHmac(w, t, q, names, i) == KeyHmac(w, s, q, names, i)
  {
    hide FirstWith, CpHash, AuthHmac;
  }

  lemma ExposureReadsSessions(w: World, s: Tpm, t: Tpm, q: Request, names: seq<Bytes>, from: nat, i: nat)
    requires t.sessions == s.sessions
    ensures ExposesAt(w, t, q, names, from, i) == ExposesAt(w, s, q, names, from, i)
    ensures MissesAt(w, t, q, names, from, i) == MissesAt(w, s, q, names, from, i)
  {
    hide KeyHmac;
    forall j: nat | j < |q.sessions| && q.sessions[j].handle in s.sessions
      ensures KeyHmac(w, t, q, names, j) == KeyHmac(w, s, q, names, j)
    {
      KeyReadsSessions(w, s, t, q, names, j);
    }
    assert forall j: nat | j < |q.sessions| :: Proves(w, t, q, names, j) == Proves(w, s, q, names, j);
  }

  /** Some session from `from` on exposes a protected value; some does so with the wrong HMAC. */
  ghost predicate ExposesFrom(w: World, s: Tpm, q: Request, names: seq<Bytes>, from: nat) {
    exists i: nat :: ExposesAt(w, s, q, names, from, i)
  }

  ghost predicate MissesFrom(w: World, s: Tpm, q: Request, names: seq<Bytes>, from: nat) {
    exists i: nat :: MissesAt(w, s, q, names, from, i)
  }

  lemma ExposuresReadSessions(w: World, s: Tpm, t: Tpm, q: Request, names: seq<Bytes>, from: nat)
    requires t.sessions == s.sessions
    ensures ExposesFrom(w, t, q, names, from) == ExposesFrom(w, s, q, names, from)
    ensures MissesFrom(w, t, q, names, from) == MissesFrom(w, s, q, names, from)
  {
    forall i: nat
      ensures ExposesAt(w, t, q, names, from, i) == ExposesAt(w, s, q, names, from, i)
      ensures MissesAt(w, t, q, names, from, i) == MissesAt(w, s, q, names, from, i)
    {
      ExposureReadsSessions(w, s, t, q, names, from, i);
    }
    hide ExposesAt, MissesAt;
  }

  lemma FirstExtraSession(w: World, s: Tpm, q: Request, names: seq<Bytes>, i: nat)
    requires i < |q.sessions|
    ensures var t := ExtraSession(w, s, q, names, i);
            && t.tpm.sessions == s.sessions
            && (t.result.Ok? <==> Proves(w, s, q, names, i))
            && UncheckedUses(t.tpm) == UncheckedUses(s) + (if ExposesAt(w, s, q, names, i, i) then 1 else 0)
            && UncheckedFailures(t.tpm) == UncheckedFailures(s) + (if MissesAt(w, s, q, names, i, i) then 1 else 0)
  {
    hide KeyHmac;
  }

  lemma LaterExtraSession(w: World, s: Tpm, q: Request, names: seq<Bytes>, from: nat, i: nat)
    requires from < |q.sessions| && i != from
    ensures ExposesAt(w, s, q, names, from, i) <==> Proves(w, s, q, names, from) && ExposesAt(w, s, q, names, from + 1, i)
    ensures MissesAt(w, s, q, names, from, i) <==> Proves(w, s, q, names, from) && MissesAt(w, s, q, names, from + 1, i)
  {
    hide KeyHmac, Proves, Exposed;
  }

  lemma ExposesStep(w: World, s: Tpm, q: Request, names: seq<Bytes>, from: nat)
    requires from < |q.sessions|
    ensures ExposesFrom(w, s, q, names, from)
       <==> ExposesAt(w, s, q, names, from, from) || (Proves(w, s, q, names, from) && ExposesFrom(w, s, q, names, from + 1))
  {
    hide Proves, Exposed, KeyHmac;
    if i: nat :| ExposesAt(w, s, q, names, from, i) && i != from {
      LaterExtraSession(w, s, q, names, from, i);
    }
    var next := from + 1;
    if i: nat :| ExposesAt(w, s, q, names, next, i) {
      LaterExtraSession(w, s, q, names, from, i);
    }
  }

  lemma MissesStep(w: World, s: Tpm, q: Request, names: seq<Bytes>, from: nat)
    requires from < |q.sessions|
    ensures MissesFrom(w, s, q, names, from)
       <==> MissesAt(w, s, q, names, from, from) || (Proves(w, s, q, names, from) && MissesFrom(w, s, q, names, from + 1))
  {
    hide Proves, Exposed, KeyHmac;
    if i: nat :| MissesAt(w, s, q, names, from, i) && i != from {
      LaterExtraSession(w, s, q, names, from, i);
    }
    var next := from + 1;
    if i: nat :| MissesAt(w, s, q, names, next, i) {
      LaterExtraSession(w, s, q, names, from, i);
    }
  }

  /** What `t` holds beyond `s`: protected values put to use, and missed, without authorizing. */
  ghost predicate Tells(s: Tpm, t: Tpm, exposes: bool, misses: bool) {
    && UncheckedUses(s) <= UncheckedUses(t) && UncheckedFailures(s) <= UncheckedFailures(t)
    && (UncheckedUses(t) == UncheckedUses(s) <==> !exposes)
    && (UncheckedFailures(t) == UncheckedFailures(s) <==> !misses)
  }

  lemma {:induction false} ExtraSessionsTell(w: World, s: Tpm, q: Request, names: seq<Bytes>, from: nat)
    ensures Tells(s, ExtraSessions(w, s, q, names, from).tpm, ExposesFrom(w, s, q, names, from), MissesFrom(w, s, q, names, from))
    decreases |q.sessions| - from
  {
    if from < |q.sessions| {
      FirstExtraSession(w, s, q, names, from);
      ExposesStep(w, s, q, names, from);
      MissesStep(w, s, q, names, from);
      var one := ExtraSession(w, s, q, names, from);
      hide ExtraSession, Tally, ExposesFrom, MissesFrom, ExposesAt, MissesAt, Proves;
      if one.result.Ok? {
        ExposuresReadSessions(w, s, one.tpm, q, names, from + 1);
        ExtraSessionsTell(w, one.tpm, q, names, from + 1);
      }
    }
  }

  /** Everything before the sessions that authorize nothing lets the command by. */
  predicate Authorizes(w: World, s: Tpm, q: Request) {
    var gated := Gated(w, s, q);
    && gated.result.Ok? && Resolved(w, gated.tpm, q).Ok?
    && AuthorizedFrom(w, gated.tpm, q, Resolved(w, gated.tpm, q).value, 0).result.Ok?
  }

  function NamesIn(w: World, s: Tpm, q: Request): seq<Bytes>
    requires Authorizes(w, s, q)
  {
    Resolved(w, Gated(w, s, q).tpm, q).value
  }

  /** The command puts a protected value to use without authorizing with it. */
  ghost predicate Exposes(w: World, s: Tpm, q: Request) {
    Authorizes(w, s, q) && ExposesFrom(w, s, q, NamesIn(w, s, q), q.info.authHandles)
  }

  ghost predicate Misses(w: World, s: Tpm, q: Request) {
    Authorizes(w, s, q) && MissesFrom(w, s, q, NamesIn(w, s, q), q.info.authHandles)
  }

  // ---- One command ----

  lemma FinalChecksTell(w: World, s: Tpm, q: Request, names: seq<Bytes>, auths: seq<Bytes>)
    ensures Tells(s, FinalChecks(w, s, q, names, auths).tpm,
                  ExposesFrom(w, s, q, names, q.info.authHandles), MissesFrom(w, s, q, names, q.info.authHandles))
  {
    hide ExtraSessions, AuditSessionAnswer, Decrypted, ExposesFrom, MissesFrom, Tally;
    ExtraSessionsTell(w, s, q, names, q.info.authHandles);
  }

  lemma AdmittedTells(w: World, s: Tpm, q: Request)
    ensures Tells(s, Admitted(w, s, q).tpm, Exposes(w, s, q), Misses(w, s, q))
  {
    hide Gated, Resolved, AuthorizedFrom, FinalChecks, ExposesFrom, MissesFrom, Tally;
    GatedFrame(w, s, q);
    var gated := Gated(w, s, q).tpm;
    PaysNothing(s, gated);
    if Resolved(w, gated, q).Ok? {
      var names := Resolved(w, gated, q).value;
      AuthorizedFromPays(w, gated, q, names, 0);
      AuthorizedFromFrame(w, gated, q, names, 0);
      var authorized := AuthorizedFrom(w, gated, q, names, 0);
      if authorized.result.Ok? {
        FinalChecksTell(w, authorized.tpm, q, names, authorized.result.value);
        ExposuresReadSessions(w, s, authorized.tpm, q, names, q.info.authHandles);
      }
    }
  }

  /** A command puts a protected value to use without authorizing with it exactly
    when it passes its authorizations and then carries a loaded bound session with
    something to compare. */
  lemma HandledTells(w: World, s: Tpm, q: Request)
    ensures Tells(s, Handled(w, s, q).tpm, Exposes(w, s, q), Misses(w, s, q))
  {
    hide Admitted, Completed, Tally, Exposes, Misses;
    AdmittedTells(w, s, q);
    var admitted := Admitted(w, s, q);
    if admitted.result.Ok? {
      var a := admitted.result.value;
      RunCommandJudges(w, admitted.tpm.(suppressed := false), q.(parameters := a.parameters));
      CompletedJudges(w, admitted.tpm, q, a);
      hide RunCommand, Judgements;
      NothingCompared(admitted.tpm, Completed(w, admitted.tpm, q, a).tpm);
    }
  }

  /** What a caller can see to: no bound session past the authorizations, or nothing in it to compare. */
  lemma KeptOutIsQuiet(w: World, s: Tpm, q: Request)
    requires forall i :: q.info.authHandles <= i < |q.sessions| ==> !Exposed(s, q, i)
    ensures !Exposes(w, s, q) && !Misses(w, s, q)
  {
  }

  /** And the first such session is compared whenever the authorizations pass. */
  lemma FirstExposedIsCompared(w: World, s: Tpm, q: Request)
    requires Authorizes(w, s, q) && q.info.authHandles < |q.sessions| && KeysSupported(w, s)
    ensures Exposed(s, q, q.info.authHandles) ==> Exposes(w, s, q)
  {
    if Exposed(s, q, q.info.authHandles) {
      assert w.digestSize(s.sessions[q.sessions[q.info.authHandles].handle].authHash).Some?;
      hide Authorizes, FirstWith, Joined;
      assert ExposesAt(w, s, q, NamesIn(w, s, q), q.info.authHandles, q.info.authHandles);
    }
  }

  /** Every loaded session has a hash the TPM supports, as TPM2_StartAuthSession sees to. */
  predicate KeysSupported(w: World, s: Tpm) {
    forall h :: h in s.sessions ==> w.digestSize(s.sessions[h].authHash).Some?
  }

  // ---- Whole runs ----

  ghost predicate NoneExposes(w: World, s: Tpm, inputs: seq<Input>)
    decreases |inputs|
  {
    inputs == []
    || ((Asked(w, s, inputs[0]).Some? ==> !Exposes(w, s, Asked(w, s, inputs[0]).value))
        && NoneExposes(w, After(w, s, inputs[0]), inputs[1..]))
  }

  ghost predicate NoneMisses(w: World, s: Tpm, inputs: seq<Input>)
    decreases |inputs|
  {
    inputs == []
    || ((Asked(w, s, inputs[0]).Some? ==> !Misses(w, s, Asked(w, s, inputs[0]).value))
        && NoneMisses(w, After(w, s, inputs[0]), inputs[1..]))
  }

  lemma {:induction false} RecoveringIsQuiet(s: Tpm, time: uint64)
    ensures Quiet(s, Recovering(s, time))
    decreases s.lockout.failedTries
  {
    if s.lockout.failedTries > 0 && time >= s.lockout.nextRecovery {
      RecoveringIsQuiet(s.(lockout := s.lockout.(
        failedTries := s.lockout.failedTries - 1,
        nextRecovery := SaturatingAdd(s.lockout.nextRecovery, s.lockout.recoveryTime * 1000, U64_MAX))).Note(Recovered), time);
    }
  }

  lemma AfterTells(w: World, s: Tpm, input: Input)
    ensures Tells(s, After(w, s, input),
                  Asked(w, s, input).Some? && Exposes(w, s, Asked(w, s, input).value),
                  Asked(w, s, input).Some? && Misses(w, s, Asked(w, s, input).value))
  {
    hide Executed, Handled, Exposes, Misses, Received, Tally, Recovering, LockoutEnded;
    AfterIsHandled(w, s, input);
    match input
    case Elapse(time) => RecoveringIsQuiet(s.(clock := s.clock.(time := time)), time);
    case Command(_, _) =>
      if Asked(w, s, input).Some? {
        HandledTells(w, s, Asked(w, s, input).value);
      }
  }

  lemma {:induction false} RunTells(w: World, s: Tpm, inputs: seq<Input>)
    ensures Tells(s, AfterAll(w, s, inputs), !NoneExposes(w, s, inputs), !NoneMisses(w, s, inputs))
    decreases |inputs|
  {
    if inputs != [] {
      hide After, Asked, Exposes, Misses, Tally;
      AfterTells(w, s, inputs[0]);
      RunTells(w, After(w, s, inputs[0]), inputs[1..]);
    }
  }

  /** Over any run with the protection on whose actions do not settle the lockout
    record: the failed uses of protected values number at most what was left before
    Lockout mode, the tries time took off, and the failures of bound sessions that
    authorized nothing. In Lockout mode no protected value is used until time takes a
    try off if and only if no command of the run exposes one; and every failed use is
    one the budget pays for if and only if no command of the run misses. */
  lemma ProtectedValuesAreRationed(w: World, s: Tpm, inputs: seq<Input>)
    requires !s.lockout.ProtectionOff() && NoneSettles(w, s, inputs)
    ensures var t := AfterAll(w, s, inputs);
            var recovered := Recoveries(t) - Recoveries(s);
            && recovered >= 0
            && CheckedFailures(t) - CheckedFailures(s) <= Budget(s.lockout) + recovered
            && (GuardedFailures(t) - GuardedFailures(s) == CheckedFailures(t) - CheckedFailures(s) <==> NoneMisses(w, s, inputs))
            && (NoneMisses(w, s, inputs) ==> GuardedFailures(t) - GuardedFailures(s) <= Budget(s.lockout) + recovered)
            && (s.lockout.LockedOut() && recovered == 0 ==>
                  t.lockout.LockedOut() && (GuardedUses(t) == GuardedUses(s) <==> NoneExposes(w, s, inputs)))
  {
    hide AfterAll, NoneSettles, NoneExposes, NoneMisses, Tally;
    RunPays(w, s, inputs);
    RunTells(w, s, inputs);
    TalliesAddUp(s.history);
    TalliesAddUp(AfterAll(w, s, inputs).history);
  }

  // ---- Why the condition is needed ----

  /** A command without handles that passes every check but the one HMAC it carries:
    that of a loaded bound session, which does not match. */
  predicate Guesses(w: World, s: Tpm, q: Request) {
    && q.handles == [] && q.info.authHandles == 0 && |q.sessions| == 1
    && Nullified(s, q) == s && Gated(w, s, q).result.Ok?
    && IsSessionHandle(q.sessions[0].handle) && AttributesAllowed(q, 0, Taken(false, false, false))
    && Exposed(s, q, 0)
    && KeyHmac(w, s, q, [], 0).Ok? && KeyHmac(w, s, q, [], 0).value != q.sessions[0].hmac
  }

  const MISSED_KEY := Compared(RH_NULL, KeyOnly, true, None, false)

  lemma GuessIsResolved(w: World, s: Tpm, q: Request)
    requires Guesses(w, s, q)
    ensures Gated(w, s, q).tpm == s && Resolved(w, s, q) == Ok([])
  {
    hide NeedsPresence, Has, HandlesAllowed, ReadOnlyAnswer, KeyHmac;
    assert SessionHandlesAnswer(s, q, 1) == Ok(());
    assert SessionHandlesAnswer(s, q, 0) == Ok(());
    var a := q.sessions[0].attributes;
    assert SessionAttributesAnswer(q, 1, Taken(Has(a, AUDIT), Has(a, DECRYPT), Has(a, ENCRYPT))) == Ok(());
    assert SessionAttributesAnswer(q, 0, Taken(false, false, false)) == Ok(());
  }

  lemma GuessCanBeRepeated(w: World, s: Tpm, q: Request)
    requires Guesses(w, s, q)
    ensures Guesses(w, s.Note(MISSED_KEY), q)
  {
    hide HandlesAllowed, Has, KeyHmac;
    KeyReadsSessions(w, s, s.Note(MISSED_KEY), q, [], 0);
  }

  /** Such a guess is answered TPM_RC_AUTH_FAIL in Lockout mode as outside it, moves
    no counter, and can be made again. */
  lemma GuessIsNotCounted(w: World, s: Tpm, q: Request)
    requires Guesses(w, s, q)
    ensures Handled(w, s, q) == Step(s.Note(MISSED_KEY), Err(TpmRc(RC_AUTH_FAIL, Position.Session(1))))
    ensures Guesses(w, s.Note(MISSED_KEY), q)
  {
    GuessIsResolved(w, s, q);
    GuessCanBeRepeated(w, s, q);
    assert q.sessions[0].handle in s.sessions && s.sessions[q.sessions[0].handle].bindUsesLockout;
    hide Gated, Resolved, KeyHmac, Completed, AttributesAllowed, IsSessionHandle, AuditSessionAnswer, Decrypted;
    assert AuthorizedFrom(w, s, q, [], 0) == Step(s, Ok([]));
    assert ExtraSession(w, s, q, [], 0) == Step(s.Note(MISSED_KEY), Err(TpmRc(RC_AUTH_FAIL, Position.Session(1))));
  }

  /** The buffer makes such a guess. */
  predicate IsGuess(w: World, s: Tpm, input: Input) {
    Asked(w, s, input).Some? && !s.mode.failureMode && Guesses(w, s, Asked(w, s, input).value)
  }

  lemma GuessRuns(w: World, s: Tpm, input: Input)
    requires IsGuess(w, s, input)
    ensures After(w, s, input) == s.Note(MISSED_KEY) && IsGuess(w, s.Note(MISSED_KEY), input)
  {
    hide Guesses, Handled, Parsed;
    AfterIsHandled(w, s, input);
    GuessIsNotCounted(w, s, Asked(w, s, input).value);
  }

  /** However often it is made: `n` wrong guesses of a protected value, and nothing counted. */
  lemma {:induction false} GuessesAreUnlimited(w: World, s: Tpm, input: Input, n: nat)
    requires IsGuess(w, s, input)
    ensures var t := AfterAll(w, s, Repeated(input, n));
            t == s.(history := t.history) && GuardedFailures(t) == GuardedFailures(s) + n
    decreases n
  {
    hide After, IsGuess;
    if n > 0 {
      GuessRuns(w, s, input);
      assert Repeated(input, n)[1..] == Repeated(input, n - 1);
      GuessesAreUnlimited(w, s.Note(MISSED_KEY), input, n - 1);
    }
  }
}
