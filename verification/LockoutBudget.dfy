/** Over whole runs: how often a value the lockout protects can be tried. */
module LockoutBudget {
  import opened Prelude
  import opened Commands
  import opened CommandParse
  import opened State
  import opened Authorization
  import opened Audit
  import opened Actions
  import opened Pipeline
  import opened Frames
  import opened Judging
  import opened Recovery

  // ---- Runs ----

  datatype Input = Command(buf: Bytes, locality: nat) | Elapse(time: uint64)

  function After(w: World, s: Tpm, input: Input): Tpm {
    match input
    case Command(buf, locality) => Executed(w, s, buf, locality).tpm
    case Elapse(time) => OnTime(s, time)
  }

  function AfterAll(w: World, s: Tpm, inputs: seq<Input>): Tpm
    decreases |inputs|
  {
    if inputs == [] then s else AfterAll(w, After(w, s, inputs[0]), inputs[1..])
  }

  function Repeated(input: Input, n: nat): seq<Input> {
    if n == 0 then [] else [input] + Repeated(input, n - 1)
  }

  // ---- Tallies ----

  function Tally(h: History, counts: Event -> bool): nat {
    match h
    case Beginning => 0
    case Then(past, e) => Tally(past, counts) + if counts(e) then 1 else 0
  }

  /** A protected value was put to use, by an authorization or by a session key. */
  predicate IsGuarded(e: Event) {
    e.Compared? && e.guarded
  }

  predicate IsGuardedFailure(e: Event) {
    IsGuarded(e) && !e.accepted
  }

  /** A protected value was put to use to authorize a handle. */
  predicate IsChecked(e: Event) {
    IsGuarded(e) && e.use != KeyOnly
  }

  predicate IsCheckedFailure(e: Event) {
    IsChecked(e) && !e.accepted
  }

  /** A protected value was put to use by a session that authorizes no handle. */
  predicate IsUnchecked(e: Event) {
    IsGuarded(e) && e.use == KeyOnly
  }

  predicate IsUncheckedFailure(e: Event) {
    IsUnchecked(e) && !e.accepted
  }

  predicate IsRecovery(e: Event) {
    e.Recovered?
  }

  function GuardedUses(s: Tpm): nat {
    Tally(s.history, IsGuarded)
  }

  function GuardedFailures(s: Tpm): nat {
    Tally(s.history, IsGuardedFailure)
  }

  function CheckedUses(s: Tpm): nat {
    Tally(s.history, IsChecked)
  }

  function CheckedFailures(s: Tpm): nat {
    Tally(s.history, IsCheckedFailure)
  }

  function UncheckedUses(s: Tpm): nat {
    Tally(s.history, IsUnchecked)
  }

  function UncheckedFailures(s: Tpm): nat {
    Tally(s.history, IsUncheckedFailure)
  }

  function Recoveries(s: Tpm): nat {
    Tally(s.history, IsRecovery)
  }

  lemma {:induction false} TalliesAddUp(h: History)
    ensures Tally(h, IsGuarded) == Tally(h, IsChecked) + Tally(h, IsUnchecked)
    ensures Tally(h, IsGuardedFailure) == Tally(h, IsCheckedFailure) + Tally(h, IsUncheckedFailure)
  {
    if h.Then? {
      TalliesAddUp(h.past);
    }
  }

  lemma {:induction false} TallyOfJudgements(h: History, counts: Event -> bool)
    requires forall e :: counts(e) ==> e.Compared? || e.Recovered?
    ensures Tally(h, counts) == Tally(Judgements(h), counts)
  {
    if h.Then? {
      TallyOfJudgements(h.past, counts);
    }
  }

  // ---- The budget ----

  /** The failures left before Lockout mode. */
  function Budget(l: Lockout): nat {
    if l.failedTries < l.maxTries then l.maxTries - l.failedTries else 0
  }

  /** From `s` to `t` every failed use of a protected value to authorize a handle was
    paid for, and none was made in Lockout mode unless time had taken a try off. */
  ghost predicate Pays(s: Tpm, t: Tpm) {
    && t.lockout.maxTries == s.lockout.maxTries
    && t.lockout.recoveryTime == s.lockout.recoveryTime
    && Recoveries(s) <= Recoveries(t)
    && s.lockout.failedTries <= t.lockout.failedTries + (Recoveries(t) - Recoveries(s))
    && CheckedFailures(t) + Budget(t.lockout)
       <= CheckedFailures(s) + Budget(s.lockout) + (Recoveries(t) - Recoveries(s))
    && (s.lockout.LockedOut() && Recoveries(t) == Recoveries(s) ==> CheckedUses(t) == CheckedUses(s))
  }

  /** No session key was compared between `s` and `t`, or none that carries a protected value. */
  ghost predicate Quiet(s: Tpm, t: Tpm) {
    UncheckedUses(t) == UncheckedUses(s) && UncheckedFailures(t) == UncheckedFailures(s)
  }

  lemma NothingCompared(s: Tpm, t: Tpm)
    requires Judgements(t.history) == Judgements(s.history)
    ensures CheckedUses(t) == CheckedUses(s) && CheckedFailures(t) == CheckedFailures(s)
    ensures Recoveries(t) == Recoveries(s) && Quiet(s, t)
  {
    forall counts | counts in [IsChecked, IsCheckedFailure, IsUnchecked, IsUncheckedFailure, IsRecovery]
      ensures Tally(t.history, counts) == Tally(s.history, counts)
    {
      TallyOfJudgements(s.history, counts);
      TallyOfJudgements(t.history, counts);
    }
  }

  lemma PaysNothing(s: Tpm, t: Tpm)
    requires NothingJudged(s, t)
    ensures Pays(s, t) && Quiet(s, t)
  {
    NothingCompared(s, t);
    hide Judgements, Tally;
  }

  lemma PaysChains(s: Tpm, t: Tpm, u: Tpm)
    requires Pays(s, t) && Pays(t, u)
    ensures Pays(s, u)
  {
  }

  lemma ComparisonPays(s: Tpm, t: Tpm, isProtected: bool)
    requires AtMostOne(s, t, isProtected)
    ensures Quiet(s, t)
    ensures !s.lockout.ProtectionOff() && (t != s && t.history.last.guarded ==> !s.lockout.LockedOut()) ==> Pays(s, t)
  {
  }

  lemma AuthorizedAtPays(w: World, s: Tpm, q: Request, names: seq<Bytes>, i: nat)
    ensures Quiet(s, AuthorizedAt(w, s, q, names, i).tpm)
    ensures !s.lockout.ProtectionOff() && q.code != CC_DICTIONARY_ATTACK_LOCK_RESET ==>
      Pays(s, AuthorizedAt(w, s, q, names, i).tpm)
  {
    hide EntityAt, SessionHash, CpHash, Authorized, Pays, Quiet, Protected, AtMostOne;
    PaysNothing(s, s);
    if i < |q.sessions| && i < |q.handles| && EntityAt(w, s, q.handles[i]).Ok? && SessionHash(s, q, i).Ok? {
      var entity := EntityAt(w, s, q.handles[i]).value;
      var cp := CpHash(w, SessionHash(s, q, i).value, q.code, names, q.parameters);
      if cp.Ok? {
        AuthorizationIsOneComparison(w, s, q, i, entity, cp.value);
        ComparisonPays(s, Authorized(w, s, q, i, entity, cp.value).tpm, Protected(s, q, i, entity));
      }
    }
  }

  lemma PaysKeepsProtection(s: Tpm, t: Tpm)
    requires Pays(s, t)
    ensures t.lockout.ProtectionOff() == s.lockout.ProtectionOff()
  {
  }

  lemma {:induction false} AuthorizedFromPays(w: World, s: Tpm, q: Request, names: seq<Bytes>, i: nat)
    requires i <= q.info.authHandles
    ensures Quiet(s, AuthorizedFrom(w, s, q, names, i).tpm)
    ensures !s.lockout.ProtectionOff() && q.code != CC_DICTIONARY_ATTACK_LOCK_RESET ==>
      Pays(s, AuthorizedFrom(w, s, q, names, i).tpm)
    decreases q.info.authHandles - i
  {
    if i == q.info.authHandles {
      PaysNothing(s, s);
    } else {
      hide AuthorizedAt, Pays, Tally;
      AuthorizedAtPays(w, s, q, names, i);
      var at := AuthorizedAt(w, s, q, names, i);
      if at.result.Ok? {
        AuthorizedFromPays(w, at.tpm, q, names, i + 1);
        if !s.lockout.ProtectionOff() && q.code != CC_DICTIONARY_ATTACK_LOCK_RESET {
          PaysKeepsProtection(s, at.tpm);
          PaysChains(s, at.tpm, AuthorizedFrom(w, at.tpm, q, names, i + 1).tpm);
        }
      }
    }
  }

  /** The key of a session that authorizes nothing is neither paid for nor held back. */
  lemma {:induction false} ExtraSessionsPay(w: World, s: Tpm, q: Request, names: seq<Bytes>, i: nat)
    ensures Pays(s, ExtraSessions(w, s, q, names, i).tpm)
    decreases |q.sessions| - i
  {
    if i >= |q.sessions| {
      PaysNothing(s, s);
    } else {
      var one := ExtraSession(w, s, q, names, i);
      assert Pays(s, one.tpm) by {
        hide KeyHmac;
      }
      hide ExtraSession, Pays;
      if one.result.Ok? {
        ExtraSessionsPay(w, one.tpm, q, names, i + 1);
        PaysChains(s, one.tpm, ExtraSessions(w, one.tpm, q, names, i + 1).tpm);
      }
    }
  }

  lemma FinalChecksPay(w: World, s: Tpm, q: Request, names: seq<Bytes>, auths: seq<Bytes>)
    ensures Pays(s, FinalChecks(w, s, q, names, auths).tpm)
  {
    hide ExtraSessions, AuditSessionAnswer, Decrypted, Pays;
    ExtraSessionsPay(w, s, q, names, q.info.authHandles);
  }

  lemma AdmittedPays(w: World, s: Tpm, q: Request)
    requires !s.lockout.ProtectionOff() && q.code != CC_DICTIONARY_ATTACK_LOCK_RESET
    ensures Pays(s, Admitted(w, s, q).tpm)
  {
    hide Gated, Resolved, AuthorizedFrom, FinalChecks, Pays;
    GatedFrame(w, s, q);
    var gated := Gated(w, s, q).tpm;
    PaysNothing(s, gated);
    if Resolved(w, gated, q).Ok? {
      var names := Resolved(w, gated, q).value;
      AuthorizedFromPays(w, gated, q, names, 0);
      var authorized := AuthorizedFrom(w, gated, q, names, 0);
      PaysChains(s, gated, authorized.tpm);
      if authorized.result.Ok? {
        FinalChecksPay(w, authorized.tpm, q, names, authorized.result.value);
        PaysChains(s, authorized.tpm, FinalChecks(w, authorized.tpm, q, names, authorized.result.value).tpm);
      }
    }
  }

  /** The command's own action, if it gets that far, leaves the lockout record as it
    was; TPM2_DictionaryAttackLockReset is left out altogether. */
  predicate LeavesLockout(w: World, s: Tpm, q: Request) {
    var admitted := Admitted(w, s, q);
    && q.code != CC_DICTIONARY_ATTACK_LOCK_RESET
    && (admitted.result.Ok? ==> Acted(w, admitted.tpm, q, admitted.result.value).lockout == admitted.tpm.lockout)
  }

  /** Refused or not, a command that leaves the lockout record alone pays for each
    failed use of a protected value it makes to authorize a handle. */
  lemma HandledPays(w: World, s: Tpm, q: Request)
    requires !s.lockout.ProtectionOff() && LeavesLockout(w, s, q)
    ensures Pays(s, Handled(w, s, q).tpm)
  {
    hide Admitted, Completed, RunCommand, Pays;
    AdmittedPays(w, s, q);
    var admitted := Admitted(w, s, q);
    if admitted.result.Ok? {
      var a := admitted.result.value;
      RunCommandJudges(w, admitted.tpm.(suppressed := false), q.(parameters := a.parameters));
      CompletedJudges(w, admitted.tpm, q, a);
      var t := Completed(w, admitted.tpm, q, a).tpm;
      hide Judgements;
      PaysNothing(admitted.tpm, t);
      PaysChains(s, admitted.tpm, t);
    }
  }

  lemma {:induction false} RecoveringPays(s: Tpm, time: uint64)
    ensures Pays(s, Recovering(s, time))
    decreases s.lockout.failedTries
  {
    if s.lockout.failedTries > 0 && time >= s.lockout.nextRecovery {
      var s1 := s.(lockout := s.lockout.(
        failedTries := s.lockout.failedTries - 1,
        nextRecovery := SaturatingAdd(s.lockout.nextRecovery, s.lockout.recoveryTime * 1000, U64_MAX))).Note(Recovered);
      assert Pays(s, s1);
      RecoveringPays(s1, time);
      hide Pays;
      PaysChains(s, s1, Recovering(s1, time));
    } else {
      PaysNothing(s, s);
    }
  }

  lemma PaysForSame(s: Tpm, t: Tpm, s1: Tpm, t1: Tpm)
    requires Pays(s1, t1)
    requires s1.lockout == s.lockout && s1.history == s.history && t1.history == t.history
    requires t1.lockout.failedTries == t.lockout.failedTries && t1.lockout.maxTries == t.lockout.maxTries
    requires t1.lockout.recoveryTime == t.lockout.recoveryTime
    ensures Pays(s, t)
  {
  }

  lemma OnTimePays(s: Tpm, time: uint64)
    ensures Pays(s, OnTime(s, time))
  {
    var s1 := s.(clock := s.clock.(time := time));
    RecoveringPays(s1, time);
    PaysNothing(s1, s1);
    hide Pays, Recovering;
    PaysForSame(s, OnTime(s, time), s1, if s1.lockout.ProtectionOff() then s1 else Recovering(s1, time));
  }

  /** The request an input makes of the TPM, if it is one the TPM reads. */
  function Asked(w: World, s: Tpm, input: Input): Option<Request> {
    match input
    case Elapse(_) => None
    case Command(buf, locality) => match Received(w, s, buf, locality) case Ok(q) => Some(q) case Err(_) => None
  }

  /** No action of the run settles the lockout record. */
  predicate NoneSettles(w: World, s: Tpm, inputs: seq<Input>)
    decreases |inputs|
  {
    inputs == []
    || ((Asked(w, s, inputs[0]).Some? ==> LeavesLockout(w, s, Asked(w, s, inputs[0]).value))
        && NoneSettles(w, After(w, s, inputs[0]), inputs[1..]))
  }

  lemma AfterIsHandled(w: World, s: Tpm, input: Input)
    ensures input.Command? ==>
      After(w, s, input) == (if Asked(w, s, input).Some? then Handled(w, s, Asked(w, s, input).value).tpm else s)
  {
    hide Received, Handled;
  }

  lemma AfterPays(w: World, s: Tpm, input: Input)
    requires !s.lockout.ProtectionOff()
    requires Asked(w, s, input).Some? ==> LeavesLockout(w, s, Asked(w, s, input).value)
    ensures Pays(s, After(w, s, input))
  {
    hide Asked, Executed, Handled, OnTime, Pays, LeavesLockout;
    PaysNothing(s, s);
    AfterIsHandled(w, s, input);
    match input
    case Elapse(time) => OnTimePays(s, time);
    case Command(_, _) =>
      if Asked(w, s, input).Some? {
        HandledPays(w, s, Asked(w, s, input).value);
      }
  }

  lemma {:induction false} RunPays(w: World, s: Tpm, inputs: seq<Input>)
    requires !s.lockout.ProtectionOff() && NoneSettles(w, s, inputs)
    ensures Pays(s, AfterAll(w, s, inputs))
    decreases |inputs|
  {
    if inputs == [] {
      PaysNothing(s, s);
    } else {
      hide After, Pays, LeavesLockout, Asked;
      var next := After(w, s, inputs[0]);
      AfterPays(w, s, inputs[0]);
      PaysKeepsProtection(s, next);
      RunPays(w, next, inputs[1..]);
      PaysChains(s, next, AfterAll(w, next, inputs[1..]));
    }
  }
}
