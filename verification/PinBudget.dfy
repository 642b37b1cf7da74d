/** Over whole runs: how often the authValue of a PIN Index can be tried or used. */
module PinBudget {
  import opened Prelude
  import opened Commands
  import opened CommandParse
  import opened State
  import opened Authorization
  import opened Audit
  import opened Actions
  import opened Pipeline
  import opened Frames
  import opened Judging
  import opened LockoutBudget
  import opened Recovery

  // ---- Tallies of one Index ----

  function Uses(h: History, index: uint32): nat {
    match h
    case Beginning => 0
    case Then(past, e) => Uses(past, index) + if e.Compared? && e.pin == Some(index) then 1 else 0
  }

  function Successes(h: History, index: uint32): nat {
    match h
    case Beginning => 0
    case Then(past, e) => Successes(past, index) + if e.Compared? && e.pin == Some(index) && e.accepted then 1 else 0
  }

  /** Failed comparisons since the last that succeeded. */
  function Streak(h: History, index: uint32): nat {
    match h
    case Beginning => 0
    case Then(past, e) =>
      if e.Compared? && e.pin == Some(index) then (if e.accepted then 0 else Streak(past, index) + 1)
      else Streak(past, index)
  }

  lemma {:induction false} PinTalliesOfJudgements(h: History, index: uint32)
    ensures Uses(h, index) == Uses(Judgements(h), index)
    ensures Successes(h, index) == Successes(Judgements(h), index)
    ensures Streak(h, index) == Streak(Judgements(h), index)
  {
    if h.Then? {
      PinTalliesOfJudgements(h.past, index);
    }
  }

  // ---- One Index from state to state ----

  predicate HasPin(s: Tpm, h: uint32) {
    h in s.store.nv && s.store.nv[h].pin.Some?
  }

  /** From `s` to `t` the counters of `h` moved only by the comparisons made. */
  ghost predicate Moves(s: Tpm, t: Tpm, h: uint32) {
    && HasPin(s, h) && HasPin(t, h)
    && var a, b := s.store.nv[h], t.store.nv[h];
    && if !PinReady(a) then
         && b == a && Uses(t.history, h) == Uses(s.history, h)
         && Successes(t.history, h) == Successes(s.history, h) && Streak(t.history, h) == Streak(s.history, h)
       else
         && SamePinIndex(a, b) && b.counters.Some?
         && var p, p' := a.counters.value, b.counters.value;
         && p'.limit == p.limit && p'.count <= p.limit
         && Successes(s.history, h) <= Successes(t.history, h)
         && (a.pin == Some(PinPass) ==> p'.count - p.count == Successes(t.history, h) - Successes(s.history, h))
         && (a.pin == Some(PinFail) ==>
               if Successes(t.history, h) == Successes(s.history, h)
               then p'.count - p.count == Streak(t.history, h) - Streak(s.history, h)
               else p'.count == Streak(t.history, h))
  }

  lemma MovesNowhere(s: Tpm, t: Tpm, h: uint32)
    requires HasPin(s, h) && h in t.store.nv && t.store.nv[h] == s.store.nv[h]
    requires Judgements(t.history) == Judgements(s.history)
    ensures Moves(s, t, h)
  {
    PinTalliesOfJudgements(s.history, h);
    PinTalliesOfJudgements(t.history, h);
    hide Judgements;
  }

  lemma MovesChain(s: Tpm, t: Tpm, u: Tpm, h: uint32)
    requires Moves(s, t, h) && Moves(t, u, h)
    ensures Moves(s, u, h)
  {
    hide Uses, Successes, Streak, PinReady;
    assert PinReady(s.store.nv[h]) && !PinReady(t.store.nv[h]) ==> u.store.nv[h] == t.store.nv[h];
  }

  lemma ComparisonMoves(s: Tpm, t: Tpm, isProtected: bool, h: uint32)
    requires HasPin(s, h) && AtMostOne(s, t, isProtected)
    ensures Moves(s, t, h)
  {
    if t == s {
      MovesNowhere(s, t, h);
    } else {
      hide Counted;
      var e := t.history.last;
      if e.pin != Some(h) {
        assert t.store.nv[h] == s.store.nv[h];
      }
    }
  }

  lemma AuthorizedAtMoves(w: World, s: Tpm, q: Request, names: seq<Bytes>, i: nat, h: uint32)
    requires HasPin(s, h)
    ensures Moves(s, AuthorizedAt(w, s, q, names, i).tpm, h)
  {
    hide EntityAt, SessionHash, CpHash, Authorized, Moves, Protected, AtMostOne;
    MovesNowhere(s, s, h);
    if i < |q.sessions| && i < |q.handles| && EntityAt(w, s, q.handles[i]).Ok? && SessionHash(s, q, i).Ok? {
      var entity := EntityAt(w, s, q.handles[i]).value;
      var cp := CpHash(w, SessionHash(s, q, i).value, q.code, names, q.parameters);
      if cp.Ok? {
        AuthorizationIsOneComparison(w, s, q, i, entity, cp.value);
        ComparisonMoves(s, Authorized(w, s, q, i, entity, cp.value).tpm, Protected(s, q, i, entity), h);
      }
    }
  }

  lemma MovesKeepsPin(s: Tpm, t: Tpm, h: uint32)
    requires Moves(s, t, h)
    ensures HasPin(t, h)
  {
  }

  lemma {:induction false} AuthorizedFromMoves(w: World, s: Tpm, q: Request, names: seq<Bytes>, i: nat, h: uint32)
    requires i <= q.info.authHandles && HasPin(s, h)
    ensures Moves(s, AuthorizedFrom(w, s, q, names, i).tpm, h)
    decreases q.info.authHandles - i
  {
    hide AuthorizedAt, Moves;
    if i == q.info.authHandles {
      MovesNowhere(s, s, h);
    } else {
      AuthorizedAtMoves(w, s, q, names, i, h);
      var at := AuthorizedAt(w, s, q, names, i);
      if at.result.Ok? {
        MovesKeepsPin(s, at.tpm, h);
        AuthorizedFromMoves(w, at.tpm, q, names, i + 1, h);
        MovesChain(s, at.tpm, AuthorizedFrom(w, at.tpm, q, names, i + 1).tpm, h);
      }
    }
  }

  lemma {:induction false} ExtraSessionsMove(w: World, s: Tpm, q: Request, names: seq<Bytes>, i: nat, h: uint32)
    ensures var t := ExtraSessions(w, s, q, names, i).tpm;
            && t.store == s.store && Uses(t.history, h) == Uses(s.history, h)
            && Successes(t.history, h) == Successes(s.history, h) && Streak(t.history, h) == Streak(s.history, h)
    decreases |q.sessions| - i
  {
    if i < |q.sessions| {
      hide KeyHmac;
      ExtraSessionsMove(w, ExtraSession(w, s, q, names, i).tpm, q, names, i + 1, h);
    }
  }

  lemma FinalChecksMove(w: World, s: Tpm, q: Request, names: seq<Bytes>, auths: seq<Bytes>, h: uint32)
    requires HasPin(s, h)
    ensures Moves(s, FinalChecks(w, s, q, names, auths).tpm, h)
  {
    hide ExtraSessions, AuditSessionAnswer, Decrypted, Uses, Successes, Streak;
    ExtraSessionsMove(w, s, q, names, q.info.authHandles, h);
  }

  lemma AdmittedMoves(w: World, s: Tpm, q: Request, h: uint32)
    requires HasPin(s, h)
    ensures Moves(s, Admitted(w, s, q).tpm, h)
  {
    GatedFrame(w, s, q);
    var gated := Gated(w, s, q).tpm;
    hide Gated, Resolved, AuthorizedFrom, FinalChecks, Moves;
    MovesNowhere(s, gated, h);
    if Resolved(w, gated, q).Ok? {
      var names := Resolved(w, gated, q).value;
      AuthorizedFromMoves(w, gated, q, names, 0, h);
      var authorized := AuthorizedFrom(w, gated, q, names, 0);
      MovesChain(s, gated, authorized.tpm, h);
      if authorized.result.Ok? {
        MovesKeepsPin(s, authorized.tpm, h);
        FinalChecksMove(w, authorized.tpm, q, names, authorized.result.value, h);
        MovesChain(s, authorized.tpm, FinalChecks(w, authorized.tpm, q, names, authorized.result.value).tpm, h);
      }
    }
  }

  lemma AccountedKeepsIndices(w: World, s: Tpm, q: Request, a: Admission)
    ensures Accounted(w, s, q, a).tpm.store.nv == Acted(w, s, q, a).store.nv
  {
    hide RunCommand, RolledFrom, Encrypted, AfterAudit;
    var ran := RunCommand(w, s.(suppressed := false), q.(parameters := a.parameters));
    RolledFrame(w, ran.tpm, q, 0);
    if ran.result.Ok? {
      var s2 := RolledFrom(w, ran.tpm, q, 0).tpm;
      var parameters := Encrypted(w, s2, q, ran.result.value.parameters, a.auths);
      if parameters.Ok? {
        AfterAuditFrame(w, s2, q, a.names, q.parameters, parameters.value);
      }
    }
  }

  lemma CompletedKeepsIndices(w: World, s: Tpm, q: Request, a: Admission)
    ensures Completed(w, s, q, a).tpm.store.nv == Acted(w, s, q, a).store.nv
  {
    hide Acted, Accounted, AfterSessions, ResponseAttributes;
    AccountedKeepsIndices(w, s, q, a);
    AfterSessionsFrame(w, Accounted(w, s, q, a).tpm, q, 0);
  }

  // ---- Runs ----

  /** The command's own action, if it gets that far, leaves the Index as it was. */
  predicate LeavesIndex(w: World, s: Tpm, q: Request, h: uint32) {
    var admitted := Admitted(w, s, q);
    admitted.result.Ok? && h in admitted.tpm.store.nv ==>
      var t := Acted(w, admitted.tpm, q, admitted.result.value);
      h in t.store.nv && t.store.nv[h] == admitted.tpm.store.nv[h]
  }

  /** No command of the run writes the Index; authorizing with it is not a write. */
  predicate NoWrites(w: World, s: Tpm, inputs: seq<Input>, h: uint32)
    decreases |inputs|
  {
    inputs == []
    || ((Asked(w, s, inputs[0]).Some? ==> LeavesIndex(w, s, Asked(w, s, inputs[0]).value, h))
        && NoWrites(w, After(w, s, inputs[0]), inputs[1..], h))
  }

  lemma HandledMoves(w: World, s: Tpm, q: Request, h: uint32)
    requires HasPin(s, h) && LeavesIndex(w, s, q, h)
    ensures Moves(s, Handled(w, s, q).tpm, h)
  {
    hide Admitted, Completed, RunCommand, Moves;
    AdmittedMoves(w, s, q, h);
    var admitted := Admitted(w, s, q);
    if admitted.result.Ok? {
      MovesKeepsPin(s, admitted.tpm, h);
      var a := admitted.result.value;
      CompletedKeepsIndices(w, admitted.tpm, q, a);
      RunCommandJudges(w, admitted.tpm.(suppressed := false), q.(parameters := a.parameters));
      CompletedJudges(w, admitted.tpm, q, a);
      var t := Completed(w, admitted.tpm, q, a).tpm;
      hide Judgements;
      MovesNowhere(admitted.tpm, t, h);
      MovesChain(s, admitted.tpm, t, h);
    }
  }

  lemma {:induction false} RecoveringMoves(s: Tpm, time: uint64, h: uint32)
    requires HasPin(s, h)
    ensures Recovering(s, time).store == s.store
    ensures Uses(Recovering(s, time).history, h) == Uses(s.history, h)
    ensures Successes(Recovering(s, time).history, h) == Successes(s.history, h)
    ensures Streak(Recovering(s, time).history, h) == Streak(s.history, h)
    decreases s.lockout.failedTries
  {
    if s.lockout.failedTries > 0 && time >= s.lockout.nextRecovery {
      var s1 := s.(lockout := s.lockout.(
        failedTries := s.lockout.failedTries - 1,
        nextRecovery := SaturatingAdd(s.lockout.nextRecovery, s.lockout.recoveryTime * 1000, U64_MAX))).Note(Recovered);
      RecoveringMoves(s1, time, h);
    }
  }

  lemma OnTimeMoves(s: Tpm, time: uint64, h: uint32)
    requires HasPin(s, h)
    ensures Moves(s, OnTime(s, time), h)
  {
    hide Recovering, LockoutEnded, Uses, Successes, Streak;
    RecoveringMoves(s.(clock := s.clock.(time := time)), time, h);
  }

  lemma {:induction false} RunMoves(w: World, s: Tpm, inputs: seq<Input>, h: uint32)
    requires HasPin(s, h) && NoWrites(w, s, inputs, h)
    ensures Moves(s, AfterAll(w, s, inputs), h)
    decreases |inputs|
  {
    if inputs == [] {
      MovesNowhere(s, s, h);
    } else {
      hide Moves, Executed, Handled, OnTime, Asked, LeavesIndex, HasPin;
      MovesNowhere(s, s, h);
      AfterIsHandled(w, s, inputs[0]);
      match inputs[0] {
        case Elapse(time) =>
          OnTimeMoves(s, time, h);
        case Command(_, _) =>
          if Asked(w, s, inputs[0]).Some? {
            HandledMoves(w, s, Asked(w, s, inputs[0]).value, h);
          }
      }
      var next := After(w, s, inputs[0]);
      MovesKeepsPin(s, next, h);
      RunMoves(w, next, inputs[1..], h);
      MovesChain(s, next, AfterAll(w, next, inputs[1..]), h);
    }
  }

  /** Between writes to it, a PIN Pass Index gives at most pinLimit less its
    starting pinCount successes, and its count never passes its limit. */
  lemma PinPassIsRationed(w: World, s: Tpm, inputs: seq<Input>, h: uint32)
    requires HasPin(s, h) && NoWrites(w, s, inputs, h)
    requires s.store.nv[h].pin == Some(PinPass) && s.store.nv[h].counters.Some?
    requires s.store.nv[h].counters.value.count <= s.store.nv[h].counters.value.limit
    ensures var t := AfterAll(w, s, inputs);
            && HasPin(t, h) && t.store.nv[h].counters.Some?
            && var p, p' := s.store.nv[h].counters.value, t.store.nv[h].counters.value;
            && p'.limit == p.limit && p'.count <= p'.limit
            && p'.count - p.count == Successes(t.history, h) - Successes(s.history, h) <= p.limit - p.count
  {
    RunMoves(w, s, inputs, h);
    hide AfterAll, NoWrites, Uses, Successes, Streak;
  }

  /** A PIN Fail Index allows at most pinLimit failed comparisons since its last
    success, and before any success no more than were left at the start. */
  lemma PinFailIsRationed(w: World, s: Tpm, inputs: seq<Input>, h: uint32)
    requires HasPin(s, h) && NoWrites(w, s, inputs, h)
    requires s.store.nv[h].pin == Some(PinFail) && s.store.nv[h].counters.Some?
    requires s.store.nv[h].counters.value.count <= s.store.nv[h].counters.value.limit
    ensures var t := AfterAll(w, s, inputs);
            && HasPin(t, h) && t.store.nv[h].counters.Some?
            && var p, p' := s.store.nv[h].counters.value, t.store.nv[h].counters.value;
            && p'.limit == p.limit && p'.count <= p'.limit
            && if Successes(t.history, h) == Successes(s.history, h)
               then Streak(t.history, h) - Streak(s.history, h) == p'.count - p.count <= p.limit - p.count
               else Streak(t.history, h) == p'.count <= p.limit
  {
    RunMoves(w, s, inputs, h);
    hide AfterAll, NoWrites, Uses, Successes, Streak;
  }

  /** A PIN Index that is exhausted, or was never written, is neither compared nor moved. */
  lemma ExhaustedPinIsNeverCompared(w: World, s: Tpm, inputs: seq<Input>, h: uint32)
    requires HasPin(s, h) && NoWrites(w, s, inputs, h) && !PinReady(s.store.nv[h])
    ensures var t := AfterAll(w, s, inputs);
            && h in t.store.nv && t.store.nv[h] == s.store.nv[h]
            && Uses(t.history, h) == Uses(s.history, h)
  {
    RunMoves(w, s, inputs, h);
    hide AfterAll, NoWrites, Uses, Successes, Streak;
  }
}
