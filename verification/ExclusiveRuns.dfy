/** The exclusive status told by the commands of a run rather than by its history. */
module ExclusiveRuns {
  import opened Prelude
  import opened Commands
  import Marshal
  import opened CommandParse
  import opened State
  import opened Authorization
  import opened Audit
  import opened Actions
  import opened Pipeline
  import opened Frames
  import opened Recovery
  import opened LockoutBudget
  import opened AuditTrail
  import opened AuditProperties

  // ---- What one input says ----

  /** The input succeeds, and is not one of the exempt commands without an audit session. */
  predicate Disturbs(w: World, s: Tpm, input: Input) {
    && input.Command? && Executed(w, s, input.buf, input.locality).result.Ok?
    && var q := Received(w, s, input.buf, input.locality).value;
       !(AuditHandle(q) == None && KeepsExclusive(q.code))
  }

  /** The input is audited by session `h`. */
  predicate Audits(w: World, s: Tpm, input: Input, h: uint32) {
    && Asked(w, s, input).Some?
    && var q := Asked(w, s, input).value;
       var admitted := Admitted(w, s, q);
       && AuditHandle(q) == Some(h) && admitted.result.Ok?
       && Accounted(w, admitted.tpm, q, admitted.result.value).result.Ok?
  }

  // ---- Back through the stages of a command ----

  /** No answer is noted between `s` and `t`, and one other thing at most. */
  ghost predicate NotesOne(s: Tpm, t: Tpm) {
    t.history == s.history || (t.history.Then? && t.history.past == s.history && !t.history.last.Answered?)
  }

  /** What is uninterrupted at `t` was so at `s`. */
  ghost predicate Reaches(s: Tpm, t: Tpm, h: uint32) {
    Uninterrupted(t.history, h) ==> Uninterrupted(s.history, h)
  }

  lemma LockoutActionsNoteOne(s: Tpm, q: Request, e: Effect)
    ensures NotesOne(s, AfterOther(s, e)) && NotesOne(s, DictionaryAttackParameters(s, q).tpm)
    ensures NotesOne(s, Clear(s, e).tpm) && NotesOne(s, AfterStartup(s, e, q))
  {
    hide ReadParameters, WithPolicies, LockoutStarted, PendingCounted, IsResume;
  }

  lemma AuditActionsNoteOne(w: World, s: Tpm, q: Request, e: Effect)
    ensures NotesOne(s, SetStatus(w, s, q).tpm) && NotesOne(s, Report(s, q, e).tpm)
  {
    hide Marshal.GetList, Ordered, Removed, Added, WithPolicies, Marshal.ReadU32, Marshal.ReadU16;
  }

  lemma SessionActionsNoteOne(w: World, s: Tpm, q: Request, e: Effect)
    ensures NotesOne(s, FlushContext(s, q, e).tpm)
    ensures NotesOne(s, ContextSave(w, s, q, e).tpm) && NotesOne(s, ContextLoad(s, e).tpm)
  {
    hide WithPolicies, FlushTarget, IsFlushableSession, IsSessionHandle, Marshal.ReadU32;
  }

  lemma StartNotesOne(w: World, s: Tpm, e: Effect)
    ensures NotesOne(s, StartAuthSession(w, s, e).tpm)
  {
    hide WithPolicies, NewHandle, EmptyPolicy;
  }

  lemma ActionNotesOne(w: World, s: Tpm, q: Request)
    ensures NotesOne(s, RunCommand(w, s, q).tpm)
  {
    var e := w.action(s.Visible(), q);
    hide DictionaryAttackParameters, Clear, LockoutCleared, AfterStartup, SetStatus, Report, FlushContext, ContextSave,
         ContextLoad, StartAuthSession, AfterOther;
    LockoutActionsNoteOne(s, q, e);
    AuditActionsNoteOne(w, s, q, e);
    SessionActionsNoteOne(w, s, q, e);
    StartNotesOne(w, s, e);
  }

  lemma ActedReaches(w: World, s: Tpm, q: Request, a: Admission, h: uint32)
    ensures Reaches(s, Acted(w, s, q, a), h)
  {
    hide RunCommand;
    ActionNotesOne(w, s.(suppressed := false), q.(parameters := a.parameters));
  }

  lemma {:induction false} ClosingReaches(w: World, s: Tpm, q: Request, i: nat, h: uint32)
    requires i <= |q.sessions|
    ensures Reaches(s, AfterSessions(w, s, q, i), h)
    decreases |q.sessions| - i
  {
    if i < |q.sessions| {
      ClosingReaches(w, AfterSession(w, s, q, i), q, i + 1, h);
    }
  }

  lemma SameRecordsReach(s: Tpm, t: Tpm, h: uint32)
    requires Records(t.history) == Records(s.history)
    ensures Reaches(s, t, h)
  {
    TrailsOfRecords(s.history, h, 0);
    TrailsOfRecords(t.history, h, 0);
  }

  /** Past the audit update a command that leaves `h` uninterrupted was audited by `h`, or
    is exempt and found it uninterrupted. */
  lemma CompletedReaches(w: World, s: Tpm, q: Request, a: Admission, h: uint32)
    requires Uninterrupted(Completed(w, s, q, a).tpm.history, h)
    ensures (AuditHandle(q) == Some(h) && Accounted(w, s, q, a).result.Ok?)
         || (Uninterrupted(s.history, h)
             && (Completed(w, s, q, a).result.Ok? ==> AuditHandle(q) == None && KeepsExclusive(q.code)))
  {
    hide Acted, Accounted, AfterSessions, ResponseAttributes, AuditHandle, KeepsExclusive, AsksReset;
    SuccessIsRecorded(w, s, q, a);
    ActedReaches(w, s, q, a, h);
    ClosingReaches(w, Accounted(w, s, q, a).tpm, q, 0, h);
  }

  lemma HandledReaches(w: World, s: Tpm, q: Request, h: uint32)
    requires Uninterrupted(Handled(w, s, q).tpm.history, h)
    ensures var admitted := Admitted(w, s, q);
            || (AuditHandle(q) == Some(h) && admitted.result.Ok?
                && Accounted(w, admitted.tpm, q, admitted.result.value).result.Ok?)
            || (Uninterrupted(s.history, h)
                && (Handled(w, s, q).result.Ok? ==> AuditHandle(q) == None && KeepsExclusive(q.code)))
  {
    hide Admitted, Completed, Accounted, AuditHandle, KeepsExclusive;
    GatedFrame(w, s, q);
    AdmittedFrame(w, s, q);
    hide Records;
    var admitted := Admitted(w, s, q);
    SameRecordsReach(s, admitted.tpm, h);
    if admitted.result.Ok? {
      CompletedReaches(w, admitted.tpm, q, admitted.result.value, h);
    }
  }

  lemma {:induction false} RecoveringKeepsRecords(s: Tpm, time: uint64)
    ensures Records(Recovering(s, time).history) == Records(s.history)
    decreases s.lockout.failedTries
  {
    if s.lockout.failedTries > 0 && time >= s.lockout.nextRecovery {
      RecoveringKeepsRecords(s.(lockout := s.lockout.(
        failedTries := s.lockout.failedTries - 1,
        nextRecovery := SaturatingAdd(s.lockout.nextRecovery, s.lockout.recoveryTime * 1000, U64_MAX))).Note(Recovered), time);
    }
  }

  /** An input that leaves `h` uninterrupted is audited by `h`, or disturbs nothing and found it uninterrupted. */
  lemma InputReaches(w: World, s: Tpm, input: Input, h: uint32)
    requires Uninterrupted(After(w, s, input).history, h)
    ensures Audits(w, s, input, h) || (Uninterrupted(s.history, h) && !Disturbs(w, s, input))
  {
    hide Handled, Admitted, Accounted, AuditHandle, KeepsExclusive, Parsed, ModeAnswer;
    match input {
      case Elapse(time) =>
        RecoveringKeepsRecords(s.(clock := s.clock.(time := time)), time);
        hide Recovering, LockoutEnded, Records;
        SameRecordsReach(s, After(w, s, input), h);
      case Command(buf, locality) =>
        if Received(w, s, buf, locality).Ok? {
          HandledReaches(w, s, Received(w, s, buf, locality).value, h);
        }
    }
  }

  // ---- Over a run ----

  /** The state in which input `i` arrives. */
  function StateAt(w: World, s: Tpm, inputs: seq<Input>, i: nat): Tpm
    requires i <= |inputs|
  {
    AfterAll(w, s, inputs[..i])
  }

  lemma {:induction false} AfterLast(w: World, s: Tpm, inputs: seq<Input>)
    requires inputs != []
    ensures AfterAll(w, s, inputs) == After(w, AfterAll(w, s, inputs[..|inputs| - 1]), inputs[|inputs| - 1])
    decreases |inputs|
  {
    hide After;
    if |inputs| > 1 {
      AfterLast(w, After(w, s, inputs[0]), inputs[1..]);
      assert inputs[..|inputs| - 1][1..] == inputs[1..][..|inputs| - 2];
    }
  }

  /** Input `k - 1` is the last that `h` audits, none if `k` is zero, and none from `k` on disturbs it. */
  ghost predicate QuietSince(w: World, s: Tpm, inputs: seq<Input>, h: uint32, k: int) {
    && 0 <= k <= |inputs|
    && (if k == 0 then Uninterrupted(s.history, h) else Audits(w, StateAt(w, s, inputs, k - 1), inputs[k - 1], h))
    && forall j :: k <= j < |inputs| ==>
         !Disturbs(w, StateAt(w, s, inputs, j), inputs[j]) && !Audits(w, StateAt(w, s, inputs, j), inputs[j], h)
  }

  lemma QuietGrows(w: World, s: Tpm, inputs: seq<Input>, h: uint32, k: int)
    requires inputs != [] && QuietSince(w, s, inputs[..|inputs| - 1], h, k)
    requires var t := AfterAll(w, s, inputs[..|inputs| - 1]);
             !Disturbs(w, t, inputs[|inputs| - 1]) && !Audits(w, t, inputs[|inputs| - 1], h)
    ensures QuietSince(w, s, inputs, h, k)
  {
    hide Disturbs, Audits, Uninterrupted, AfterAll;
    var init := inputs[..|inputs| - 1];
    forall j | 0 <= j < |init| ensures StateAt(w, s, inputs, j) == StateAt(w, s, init, j) && inputs[j] == init[j] {
      assert init[..j] == inputs[..j];
    }
  }

  lemma {:induction false} UninterruptedIsQuiet(w: World, s: Tpm, inputs: seq<Input>, h: uint32)
    requires Uninterrupted(AfterAll(w, s, inputs).history, h)
    ensures exists k :: QuietSince(w, s, inputs, h, k)
    decreases |inputs|
  {
    if inputs == [] {
      assert QuietSince(w, s, inputs, h, 0);
    } else {
      hide After, Disturbs, Audits, Uninterrupted, QuietSince;
      var init, last := inputs[..|inputs| - 1], inputs[|inputs| - 1];
      AfterLast(w, s, inputs);
      InputReaches(w, AfterAll(w, s, init), last, h);
      if Audits(w, AfterAll(w, s, init), last, h) {
        AuditedIsQuiet(w, s, inputs, h);
      } else {
        UninterruptedIsQuiet(w, s, init, h);
        var k :| QuietSince(w, s, init, h, k);
        QuietGrows(w, s, inputs, h, k);
      }
    }
  }

  lemma AuditedIsQuiet(w: World, s: Tpm, inputs: seq<Input>, h: uint32)
    requires inputs != [] && Audits(w, AfterAll(w, s, inputs[..|inputs| - 1]), inputs[|inputs| - 1], h)
    ensures QuietSince(w, s, inputs, h, |inputs|)
  {
    hide Audits, AfterAll;
  }

  /** If a command with auditExclusive succeeds after a run, its session is open, and every
    input of the run that succeeded after the last that session audited was ContextSave,
    ContextLoad, FlushContext, Startup or ReadClock without an audit session. */
  lemma ExclusiveSuccessSpansInputs(w: World, s: Tpm, inputs: seq<Input>, buf: Bytes, locality: nat)
    requires Lawful(w) && Sound(w, s, Here(s)) && s.mode.started
    requires var t := AfterAll(w, s, inputs);
             && Executed(w, t, buf, locality).result.Ok?
             && AsksExclusive(Received(w, t, buf, locality).value)
    ensures var t := AfterAll(w, s, inputs);
            var h := AuditHandle(Received(w, t, buf, locality).value).value;
            OpenAudit(t, h) && exists k :: QuietSince(w, s, inputs, h, k)
  {
    hide AfterAll, Received, Admitted, Completed, Sound, QuietSince, Uninterrupted;
    var t := AfterAll(w, s, inputs);
    var q := Received(w, t, buf, locality).value;
    ExclusiveMeansUninterrupted(w, s, inputs, q);
    UninterruptedIsQuiet(w, s, inputs, AuditHandle(q).value);
  }
}
