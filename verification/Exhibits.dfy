/** Runs in a plain world, where every hash is one zero octet, that show what the
  conditions of the general results are for. */
module Exhibits {
  import opened Prelude
  import opened Marshal
  import opened Commands
  import opened CommandParse
  import opened State
  import opened Authorization
  import opened Audit
  import opened Actions
  import opened Pipeline
  import opened Frames
  import opened LockoutBudget
  import opened BoundSessions
  import opened SpecialLockout
  import opened AuditTrail
  import opened Restart
  import Device

  const CC_GET_RANDOM := 0x17B
  const HANDLE: uint32 := HMAC_SESSION_FIRST

  const PLAIN_SESSION :=
    Session.Session(HmacSession, 0x000B, [0], [0], [], RH_NULL, [], false, 0, EmptyPolicy(1), false, [])

  /** What a command does in the plain world. */
  function PlainEffect(s: Tpm, q: Request): Effect {
    Effect(Ok(Response(None, [])), s.store, map[], if q.code == CC_START_AUTH_SESSION then Some(PLAIN_SESSION) else None,
           if q.code == CC_SHUTDOWN then s.mode.(shutdownType := SU_STATE, orderly := true) else s.mode,
           true, |q.parameters|)
  }

  const PLAIN := World(
    code => Some(CommandInfo(0, 0, false, false)),
    (code, i) => NoRole,
    (code, i, h) => true,
    code => false,
    code => false,
    code => false,
    code => None,
    code => None,
    (store, h) => true,
    (store, h) => Ok(()),
    (store, b) => true,
    (store, h) => Ok([]),
    store => ([], None),
    (store, h) => Fail(RC_HANDLE),
    store => 0,
    alg => Some(1),
    (alg, data) => [0],
    (alg, key, data) => [0],
    (session, input, auth, body, encrypts) => Ok(body),
    (store, n) => (store, Ok(Filled(0, n))),
    PlainEffect,
    store => false,
    (s, q) => Ok(()),
    (store, h) => store)

  const PLAIN_INFO := CommandInfo(0, 0, false, false)

  /** A TPM that runs, with nothing in it. */
  const RUNNING := Tpm(
    Lockout(0, 32, 1000, 1000, false, 0, 0), map[], map[], Store(map[], []), AuditLog(0x000B, [], 0, []), RH_UNASSIGNED, false,
    Mode(true, false, false, false, SU_NONE, false, [], true, false), Clock(0, 0), Beginning)

  /** The same in Lockout mode, with a session bound to an entity the lockout protects. */
  const LOCKED := RUNNING.(
    lockout := RUNNING.lockout.(failedTries := 32),
    sessions := map[HANDLE := PLAIN_SESSION.(sessionKey := [7], bindUsesLockout := true)])

  /** TPM2_GetRandom, audited by that session under a wrong HMAC. */
  const GUESS := Request(PLAIN_INFO, ST_SESSIONS, CC_GET_RANDOM, [], [SessionInput(HANDLE, [], AUDIT + CONTINUE_SESSION, [1])], [0, 8], 0)

  /** A short request is read from its buffer. */
  lemma ShortIsReceived(w: World, s: Tpm, q: Request)
    requires WellFormed(w.table, q) && |q.handles| <= 1 && |q.parameters| <= 2 && q.locality == 0 && !s.mode.failureMode
    ensures Fits(q) && Received(w, s, Print(q), 0) == Ok(q)
  {
    AreaLength(q.sessions);
    assert |PutItems(q.handles, Be32)| <= 4 by {
      HandlesLength(q.handles);
    }
    hide PrintArea, WellFormedSession, Reserved, PutItems;
    PrintThenParse(w.table, q);
  }

  lemma HandlesLength(handles: seq<uint32>)
    requires |handles| <= 1
    ensures |PutItems(handles, Be32)| <= 4
  {
    if handles != [] {
      assert PutItems(handles[1..], Be32) == [];
    }
  }

  /** The guess passes every check but that of its HMAC. */
  lemma GuessMisses()
    ensures WellFormed(PLAIN.table, GUESS) && Guesses(PLAIN, LOCKED, GUESS)
  {
    hide FirstWith, TrimAuth;
    assert HandlesAllowed(PLAIN, GUESS, 0) == Ok(());
    assert Gated(PLAIN, LOCKED, GUESS) == Step(LOCKED, Ok(()));
    assert CpHash(PLAIN, 0x000B, CC_GET_RANDOM, [], [0, 8]) == Ok([0]);
    assert KeyHmac(PLAIN, LOCKED, GUESS, [], 0) == Ok([0]);
  }

  /** In Lockout mode a protected value is guessed as often as one likes: no answer of
    TPM_RC_LOCKOUT, and failedTries stays where it is. */
  lemma LockoutDoesNotHoldGuessesBack(n: nat)
    ensures Fits(GUESS) && LOCKED.lockout.LockedOut() && !LOCKED.lockout.ProtectionOff()
    ensures var t := AfterAll(PLAIN, LOCKED, Repeated(Command(Print(GUESS), 0), n));
            t.lockout == LOCKED.lockout && GuardedFailures(t) == n
  {
    hide Guesses, WellFormed, Print, Received, AfterAll;
    GuessMisses();
    ShortIsReceived(PLAIN, LOCKED, GUESS);
    GuessesAreUnlimited(PLAIN, LOCKED, Command(Print(GUESS), 0), n);
  }

  // ---- A startup that counts ----

  /** TPM2_Startup(CLEAR). */
  const STARTUP := Request(PLAIN_INFO, ST_NO_SESSIONS, CC_STARTUP, [], [], [0, 0], 0)

  const OFF := RUNNING.(mode := RUNNING.mode.(started := false))

  lemma StartupPasses(s: Tpm)
    requires !s.mode.started && s.mode.nvAvailable && !s.mode.nvWriteFailed && s.mode.ppCommands == [] && !s.mode.readOnly
    ensures Admitted(PLAIN, s, STARTUP) == Step(s, Ok(Admission([], [], [0, 0])))
  {
    assert HandlesAllowed(PLAIN, STARTUP, 0) == Ok(());
    assert Gated(PLAIN, s, STARTUP) == Step(s, Ok(()));
    assert Resolved(PLAIN, s, STARTUP) == Ok([]);
    assert AuthorizedFrom(PLAIN, s, STARTUP, [], 0) == Step(s, Ok([]));
  }

  /** After no orderly shutdown failedTries rises at a TPM2_Startup, whose answer is not TPM_RC_AUTH_FAIL. */
  lemma StartupCountsATry()
    ensures WellFormed(PLAIN.table, STARTUP) && Fits(STARTUP)
    ensures var t := Executed(PLAIN, OFF, Print(STARTUP), 0);
            t.tpm.lockout.failedTries == OFF.lockout.failedTries + 1 && !Blames(t.result)
  {
    ShortIsReceived(PLAIN, OFF, STARTUP);
    hide WellFormed, Print, Received, Admitted, Completed;
    StartupPasses(OFF);
    AdmittedCounts(PLAIN, OFF, STARTUP);
  }

  // ---- A status that names no session ----

  const START := Request(PLAIN_INFO, ST_NO_SESSIONS, CC_START_AUTH_SESSION, [], [], [], 0)

  /** TPM2_Shutdown(STATE), audited by the session that was started. */
  const SHUTDOWN := Request(PLAIN_INFO, ST_SESSIONS, CC_SHUTDOWN, [], [SessionInput(HANDLE, [], AUDIT + CONTINUE_SESSION, [])], [0, 1], 0)

  const AROUND := Device.Around(PLAIN, s => None, bytes => None, (store, clock, elapsed) => None, store => [], (x, y) => [])

  lemma SessionStarts()
    ensures var t := Handled(PLAIN, RUNNING, START).tpm;
            t == RUNNING.(sessions := map[HANDLE := PLAIN_SESSION], history := t.history)
  {
    assert HandlesAllowed(PLAIN, START, 0) == Ok(());
    assert Gated(PLAIN, RUNNING, START) == Step(RUNNING, Ok(()));
    assert Resolved(PLAIN, RUNNING, START) == Ok([]);
    assert AuthorizedFrom(PLAIN, RUNNING, START, [], 0) == Step(RUNNING, Ok([]));
    assert Admitted(PLAIN, RUNNING, START) == Step(RUNNING, Ok(Admission([], [], [])));
    assert !IdTaken(RUNNING, 0) && FirstFree(RUNNING, 0) == Some(0);
    assert NewHandle(RUNNING, HmacSession) == Some(HANDLE);
  }

  lemma ShutdownIsAdmitted(s: Tpm)
    requires s == RUNNING.(sessions := map[HANDLE := PLAIN_SESSION], history := s.history)
    ensures Admitted(PLAIN, s, SHUTDOWN) == Step(s, Ok(Admission([], [], [0, 1])))
  {
    assert HandlesAllowed(PLAIN, SHUTDOWN, 0) == Ok(());
    assert Gated(PLAIN, s, SHUTDOWN) == Step(s, Ok(()));
    assert SessionHandlesAnswer(s, SHUTDOWN, 1) == Ok(()) && SessionHandlesAnswer(s, SHUTDOWN, 0) == Ok(());
    assert SessionAttributesAnswer(SHUTDOWN, 1, Taken(true, false, false)) == Ok(());
    assert SessionAttributesAnswer(SHUTDOWN, 0, Taken(false, false, false)) == Ok(());
    assert AuthorizedFrom(PLAIN, s, SHUTDOWN, [], 0) == Step(s, Ok([]));
    assert ExtraSessions(PLAIN, s, SHUTDOWN, [], 1) == Step(s, Ok(()));
    assert ExtraSessions(PLAIN, s, SHUTDOWN, [], 0) == Step(s, Ok(()));
    assert FirstWith(SHUTDOWN.sessions, AUDIT, 0) == Some(0);
    assert FirstWith(SHUTDOWN.sessions, DECRYPT, 0) == None;
  }

  /** The TPM with its one session, once it has been told to shut down. */
  predicate ShutDown(s: Tpm) {
    && s.sessions.Keys == {HANDLE} && s.sessions[HANDLE].authHash == 0x000B && !s.sessions[HANDLE].IsPolicy()
    && s.saved == map[]
    && s.mode == RUNNING.mode.(shutdownType := SU_STATE, orderly := true)
    && s.audit == RUNNING.audit && s.store.nv == map[]
  }

  lemma ShutdownRuns(s: Tpm)
    requires s == RUNNING.(sessions := map[HANDLE := PLAIN_SESSION], history := s.history)
    ensures var ran := RunCommand(PLAIN, s.(suppressed := false), SHUTDOWN);
            ShutDown(ran.tpm) && ran.result == Ok(Response(None, [])) && ran.consumed == 2
  {
    assert SHUTDOWN.code == CC_SHUTDOWN;
  }

  lemma ShutdownRolls(s: Tpm)
    requires ShutDown(s)
    ensures var t := RolledFrom(PLAIN, s, SHUTDOWN, 0); t.result.Ok? && ShutDown(t.tpm)
  {
    var t := RolledAt(PLAIN, s, SHUTDOWN, 0).tpm;
    assert t.sessions.Keys == {HANDLE};
    assert RolledFrom(PLAIN, t, SHUTDOWN, 1) == Step(t, Ok(()));
  }

  lemma ShutdownIsAudited(s: Tpm)
    requires ShutDown(s)
    ensures var t := AfterAudit(PLAIN, s, SHUTDOWN, [], [0, 1], []);
            t.result.Ok? && ShutDown(t.tpm) && t.tpm.exclusive == HANDLE
  {
    hide Joined, Be32;
    assert FirstWith(SHUTDOWN.sessions, AUDIT, 0) == Some(0);
    var t := AfterSessionAudit(PLAIN, s, SHUTDOWN, [], [0, 1], []);
    assert t.result.Ok? && t.tpm.sessions.Keys == {HANDLE};
  }

  lemma ShutdownCloses(s: Tpm)
    requires ShutDown(s)
    ensures var t := AfterSessions(PLAIN, s, SHUTDOWN, 0); ShutDown(t) && t.exclusive == s.exclusive
  {
    var t := AfterSession(PLAIN, s, SHUTDOWN, 0);
    assert t.sessions.Keys == {HANDLE};
    assert AfterSessions(PLAIN, t, SHUTDOWN, 1) == t;
  }

  lemma ShutdownAudits(s: Tpm)
    requires s == RUNNING.(sessions := map[HANDLE := PLAIN_SESSION], history := s.history)
    ensures var t := Handled(PLAIN, s, SHUTDOWN).tpm; ShutDown(t) && t.exclusive == HANDLE
  {
    hide Admitted, RunCommand, RolledFrom, AfterAudit, AfterSessions, ShutDown, ResponseAttributes;
    ShutdownIsAdmitted(s);
    ShutdownRuns(s);
    var ran := RunCommand(PLAIN, s.(suppressed := false), SHUTDOWN).tpm;
    ShutdownRolls(ran);
    var rolled := RolledFrom(PLAIN, ran, SHUTDOWN, 0).tpm;
    ShutdownIsAudited(rolled);
    assert FirstWith(SHUTDOWN.sessions, ENCRYPT, 0) == None;
    var audited := AfterAudit(PLAIN, rolled, SHUTDOWN, [], [0, 1], []).tpm;
    ShutdownCloses(audited);
    FlushedIsShutDown(AfterSessions(PLAIN, audited, SHUTDOWN, 0));
  }

  lemma FlushedIsShutDown(s: Tpm)
    requires ShutDown(s)
    ensures Flushed(PLAIN, s, SHUTDOWN) == s
  {
  }

  lemma StartupSucceeds(s: Tpm)
    requires s.audit.commands == []
    ensures Completed(PLAIN, s, STARTUP, Admission([], [], [0, 0])).result.Ok?
  {
    hide AfterStartup, AfterSessions, ResponseAttributes;
    assert STARTUP.(parameters := [0, 0]) == STARTUP;
    var ran := RunCommand(PLAIN, s.(suppressed := false), STARTUP);
    assert ran.result == Ok(Response(None, [])) && ran.consumed == 2;
    assert ran.tpm.audit.commands == [] by {
      StartupKeepsCommands(s.(suppressed := false), PlainEffect(s.(suppressed := false).Visible(), STARTUP));
    }
  }

  lemma StartupKeepsCommands(s: Tpm, e: Effect)
    ensures AfterStartup(s, e, STARTUP).audit.commands == s.audit.commands
  {
    hide LockoutStarted, PendingCounted;
  }

  lemma SessionAuditsShutdown()
    ensures Fits(START) && Fits(SHUTDOWN)
    ensures var t := AfterAll(PLAIN, RUNNING, [Command(Print(START), 0), Command(Print(SHUTDOWN), 0)]);
            ShutDown(t) && t.exclusive == HANDLE
  {
    hide Print, Fits, Handled, Received, WellFormed, ShutDown;
    PlainIsWellFormed();
    ShortIsReceived(PLAIN, RUNNING, START);
    SessionStarts();
    var s1 := Handled(PLAIN, RUNNING, START).tpm;
    ShortIsReceived(PLAIN, s1, SHUTDOWN);
    ShutdownAudits(s1);
    var t := Handled(PLAIN, s1, SHUTDOWN).tpm;
    var inputs := [Command(Print(START), 0), Command(Print(SHUTDOWN), 0)];
    assert inputs[1..] == [Command(Print(SHUTDOWN), 0)] && AfterAll(PLAIN, t, inputs[1..][1..]) == t;
    assert AfterAll(PLAIN, s1, inputs[1..]) == t;
  }

  /** From just after a TPM Reset: a session is started, TPM2_Shutdown(STATE) is audited
    by it, the power goes and comes back, and TPM2_Startup succeeds. The exclusive status
    then still names the session, which is no more. */
  lemma StatusOutlivesItsSession()
    ensures State.Lawful(PLAIN) && Sound(PLAIN, RUNNING, Here(RUNNING)) && RUNNING.mode.started
    ensures Fits(START) && Fits(SHUTDOWN) && Fits(STARTUP)
    ensures var t := AfterAll(PLAIN, RUNNING, [Command(Print(START), 0), Command(Print(SHUTDOWN), 0)]);
            var u := Executed(PLAIN, PowerCycled(AROUND, t, [], true, true), Print(STARTUP), 0);
            u.result.Ok? && u.tpm.exclusive == HANDLE && !u.tpm.Open(HANDLE)
  {
    ResetIsSound(PLAIN, RUNNING);
    hide Print, Fits, Executed, AfterAll, PowerCycled, WellFormed, ShutDown, Sound;
    PlainIsWellFormed();
    SessionAuditsShutdown();
    Restarted(AfterAll(PLAIN, RUNNING, [Command(Print(START), 0), Command(Print(SHUTDOWN), 0)]));
  }

  lemma PlainIsWellFormed()
    ensures WellFormed(PLAIN.table, START) && WellFormed(PLAIN.table, SHUTDOWN) && WellFormed(PLAIN.table, STARTUP)
  {
  }

  lemma Restarted(t: Tpm)
    requires ShutDown(t) && t.exclusive == HANDLE && WellFormed(PLAIN.table, STARTUP)
    ensures Fits(STARTUP)
    ensures var u := Executed(PLAIN, PowerCycled(AROUND, t, [], true, true), Print(STARTUP), 0);
            u.result.Ok? && u.tpm.exclusive == HANDLE && !u.tpm.Open(HANDLE)
  {
    var on := PowerCycled(AROUND, t, [], true, true);
    assert on.audit.commands == [] && on.mode.nvAvailable && !on.mode.nvWriteFailed && on.mode.ppCommands == []
        && !on.mode.readOnly && !on.mode.failureMode;
    CycleKeeps(AROUND, t, [], true, true);
    hide Print, Received, PowerCycled, WellFormed, Admitted, Completed, Fits;
    ShortIsReceived(PLAIN, on, STARTUP);
    StartupPasses(on);
    StartupSucceeds(on);
    StartupRan(PLAIN, on, STARTUP, Admission([], [], [0, 0]));
  }

  // ---- The special lockout ----

  const MANAGED_INFO := CommandInfo(1, 1, true, false)

  /** The plain world with a command authorized by lockoutAuth, whose value is one octet of five. */
  const MANAGED := PLAIN.(
    table := code => Some(MANAGED_INFO),
    role := (code, i) => User,
    lockoutEntity := store => ([5], Some((0x000B, [0]))))

  const POLICY: uint32 := POLICY_SESSION_FIRST

  /** A TPM with a policy session that satisfies the policy of lockoutAuth and calls for its value. */
  const POLICED := RUNNING.(sessions := map[POLICY :=
    PLAIN_SESSION.(kind := PolicySession, policy := EmptyPolicy(1).(authValueNeeded := true))])

  /** TPM2_Clear under that session, with a wrong HMAC. */
  const CLEAR := Request(MANAGED_INFO, ST_SESSIONS, CC_CLEAR, [RH_LOCKOUT], [SessionInput(POLICY, [], CONTINUE_SESSION, [1])], [], 0)

  /** The same under a wrong password. */
  const CLEAR_BY_PASSWORD := CLEAR.(sessions := [SessionInput(RS_PW, [], CONTINUE_SESSION, [1])])

  /** TPM2_DictionaryAttackLockReset under a wrong password. */
  const RESET := CLEAR_BY_PASSWORD.(code := CC_DICTIONARY_ATTACK_LOCK_RESET)

  /** A TPM in the special lockout and in Lockout mode. */
  const SECLUDED := RUNNING.(lockout := RUNNING.lockout.(failedTries := 32, inLockout := true))

  lemma ManagedIsResolved(s: Tpm, q: Request)
    requires (q == CLEAR && s == POLICED) || (q == CLEAR_BY_PASSWORD && s == RUNNING) || (q == RESET && s == SECLUDED)
    ensures WellFormed(MANAGED.table, q) && Gated(MANAGED, s, q).tpm == s && Gated(MANAGED, s, q).result.Ok?
    ensures Resolved(MANAGED, s, q) == Ok([[]])
  {
    assert HandlesAllowed(MANAGED, q, 1) == Ok(()) && HandlesAllowed(MANAGED, q, 0) == Ok(());
    assert Names(MANAGED, s, q, 1) == Ok([]);
    var empty: Bytes := [];
    assert [empty] + [] == [empty];
    assert SessionHandlesAnswer(s, q, 1) == Ok(()) && SessionHandlesAnswer(s, q, 0) == Ok(());
    assert SessionAttributesAnswer(q, 1, Taken(false, false, false)) == Ok(());
  }

  /** A command whose one authorization fails answers so. */
  lemma FailedIsAnswered(s: Tpm, q: Request, t: Tpm, e: TpmRc)
    requires Gated(MANAGED, s, q).tpm == s && Gated(MANAGED, s, q).result.Ok? && Resolved(MANAGED, s, q) == Ok([[]])
    requires q.info.authHandles == 1 && AuthorizedAt(MANAGED, s, q, [[]], 0) == Step(t, Err(e))
    ensures Handled(MANAGED, s, q) == Step(t, Err(e))
  {
    hide Gated, Resolved, AuthorizedAt, FinalChecks, Completed;
  }

  lemma PolicyFails()
    ensures var t := AuthorizedAt(MANAGED, POLICED, CLEAR, [[]], 0);
            && t.result == Err(TpmRc(RC_AUTH_FAIL, Position.Session(1)))
            && t.tpm.lockout.failedTries == 1 && !t.tpm.lockout.inLockout
  {
    hide FirstWith, Joined;
    assert CpHash(MANAGED, 0x000B, CC_CLEAR, [[]], []) == Ok([0]);
  }

  lemma PasswordFails()
    ensures var t := AuthorizedAt(MANAGED, RUNNING, CLEAR_BY_PASSWORD, [[]], 0);
            && t.result == Err(TpmRc(RC_AUTH_FAIL, Position.Session(1)))
            && t.tpm.lockout.failedTries == 1 && t.tpm.lockout.inLockout
  {
    hide FirstWith, Joined;
    assert CpHash(MANAGED, ALG_SHA256, CC_CLEAR, [[]], []) == Ok([0]);
    assert TrimAuth([1]) == [1] && TrimAuth([5]) == [5];
  }

  /** A failed HMAC of a policy that calls for the value of lockoutAuth does not enter the
    special lockout, although it is counted and answered as a failed password is, which does. */
  lemma PolicyFailureDoesNotEnter()
    ensures Fits(CLEAR) && Fits(CLEAR_BY_PASSWORD)
    ensures var t := Executed(MANAGED, POLICED, Print(CLEAR), 0);
            && t.result == Err(TpmRc(RC_AUTH_FAIL, Position.Session(1)))
            && t.tpm.lockout.failedTries == 1 && !t.tpm.lockout.inLockout
    ensures var t := Executed(MANAGED, RUNNING, Print(CLEAR_BY_PASSWORD), 0);
            && t.result == Err(TpmRc(RC_AUTH_FAIL, Position.Session(1)))
            && t.tpm.lockout.failedTries == 1 && t.tpm.lockout.inLockout
  {
    hide Print, Fits, Received, WellFormed, Gated, Resolved, AuthorizedAt, Handled;
    ManagedIsResolved(POLICED, CLEAR);
    ShortIsReceived(MANAGED, POLICED, CLEAR);
    PolicyFails();
    var policed := AuthorizedAt(MANAGED, POLICED, CLEAR, [[]], 0);
    FailedIsAnswered(POLICED, CLEAR, policed.tpm, policed.result.error);
    ManagedIsResolved(RUNNING, CLEAR_BY_PASSWORD);
    ShortIsReceived(MANAGED, RUNNING, CLEAR_BY_PASSWORD);
    PasswordFails();
    var running := AuthorizedAt(MANAGED, RUNNING, CLEAR_BY_PASSWORD, [[]], 0);
    FailedIsAnswered(RUNNING, CLEAR_BY_PASSWORD, running.tpm, running.result.error);
  }

  lemma ResetIsGuess()
    ensures WellFormed(MANAGED.table, RESET) && GuessesReset(MANAGED, SECLUDED, RESET)
  {
    ManagedIsResolved(SECLUDED, RESET);
    assert TrimAuth([1]) == [1] && TrimAuth([5]) == [5];
    hide WellFormed, Gated, Resolved, TrimAuth;
  }

  /** In the special lockout and in Lockout mode lockoutAuth is guessed as often as one
    likes, by TPM2_DictionaryAttackLockReset. */
  lemma ResetIsNotHeldBack(n: nat)
    ensures Fits(RESET) && SECLUDED.lockout.inLockout && SECLUDED.lockout.LockedOut()
    ensures SpecialUses(AfterAll(MANAGED, SECLUDED, Repeated(Command(Print(RESET), 0), n))) == n
  {
    hide GuessesReset, WellFormed, Print, Fits, Received, AfterAll;
    ResetIsGuess();
    ShortIsReceived(MANAGED, SECLUDED, RESET);
    ResetGuessesAreUnlimited(MANAGED, SECLUDED, Command(Print(RESET), 0), n);
  }
}
