# A verified model of swtrust

swtrust is a software TPM 2.0. This project models its logic in Dafny and proves what the
logic promises: over whole command sequences, over every interleaving of its threads, and
for every input of its codecs. `dafny verify dfyconfig.toml` checks all of it.

Code that updates state in place is written as methods on a state object and proved equal to
a function of the old state; what is promised is then proved of that function. Code that only
computes is a function. The cryptography, and the code around the parts followed here, are
function values collected in one record per module (`State.World`, `Duplication.Crypto`,
`Context.Crypto`, `Hcrtm.Crypto`, `Device.Around`). What is assumed of them is the predicate
`Lawful` beside each record: digests have the size of their hash, decryption undoes
encryption and keeps the length, a parent opens what was sealed to it, and loading a saved
state gives the same lasting state. No hash or HMAC is assumed to be injective: where two
inputs would have to collide for a property to fail, the statement names that collision.

## The parts

| files | what they follow |
|---|---|
| `Prelude`, `Marshal`, `Commands`, `CommandParse` | canonical marshalling and the command parser |
| `State`, `Authorization`, `AuthorizationCheck`, `Judging` | one authorization: lockout, PIN counters, passwords, HMACs, policies |
| `Audit`, `Actions`, `Pipeline`, `Execute` | one command from its buffer to its answer |
| `Meaning`, `Frames`, `Admittance` | what each check comes to, what each stage leaves alone, and what all checks together come to |
| `Recovery`, `LockoutBudget`, `BoundSessions`, `SpecialLockout`, `PinBudget` | dictionary attack protection and PIN Indices over whole sequences of commands |
| `AuditTrail`, `AuditRuns`, `AuditProperties`, `ExclusiveRuns`, `Restart` | audit digests, the exclusive status and the audit counter over whole sequences, and over the power |
| `Device` | memory, state file and power when writes may fail |
| `PcrBanks`, `Hcrtm`, `Pcr` | the H-CRTM indications; reading and allocating PCR |
| `Duplication`, `Context` | duplication blobs and saved contexts |
| `Server` | the accept loops and the shutdown wake-up |
| `Lines`, `Console`, `Hex`, `StateFile` | console lines and the text of the state file |
| `Exhibits` | concrete runs at which a property that needs its condition fails without it |
| `Calendar`, `HealthTests` | civil dates; the SP 800-90B health tests |

`State.TpmState.history` (and `Device.Box.written`, `Server.Server.woken`) record what
happened so that statements can speak of it. No check reads them.

## Where the code and what is said of it part ways

* The comments at src/tpm/commands/dispatch.rs:1005-1007 keep a bound entity protected "on every
  use of the session". The HMAC of a session that authorizes no handle is keyed with the session
  key, which carries the authValue it was bound with, and is compared without a look at the
  lockout and without counting a failure. So the budget for protected values does not hold of
  every run: `Exhibits.LockoutDoesNotHoldGuessesBack` is the input, and
  `BoundSessions.ProtectedValuesAreRationed` says of which runs it holds, by the guard
  `BoundSessions.Exposed`. The same answer of TPM_RC_AUTH_FAIL moves no counter
  (`BoundSessions.GuessIsNotCounted`), so failedTries does not rise with every such answer.
* `LockoutState::locked_out` also holds when maxTries is zero. A TPM2_Startup(CLEAR) after no
  orderly shutdown counts one pending failure, so failedTries also rises where the answer is not
  TPM_RC_AUTH_FAIL: exactly at the startups of `Frames.FailedTriesRiseExactly`, one of which is
  `Exhibits.StartupCountsATry`.
* The exclusive audit session is open in every state of a power cycle, but a TPM Restart or
  Resume keeps the status while the loaded sessions are gone. `Restart.RestartKeepsExclusiveOpen`
  gives exactly when the status then still names an open session, and
  `Exhibits.StatusOutlivesItsSession` a run after which it does not.
* TPM2_Clear puts the audit counter to zero, so the counter is counted from there
  (`AuditTrail.LogsBegun`, `AuditTrail.CounterBase`).
* A failed use of lockoutAuth is to enter the special lockout (src/tpm/commands/dispatch.rs:1165-1170).
  The HMAC of a policy session that calls for the value is counted but does not enter it:
  `SpecialLockout.SpecialLockoutIsExact` says which failures do, and
  `Exhibits.PolicyFailureDoesNotEnter` is one that does not. What the special lockout then holds
  back is every use of the value to authorize but those of TPM2_DictionaryAttackLockReset
  (`SpecialLockout.SpecialLockoutHoldsBack`), which can be guessed at without end
  (`Exhibits.ResetIsNotHeldBack`).
* The first window of `HealthTests` starts with a value of zero that no octet was counted for;
  `HealthTests.ZeroStart` is the one extra way a stream can fail, and it needs a cutoff below two.
* The session loop of the parser cannot leave the session list empty, so its last refusal is dead.

## Model

| member | source | states |
|---|---|---|
| Calendar.CivilIsExact | src/util/time.rs:47-58 | The date given is valid and lies exactly `z` days from 1970-01-01 in the proleptic Gregorian calendar, with no 64-bit overflow on the way, for every day number within MAX_CIVIL_DAYS. |
| Calendar.CivilIsOnto | src/util/time.rs:47-58 | A valid date is the date of `z` if and only if its day number is `z`: the conversion is a bijection onto valid dates. |
| Calendar.CivilIsWalk | src/util/time.rs:47-58 | The date is the one reached by stepping `z` days, one at a time, forwards or backwards from 1970-01-01. |
| Calendar.CivilStepsByOneDay | src/util/time.rs:47-58 | The date of the next day number is the next day of the calendar. |
| Calendar.CivilIsIncreasing | src/util/time.rs:47-58 | Dates compare, year then month then day, exactly as their day numbers do. |
| Calendar.MillisRoundTrip | src/util/time.rs:61-76 | Every 64-bit millisecond count is recovered from its broken-down time, whose fields are in range; the clamp is never reached. |
| Calendar.MillisIncreasing | src/util/time.rs:61-76 | Broken-down times compare field by field exactly as the millisecond counts do. |
| Marshal.ReadSizedExact | src/tpm/marshal.rs:17-112 | A TPM2B is read off a buffer if and only if the buffer starts with that value's size and octets, within the limit. |
| Marshal.GetListExact | src/tpm/marshal.rs:287-305 | A counted list is read if and only if the buffer starts with its count, within the limit, and its items. |
| Marshal.Reader.Take | src/tpm/marshal.rs:17-112 | Taking octets yields exactly the next ones or refuses without moving the cursor. |
| Marshal.Reader.Sub | src/tpm/marshal.rs:17-112 | A nested reader covers exactly the next octets and the outer one continues after them. |
| Marshal.Reader.Tpm2b | src/tpm/structures/base.rs:122-133 | The size is judged against the limit before the body is touched. |
| Marshal.Writer.Sized16 | src/tpm/marshal.rs:120-225 | The body follows its length, and a body too long for the field is recorded as an overflow, never truncated. |
| Marshal.Writer.Sized16With | src/tpm/marshal.rs:214-224 | Filling the length in after the structure behind it is written gives the same field, however deep lengths are nested, and overflows exactly when some length does not fit. |
| Marshal.Marshalled | src/tpm/marshal.rs:120-225 | A buffer is given out if and only if every length field holds its length; it is then the fields written, one after another, and reads back as exactly them. |
| Marshal.LayoutReadsBack | src/tpm/marshal.rs:17-225 | Octets read as nested structures of a shape if and only if they are what writing those structures gives and no length field is too small for its structure. |
| CommandParse.ParseHeader | src/tpm/device.rs:39-70 | The header is read with the answers and in the order the code gives them. |
| CommandParse.UnmarshalSession | src/tpm/structures/capability.rs:126-153 | One authorization is read: handle, nonce, attributes without reserved bits, HMAC. |
| CommandParse.UnmarshalSessions | src/tpm/commands/dispatch.rs:545-569 | Sessions are read until the area is used up, and no more than three. |
| CommandParse.UnmarshalAuthorizationArea | src/tpm/commands/dispatch.rs:545-569 | The session loop uses exactly authorizationSize octets, and its last refusal cannot be reached. |
| CommandParse.Parse | src/tpm/commands/dispatch.rs:526-583 | The parser, step by step, is the function the inverse below is about. |
| CommandParse.ParseThenPrint | src/tpm/commands/dispatch.rs:526-583 | Every accepted buffer is reprinted octet for octet from its request. |
| CommandParse.PrintThenParse | src/tpm/commands/dispatch.rs:526-583 | Every well-formed request that fits 4096 octets parses back to itself. |
| CommandParse.AcceptedIffPrinted | src/tpm/commands/dispatch.rs:526-583 | A buffer parses to a request if and only if the request is well formed, fits, and prints as that buffer. |
| AuthorizationCheck.RecordFailure | src/tpm/commands/dispatch.rs:1145-1163 | A failure counts against the lockout unless the entity is exempt or protection is off, saturating, and moves the recovery time. |
| AuthorizationCheck.RecordLockoutFailure | src/tpm/commands/dispatch.rs:1171-1181 | A failure of lockoutAuth enters the special lockout, with its deadline. |
| AuthorizationCheck.RecordPinAttempt | src/tpm/commands/dispatch.rs:1123-1138 | The counter of a PIN Index moves by its kind and by the outcome. |
| AuthorizationCheck.JudgeComparison | src/tpm/commands/dispatch.rs:1067-1093 | A failed comparison is counted and answered TPM_RC_AUTH_FAIL or TPM_RC_BAD_AUTH. |
| AuthorizationCheck.CheckPassword | src/tpm/commands/dispatch.rs:849-862 | A value given in the clear is compared once, after the PIN check, and the outcome recorded. |
| AuthorizationCheck.CheckHmac | src/tpm/commands/dispatch.rs:884-919 | An HMAC is compared once, after the PIN check, and the outcome recorded. |
| AuthorizationCheck.CheckPolicy | src/tpm/commands/dispatch.rs:1195-1354 | A policy session is judged on its restrictions first and then by password or HMAC. |
| AuthorizationCheck.CheckAuthorization | src/tpm/commands/dispatch.rs:835-923 | The whole authorization, in the order of its checks. |
| Meaning.AuthorizedIsExact | src/tpm/commands/dispatch.rs:835-923 | An authorization succeeds if and only if the lockout does not hold the value back, the Index offers the kind chosen, the role allows it, and the password, HMAC or policy is right. |
| Meaning.SessionAttributesAreExact | src/tpm/commands/dispatch.rs:1390-1450 | The session area passes if and only if each session's attributes are allowed by themselves and at most one session audits, one decrypts and one encrypts. |
| Meaning.SessionsEnd | src/tpm/commands/dispatch.rs:1705-1742 | After a command, sessions without continueSession are gone and a policy that authorized a handle is empty again. |
| Judging.AuthorizationIsOneComparison | src/tpm/commands/dispatch.rs:835-1022 | An authorization makes at most one comparison, for its own handle and of the kind its session calls for; it moves failedTries, the PIN counter and the special lockout exactly by its outcome, and never compares a protected value in Lockout mode, nor that of lockoutAuth in the special lockout. |
| Admittance.AdmittedIsExact | src/tpm/commands/execute.rs:44-232 | A command gets to its action if and only if the state allows it, its handles are present, available and named, its sessions loaded with attributes that go together, every authorization shows what it has to, every other session proves its key, the audit session fits, and the first parameter decrypts. |
| SpecialLockout.SpecialLockoutIsExact | src/tpm/commands/dispatch.rs:1165-1181 | An authorization enters the special lockout, with its deadline, if and only if it compares a value for lockoutAuth, the comparison fails, and it is not the HMAC of a policy session. |
| SpecialLockout.SpecialLockoutIsEntered | src/tpm/commands/dispatch.rs:1165-1181 | Over any run in which no action and no deadline ends it, the special lockout holds if and only if it did or such a comparison failed. |
| Exhibits.PolicyFailureDoesNotEnter | src/tpm/commands/dispatch.rs:1306-1353 | The input at which a failed use of lockoutAuth does not enter it: TPM2_Clear under a policy with its value and a wrong HMAC; under a wrong password it does. |
| SpecialLockout.UseIsExact | src/tpm/commands/dispatch.rs:977-1022 | A protected value is put to use if and only if the lockout does not hold it back and all but the value itself is right. |
| SpecialLockout.SpecialLockoutHoldsBack | src/tpm/commands/dispatch.rs:986-998 | Over any run, while the special lockout holds, the value of lockoutAuth is compared to authorize exactly as often as a TPM2_DictionaryAttackLockReset attempts it. |
| SpecialLockout.ResetGuessesAreUnlimited | src/tpm/commands/dispatch.rs:994-998 | Such attempts with a wrong password are compared any number of times. |
| Exhibits.ResetIsNotHeldBack | src/tpm/commands/dispatch.rs:994-998 | The input at which that happens, in the special lockout and in Lockout mode. |
| Audit.UpdateSessionAudit | src/tpm/commands/dispatch.rs:1501-1519 | The session digest is extended with cpHash and rpHash, from zeros at a first use or a reset. |
| Audit.UpdateCommandAudit | src/tpm/commands/dispatch.rs:1534-1545 | The command digest is extended if the command is audited, and the counter moves when a log begins. |
| Audit.UpdateAudit | src/tpm/commands/dispatch.rs:1491-1547 | Session digest, exclusive status and command digest are updated in that order. |
| Audit.CloseSession | src/tpm/commands/dispatch.rs:1706-1741 | One session is closed, or kept without its binding or its spent policy. |
| Audit.CloseSessions | src/tpm/commands/dispatch.rs:1705-1742 | The loop closes each session of the request in order. |
| Audit.SetCommandCodeAuditStatus | src/tpm/commands/attest.rs:512-569 | The algorithm changes alone, ending the log; otherwise the list is set, cleared and sorted by the loops. |
| Audit.AuditListIsOverride | src/tpm/commands/attest.rs:543-568 | A code is listed afterwards if and only if it was or was validly set, and was not cleared; the list is in order without repeats. |
| Actions.NewHandle | src/tpm/core/session.rs:737-764 | A new session handle is in range and shares its low octets with no session, loaded or saved. |
| Execute.Gate | src/tpm/commands/execute.rs:44-161 | The gates, in order. |
| Execute.ResolveNames | src/tpm/commands/execute.rs:167-186 | The loop over the handle area, with its error positions. |
| Execute.CheckSessionHandles | src/tpm/commands/dispatch.rs:223-236 | The loop over the session handles, with its error positions. |
| Execute.CheckSessionAttributes | src/tpm/commands/dispatch.rs:1390-1450 | The loop over the session attributes, with its error positions. |
| Execute.AuthorizeHandle | src/tpm/commands/execute.rs:193-213 | One handle is resolved, its cpHash taken, and its authorization checked. |
| Execute.AuthorizeHandles | src/tpm/commands/execute.rs:192-214 | The authorizations are judged in order and stop at the first that fails. |
| Execute.CheckExtraSessions | src/tpm/commands/execute.rs:221-224 | Every further session proves its session key. |
| Execute.Admit | src/tpm/commands/execute.rs:44-232 | All checks before the action, in order. |
| Execute.RollNonces | src/tpm/commands/dispatch.rs:1360-1383 | The nonces of the sessions still there roll forward in order. |
| Execute.RunAndAccount | src/tpm/commands/execute.rs:234-303 | The action, the surplus check, the nonces, the response encryption and the audit update, in order. |
| Execute.Complete | src/tpm/commands/execute.rs:234-334 | The rest of the command, through closing its sessions. |
| Execute.Execute | src/tpm/commands/execute.rs:24-334 | One command, from failure mode through its answer. |
| Frames.AuthorizedFrame | src/tpm/commands/dispatch.rs:835-923 | Judging an authorization touches the lockout record and PIN counters alone. |
| Frames.RefusedChangesLittle | src/tpm/commands/execute.rs:24-232 | A command refused before its action leaves everything but the shutdown type and orderly bit, the lockout record and PIN counters. |
| Frames.FailedTriesRiseExactly | src/tpm/commands/dispatch.rs:1067-1163 | failedTries rises by at most one for a command and never with TPM_RC_BAD_AUTH; it rises with an answer other than TPM_RC_AUTH_FAIL if and only if the command is a TPM2_Startup whose action succeeds, no Resume, after no orderly shutdown of a TPM started before, with protection on and failedTries below maxTries. |
| Exhibits.StartupCountsATry | src/tpm/core/state.rs:714-727 | The input at which that happens: TPM2_Startup(CLEAR) after no orderly shutdown. |
| Recovery.PassTime | src/tpm/core/state.rs:156-174 | Time takes one try off for each interval gone by and ends the special lockout. |
| BoundSessions.ProtectedValuesAreRationed | src/tpm/commands/dispatch.rs:977-1064 | Over any sequence of commands and time with protection on whose actions do not settle the lockout record: failed uses of protected values to authorize number at most maxTries less failedTries, plus the tries time took off; every failed use is among those if and only if no session that authorizes nothing misses; and in Lockout mode no protected value is used at all if and only if no such session exposes one. |
| BoundSessions.HandledTells | src/tpm/commands/dispatch.rs:1029-1064 | A command uses a protected value without authorizing with it if and only if it passes its authorizations and then carries a loaded bound session with a key or an HMAC to compare, those before it having proved theirs. |
| BoundSessions.KeptOutIsQuiet | src/tpm/commands/dispatch.rs:1029-1064 | A command with no such session past its authorizations never does. |
| BoundSessions.FirstExposedIsCompared | src/tpm/commands/dispatch.rs:1029-1064 | A command that passes its authorizations and has one there first always does. |
| BoundSessions.GuessesAreUnlimited | src/tpm/commands/execute.rs:216-224 | A command without handles whose bound session carries a wrong HMAC can be sent any number of times, in Lockout mode too: each is a failed use of a protected value and nothing else changes. |
| Exhibits.LockoutDoesNotHoldGuessesBack | src/tpm/commands/dispatch.rs:1029-1064 | The input at which that happens: a TPM in Lockout mode, a bound session that audits TPM2_GetRandom under a wrong HMAC, `n` times. |
| LockoutBudget.HandledPays | src/tpm/commands/dispatch.rs:1145-1163 | Every command whose action does not settle the lockout record, refused or not, pays for each failed use of a protected value to authorize a handle out of what is left before Lockout mode. |
| LockoutBudget.RecoveringPays | src/tpm/core/state.rs:156-168 | Letting time pass gives back exactly the tries it takes off. |
| PinBudget.PinPassIsRationed | src/tpm/commands/dispatch.rs:1123-1138 | Between writes a PIN Pass Index gives at most pinLimit less its starting pinCount successes, and pinCount is the count of them. |
| PinBudget.PinFailIsRationed | src/tpm/commands/dispatch.rs:1123-1138 | Between writes a PIN Fail Index allows at most pinLimit failed comparisons since its last success, and pinCount is the count of them. |
| PinBudget.ExhaustedPinIsNeverCompared | src/tpm/commands/dispatch.rs:1101-1114 | A PIN Index that is exhausted or unwritten is neither compared nor moved. |
| AuditTrail.ResetIsSound | src/tpm/core/state.rs:658-734 | A TPM Reset is where such a run can start: it leaves the audit sound. |
| AuditTrail.ExtendedIsChain | src/tpm/core/session.rs:199-209 | One more audited command extends the digest chain by one link, from the Zero Digest. |
| AuditRuns.AuditKeepsSound | src/tpm/commands/dispatch.rs:1491-1547 | The audit update never fails for a loaded audit session and keeps every digest the fold of what it audited, the exclusive status exact, and the counter the number of logs. |
| AuditRuns.ActionKeepsSound | src/tpm/commands/policy.rs:1652-1688 | Running a command keeps the audit sound, and only a command that may carry no session takes a loaded session away. |
| AuditRuns.ClosedKeepsSound | src/tpm/commands/dispatch.rs:1705-1742 | Closing sessions keeps the audit sound. |
| AuditProperties.AuditStaysSound | src/tpm/commands/execute.rs:24-334 | Whatever commands arrive within a power cycle, the audit stays sound. |
| AuditProperties.SessionDigestIsFold | src/tpm/commands/dispatch.rs:1501-1519 | Every open audit session's digest is the fold of (cpHash, rpHash) over what it audited since it began or was last reset. |
| AuditProperties.ExclusiveMeansUninterrupted | src/tpm/commands/dispatch.rs:1464-1483 | A command admitted with auditExclusive names an open session that nothing has interrupted since it last audited. |
| AuditProperties.UninterruptedMeans | src/tpm/commands/dispatch.rs:1521-1571 | Uninterrupted means: since the last command it audited, every command that succeeded was ContextSave, ContextLoad, FlushContext, Startup or ReadClock without an audit session, and it was not closed. |
| AuditProperties.CommandDigestIsFold | src/tpm/commands/attest.rs:473-509 | The command audit digest is empty or one digest of the current algorithm, the fold over what was audited since the log began; the counter moved once for each log begun, modulo 2^64. |
| AuditProperties.ExclusiveSuccessIsUninterrupted | src/tpm/commands/dispatch.rs:1464-1571 | If a command with auditExclusive succeeds in a run, its session is open and every command that succeeded since that session last audited was ContextSave, ContextLoad, FlushContext, Startup or ReadClock without an audit session. |
| ExclusiveRuns.ExclusiveSuccessSpansInputs | src/tpm/commands/dispatch.rs:1464-1571 | The same told by the inputs of the run: after the last its session audited, every input that succeeded was one of those five without an audit session. |
| Restart.DigestsOutlivePower | src/tpm/core/state.rs:655-734 | Over any run of the device, with any number of startups, restarts and resets and writes that may fail, every audit digest of an open session, loaded or saved, and the command audit digest stay the folds of what they audited. |
| Restart.RestartKeepsExclusiveOpen | src/tpm/core/state.rs:655-668 | From the last state of any power cycle whose writes all worked, through the loss of power, _TPM_Init and a TPM2_Startup that succeeds: the exclusive status names no session or an open one if and only if it was a TPM Reset, or the status named no session or a saved one. |
| Exhibits.StatusOutlivesItsSession | src/tpm/core/state.rs:655-668 | A run from a TPM Reset on after which the status names a session that is gone: the session audits TPM2_Shutdown(STATE). |
| Device.TpmDevice.Write | src/tpm/device.rs:245-263 | After a failed write nothing is written; otherwise the file holds the state. |
| Device.TpmDevice.Run | src/tpm/device.rs:325-393 | A command on the device: the witness, the write, and confinement when the write fails. |
| Device.TpmDevice.Reload | src/tpm/device.rs:406-432 | The file is read again only after a failed write. |
| Device.TpmDevice.Initialize | src/tpm/device.rs:433-467 | _TPM_Init keeps failure mode only after a failed write or a failed test. |
| Device.TpmDevice.TurnOn | src/tpm/device.rs:395-468 | Power on is reload, then initialization. |
| Device.TpmDevice.TurnOff | src/tpm/device.rs:470-484 | Power off writes if it may and drops what is volatile. |
| Device.DeviceStaysSound | src/tpm/device.rs:325-500 | In every reachable state a failed write comes with failure mode, and the file holds the state last written. |
| Device.FailedWriteFreezesFile | src/tpm/device.rs:245-263 | After a failed write the file never changes until it is read again. |
| Device.FailedWriteConfines | src/tpm/commands/execute.rs:31-38 | Meanwhile only GetTestResult and GetCapability without sessions succeed. |
| Device.AnsweredIsDurable | src/tpm/device.rs:362-392 | A powered command that is marked, or that moved lockout or audit, and is not answered TPM_RC_NV_UNAVAILABLE has its state in the file. |
| Device.FailedWriteIsReported | src/tpm/device.rs:362-392 | A marked command whose write fails answers TPM_RC_NV_UNAVAILABLE, leaves the file alone and confines the TPM. |
| Device.ReloadRestoresWritten | src/tpm/device.rs:406-450 | A successful reload gives back the lasting state last written and leaves failure mode if the tests pass. |
| Device.ExecutedKeepsFailure | src/tpm/commands/execute.rs:31-38 | No command leaves failure mode or moves the storage flags. |
| Hcrtm.Device.HashStart | src/tpm/device.rs:508-525 | A start begins one empty hash for each bank that has one, dropping any before it. |
| Hcrtm.Device.HashData | src/tpm/device.rs:527-535 | Data goes to every hash in progress, or nowhere. |
| Hcrtm.Device.HashEnd | src/tpm/device.rs:543-623 | An end takes the sequence and measures each hash into its bank. |
| Hcrtm.EndMeasuresPending | src/tpm/device.rs:508-623 | For any interleaving, an end measures the digest of all data since the latest start if no command came between, register by register and with the counters stated, and otherwise changes nothing. |
| Hcrtm.MeasuredOnce | src/tpm/device.rs:568-622 | However many banks, each is measured exactly once, by the hash of its own algorithm. |
| Hcrtm.StepHolds | src/tpm/device.rs:339-346 | A powered command abandons the sequence and an unpowered one leaves it. |
| Pcr.Trim | src/tpm/commands/pcr.rs:94-107 | The nested loops drop exactly the bits past the limit. |
| Pcr.PcrRead | src/tpm/commands/pcr.rs:78-124 | The response names and carries exactly the first eight selected registers in selection order. |
| Pcr.DrainedIsEverything | src/tpm/commands/pcr.rs:88-108 | Asking again for the remainder ends and delivers every selected register once, in order. |
| Pcr.PcrAllocate | src/tpm/commands/pcr.rs:128-172 | The allocation loop, with each refusal in its order. |
| Pcr.AllocationIsOverride | src/tpm/commands/pcr.rs:128-172 | The accepted allocation overrides bank by bank: the last selection wins, an empty one removes, an unlisted bank stays, each bank appears once, and PCR 0 and 17 are somewhere. |
| Duplication.RunImport | src/tpm/commands/duplication.rs:213-342 | Import takes one wrap off after another, with each refusal in its order. |
| Duplication.InnerUnwrapExact | src/tpm/commands/duplication.rs:51-89 | Undoing the inner wrap under any Name and hash gives the body back exactly when the integrity digests agree, and TPM_RC_INTEGRITY otherwise. |
| Duplication.OuterUnwrapExact | src/tpm/core/protect.rs:129-195 | Undoing the outer wrap under the same Name gives the body, and under a Name with another HMAC TPM_RC_INTEGRITY. |
| Duplication.RewrapIsWrap | src/tpm/commands/duplication.rs:345-421 | A genuine duplicate rewraps exactly as wrapping the same body for the new parent would. |
| Duplication.JourneyCarries | src/tpm/commands/duplication.rs:345-421 | Any chain of rewraps through real or null parents carries the same body. |
| Duplication.ImportUndoesDuplicate | src/tpm/commands/duplication.rs:101-421 | Duplicate, any chain of rewraps, then Import gives exactly the original sensitive area, stored so that its parent unwraps it again. |
| Duplication.InnerDigestBindsName | src/tpm/commands/duplication.rs:71-89 | Whatever outer wraps were around it, the body of an inner wrap is refused under a public area of another Name if the inner digest tells the Names apart. |
| Duplication.AnyJourneyCarries | src/tpm/commands/duplication.rs:345-421 | Rewraps under any Names carry the body on or are refused, unless an outer HMAC collides. |
| Duplication.OtherNameIsRefused | src/tpm/commands/duplication.rs:71-421 | Duplicate with an inner wrap, any chain of rewraps under any Names through real or null parents, then Import under another Name is refused, unless an outer HMAC collides on the way; the inner digest alone has to tell the Names apart. |
| Context.OpenUndoesSeal | src/tpm/commands/context.rs:71-159 | Whenever sealing succeeds opening gives the body back, the length never truncates, and failure mode is not entered. |
| Context.OtherBindingIsRefused | src/tpm/commands/context.rs:116-141 | The blob under another sequence, savedHandle, hierarchy proof or resetValue is refused for its integrity, or exhibits a collision of the HMAC. |
| Context.RestartRefusesStateClearOnly | src/tpm/commands/context.rs:63-69 | A changed clearCount refuses exactly the stateClear objects. |
| Context.CoveredIsInjective | src/tpm/commands/context.rs:93-102 | What the HMAC covers is equal if and only if every counter and number it binds is equal. |
| Context.WindowIsExact | src/tpm/commands/context.rs:401-427 | The window of sequence numbers, as plain inequalities. |
| Context.SavedSessionLoadsOnce | src/tpm/core/session.rs:842-877 | In any run that begins without sessions, a saved version of a session loads at most once, whatever happens to its handle afterwards and wherever the counters stand. |
| Context.MarshalSequence | src/tpm/commands/context.rs:209-232 | A sequence object is written field by field. |
| Context.UnmarshalSequence | src/tpm/commands/context.rs:235-272 | A sequence object is read field by field, with its bound on the buffer. |
| Context.SequenceReadsBack | src/tpm/commands/context.rs:209-272 | Reading undoes writing exactly within the bounds. |
| Server.ConnectionsAreBounded | src/server/socket.rs:116-183 | Under every interleaving, connections served and slots granted never exceed MAX_CONNECTIONS, no decrement underflows, and the counter is the number served when no loop is mid-step. |
| Server.ShutdownIsPrompt | src/server/socket.rs:125-181 | Once the flag is set each loop admits at most one more connection, sees at most one more return of accept, and has at most four steps left. |
| Server.WokenLoopNeverBlocks | src/server/socket.rs:52-62 | A loop whose listener was woken can always take its next step until it is done. |
| Console.ReadLine | src/console.rs:83-135 | For any chunking a read depends only on the octets, keeps at most MAX_LINE of them, and leaves the input at the next line. |
| Console.ReadAll | src/console.rs:83-135 | Reading to the end is cutting at the newlines, with exactly the lines over MAX_LINE rejected. |
| Lines.LinesRejoin | src/console.rs:83-135 | The lines joined by newlines are the text again, up to a newline it may lack at its end. |
| Lines.LinesHoldNone | src/console.rs:83-135 | No line holds a newline. |
| Hex.Encode | src/util/hex.rs:4-12 | Two lower-case digits for each octet. |
| Hex.EncodeWrapped | src/util/hex.rs:15-28 | A line break before every width-th digit but the first, and none at width zero. |
| Hex.Decode | src/util/hex.rs:40-57 | The loop with its pending digit, and its errors. |
| Hex.DecodeIsExact | src/util/hex.rs:40-57 | A text decodes to some octets if and only if it spells their digits, in either case of letter, once white space is dropped. |
| Hex.WhitespaceIsIgnored | src/util/hex.rs:40-57 | Two texts that differ in ASCII white space alone decode alike. |
| Hex.DecodeUndoesWrapped | src/util/hex.rs:15-57 | Decoding undoes wrapped encoding for every width. |
| StateFile.LoadState | src/tpm/persist.rs:61-107 | The size limit, the header, the comment lines and the hex, in order. |
| StateFile.SaveState | src/tpm/persist.rs:117-127 | The text written is the header, the wrapped hex and a line break. |
| StateFile.LoadIsExact | src/tpm/persist.rs:61-107 | A text without comments loads as the octets its digits spell and as nothing else. |
| StateFile.LoadUndoesSave | src/tpm/persist.rs:61-127 | Loading undoes saving whenever the text fits MAX_STATE_FILE_BYTES. |
| StateFile.CommentsAreIgnored | src/tpm/persist.rs:92-98 | A comment line at any line boundary after the header changes nothing. |
| HealthTests.Tests.WithWindow | src/tpm/fips.rs:708-719 | Fresh counters, with a window of at least one. |
| HealthTests.Tests.Check | src/tpm/fips.rs:724-757 | The loop over the octets, stopping at the first that fails. |
| HealthTests.FreshCheckIsExact | src/tpm/fips.rs:643-757 | A fresh check fails if and only if the stream has 32 equal octets in a row or an aligned window whose first value occurs cutoff times, or the one start case named above; for every window and cutoff. |
| HealthTests.FirstFailureIsExact | src/tpm/fips.rs:724-757 | A fresh check stops at the first octet that makes the stream bad and at no other; it reports the repetition count if that octet ends a run, the adaptive proportion otherwise. |
| HealthTests.ChunksConcatenate | src/tpm/fips.rs:724-757 | While chunks pass, checking chunk by chunk equals checking the concatenation. |

## Left out

- Cryptography: hashes, HMAC, KDFs, AES, RSA, ECC and the generator are function values; their own correctness is not part of this model.
- Sockets, pipes, files, logging, threads and command line parsing: only the atomic counter, the flag, the wake-up and the text of the state file are followed. A write or a read of the store succeeds or fails as an input says.
- Console commands other than reading a line: they bypass the command pipeline by design.
- The command tables, handle kinds, roles and read-only marks are function values of `State.World`; entities other than NV Indices and lockoutAuth are too.
- Bodies of commands that touch neither sessions, lockout nor the audit log: they act through `State.Effect`, which reaches the store, policy states and mode only. Reading the parameters of TPM2_GetCommandAuditDigest, TPM2_Clear and TPM2_StartAuthSession is part of that effect.
- The response session area is followed down to its attributes octet; response nonces are drawn but their HMAC is not modelled. A response that cannot be built is a refusal after the audit update.
- A saved session context in `State.Tpm.saved` is the session itself; that a blob gives it back, once, is proved in `Context`.
- Release of storage on TPM2_ContextSave of a session whose blob does not fit: the session is then saved and the answer is an error, as in the code; nothing is claimed of it.
- "Nothing of a failed write can be observed" is not claimed: TPM2_GetCapability still reads memory in failure mode.
- Memory read back from the state file after a failed write is another history: the audit digests are followed up to there.
- A connection thread that panics keeps its slot: `Server.Close` is the decrement that every thread is taken to reach.
- Octets of a PCR selection are its bits in order; the list bounds of TPML_PCR_SELECTION are those of the parser and not restated.
- Text of the state file and white space in it are ASCII; a console line is its octets before they are read as UTF-8, and interrupted or failing reads are not modelled.
- Marshalling of objects, sessions and policies inside a context, and the rest of the state file's binary form.
