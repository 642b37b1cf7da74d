/** Letting the lockout counters down as time passes. */
module Recovery {
  import opened Prelude
  import opened State
  import opened Authorization

  /** A try comes off for each interval that has gone by. */
  function Recovering(s: Tpm, time: uint64): Tpm
    decreases s.lockout.failedTries
  {
    if s.lockout.failedTries > 0 && time >= s.lockout.nextRecovery then
      Recovering(s.(lockout := s.lockout.(
        failedTries := s.lockout.failedTries - 1,
        nextRecovery := SaturatingAdd(s.lockout.nextRecovery, s.lockout.recoveryTime * 1000, U64_MAX))).Note(Recovered), time)
    else s
  }

  function LockoutEnded(l: Lockout, time: uint64): Lockout {
    if l.inLockout && l.lockoutUntil != 0 && time >= l.lockoutUntil then l.(inLockout := false, lockoutUntil := 0) else l
  }

  function OnTime(s: Tpm, time: uint64): Tpm {
    var s1 := s.(clock := s.clock.(time := time));
    var s2 := if s1.lockout.ProtectionOff() then s1 else Recovering(s1, time);
    var s3 := if !s1.lockout.ProtectionOff() && s2.lockout.failedTries == 0
              then s2.(lockout := s2.lockout.(nextRecovery := 0)) else s2;
    s3.(lockout := LockoutEnded(s3.lockout, time))
  }

  method PassTime(tpm: TpmState, time: uint64)
    modifies tpm
    ensures tpm.Value() == OnTime(old(tpm.Value()), time)
  {
    tpm.clock := tpm.clock.(time := time);
    ghost var s1 := tpm.Value();
    if !tpm.lockout.ProtectionOff() {
      var interval := tpm.lockout.recoveryTime * 1000;
      while tpm.lockout.failedTries > 0 && time >= tpm.lockout.nextRecovery
        invariant Recovering(s1, time) == Recovering(tpm.Value(), time)
        invariant tpm.lockout.recoveryTime == s1.lockout.recoveryTime
        decreases tpm.lockout.failedTries
      {
        tpm.lockout := tpm.lockout.(
          failedTries := tpm.lockout.failedTries - 1,
          nextRecovery := SaturatingAdd(tpm.lockout.nextRecovery, interval, U64_MAX));
        tpm.history := Then(tpm.history, Recovered);
      }
      if tpm.lockout.failedTries == 0 {
        tpm.lockout := tpm.lockout.(nextRecovery := 0);
      }
    }
    if tpm.lockout.inLockout && tpm.lockout.lockoutUntil != 0 && time >= tpm.lockout.lockoutUntil {
      tpm.lockout := tpm.lockout.(inLockout := false, lockoutUntil := 0);
    }
  }
}
