/** The keyguard's decision whether the device is "secure", i.e. whether
    credentials must be entered before the device can be used.  Modelled
    after LockPatternKeyguardViewProperties: a pure predicate over the lock
    pattern settings and the SIM card state, recomputed on every query. */
module SecurityPolicy {

  /** The states a SIM card reports.  The enumeration lives in the telephony
      layer, which is not part of this model; only PIN_REQUIRED, PUK_REQUIRED
      and ABSENT play a role in the policy, the others stand for "anything else". */
  datatype SimState = Unknown | Absent | PinRequired | PukRequired | NetworkLocked | Ready

  /** The inputs the policy reads from its collaborators at query time. */
  datatype SecurityFactors = SecurityFactors(
    lockPatternEnabled: bool,
    savedPatternExists: bool,
    simState: SimState)

  /** The SIM states for which the SIM factor alone never locks the device,
      written out independently of IsSimPinSecure. */
  const NonLockingSimStates: set<SimState> := {Unknown, NetworkLocked, Ready}

  /** A lock pattern protects the device only when it is both switched on
      and actually stored: either setting alone is not enough. */
  function IsLockPatternSecure(f: SecurityFactors): (secure: bool)
    ensures !f.lockPatternEnabled ==> !secure
    ensures !f.savedPatternExists ==> !secure
    ensures f.lockPatternEnabled && f.savedPatternExists ==> secure
  {
    f.lockPatternEnabled && f.savedPatternExists
  }

  /** The SIM demands attention when it is locked by PIN or PUK, and also
      when it is missing altogether. */
  function IsSimPinSecure(state: SimState): (secure: bool)
    ensures secure <==> state !in NonLockingSimStates
  {
    state == PinRequired || state == PukRequired || state == Absent
  }

  /** Either factor alone makes the device secure. */
  function IsSecure(f: SecurityFactors): (secure: bool)
    ensures secure <==> IsLockPatternSecure(f) || f.simState !in NonLockingSimStates
  {
    IsLockPatternSecure(f) || IsSimPinSecure(f.simState)
  }

  /** g is at least as strict as f: every factor that is set in f is also
      set in g, and a SIM that locks in f also locks in g. */
  predicate AtLeastAsStrict(f: SecurityFactors, g: SecurityFactors) {
    && (f.lockPatternEnabled ==> g.lockPatternEnabled)
    && (f.savedPatternExists ==> g.savedPatternExists)
    && (IsSimPinSecure(f.simState) ==> IsSimPinSecure(g.simState))
  }

  /** The device is open (not secure) exactly when the SIM is in one of the
      non-locking states and the pattern is not both enabled and saved. */
  lemma OpenIffNoFactorDemands(f: SecurityFactors)
    ensures !IsSecure(f) <==>
      f.simState in NonLockingSimStates && !(f.lockPatternEnabled && f.savedPatternExists)
  {
  }

  /** A missing SIM makes the device secure whatever the pattern settings. */
  lemma AbsentSimIsSecure(f: SecurityFactors)
    requires f.simState == Absent
    ensures IsSecure(f)
  {
  }

  /** A SIM that is locked by PIN or PUK makes the device secure as well. */
  lemma LockedSimIsSecure(f: SecurityFactors)
    requires f.simState == PinRequired || f.simState == PukRequired
    ensures IsSecure(f)
  {
  }

  /** For a SIM in any other state the decision is the pattern's alone, and
      the pattern counts only when it is both enabled and saved. */
  lemma OtherSimDefersToPattern(f: SecurityFactors)
    requires f.simState in NonLockingSimStates
    ensures IsSecure(f) <==> f.lockPatternEnabled && f.savedPatternExists
  {
  }

  /** Enabling the pattern without a saved one (or the converse) is not enough. */
  lemma HalfPatternIsNotSecure(f: SecurityFactors)
    requires f.simState == Ready
    requires !f.lockPatternEnabled || !f.savedPatternExists
    ensures !IsSecure(f)
  {
  }

  /** Turning a factor on, or moving the SIM into a locking state, never makes
      a secure device insecure. */
  lemma SecureIsMonotone(f: SecurityFactors, g: SecurityFactors)
    requires AtLeastAsStrict(f, g)
    ensures IsSecure(f) ==> IsSecure(g)
  {
  }
}
