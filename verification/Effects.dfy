/**
 * Exactly when each change lands and exactly what it leaves; with the rotations,
 * which are renamings and are in Rotations, the invariant of every run.
 */
module Effects {
  import opened Wrappers
  import opened Keys
  import opened Squads
  import opened Builders
  import opened Chain
  import opened Lifecycle
  import opened LifecycleProofs
  import opened Rotations

  predicate IsRotation(intent: Intent) {
    intent.RotateRecovery? || intent.RotateApproval? || intent.RotatePrimary?
  }

  /** What the Consumer could see before asking: whether the change will land. */
  ghost predicate Lands(s: System, intent: Intent)
    requires !IsRotation(intent)
  {
    match intent
    case Provision(terms, _) => s.limitSeed.None? && s.aboveSeed.None? && terms.maxPerUse <= terms.maxPerPeriod
    case CreateLimit(terms) => s.limitSeed.None? && terms.maxPerUse <= terms.maxPerPeriod
    case CreateAboveLimit => s.aboveSeed.None?
    case UpdateLimit(terms) =>
      && CurrentLimit(s).Some? && terms.maxPerUse <= terms.maxPerPeriod
      && terms.mint == CurrentLimit(s).value.mint && terms != TermsOf(CurrentLimit(s).value)
    case RemoveLimit => CurrentLimit(s).Some?
    case SetLock(_) => true
    case AddRecovery(newKey) => !Names(s.account.signers, newKey)
    case RemoveRecovery(oldKey) => IsRecovery(s, oldKey) && exists k :: IsRecovery(s, k) && k != oldKey
  }

  function WithPolicy(s: System, seed: nat, p: Policy): System {
    s.(account := s.account.(policies := s.account.policies[PolicyAt(s, seed) := p]))
  }

  /** The system as it should then be. */
  function Intended(s: System, intent: Intent): System
    requires !IsRotation(intent)
  {
    var next := s.account.lastSeed + 1;
    match intent
    case Provision(terms, timeLock) =>
      s.(account := AfterProvision(s, terms, timeLock), limitSeed := Some(next), aboveSeed := Some(next + 1))
    case CreateLimit(terms) =>
      s.(account := WithPolicy(s, next, LimitPolicy(terms, s.primary)).account.(lastSeed := next),
         limitSeed := Some(next))
    case CreateAboveLimit =>
      s.(account := WithPolicy(s, next, AboveLimitPolicy(s.primary, s.approval)).account.(lastSeed := next),
         aboveSeed := Some(next))
    case UpdateLimit(terms) =>
      if s.limitSeed.None? then s
      else WithPolicy(s, s.limitSeed.value, LimitPolicy(terms, s.primary))
    case RemoveLimit =>
      if s.limitSeed.None? then s
      else s.(account := s.account.(policies := s.account.policies - {PolicyAt(s, s.limitSeed.value)}),
              limitSeed := None)
    case SetLock(seconds) => s.(account := s.account.(timeLock := seconds))
    case AddRecovery(newKey) =>
      s.(account := s.account.(signers := s.account.signers + [Signer(newKey, RECOVERY_PERMISSIONS)]))
    case RemoveRecovery(oldKey) => s.(account := s.account.(signers := Without(s.account.signers, oldKey)))
  }

  predicate EnoughVoters(s: System) {
    Voters(s.account.signers) >= s.account.threshold
  }

  lemma OneActionIs(s: System, intent: Intent, x: SettingsAction)
    requires Propose(s, intent).Some? && Propose(s, intent).value.Ok?
    requires ActionsOf(Propose(s, intent).value.value) == [x]
    ensures Apply(s.account, x).Err? ==> Step(s, intent) == s
    ensures Apply(s.account, x).Ok? ==>
              Step(s, intent) == if Voters(Apply(s.account, x).value.signers) >= Apply(s.account, x).value.threshold
                                 then Remember(s, intent, Apply(s.account, x).value) else s
  {
    ApplyOne(s.account, x);
  }

  lemma ProvisionIs(s: System, terms: Terms, timeLock: nat)
    requires EnoughVoters(s) && s.primary != s.approval
    ensures var intent := Provision(terms, timeLock);
            Step(s, intent) == if Lands(s, intent) then Intended(s, intent) else s
  {
    if Lands(s, Provision(terms, timeLock)) {
      ProvisionRuns(s, terms, timeLock);
      StepOf(s, Provision(terms, timeLock), AfterProvision(s, terms, timeLock));
    }
  }

  lemma CreateLimitIs(s: System, terms: Terms)
    requires EnoughVoters(s)
    ensures Step(s, CreateLimit(terms)) == if Lands(s, CreateLimit(terms)) then Intended(s, CreateLimit(terms)) else s
  {
    if Lands(s, CreateLimit(terms)) {
      OneActionIs(s, CreateLimit(terms), CreateOf(s.account.lastSeed + 1, LimitPolicy(terms, s.primary)));
    }
  }

  lemma CreateAboveLimitIs(s: System)
    requires EnoughVoters(s) && s.primary != s.approval
    ensures Step(s, CreateAboveLimit) == if Lands(s, CreateAboveLimit) then Intended(s, CreateAboveLimit) else s
  {
    DefaultIsAllowed(s.primary, s.approval);
    if s.aboveSeed.None? {
      OneActionIs(s, CreateAboveLimit, CreateOf(s.account.lastSeed + 1, AboveLimitPolicy(s.primary, s.approval)));
    }
  }

  lemma UpdateLimitIs(s: System, terms: Terms)
    requires EnoughVoters(s) && Distinct(s.account.signers) && Signer(s.primary, ALL_PERMISSIONS) in s.account.signers
    ensures Step(s, UpdateLimit(terms)) == if Lands(s, UpdateLimit(terms)) then Intended(s, UpdateLimit(terms)) else s
  {
    VotesAreMasks();
    if Lands(s, UpdateLimit(terms)) {
      OneActionIs(s, UpdateLimit(terms), UpdateTo(PolicyAt(s, s.limitSeed.value), LimitPolicy(terms, s.primary)));
    }
  }

  lemma RemoveLimitIs(s: System)
    requires EnoughVoters(s) && Distinct(s.account.signers) && Signer(s.primary, ALL_PERMISSIONS) in s.account.signers
    ensures Step(s, RemoveLimit) == if Lands(s, RemoveLimit) then Intended(s, RemoveLimit) else s
  {
    VotesAreMasks();
    if Lands(s, RemoveLimit) {
      OneActionIs(s, RemoveLimit, PolicyRemove(PolicyAt(s, s.limitSeed.value)));
    }
  }

  lemma SetLockIs(s: System, seconds: nat)
    requires EnoughVoters(s)
    ensures Step(s, SetLock(seconds)) == Intended(s, SetLock(seconds))
  {
    OneActionIs(s, SetLock(seconds), SetTimeLock(seconds));
  }

  lemma AddRecoveryIs(s: System, newKey: Key)
    requires EnoughVoters(s)
    ensures Step(s, AddRecovery(newKey))
        == if Lands(s, AddRecovery(newKey)) then Intended(s, AddRecovery(newKey)) else s
  {
    var x := Signer(newKey, RECOVERY_PERMISSIONS);
    VotersAppend(s.account.signers, [x]);
    OneActionIs(s, AddRecovery(newKey), AddSigner(x));
  }

  lemma RemoveRecoveryIs(s: System, oldKey: Key)
    requires Distinct(s.account.signers) && AllVote(s.account.signers) && |s.account.signers| > s.account.threshold
    ensures Step(s, RemoveRecovery(oldKey))
         == if Lands(s, RemoveRecovery(oldKey)) then Intended(s, RemoveRecovery(oldKey)) else s
  {
    RemovableIff(s, oldKey);
    if Lands(s, RemoveRecovery(oldKey)) {
      WithoutKeepsDistinct(s.account.signers, oldKey);
      EveryoneVotes(Without(s.account.signers, oldKey));
      OneActionIs(s, RemoveRecovery(oldKey), RemoveSigner(oldKey));
    }
  }

  /** The builder's refusals, in the signer set's own terms. */
  lemma RemovableIff(s: System, oldKey: Key)
    requires Distinct(s.account.signers)
    ensures Propose(s, RemoveRecovery(oldKey)).Some?
    ensures Propose(s, RemoveRecovery(oldKey)).value.Ok? <==> Lands(s, RemoveRecovery(oldKey))
  {
    var keys := RecoveryKeys(s);
    RecoveryKeysDistinct(s);
    if Propose(s, RemoveRecovery(oldKey)).value.Ok? {
      var k := AnotherRecovery(s, oldKey);
    }
    if Lands(s, RemoveRecovery(oldKey)) {
      var k :| IsRecovery(s, k) && k != oldKey;
      assert k in keys && oldKey in keys;
      assert |keys| != 1;
    }
  }

  /**
   * On a well-formed Account every change but a rotation lands exactly when it should,
   * and leaves exactly what it should.
   */
  lemma StepIsIntended(s: System, intent: Intent)
    requires WellFormed(s) && !IsRotation(intent)
    ensures Step(s, intent) == if Lands(s, intent) then Intended(s, intent) else s
  {
    ThreeVoters(s);
    match intent
    case Provision(terms, timeLock) => ProvisionIs(s, terms, timeLock);
    case CreateLimit(terms) => CreateLimitIs(s, terms);
    case CreateAboveLimit => CreateAboveLimitIs(s);
    case UpdateLimit(terms) => UpdateLimitIs(s, terms);
    case RemoveLimit => RemoveLimitIs(s);
    case SetLock(seconds) => SetLockIs(s, seconds);
    case AddRecovery(newKey) => AddRecoveryIs(s, newKey);
    case RemoveRecovery(oldKey) => RemoveRecoveryIs(s, oldKey);
  }

  // ---- the invariant of every run ----

  lemma IntendedSigners(s: System, intent: Intent)
    requires SignersOk(s) && !IsRotation(intent) && Lands(s, intent)
    ensures SignersOk(Intended(s, intent))
  {
    var t := Intended(s, intent);
    match intent
    case AddRecovery(newKey) =>
    case RemoveRecovery(oldKey) =>
      var k :| IsRecovery(s, k) && k != oldKey;
      RemovedSignersOk(s, oldKey, k, t);
    case _ => SignersUnmoved(s, t);
  }

  lemma IntendedPolicies(s: System, intent: Intent)
    requires PoliciesOk(s) && !IsRotation(intent) && Lands(s, intent)
    ensures PoliciesOk(Intended(s, intent))
  {
    if intent.Provision? || intent.CreateLimit? || intent.UpdateLimit? {
      assert ReadTerms(LimitPolicy(intent.terms, s.primary)) == Some(intent.terms);
    }
  }

  lemma StepKeepsWellFormed(s: System, intent: Intent)
    requires WellFormed(s)
    ensures WellFormed(Step(s, intent))
  {
    match intent
    case RotateRecovery(oldKey, newKey) => RotateRecoveryKeeps(s, oldKey, newKey);
    case RotateApproval(newKey) => RotateApprovalKeeps(s, newKey);
    case RotatePrimary(newKey) => RotatePrimaryKeeps(s, newKey);
    case _ =>
      StepIsIntended(s, intent);
      if Lands(s, intent) {
        IntendedSigners(s, intent);
        IntendedPolicies(s, intent);
      }
  }

  lemma {:induction false} RunKeepsWellFormed(s: System, intents: seq<Intent>)
    requires WellFormed(s)
    ensures WellFormed(Run(s, intents))
    decreases |intents|
  {
    if intents != [] {
      StepKeepsWellFormed(s, intents[0]);
      RunKeepsWellFormed(Step(s, intents[0]), intents[1..]);
    }
  }

  /** From creation on, through any changes at all, the Account is well formed and no recovery key is on any policy. */
  lemma EveryRunIsWellFormed(
    a: AccountSigner, b: AccountSigner, c: AccountSigner, seed: nat, timeLock: nat, intents: seq<Intent>, key: Key)
    requires BuildCreateAccount(a, b, c, seed, timeLock).Ok?
    ensures var created := BuildCreateAccount(a, b, c, seed, timeLock).value;
            var s := Run(Created(created, AddressOf(Primary, a, b, c), AddressOf(Approval, a, b, c)), intents);
            && WellFormed(s)
            && (IsRecovery(s, key) ==>
                  forall k :: k in s.account.policies ==> !Names(s.account.policies[k].signers, key))
  {
    var created := BuildCreateAccount(a, b, c, seed, timeLock).value;
    var s := Run(Created(created, AddressOf(Primary, a, b, c), AddressOf(Approval, a, b, c)), intents);
    CreatedWellFormed(a, b, c, seed, timeLock);
    RunKeepsWellFormed(Created(created, AddressOf(Primary, a, b, c), AddressOf(Approval, a, b, c)), intents);
  }
}
