/**
 * Changes the device accepts and any well-formed Account executes, and that leave it
 * ill formed: one for each walk whose check leaves masks and rules unread.
 */
module AcceptanceGaps {
  import opened Wrappers
  import opened Keys
  import opened Squads
  import opened Chain
  import opened Lifecycle
  import opened Describe
  import opened Verify
  import opened ActionLists
  import opened AcceptedChanges
  import opened AcceptedRules
  import A = SettingsAgreement
  import P = LifecycleProofs
  import W = Walks

  /** A rotation that takes every vote from the new key and gives the rule to a stranger alone. */
  function Usurping(s: System, newKey: Key, stranger: Key): seq<SettingsAction>
    requires s.aboveSeed.Some?
  {
    [AddSigner(Signer(newKey, 0)), RemoveSigner(s.approval)]
    + [P.UpdateTo(PolicyAt(s, s.aboveSeed.value), AloneRule(s, newKey, stranger))]
  }

  function AloneRule(s: System, newKey: Key, stranger: Key): Policy {
    AboveLimitPolicy(s.primary, newKey).(signers := [Signer(stranger, ALL_PERMISSIONS)], threshold := 1)
  }

  lemma UsurpingIsAccepted(s: System, newKey: Key, stranger: Key, vault: Key)
    requires s.aboveSeed.Some? && stranger != s.approval
    ensures Accepts(DescribeActions(Usurping(s, newKey, stranger), s.account.settings),
                    Swap(vault, Some(newKey), s.approval, 1))
  {
    A.SwapAccepted(Usurping(s, newKey, stranger), s.account.settings, vault, Some(newKey), newKey, s.approval);
  }

  lemma UsurpingApplies(s: System, newKey: Key, stranger: Key)
    requires Names(s.account.signers, s.approval) && !Names(s.account.signers, newKey)
    requires s.aboveSeed.Some? && PolicyAt(s, s.aboveSeed.value) in s.account.policies
    ensures ApplyAll(s.account, Usurping(s, newKey, stranger)).Ok?
    ensures var after := ApplyAll(s.account, Usurping(s, newKey, stranger)).value;
            after.signers == Without(s.account.signers, s.approval) + [Signer(newKey, 0)]
            && after.threshold == s.account.threshold
  {
    var x := Signer(newKey, 0);
    var update := P.UpdateTo(PolicyAt(s, s.aboveSeed.value), AloneRule(s, newKey, stranger));
    P.SwapThen(s.account, x, s.approval, [update]);
    ApplyOne(s.account.(signers := Without(s.account.signers, s.approval) + [x]), update);
  }

  lemma OneVoteLess(signers: seq<Signer>, gone: Key, x: Signer)
    requires Distinct(signers) && Names(signers, gone)
    requires forall y :: y in signers ==> Has(y.mask, VOTE)
    ensures Voters(Without(signers, gone) + [x]) >= |signers| - 1
  {
    WithoutKeepsDistinct(signers, gone);
    EveryoneVotes(Without(signers, gone));
    VotersAppend(Without(signers, gone), [x]);
  }

  lemma UsurpingExecutes(s: System, newKey: Key, stranger: Key)
    requires WellFormed(s) && s.aboveSeed.Some? && !Names(s.account.signers, newKey)
    ensures Execute(s.account, Usurping(s, newKey, stranger)).Ok?
  {
    P.OnDeviceNamed(s);
    ThreeVoters(s);
    VotesAreMasks();
    UsurpingApplies(s, newKey, stranger);
    OneVoteLess(s.account.signers, s.approval, Signer(newKey, 0));
  }

  /**
   * On any well-formed Account with its above-limit rule, such a change is accepted,
   * lands, and leaves it ill formed.
   */
  lemma AcceptanceDoesNotKeep(s: System, newKey: Key, stranger: Key, vault: Key)
    requires WellFormed(s) && s.aboveSeed.Some? && !Names(s.account.signers, newKey) && stranger != s.approval
    ensures var raw := Usurping(s, newKey, stranger);
            && Accepts(DescribeActions(raw, s.account.settings), Swap(vault, Some(newKey), s.approval, 1))
            && Execute(s.account, raw).Ok?
            && !WellFormed(s.(account := Execute(s.account, raw).value, approval := newKey))
  {
    var raw := Usurping(s, newKey, stranger);
    P.OnDeviceNamed(s);
    UsurpingIsAccepted(s, newKey, stranger, vault);
    UsurpingExecutes(s, newKey, stranger);
    var t := s.(account := Execute(s.account, raw).value, approval := newKey);
    AcceptedRotationKeepsIff(s, raw, s.account.settings, vault, newKey, s.approval, 1, t);
    assert raw[0] == AddSigner(Signer(newKey, 0)) && raw[0] in raw;
  }

  /** A rotation whose new key is the retired one, come back with no permission at all. */
  function Stripping(key: Key): seq<SettingsAction> {
    [RemoveSigner(key), AddSigner(Signer(key, 0))]
  }

  lemma StrippingIsAccepted(key: Key, settings: Key, vault: Key, updates: nat)
    ensures Accepts(DescribeActions(Stripping(key), settings), Swap(vault, Some(key), key, updates))
  {
    var d := DescribeActions(Stripping(key), settings);
    assert d == [RemovesSigner(key), AddsSigner(key, 0)];
    A.CountsOf(d);
  }

  lemma StrippingExecutes(s: System, key: Key)
    requires WellFormed(s) && Names(s.account.signers, key)
    ensures Execute(s.account, Stripping(key)).Ok? && Signer(key, 0) in Execute(s.account, Stripping(key)).value.signers
  {
    ThreeVoters(s);
    VotesAreMasks();
    P.ApplyTwo(s.account, RemoveSigner(key), AddSigner(Signer(key, 0)));
    OneVoteLess(s.account.signers, key, Signer(key, 0));
  }

  /**
   * Told to bring in the very key it retires, the device accepts and any well-formed
   * Account executes a change that leaves its own key on it with no permission.
   */
  lemma OwnKeyCanBeStripped(s: System, key: Key, vault: Key, updates: nat)
    requires WellFormed(s) && (key == s.primary || key == s.approval)
    ensures var raw := Stripping(key);
            && Accepts(DescribeActions(raw, s.account.settings), Swap(vault, Some(key), key, updates))
            && Execute(s.account, raw).Ok? && Signer(key, 0) in Execute(s.account, raw).value.signers
            && !WellFormed(s.(account := Execute(s.account, raw).value))
  {
    var raw := Stripping(key);
    P.OnDeviceNamed(s);
    StrippingIsAccepted(key, s.account.settings, vault, updates);
    StrippingExecutes(s, key);
    var t := s.(account := Execute(s.account, raw).value);
    AcceptedRotationKeepsIff(s, raw, s.account.settings, vault, key, key, updates, t);
    assert raw[1] in raw;
  }

  lemma RemovalExecutes(s: System, key: Key)
    requires WellFormed(s) && Names(s.account.signers, key)
    ensures Execute(s.account, [RemoveSigner(key)]) == Ok(s.account.(signers := Without(s.account.signers, key)))
  {
    ThreeVoters(s);
    VotesAreMasks();
    ApplyOne(s.account, RemoveSigner(key));
    WithoutKeepsDistinct(s.account.signers, key);
    EveryoneVotes(Without(s.account.signers, key));
  }

  lemma RemovalIsAccepted(settings: Key, key: Key, plan: W.Plan, device: W.Device)
    ensures Accepts(DescribeActions([RemoveSigner(key)], settings), W.Bounds(W.RecoveryChange, plan, device))
  {
    A.CountsOf(DescribeActions([RemoveSigner(key)], settings));
  }

  /** A recovery change may take out one of the Account's own two keys, and be accepted and land. */
  lemma RecoveryAcceptanceDoesNotKeep(s: System, key: Key, plan: W.Plan, device: W.Device)
    requires WellFormed(s) && (key == s.primary || key == s.approval)
    ensures var raw := [RemoveSigner(key)];
            && Accepts(DescribeActions(raw, s.account.settings), W.Bounds(W.RecoveryChange, plan, device))
            && Execute(s.account, raw).Ok? && !WellFormed(s.(account := Execute(s.account, raw).value))
  {
    P.OnDeviceNamed(s);
    RemovalExecutes(s, key);
    RemovalIsAccepted(s.account.settings, key, plan, device);
    assert Signer(key, ALL_PERMISSIONS) !in Without(s.account.signers, key);
  }

  /** The above-limit rule taken away, or given to a stranger alone, as the step's flags would have it. */
  function AboveRuleLost(s: System, stranger: Key, plan: W.Plan): SettingsAction
    requires s.aboveSeed.Some?
  {
    var above := PolicyAt(s, s.aboveSeed.value);
    if plan.removing then PolicyRemove(above) else P.UpdateTo(above, AloneRule(s, s.approval, stranger))
  }

  lemma AboveRuleLostIsAccepted(s: System, stranger: Key, plan: W.Plan, device: W.Device)
    requires s.aboveSeed.Some? && !plan.creating
    ensures Accepts(DescribeActions([AboveRuleLost(s, stranger, plan)], s.account.settings),
                    W.Bounds(W.LimitChange, plan, device))
  {
    A.CountsOf(DescribeActions([AboveRuleLost(s, stranger, plan)], s.account.settings));
  }

  lemma AboveRuleLostExecutes(s: System, stranger: Key, plan: W.Plan)
    requires WellFormed(s) && s.aboveSeed.Some?
    ensures Execute(s.account, [AboveRuleLost(s, stranger, plan)]).Ok?
  {
    ThreeVoters(s);
    ApplyOne(s.account, AboveRuleLost(s, stranger, plan));
  }

  /**
   * A limit change may take away the above-limit rule, or give it to a stranger alone,
   * and be accepted and land.
   */
  lemma LimitAcceptanceDoesNotKeep(s: System, stranger: Key, plan: W.Plan, device: W.Device)
    requires WellFormed(s) && s.aboveSeed.Some? && !plan.creating
    ensures var raw := [AboveRuleLost(s, stranger, plan)];
            && Accepts(DescribeActions(raw, s.account.settings), W.Bounds(W.LimitChange, plan, device))
            && Execute(s.account, raw).Ok? && !WellFormed(Limited(s, plan, Execute(s.account, raw).value))
  {
    var raw := [AboveRuleLost(s, stranger, plan)];
    AboveRuleLostIsAccepted(s, stranger, plan, device);
    AboveRuleLostExecutes(s, stranger, plan);
    AcceptedLimitChangeKeepsIff(s, raw, s.account.settings, plan, device);
    assert raw[0] in raw && raw[1..] == [];
    var above := PolicyAt(s, s.aboveSeed.value);
    assert !plan.removing ==> Left(raw, above, s.account.policies[above]) == AloneRule(s, s.approval, stranger);
  }

  function AloneTwice(s: System, stranger: Key): seq<SettingsAction> {
    var p, seed := AloneRule(s, s.approval, stranger), s.account.lastSeed;
    [P.CreateOf(seed + 1, p), P.CreateOf(seed + 2, p)]
  }

  lemma AloneTwiceIsAccepted(s: System, stranger: Key, plan: W.Plan, device: W.Device)
    ensures Accepts(DescribeActions(AloneTwice(s, stranger), s.account.settings),
                    W.Bounds(W.Provisioning, plan, device))
  {
    A.CountsOf(DescribeActions(AloneTwice(s, stranger), s.account.settings));
  }

  lemma AloneTwiceExecutes(s: System, stranger: Key)
    requires WellFormed(s)
    ensures Execute(s.account, AloneTwice(s, stranger)).Ok?
  {
    ThreeVoters(s);
    var raw := AloneTwice(s, stranger);
    P.ApplyTwo(s.account, raw[0], raw[1]);
  }

  /** Provisioning may give both rules to a stranger alone, and be accepted and land. */
  lemma ProvisioningAcceptanceDoesNotKeep(s: System, stranger: Key, plan: W.Plan, device: W.Device)
    requires WellFormed(s)
    ensures var raw := AloneTwice(s, stranger);
            && Accepts(DescribeActions(raw, s.account.settings), W.Bounds(W.Provisioning, plan, device))
            && Execute(s.account, raw).Ok? && !WellFormed(Provisioned(s, Execute(s.account, raw).value))
  {
    var raw := AloneTwice(s, stranger);
    AloneTwiceIsAccepted(s, stranger, plan, device);
    AloneTwiceExecutes(s, stranger);
    AcceptedProvisioningKeepsIff(s, raw, s.account.settings, plan, device);
    MadeTwo(raw[0], raw[1]);
  }
}
