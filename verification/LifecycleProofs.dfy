/** Creation and the rotations against the invariant: what each list does, and that it keeps the Account well formed. */
module LifecycleProofs {
  import opened Wrappers
  import opened Keys
  import opened Squads
  import opened Builders
  import opened Chain
  import opened Lifecycle

  // ---- what each list does ----

  lemma {:induction false} WithoutAppend(signers: seq<Signer>, x: Signer, key: Key)
    requires x.key != key
    ensures Without(signers + [x], key) == Without(signers, key) + [x]
  {
    if signers == [] {
      assert signers + [x] == [x];
      assert [x][1..] == [];
    } else {
      assert (signers + [x])[1..] == signers[1..] + [x];
      WithoutAppend(signers[1..], x, key);
    }
  }

  /** Adding one key, then removing another, then whatever follows. */
  lemma SwapThen(a: Account, x: Signer, gone: Key, rest: seq<SettingsAction>)
    requires x.key != gone
    ensures ApplyAll(a, [AddSigner(x), RemoveSigner(gone)] + rest) ==
            if Names(a.signers, x.key) then Err(DuplicateSigner)
            else if !Names(a.signers, gone) then Err(NotASigner)
            else ApplyAll(a.(signers := Without(a.signers, gone) + [x]), rest)
  {
    assert [AddSigner(x), RemoveSigner(gone)] + rest == [AddSigner(x)] + ([RemoveSigner(gone)] + rest);
    if !Names(a.signers, x.key) {
      var mid := a.(signers := a.signers + [x]);
      assert Names(mid.signers, gone) <==> Names(a.signers, gone) by {
        forall s | s in a.signers ensures s in mid.signers {}
      }
      WithoutAppend(a.signers, x, gone);
    }
  }

  lemma ApplyTwo(a: Account, x: SettingsAction, y: SettingsAction)
    requires Apply(a, x).Ok?
    ensures ApplyAll(a, [x, y]) == Apply(Apply(a, x).value, y)
  {
    assert [x, y] == [x] + [y];
    ApplyOne(Apply(a, x).value, y);
  }

  lemma SwapKeepsDistinct(signers: seq<Signer>, x: Signer, gone: Key)
    requires Distinct(signers) && !Names(signers, x.key)
    ensures Distinct(Without(signers, gone) + [x])
  {
    WithoutKeepsDistinct(signers, gone);
    var kept := Without(signers, gone);
    forall i, j | 0 <= i < j < |kept + [x]| ensures (kept + [x])[i].key != (kept + [x])[j].key {
      assert kept[i] in kept;
    }
  }

  // ---- creation ----

  function Created(c: Creation, primary: Key, approval: Key): System {
    System(Account(c.addresses.settings, c.signers, c.threshold, c.timeLock, 0, map[]), primary, approval, None, None)
  }

  function AddressOf(role: Role, a: AccountSigner, b: AccountSigner, c: AccountSigner): Key {
    if a.role == role then a.address else if b.role == role then b.address else c.address
  }

  lemma CreatedWellFormed(a: AccountSigner, b: AccountSigner, c: AccountSigner, seed: nat, timeLock: nat)
    requires BuildCreateAccount(a, b, c, seed, timeLock).Ok?
    ensures var created := BuildCreateAccount(a, b, c, seed, timeLock).value;
            WellFormed(Created(created, AddressOf(Primary, a, b, c), AddressOf(Approval, a, b, c)))
  {
    var created := BuildCreateAccount(a, b, c, seed, timeLock).value;
    var s := Created(created, AddressOf(Primary, a, b, c), AddressOf(Approval, a, b, c));
    var x, y, z := Signer(a.address, RolePermissions(a.role)), Signer(b.address, RolePermissions(b.role)),
                   Signer(c.address, RolePermissions(c.role));
    assert s.account.signers == [x, y, z];
    assert Primary in {a.role, b.role, c.role} && Approval in {a.role, b.role, c.role}
        && Recovery in {a.role, b.role, c.role};
    assert x in s.account.signers && y in s.account.signers && z in s.account.signers;
  }

  /** An Account is built exactly from one signer of each role, at three addresses. */
  lemma CreatedIff(a: AccountSigner, b: AccountSigner, c: AccountSigner, seed: nat, timeLock: nat)
    ensures BuildCreateAccount(a, b, c, seed, timeLock).Ok? <==>
      && a.role != b.role && a.role != c.role && b.role != c.role
      && a.address != b.address && a.address != c.address && b.address != c.address
  {
    var addresses := {a.address, b.address, c.address};
    if a.address == b.address { assert addresses == {b.address, c.address}; }
    if a.address == c.address { assert addresses == {b.address, c.address}; }
    if b.address == c.address { assert addresses == {a.address, c.address}; }
    var roles := {a.role, b.role, c.role};
    assert roles == {Primary, Approval, Recovery} <==> Primary in roles && Approval in roles && Recovery in roles;
  }

  /**
   * What creation asks the program for: a threshold of two, the lock asked for, the seed's
   * own addresses, and for each signer given the permissions of its role, which for a
   * recovery signer is the vote alone.
   */
  lemma CreatedIs(a: AccountSigner, b: AccountSigner, c: AccountSigner, seed: nat, timeLock: nat)
    requires BuildCreateAccount(a, b, c, seed, timeLock).Ok?
    ensures var created := BuildCreateAccount(a, b, c, seed, timeLock).value;
            && created.threshold == 2 && created.timeLock == timeLock
            && created.addresses == Addresses(Settings(seed), Vault(Settings(seed)))
            && |created.signers| == 3
            && forall i :: 0 <= i < 3 ==>
                 var given := [a, b, c][i];
                 created.signers[i] == Signer(given.address, if given.role == Recovery then 2 else 7)
    ensures Has(2, VOTE) && !Has(2, INITIATE) && !Has(2, EXECUTE)
    ensures Has(7, VOTE) && Has(7, INITIATE) && Has(7, EXECUTE)
  {
  }

  // ---- every step keeps the invariant ----

  lemma PoliciesUnmoved(s: System, t: System)
    requires WellFormed(s)
    requires t.account.settings == s.account.settings && t.account.policies == s.account.policies
    requires t.account.lastSeed == s.account.lastSeed
    requires t.primary == s.primary && t.approval == s.approval
    requires t.limitSeed == s.limitSeed && t.aboveSeed == s.aboveSeed
    ensures PoliciesOk(t)
  {
  }

  /** A second recovery key is left: the builder refused the only one. */
  lemma AnotherRecovery(s: System, oldKey: Key) returns (k: Key)
    requires Distinct(s.account.signers)
    requires BuildRemoveRecovery(RequestFor(s, s.primary), oldKey, RecoveryKeys(s)).Ok?
    ensures IsRecovery(s, oldKey) && IsRecovery(s, k) && k != oldKey
  {
    var keys := RecoveryKeys(s);
    RecoveryKeysDistinct(s);
    assert oldKey in keys;
    k := if keys[0] == oldKey then keys[1] else keys[0];
    assert k in keys;
  }

  lemma RemovedSignersOk(s: System, oldKey: Key, k: Key, t: System)
    requires SignersOk(s) && IsRecovery(s, oldKey) && IsRecovery(s, k) && k != oldKey
    requires t == s.(account := s.account.(signers := Without(s.account.signers, oldKey)))
    ensures SignersOk(t)
  {
    WithoutKeepsDistinct(s.account.signers, oldKey);
    var y :| y in s.account.signers && y.key == k;
    assert y in t.account.signers;
  }

  lemma RecoveryKeysDistinct(s: System)
    requires Distinct(s.account.signers)
    ensures forall i, j :: 0 <= i < j < |RecoveryKeys(s)| ==> RecoveryKeys(s)[i] != RecoveryKeys(s)[j]
  {
    WithoutKeepsDistinct(s.account.signers, s.primary);
    WithoutKeepsDistinct(Without(s.account.signers, s.primary), s.approval);
  }

  lemma RotateRecoveryKeeps(s: System, oldKey: Key, newKey: Key)
    requires WellFormed(s)
    ensures WellFormed(Step(s, RotateRecovery(oldKey, newKey)))
  {
    var t := Step(s, RotateRecovery(oldKey, newKey));
    if IsRecovery(s, oldKey) && oldKey != newKey {
      var x := Signer(newKey, RECOVERY_PERMISSIONS);
      assert [AddSigner(x), RemoveSigner(oldKey)] + [] == [AddSigner(x), RemoveSigner(oldKey)];
      SwapThen(s.account, x, oldKey, []);
      if t != s {
        SwapKeepsDistinct(s.account.signers, x, oldKey);
        assert x in t.account.signers;
        PoliciesUnmoved(s, t);
      }
    }
  }

  /** The signer half of a primary or approval rotation. */
  lemma SwapOnDevice(s: System, gone: Key, newKey: Key, t: System)
    requires SignersOk(s)
    requires gone == s.primary || gone == s.approval
    requires !Names(s.account.signers, newKey)
    requires t.account.signers == Without(s.account.signers, gone) + [Signer(newKey, ALL_PERMISSIONS)]
    requires t.account.threshold == s.account.threshold
    requires t.primary == (if gone == s.primary then newKey else s.primary)
    requires t.approval == (if gone == s.approval then newKey else s.approval)
    ensures SignersOk(t)
  {
    var x := Signer(newKey, ALL_PERMISSIONS);
    SwapKeepsDistinct(s.account.signers, x, gone);
    assert x in t.account.signers;
    var y :| y in s.account.signers && y.key != s.primary && y.key != s.approval;
    assert y in t.account.signers && y.key != newKey;
    forall z | z in t.account.signers
      ensures z == Signer(t.primary, ALL_PERMISSIONS) || z == Signer(t.approval, ALL_PERMISSIONS)
              || z == Signer(z.key, RECOVERY_PERMISSIONS)
    {
      if z != x { assert z in s.account.signers; }
    }
    var stays := if gone == s.primary then Signer(s.approval, ALL_PERMISSIONS) else Signer(s.primary, ALL_PERMISSIONS);
    assert stays in s.account.signers;
    assert stays in t.account.signers && stays.key != newKey;
  }

  /** The account a successful approval rotation leaves. */
  function AfterApproval(s: System, newKey: Key): Account
    requires s.aboveSeed.Some?
  {
    s.account.(
      signers := Without(s.account.signers, s.approval) + [Signer(newKey, ALL_PERMISSIONS)],
      policies := s.account.policies[PolicyAt(s, s.aboveSeed.value) := AboveLimitPolicy(s.primary, newKey)])
  }

  function ApprovalActions(s: System, newKey: Key): seq<SettingsAction>
    requires s.aboveSeed.Some?
  {
    [AddSigner(Signer(newKey, ALL_PERMISSIONS)), RemoveSigner(s.approval)]
    + [UpdateTo(PolicyAt(s, s.aboveSeed.value), AboveLimitPolicy(s.primary, newKey))]
  }

  lemma RotateApprovalBuilds(s: System, newKey: Key)
    requires s.aboveSeed.Some? && s.primary != newKey && s.approval != newKey
    ensures var built := Propose(s, RotateApproval(newKey));
            && built.Some? && built.value.Ok?
            && ActionsOf(built.value.value) == ApprovalActions(s, newKey)
  {
    DefaultIsAllowed(s.primary, newKey);
  }

  function UpdateTo(key: Key, p: Policy): SettingsAction {
    PolicyUpdate(key, p.payload, p.signers, p.threshold, p.timeLock)
  }

  lemma RotateApprovalRuns(s: System, newKey: Key)
    requires Names(s.account.signers, s.approval) && newKey != s.approval && newKey != s.primary
    requires s.aboveSeed.Some? && PolicyAt(s, s.aboveSeed.value) in s.account.policies
    requires !Names(s.account.signers, newKey)
    ensures var built := Propose(s, RotateApproval(newKey));
            && built.Some? && built.value.Ok?
            && ApplyAll(s.account, ActionsOf(built.value.value)) == Ok(AfterApproval(s, newKey))
  {
    RotateApprovalBuilds(s, newKey);
    ApprovalApplies(s, newKey);
  }

  lemma ApprovalApplies(s: System, newKey: Key)
    requires Names(s.account.signers, s.approval) && newKey != s.approval
    requires s.aboveSeed.Some? && PolicyAt(s, s.aboveSeed.value) in s.account.policies
    requires !Names(s.account.signers, newKey)
    ensures ApplyAll(s.account, ApprovalActions(s, newKey)) == Ok(AfterApproval(s, newKey))
  {
    var update := UpdateTo(PolicyAt(s, s.aboveSeed.value), AboveLimitPolicy(s.primary, newKey));
    SwapThen(s.account, Signer(newKey, ALL_PERMISSIONS), s.approval, [update]);
    ApplyOne(s.account.(signers := Without(s.account.signers, s.approval) + [Signer(newKey, ALL_PERMISSIONS)]), update);
  }

  lemma OnDeviceNamed(s: System)
    requires SignersOk(s)
    ensures Names(s.account.signers, s.primary) && Names(s.account.signers, s.approval)
  {
    assert Signer(s.approval, ALL_PERMISSIONS).key == s.approval;
    assert Signer(s.primary, ALL_PERMISSIONS).key == s.primary;
  }

  /** The default allowlist is five programs, is accepted, and writes the rule the invariant names. */
  lemma DefaultIsAllowed(primary: Key, approval: Key)
    ensures AboveLimitPayload(ABOVE_LIMIT_PROGRAM_ALLOWLIST) == Ok(AboveLimitPolicy(primary, approval).payload)
    ensures ABOVE_LIMIT_PROGRAM_ALLOWLIST
         == [SystemProgram, TokenProgram, Token2022Program, AssociatedTokenProgram, ComputeBudgetProgram]
  {
  }

  /** If the rotation landed, the new key was not on the Account. */
  lemma RotateApprovalFresh(s: System, newKey: Key)
    requires Step(s, RotateApproval(newKey)) != s
    ensures !Names(s.account.signers, newKey)
  {
    var built := Propose(s, RotateApproval(newKey)).value;
    assert built.Ok?;
    assert ActionsOf(built.value)[0] == AddSigner(Signer(newKey, ALL_PERMISSIONS));
  }

  lemma AfterApprovalOk(s: System, newKey: Key, t: System)
    requires WellFormed(s) && s.aboveSeed.Some? && !Names(s.account.signers, newKey)
    requires t == s.(account := AfterApproval(s, newKey), approval := newKey)
    ensures WellFormed(t)
  {
    OnDeviceNamed(s);
    SwapOnDevice(s, s.approval, newKey, t);
  }

  lemma RotateApprovalKeeps(s: System, newKey: Key)
    requires WellFormed(s)
    ensures WellFormed(Step(s, RotateApproval(newKey)))
  {
    var t := Step(s, RotateApproval(newKey));
    if t != s {
      RotateApprovalFresh(s, newKey);
      OnDeviceNamed(s);
      RotateApprovalRuns(s, newKey);
      AfterApprovalOk(s, newKey, t);
    }
  }

  function AfterPrimary(s: System, newKey: Key): Account
    requires CurrentLimit(s).Some? && s.aboveSeed.Some?
  {
    s.account.(
      signers := Without(s.account.signers, s.primary) + [Signer(newKey, ALL_PERMISSIONS)],
      policies := s.account.policies[PolicyAt(s, s.limitSeed.value) :=
          LimitPolicy(TermsOf(CurrentLimit(s).value), newKey)]
                                    [PolicyAt(s, s.aboveSeed.value) := AboveLimitPolicy(newKey, s.approval)])
  }

  function PrimaryActions(s: System, newKey: Key): seq<SettingsAction>
    requires CurrentLimit(s).Some? && s.aboveSeed.Some?
  {
    [AddSigner(Signer(newKey, ALL_PERMISSIONS)), RemoveSigner(s.primary)]
    + [UpdateTo(PolicyAt(s, s.limitSeed.value), LimitPolicy(TermsOf(CurrentLimit(s).value), newKey)),
       UpdateTo(PolicyAt(s, s.aboveSeed.value), AboveLimitPolicy(newKey, s.approval))]
  }

  lemma RotatePrimaryBuilds(s: System, newKey: Key)
    requires Distinct(s.account.signers) && Signer(s.approval, ALL_PERMISSIONS) in s.account.signers
    requires CurrentLimit(s).Some? && s.aboveSeed.Some? && s.limitSeed != s.aboveSeed
    requires TermsOf(CurrentLimit(s).value).maxPerUse <= TermsOf(CurrentLimit(s).value).maxPerPeriod
    requires newKey != s.primary && newKey != s.approval
    ensures var built := Propose(s, RotatePrimary(newKey));
            && built.Some? && built.value.Ok?
            && ActionsOf(built.value.value) == PrimaryActions(s, newKey)
  {
    DefaultIsAllowed(newKey, s.approval);
    VotesAreMasks();
  }

  lemma LimitIsRead(s: System)
    requires PoliciesOk(s) && s.limitSeed.Some?
    ensures CurrentLimit(s).Some?
    ensures s.account.policies[PolicyAt(s, s.limitSeed.value)] == LimitPolicy(TermsOf(CurrentLimit(s).value), s.primary)
    ensures TermsOf(CurrentLimit(s).value).maxPerUse <= TermsOf(CurrentLimit(s).value).maxPerPeriod
  {
  }

  lemma RotatePrimaryRuns(s: System, newKey: Key)
    requires PoliciesOk(s) && s.limitSeed.Some? && s.aboveSeed.Some?
    requires Distinct(s.account.signers) && Signer(s.approval, ALL_PERMISSIONS) in s.account.signers
    requires Names(s.account.signers, s.primary) && newKey != s.approval && newKey != s.primary
    requires !Names(s.account.signers, newKey)
    ensures CurrentLimit(s).Some?
    ensures var built := Propose(s, RotatePrimary(newKey));
            && built.Some? && built.value.Ok?
            && ApplyAll(s.account, ActionsOf(built.value.value)) == Ok(AfterPrimary(s, newKey))
  {
    LimitIsRead(s);
    RotatePrimaryBuilds(s, newKey);
    PrimaryApplies(s, newKey);
  }

  lemma PrimaryApplies(s: System, newKey: Key)
    requires Names(s.account.signers, s.primary) && newKey != s.primary && !Names(s.account.signers, newKey)
    requires CurrentLimit(s).Some? && s.aboveSeed.Some? && PolicyAt(s, s.aboveSeed.value) in s.account.policies
    ensures ApplyAll(s.account, PrimaryActions(s, newKey)) == Ok(AfterPrimary(s, newKey))
  {
    var p, q := LimitPolicy(TermsOf(CurrentLimit(s).value), newKey), AboveLimitPolicy(newKey, s.approval);
    var k, l := PolicyAt(s, s.limitSeed.value), PolicyAt(s, s.aboveSeed.value);
    var x := Signer(newKey, ALL_PERMISSIONS);
    SwapThen(s.account, x, s.primary, [UpdateTo(k, p), UpdateTo(l, q)]);
    RewriteTwo(s.account.(signers := Without(s.account.signers, s.primary) + [x]), k, p, l, q);
  }

  lemma RewriteTwo(a: Account, k: Key, p: Policy, l: Key, q: Policy)
    requires k in a.policies && l in a.policies
    ensures ApplyAll(a, [UpdateTo(k, p), UpdateTo(l, q)]) == Ok(a.(policies := a.policies[k := p][l := q]))
  {
    ApplyTwo(a, UpdateTo(k, p), UpdateTo(l, q));
  }

  lemma RotatePrimaryFresh(s: System, newKey: Key)
    requires Step(s, RotatePrimary(newKey)) != s
    ensures !Names(s.account.signers, newKey)
  {
    var built := Propose(s, RotatePrimary(newKey)).value;
    assert built.Ok?;
    assert ActionsOf(built.value)[0] == AddSigner(Signer(newKey, ALL_PERMISSIONS));
  }

  lemma AfterPrimaryPolicies(s: System, newKey: Key, t: System)
    requires PoliciesOk(s) && CurrentLimit(s).Some? && s.aboveSeed.Some?
    requires t == s.(account := AfterPrimary(s, newKey), primary := newKey)
    ensures PoliciesOk(t)
  {
    LimitIsRead(s);
    assert ReadTerms(LimitPolicy(TermsOf(CurrentLimit(s).value), newKey)) == Some(TermsOf(CurrentLimit(s).value));
  }

  lemma RotatePrimaryKeeps(s: System, newKey: Key)
    requires WellFormed(s)
    ensures WellFormed(Step(s, RotatePrimary(newKey)))
  {
    var t := Step(s, RotatePrimary(newKey));
    if t != s {
      RotatePrimaryFresh(s, newKey);
      OnDeviceNamed(s);
      RotatePrimaryRuns(s, newKey);
      assert t == s.(account := AfterPrimary(s, newKey), primary := newKey);
      SwapOnDevice(s, s.primary, newKey, t);
      AfterPrimaryPolicies(s, newKey, t);
    }
  }

  lemma SignersUnmoved(s: System, t: System)
    requires SignersOk(s)
    requires t.account.signers == s.account.signers && t.account.threshold == s.account.threshold
    requires t.primary == s.primary && t.approval == s.approval
    ensures SignersOk(t)
  {
  }

  function CreateOf(seed: nat, p: Policy): SettingsAction {
    PolicyCreate(seed, p.payload, p.signers, p.threshold, p.timeLock)
  }

  function AfterProvision(s: System, terms: Terms, timeLock: nat): Account {
    s.account.(
      lastSeed := s.account.lastSeed + 2,
      timeLock := timeLock,
      policies := s.account.policies[PolicyAt(s, s.account.lastSeed + 1) := LimitPolicy(terms, s.primary)]
                                    [PolicyAt(s, s.account.lastSeed + 2) := AboveLimitPolicy(s.primary, s.approval)])
  }

  lemma ProvisionRuns(s: System, terms: Terms, timeLock: nat)
    requires s.limitSeed.None? && s.aboveSeed.None? && s.primary != s.approval && terms.maxPerUse <= terms.maxPerPeriod
    ensures var built := Propose(s, Provision(terms, timeLock));
            && built.Some? && built.value.Ok?
            && ApplyAll(s.account, ActionsOf(built.value.value)) == Ok(AfterProvision(s, terms, timeLock))
  {
    DefaultIsAllowed(s.primary, s.approval);
    var limit := CreateOf(s.account.lastSeed + 1, LimitPolicy(terms, s.primary));
    var above := CreateOf(s.account.lastSeed + 2, AboveLimitPolicy(s.primary, s.approval));
    var actions := ActionsOf(Propose(s, Provision(terms, timeLock)).value.value);
    assert actions == [limit] + [above, SetTimeLock(timeLock)];
    ApplyTwo(Apply(s.account, limit).value, above, SetTimeLock(timeLock));
  }
}
