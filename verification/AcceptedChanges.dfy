/**
 * What acceptance leaves open: executing an accepted change keeps an Account well
 * formed exactly when the masks and rules in it are right, which the check does not
 * look at.
 */
module AcceptedChanges {
  import opened Wrappers
  import opened Keys
  import opened Squads
  import opened Chain
  import opened Lifecycle
  import opened Describe
  import opened Verify
  import opened ActionLists
  import opened SettingsSoundness
  import B = Builders
  import P = LifecycleProofs
  import W = Walks

  // ---- what a list leaves ----

  /** A rule as a list of rewrites leaves it. */
  function Left(raw: seq<SettingsAction>, key: Key, was: Policy): Policy {
    if raw == [] then was
    else if raw[0].PolicyUpdate? && raw[0].policy == key then
      Left(raw[1..], key, Policy(raw[0].update, raw[0].updateSigners, raw[0].updateThreshold, raw[0].updateTimeLock))
    else Left(raw[1..], key, was)
  }

  lemma {:induction false} RulesLeft(a: Account, raw: seq<SettingsAction>, settings: Key, key: Key)
    requires ApplyAll(a, raw).Ok? && key in a.policies
    requires Count(DescribeActions(raw, settings), Creating) == 0
    requires Count(DescribeActions(raw, settings), Dropping) == 0
    ensures key in ApplyAll(a, raw).value.policies
    ensures ApplyAll(a, raw).value.policies[key] == Left(raw, key, a.policies[key])
    decreases |raw|
  {
    if raw != [] {
      CountHead(raw, settings, Creating);
      CountHead(raw, settings, Dropping);
      RulesLeft(Apply(a, raw[0]).value, raw[1..], settings, key);
    }
  }

  /** Every rule, as the list leaves it, is the one its Account's own builders write for these keys. */
  ghost predicate RulesRight(s: System, raw: seq<SettingsAction>, primary: Key, approval: Key)
    requires PoliciesOk(s)
  {
    && (s.limitSeed.Some? ==>
          var key := PolicyAt(s, s.limitSeed.value);
          IsLimitPolicy(Left(raw, key, s.account.policies[key]), primary))
    && (s.aboveSeed.Some? ==>
          var key := PolicyAt(s, s.aboveSeed.value);
          Left(raw, key, s.account.policies[key]) == AboveLimitPolicy(primary, approval))
  }

  ghost predicate MasksAre(raw: seq<SettingsAction>, mask: Mask) {
    forall x :: AddSigner(x) in raw ==> x.mask == mask
  }

  lemma PoliciesKeptIff(s: System, raw: seq<SettingsAction>, settings: Key, t: System)
    requires PoliciesOk(s) && ApplyAll(s.account, raw).Ok?
    requires Count(DescribeActions(raw, settings), Creating) == 0
    requires Count(DescribeActions(raw, settings), Dropping) == 0
    requires t == s.(account := ApplyAll(s.account, raw).value, primary := t.primary, approval := t.approval)
    requires t.account.settings == s.account.settings && t.account.lastSeed == s.account.lastSeed
    requires t.account.policies.Keys == s.account.policies.Keys
    ensures PoliciesOk(t) <==> RulesRight(s, raw, t.primary, t.approval)
  {
    if s.limitSeed.Some? { RulesLeft(s.account, raw, settings, PolicyAt(s, s.limitSeed.value)); }
    if s.aboveSeed.Some? { RulesLeft(s.account, raw, settings, PolicyAt(s, s.aboveSeed.value)); }
    assert forall k :: k in t.account.policies <==> k in s.account.policies;
  }

  // ---- the rotations ----

  lemma SwapSignersIff(s: System, raw: seq<SettingsAction>, gone: Key, newKey: Key, t: System)
    requires SignersOk(s) && (gone == s.primary || gone == s.approval) && newKey != gone
    requires ApplyAll(s.account, raw).Ok? && Added(raw) == {newKey} && Removed(raw) == {gone}
    requires t.account == ApplyAll(s.account, raw).value && t.account.threshold == s.account.threshold
    requires t.primary == (if gone == s.primary then newKey else s.primary)
    requires t.approval == (if gone == s.approval then newKey else s.approval)
    ensures SignersOk(t) <==> MasksAre(raw, ALL_PERMISSIONS)
  {
    AllLeft(s.account, raw);
    StaysDistinct(s.account, raw);
    AddedIsNew(s.account, raw, newKey);
    var x := AddedSigner(raw, newKey);
    forall z | AddSigner(z) in raw ensures z.key == newKey { AddedKeys(raw, z); }
    if MasksAre(raw, ALL_PERMISSIONS) {
      assert x == Signer(newKey, ALL_PERMISSIONS);
    }
  }

  /** A key taken out and put back comes back as it was; one put in and taken out again was never there. */
  ghost predicate Restores(s: System, raw: seq<SettingsAction>) {
    forall x :: AddSigner(x) in raw && Names(s.account.signers, x.key) ==> x in s.account.signers
  }

  /** A key's mask on a well-formed Account is its role's. */
  lemma RoleHolds(s: System, x: Signer)
    requires SignersOk(s) && x in s.account.signers
    ensures x.mask == if x.key == s.primary || x.key == s.approval then ALL_PERMISSIONS else B.RECOVERY_PERMISSIONS
  {
    assert Signer(s.primary, ALL_PERMISSIONS) in s.account.signers
        && Signer(s.approval, ALL_PERMISSIONS) in s.account.signers;
  }

  lemma RestoredSignersIff(s: System, raw: seq<SettingsAction>, settings: Key, key: Key, t: System)
    requires SignersOk(s) && ApplyAll(s.account, raw).Ok? && Added(raw) == {key} == Removed(raw)
    requires Count(DescribeActions(raw, settings), Adding) <= 1
    requires Count(DescribeActions(raw, settings), Removing) <= 1
    requires t == s.(account := ApplyAll(s.account, raw).value) && t.account.threshold == s.account.threshold
    ensures SignersOk(t) <==> Restores(s, raw)
  {
    OneKeyBothWays(s.account, raw, settings, key);
    StaysDistinct(s.account, raw);
    forall x | AddSigner(x) in raw ensures x.key == key { AddedKeys(raw, x); }
    var z := AddedSigner(raw, key);
    if Names(s.account.signers, key) {
      var was :| was in s.account.signers && was.key == key;
      assert z in t.account.signers;
      assert forall x :: AddSigner(x) in raw ==> x == z;
      if SignersOk(t) {
        RoleHolds(s, was);
        RoleHolds(t, z);
      }
      if Restores(s, raw) {
        assert forall x :: x in t.account.signers <==> x in s.account.signers;
      }
    } else {
      assert forall x :: x in t.account.signers <==> x in s.account.signers;
    }
  }

  lemma SameKeyMasks(s: System, raw: seq<SettingsAction>, key: Key)
    requires SignersOk(s) && (key == s.primary || key == s.approval) && Added(raw) == {key}
    ensures Restores(s, raw) <==> MasksAre(raw, ALL_PERMISSIONS)
  {
    P.OnDeviceNamed(s);
    forall x | AddSigner(x) in raw ensures x.key == key && (x in s.account.signers <==> x.mask == ALL_PERMISSIONS) {
      AddedKeys(raw, x);
      assert Signer(key, ALL_PERMISSIONS) in s.account.signers;
    }
  }

  lemma RotatedSignersIff(s: System, raw: seq<SettingsAction>, settings: Key, gone: Key, newKey: Key, t: System)
    requires SignersOk(s) && (gone == s.primary || gone == s.approval)
    requires ApplyAll(s.account, raw).Ok? && Added(raw) == {newKey} && Removed(raw) == {gone}
    requires Count(DescribeActions(raw, settings), Adding) <= 1
    requires Count(DescribeActions(raw, settings), Removing) <= 1
    requires t == s.(account := ApplyAll(s.account, raw).value,
                     primary := if gone == s.primary then newKey else s.primary,
                     approval := if gone == s.approval then newKey else s.approval)
    requires t.account.threshold == s.account.threshold
    ensures SignersOk(t) <==> MasksAre(raw, ALL_PERMISSIONS)
  {
    if newKey == gone {
      RestoredSignersIff(s, raw, settings, gone, t);
      SameKeyMasks(s, raw, gone);
    } else {
      SwapSignersIff(s, raw, gone, newKey, t);
    }
  }

  /**
   * A rotation the device accepts keeps the Account well formed exactly when the key
   * it brings in holds every permission and each rule, as it leaves it, is the one
   * the builders write for the new keys. The key may be the retired one come back.
   */
  lemma AcceptedRotationKeepsIff(s: System, raw: seq<SettingsAction>, settings: Key, vault: Key, newKey: Key, gone: Key,
                                 updates: nat, t: System)
    requires WellFormed(s) && (gone == s.primary || gone == s.approval)
    requires Accepts(DescribeActions(raw, settings), Swap(vault, Some(newKey), gone, updates))
    requires Execute(s.account, raw).Ok?
    requires t == s.(account := Execute(s.account, raw).value,
                     primary := if gone == s.primary then newKey else s.primary,
                     approval := if gone == s.approval then newKey else s.approval)
    ensures WellFormed(t) <==> MasksAre(raw, ALL_PERMISSIONS) && RulesRight(s, raw, t.primary, t.approval)
  {
    var e := Swap(vault, Some(newKey), gone, updates);
    TermsMoved(s.account, raw, settings, e);
    RulesRewritten(s.account, raw, settings, e);
    NamedOnly(raw, settings, e);
    assert Added(raw) == {newKey} && Removed(raw) == {gone};
    SettingsStand(s.account, raw);
    RotatedSignersIff(s, raw, settings, gone, newKey, t);
    PoliciesKeptIff(s, raw, settings, t);
  }

  /** A rotation accepted with no new key named leaves no two keys that could be the Account's own. */
  lemma AcceptedRetirementNeverKeeps(s: System, raw: seq<SettingsAction>, settings: Key, vault: Key, gone: Key,
                                     updates: nat, t: System)
    requires WellFormed(s) && (gone == s.primary || gone == s.approval)
    requires Accepts(DescribeActions(raw, settings), Swap(vault, None, gone, updates))
    requires Execute(s.account, raw) == Ok(t.account)
    ensures !WellFormed(t)
  {
    NamedOnly(raw, settings, Swap(vault, None, gone, updates));
    assert Added(raw) == {} && Removed(raw) == {gone};
    AllLeft(s.account, raw);
    forall x | AddSigner(x) in raw ensures false { AddedKeys(raw, x); }
  }

  // ---- the recovery change ----

  /** Vote-only keys in, recovery keys out, and one of them left. */
  ghost predicate MovesRecovery(s: System, raw: seq<SettingsAction>) {
    && MasksAre(raw, B.RECOVERY_PERMISSIONS)
    && s.primary !in Removed(raw) && s.approval !in Removed(raw)
    && (Added(raw) != {} || exists k :: IsRecovery(s, k) && k !in Removed(raw))
  }

  lemma RecoverySignersIff(s: System, raw: seq<SettingsAction>, t: System)
    requires SignersOk(s) && ApplyAll(s.account, raw).Ok? && Added(raw) !! Removed(raw)
    requires t == s.(account := ApplyAll(s.account, raw).value) && t.account.threshold == s.account.threshold
    ensures SignersOk(t) <==> MovesRecovery(s, raw)
  {
    AllLeft(s.account, raw);
    StaysDistinct(s.account, raw);
    forall x | AddSigner(x) in raw ensures x.key in Added(raw) && !Names(s.account.signers, x.key) {
      AddedKeys(raw, x);
      AddedIsNew(s.account, raw, x.key);
    }
    assert Signer(s.primary, ALL_PERMISSIONS) in s.account.signers
        && Signer(s.approval, ALL_PERMISSIONS) in s.account.signers;
    if MovesRecovery(s, raw) {
      if Added(raw) != {} {
        var k :| k in Added(raw);
        var x := AddedSigner(raw, k);
        assert x in t.account.signers && x.key != s.primary && x.key != s.approval;
      } else {
        var k :| IsRecovery(s, k) && k !in Removed(raw);
        var x :| x in s.account.signers && x.key == k;
        assert x in t.account.signers;
      }
    }
    if SignersOk(t) {
      forall x | AddSigner(x) in raw ensures x.mask == B.RECOVERY_PERMISSIONS {
        assert x in t.account.signers && x.key != s.primary && x.key != s.approval;
      }
      var x :| x in t.account.signers && x.key != s.primary && x.key != s.approval;
      assert (IsRecovery(s, x.key) && x.key !in Removed(raw)) || AddSigner(x) in raw;
    }
  }

  lemma SignersKeptIff(s: System, raw: seq<SettingsAction>, settings: Key, t: System)
    requires SignersOk(s) && ApplyAll(s.account, raw).Ok?
    requires Count(DescribeActions(raw, settings), Adding) <= 1
    requires Count(DescribeActions(raw, settings), Removing) <= 1
    requires t == s.(account := ApplyAll(s.account, raw).value) && t.account.threshold == s.account.threshold
    ensures SignersOk(t) <==> if Added(raw) !! Removed(raw) then MovesRecovery(s, raw) else Restores(s, raw)
  {
    if Added(raw) !! Removed(raw) {
      RecoverySignersIff(s, raw, t);
    } else {
      var key :| key in Added(raw) && key in Removed(raw);
      OneEach(raw, settings);
      OnlyOne(Added(raw), key);
      OnlyOne(Removed(raw), key);
      RestoredSignersIff(s, raw, settings, key, t);
    }
  }

  /**
   * A recovery change the device accepts keeps the Account well formed exactly when it
   * moves recovery keys alone, or puts back the one key it takes out as that key was,
   * and rewrites no rule into anything but its own.
   */
  lemma AcceptedRecoveryKeepsIff(s: System, raw: seq<SettingsAction>, settings: Key, plan: W.Plan, device: W.Device,
                                 t: System)
    requires WellFormed(s)
    requires Accepts(DescribeActions(raw, settings), W.Bounds(W.RecoveryChange, plan, device))
    requires Execute(s.account, raw).Ok?
    requires t == s.(account := Execute(s.account, raw).value)
    ensures WellFormed(t) <==>
            (if Added(raw) !! Removed(raw) then MovesRecovery(s, raw) else Restores(s, raw))
            && RulesRight(s, raw, s.primary, s.approval)
  {
    var e := W.Bounds(W.RecoveryChange, plan, device);
    TermsMoved(s.account, raw, settings, e);
    RulesRewritten(s.account, raw, settings, e);
    SettingsStand(s.account, raw);
    SignersKeptIff(s, raw, settings, t);
    PoliciesKeptIff(s, raw, settings, t);
  }
}
